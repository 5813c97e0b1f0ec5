/**
 TileLink messages: the 64-bit header, the sizes the program derives from it,
 and what remains of a message once the frame's mask flit has been written.
 */
module TileLinkMsg {

  type byte = x: int | 0 <= x < 256

  datatype Option<+T> = None | Some(value: T)

  const CHANNEL_A := 1
  const CHANNEL_B := 2
  const CHANNEL_C := 3
  const CHANNEL_D := 4
  const CHANNEL_E := 5
  const CHANNEL_NUM := 6

  const A_PUTFULLDATA := 0
  const A_GET := 4
  const D_ACCESSACK := 0
  const D_ACCESSACKDATA := 1

  /** Largest message that fits a frame of 65 flits. */
  const MAX_MSG_BYTES := 520

  /** The fields of a message header, lowest bits first. */
  datatype TlHeader = TlHeader(
    source: nat, reserved: nat, err: nat, domain: nat, size: nat,
    param: nat, reserved2: nat, opcode: nat, chan: nat, reserved1: nat)

  predicate FieldsFit(h: TlHeader) {
    && h.source < 0x400_0000 && h.reserved < 0x1000 && h.err < 4 && h.domain < 0x100 && h.size < 0x10
    && h.param < 0x10 && h.reserved2 < 2 && h.opcode < 8 && h.chan < 8 && h.reserved1 < 2
  }

  function Pow2(k: nat): (p: nat)
    ensures p >= 1
  {
    if k == 0 then 1 else 2 * Pow2(k - 1)
  }

  /** Bytes of the header part. Channels and opcodes the program does not know
      have no bytes: it shifts by -1 there, which stands for zero. */
  function HeaderSize(h: TlHeader): nat {
    if h.chan == CHANNEL_A || h.chan == CHANNEL_B || h.chan == CHANNEL_C then 16
    else if h.chan == CHANNEL_D then
      if h.opcode in {0, 1, 2, 6} then 8
      else if h.opcode in {4, 5} then 16
      else 0
    else if h.chan == CHANNEL_E then 8
    else 0
  }

  /** Bytes of the data part. On channels A, B and C the program tests the opcode
      against the opcodes of all three channels, whatever the channel is. */
  function DataSize(h: TlHeader): nat {
    if h.chan == CHANNEL_A || h.chan == CHANNEL_B || h.chan == CHANNEL_C then
      if h.opcode in {0, 1, 2, 3, 5, 7} then Pow2(h.size) else 0
    else if h.chan == CHANNEL_D then
      if h.opcode in {1, 5} then Pow2(h.size) else 0
    else 0
  }

  function TotalSize(h: TlHeader): nat {
    HeaderSize(h) + DataSize(h)
  }

  function SizeToFlits(size: nat): nat {
    (size + 7) / 8
  }

  /** The credit a message costs. */
  function Flits(h: TlHeader): nat {
    SizeToFlits(HeaderSize(h)) + SizeToFlits(DataSize(h))
  }

  datatype RawMsg = RawMsg(header: TlHeader, data: seq<byte>)

  /** A message as the program allocates it: known channel and opcode, exactly the
      bytes its header announces, and small enough for a frame, as is the
      reply to it when it is a read. `data` is everything after the header word. */
  predicate ValidMsg(m: RawMsg) {
    && FieldsFit(m.header)
    && CHANNEL_A <= m.header.chan <= CHANNEL_E
    && 8 <= TotalSize(m.header) <= MAX_MSG_BYTES
    && 8 + |m.data| == TotalSize(m.header)
    && (m.header.chan == CHANNEL_A && m.header.opcode == A_GET ==> m.header.size <= 9)
  }

  function Reply(opcode: nat, size: nat, source: nat): TlHeader {
    TlHeader(source, 0, 0, 0, size, 0, 0, opcode, CHANNEL_D, 0)
  }

  type TlMsg = m: RawMsg | ValidMsg(m) witness RawMsg(Reply(D_ACCESSACK, 0, 0), [])

  /** Messages of at most five flits leave the frame's mask flit free. */
  predicate LeavesMaskFree(h: TlHeader) {
    TotalSize(h) <= 40
  }

  /** The message a receiver extracts: a larger message shares its last flit with
      the mask, and the mask is written last. */
  function OnWire(m: TlMsg): (w: TlMsg)
    ensures w.header == m.header && |w.data| == |m.data|
    ensures LeavesMaskFree(m.header) ==> w == m
  {
    if LeavesMaskFree(m.header) then m
    else RawMsg(m.header, m.data[..|m.data| - 8] + [1, 0, 0, 0, 0, 0, 0, 0])
  }

  /** The message gets through whole exactly when the mask flit is free, or its last flit is
      what the mask puts there. */
  lemma OnWireExactIff(m: TlMsg)
    ensures OnWire(m) == m
      <==> LeavesMaskFree(m.header) || (|m.data| >= 8 && m.data[|m.data| - 8..] == [1, 0, 0, 0, 0, 0, 0, 0])
  {
    if !LeavesMaskFree(m.header) {
      LargeMessagesAreWholeFlits(m);
      var front := m.data[..|m.data| - 8];
      assert m.data == front + m.data[|m.data| - 8..];
      assert OnWire(m).data[|m.data| - 8..] == [1, 0, 0, 0, 0, 0, 0, 0];
    }
  }

  /** A write of 32 zeros to address 0, which arrives as 24 zeros and a one. */
  lemma LargeWriteChanges(m: RawMsg)
    requires m == RawMsg(TlHeader(0, 0, 0, 0, 5, 0, 0, A_PUTFULLDATA, CHANNEL_A, 0), seq(40, _ => 0))
    ensures ValidMsg(m) && OnWire(m) != m && OnWire(m).data[32] == 1
  {
    assert Pow2(5) == 32;
    assert ValidMsg(m) && !LeavesMaskFree(m.header);
    assert OnWire(m).data == m.data[..32] + [1, 0, 0, 0, 0, 0, 0, 0];
    assert m.data[32] == 0;
  }

  /** A second pass through a frame changes nothing more. */
  lemma OnWireIdempotent(m: TlMsg)
    ensures OnWire(OnWire(m)) == OnWire(m)
  {
    var w := OnWire(m);
    if !LeavesMaskFree(m.header) {
      assert w.data[..|w.data| - 8] == m.data[..|m.data| - 8];
    }
  }

  /** A message costs as many credits as it takes flits to hold all its bytes, and no more. */
  lemma FlitsBounds(m: TlMsg)
    ensures 1 <= Flits(m.header)
    ensures 8 * (Flits(m.header) - 1) < 8 + |m.data| <= 8 * Flits(m.header)
  {
  }

  /** The cost of every message the program knows: two credits for a request of channel A, B
      or C without data, one for a reply without data, two for a grant, and the data in
      flits rounded up. */
  lemma FlitsTable(h: TlHeader)
    ensures h.chan in {1, 2, 3} ==> Flits(h) == 2 + if h.opcode in {0, 1, 2, 3, 5, 7} then (Pow2(h.size) + 7) / 8 else 0
    ensures h.chan == 4 && h.opcode in {0, 2, 6} ==> Flits(h) == 1
    ensures h.chan == 4 && h.opcode == 1 ==> Flits(h) == 1 + (Pow2(h.size) + 7) / 8
    ensures h.chan == 4 && h.opcode == 4 ==> Flits(h) == 2
    ensures h.chan == 4 && h.opcode == 5 ==> Flits(h) == 2 + (Pow2(h.size) + 7) / 8
    ensures h.chan == 5 ==> Flits(h) == 1
  {
  }

  lemma Pow2Monotone(i: nat, j: nat)
    requires i <= j
    ensures Pow2(i) <= Pow2(j)
    decreases j
  {
    if i < j { Pow2Monotone(i, j - 1); }
  }

  /** Messages over five flits are whole flits, so the shared flit is data only. */
  lemma {:induction false} LargeMessagesAreWholeFlits(m: TlMsg)
    requires !LeavesMaskFree(m.header)
    ensures TotalSize(m.header) % 8 == 0 && |m.data| >= 40
  {
    var h := m.header;
    if DataSize(h) != 0 {
      assert Pow2(4) == 16 && Pow2(3) == 8;
      if h.size < 5 {
        Pow2Monotone(h.size, 4);
        assert false;
      }
      Pow2Splits(3, h.size - 3);
    }
  }

  lemma Pow2Splits(i: nat, j: nat)
    ensures Pow2(i + j) == Pow2(i) * Pow2(j)
  {
    if j > 0 {
      Pow2Splits(i, j - 1);
      assert Pow2(i + j) == 2 * Pow2(i + (j - 1));
    }
  }

  function OnWireAll(ms: seq<TlMsg>): (ws: seq<TlMsg>)
    ensures |ws| == |ms|
    ensures forall i :: 0 <= i < |ms| ==> ws[i] == OnWire(ms[i])
  {
    if ms == [] then [] else OnWireAll(ms[..|ms| - 1]) + [OnWire(ms[|ms| - 1])]
  }
}
