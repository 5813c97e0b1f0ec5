/**
 Frames as bytes: bit fields packed into 64-bit words, a message copied into the
 flits of a frame, the mask written over the last flit, and every word sent
 big-endian. The machine is little-endian, as the program's bit fields assume.
 */
module Codec {
  import opened Sequences
  import opened TileLinkMsg
  import opened EndpointSpec

  type Word = w: nat | w < 0x1_0000_0000_0000_0000

  // ---------- bit fields ----------

  /** The field `v` of `k` bits below the bits of `rest`. */
  function Join(v: nat, k: nat, rest: nat): nat {
    if k == 0 then rest else v % 2 + 2 * Join(v / 2, k - 1, rest)
  }

  /** The lowest `k` bits. */
  function Low(w: nat, k: nat): nat {
    if k == 0 then 0 else w % 2 + 2 * Low(w / 2, k - 1)
  }

  function Shift(w: nat, k: nat): nat {
    if k == 0 then w else Shift(w / 2, k - 1)
  }

  /** A field reads back, what is above it reads back, and it takes k bits. */
  lemma {:induction false} JoinSplits(v: nat, k: nat, rest: nat, j: nat)
    requires v < Pow2(k) && rest < Pow2(j)
    ensures Low(Join(v, k, rest), k) == v
    ensures Shift(Join(v, k, rest), k) == rest
    ensures Join(v, k, rest) < Pow2(k + j)
  {
    if k > 0 {
      JoinSplits(v / 2, k - 1, rest, j);
      var low := Join(v / 2, k - 1, rest);
      assert Join(v, k, rest) == v % 2 + 2 * low;
      assert (v % 2 + 2 * low) / 2 == low && (v % 2 + 2 * low) % 2 == v % 2;
    }
  }

  lemma SmallPowers()
    ensures Pow2(1) == 2 && Pow2(2) == 4 && Pow2(3) == 8 && Pow2(4) == 16 && Pow2(5) == 32
    ensures Pow2(8) == 0x100 && Pow2(12) == 0x1000 && Pow2(22) == 0x40_0000 && Pow2(26) == 0x400_0000
    ensures Pow2(64) == 0x1_0000_0000_0000_0000
  {
    assert Pow2(4) == 16;
    Pow2Splits(4, 4);
    Pow2Splits(8, 4);
    Pow2Splits(8, 8);
    Pow2Splits(16, 6);
    Pow2Splits(22, 4);
    Pow2Splits(16, 16);
    Pow2Splits(32, 32);
  }

  lemma {:induction false} JoinIsSum(v: nat, k: nat, rest: nat)
    requires v < Pow2(k)
    ensures Join(v, k, rest) == v + Pow2(k) * rest
  {
    if k > 0 {
      JoinIsSum(v / 2, k - 1, rest);
      assert 2 * (Pow2(k - 1) * rest) == Pow2(k) * rest;
    }
  }

  // ---------- the frame header ----------

  function KindCode(k: Kind): nat {
    match k
    case NormalFrame => 0
    case AckOnlyFrame => 1
    case OpenFrame => 2
    case CloseFrame => 3
  }

  function KindOf(code: nat): Kind {
    if code == 1 then AckOnlyFrame else if code == 2 then OpenFrame else if code == 3 then CloseFrame else NormalFrame
  }

  /** Header numbers within their fields. */
  predicate Encodable(f: Frame) {
    0 <= f.seqNum < 0x40_0000 && 0 <= f.seqNumAck < 0x40_0000 && f.credit < 32
  }

  /** credit:5 chan:3 reserve3:1 ack:1 seq_num_ack:22 seq_num:22 reserve2:2 reserve1:1 type:4 vc:3 */
  function TloeBits(f: Frame): nat
    requires Encodable(f)
  {
    Join(f.credit, 5, Join(f.chan, 3, Join(0, 1, Join(if f.isAck then 1 else 0, 1,
      Join(f.seqNumAck, 22, Join(f.seqNum, 22, Join(0, 2, Join(0, 1, Join(KindCode(f.kind), 4, 0)))))))))
  }

  /** The place of each field: bit 0, 5, 9, 10, 32 and 57. */
  lemma TloeLayout(f: Frame)
    requires Encodable(f)
    ensures TloeBits(f)
            == f.credit + 0x20 * f.chan + 0x200 * (if f.isAck then 1 else 0) + 0x400 * f.seqNumAck
               + 0x1_0000_0000 * f.seqNum
               + 0x200_0000_0000_0000 * match f.kind
                                        case NormalFrame => 0
                                        case AckOnlyFrame => 1
                                        case OpenFrame => 2
                                        case CloseFrame => 3
  {
    SmallPowers();
    var w8 := Join(KindCode(f.kind), 4, 0);
    var w6 := Join(0, 2, Join(0, 1, w8));
    var w4 := Join(f.seqNumAck, 22, Join(f.seqNum, 22, w6));
    var w3 := Join(if f.isAck then 1 else 0, 1, w4);
    JoinIsSum(KindCode(f.kind), 4, 0);
    JoinIsSum(0, 1, w8);
    JoinIsSum(0, 2, Join(0, 1, w8));
    JoinIsSum(f.seqNum, 22, w6);
    JoinIsSum(f.seqNumAck, 22, Join(f.seqNum, 22, w6));
    JoinIsSum(if f.isAck then 1 else 0, 1, w4);
    JoinIsSum(0, 1, w3);
    JoinIsSum(f.chan, 3, Join(0, 1, w3));
    JoinIsSum(f.credit, 5, Join(f.chan, 3, Join(0, 1, w3)));
  }

  /** The header as read from a word; `msg` is filled in from the flits. */
  function TloeHeaderOf(w: nat, msg: Option<TlMsg>): Frame {
    var w1 := Shift(w, 5);
    var w2 := Shift(w1, 3);
    var w3 := Shift(w2, 1);
    var w4 := Shift(w3, 1);
    var w5 := Shift(w4, 22);
    var w6 := Shift(w5, 22);
    var w7 := Shift(w6, 2);
    var w8 := Shift(w7, 1);
    Frame(KindOf(Low(w8, 4)), Low(w5, 22), Low(w4, 22), Low(w3, 1) == 1,
          if Low(w1, 3) < 6 then Low(w1, 3) else 0, Low(w, 5), msg)
  }

  lemma KindRoundTrip(k: Kind)
    ensures var w6 := Join(0, 2, Join(0, 1, Join(KindCode(k), 4, 0)));
      KindOf(Low(Shift(Shift(w6, 2), 1), 4)) == k && w6 < Pow2(10)
  {
    SmallPowers();
    var w8 := Join(KindCode(k), 4, 0);
    JoinSplits(KindCode(k), 4, 0, 3);
    JoinSplits(0, 1, w8, 7);
    JoinSplits(0, 2, Join(0, 1, w8), 8);
  }

  /** The two sequence numbers above the ack bit. */
  lemma NumbersRoundTrip(f: Frame, high: nat)
    requires Encodable(f) && high < Pow2(10)
    ensures var w5 := Join(f.seqNum, 22, high); var w4 := Join(f.seqNumAck, 22, w5);
      && Low(w4, 22) == f.seqNumAck && Shift(w4, 22) == w5 && w4 < Pow2(54)
      && Low(w5, 22) == f.seqNum && Shift(w5, 22) == high
  {
    SmallPowers();
    var w5 := Join(f.seqNum, 22, high);
    JoinSplits(f.seqNum, 22, high, 10);
    JoinSplits(f.seqNumAck, 22, w5, 32);
  }

  /** The fields below them. */
  lemma LowRoundTrip(f: Frame, w4: nat)
    requires Encodable(f) && w4 < Pow2(54)
    ensures var ack := if f.isAck then 1 else 0;
      var w3 := Join(ack, 1, w4); var w2 := Join(0, 1, w3); var w1 := Join(f.chan, 3, w2); var w := Join(f.credit, 5, w1);
      && Low(w, 5) == f.credit && Shift(w, 5) == w1 && Low(w1, 3) == f.chan && Shift(w1, 3) == w2
      && Shift(w2, 1) == w3 && Low(w3, 1) == ack && Shift(w3, 1) == w4
      && w < 0x1_0000_0000_0000_0000
  {
    SmallPowers();
    var ack := if f.isAck then 1 else 0;
    var w3 := Join(ack, 1, w4);
    var w2 := Join(0, 1, w3);
    JoinSplits(ack, 1, w4, 54);
    JoinSplits(0, 1, w3, 55);
    JoinSplits(f.chan, 3, w2, 56);
    JoinSplits(f.credit, 5, Join(f.chan, 3, w2), 59);
  }

  lemma TloeHeaderRoundTrip(f: Frame)
    requires Encodable(f)
    ensures TloeBits(f) < 0x1_0000_0000_0000_0000
    ensures TloeHeaderOf(TloeBits(f), f.msg) == f
  {
    var w6 := Join(0, 2, Join(0, 1, Join(KindCode(f.kind), 4, 0)));
    KindRoundTrip(f.kind);
    NumbersRoundTrip(f, w6);
    LowRoundTrip(f, Join(f.seqNumAck, 22, Join(f.seqNum, 22, w6)));
  }

  // ---------- the message header ----------

  /** source:26 reserved:12 err:2 domain:8 size:4 param:4 reserved2:1 opcode:3 chan:3 reserved1:1 */
  function TlBits(h: TlHeader): nat {
    Join(h.source, 26, Join(h.reserved, 12, Join(h.err, 2, Join(h.domain, 8, Join(h.size, 4,
      Join(h.param, 4, Join(h.reserved2, 1, Join(h.opcode, 3, Join(h.chan, 3, h.reserved1)))))))))
  }

  /** The place of each field: bit 0, 26, 38, 40, 48, 52, 56, 57, 60 and 63. */
  lemma TlLayout(h: TlHeader)
    requires FieldsFit(h)
    ensures TlBits(h)
            == h.source + 0x400_0000 * h.reserved + 0x40_0000_0000 * h.err + 0x100_0000_0000 * h.domain
               + 0x1_0000_0000_0000 * h.size + 0x10_0000_0000_0000 * h.param + 0x100_0000_0000_0000 * h.reserved2
               + 0x200_0000_0000_0000 * h.opcode + 0x1000_0000_0000_0000 * h.chan
               + 0x8000_0000_0000_0000 * h.reserved1
  {
    SmallPowers();
    var w8 := Join(h.chan, 3, h.reserved1);
    var w7 := Join(h.opcode, 3, w8);
    var w6 := Join(h.reserved2, 1, w7);
    var w5 := Join(h.param, 4, w6);
    var w4 := Join(h.size, 4, w5);
    var w3 := Join(h.domain, 8, w4);
    var w2 := Join(h.err, 2, w3);
    var w1 := Join(h.reserved, 12, w2);
    JoinIsSum(h.chan, 3, h.reserved1);
    JoinIsSum(h.opcode, 3, w8);
    JoinIsSum(h.reserved2, 1, w7);
    JoinIsSum(h.param, 4, w6);
    JoinIsSum(h.size, 4, w5);
    JoinIsSum(h.domain, 8, w4);
    JoinIsSum(h.err, 2, w3);
    JoinIsSum(h.reserved, 12, w2);
    JoinIsSum(h.source, 26, w1);
  }

  function TlHeaderOf(w: nat): TlHeader {
    var w1 := Shift(w, 26);
    var w2 := Shift(w1, 12);
    var w3 := Shift(w2, 2);
    var w4 := Shift(w3, 8);
    var w5 := Shift(w4, 4);
    var w6 := Shift(w5, 4);
    var w7 := Shift(w6, 1);
    var w8 := Shift(w7, 3);
    TlHeader(Low(w, 26), Low(w1, 12), Low(w2, 2), Low(w3, 8), Low(w4, 4), Low(w5, 4),
             Low(w6, 1), Low(w7, 3), Low(w8, 3), Low(Shift(w8, 3), 1))
  }

  lemma TlHeaderRoundTrip(h: TlHeader)
    requires FieldsFit(h)
    ensures TlBits(h) < 0x1_0000_0000_0000_0000
    ensures TlHeaderOf(TlBits(h)) == h
  {
    SmallPowers();
    var w8 := Join(h.chan, 3, h.reserved1);
    var w7 := Join(h.opcode, 3, w8);
    var w6 := Join(h.reserved2, 1, w7);
    var w5 := Join(h.param, 4, w6);
    var w4 := Join(h.size, 4, w5);
    var w3 := Join(h.domain, 8, w4);
    var w2 := Join(h.err, 2, w3);
    var w1 := Join(h.reserved, 12, w2);
    assert Low(h.reserved1, 1) == h.reserved1;
    JoinSplits(h.chan, 3, h.reserved1, 1);
    JoinSplits(h.opcode, 3, w8, 4);
    JoinSplits(h.reserved2, 1, w7, 7);
    JoinSplits(h.param, 4, w6, 8);
    JoinSplits(h.size, 4, w5, 12);
    JoinSplits(h.domain, 8, w4, 16);
    JoinSplits(h.err, 2, w3, 24);
    JoinSplits(h.reserved, 12, w2, 26);
    JoinSplits(h.source, 26, w1, 38);
  }

  // ---------- words and bytes ----------

  /** The k lowest bytes of w, lowest first, as they lie in memory. */
  function LeBytes(w: nat, k: nat): (bs: seq<byte>)
    ensures |bs| == k
  {
    if k == 0 then [] else [w % 256] + LeBytes(w / 256, k - 1)
  }

  function Pow256(k: nat): nat {
    if k == 0 then 1 else 256 * Pow256(k - 1)
  }

  lemma {:induction false} LeRoundTrip(w: nat, k: nat)
    requires w < Pow256(k)
    ensures LeNat(LeBytes(w, k)) == w
  {
    if k > 0 {
      LeRoundTrip(w / 256, k - 1);
      assert LeBytes(w, k)[1..] == LeBytes(w / 256, k - 1);
    }
  }

  lemma LowByte(low: byte, rest: nat)
    ensures (low + 256 * rest) % 256 == low && (low + 256 * rest) / 256 == rest
  {
  }

  lemma {:induction false} LeNatRoundTrip(bs: seq<byte>)
    ensures LeNat(bs) < Pow256(|bs|) && LeBytes(LeNat(bs), |bs|) == bs
  {
    if bs != [] {
      LeNatRoundTrip(bs[1..]);
      LowByte(bs[0], LeNat(bs[1..]));
      assert bs == [bs[0]] + bs[1..];
    }
  }

  function Reverse(bs: seq<byte>): (r: seq<byte>)
    ensures |r| == |bs|
    ensures forall i :: 0 <= i < |bs| ==> r[i] == bs[|bs| - 1 - i]
  {
    if bs == [] then [] else Reverse(bs[1..]) + [bs[0]]
  }

  lemma ReverseTwice(bs: seq<byte>)
    ensures Reverse(Reverse(bs)) == bs
  {
  }

  lemma EightBytes()
    ensures Pow256(8) == 0x1_0000_0000_0000_0000
  {
    assert Pow256(6) == 0x1_0000_0000_0000 by { assert Pow256(4) == 0x1_0000_0000 by { assert Pow256(2) == 0x1_0000; } }
  }

  function BeBytes(w: Word): (bs: seq<byte>)
    ensures |bs| == 8
  {
    Reverse(LeBytes(w, 8))
  }

  function BeWord(bs: seq<byte>): Word
    requires |bs| == 8
  {
    LeNatRoundTrip(Reverse(bs));
    EightBytes();
    LeNat(Reverse(bs))
  }

  /** The value of four bytes, the lowest first. */
  function Quad(b0: nat, b1: nat, b2: nat, b3: nat): nat {
    b0 + 0x100 * b1 + 0x1_0000 * b2 + 0x100_0000 * b3
  }

  /** Eight bytes that make up a word, the highest first. */
  predicate Spells(bs: seq<byte>, w: nat) {
    |bs| == 8 && w == Quad(bs[7], bs[6], bs[5], bs[4]) + 0x1_0000_0000 * Quad(bs[3], bs[2], bs[1], bs[0])
  }

  lemma LeNatOfFour(bs: seq<byte>)
    requires |bs| == 4
    ensures LeNat(bs) == Quad(bs[0], bs[1], bs[2], bs[3]) < 0x1_0000_0000
  {
    var one, two, three := bs[1..], bs[2..], bs[3..];
    assert one[1..] == two && two[1..] == three && three[1..] == [];
    assert LeNat(three) == bs[3];
    assert LeNat(two) == bs[2] + 0x100 * LeNat(three);
    assert LeNat(one) == bs[1] + 0x100 * LeNat(two);
  }

  lemma {:induction false} LeNatConcat(p: seq<byte>, q: seq<byte>)
    ensures LeNat(p + q) == LeNat(p) + Pow256(|p|) * LeNat(q)
  {
    if p == [] {
      assert p + q == q;
    } else {
      LeNatConcat(p[1..], q);
      assert (p + q)[1..] == p[1..] + q;
      assert 256 * (Pow256(|p| - 1) * LeNat(q)) == Pow256(|p|) * LeNat(q);
    }
  }

  /** An address word, or any other: its low half and its high half. */
  lemma LeNatOfEight(bs: seq<byte>)
    requires |bs| == 8
    ensures LeNat(bs) == LeNat(bs[..4]) + 0x1_0000_0000 * LeNat(bs[4..])
    ensures LeNat(bs[..4]) == Quad(bs[0], bs[1], bs[2], bs[3]) < 0x1_0000_0000
    ensures LeNat(bs[4..]) == Quad(bs[4], bs[5], bs[6], bs[7])
  {
    assert Pow256(4) == 0x1_0000_0000 by { assert Pow256(2) == 0x1_0000; }
    assert bs[..4] + bs[4..] == bs;
    LeNatConcat(bs[..4], bs[4..]);
    LeNatOfFour(bs[..4]);
    LeNatOfFour(bs[4..]);
  }

  /** Network order: the highest byte comes first. */
  lemma BeSpells(w: Word)
    ensures Spells(BeBytes(w), w)
  {
    EightBytes();
    LeRoundTrip(w, 8);
    LeNatOfEight(LeBytes(w, 8));
  }

  /** Host order to network order and back. */
  lemma BeRoundTrip(w: Word)
    ensures BeWord(BeBytes(w)) == w
  {
    EightBytes();
    LeRoundTrip(w, 8);
    ReverseTwice(LeBytes(w, 8));
  }

  /** The flits that a byte string in memory amounts to. */
  function Words(bs: seq<byte>): (ws: seq<Word>)
    requires |bs| % 8 == 0
    ensures |ws| == |bs| / 8
  {
    if bs == [] then []
    else
      LeNatRoundTrip(bs[..8]);
      EightBytes();
      [LeNat(bs[..8])] + Words(bs[8..])
  }

  function Bytes(ws: seq<Word>): (bs: seq<byte>)
    ensures |bs| == 8 * |ws|
  {
    if ws == [] then [] else LeBytes(ws[0], 8) + Bytes(ws[1..])
  }

  lemma {:induction false} BytesOfWords(bs: seq<byte>)
    requires |bs| % 8 == 0
    ensures Bytes(Words(bs)) == bs
  {
    if bs != [] {
      BytesOfWords(bs[8..]);
      LeNatRoundTrip(bs[..8]);
      assert bs == bs[..8] + bs[8..];
    }
  }

  lemma BytesCons(w: Word, v: seq<Word>)
    ensures Bytes([w] + v) == LeBytes(w, 8) + Bytes(v)
  {
    assert ([w] + v)[1..] == v;
  }

  lemma {:induction false} BytesConcat(u: seq<Word>, v: seq<Word>)
    ensures Bytes(u + v) == Bytes(u) + Bytes(v)
  {
    if u == [] {
      assert u + v == v;
    } else {
      var w, t := u[0], u[1..];
      assert u == [w] + t;
      BytesConcat(t, v);
      BytesCons(w, t + v);
      BytesCons(w, t);
      Associative([w], t, v);
      Associative(LeBytes(w, 8), Bytes(t), Bytes(v));
    }
  }

  lemma BytesSnoc(init: seq<Word>, last: Word)
    ensures Bytes(init + [last]) == Bytes(init) + LeBytes(last, 8)
  {
    BytesConcat(init, [last]);
    BytesCons(last, []);
    assert [last] + [] == [last];
    assert LeBytes(last, 8) + [] == LeBytes(last, 8);
  }

  /** All flits but the last hold all bytes but the last eight. */
  lemma BytesWithLast(ws: seq<Word>, last: Word)
    requires |ws| >= 1
    ensures Bytes(ws[..|ws| - 1] + [last]) == Bytes(ws)[..8 * (|ws| - 1)] + LeBytes(last, 8)
  {
    var init, was := ws[..|ws| - 1], ws[|ws| - 1];
    assert ws == init + [was];
    BytesSnoc(init, last);
    BytesSnoc(init, was);
  }

  // ---------- flits of a frame ----------

  function FrameSize(m: Option<TlMsg>): nat {
    if m.None? || 8 + TotalSize(m.value.header) < 56 then 56 else 8 + TotalSize(m.value.header)
  }

  function MsgBytes(m: TlMsg): seq<byte> {
    LeBytes(TlBits(m.header), 8) + m.data
  }

  function Zeros(n: nat): (bs: seq<byte>)
    ensures |bs| == n && forall i :: 0 <= i < n ==> bs[i] == 0
  {
    seq(n, _ => 0)
  }

  lemma FrameSizeIsWhole(m: Option<TlMsg>)
    ensures FrameSize(m) % 8 == 0 && FrameSize(m) >= 56
    ensures m.Some? ==> 8 + |MsgBytes(m.value)| <= FrameSize(m)
  {
    if m.Some? && FrameSize(m) != 56 {
      LargeMessagesAreWholeFlits(m.value);
    }
  }

  /** The flits as memory after the message has been copied in. */
  function Copied(m: Option<TlMsg>): (bs: seq<byte>)
    ensures |bs| == FrameSize(m) - 8 && |bs| % 8 == 0 && |bs| >= 48
  {
    FrameSizeIsWhole(m);
    if m.None? then Zeros(48) else MsgBytes(m.value) + Zeros(FrameSize(m) - 8 - |MsgBytes(m.value)|)
  }

  /** The flits after the message and then the mask have been written: the mask goes
      into the last flit of the frame, whatever is there. */
  function FlitsOf(m: Option<TlMsg>): (ws: seq<Word>)
    ensures |ws| == FrameSize(m) / 8 - 1 >= 6
  {
    var ws := Words(Copied(m));
    ws[..|ws| - 1] + [if m.None? then 0 else 1]
  }

  /** What the receiver takes out: nothing under a zero mask, else the message at flit 0
      with as many bytes as its header announces. */
  function Extract(ws: seq<Word>): Option<RawMsg>
    requires |ws| >= 1
  {
    if ws[|ws| - 1] == 0 then None
    else
      var h := TlHeaderOf(ws[0]);
      var n := if 8 <= TotalSize(h) <= |Bytes(ws)| then TotalSize(h) else 8;
      Some(RawMsg(h, Bytes(ws)[8..n]))
  }

  lemma OneFlit()
    ensures LeBytes(1, 8) == [1, 0, 0, 0, 0, 0, 0, 0]
  {
    assert LeBytes(0, 4) == [0, 0, 0, 0] by { assert LeBytes(0, 2) == [0, 0]; }
    assert LeBytes(0, 7) == [0, 0, 0, 0, 0, 0, 0] by { assert LeBytes(0, 6) == [0, 0, 0, 0, 0, 0]; }
    assert LeBytes(1, 8) == [1] + LeBytes(0, 7);
  }

  lemma FirstWord(m: TlMsg, rest: seq<byte>)
    requires (|MsgBytes(m)| + |rest|) % 8 == 0
    ensures TlHeaderOf(Words(MsgBytes(m) + rest)[0]) == m.header
  {
    TlHeaderRoundTrip(m.header);
    EightBytes();
    LeRoundTrip(TlBits(m.header), 8);
    assert (MsgBytes(m) + rest)[..8] == LeBytes(TlBits(m.header), 8);
  }

  /** The bytes of the flits: the message, with the mask over the last eight bytes. */
  lemma LastWordSet(memory: seq<byte>, last: Word)
    requires |memory| >= 8 && |memory| % 8 == 0
    ensures var ws := Words(memory);
      Bytes(ws[..|ws| - 1] + [last]) == memory[..|memory| - 8] + LeBytes(last, 8)
  {
    BytesOfWords(memory);
    BytesWithLast(Words(memory), last);
  }

  lemma FlitBytes(m: TlMsg)
    ensures var memory := Copied(Some(m));
      Bytes(FlitsOf(Some(m))) == memory[..|memory| - 8] + LeBytes(1, 8)
  {
    LastWordSet(Copied(Some(m)), 1);
  }

  /** Flits whose mask is set, and whose bytes after the header are `data`. */
  lemma ExtractOf(ws: seq<Word>, h: TlHeader, data: seq<byte>)
    requires |ws| >= 1 && ws[|ws| - 1] == 1 && TlHeaderOf(ws[0]) == h
    requires TotalSize(h) == 8 + |data| <= |Bytes(ws)| && Bytes(ws)[8..8 + |data|] == data
    ensures Extract(ws) == Some(RawMsg(h, data))
  {
  }

  /** What the mask leaves of the data. */
  lemma MaskedData(word: seq<byte>, data: seq<byte>, pad: seq<byte>, tail: seq<byte>)
    requires |word| == 8 && |tail| == 8 && (|pad| >= 8 || (pad == [] && |data| >= 8))
    ensures var memory := word + data + pad;
      (memory[..|memory| - 8] + tail)[8..8 + |data|] == if pad == [] then data[..|data| - 8] + tail else data
  {
    var memory := word + data + pad;
    if pad == [] {
      assert memory[..|memory| - 8] == word + data[..|data| - 8];
    } else {
      assert memory[..|memory| - 8] == word + data + pad[..|pad| - 8];
    }
  }

  /** The bytes of the flits after the header word. */
  lemma FlitData(m: TlMsg)
    ensures Bytes(FlitsOf(Some(m)))[8..8 + |m.data|] == OnWire(m).data
  {
    FrameSizeIsWhole(Some(m));
    var pad := Zeros(FrameSize(Some(m)) - 8 - |MsgBytes(m)|);
    FlitBytes(m);
    OneFlit();
    if !LeavesMaskFree(m.header) {
      LargeMessagesAreWholeFlits(m);
    }
    MaskedData(LeBytes(TlBits(m.header), 8), m.data, pad, LeBytes(1, 8));
  }

  /** The message survives the frame, but for what the mask overwrites. */
  lemma FlitsRoundTrip(m: TlMsg)
    ensures Extract(FlitsOf(Some(m))) == Some(OnWire(m))
  {
    FrameSizeIsWhole(Some(m));
    FirstWord(m, Zeros(FrameSize(Some(m)) - 8 - |MsgBytes(m)|));
    FlitData(m);
    ExtractOf(FlitsOf(Some(m)), m.header, OnWire(m).data);
  }

  // ---------- packets ----------

  /** Words in network order. */
  function Packet(ws: seq<Word>): (bs: seq<byte>)
    ensures |bs| == 8 * |ws|
  {
    if ws == [] then [] else Packet(ws[..|ws| - 1]) + BeBytes(ws[|ws| - 1])
  }

  function Parse(bs: seq<byte>): (ws: seq<Word>)
    ensures |ws| == |bs| / 8
  {
    if |bs| < 8 then [] else
      var k := 8 * (|bs| / 8 - 1);
      Parse(bs[..k]) + [BeWord(bs[k..k + 8])]
  }

  lemma ParseAppend(bs: seq<byte>, eight: seq<byte>)
    requires |bs| % 8 == 0 && |eight| == 8
    ensures Parse(bs + eight) == Parse(bs) + [BeWord(eight)]
  {
    var all := bs + eight;
    assert all[..|bs|] == bs && all[|bs|..|bs| + 8] == eight;
  }

  lemma PacketLast(ws: seq<Word>, k: nat)
    requires |ws| == k + 1
    ensures Packet(ws) == Packet(ws[..k]) + BeBytes(ws[k])
  {
  }

  lemma ParseOfBoth(front: seq<Word>, bs: seq<byte>, last: Word)
    requires |bs| % 8 == 0 && Parse(bs) == front
    ensures Parse(bs + BeBytes(last)) == front + [last]
  {
    ParseAppend(bs, BeBytes(last));
    BeRoundTrip(last);
  }

  lemma {:induction false} ParsePacket(ws: seq<Word>)
    ensures Parse(Packet(ws)) == ws
  {
    if ws != [] {
      var k := |ws| - 1;
      ParsePacket(ws[..k]);
      PacketLast(ws, k);
      ParseOfBoth(ws[..k], Packet(ws[..k]), ws[k]);
      assert ws == ws[..k] + [ws[k]];
    }
  }

  lemma TloeBitsFit(f: Frame)
    requires Encodable(f)
    ensures TloeBits(f) < 0x1_0000_0000_0000_0000
  {
    TloeLayout(f);
  }

  function EncodeFrame(f: Frame): seq<byte>
    requires Encodable(f)
  {
    TloeBitsFit(f);
    Packet([TloeBits(f)] + FlitsOf(f.msg))
  }

  /** A received packet: the header fields, and the message as extracted. `None`
      stands for a packet no endpoint builds. */
  function DecodeFrame(bs: seq<byte>): Option<Frame>
    requires |bs| >= 16
  {
    var ws := Parse(bs);
    match Extract(ws[1..])
    case None => Some(TloeHeaderOf(ws[0], None))
    case Some(m) => if ValidMsg(m) then Some(TloeHeaderOf(ws[0], Some(m))) else None
  }

  lemma ParsedWords(w: Word, ws: seq<Word>)
    ensures var bs := Packet([w] + ws); |bs| == 8 + 8 * |ws| && Parse(bs)[0] == w && Parse(bs)[1..] == ws
  {
    ParsePacket([w] + ws);
    assert ([w] + ws)[1..] == ws;
  }

  /** Bytes of a packet: 56 at least, and else the frame header, the message header and its
      data. No flit is added for the mask. */
  function PacketSize(m: Option<TlMsg>): (n: nat)
    ensures n >= 56
  {
    if m.None? || |m.value.data| <= 40 then 56 else 16 + |m.value.data|
  }

  lemma FrameSizeIs(m: Option<TlMsg>)
    ensures FrameSize(m) == PacketSize(m) && PacketSize(m) % 8 == 0
  {
    FrameSizeIsWhole(m);
  }

  lemma ParsedFrame(f: Frame)
    requires Encodable(f)
    ensures |EncodeFrame(f)| == FrameSize(f.msg) >= 56
    ensures var ws := Parse(EncodeFrame(f)); ws[0] == TloeBits(f) && ws[1..] == FlitsOf(f.msg)
  {
    TloeBitsFit(f);
    FrameSizeIsWhole(f.msg);
    var w: Word, ws := TloeBits(f), FlitsOf(f.msg);
    assert EncodeFrame(f) == Packet([w] + ws);
    ParsedWords(w, ws);
  }

  /** For every frame whose numbers fit their fields: packing, sending big-endian,
      parsing and extracting give back the same header fields, and the same message
      but for the flit that the mask shares with a message of more than 40 bytes. */
  lemma FrameRoundTrip(f: Frame)
    requires Encodable(f)
    ensures |EncodeFrame(f)| == PacketSize(f.msg)
    ensures DecodeFrame(EncodeFrame(f)) == Some(f.(msg := if f.msg.None? then None else Some(OnWire(f.msg.value))))
  {
    ParsedFrame(f);
    FrameSizeIs(f.msg);
    if f.msg.Some? {
      FlitsRoundTrip(f.msg.value);
    }
    TloeHeaderRoundTrip(f);
    HeaderKeepsRest(TloeBits(f), f);
  }

  lemma HeaderKeepsRest(w: nat, f: Frame)
    requires TloeHeaderOf(w, f.msg) == f
    ensures forall m :: TloeHeaderOf(w, m) == f.(msg := m)
  {
  }

  // ---------- the conversion loops ----------

  /** Writes one word in network order. */
  method PutWord(buffer: array<byte>, offset: nat, w: Word)
    requires offset + 8 <= buffer.Length
    modifies buffer
    ensures buffer[..offset] == old(buffer[..offset])
    ensures buffer[offset..offset + 8] == BeBytes(w)
    ensures forall j :: offset + 8 <= j < buffer.Length ==> buffer[j] == old(buffer[j])
  {
    var bs := BeBytes(w);
    forall i | 0 <= i < 8 {
      buffer[offset + i] := bs[i];
    }
  }

  lemma PacketGrows(header: Word, flits: seq<Word>, i: nat)
    requires i < |flits|
    ensures Packet([header] + flits[..i + 1]) == Packet([header] + flits[..i]) + BeBytes(flits[i])
  {
    var all := [header] + flits[..i + 1];
    assert all[..i + 1] == [header] + flits[..i];
    PacketLast(all, i + 1);
  }

  /** tloe_frame_to_packet; bytes that do not make up a word stay zero. */
  method FrameToPacket(header: Word, flits: array<Word>, size: nat) returns (buffer: array<byte>)
    requires 8 <= size && size / 8 <= 1 + flits.Length
    ensures fresh(buffer) && buffer.Length == size
    ensures buffer[..8 * (size / 8)] == Packet([header] + flits[..size / 8 - 1])
    ensures forall j :: 8 * (size / 8) <= j < size ==> buffer[j] == 0
  {
    buffer := new byte[size](_ => 0);
    var offset := 0;
    PutWord(buffer, offset, header);
    offset := offset + 8;
    PacketLast([header], 0);
    var count := size / 8 - 1;
    for i := 0 to count
      invariant offset == 8 + 8 * i
      invariant buffer[..offset] == Packet([header] + flits[..i])
      invariant forall j :: offset <= j < size ==> buffer[j] == 0
    {
      ghost var before := buffer[..offset];
      PutWord(buffer, offset, flits[i]);
      PacketGrows(header, flits[..], i);
      assert flits[..][..i + 1] == flits[..i + 1] && flits[..][..i] == flits[..i];
      assert buffer[..offset + 8] == before + BeBytes(flits[i]);
      offset := offset + 8;
    }
  }

  lemma ParsePrefix(packet: seq<byte>, k: nat)
    requires k % 8 == 0 && k + 8 <= |packet|
    ensures Parse(packet[..k + 8]) == Parse(packet[..k]) + [BeWord(packet[k..k + 8])]
  {
    assert packet[..k] + packet[k..k + 8] == packet[..k + 8];
    ParseAppend(packet[..k], packet[k..k + 8]);
  }

  lemma ParseLast(bs: seq<byte>, k: nat)
    requires 8 * (|bs| / 8) == k + 8
    ensures Parse(bs) == Parse(bs[..k]) + [BeWord(bs[k..k + 8])]
  {
  }

  lemma ParseWhole(bs: seq<byte>, whole: nat)
    requires whole == 8 * (|bs| / 8) >= 8
    ensures Parse(bs[..whole]) == Parse(bs)
  {
    ParseLast(bs, whole - 8);
    ParsePrefix(bs, whole - 8);
  }

  /** packet_to_tloe_frame; bytes that do not make up a word are not read, and the flits
      beyond the packet keep what they held. */
  method PacketToFrame(packet: seq<byte>, flits: array<Word>) returns (header: Word)
    requires 8 <= |packet| && |packet| / 8 <= 1 + flits.Length
    modifies flits
    ensures [header] + flits[..|packet| / 8 - 1] == Parse(packet)
    ensures forall j :: |packet| / 8 - 1 <= j < flits.Length ==> flits[j] == old(flits[j])
  {
    header := BeWord(packet[..8]);
    var offset := 8;
    ParsePrefix(packet, 0);
    var count := |packet| / 8 - 1;
    for i := 0 to count
      invariant offset == 8 + 8 * i
      invariant [header] + flits[..i] == Parse(packet[..offset])
      invariant forall j :: i <= j < flits.Length ==> flits[j] == old(flits[j])
    {
      ghost var before := [header] + flits[..i];
      var w := BeWord(packet[offset..offset + 8]);
      ParsePrefix(packet, offset);
      flits[i] := w;
      assert [header] + flits[..i + 1] == before + [w];
      offset := offset + 8;
    }
    ParseWhole(packet, offset);
  }
}
