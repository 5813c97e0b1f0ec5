/**
 Every byte of the packet that a frame becomes: the frame header, the message in flits whose
 bytes are turned round, zeros, and the mask.
 */
module PacketBytes {
  import opened TileLinkMsg
  import opened EndpointSpec
  import opened Codec

  // ---------- flits and packets, byte by byte ----------

  lemma Appended(p: seq<byte>, be: seq<byte>, q: seq<byte>, le: seq<byte>, k: nat, r: nat)
    requires |p| == 8 + |q| && |q| == 8 * k && |be| == |le| == 8 && r < 8 && be[7 - r] == le[r]
    ensures (p + be)[15 + 8 * k - r] == (q + le)[8 * k + r]
  {
  }

  lemma Kept(p: seq<byte>, be: seq<byte>, q: seq<byte>, le: seq<byte>, i: nat, j: nat)
    requires i < |p| && j < |q| && p[i] == q[j]
    ensures (p + be)[i] == (q + le)[j]
  {
  }

  lemma ByteTurned(w: Word, r: nat)
    requires r < 8
    ensures BeBytes(w)[7 - r] == LeBytes(w, 8)[r]
  {
  }

  /** Byte r of flit k in memory is byte 7 - r of flit k in the packet, after the frame header. */
  lemma {:induction false} FlitTurned(w: Word, flits: seq<Word>, k: nat, r: nat, i: nat, j: nat)
    requires k < |flits| && r < 8 && i == 15 + 8 * k - r && j == 8 * k + r
    ensures Packet([w] + flits)[i] == Bytes(flits)[j]
  {
    var last := |flits| - 1;
    var front, x := flits[..last], flits[last];
    assert flits == front + [x] && flits[..last + 1] == flits;
    PacketGrows(w, flits, last);
    BytesSnoc(front, x);
    var p := Packet([w] + front);
    if k < last {
      FlitTurned(w, front, k, r, i, j);
      Kept(p, BeBytes(x), Bytes(front), LeBytes(x, 8), i, j);
    } else {
      ByteTurned(x, r);
      Appended(p, BeBytes(x), Bytes(front), LeBytes(x, 8), k, r);
    }
  }

  lemma {:induction false} PacketStarts(w: Word, flits: seq<Word>)
    ensures Packet([w] + flits)[..8] == BeBytes(w)
    ensures flits != [] ==> Packet([w] + flits)[8..16] == BeBytes(flits[0])
  {
    if flits == [] {
      PacketLast([w], 0);
    } else {
      var k := |flits| - 1;
      PacketStarts(w, flits[..k]);
      assert flits[..k + 1] == flits;
      PacketGrows(w, flits, k);
    }
  }

  // ---------- what the flits hold ----------

  function MaskWord(m: Option<TlMsg>): Word {
    if m.None? then 0 else 1
  }

  lemma MaskBytes(m: Option<TlMsg>)
    ensures LeBytes(MaskWord(m), 8) == [MaskWord(m), 0, 0, 0, 0, 0, 0, 0]
  {
    OneFlit();
    assert LeBytes(0, 4) == [0, 0, 0, 0] by { assert LeBytes(0, 2) == [0, 0]; }
    assert LeBytes(0, 6) == [0, 0, 0, 0, 0, 0];
  }

  lemma EmptyFlits()
    ensures Bytes(FlitsOf(None)) == Copied(None)[..|Copied(None)| - 8] + LeBytes(0, 8)
  {
    LastWordSet(Copied(None), 0);
  }

  lemma FlitsInMemory(m: Option<TlMsg>) returns (flits: seq<Word>, memory: seq<byte>, mask: seq<byte>)
    ensures flits == FlitsOf(m) && memory == Copied(m)
    ensures |mask| == 8 && Bytes(flits) == memory[..|memory| - 8] + mask
  {
    flits, memory := FlitsOf(m), Copied(m);
    match m
    case None =>
      EmptyFlits();
      mask := LeBytes(0, 8);
    case Some(v) =>
      FlitBytes(v);
      mask := LeBytes(1, 8);
  }

  lemma CopiedAt(m: Option<TlMsg>, j: nat)
    requires j < |Copied(m)|
    ensures Copied(m)[j] == if m.None? || j >= 8 + |m.value.data| then 0
                            else if j < 8 then LeBytes(TlBits(m.value.header), 8)[j]
                            else m.value.data[j - 8]
  {
    FrameSizeIsWhole(m);
  }

  // ---------- the packet ----------

  lemma EncodedSize(f: Frame)
    requires Encodable(f)
    ensures |EncodeFrame(f)| == PacketSize(f.msg)
  {
    ParsedFrame(f);
    FrameSizeIs(f.msg);
  }

  /** The first eight bytes are the frame header, the highest byte first. */
  lemma HeaderFirst(f: Frame)
    requires Encodable(f)
    ensures |EncodeFrame(f)| == PacketSize(f.msg) && Spells(EncodeFrame(f)[..8], TloeBits(f))
  {
    EncodedSize(f);
    TloeBitsFit(f);
    PacketStarts(TloeBits(f), FlitsOf(f.msg));
    BeSpells(TloeBits(f));
  }

  /** The last eight are the mask: 1 with a message, and 0 without. */
  lemma MaskLast(f: Frame)
    requires Encodable(f)
    ensures |EncodeFrame(f)| == PacketSize(f.msg)
    ensures Spells(EncodeFrame(f)[PacketSize(f.msg) - 8..], if f.msg.None? then 0 else 1)
  {
    EncodedSize(f);
    FrameSizeIs(f.msg);
    TloeBitsFit(f);
    PacketEnds(TloeBits(f), FlitsOf(f.msg));
    BeSpells(MaskWord(f.msg));
  }

  lemma PacketEnds(w: Word, flits: seq<Word>)
    requires flits != []
    ensures var p := Packet([w] + flits); p[|p| - 8..] == BeBytes(flits[|flits| - 1])
  {
    var ws := [w] + flits;
    PacketLast(ws, |ws| - 1);
  }

  lemma FirstFlit(m: Option<TlMsg>)
    ensures FlitsOf(m)[0] == if m.None? then 0 else TlBits(m.value.header)
  {
    FrameSizeIsWhole(m);
    EightBytes();
    if m.None? {
      assert Copied(m)[..8] == LeBytes(0, 8) by { MaskBytes(None); }
      LeRoundTrip(0, 8);
    } else {
      TlHeaderRoundTrip(m.value.header);
      LeRoundTrip(TlBits(m.value.header), 8);
      assert Copied(m)[..8] == LeBytes(TlBits(m.value.header), 8);
    }
  }

  /** The next eight are the header of the message, or zero. */
  lemma MessageHeaderNext(f: Frame)
    requires Encodable(f)
    ensures |EncodeFrame(f)| == PacketSize(f.msg)
    ensures f.msg.Some? ==> TlBits(f.msg.value.header) < 0x1_0000_0000_0000_0000
    ensures Spells(EncodeFrame(f)[8..16], if f.msg.None? then 0 else TlBits(f.msg.value.header))
  {
    SecondWord(f);
    FirstFlit(f.msg);
    BeSpells(FlitsOf(f.msg)[0]);
  }

  lemma SecondWord(f: Frame)
    requires Encodable(f)
    ensures |EncodeFrame(f)| == PacketSize(f.msg) && EncodeFrame(f)[8..16] == BeBytes(FlitsOf(f.msg)[0])
  {
    EncodedSize(f);
    TloeBitsFit(f);
    PacketStarts(TloeBits(f), FlitsOf(f.msg));
  }

  lemma Sizes(f: Frame)
    requires Encodable(f)
    ensures |EncodeFrame(f)| == PacketSize(f.msg) == 8 + 8 * |FlitsOf(f.msg)|
  {
    EncodedSize(f);
    FrameSizeIs(f.msg);
  }

  lemma Within(size: nat, flits: nat, k: nat, r: nat)
    requires size == 8 + 8 * flits && 8 * k + r < size - 24
    ensures k + 1 < flits && 23 + 8 * k - r < size
  {
  }

  /** The packet as a header word, flits, and what these hold in memory. */
  lemma Opened(f: Frame, i: nat) returns (w: Word, flits: seq<Word>, memory: seq<byte>, mask: seq<byte>)
    requires Encodable(f) && i < PacketSize(f.msg) - 24
    ensures EncodeFrame(f) == Packet([w] + flits) && PacketSize(f.msg) == 8 + 8 * |flits|
    ensures |memory| == PacketSize(f.msg) - 8 && |mask| == 8 && Bytes(flits) == memory[..|memory| - 8] + mask
    ensures memory[8 + i] == if f.msg.None? || i >= |f.msg.value.data| then 0 else f.msg.value.data[i]
  {
    Sizes(f);
    TloeBitsFit(f);
    FrameSizeIs(f.msg);
    w := TloeBits(f);
    flits, memory, mask := FlitsInMemory(f.msg);
    CopiedAt(f.msg, 8 + i);
  }

  lemma Front(memory: seq<byte>, mask: seq<byte>, j: nat)
    requires j < |memory| - 8
    ensures (memory[..|memory| - 8] + mask)[j] == memory[j]
  {
  }

  lemma Unmasked(w: Word, flits: seq<Word>, memory: seq<byte>, mask: seq<byte>, k: nat, r: nat, at: nat, i: nat)
    requires |memory| == 8 * |flits| && |mask| == 8 && |memory| >= 8 && Bytes(flits) == memory[..|memory| - 8] + mask
    requires r < 8 && at == 23 + 8 * k - r && i == 8 * k + r && i < |memory| - 16
    ensures at < |Packet([w] + flits)| == 8 + |memory| && Packet([w] + flits)[at] == memory[8 + i]
  {
    Within(8 + |memory|, |flits|, k, r);
    FlitTurned(w, flits, k + 1, r, at, 8 + i);
    Front(memory, mask, 8 + i);
  }

  /** The bytes between, flit by flit with each flit's bytes turned round: byte i of the data, or
      zero after its end. The mask has taken the last eight bytes of data over 32. */
  lemma DataBetween(f: Frame, k: nat, r: nat, at: nat, i: nat)
    requires Encodable(f) && r < 8 && at == 23 + 8 * k - r && i == 8 * k + r && i < PacketSize(f.msg) - 24
    ensures at < |EncodeFrame(f)| == PacketSize(f.msg)
    ensures EncodeFrame(f)[at] == if f.msg.None? || i >= |f.msg.value.data| then 0 else f.msg.value.data[i]
  {
    var w, flits, memory, mask := Opened(f, i);
    Unmasked(w, flits, memory, mask, k, r, at, i);
  }
}
