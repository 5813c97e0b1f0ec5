/**
 The reference for the memory behind an endpoint: which bytes a request means, read off the
 bytes of its address word, and the answers that requests get when they are applied one by
 one. Nothing here is defined by what the endpoint computes.
 */
module PlainMemory {
  import opened TileLinkMsg
  import opened EndpointSpec
  import opened Codec

  // ---------- what a request means ----------

  predicate IsWrite(m: TlMsg) { m.header.chan == 1 && m.header.opcode == 0 }

  predicate IsRead(m: TlMsg) { m.header.chan == 1 && m.header.opcode == 4 }

  predicate IsRequest(m: TlMsg) { IsWrite(m) || IsRead(m) }

  /** The low half of the address word, lowest byte first. */
  function Address(m: TlMsg): nat
    requires |m.data| >= 8
  {
    Quad(m.data[0], m.data[1], m.data[2], m.data[3])
  }

  /** The bytes of a request lie in memory, which has 2^32 of them. */
  predicate InRange(m: TlMsg) {
    IsRequest(m) ==> Address(m) + Pow2(m.header.size) <= 0x1_0000_0000
  }

  lemma AddressIsOffset(m: TlMsg)
    requires |m.data| >= 8
    ensures Offset(m) == Address(m)
  {
    var word := m.data[..8];
    LeNatOfEight(word);
    LowHalf(LeNat(word[..4]), LeNat(word[4..]));
  }

  lemma LowHalf(low: nat, high: nat)
    requires low < 0x1_0000_0000
    ensures (low + 0x1_0000_0000 * high) % 0x1_0000_0000 == low
  {
  }

  lemma InRangeIsInBounds(m: TlMsg)
    ensures InRange(m) <==> InBounds(m)
  {
    if IsRequest(m) {
      AddressIsOffset(m);
    }
  }

  /** For any address word, the address is its value modulo 2^32. */
  lemma AddressOfWord(m: TlMsg, a: nat)
    requires a < 0x1_0000_0000_0000_0000 && |m.data| >= 8 && m.data[..8] == LeBytes(a, 8)
    ensures Address(m) == a % 0x1_0000_0000
  {
    EightBytes();
    LeRoundTrip(a, 8);
    AddressIsOffset(m);
  }

  // ---------- one access ----------

  /** A write to address word a sets byte a % 2^32 + i to the i-th byte of its data, and leaves
      every other byte as it was. */
  lemma WriteSetsBytes(mem: Memory, m: TlMsg, a: nat, k: nat)
    requires IsWrite(m) && a < 0x1_0000_0000_0000_0000 && m.data[..8] == LeBytes(a, 8) && k < 0x1_0000_0000
    requires a % 0x1_0000_0000 + Pow2(m.header.size) <= 0x1_0000_0000
    ensures InBounds(m) && |m.data| == 8 + Pow2(m.header.size)
    ensures var at := a % 0x1_0000_0000;
            Written(mem, m)[k] == if at <= k < at + Pow2(m.header.size) then m.data[8 + (k - at)] else mem[k]
  {
    AddressOfWord(m, a);
    AddressIsOffset(m);
  }

  /** A read of address word a is answered with the bytes from a % 2^32 on, under its own source. */
  lemma ReadGetsBytes(mem: Memory, m: TlMsg, a: nat)
    requires IsRead(m) && a < 0x1_0000_0000_0000_0000 && m.data[..8] == LeBytes(a, 8)
    requires a % 0x1_0000_0000 + Pow2(m.header.size) <= 0x1_0000_0000
    ensures InBounds(m)
    ensures var at := a % 0x1_0000_0000;
            && ReplyTo(mem, m).Some?
            && ReplyTo(mem, m).value.header == TlHeader(m.header.source, 0, 0, 0, m.header.size, 0, 0, 1, 4, 0)
            && ReplyTo(mem, m).value.data == mem[at..at + Pow2(m.header.size)]
    ensures Written(mem, m) == mem
  {
    AddressOfWord(m, a);
    AddressIsOffset(m);
  }

  /** A write is answered without data, under its own source. */
  lemma WriteIsAcknowledged(mem: Memory, m: TlMsg)
    requires IsWrite(m) && InRange(m)
    ensures InBounds(m) && ReplyTo(mem, m).Some?
    ensures ReplyTo(mem, m).value.header == TlHeader(m.header.source, 0, 0, 0, 0, 0, 0, 0, 4, 0)
    ensures ReplyTo(mem, m).value.data == []
  {
    InRangeIsInBounds(m);
  }

  /** An access faults exactly when it would end beyond the last byte. */
  lemma FaultsIff(m: TlMsg, a: nat)
    requires IsRequest(m) && a < 0x1_0000_0000_0000_0000 && m.data[..8] == LeBytes(a, 8)
    ensures !InBounds(m) <==> a % 0x1_0000_0000 + Pow2(m.header.size) > 0x1_0000_0000
  {
    AddressOfWord(m, a);
    InRangeIsInBounds(m);
  }

  /** The handler's exit: the next message is a request out of range. Anything else is handled
      or, when there is none or no room for an answer, left for later. */
  lemma HandlerExitsIff(e: EndpointState)
    ensures Handle(e).Faulted? <==> e.inbox != [] && |e.responses| < 99 && !InRange(e.inbox[0])
    ensures Handle(e).Idle? <==> e.inbox == [] || |e.responses| >= 99
  {
    if e.inbox != [] {
      InRangeIsInBounds(e.inbox[0]);
    }
  }

  // ---------- many accesses ----------

  predicate Covers(m: TlMsg, a: nat) {
    IsWrite(m) && InRange(m) && Address(m) <= a < Address(m) + Pow2(m.header.size)
  }

  /** The byte that the last write covering address `a` put there, or zero. */
  function LastWrite(reqs: seq<TlMsg>, a: nat): byte {
    if reqs == [] then 0
    else
      var m := reqs[|reqs| - 1];
      if Covers(m, a) then m.data[8 + (a - Address(m))] else LastWrite(reqs[..|reqs| - 1], a)
  }

  function BytesRead(reqs: seq<TlMsg>, a: nat, n: nat): (bs: seq<byte>)
    ensures |bs| == n && forall i :: 0 <= i < n ==> bs[i] == LastWrite(reqs, a + i)
  {
    seq<byte>(n, i requires 0 <= i => LastWrite(reqs, a + i))
  }

  /** What a message is answered with after the requests before it: a write with an empty
      reply, a read with the bytes last written, anything else with nothing. */
  function AnswerTo(before: seq<TlMsg>, m: TlMsg): seq<TlMsg> {
    if IsWrite(m) then [RawMsg(TlHeader(m.header.source, 0, 0, 0, 0, 0, 0, 0, 4, 0), [])]
    else if IsRead(m) then
      ReadReplyFits(m);
      [RawMsg(TlHeader(m.header.source, 0, 0, 0, m.header.size, 0, 0, 1, 4, 0),
              BytesRead(before, Address(m), Pow2(m.header.size)))]
    else []
  }

  predicate AllInRange(reqs: seq<TlMsg>) {
    forall i :: 0 <= i < |reqs| ==> InRange(reqs[i])
  }

  /** The answers to messages in order, up to the first request out of range. */
  function Answers(reqs: seq<TlMsg>): seq<TlMsg> {
    if reqs == [] then []
    else
      var front := reqs[..|reqs| - 1];
      Answers(front) + if AllInRange(reqs) then AnswerTo(front, reqs[|reqs| - 1]) else []
  }

  lemma {:induction false} AnswersOfPrefix(reqs: seq<TlMsg>, k: nat)
    requires k <= |reqs|
    ensures Answers(reqs[..k]) <= Answers(reqs)
  {
    if k < |reqs| {
      var front := reqs[..|reqs| - 1];
      AnswersOfPrefix(front, k);
      assert front[..k] == reqs[..k];
    } else {
      assert reqs[..k] == reqs;
    }
  }

  /** The i-th request in range gets the i-th answer. */
  lemma {:induction false} AnswerAt(reqs: seq<TlMsg>, i: nat)
    requires AllInRange(reqs) && (forall j :: 0 <= j < |reqs| ==> IsRequest(reqs[j])) && i < |reqs|
    ensures |Answers(reqs)| == |reqs| && [Answers(reqs)[i]] == AnswerTo(reqs[..i], reqs[i])
  {
    var front := reqs[..|reqs| - 1];
    if i < |front| {
      AnswerAt(front, i);
      assert front[..i] == reqs[..i];
    } else if front != [] {
      AnswerAt(front, 0);
    }
  }
}
