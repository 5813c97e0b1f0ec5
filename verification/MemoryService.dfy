/**
 End to end: the replies a requesting master receives are those of a plain byte
 memory to which its requests are applied one by one.
 */
module MemoryService {
  import opened Sequences
  import opened SeqNum
  import opened TileLinkMsg
  import opened FlowControl
  import opened EndpointSpec
  import opened PlainMemory
  import opened System
  import opened Wire
  import opened Delivery

  // ---------- what the slave computes, and the plain memory ----------

  /** Memory after requests have been applied in order, from all zeros. */
  function MemAfter(reqs: seq<TlMsg>): Memory {
    if reqs == [] then seq(MEM_SIZE, _ => 0)
    else
      var mem := MemAfter(reqs[..|reqs| - 1]);
      if InBounds(reqs[|reqs| - 1]) then Written(mem, reqs[|reqs| - 1]) else mem
  }

  /** The replies to requests applied in order. */
  function Replies(reqs: seq<TlMsg>): seq<TlMsg> {
    if reqs == [] then []
    else
      var front, m := reqs[..|reqs| - 1], reqs[|reqs| - 1];
      Replies(front)
      + if InBounds(m) && ReplyTo(MemAfter(front), m).Some? then [ReplyTo(MemAfter(front), m).value] else []
  }

  /** The memory holds, at every address, the byte last written there. */
  lemma {:induction false} MemoryIsLastWrite(reqs: seq<TlMsg>, a: nat)
    requires a < MEM_SIZE
    ensures MemAfter(reqs)[a] == LastWrite(reqs, a)
  {
    if reqs != [] {
      var front, m := reqs[..|reqs| - 1], reqs[|reqs| - 1];
      MemoryIsLastWrite(front, a);
      InRangeIsInBounds(m);
      if IsWrite(m) {
        AddressIsOffset(m);
      }
    }
  }

  /** A read returns the bytes last written before it. */
  lemma ReadReturnsLastWrites(reqs: seq<TlMsg>, m: TlMsg, i: nat)
    requires IsRead(m) && InRange(m) && i < Pow2(m.header.size)
    ensures InBounds(m) && ReplyTo(MemAfter(reqs), m).Some?
    ensures var r := ReplyTo(MemAfter(reqs), m).value;
            IsAccessAckData(r) && r.header.source == m.header.source
            && |r.data| == Pow2(m.header.size) && r.data[i] == LastWrite(reqs, Address(m) + i)
  {
    InRangeIsInBounds(m);
    AddressIsOffset(m);
    MemoryIsLastWrite(reqs, Address(m) + i);
  }

  lemma ReplyIsAnswer(reqs: seq<TlMsg>, m: TlMsg)
    requires InRange(m)
    ensures InBounds(m)
    ensures var r := ReplyTo(MemAfter(reqs), m); (if r.Some? then [r.value] else []) == AnswerTo(reqs, m)
  {
    InRangeIsInBounds(m);
    if IsRead(m) {
      var r := ReplyTo(MemAfter(reqs), m).value;
      forall i | 0 <= i < Pow2(m.header.size)
        ensures r.data[i] == LastWrite(reqs, Address(m) + i)
      {
        ReadReturnsLastWrites(reqs, m, i);
      }
      ReadReturnsLastWrites(reqs, m, 0);
      assert r.data == BytesRead(reqs, Address(m), Pow2(m.header.size));
    }
  }

  /** What the endpoint answers to requests in range is what the plain memory answers. */
  lemma {:induction false} RepliesAreAnswers(reqs: seq<TlMsg>)
    requires AllInRange(reqs)
    ensures Replies(reqs) == Answers(reqs)
  {
    if reqs != [] {
      var front, m := reqs[..|reqs| - 1], reqs[|reqs| - 1];
      RepliesAreAnswers(front);
      ReplyIsAnswer(front, m);
    }
  }

  // ---------- what the application side of a node keeps ----------

  function Waiting(x: Node): seq<TlMsg> {
    if x.pending.Some? then [x.pending.value] else []
  }

  function CountAcks(ms: seq<TlMsg>): nat {
    if ms == [] then 0 else CountAcks(ms[..|ms| - 1]) + if IsAccessAck(ms[|ms| - 1]) then 1 else 0
  }

  function CountAckDatas(ms: seq<TlMsg>): nat {
    if ms == [] then 0 else CountAckDatas(ms[..|ms| - 1]) + if IsAccessAckData(ms[|ms| - 1]) then 1 else 0
  }

  ghost predicate AppInv(x: Node) {
    AppState(x) && AppOrder(x)
  }

  ghost predicate AppState(x: Node) {
    && x.accepted == x.handled + x.ep.inbox
    && x.ep.mem == MemAfter(x.handled)
    && (forall i :: 0 <= i < |x.handled| ==> InBounds(x.handled[i]))
    && x.ep.stats.accessAckCnt == CountAcks(x.handled)
    && x.ep.stats.accessAckDataCnt == CountAckDatas(x.handled)
    && x.ep.stats.dropResponseCnt == 0
  }

  ghost predicate AppOrder(x: Node) {
    // a node that never asks sends only replies, in order
    && (x.submitted == [] ==>
          x.ep.messages == [] && x.sent + Waiting(x) + x.ep.responses == Replies(x.handled))
    // a node that is never asked sends only its own requests, in order
    && (Replies(x.handled) == [] ==>
          x.ep.responses == [] && x.sent + Waiting(x) + x.ep.messages == x.submitted)
  }

  predicate SameAppState(e: EndpointState, e': EndpointState) {
    && e'.mem == e.mem && e'.responses == e.responses && e'.messages == e.messages
    && e'.stats.accessAckCnt == e.stats.accessAckCnt
    && e'.stats.accessAckDataCnt == e.stats.accessAckDataCnt
    && e'.stats.dropResponseCnt == e.stats.dropResponseCnt
  }

  /** TX moves at most the pending request, out of the pending slot. */
  ghost predicate AppSent(x: Node, x': Node) {
    && x'.accepted == x.accepted && x'.handled == x.handled && x'.submitted == x.submitted
    && x'.ep.inbox == x.ep.inbox && SameAppState(x.ep, x'.ep)
    && x'.sent + Waiting(x') == x.sent + Waiting(x)
  }

  lemma SendDataApp(n: Numbering, e: EndpointState, request: Option<TlMsg>, chan: Channel)
    requires chan != 0 ==> e.owed[chan] > 0
    ensures var d := SendData(n, e, request, chan);
            SameAppState(e, d.state) && d.state.inbox == e.inbox && (d.leftover == request || (request.Some? && d.leftover.None?))
  {
  }

  lemma AckStagesApp(n: Numbering, e: EndpointState)
    ensures var t := SendRequestedAck(n, e).state; SameAppState(e, t) && t.inbox == e.inbox && t.owed == e.owed
    ensures var t := SendHalfTimeoutAck(n, e).state; SameAppState(e, t) && t.inbox == e.inbox && t.owed == e.owed
    ensures var t := ResendOnTimeout(n, e).state; SameAppState(e, t) && t.inbox == e.inbox
  {
  }

  lemma TransmitApp(n: Numbering, x: Node)
    ensures AppSent(x, AfterTransmit(x, EndpointSpec.Transmit(n, x.ep, x.pending)))
  {
    var chan := MaxChannel(x.ep.owed, CHANNEL_NUM);
    var acked := SendRequestedAck(n, x.ep).state;
    var half := SendHalfTimeoutAck(n, acked).state;
    AckStagesApp(n, x.ep);
    AckStagesApp(n, acked);
    SendDataApp(n, half, x.pending, chan);
    AckStagesApp(n, SendData(n, half, x.pending, chan).state);
  }

  ghost predicate AppReceived(x: Node, x': Node) {
    && x'.handled == x.handled && x'.submitted == x.submitted && x'.sent == x.sent && x'.pending == x.pending
    && SameAppState(x.ep, x'.ep)
    && (|| (x'.accepted == x.accepted && x'.ep.inbox == x.ep.inbox)
        || (exists m :: x'.accepted == x.accepted + [m] && x'.ep.inbox == x.ep.inbox + [m]))
  }

  lemma ServeDataApp(n: Numbering, e: EndpointState, f: Frame)
    requires ServeData(n, e, f).Some?
    ensures var e' := ServeData(n, e, f).value;
            SameAppState(e, e') && (e'.inbox == e.inbox || (f.msg.Some? && e'.inbox == e.inbox + [f.msg.value]))
  {
  }

  lemma ReceiveStateApp(n: Numbering, e: EndpointState, f: Frame)
    requires EndpointSpec.Receive(n, e, f).Received?
    ensures var e' := EndpointSpec.Receive(n, e, f).state;
            SameAppState(e, e') && (e'.inbox == e.inbox || (f.msg.Some? && e'.inbox == e.inbox + [f.msg.value]))
  {
    var served := EndpointSpec.ServeAck(n, e, f).state;
    assert SameAppState(e, served) && served.inbox == e.inbox;
    if !f.kind.AckOnlyFrame? {
      ServeDataApp(n, served, f);
    }
  }

  lemma ReceiveApp(n: Numbering, x: Node, f: Frame)
    requires EndpointSpec.Receive(n, x.ep, f).Received?
    ensures AppReceived(x, AfterReceive(x, EndpointSpec.Receive(n, x.ep, f).state))
  {
    ReceiveStateApp(n, x.ep, f);
    var x' := AfterReceive(x, EndpointSpec.Receive(n, x.ep, f).state);
    if |x'.ep.inbox| > |x.ep.inbox| {
      assert x'.accepted == x.accepted + [f.msg.value];
    }
  }

  lemma {:induction false} HandledAppend(ms: seq<TlMsg>, m: TlMsg)
    requires InBounds(m)
    ensures MemAfter(ms + [m]) == Written(MemAfter(ms), m)
    ensures Replies(ms + [m])
            == Replies(ms) + if ReplyTo(MemAfter(ms), m).Some? then [ReplyTo(MemAfter(ms), m).value] else []
    ensures CountAcks(ms + [m]) == CountAcks(ms) + if IsAccessAck(m) then 1 else 0
    ensures CountAckDatas(ms + [m]) == CountAckDatas(ms) + if IsAccessAckData(m) then 1 else 0
  {
    assert (ms + [m])[..|ms|] == ms;
  }

  /** tl_handler takes the oldest message, applies it to memory and queues the reply. */
  ghost predicate AppHandled(x: Node, x': Node, m: TlMsg) {
    && InBounds(m) && x.ep.inbox != [] && m == x.ep.inbox[0] && x'.ep.inbox == x.ep.inbox[1..]
    && x'.handled == x.handled + [m] && x'.accepted == x.accepted && x'.submitted == x.submitted
    && x'.sent == x.sent && x'.pending == x.pending && x'.ep.messages == x.ep.messages
    && x'.ep.mem == Written(x.ep.mem, m)
    && x'.ep.responses == x.ep.responses
                          + (if ReplyTo(x.ep.mem, m).Some? then [ReplyTo(x.ep.mem, m).value] else [])
    && x'.ep.stats.accessAckCnt == x.ep.stats.accessAckCnt + (if IsAccessAck(m) then 1 else 0)
    && x'.ep.stats.accessAckDataCnt == x.ep.stats.accessAckDataCnt + (if IsAccessAckData(m) then 1 else 0)
    && x'.ep.stats.dropResponseCnt == x.ep.stats.dropResponseCnt
  }

  lemma HandleIsApp(x: Node, e: EndpointState)
    requires EndpointSpec.Handle(x.ep) == Handled(e)
    ensures AppHandled(x, AfterHandle(x, e), x.ep.inbox[0])
  {
  }

  lemma HandledKeepsState(x: Node, x': Node, m: TlMsg)
    requires AppState(x) && AppHandled(x, x', m)
    ensures AppState(x')
  {
    HandledAppend(x.handled, m);
    assert x.handled + x.ep.inbox == x.handled + [m] + x.ep.inbox[1..];
  }

  lemma HandledKeepsOrder(x: Node, x': Node, m: TlMsg)
    requires AppOrder(x) && AppHandled(x, x', m) && x.ep.mem == MemAfter(x.handled)
    ensures AppOrder(x')
  {
    HandledAppend(x.handled, m);
    var reply := if ReplyTo(x.ep.mem, m).Some? then [ReplyTo(x.ep.mem, m).value] else [];
    assert x.sent + Waiting(x) + (x.ep.responses + reply) == x.sent + Waiting(x) + x.ep.responses + reply;
  }

  lemma HandledKeepsApp(x: Node, x': Node, m: TlMsg)
    requires AppInv(x) && AppHandled(x, x', m)
    ensures AppInv(x')
  {
    HandledKeepsState(x, x', m);
    HandledKeepsOrder(x, x', m);
  }

  lemma ChooseApp(x: Node)
    requires AppInv(x) && x.pending.None?
    ensures var c := EndpointSpec.Select(x.ep); AppInv(x.(ep := c.state, pending := c.request))
  {
    assert x.sent + Waiting(x) == x.sent;
    TakeFirst(x.sent, x.ep.responses);
    TakeFirst(x.sent, x.ep.messages);
  }

  lemma SubmitApp(x: Node, m: TlMsg)
    requires AppInv(x)
    ensures AppInv(x.(ep := x.ep.(messages := x.ep.messages + [m]), submitted := x.submitted + [m]))
  {
    assert x.sent + Waiting(x) + (x.ep.messages + [m]) == x.sent + Waiting(x) + x.ep.messages + [m];
  }

  lemma ReceivedKeepsApp(x: Node, x': Node)
    requires AppInv(x) && AppReceived(x, x')
    ensures AppInv(x')
  {
    if x'.accepted != x.accepted {
      var m :| x'.accepted == x.accepted + [m] && x'.ep.inbox == x.ep.inbox + [m];
      assert x.handled + (x.ep.inbox + [m]) == x.handled + x.ep.inbox + [m];
    }
  }

  lemma SentKeepsApp(x: Node, x': Node)
    requires AppInv(x) && AppSent(x, x')
    ensures AppInv(x')
  {
  }

  /** The application side is the same for both numberings. */
  lemma ActKeepsApp(n: Numbering, s: System, t: System, op: Op)
    requires AppInv(s.a) && Act(n, s, op) == Some(t)
    ensures AppInv(t.a) && t.b == s.b
  {
    match op
    case Submit(m) => SubmitApp(s.a, m);
    case Choose => if s.a.pending.None? { ChooseApp(s.a); }
    case Transmit =>
      TransmitApp(n, s.a);
      SentKeepsApp(s.a, t.a);
    case Receive =>
      ReceiveApp(n, s.a, s.ba[0]);
      ReceivedKeepsApp(s.a, t.a);
    case Handle =>
      var h := EndpointSpec.Handle(s.a.ep);
      if h.Handled? {
        HandleIsApp(s.a, h.state);
        HandledKeepsApp(s.a, t.a, s.a.ep.inbox[0]);
      }
    case _ =>
  }

  lemma {:induction false} AppAlways(n: Numbering, steps: seq<Step>)
    requires Run(n, Initial(), steps).Some?
    ensures AppInv(Run(n, Initial(), steps).value.a) && AppInv(Run(n, Initial(), steps).value.b)
  {
    if steps != [] {
      var front, last := steps[..|steps| - 1], steps[|steps| - 1];
      AppAlways(n, front);
      var s := Run(n, Initial(), front).value;
      var at := if last.atA then s else Flip(s);
      ActKeepsApp(n, at, Act(n, at, last.op).value, last.op);
    }
  }

  // ---------- prefixes ----------

  lemma OnWireOfPrefix(ms: seq<TlMsg>, k: nat)
    requires k <= |ms|
    ensures OnWireAll(ms[..k]) == OnWireAll(ms)[..k]
  {
  }

  lemma PrefixOfOnWire(ps: seq<TlMsg>, ms: seq<TlMsg>)
    requires ps <= ms
    ensures OnWireAll(ps) <= OnWireAll(ms)
  {
    assert ps == ms[..|ps|];
    OnWireOfPrefix(ms, |ps|);
  }

  lemma PrefixOfAnswers(ps: seq<TlMsg>, ms: seq<TlMsg>)
    requires ps <= ms
    ensures Answers(ps) <= Answers(ms)
  {
    assert ps == ms[..|ps|];
    AnswersOfPrefix(ms, |ps|);
  }

  /** Replies travel on channel D and are never answered. */
  lemma {:induction false} RepliesAreAcks(ms: seq<TlMsg>)
    ensures forall i :: 0 <= i < |Replies(ms)| ==> IsAccessAck(Replies(ms)[i]) || IsAccessAckData(Replies(ms)[i])
  {
    if ms != [] {
      RepliesAreAcks(ms[..|ms| - 1]);
    }
  }

  lemma {:induction false} AcksNeedNoReply(ms: seq<TlMsg>)
    requires forall i :: 0 <= i < |ms| ==> IsAccessAck(ms[i]) || IsAccessAckData(ms[i])
    ensures Replies(ms) == [] && CountAcks(ms) + CountAckDatas(ms) == |ms|
  {
    if ms != [] {
      AcksNeedNoReply(ms[..|ms| - 1]);
    }
  }

  lemma {:induction false} RequestsAreAnswered(ms: seq<TlMsg>)
    requires forall i :: 0 <= i < |ms| ==> (IsPut(ms[i]) || IsGet(ms[i])) && InBounds(ms[i])
    ensures |Replies(ms)| == |ms|
  {
    if ms != [] {
      RequestsAreAnswered(ms[..|ms| - 1]);
    }
  }

  // ---------- end to end ----------

  /** In any state of a run in which only the master asks: what the slave has been
      given, what it has answered, and what the master has of the answers. */
  lemma EndToEndLinks(w: System)
    requires AppInv(w.a) && AppInv(w.b) && w.b.submitted == []
    requires ExactlyOnce(Wrapping, w.a, w.b) && ExactlyOnce(Wrapping, w.b, w.a)
    ensures w.a.accepted <= OnWireAll(w.b.sent) && w.b.sent <= Replies(w.b.handled)
    ensures w.b.handled <= w.b.accepted <= OnWireAll(w.a.sent)
    ensures forall i :: 0 <= i < |w.a.handled| ==> IsAccessAck(w.a.handled[i]) || IsAccessAckData(w.a.handled[i])
    ensures w.a.ep.responses == [] && w.a.sent + Waiting(w.a) + w.a.ep.messages == w.a.submitted
  {
    RepliesAreAcks(w.b.handled);
    forall i | 0 <= i < |w.a.handled|
      ensures IsAccessAck(w.a.handled[i]) || IsAccessAckData(w.a.handled[i])
    {
      assert w.a.handled[i] == w.a.accepted[i] == OnWire(w.b.sent[i]);
      assert w.b.sent[i] == Replies(w.b.handled)[i];
    }
    AcksNeedNoReply(w.a.handled);
  }

  lemma PrefixChain(received: seq<TlMsg>, answered: seq<TlMsg>, handled: seq<TlMsg>, asked: seq<TlMsg>, all: seq<TlMsg>)
    requires received <= OnWireAll(answered) && answered <= Answers(handled)
    requires handled <= OnWireAll(asked) && asked <= all
    ensures received <= OnWireAll(Answers(OnWireAll(all)))
  {
    PrefixOfOnWire(asked, all);
    PrefixOfAnswers(handled, OnWireAll(all));
    PrefixOfOnWire(answered, Answers(OnWireAll(all)));
  }

  lemma HandledAreAnswered(x: Node)
    requires AppState(x)
    ensures Replies(x.handled) == Answers(x.handled)
  {
    forall i | 0 <= i < |x.handled|
      ensures InRange(x.handled[i])
    {
      InRangeIsInBounds(x.handled[i]);
    }
    RepliesAreAnswers(x.handled);
  }

  /** The messages the master receives are, in order, the answers of a plain memory to
      its requests; each message, either way, as its frame carries it. */
  lemma SequentialMemory(steps: seq<Step>, w: System)
    requires RunRight(Initial(), steps) && Run(Wrapping, Initial(), steps) == Some(w)
    requires w.b.submitted == []
    ensures w.a.accepted <= OnWireAll(Answers(OnWireAll(w.a.submitted)))
  {
    AppAlways(Wrapping, steps);
    DeliveryOnWire(steps, w);
    EndToEndLinks(w);
    HandledAreAnswered(w.b);
    PrefixChain(w.a.accepted, w.b.sent, w.b.handled, w.a.sent, w.a.submitted);
  }

  /** Requests whose frames, and whose answers' frames, leave the mask flit free. */
  predicate Small(m: TlMsg) {
    LeavesMaskFree(m.header) && (IsGet(m) ==> m.header.size <= 5)
  }

  lemma {:induction false} SmallAnswersFit(ms: seq<TlMsg>)
    requires forall i :: 0 <= i < |ms| ==> Small(ms[i])
    ensures forall i :: 0 <= i < |Answers(ms)| ==> LeavesMaskFree(Answers(ms)[i].header)
  {
    if ms != [] {
      SmallAnswersFit(ms[..|ms| - 1]);
      var m := ms[|ms| - 1];
      if IsGet(m) {
        Pow2Monotone(m.header.size, 5);
        assert Pow2(5) == 32;
      }
    }
  }

  lemma OnWireOfSmall(ms: seq<TlMsg>)
    requires forall i :: 0 <= i < |ms| ==> LeavesMaskFree(ms[i].header)
    ensures OnWireAll(ms) == ms
  {
  }

  /** For such requests the master receives exactly a prefix of the memory's answers. */
  lemma SequentialMemorySmall(steps: seq<Step>, w: System)
    requires RunRight(Initial(), steps) && Run(Wrapping, Initial(), steps) == Some(w)
    requires w.b.submitted == []
    requires forall i :: 0 <= i < |w.a.submitted| ==> Small(w.a.submitted[i])
    ensures w.a.accepted <= Answers(w.a.submitted)
  {
    SequentialMemory(steps, w);
    OnWireOfSmall(w.a.submitted);
    SmallAnswersFit(w.a.submitted);
    OnWireOfSmall(Answers(w.a.submitted));
  }

  /** Every request is in exactly one place: at the master, on its way, at the slave, or
      answered with the reply at the slave, on its way, at the master, or counted. No
      reply is ever dropped. */
  lemma MessageConservation(steps: seq<Step>, w: System)
    requires RunRight(Initial(), steps) && Run(Wrapping, Initial(), steps) == Some(w)
    requires w.b.submitted == []
    requires forall i :: 0 <= i < |w.a.submitted| ==> IsPut(w.a.submitted[i]) || IsGet(w.a.submitted[i])
    ensures |w.a.submitted|
            == |w.a.ep.messages| + |Waiting(w.a)| + |Payloads(Outstanding(Wrapping, w.a.ep.retx, w.b.ep.nextRx))|
               + |w.b.ep.inbox|
               + |w.b.ep.responses| + |Waiting(w.b)| + |Payloads(Outstanding(Wrapping, w.b.ep.retx, w.a.ep.nextRx))|
               + |w.a.ep.inbox| + w.a.ep.stats.accessAckCnt + w.a.ep.stats.accessAckDataCnt
    ensures w.a.ep.stats.dropResponseCnt == 0 && w.b.ep.stats.dropResponseCnt == 0
  {
    AppAlways(Wrapping, steps);
    DeliveryOnWire(steps, w);
    EndToEndLinks(w);
    forall i | 0 <= i < |w.b.handled|
      ensures IsPut(w.b.handled[i]) || IsGet(w.b.handled[i])
    {
      assert w.b.handled[i] == w.b.accepted[i] == OnWire(w.a.sent[i]);
      assert w.a.sent[i] == w.a.submitted[i];
    }
    RequestsAreAnswered(w.b.handled);
    AcksNeedNoReply(w.a.handled);
  }
}
