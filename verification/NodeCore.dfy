/**
 The part of a node that decides what it does, and what one whole turn makes of it on
 22-bit numbers. A run of the two programs can then be given turn by turn.
 */
module NodeCore {
  import opened SeqNum
  import opened TileLinkMsg
  import opened FlowControl
  import opened EndpointSpec
  import opened System
  import opened NodeTurn

  /** Everything but counters, histories, and what nothing reads of queued ack frames. */
  datatype Core = Core(
    nextTx: int, nextRx: int, retx: seq<RetxElement>, ackNums: seq<int>,
    pending: Option<TlMsg>, messages: seq<TlMsg>, responses: seq<TlMsg>, inbox: seq<TlMsg>,
    owed: Counters, credits: Counters, sendAckOnly: bool, ackOnlySent: bool, now: nat, turns: int, mem: Memory,
    sent: seq<TlMsg>, accepted: seq<TlMsg>)

  function AckNums(acks: seq<Frame>): seq<int> {
    seq(|acks|, i requires 0 <= i < |acks| => acks[i].seqNumAck)
  }

  function CoreOf(x: Node): Core {
    var e := x.ep;
    Core(e.nextTx, e.nextRx, e.retx, AckNums(e.acks), x.pending, e.messages, e.responses, e.inbox, e.owed, e.credits,
         e.sendAckOnly, e.ackOnlySent, e.now, e.turns, e.mem, x.sent, x.accepted)
  }

  // ---------- choosing ----------

  function Picked(c: Core, time: nat): Core {
    var d := c.(now := time);
    if c.pending.Some? then d
    else if c.turns - 1 > 0 && c.responses != [] then
      d.(turns := c.turns - 1, responses := c.responses[1..], pending := Some(c.responses[0]))
    else if c.messages != [] then
      d.(turns := BUFFER_SELECT_TURNS, messages := c.messages[1..], pending := Some(c.messages[0]))
    else
      d.(turns := BUFFER_SELECT_TURNS)
  }

  lemma ChosenCore(x: Node, time: nat)
    ensures CoreOf(Chosen(x, time)) == Picked(CoreOf(x), time)
  {
  }

  // ---------- TX ----------

  function AckOnlyOf(c: Core): Frame {
    Frame(AckOnlyFrame, c.nextTx, Prev(c.nextRx), true, 0, 0, None)
  }

  predicate Overdue(c: Core, limit: nat) {
    c.retx != [] && TimedOut(c.now, c.retx[0].sendTime, limit)
  }

  predicate HalfAckDue(c: Core) {
    |c.retx| == WINDOW_SIZE && !c.ackOnlySent && Overdue(c, TIMEOUT_TIME / 2)
  }

  predicate Pays(c: Core) {
    c.pending.Some? && CanPay(c.credits, c.pending.value.header)
  }

  function CreditChannel(c: Core): Channel {
    MaxChannel(c.owed, CHANNEL_NUM)
  }

  /** TX has no new frame to build. */
  predicate NoNew(c: Core) {
    || |c.retx| >= WINDOW_SIZE
    || (c.pending.None? && c.ackNums == [] && CreditChannel(c) == 0)
    || (c.pending.Some? && !Pays(c) && c.ackNums == [])
  }

  function NewFrame(c: Core): Frame {
    Frame(NormalFrame, c.nextTx, if c.ackNums == [] then Prev(c.nextRx) else c.ackNums[0], true,
          CreditChannel(c), if CreditChannel(c) == 0 then 0 else LargestPow(c.owed[CreditChannel(c)]),
          if Pays(c) then Some(OnWire(c.pending.value)) else None)
  }

  function AfterNew(c: Core): Core {
    c.(nextTx := Next(c.nextTx), retx := c.retx + [RetxElement(NewFrame(c), c.now)],
       ackNums := if c.ackNums == [] then [] else c.ackNums[1..],
       credits := if Pays(c) then Pay(c.credits, c.pending.value.header) else c.credits,
       owed := Return(c.owed, CreditChannel(c)),
       pending := if Pays(c) then None else c.pending,
       sent := if Pays(c) then c.sent + [c.pending.value] else c.sent)
  }

  function Stamped(retx: seq<RetxElement>, time: nat): seq<RetxElement> {
    seq(|retx|, i requires 0 <= i < |retx| => retx[i].(sendTime := time))
  }

  function Resent(retx: seq<RetxElement>, ack: int): seq<Frame> {
    seq(|retx|, i requires 0 <= i < |retx| => retx[i].frame.(seqNumAck := ack))
  }

  predicate InOrder(retx: seq<RetxElement>) {
    retx != [] ==> forall i :: 0 <= i < |retx| ==> Cmp(retx[i].frame.seqNum, retx[0].frame.seqNum) >= 0
  }

  /** The turns described here send new frames, or acks, or a timed out buffer, but no two of
      them, except that a full buffer may be preceded by an ack. */
  predicate Plain(c: Core) {
    && (c.sendAckOnly ==> NoNew(c) && !HalfAckDue(c))
    && (Overdue(c, TIMEOUT_TIME) ==> !c.sendAckOnly && NoNew(c) && InOrder(c.retx) && |c.retx| <= WINDOW_SIZE)
  }

  function AfterSend(c: Core): Core
    requires Plain(c)
  {
    if Overdue(c, TIMEOUT_TIME) then
      c.(retx := Stamped(c.retx, c.now), ackOnlySent := c.ackOnlySent || |c.retx| == WINDOW_SIZE)
    else if HalfAckDue(c) then c.(ackOnlySent := true)
    else if NoNew(c) then c.(sendAckOnly := false)
    else AfterNew(c)
  }

  function SentFrames(c: Core): seq<Frame>
    requires Plain(c)
  {
    if Overdue(c, TIMEOUT_TIME) then
      (if HalfAckDue(c) then [AckOnlyOf(c)] else []) + Resent(c.retx, Prev(c.nextRx))
    else if HalfAckDue(c) then [AckOnlyOf(c)]
    else if NoNew(c) then (if c.sendAckOnly then [AckOnlyOf(c)] else [])
    else [NewFrame(c)]
  }

  lemma IdleStage(y: Node, c: Core)
    requires CoreOf(y) == c && Plain(c) && NoNew(c) && !HalfAckDue(c) && !Overdue(c, TIMEOUT_TIME)
    ensures EndpointSpec.Transmit(Wrapping, y.ep, y.pending)
            == Transmitted(y.ep.(sendAckOnly := false), y.pending, SentFrames(c))
  {
    assert c.ackNums == AckNums(y.ep.acks);
  }

  lemma HalfStage(y: Node, c: Core)
    requires CoreOf(y) == c && Plain(c) && HalfAckDue(c) && !Overdue(c, TIMEOUT_TIME)
    ensures var t := EndpointSpec.Transmit(Wrapping, y.ep, y.pending);
            && t.leftover == y.pending && t.frames == [AckOnlyOf(c)]
            && t.state == y.ep.(ackOnlySent := true, stats := t.state.stats)
  {
  }

  lemma {:induction false} ResendsAll(retx: seq<RetxElement>, from: int, ack: int, time: nat)
    requires forall i :: 0 <= i < |retx| ==> Cmp(retx[i].frame.seqNum, from) >= 0
    ensures ResentFrames(Wrapping, retx, from, ack) == Resent(retx, ack)
    ensures Restamped(Wrapping, retx, from, time) == Stamped(retx, time)
  {
    if retx != [] {
      ResendsAll(retx[..|retx| - 1], from, ack, time);
    }
  }

  lemma LateStage(y: Node, c: Core)
    requires CoreOf(y) == c && Plain(c) && Overdue(c, TIMEOUT_TIME)
    ensures var t := EndpointSpec.Transmit(Wrapping, y.ep, y.pending);
            && t.leftover == y.pending && t.frames == SentFrames(c)
            && t.state == y.ep.(retx := Stamped(c.retx, c.now), stats := t.state.stats,
                                ackOnlySent := c.ackOnlySent || |c.retx| == WINDOW_SIZE)
  {
    assert c.ackNums == AckNums(y.ep.acks);
    ResendsAll(c.retx, c.retx[0].frame.seqNum, Prev(c.nextRx), c.now);
  }

  /** When no ack is due and the front is in time, TX is its data stage. */
  lemma OnlyData(e: EndpointState, request: Option<TlMsg>)
    requires !e.sendAckOnly && |e.retx| < WINDOW_SIZE
    requires var d := SendData(Wrapping, e, request, MaxChannel(e.owed, CHANNEL_NUM)).state;
             d.retx == [] || !TimedOut(d.now, d.retx[0].sendTime, TIMEOUT_TIME)
    ensures EndpointSpec.Transmit(Wrapping, e, request) == SendData(Wrapping, e, request, MaxChannel(e.owed, CHANNEL_NUM))
  {
    var d := SendData(Wrapping, e, request, MaxChannel(e.owed, CHANNEL_NUM));
    assert SendRequestedAck(Wrapping, e) == Sent(e, []);
    assert SendHalfTimeoutAck(Wrapping, e) == Sent(e, []);
    assert ResendOnTimeout(Wrapping, d.state) == Sent(d.state, []);
    assert [] + [] + d.frames + [] == d.frames;
  }

  /** What the data stage does to a node that has chosen its request. */
  ghost predicate Staged(y: Node, c: Core, d: Transmitted) {
    var n := AfterNew(c);
    && d.frames == [NewFrame(c)] && d.leftover == n.pending
    && d.state == y.ep.(nextTx := n.nextTx, retx := n.retx, acks := if y.ep.acks == [] then [] else y.ep.acks[1..],
                        credits := n.credits, owed := n.owed)
  }

  lemma DataStage(y: Node, c: Core)
    requires CoreOf(y) == c && Plain(c) && !NoNew(c)
    ensures Staged(y, c, SendData(Wrapping, y.ep, y.pending, CreditChannel(c)))
  {
    assert c.ackNums == AckNums(y.ep.acks);
  }

  lemma StagedCore(y: Node, c: Core, d: Transmitted)
    requires CoreOf(y) == c && Staged(y, c, d)
    ensures CoreOf(AfterTransmit(y, d)) == AfterNew(c)
  {
    assert c.ackNums == AckNums(y.ep.acks);
    assert y.ep.acks != [] ==> AckNums(y.ep.acks[1..]) == AckNums(y.ep.acks)[1..];
  }

  lemma NewStage(y: Node, c: Core)
    requires CoreOf(y) == c && Plain(c) && !NoNew(c) && !Overdue(c, TIMEOUT_TIME)
    ensures Staged(y, c, EndpointSpec.Transmit(Wrapping, y.ep, y.pending))
  {
    DataStage(y, c);
    OnlyData(y.ep, y.pending);
  }

  /** The sending half, in each of the four cases. */
  lemma SendCase(x: Node, c: Core, time: nat)
    requires CoreOf(x) == c && Plain(Picked(c, time))
    ensures var r, d := SendHalf(x, time), Picked(c, time);
            CoreOf(r.x) == AfterSend(d) && r.frames == SentFrames(d)
  {
    var y, d := Chosen(x, time), Picked(c, time);
    ChosenCore(x, time);
    if Overdue(d, TIMEOUT_TIME) {
      LateStage(y, d);
    } else if HalfAckDue(d) {
      HalfStage(y, d);
    } else if NoNew(d) {
      IdleStage(y, d);
    } else {
      NewStage(y, d);
      StagedCore(y, d, EndpointSpec.Transmit(Wrapping, y.ep, y.pending));
    }
  }

  // ---------- RX and tl_handler ----------

  /** What RX can serve without exiting. */
  predicate Acceptable(c: Core, f: Frame) {
    && f.isAck
    && (|| f.kind.AckOnlyFrame?
        || (&& f.kind.NormalFrame?
            && (if Cmp(f.seqNum, c.nextRx) == 0 then f.msg.None? || |c.inbox| < TL_MSG_CAPACITY
                else |c.ackNums| < ACK_CAPACITY)))
  }

  function AfterRx(c: Core, f: Frame): Core
    requires Acceptable(c, f)
  {
    var d := c.(retx := Slide(Wrapping, c.retx, f.seqNumAck), ackOnlySent := false);
    var order := Cmp(f.seqNum, c.nextRx);
    if f.kind.AckOnlyFrame? then d
    else if order != 0 then d.(ackNums := c.ackNums + [if order < 0 then f.seqNum else Prev(c.nextRx)])
    else
      var e := d.(nextRx := Next(f.seqNum), credits := Gain(c.credits, f.chan, f.credit));
      if f.msg.None? then e.(sendAckOnly := true)
      else e.(inbox := c.inbox + [f.msg.value], accepted := c.accepted + [f.msg.value])
  }

  lemma RxAckOnly(x: Node, c: Core, f: Frame)
    requires CoreOf(x) == c && Acceptable(c, f) && f.kind.AckOnlyFrame?
    ensures var r := EndpointSpec.Receive(Wrapping, x.ep, f);
            r.Received? && r.frames == [] && CoreOf(AfterReceive(x, r.state)) == AfterRx(c, f)
  {
  }

  lemma RxOther(x: Node, c: Core, f: Frame)
    requires CoreOf(x) == c && Acceptable(c, f) && f.kind.NormalFrame? && Cmp(f.seqNum, c.nextRx) != 0
    ensures var r := EndpointSpec.Receive(Wrapping, x.ep, f);
            r.Received? && r.frames == [] && CoreOf(AfterReceive(x, r.state)) == AfterRx(c, f)
  {
    assert |x.ep.acks| == |c.ackNums|;
  }

  lemma RxNext(x: Node, c: Core, f: Frame)
    requires CoreOf(x) == c && Acceptable(c, f) && f.kind.NormalFrame? && Cmp(f.seqNum, c.nextRx) == 0
    ensures var r := EndpointSpec.Receive(Wrapping, x.ep, f);
            r.Received? && r.frames == [] && CoreOf(AfterReceive(x, r.state)) == AfterRx(c, f)
  {
  }

  predicate Workable(c: Core) {
    c.inbox != [] ==> InBounds(c.inbox[0])
  }

  function AfterHandler(c: Core): Core
    requires Workable(c)
  {
    if c.inbox == [] || |c.responses| >= RESPONSE_CAPACITY then c
    else
      var m := c.inbox[0];
      var reply := ReplyTo(c.mem, m);
      c.(inbox := c.inbox[1..], mem := Written(c.mem, m),
         responses := c.responses + (if reply.Some? then [reply.value] else []),
         owed := Owe(c.owed, m.header.chan, Flits(m.header)))
  }

  lemma HandleCase(x: Node, c: Core)
    requires CoreOf(x) == c && Workable(c)
    ensures var r := HandleHalf(x); r.Some? && CoreOf(r.value) == AfterHandler(c)
  {
  }

  predicate Servable(c: Core, arrived: Option<Frame>) {
    && (arrived.Some? ==> Acceptable(c, arrived.value))
    && Workable(if arrived.None? then c else AfterRx(c, arrived.value))
  }

  function AfterServe(c: Core, arrived: Option<Frame>): Core
    requires Servable(c, arrived)
  {
    AfterHandler(if arrived.None? then c else AfterRx(c, arrived.value))
  }

  /** The serving half. */
  lemma ServeCase(x: Node, c: Core, arrived: Option<Frame>)
    requires CoreOf(x) == c && Servable(c, arrived)
    ensures var r := ServeHalf(x, arrived); r.Some? && r.value.frames == [] && CoreOf(r.value.x) == AfterServe(c, arrived)
  {
    if arrived.None? {
      HandleCase(x, c);
    } else {
      var f := arrived.value;
      if f.kind.AckOnlyFrame? {
        RxAckOnly(x, c, f);
      } else if Cmp(f.seqNum, c.nextRx) != 0 {
        RxOther(x, c, f);
      } else {
        RxNext(x, c, f);
      }
      HandleCase(AfterReceive(x, EndpointSpec.Receive(Wrapping, x.ep, f).state), AfterRx(c, f));
    }
  }

  // ---------- whole turns ----------

  /** A turn at `time` takes a node from c to d and sends these frames. */
  predicate Takes(c: Core, time: nat, arrived: Option<Frame>, d: Core, frames: seq<Frame>) {
    && time >= c.now && Plain(Picked(c, time)) && Servable(AfterSend(Picked(c, time)), arrived)
    && d == AfterServe(AfterSend(Picked(c, time)), arrived) && frames == SentFrames(Picked(c, time))
  }

  /** The system as one end sees it. */
  ghost predicate Now(atA: bool, s: System, mine: Core, peer: Core, out: seq<Frame>, incoming: seq<Frame>) {
    var v := FromEnd(atA, s);
    CoreOf(v.a) == mine && CoreOf(v.b) == peer && v.ab == out && v.ba == incoming
  }

  lemma TurnMove(atA: bool, s: System, mine: Core, peer: Core, out: seq<Frame>, incoming: seq<Frame>,
                 time: nat, arrived: bool, mine': Core, frames: seq<Frame>) returns (t: System)
    requires Now(atA, s, mine, peer, out, incoming) && (arrived ==> incoming != [])
    requires Takes(mine, time, if arrived then Some(incoming[0]) else None, mine', frames)
    ensures Connects(s, t)
    ensures Now(atA, t, mine', peer, out + frames, if arrived then incoming[1..] else incoming)
  {
    var f := if arrived then Some(incoming[0]) else None;
    var x := FromEnd(atA, s).a;
    SendCase(x, mine, time);
    ServeCase(SendHalf(x, time).x, AfterSend(Picked(mine, time)), f);
    t := Turns(atA, s, time, arrived, ServeHalf(SendHalf(x, time).x, f).value.x);
  }

  lemma QueueMove(atA: bool, s: System, mine: Core, peer: Core, out: seq<Frame>, incoming: seq<Frame>, m: TlMsg)
    returns (t: System)
    requires Now(atA, s, mine, peer, out, incoming) && |mine.messages| < MESSAGE_CAPACITY
    ensures Connects(s, t) && Now(atA, t, mine.(messages := mine.messages + [m]), peer, out, incoming)
  {
    t := Queues(atA, s, m);
  }

  /** The first n frames on their way here are lost. */
  lemma {:induction false} DropMove(atA: bool, s: System, mine: Core, peer: Core, out: seq<Frame>, incoming: seq<Frame>,
                                    n: nat) returns (t: System)
    requires Now(atA, s, mine, peer, out, incoming) && 1 <= n <= |incoming|
    ensures Connects(s, t) && Now(atA, t, mine, peer, out, incoming[n..])
    decreases n
  {
    var u := Drops(atA, s);
    t := u;
    if n > 1 {
      t := DropMove(atA, u, mine, peer, out, incoming[1..], n - 1);
      assert incoming[1..][n - 1..] == incoming[n..];
      ConnectsOn(s, u, t);
    }
  }

  // ---------- without histories ----------

  function Forget(c: Core): Core {
    c.(sent := [], accepted := [])
  }

  /** `Takes` for cores whose histories do not matter. */
  predicate Does(c: Core, time: nat, arrived: Option<Frame>, d: Core, frames: seq<Frame>) {
    && time >= c.now && Plain(Picked(c, time)) && Servable(AfterSend(Picked(c, time)), arrived)
    && d == Forget(AfterServe(AfterSend(Picked(c, time)), arrived)) && frames == SentFrames(Picked(c, time))
  }

  ghost predicate Sees(atA: bool, s: System, mine: Core, peer: Core, out: seq<Frame>, incoming: seq<Frame>) {
    var v := FromEnd(atA, s);
    Forget(CoreOf(v.a)) == mine && Forget(CoreOf(v.b)) == peer && v.ab == out && v.ba == incoming
  }

  // ---------- the cases a run is made of ----------

  /** A sending half alone. */
  predicate Sends(c: Core, time: nat, d: Core, frames: seq<Frame>) {
    time >= c.now && Plain(Picked(c, time)) && d == AfterSend(Picked(c, time)) && frames == SentFrames(Picked(c, time))
  }

  /** A serving half alone. */
  predicate Serves(c: Core, arrived: Option<Frame>, d: Core) {
    Servable(c, arrived) && d == Forget(AfterServe(c, arrived))
  }

  lemma HalvesDo(c: Core, time: nat, d: Core, frames: seq<Frame>, arrived: Option<Frame>, e: Core)
    requires Sends(c, time, d, frames) && Serves(d, arrived, e)
    ensures Does(c, time, arrived, e, frames)
  {
  }

  /** Nothing to send. */
  lemma QuietSend(c: Core, time: nat, d: Core)
    requires time >= c.now && d == Picked(c, time) && NoNew(d) && !d.sendAckOnly
    requires !HalfAckDue(d) && !Overdue(d, TIMEOUT_TIME)
    ensures Sends(c, time, d, [])
  {
  }

  /** The ack-only frame of half the timeout. */
  lemma HalfSend(c: Core, time: nat, d: Core)
    requires time >= c.now && d == Picked(c, time) && HalfAckDue(d) && !Overdue(d, TIMEOUT_TIME) && !d.sendAckOnly
    ensures Sends(c, time, d.(ackOnlySent := true), [AckOnlyOf(d)])
  {
  }

  /** The ack-only frame that was asked for. */
  lemma AskedSend(c: Core, time: nat, d: Core)
    requires time >= c.now && d == Picked(c, time) && NoNew(d) && d.sendAckOnly
    requires !HalfAckDue(d) && !Overdue(d, TIMEOUT_TIME)
    ensures Sends(c, time, d.(sendAckOnly := false), [AckOnlyOf(d)])
  {
  }

  lemma NewSend(c: Core, time: nat, d: Core)
    requires time >= c.now && d == Picked(c, time) && !NoNew(d) && !d.sendAckOnly && !Overdue(d, TIMEOUT_TIME)
    ensures Sends(c, time, AfterNew(d), [NewFrame(d)])
  {
  }

  /** A full buffer that has timed out, its ack-only frame sent before. */
  lemma LateSend(c: Core, time: nat, d: Core)
    requires time >= c.now && d == Picked(c, time) && Overdue(d, TIMEOUT_TIME) && !d.sendAckOnly
    requires |d.retx| == WINDOW_SIZE && InOrder(d.retx) && d.ackOnlySent
    ensures Sends(c, time, d.(retx := Stamped(d.retx, time)), Resent(d.retx, Prev(d.nextRx)))
  {
    assert [] + Resent(d.retx, Prev(d.nextRx)) == Resent(d.retx, Prev(d.nextRx));
  }

  /** tl_handler has nothing it can do. */
  predicate HandlerIdle(c: Core) {
    c.inbox == [] || (|c.responses| >= RESPONSE_CAPACITY && InBounds(c.inbox[0]))
  }

  lemma NoneServes(c: Core)
    requires HandlerIdle(c)
    ensures Serves(c, None, Forget(c))
  {
  }

  lemma AckServes(c: Core, f: Frame)
    requires f.isAck && f.kind.AckOnlyFrame? && HandlerIdle(c)
    ensures Serves(c, Some(f), Forget(c.(retx := Slide(Wrapping, c.retx, f.seqNumAck), ackOnlySent := false)))
  {
  }

  /** An ack, and a message that is handled and answered in the same turn. */
  lemma AckAndHandle(c: Core, f: Frame, m: TlMsg, rest: seq<TlMsg>, reply: TlMsg)
    requires f.isAck && f.kind.AckOnlyFrame? && c.inbox == [m] + rest && |c.responses| < RESPONSE_CAPACITY && InBounds(m)
    requires ReplyTo(c.mem, m) == Some(reply) && !IsPut(m)
    ensures Serves(c, Some(f), Forget(c.(retx := Slide(Wrapping, c.retx, f.seqNumAck), ackOnlySent := false, inbox := rest,
                                         responses := c.responses + [reply],
                                         owed := Owe(c.owed, m.header.chan, Flits(m.header)))))
  {
    assert ([m] + rest)[1..] == rest;
  }

  predicate IsNext(c: Core, f: Frame) {
    f.isAck && f.kind.NormalFrame? && f.seqNum == c.nextRx
  }

  /** The next message, which has to wait. */
  lemma MessageWaits(c: Core, f: Frame, m: TlMsg)
    requires IsNext(c, f) && f.msg == Some(m) && f.chan == 0 && |c.responses| >= RESPONSE_CAPACITY
    requires |c.inbox| < TL_MSG_CAPACITY && InBounds(m) && HandlerIdle(c)
    ensures Serves(c, Some(f), Forget(c.(retx := Slide(Wrapping, c.retx, f.seqNumAck), ackOnlySent := false,
                                         nextRx := Next(c.nextRx), inbox := c.inbox + [m])))
  {
  }

  /** The next message, handled at once. */
  lemma MessageHandled(c: Core, f: Frame, m: TlMsg)
    requires IsNext(c, f) && f.msg == Some(m) && c.inbox == [] && |c.responses| < RESPONSE_CAPACITY && InBounds(m)
    ensures var reply := ReplyTo(c.mem, m);
            Serves(c, Some(f), Forget(c.(retx := Slide(Wrapping, c.retx, f.seqNumAck), ackOnlySent := false,
                                         nextRx := Next(c.nextRx), credits := Gain(c.credits, f.chan, f.credit),
                                         responses := c.responses + (if reply.Some? then [reply.value] else []),
                                         mem := Written(c.mem, m),
                                         owed := Owe(c.owed, m.header.chan, Flits(m.header)))))
  {
    assert [m][1..] == [];
  }

  /** The next frame, without a message. */
  lemma EmptyServes(c: Core, f: Frame)
    requires IsNext(c, f) && f.msg.None? && c.inbox == []
    ensures Serves(c, Some(f), Forget(c.(retx := Slide(Wrapping, c.retx, f.seqNumAck), ackOnlySent := false,
                                         nextRx := Next(c.nextRx), credits := Gain(c.credits, f.chan, f.credit),
                                         sendAckOnly := true)))
  {
  }

  /** A duplicate. */
  lemma DuplicateServes(c: Core, f: Frame)
    requires f.isAck && f.kind.NormalFrame? && Cmp(f.seqNum, c.nextRx) < 0 && |c.ackNums| < ACK_CAPACITY && HandlerIdle(c)
    ensures Serves(c, Some(f), Forget(c.(retx := Slide(Wrapping, c.retx, f.seqNumAck), ackOnlySent := false,
                                         ackNums := c.ackNums + [f.seqNum])))
  {
  }

  lemma PickedForgets(b: Core, time: nat)
    ensures Forget(Picked(b, time)) == Picked(Forget(b), time)
  {
  }

  lemma SendForgets(b: Core)
    requires Plain(Forget(b))
    ensures Plain(b) && SentFrames(b) == SentFrames(Forget(b)) && Forget(AfterSend(b)) == Forget(AfterSend(Forget(b)))
  {
  }

  lemma ServeForgets(b: Core, c: Core, arrived: Option<Frame>)
    requires Forget(b) == Forget(c) && Servable(c, arrived)
    ensures Servable(b, arrived) && Forget(AfterServe(b, arrived)) == Forget(AfterServe(c, arrived))
  {
  }

  lemma DoesTakes(b: Core, time: nat, arrived: Option<Frame>, d: Core, frames: seq<Frame>) returns (e: Core)
    requires Does(Forget(b), time, arrived, d, frames)
    ensures Takes(b, time, arrived, e, frames) && Forget(e) == d
  {
    var c := Picked(b, time);
    PickedForgets(b, time);
    SendForgets(c);
    ServeForgets(AfterSend(c), AfterSend(Forget(c)), arrived);
    e := AfterServe(AfterSend(c), arrived);
  }

  lemma DoesMove(atA: bool, s: System, mine: Core, peer: Core, out: seq<Frame>, incoming: seq<Frame>,
                 time: nat, arrived: bool, mine': Core, frames: seq<Frame>) returns (t: System)
    requires Sees(atA, s, mine, peer, out, incoming) && (arrived ==> incoming != [])
    requires Does(mine, time, if arrived then Some(incoming[0]) else None, mine', frames)
    ensures Connects(s, t)
    ensures Sees(atA, t, mine', peer, out + frames, if arrived then incoming[1..] else incoming)
  {
    var v := FromEnd(atA, s);
    var e := DoesTakes(CoreOf(v.a), time, if arrived then Some(incoming[0]) else None, mine', frames);
    t := TurnMove(atA, s, CoreOf(v.a), CoreOf(v.b), out, incoming, time, arrived, e, frames);
  }

  lemma QueueSees(atA: bool, s: System, mine: Core, peer: Core, out: seq<Frame>, incoming: seq<Frame>, m: TlMsg)
    returns (t: System)
    requires Sees(atA, s, mine, peer, out, incoming) && |mine.messages| < MESSAGE_CAPACITY
    ensures Connects(s, t) && Sees(atA, t, mine.(messages := mine.messages + [m]), peer, out, incoming)
  {
    var v := FromEnd(atA, s);
    t := QueueMove(atA, s, CoreOf(v.a), CoreOf(v.b), out, incoming, m);
  }

  lemma DropSees(atA: bool, s: System, mine: Core, peer: Core, out: seq<Frame>, incoming: seq<Frame>, n: nat)
    returns (t: System)
    requires Sees(atA, s, mine, peer, out, incoming) && 1 <= n <= |incoming|
    ensures Connects(s, t) && Sees(atA, t, mine, peer, out, incoming[n..])
  {
    var v := FromEnd(atA, s);
    t := DropMove(atA, s, CoreOf(v.a), CoreOf(v.b), out, incoming, n);
  }
}
