/**
 Recovery from any loss. After a timeout, once the receiver has served as many frames as
 were in its channel, with none of them lost, it has accepted everything the sender had
 sent by then; and once the sender has served as many frames as were in its channel when
 the receiver acknowledged freshly, it has freed everything the receiver had accepted.
 Whatever else the two ends do meanwhile makes no difference.
 */
module Recovery {
  import opened SeqNum
  import opened TileLinkMsg
  import opened FlowControl
  import opened EndpointSpec
  import opened System
  import opened Safety
  import opened Credits

  // ---------- what a run of deliveries does ----------

  /** The expected number after the frames `fs` have been served. */
  function Frontier(fs: seq<Frame>, nextRx: int): int {
    if fs == [] then nextRx
    else
      var r := Frontier(fs[..|fs| - 1], nextRx);
      var f := fs[|fs| - 1];
      if !f.kind.AckOnlyFrame? && f.seqNum == r then r + 1 else r
  }

  lemma {:induction false} FrontierConcat(fs: seq<Frame>, gs: seq<Frame>, nextRx: int)
    ensures Frontier(fs + gs, nextRx) == Frontier(gs, Frontier(fs, nextRx))
  {
    if gs == [] {
      assert fs + gs == fs;
    } else {
      FrontierConcat(fs, gs[..|gs| - 1], nextRx);
      assert (fs + gs)[..|fs + gs| - 1] == fs + gs[..|gs| - 1];
    }
  }

  /** A gap-free resend carries the receiver to its end. */
  lemma {:induction false} FrontierOfResend(fs: seq<Frame>, base: int, nextRx: int)
    requires forall i :: 0 <= i < |fs| ==> fs[i].seqNum == base + i && !fs[i].kind.AckOnlyFrame?
    requires base <= nextRx <= base + |fs|
    ensures Frontier(fs, nextRx) == base + |fs|
  {
    if fs != [] {
      if nextRx <= base + |fs| - 1 {
        FrontierOfResend(fs[..|fs| - 1], base, nextRx);
      } else {
        FrontierIdle(fs, nextRx);
      }
    }
  }

  lemma {:induction false} FrontierIdle(fs: seq<Frame>, nextRx: int)
    requires forall i :: 0 <= i < |fs| ==> fs[i].seqNum < nextRx
    ensures Frontier(fs, nextRx) == nextRx
  {
    if fs != [] {
      FrontierIdle(fs[..|fs| - 1], nextRx);
    }
  }

  /** Frames numbered below `top` carry the receiver no further than that. */
  lemma {:induction false} FrontierBound(fs: seq<Frame>, nextRx: int, top: int)
    requires nextRx <= top
    requires forall i :: 0 <= i < |fs| && !fs[i].kind.AckOnlyFrame? ==> fs[i].seqNum < top
    ensures nextRx <= Frontier(fs, nextRx) <= top
  {
    if fs != [] {
      FrontierBound(fs[..|fs| - 1], nextRx, top);
    }
  }

  lemma NextServed(fs: seq<Frame>, k: nat, nextRx: int)
    requires k < |fs|
    ensures Frontier(fs[..k + 1], nextRx)
            == var r := Frontier(fs[..k], nextRx);
               if !fs[k].kind.AckOnlyFrame? && fs[k].seqNum == r then r + 1 else r
  {
    assert fs[..k + 1][..k] == fs[..k];
  }

  // ---------- what a run does to one end ----------

  /** How often the given end serves a frame. */
  function Serves(steps: seq<Step>, atA: bool): nat {
    if steps == [] then 0
    else Serves(steps[..|steps| - 1], atA) + if steps[|steps| - 1] == Step(atA, Op.Receive) then 1 else 0
  }

  /** No frame on its way to the given end is lost. */
  predicate Lossless(steps: seq<Step>, atA: bool) {
    forall i :: 0 <= i < |steps| ==> steps[i] != Step(atA, Op.Lose)
  }

  /** A step other than serving: node a's channel only grows, and what it expects and holds stays. */
  ghost predicate Elsewhere(t: System, u: System) {
    t.ba <= u.ba && u.a.ep.nextRx == t.a.ep.nextRx && Base(u.a) == Base(t.a)
  }

  /** Node a has served the oldest frame of its channel. */
  ghost predicate ServedOne(t: System, u: System) {
    && t.ba != [] && u.ba == t.ba[1..]
    && u.a.ep.nextRx == (if !t.ba[0].kind.AckOnlyFrame? && t.ba[0].seqNum == t.a.ep.nextRx then t.a.ep.nextRx + 1
                         else t.a.ep.nextRx)
    && Base(u.a) >= Base(t.a) && Base(u.a) > t.ba[0].seqNumAck
  }

  lemma ServedNode(x: Node, x': Node, f: Frame)
    requires Window(x) && ReceiveOk(x, x', f, !f.kind.AckOnlyFrame?)
    requires f.seqNumAck < x.ep.nextTx
    ensures x'.ep.nextRx == (if !f.kind.AckOnlyFrame? && f.seqNum == x.ep.nextRx then x.ep.nextRx + 1 else x.ep.nextRx)
    ensures Base(x') >= Base(x) && Base(x') > f.seqNumAck
  {
  }

  lemma ReceiveServesOne(t: System, u: System)
    requires Inv(t) && Act(Unbounded, t, Op.Receive) == Some(u)
    ensures ServedOne(t, u)
  {
    ReceiveAct(t, u);
    ServedNode(t.a, u.a, t.ba[0]);
  }

  lemma OwnStep(t: System, u: System, op: Op)
    requires Inv(t) && Act(Unbounded, t, op) == Some(u) && !op.Receive? && !op.Lose?
    ensures Elsewhere(t, u)
  {
    if op.Transmit? {
      TransmitAct(t, u);
      TransmitEffect(t.a);
    } else {
      OtherIsQuiet(Unbounded, t, u, op);
    }
  }

  lemma PeerReceives(t: System, u: System)
    requires Inv(t) && Act(Unbounded, t, Op.Receive) == Some(u)
    ensures u.b == t.b && u.ab == t.ab
  {
    ReceiveAct(t, u);
  }

  lemma PeerStep(t: System, u: System, op: Op)
    requires Inv(t) && Act(Unbounded, t, op) == Some(u)
    ensures Elsewhere(Flip(t), Flip(u))
  {
    if op.Receive? {
      PeerReceives(t, u);
    } else if op.Transmit? {
      TransmitAct(t, u);
    } else {
      OtherIsQuiet(Unbounded, t, u, op);
    }
  }

  lemma StepEffect(t: System, u: System, step: Step)
    requires Inv(t) && Apply(Unbounded, t, step) == Some(u) && step != Step(true, Op.Lose)
    ensures if step == Step(true, Op.Receive) then ServedOne(t, u) else Elsewhere(t, u)
  {
    if !step.atA {
      PeerStep(Flip(t), Flip(u), step.op);
    } else if step.op.Receive? {
      ReceiveServesOne(t, u);
    } else {
      OwnStep(t, u, step.op);
    }
  }

  /** What a run has done to node a when it has served m frames. */
  ghost predicate Progressed(s: System, t: System, m: nat) {
    && t.a.ep.nextRx >= s.a.ep.nextRx && Base(t.a) >= Base(s.a)
    && (m <= |s.ba| ==> s.ba[m..] <= t.ba && t.a.ep.nextRx == Frontier(s.ba[..m], s.a.ep.nextRx))
    && (m >= |s.ba| ==> t.a.ep.nextRx >= Frontier(s.ba, s.a.ep.nextRx))
    && (forall i :: 0 <= i < |s.ba| && i < m ==> Base(t.a) > s.ba[i].seqNumAck)
  }

  lemma ServedProgresses(s: System, t: System, u: System, m: nat)
    requires Progressed(s, t, m) && ServedOne(t, u)
    ensures Progressed(s, u, m + 1)
  {
    if m < |s.ba| {
      assert t.ba[0] == s.ba[m..][0] && s.ba[m..][1..] == s.ba[m + 1..];
      NextServed(s.ba, m, s.a.ep.nextRx);
      assert m + 1 == |s.ba| ==> s.ba[..m + 1] == s.ba;
    }
  }

  lemma ElsewhereProgresses(s: System, t: System, u: System, m: nat)
    requires Progressed(s, t, m) && Elsewhere(t, u)
    ensures Progressed(s, u, m)
  {
  }

  /** Whatever a run does: as node a serves frames of its channel, in order, it comes as far
      as they carry it, and frees what they acknowledge. */
  lemma {:induction false} RunProgresses(s: System, steps: seq<Step>, t: System)
    requires CreditInv(s) && Run(Unbounded, s, steps) == Some(t) && Lossless(steps, true)
    ensures CreditInv(t) && Progressed(s, t, Serves(steps, true))
  {
    if steps == [] {
      assert s.ba[..0] == [] && s.ba[0..] == s.ba;
    } else {
      var front, last := steps[..|steps| - 1], steps[|steps| - 1];
      var u := Run(Unbounded, s, front).value;
      RunProgresses(s, front, u);
      ActKeepsCredit(FromEnd(last.atA, u), last.op);
      StepEffect(u, t, last);
      if last == Step(true, Op.Receive) {
        ServedProgresses(s, u, t, Serves(front, true));
      } else {
        ElsewhereProgresses(s, u, t, Serves(front, true));
      }
    }
  }

  // ---------- the two halves ----------

  predicate FrontTimedOut(x: Node) {
    x.ep.retx != [] && TimedOut(x.ep.now, x.ep.retx[0].sendTime, TIMEOUT_TIME)
  }

  ghost predicate EndsWithResend(x': Node, frames: seq<Frame>, early: seq<Frame>, late: seq<Frame>) {
    && frames == early + late
    && |late| == |x'.ep.retx|
    && (forall i :: 0 <= i < |late| ==> late[i].seqNum == Base(x') + i && !late[i].kind.AckOnlyFrame?
                                        && late[i].seqNumAck == x'.ep.nextRx - 1)
  }

  lemma TimeoutResendsAll(x: Node)
    requires Window(x) && FrontTimedOut(x)
    ensures var r := ResendOnTimeout(Unbounded, x.ep);
            EndsWithResend(x.(ep := r.state), r.frames, [], r.frames)
  {
    ResentAll(x.ep.retx, Base(x), x.ep.retx[0].frame.seqNum, x.ep.nextRx - 1);
  }

  lemma StillTimedOut(x: Node)
    requires FrontTimedOut(x)
    ensures FrontTimedOut(AfterTransmit(x, DataStep(x)))
  {
    DataStepCases(x);
    assert BeforeData(x).retx == x.ep.retx && BeforeData(x).now == x.ep.now;
    assert DataStep(x).state.now == x.ep.now;
  }

  lemma PartsResend(x: Node, x': Node, frames: seq<Frame>, mid: Node, late: Sent, data: seq<Frame>)
    requires Window(x) && FrontTimedOut(x) && Parts(x, x', frames, mid, late, data)
    requires forall i :: 0 <= i < |x.ep.acks| ==> x.ep.acks[i].seqNumAck < x.ep.nextRx
    ensures EndsWithResend(x', frames, RequestedAcks(x) + data, late.frames)
  {
    DataOk(x, mid, data);
    StillTimedOut(x);
    TimeoutResendsAll(mid);
  }

  /** After a timeout, TX has put the whole buffer on the network, last and in order. */
  lemma TransmitResends(x: Node) returns (early: seq<Frame>, late: seq<Frame>)
    requires Window(x) && FrontTimedOut(x)
    requires forall i :: 0 <= i < |x.ep.acks| ==> x.ep.acks[i].seqNumAck < x.ep.nextRx
    ensures var t := EndpointSpec.Transmit(Unbounded, x.ep, x.pending);
            EndsWithResend(AfterTransmit(x, t), t.frames, early, late)
  {
    var mid, last, data := TransmitSplits(x);
    var t := EndpointSpec.Transmit(Unbounded, x.ep, x.pending);
    PartsResend(x, AfterTransmit(x, t), t.frames, mid, last, data);
    early, late := RequestedAcks(x) + data, last.frames;
  }

  /** A channel that ends with the whole buffer carries the receiver to its end. */
  lemma ChannelReachesEnd(x: Node, nextRx: int, before: seq<Frame>, late: seq<Frame>)
    requires EndsWithResend(x, late, [], late) && Base(x) <= nextRx <= x.ep.nextTx
    requires forall i :: 0 <= i < |before| && !before[i].kind.AckOnlyFrame? ==> before[i].seqNum < x.ep.nextTx
    ensures Frontier(before + late, nextRx) == x.ep.nextTx
  {
    FrontierBound(before, nextRx, x.ep.nextTx);
    FrontierConcat(before, late, nextRx);
    FrontierOfResend(late, Base(x), Frontier(before, nextRx));
  }

  lemma EndsAlone(x': Node, ab: seq<Frame>, frames: seq<Frame>, early: seq<Frame>, late: seq<Frame>)
    requires EndsWithResend(x', frames, early, late)
    ensures EndsWithResend(x', late, [], late) && ab + frames == (ab + early) + late
  {
    assert late == [] + late;
  }

  lemma ResendInChannel(s: System, t: System) returns (before: seq<Frame>, late: seq<Frame>)
    requires Window(s.a) && AcksBelow(s.a, []) && FrontTimedOut(s.a)
    requires Act(Unbounded, s, Op.Transmit) == Some(t)
    ensures t.ab == before + late && EndsWithResend(t.a, late, [], late)
  {
    TransmitAct(s, t);
    var early;
    early, late := TransmitResends(s.a);
    before := s.ab + early;
    EndsAlone(t.a, s.ab, EndpointSpec.Transmit(Unbounded, s.a.ep, s.a.pending).frames, early, late);
  }

  lemma SentInFlight(t: System)
    requires Inv(t)
    ensures forall i :: 0 <= i < |t.ab| && !t.ab[i].kind.AckOnlyFrame? ==> t.ab[i].seqNum < t.a.ep.nextTx
  {
    forall i | 0 <= i < |t.ab| && !t.ab[i].kind.AckOnlyFrame? ensures t.ab[i].seqNum < t.a.ep.nextTx {
      assert InFlight(t.a, t.b.ep.nextRx, t.ab[i]);
    }
  }

  lemma ResendReachesEnd(s: System, t: System)
    requires CreditInv(s) && FrontTimedOut(s.a) && Act(Unbounded, s, Op.Transmit) == Some(t)
    ensures CreditInv(t) && Frontier(t.ab, t.b.ep.nextRx) == t.a.ep.nextTx
  {
    ActKeepsCredit(s, Op.Transmit);
    var before, late := ResendInChannel(s, t);
    SentInFlight(t);
    forall i | 0 <= i < |before| && !before[i].kind.AckOnlyFrame? ensures before[i].seqNum < t.a.ep.nextTx {
      assert t.ab[i] == before[i];
    }
    ChannelReachesEnd(t.a, t.b.ep.nextRx, before, late);
  }

  lemma {:induction false} FlipServes(steps: seq<Step>, atA: bool)
    ensures Serves(FlipSteps(steps), !atA) == Serves(steps, atA)
    ensures Lossless(steps, atA) ==> Lossless(FlipSteps(steps), !atA)
  {
    if steps != [] {
      FlipServes(steps[..|steps| - 1], atA);
      assert FlipSteps(steps)[..|steps| - 1] == FlipSteps(steps[..|steps| - 1]);
    }
  }

  /** From any state with the invariant, whatever was lost before: once a's oldest frame has
      timed out and TX has run, any run in which b serves as many frames as were then in its
      channel, and none to b is lost, ends with everything accepted that a had sent. Both
      ends may do anything else in between. */
  lemma TimeoutCatchesUp(s: System, t: System, steps: seq<Step>, x: System)
    requires CreditInv(s) && FrontTimedOut(s.a) && Act(Unbounded, s, Op.Transmit) == Some(t)
    requires Run(Unbounded, t, steps) == Some(x) && Lossless(steps, false) && Serves(steps, false) >= |t.ab|
    ensures CreditInv(x) && x.b.ep.nextRx >= t.a.ep.nextTx
  {
    ResendReachesEnd(s, t);
    RunFlips(Unbounded, t, steps);
    FlipServes(steps, false);
    RunProgresses(Flip(t), FlipSteps(steps), Flip(x));
  }

  // ---------- when TX acknowledges everything it has accepted ----------

  /** The window is full, half the timeout is over and no ack-only frame has been sent since. */
  predicate HalfDue(x: Node) {
    |x.ep.retx| == WINDOW_SIZE && !x.ep.ackOnlySent && TimedOut(x.ep.now, x.ep.retx[0].sendTime, TIMEOUT_TIME / 2)
  }

  /** A new frame is due, and no queued ack older than the last accepted number is in its way. */
  predicate FreshDataDue(x: Node) {
    && !NothingToSend(x.ep, x.pending, MaxChannel(x.ep.owed, CHANNEL_NUM))
    && (x.ep.acks == [] || x.ep.acks[0].seqNumAck == x.ep.nextRx - 1)
  }

  /** Some frame that TX would send now acknowledges the last accepted number. */
  ghost predicate AcksFreshly(n: Numbering, x: Node) {
    exists f :: f in EndpointSpec.Transmit(n, x.ep, x.pending).frames && f.seqNumAck == n.Pred(x.ep.nextRx)
  }

  lemma RequestedAcksIff(x: Node)
    ensures RequestedAcks(x) != [] <==> x.ep.sendAckOnly || HalfDue(x)
    ensures RequestedAcks(x) != [] ==> RequestedAcks(x)[0] == AckOnly(Unbounded, x.ep)
  {
  }

  lemma DataFrameIff(x: Node)
    ensures DataStep(x).frames != [] <==> !NothingToSend(x.ep, x.pending, MaxChannel(x.ep.owed, CHANNEL_NUM))
  {
    var e := BeforeData(x);
    assert e.retx == x.ep.retx && e.acks == x.ep.acks && e.credits == x.ep.credits;
  }

  lemma LateIff(x: Node, mid: Node, late: Sent)
    requires mid == AfterTransmit(x, DataStep(x)) && late == ResendOnTimeout(Unbounded, mid.ep)
    ensures late.frames != [] ==> FrontTimedOut(x)
  {
    DataStepCases(x);
    assert BeforeData(x).retx == x.ep.retx && BeforeData(x).now == x.ep.now;
    assert DataStep(x).state.now == x.ep.now;
  }

  lemma PartsFreshOnlyIf(x: Node, x': Node, frames: seq<Frame>, mid: Node, late: Sent, data: seq<Frame>, f: Frame)
    requires Parts(x, x', frames, mid, late, data) && f in frames && f.seqNumAck == x.ep.nextRx - 1
    ensures x.ep.sendAckOnly || HalfDue(x) || FrontTimedOut(x) || FreshDataDue(x)
  {
    RequestedAcksIff(x);
    LateIff(x, mid, late);
    if f in data {
      DataFrameIff(x);
      DataStepCases(x);
    }
  }

  lemma PartsFreshIf(x: Node, x': Node, frames: seq<Frame>, mid: Node, late: Sent, data: seq<Frame>)
    requires Parts(x, x', frames, mid, late, data)
    requires x.ep.sendAckOnly || HalfDue(x) || FreshDataDue(x)
    ensures exists f :: f in frames && f.seqNumAck == x.ep.nextRx - 1
  {
    if x.ep.sendAckOnly || HalfDue(x) {
      RequestedAcksIff(x);
      assert RequestedAcks(x)[0] in frames;
    } else {
      DataFrameIff(x);
      DataStepCases(x);
      assert data[0] in frames;
    }
  }

  lemma LateIsFresh(x': Node, frames: seq<Frame>, early: seq<Frame>, late: seq<Frame>)
    requires EndsWithResend(x', frames, early, late) && x'.ep.retx != []
    ensures exists f :: f in frames && f.seqNumAck == x'.ep.nextRx - 1
  {
    assert late[0] in frames;
  }

  lemma PartsTimeoutFresh(x: Node, x': Node, frames: seq<Frame>, mid: Node, late: Sent, data: seq<Frame>)
    requires Window(x) && AcksBelow(x, []) && FrontTimedOut(x) && Parts(x, x', frames, mid, late, data)
    ensures exists f :: f in frames && f.seqNumAck == x.ep.nextRx - 1
  {
    PartsResend(x, x', frames, mid, late, data);
    PartsOk(x, x', frames, mid, late, data);
    DataStepCases(x);
    assert BeforeData(x).retx == x.ep.retx;
    LateIsFresh(x', frames, RequestedAcks(x) + data, late.frames);
  }

  lemma TimeoutAcksFresh(x: Node)
    requires Window(x) && AcksBelow(x, []) && FrontTimedOut(x)
    ensures AcksFreshly(Unbounded, x)
  {
    var t := EndpointSpec.Transmit(Unbounded, x.ep, x.pending);
    var mid, late, data := TransmitSplits(x);
    PartsTimeoutFresh(x, AfterTransmit(x, t), t.frames, mid, late, data);
  }

  /** TX acknowledges everything it has accepted exactly when an ack-only frame is due,
      for either reason, or a timeout has run, or a new frame finds no older ack queued. */
  lemma TransmitAcksFreshIff(x: Node)
    requires Window(x) && AcksBelow(x, [])
    ensures AcksFreshly(Unbounded, x) <==> x.ep.sendAckOnly || HalfDue(x) || FrontTimedOut(x) || FreshDataDue(x)
  {
    var t := EndpointSpec.Transmit(Unbounded, x.ep, x.pending);
    var mid, late, data := TransmitSplits(x);
    if AcksFreshly(Unbounded, x) {
      var f :| f in t.frames && f.seqNumAck == x.ep.nextRx - 1;
      PartsFreshOnlyIf(x, AfterTransmit(x, t), t.frames, mid, late, data, f);
    }
    if FrontTimedOut(x) {
      TimeoutAcksFresh(x);
    } else if x.ep.sendAckOnly || HalfDue(x) || FreshDataDue(x) {
      PartsFreshIf(x, AfterTransmit(x, t), t.frames, mid, late, data);
    }
  }

  lemma PartsAnswer(x: Node, x': Node, frames: seq<Frame>, mid: Node, late: Sent, data: seq<Frame>, f: Frame)
    requires Parts(x, x', frames, mid, late, data) && f in frames
    requires f.kind.AckOnlyFrame? || f.seqNum < x.ep.nextTx
    ensures f.seqNumAck == x.ep.nextRx - 1
  {
    RequestedAcksFresh(x);
    TimeoutStamps(mid);
    DataStepCases(x);
    assert mid.ep.nextRx == x.ep.nextRx;
  }

  /** Every ack-only and every resent frame acknowledges the last accepted number. */
  lemma AckOnlyOrResentIsFresh(x: Node, f: Frame)
    requires f in EndpointSpec.Transmit(Unbounded, x.ep, x.pending).frames
    requires f.kind.AckOnlyFrame? || f.seqNum < x.ep.nextTx
    ensures f.seqNumAck == x.ep.nextRx - 1 && AcksFreshly(Unbounded, x)
  {
    var t := EndpointSpec.Transmit(Unbounded, x.ep, x.pending);
    var mid, late, data := TransmitSplits(x);
    PartsAnswer(x, AfterTransmit(x, t), t.frames, mid, late, data, f);
  }

  lemma FreshAckQueued(s: System, t: System) returns (i: nat)
    requires AcksFreshly(Unbounded, s.a) && Act(Unbounded, s, Op.Transmit) == Some(t)
    ensures i < |t.ab| && t.ab[i].seqNumAck == s.a.ep.nextRx - 1
  {
    TransmitAct(s, t);
    var frames := EndpointSpec.Transmit(Unbounded, s.a.ep, s.a.pending).frames;
    var f :| f in frames && f.seqNumAck == s.a.ep.nextRx - 1;
    var k :| 0 <= k < |frames| && frames[k] == f;
    i := |s.ab| + k;
    assert t.ab[i] == f;
  }

  /** Once b has sent a fresh ack, any run in which a serves as many frames as were then in its
      channel, and none to a is lost, ends with nothing in a's buffer that b had accepted. */
  lemma FreshAckFrees(s: System, t: System, steps: seq<Step>, x: System)
    requires CreditInv(s) && AcksFreshly(Unbounded, s.b) && Apply(Unbounded, s, Step(false, Op.Transmit)) == Some(t)
    requires Run(Unbounded, t, steps) == Some(x) && Lossless(steps, true) && Serves(steps, true) >= |t.ba|
    ensures CreditInv(x) && Base(x.a) >= s.b.ep.nextRx
  {
    ActKeepsCredit(Flip(s), Op.Transmit);
    var i := FreshAckQueued(Flip(s), Flip(t));
    RunProgresses(t, steps, x);
  }

  /** The two together: a's timeout, a run that delivers to b, a turn of b that acknowledges
      freshly, and a run that delivers to a leave nothing in a's buffer that was there at the
      timeout. */
  lemma RecoverySchedule(s: System, t: System, there: seq<Step>, v: System, w: System, back: seq<Step>, x: System)
    requires CreditInv(s) && FrontTimedOut(s.a) && Act(Unbounded, s, Op.Transmit) == Some(t)
    requires Run(Unbounded, t, there) == Some(v) && Lossless(there, false) && Serves(there, false) >= |t.ab|
    requires AcksFreshly(Unbounded, v.b) && Apply(Unbounded, v, Step(false, Op.Transmit)) == Some(w)
    requires Run(Unbounded, w, back) == Some(x) && Lossless(back, true) && Serves(back, true) >= |w.ba|
    ensures Base(x.a) >= v.b.ep.nextRx >= t.a.ep.nextTx
  {
    TimeoutCatchesUp(s, t, there, v);
    FreshAckFrees(v, w, back, x);
  }
}
