/**
 The retransmission timer: send times never decrease from the front of the buffer to
 its rear, so the test on the front element misses no timeout.
 */
module Timers {
  import opened SeqNum
  import opened TileLinkMsg
  import opened EndpointSpec
  import opened System
  import opened Safety
  import opened Wire

  ghost predicate Ordered(retx: seq<RetxElement>, now: nat) {
    && (forall i, j :: 0 <= i < j < |retx| ==> retx[i].sendTime <= retx[j].sendTime)
    && (forall i :: 0 <= i < |retx| ==> retx[i].sendTime <= now)
  }

  ghost predicate TimerInv(s: System) {
    Inv(s) && Ordered(s.a.ep.retx, s.a.ep.now) && Ordered(s.b.ep.retx, s.b.ep.now)
  }

  /** Resending restamps a suffix of the buffer with the latest time, from any number on. */
  lemma RestampKeepsOrder(retx: seq<RetxElement>, base: int, from: int, now: nat)
    requires Consecutive(retx, base) && Ordered(retx, now)
    ensures Ordered(Restamped(Unbounded, retx, from, now), now)
  {
  }

  lemma TimeoutKeepsOrder(x: Node)
    requires Window(x) && Ordered(x.ep.retx, x.ep.now)
    ensures var e := ResendOnTimeout(Unbounded, x.ep).state; Ordered(e.retx, e.now)
  {
    if x.ep.retx != [] {
      RestampKeepsOrder(x.ep.retx, Base(x), x.ep.retx[0].frame.seqNum, x.ep.now);
    }
  }

  lemma DataKeepsOrder(x: Node)
    requires Ordered(x.ep.retx, x.ep.now)
    ensures var e := AfterTransmit(x, DataStep(x)).ep; Ordered(e.retx, e.now) && e.now == x.ep.now
  {
    DataStepCases(x);
    assert BeforeData(x).retx == x.ep.retx && BeforeData(x).now == x.ep.now;
    assert DataStep(x).state.now == x.ep.now;
  }

  lemma PartsKeepOrder(x: Node, x': Node, frames: seq<Frame>, mid: Node, late: Sent, data: seq<Frame>)
    requires Window(x) && Parts(x, x', frames, mid, late, data)
    requires AcksBelow(x, []) && Ordered(x.ep.retx, x.ep.now)
    ensures Ordered(x'.ep.retx, x'.ep.now)
  {
    DataOk(x, mid, data);
    DataKeepsOrder(x);
    TimeoutKeepsOrder(mid);
  }

  lemma TransmitKeepsOrder(x: Node)
    requires Window(x) && AcksBelow(x, []) && Ordered(x.ep.retx, x.ep.now)
    ensures var e := EndpointSpec.Transmit(Unbounded, x.ep, x.pending).state; Ordered(e.retx, e.now)
  {
    var mid, late, data := TransmitSplits(x);
    var t := EndpointSpec.Transmit(Unbounded, x.ep, x.pending);
    PartsKeepOrder(x, AfterTransmit(x, t), t.frames, mid, late, data);
  }

  lemma ReceiveKeepsClock(n: Numbering, e: EndpointState, f: Frame)
    requires EndpointSpec.Receive(n, e, f).Received?
    ensures EndpointSpec.Receive(n, e, f).state.now == e.now
  {
  }

  lemma OtherKeepsClock(n: Numbering, s: System, t: System, op: Op)
    requires Act(n, s, op) == Some(t) && !op.Transmit? && !op.Receive?
    ensures t.a.ep.now >= s.a.ep.now
  {
  }

  lemma ReceiveKeepsOrder(x: Node, f: Frame)
    requires Window(x) && f.isAck && Ordered(x.ep.retx, x.ep.now)
    requires EndpointSpec.Receive(Unbounded, x.ep, f).Received?
    ensures var e := EndpointSpec.Receive(Unbounded, x.ep, f).state; Ordered(e.retx, e.now)
  {
    ReceiveEffect(x, f);
    ReceiveKeepsClock(Unbounded, x.ep, f);
  }

  lemma ActKeepsOrder(s: System, t: System, op: Op)
    requires Inv(s) && Ordered(s.a.ep.retx, s.a.ep.now) && Act(Unbounded, s, op) == Some(t)
    ensures Ordered(t.a.ep.retx, t.a.ep.now) && t.b == s.b
  {
    if op.Transmit? {
      TransmitKeepsOrder(s.a);
    } else if op.Receive? {
      assert InFlight(s.b, s.a.ep.nextRx, s.ba[0]);
      ReceiveKeepsOrder(s.a, s.ba[0]);
    } else {
      OtherIsQuiet(Unbounded, s, t, op);
      OtherKeepsClock(Unbounded, s, t, op);
    }
  }

  lemma ActKeepsTimers(s: System, op: Op)
    requires TimerInv(s) && Act(Unbounded, s, op).Some?
    ensures TimerInv(Act(Unbounded, s, op).value)
  {
    ActKeepsInv(s, op);
    ActKeepsOrder(s, Act(Unbounded, s, op).value, op);
  }

  lemma {:induction false} TimersStayOrdered(steps: seq<Step>)
    requires Run(Unbounded, Initial(), steps).Some?
    ensures TimerInv(Run(Unbounded, Initial(), steps).value)
  {
    if steps != [] {
      var front, last := steps[..|steps| - 1], steps[|steps| - 1];
      TimersStayOrdered(front);
      var s := Run(Unbounded, Initial(), front).value;
      ActKeepsTimers(if last.atA then s else Flip(s), last.op);
    }
  }

  /** Testing only the front element detects a timeout exactly when there is one. */
  lemma FrontDetectsTimeout(steps: seq<Step>, w: System, limit: nat)
    requires RunRight(Initial(), steps) && Reaches(Wrapping, steps, w)
    ensures var e := w.a.ep;
            (exists i :: 0 <= i < |e.retx| && TimedOut(e.now, e.retx[i].sendTime, limit))
            <==> (e.retx != [] && TimedOut(e.now, e.retx[0].sendTime, limit))
  {
    WireRefinesUnbounded(steps);
    TimersStayOrdered(steps);
  }
}
