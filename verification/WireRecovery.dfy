/**
 Recovery of the 22-bit system, for either end, on whatever run the two ends make.
 */
module WireRecovery {
  import opened Sequences
  import opened SeqNum
  import opened TileLinkMsg
  import opened EndpointSpec
  import opened System
  import opened Safety
  import opened Credits
  import opened Wire
  import opened Delivery
  import opened Recovery

  // ---------- the same run, from either end ----------

  function StepsFrom(asIs: bool, steps: seq<Step>): seq<Step> {
    if asIs then steps else FlipSteps(steps)
  }

  lemma RunFrom(n: Numbering, asIs: bool, run: seq<Step>, s: System, steps: seq<Step>, t: System)
    requires Run(n, Initial(), run) == Some(FromEnd(asIs, s))
    requires Run(n, Initial(), run + steps) == Some(FromEnd(asIs, t))
    ensures Run(n, s, StepsFrom(asIs, steps)) == Some(t)
  {
    RunConcat(n, Initial(), run, steps);
    RunFlips(n, Flip(s), steps);
  }

  lemma ServesFrom(asIs: bool, steps: seq<Step>)
    ensures Serves(StepsFrom(asIs, steps), true) == Serves(steps, asIs)
    ensures Serves(StepsFrom(asIs, steps), false) == Serves(steps, !asIs)
    ensures Lossless(steps, asIs) ==> Lossless(StepsFrom(asIs, steps), true)
    ensures Lossless(steps, !asIs) ==> Lossless(StepsFrom(asIs, steps), false)
  {
    FlipServes(steps, true);
    FlipServes(steps, false);
  }

  /** Every ack served on the way from s is read right, s and the steps taken from either end. */
  lemma {:induction false} RightFrom(asIs: bool, run: seq<Step>, s: System, steps: seq<Step>)
    requires Run(Unbounded, Initial(), run) == Some(FromEnd(asIs, s)) && RunRight(Initial(), run + steps)
    ensures RunRight(s, StepsFrom(asIs, steps))
  {
    if steps != [] {
      var front, last := steps[..|steps| - 1], steps[|steps| - 1];
      ConcatFront(run, steps);
      RightFrom(asIs, run, s, front);
      RunConcat(Unbounded, Initial(), run, front);
      RunFlips(Unbounded, Flip(s), front);
      assert StepsFrom(asIs, steps)[..|steps| - 1] == StepsFrom(asIs, front);
    }
  }

  // ---------- a fresh ack on 22 bits ----------

  lemma TransmitFramesWrap(x: Node)
    requires Window(x)
    ensures EndpointSpec.Transmit(Wrapping, WrapNode(x).ep, WrapNode(x).pending).frames
            == WrapFrames(EndpointSpec.Transmit(Unbounded, x.ep, x.pending).frames)
  {
    TransmitWraps(x.ep, x.pending);
  }

  /** An ack that on 22 bits looks like the one of the number before `top`. */
  predicate LooksFresh(ack: int, top: int) {
    Wrap(ack) == Wrap(top - 1) && ack < top
  }

  lemma FreshFrame(n: Numbering, x: Node) returns (f: Frame)
    requires AcksFreshly(n, x)
    ensures f in EndpointSpec.Transmit(n, x.ep, x.pending).frames && f.seqNumAck == n.Pred(x.ep.nextRx)
  {
    f :| f in EndpointSpec.Transmit(n, x.ep, x.pending).frames && f.seqNumAck == n.Pred(x.ep.nextRx);
  }

  lemma PredOnWire(x: Node)
    ensures Wrapping.Pred(WrapNode(x).ep.nextRx) == Wrap(x.ep.nextRx - 1)
  {
    NextPrevWrap(x.ep.nextRx);
  }

  lemma FreshOnWire(x: Node) returns (f: Frame)
    requires Window(x) && AcksFreshly(Wrapping, WrapNode(x))
    ensures f in WrapFrames(EndpointSpec.Transmit(Unbounded, x.ep, x.pending).frames)
    ensures f.seqNumAck == Wrap(x.ep.nextRx - 1)
  {
    f := FreshFrame(Wrapping, WrapNode(x));
    TransmitFramesWrap(x);
    PredOnWire(x);
  }

  lemma AmongWrapped(fs: seq<Frame>, f: Frame) returns (i: nat)
    requires f in WrapFrames(fs)
    ensures i < |fs| && f == WrapFrame(fs[i])
  {
    i :| 0 <= i < |WrapFrames(fs)| && f == WrapFrames(fs)[i];
  }

  lemma StampsBelow(x: Node, i: nat)
    requires Window(x) && AcksBelow(x, [])
    requires i < |EndpointSpec.Transmit(Unbounded, x.ep, x.pending).frames|
    ensures EndpointSpec.Transmit(Unbounded, x.ep, x.pending).frames[i].seqNumAck < x.ep.nextRx
  {
    TransmitEffect(x);
  }

  /** The frame of TX that looks fresh on 22 bits, in the channel. */
  lemma LooksFreshQueued(s: System, t: System) returns (i: nat)
    requires Window(s.a) && AcksBelow(s.a, []) && AcksFreshly(Wrapping, WrapNode(s.a))
    requires Act(Unbounded, s, Op.Transmit) == Some(t)
    ensures i < |t.ab| && LooksFresh(t.ab[i].seqNumAck, s.a.ep.nextRx)
  {
    var f := FreshOnWire(s.a);
    var k := AmongWrapped(EndpointSpec.Transmit(Unbounded, s.a.ep, s.a.pending).frames, f);
    StampsBelow(s.a, k);
    TransmitAct(s, t);
    i := |s.ab| + k;
  }

  /** A number that is a whole circle or more behind is not unambiguously behind a base that is
      at most a window behind `top`. */
  lemma CircleIsAmbiguous(ack: int, base: int, top: int)
    requires LooksFresh(ack, top) && top - WINDOW_SIZE <= base < top
    requires ack != top - 1
    ensures ack < base && !Unambiguous(base - ack, Wrap(base) < Wrap(ack))
  {
    var back := base - top + 1;
    assert ack / 0x40_0000 < (top - 1) / 0x40_0000;
    var rounds := (top - 1) / 0x40_0000 - ack / 0x40_0000;
    assert top - 1 - ack == 0x40_0000 * rounds;
    assert base - ack == back + 0x40_0000 * rounds;
    WrapOfShift(back, rounds);
  }

  lemma WrapOfShift(back: int, rounds: int)
    requires -WINDOW_SIZE < back <= 0
    ensures Wrap(back + 0x40_0000 * rounds) == if back == 0 then 0 else back + 0x40_0000
  {
  }

  /** Served right, an ack that looks like `top - 1` frees everything below `top`. */
  lemma ServedFrees(u: System, v: System, top: int)
    requires Inv(u) && ServedOne(u, v) && ServedRight(u) && !HaltsAnyway(u.a.ep, u.ba[0])
    requires LooksFresh(u.ba[0].seqNumAck, top)
    requires top - WINDOW_SIZE <= Base(u.a) && top <= u.a.ep.nextTx
    ensures Base(v.a) >= top
  {
    if Base(u.a) < top && u.ba[0].seqNumAck != top - 1 {
      CircleIsAmbiguous(u.ba[0].seqNumAck, Base(u.a), top);
    }
  }

  /** So does a run that serves it. */
  /** The frame that the last of a run's services takes is the one that was i-th at its start. */
  lemma ServedIsIth(s: System, front: seq<Step>, u: System, i: nat)
    requires Progressed(s, u, Serves(front, true)) && i < |s.ba| && i == Serves(front, true) && u.ba != []
    ensures u.ba[0] == s.ba[i]
  {
    assert s.ba[i..][0] == s.ba[i];
  }

  lemma {:induction false} RunFrees(s: System, steps: seq<Step>, t: System, i: nat, top: int)
    requires CreditInv(s) && Run(Unbounded, s, steps) == Some(t) && Lossless(steps, true) && RunRight(s, steps)
    requires i < |s.ba| && i < Serves(steps, true)
    requires LooksFresh(s.ba[i].seqNumAck, top)
    requires top - WINDOW_SIZE <= Base(s.a) && top <= s.a.ep.nextTx
    ensures Base(t.a) >= top
  {
    var front, last := steps[..|steps| - 1], steps[|steps| - 1];
    var u := Run(Unbounded, s, front).value;
    RunProgresses(s, front, u);
    StepEffect(u, t, last);
    if i < Serves(front, true) {
      RunFrees(s, front, u, i, top);
    } else {
      LogGrows(s, front, u);
      ServedIsIth(s, front, u, i);
      LastFrees(u, t, top);
    }
  }

  lemma LastFrees(u: System, t: System, top: int)
    requires CreditInv(u) && Act(Unbounded, u, Op.Receive) == Some(t) && ServedOne(u, t) && ServedRight(u)
    requires LooksFresh(u.ba[0].seqNumAck, top)
    requires top - WINDOW_SIZE <= Base(u.a) && top <= u.a.ep.nextTx
    ensures Base(t.a) >= top
  {
    NotHalting(u, t);
    ServedFrees(u, t, top);
  }

  lemma NotHalting(u: System, t: System)
    requires CreditInv(u) && Act(Unbounded, u, Op.Receive) == Some(t)
    ensures !HaltsAnyway(u.a.ep, u.ba[0])
  {
    HaltsOnlyOnFullAckBuffer(u);
  }

  // ---------- logs grow ----------

  predicate Grows(x: Node, x': Node) {
    x'.first == x.first && x.log <= x'.log
  }

  lemma ActGrows(s: System, t: System, op: Op)
    requires Inv(s) && Act(Unbounded, s, op) == Some(t)
    ensures Grows(s.a, t.a) && Grows(s.b, t.b)
  {
    if op.Transmit? {
      TransmitAct(s, t);
      TransmitEffect(s.a);
    } else if op.Receive? {
      assert InFlight(s.b, s.a.ep.nextRx, s.ba[0]);
      ReceiveEffect(s.a, s.ba[0]);
    } else {
      OtherIsQuiet(Unbounded, s, t, op);
    }
  }

  lemma {:induction false} LogGrows(s: System, steps: seq<Step>, t: System)
    requires CreditInv(s) && Run(Unbounded, s, steps) == Some(t)
    ensures CreditInv(t) && Grows(s.a, t.a) && t.a.ep.nextTx >= s.a.ep.nextTx
  {
    if steps != [] {
      var front, last := steps[..|steps| - 1], steps[|steps| - 1];
      var u := Run(Unbounded, s, front).value;
      LogGrows(s, front, u);
      ActKeepsCredit(FromEnd(last.atA, u), last.op);
      ActGrows(FromEnd(last.atA, u), FromEnd(last.atA, t), last.op);
    }
  }

  lemma {:induction false} PayloadsOfPrefix(fs: seq<Frame>, gs: seq<Frame>)
    requires fs <= gs
    ensures Payloads(fs) <= Payloads(gs)
  {
    PayloadsConcat(fs, gs[|fs|..]);
    assert gs == fs + gs[|fs|..];
  }

  /** What y has accepted when it expects the number after the last that x had sent. */
  lemma AcceptedAll(x: Node, x': Node, y': Node)
    requires Window(x) && Payloads(x.log) == OnWireAll(x.sent) && Grows(x, x') && Delivered(x', y')
    requires y'.ep.nextRx >= x.ep.nextTx
    ensures OnWireAll(x.sent) <= y'.accepted
  {
    PayloadsOfPrefix(x.log, x'.log[..y'.ep.nextRx - x'.first]);
  }

  // ---------- the 22-bit system ----------

  lemma RunOne(n: Numbering, s: System, step: Step)
    ensures Run(n, s, [step]) == Apply(n, s, step)
  {
    assert [step][..0] == [];
  }

  lemma StepFrom(asIs: bool, own: bool, op: Op)
    ensures StepsFrom(asIs, [Step(own == asIs, op)]) == [Step(own, op)]
  {
  }

  lemma RunAndStep(asIs: bool, run: seq<Step>, s: System, own: bool, op: Op, t: System)
    requires Run(Wrapping, Initial(), run) == Some(FromEnd(asIs, s)) && Apply(Wrapping, s, Step(own, op)) == Some(t)
    ensures Run(Wrapping, Initial(), run + [Step(own == asIs, op)]) == Some(FromEnd(asIs, t))
  {
    RunConcat(Wrapping, Initial(), run, [Step(own == asIs, op)]);
    RunFlips(Wrapping, s, [Step(own, op)]);
    RunOne(Wrapping, s, Step(own, op));
    assert FlipSteps([Step(own, op)]) == [Step(!own, op)];
  }

  /** A step of either end after a run, and the unbounded states behind both. */
  lemma StepBehind(asIs: bool, run: seq<Step>, s: System, own: bool, op: Op, t: System) returns (u: System, v: System)
    requires Run(Wrapping, Initial(), run) == Some(FromEnd(asIs, s)) && Apply(Wrapping, s, Step(own, op)) == Some(t)
    requires RunRight(Initial(), run + [Step(own == asIs, op)])
    ensures Run(Wrapping, Initial(), run + [Step(own == asIs, op)]) == Some(FromEnd(asIs, t))
    ensures Run(Unbounded, Initial(), run) == Some(FromEnd(asIs, u)) && s == WrapSystem(u) && CreditInv(u)
    ensures Run(Unbounded, Initial(), run + [Step(own == asIs, op)]) == Some(FromEnd(asIs, v)) && t == WrapSystem(v)
    ensures Apply(Unbounded, u, Step(own, op)) == Some(v) && CreditInv(v)
  {
    var one := [Step(own == asIs, op)];
    RightFront(Initial(), run, one);
    u := BehindWire(run, asIs, s);
    RunAndStep(asIs, run, s, own, op, t);
    v := BehindWire(run + one, asIs, t);
    RunFrom(Unbounded, asIs, run, u, one, v);
    StepFrom(asIs, own, op);
    RunOne(Unbounded, u, Step(own, op));
  }

  /** A run of both ends after a run, and the unbounded state behind its end. */
  lemma RunBehind(asIs: bool, run: seq<Step>, u: System, steps: seq<Step>, t: System) returns (v: System)
    requires Run(Unbounded, Initial(), run) == Some(FromEnd(asIs, u))
    requires Run(Wrapping, Initial(), run + steps) == Some(FromEnd(asIs, t)) && RunRight(Initial(), run + steps)
    ensures t == WrapSystem(v) && CreditInv(v) && Run(Unbounded, Initial(), run + steps) == Some(FromEnd(asIs, v))
    ensures Run(Unbounded, u, StepsFrom(asIs, steps)) == Some(v) && RunRight(u, StepsFrom(asIs, steps))
  {
    v := BehindWire(run + steps, asIs, t);
    RunFrom(Unbounded, asIs, run, u, steps, v);
    RightFrom(asIs, run, u, steps);
  }

  /** The unbounded run behind a 22-bit one that resends and delivers. */
  lemma ThereBehind(asIs: bool, run: seq<Step>, s: System, t: System, there: seq<Step>, v: System)
    returns (ut: System, uv: System)
    requires Run(Wrapping, Initial(), run) == Some(FromEnd(asIs, s)) && FrontTimedOut(s.a)
    requires Apply(Wrapping, s, Step(true, Op.Transmit)) == Some(t)
    requires Run(Wrapping, Initial(), run + [Step(asIs, Op.Transmit)] + there) == Some(FromEnd(asIs, v))
    requires Lossless(there, !asIs) && Serves(there, !asIs) >= |t.ab|
    requires RunRight(Initial(), run + [Step(asIs, Op.Transmit)] + there)
    ensures t == WrapSystem(ut) && CreditInv(ut) && v == WrapSystem(uv) && CreditInv(uv)
    ensures Run(Unbounded, Initial(), run + [Step(asIs, Op.Transmit)] + there) == Some(FromEnd(asIs, uv))
    ensures Grows(ut.a, uv.a) && uv.b.ep.nextRx >= ut.a.ep.nextTx
  {
    var one := run + [Step(asIs, Op.Transmit)];
    RightFront(Initial(), one, there);
    var us;
    us, ut := StepBehind(asIs, run, s, true, Op.Transmit, t);
    uv := RunBehind(asIs, one, ut, there, v);
    ServesFrom(asIs, there);
    TimeoutCatchesUp(us, ut, StepsFrom(asIs, there), uv);
    LogGrows(ut, StepsFrom(asIs, there), uv);
  }

  /** After any run of the 22-bit system, for either end: once its oldest frame has timed out
      and TX has run, any further run in which the peer serves as many frames as were then on
      their way to it, and none of them is lost, ends with everything accepted that TX had
      consumed by then. */
  lemma TimeoutCatchesUpOnWire(asIs: bool, run: seq<Step>, s: System, t: System, there: seq<Step>, v: System)
    requires Run(Wrapping, Initial(), run) == Some(FromEnd(asIs, s)) && FrontTimedOut(s.a)
    requires Apply(Wrapping, s, Step(true, Op.Transmit)) == Some(t)
    requires Run(Wrapping, Initial(), run + [Step(asIs, Op.Transmit)] + there) == Some(FromEnd(asIs, v))
    requires Lossless(there, !asIs) && Serves(there, !asIs) >= |t.ab|
    requires RunRight(Initial(), run + [Step(asIs, Op.Transmit)] + there)
    ensures OnWireAll(t.a.sent) <= v.b.accepted
  {
    var ut, uv := ThereBehind(asIs, run, s, t, there, v);
    AcceptedAll(ut.a, uv.a, uv.b);
  }

  /** The peer's answer leaves a fresh-looking ack in the channel. */
  lemma AnswerQueued(uv: System, uw: System) returns (i: nat)
    requires CreditInv(uv) && AcksFreshly(Wrapping, WrapNode(uv.b))
    requires Apply(Unbounded, uv, Step(false, Op.Transmit)) == Some(uw)
    ensures uw.a == uv.a && i < |uw.ba| && LooksFresh(uw.ba[i].seqNumAck, uv.b.ep.nextRx)
    ensures uv.b.ep.nextRx - WINDOW_SIZE <= Base(uw.a) && uv.b.ep.nextRx <= uw.a.ep.nextTx
  {
    TransmitAct(Flip(uv), Flip(uw));
    i := LooksFreshQueued(Flip(uv), Flip(uw));
  }

  /** Delivered, it frees what the peer had accepted. */
  lemma AnswerFrees(uv: System, uw: System, steps: seq<Step>, ux: System)
    requires CreditInv(uv) && AcksFreshly(Wrapping, WrapNode(uv.b)) && CreditInv(uw)
    requires Apply(Unbounded, uv, Step(false, Op.Transmit)) == Some(uw)
    requires Run(Unbounded, uw, steps) == Some(ux) && RunRight(uw, steps)
    requires Lossless(steps, true) && Serves(steps, true) >= |uw.ba|
    ensures Grows(uv.a, ux.a) && Base(ux.a) >= uv.b.ep.nextRx
  {
    var i := AnswerQueued(uv, uw);
    RunFrees(uw, steps, ux, i, uv.b.ep.nextRx);
    LogGrows(uw, steps, ux);
  }

  lemma SameFromEnd(asIs: bool, s: System, t: System)
    requires FromEnd(asIs, s) == FromEnd(asIs, t)
    ensures s == t
  {
    FlipInjective(s, t);
  }

  /** The unbounded run behind a 22-bit one that answers and comes back. */
  lemma BackBehind(asIs: bool, run: seq<Step>, uv: System, v: System, w: System, back: seq<Step>, x: System)
    returns (ux: System)
    requires Run(Wrapping, Initial(), run) == Some(FromEnd(asIs, v))
    requires Run(Unbounded, Initial(), run) == Some(FromEnd(asIs, uv)) && v == WrapSystem(uv) && CreditInv(uv)
    requires AcksFreshly(Wrapping, v.b) && Apply(Wrapping, v, Step(false, Op.Transmit)) == Some(w)
    requires Run(Wrapping, Initial(), run + [Step(!asIs, Op.Transmit)] + back) == Some(FromEnd(asIs, x))
    requires Lossless(back, asIs) && Serves(back, asIs) >= |w.ba|
    requires RunRight(Initial(), run + [Step(!asIs, Op.Transmit)] + back)
    ensures x == WrapSystem(ux) && CreditInv(ux) && Grows(uv.a, ux.a) && Base(ux.a) >= uv.b.ep.nextRx
  {
    var one := run + [Step(!asIs, Op.Transmit)];
    RightFront(Initial(), one, back);
    var u0, uw := StepBehind(asIs, run, v, false, Op.Transmit, w);
    SameFromEnd(asIs, u0, uv);
    ux := RunBehind(asIs, one, uw, back, x);
    ServesFrom(asIs, back);
    AnswerFrees(uv, uw, StepsFrom(asIs, back), ux);
  }

  /** And if then the peer, in some turn, sends an ack that is fresh on 22 bits, any further run
      in which the sender serves as many frames as were then on their way to it, and none of
      them is lost, ends with none of the frames in its buffer that were there at the timeout:
      what is buffered was logged later. */
  lemma RecoveryOnWire(asIs: bool, run: seq<Step>, s: System, t: System, there: seq<Step>, v: System,
                       w: System, back: seq<Step>, x: System)
    requires Run(Wrapping, Initial(), run) == Some(FromEnd(asIs, s)) && FrontTimedOut(s.a)
    requires Apply(Wrapping, s, Step(true, Op.Transmit)) == Some(t)
    requires var arrived := run + [Step(asIs, Op.Transmit)] + there;
             && Run(Wrapping, Initial(), arrived) == Some(FromEnd(asIs, v))
             && Run(Wrapping, Initial(), arrived + [Step(!asIs, Op.Transmit)] + back) == Some(FromEnd(asIs, x))
             && RunRight(Initial(), arrived + [Step(!asIs, Op.Transmit)] + back)
    requires Lossless(there, !asIs) && Serves(there, !asIs) >= |t.ab|
    requires AcksFreshly(Wrapping, v.b) && Apply(Wrapping, v, Step(false, Op.Transmit)) == Some(w)
    requires Lossless(back, asIs) && Serves(back, asIs) >= |w.ba|
    ensures OnWireAll(t.a.sent) <= v.b.accepted
    ensures |x.a.log| - |x.a.ep.retx| >= |t.a.log|
  {
    var arrived := run + [Step(asIs, Op.Transmit)] + there;
    RightFront(Initial(), arrived + [Step(!asIs, Op.Transmit)], back);
    RightFront(Initial(), arrived, [Step(!asIs, Op.Transmit)]);
    var ut, uv := ThereBehind(asIs, run, s, t, there, v);
    AcceptedAll(ut.a, uv.a, uv.b);
    var ux := BackBehind(asIs, arrived, uv, v, w, back, x);
  }
}
