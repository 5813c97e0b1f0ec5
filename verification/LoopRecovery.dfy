/**
 Recovery as the two main loops perform it: every receive is in the serving half of a
 turn, after the sending half, and both loops go on with whatever else they have to do.
 */
module LoopRecovery {
  import opened Sequences
  import opened SeqNum
  import opened TileLinkMsg
  import opened EndpointSpec
  import opened System
  import opened Wire
  import opened Recovery
  import opened WireRecovery
  import opened LoopTurn
  import opened NodeTurn

  /** How often RX of the given end finds a frame. */
  function Arrivals(es: seq<Event>, atA: bool): nat {
    if es == [] then 0
    else Arrivals(es[..|es| - 1], atA) + if es[|es| - 1] == Event(atA, Serve(true)) then 1 else 0
  }

  /** No frame on its way to the given end is lost. */
  predicate NoneLost(es: seq<Event>, atA: bool) {
    forall i :: 0 <= i < |es| ==> es[i] != Event(atA, Drop)
  }

  lemma {:induction false} ServesConcat(p: seq<Step>, q: seq<Step>, atA: bool)
    ensures Serves(p + q, atA) == Serves(p, atA) + Serves(q, atA)
  {
    if q == [] {
      assert p + q == p;
    } else {
      ConcatFront(p, q);
      ServesConcat(p, q[..|q| - 1], atA);
    }
  }

  lemma ServesOne(step: Step, atA: bool)
    ensures Serves([step], atA) == if step == Step(atA, Op.Receive) then 1 else 0
  {
    assert [step][..0] == [];
  }

  lemma {:induction false} ServesAt(ops: seq<Op>, end: bool, atA: bool)
    requires forall i :: 0 <= i < |ops| ==> !ops[i].Receive?
    ensures Serves(StepsAt(end, ops), atA) == 0
  {
    if ops != [] {
      ServesAt(ops[..|ops| - 1], end, atA);
      assert StepsAt(end, ops)[..|ops| - 1] == StepsAt(end, ops[..|ops| - 1]);
    }
  }

  lemma EventServes(e: Event, atA: bool)
    ensures Serves(StepsOf(e), atA) == if e == Event(atA, Serve(true)) then 1 else 0
    ensures e != Event(atA, Drop) ==> Lossless(StepsOf(e), atA)
  {
    if e.action == Serve(true) {
      assert StepsOf(e) == [Step(e.atA, Op.Receive)] + [Step(e.atA, Op.Handle)];
      ServesConcat([Step(e.atA, Op.Receive)], [Step(e.atA, Op.Handle)], atA);
      ServesOne(Step(e.atA, Op.Receive), atA);
      ServesOne(Step(e.atA, Op.Handle), atA);
    } else {
      ServesAt(Ops(e.action), e.atA, atA);
    }
  }

  lemma {:induction false} ArrivalsAreServes(es: seq<Event>, atA: bool)
    ensures Serves(AllSteps(es), atA) == Arrivals(es, atA)
    ensures NoneLost(es, atA) ==> Lossless(AllSteps(es), atA)
  {
    if es != [] {
      var front, last := es[..|es| - 1], es[|es| - 1];
      ArrivalsAreServes(front, atA);
      EventServes(last, atA);
      ServesConcat(AllSteps(front), StepsOf(last), atA);
    }
  }

  // ---------- a sending half in a run ----------

  /** The steps of a sending half before TX itself. */
  function Choosing(atA: bool, time: nat): seq<Step> {
    StepsAt(atA, [Op.Choose, Op.Tick(time)])
  }

  lemma SendParts(atA: bool, time: nat)
    ensures StepsOf(Event(atA, Send(time))) == Choosing(atA, time) + [Step(atA, Op.Transmit)]
    ensures forall e :: Serves(Choosing(atA, time), e) == 0 && Lossless(Choosing(atA, time), e)
  {
    forall e ensures Serves(Choosing(atA, time), e) == 0 {
      ServesAt([Op.Choose, Op.Tick(time)], atA, e);
    }
  }

  lemma ChoosingActs(s: System, time: nat)
    requires time >= s.a.ep.now
    ensures Acts(s, [Op.Choose, Op.Tick(time)]) == Some(s.(a := Chosen(s.a, time)))
  {
    assert [Op.Choose, Op.Tick(time)] == [Op.Choose] + [Op.Tick(time)];
    ActsFirst(s, Op.Choose, [Op.Tick(time)]);
    Acts1(Act(Wrapping, s, Op.Choose).value, Op.Tick(time));
    ChosenRuns(s, time);
  }

  lemma ChoosingRuns(atA: bool, s: System, time: nat)
    requires time >= s.a.ep.now
    ensures Run(Wrapping, FromEnd(atA, s), Choosing(atA, time)) == Some(FromEnd(atA, s.(a := Chosen(s.a, time))))
  {
    ChoosingActs(s, time);
    ActsAreRun(s, [Op.Choose, Op.Tick(time)]);
    RunFlips(Wrapping, s, Choosing(true, time));
    assert FlipSteps(Choosing(true, time)) == Choosing(false, time);
  }

  lemma SendNeedsTime(s: System, time: nat)
    requires Acts(s, Ops(Send(time))).Some?
    ensures time >= s.a.ep.now
  {
    SendActs(s, time);
  }

  lemma SendIsTransmit(s: System, time: nat, t: System)
    requires Acts(s, Ops(Send(time))) == Some(t)
    ensures time >= s.a.ep.now && Act(Wrapping, s.(a := Chosen(s.a, time)), Op.Transmit) == Some(t)
  {
    SendNeedsTime(s, time);
    SendActs(s, time);
    ChosenRuns(s, time);
  }

  /** A sending half after a run: its choice continues the run, and TX follows. */
  lemma SendSplits(atA: bool, run: seq<Step>, s: System, time: nat, t: System)
    requires Run(Wrapping, Initial(), run) == Some(FromEnd(atA, s))
    requires Run(Wrapping, Initial(), run + StepsOf(Event(atA, Send(time)))) == Some(FromEnd(atA, t))
    ensures var c := s.(a := Chosen(s.a, time));
            && Run(Wrapping, Initial(), run + Choosing(atA, time)) == Some(FromEnd(atA, c))
            && Act(Wrapping, c, Op.Transmit) == Some(t)
    ensures run + StepsOf(Event(atA, Send(time))) == run + Choosing(atA, time) + [Step(atA, Op.Transmit)]
  {
    var e := Event(atA, Send(time));
    RunConcat(Wrapping, Initial(), run, StepsOf(e));
    OneEvent(FromEnd(atA, s), e);
    SameFromEnd(atA, s, FromEnd(atA, FromEnd(atA, s)));
    var r := Acts(s, Ops(e.action));
    SameFromEnd(atA, r.value, t);
    SendIsTransmit(s, time, t);
    ChoosingRuns(atA, s, time);
    RunConcat(Wrapping, Initial(), run, Choosing(atA, time));
    SendParts(atA, time);
    Associative(run, Choosing(atA, time), [Step(atA, Op.Transmit)]);
  }

  // ---------- the two loops ----------

  /** The state of the system after the events, seen from one end. */
  ghost predicate Stands(es: seq<Event>, atA: bool, s: System) {
    Run(Wrapping, Initial(), AllSteps(es)) == Some(FromEnd(atA, s))
  }

  lemma AllStepsAppend(es: seq<Event>, e: Event, after: seq<Event>)
    ensures AllSteps(es + [e] + after) == AllSteps(es) + StepsOf(e) + AllSteps(after)
  {
    AllStepsConcat(es + [e], after);
    AllStepsConcat(es, [e]);
    OneEvent(Initial(), e);
  }

  /** One sending half between two stretches of events, as steps around its TX. */
  lemma StretchSplits(atA: bool, es: seq<Event>, s: System, time: nat, t: System, after: seq<Event>)
    requires Stands(es, atA, s) && Stands(es + [Event(atA, Send(time))], atA, t)
    ensures var c := s.(a := Chosen(s.a, time)); var run := AllSteps(es) + Choosing(atA, time);
            && Run(Wrapping, Initial(), run) == Some(FromEnd(atA, c))
            && Act(Wrapping, c, Op.Transmit) == Some(t)
            && AllSteps(es + [Event(atA, Send(time))] + after) == run + [Step(atA, Op.Transmit)] + AllSteps(after)
  {
    AllStepsAppend(es, Event(atA, Send(time)), []);
    assert es + [Event(atA, Send(time))] + [] == es + [Event(atA, Send(time))];
    assert AllSteps(es) + StepsOf(Event(atA, Send(time))) + AllSteps([]) == AllSteps(es) + StepsOf(Event(atA, Send(time)));
    SendSplits(atA, AllSteps(es), s, time, t);
    AllStepsAppend(es, Event(atA, Send(time)), after);
  }

  /** Serves and losses of a stretch of events followed by the peer's choice. */
  lemma StretchServes(there: seq<Event>, atA: bool, time: nat, e: bool)
    ensures Serves(AllSteps(there) + Choosing(atA, time), e) == Arrivals(there, e)
    ensures NoneLost(there, e) ==> Lossless(AllSteps(there) + Choosing(atA, time), e)
  {
    ArrivalsAreServes(there, e);
    SendParts(atA, time);
    ServesConcat(AllSteps(there), Choosing(atA, time), e);
  }

  /** The same of the peer's sending half. */
  lemma PeerSplits(atA: bool, es: seq<Event>, v: System, time: nat, w: System, after: seq<Event>)
    requires Stands(es, atA, v) && Stands(es + [Event(!atA, Send(time))], atA, w)
    ensures var c := v.(b := Chosen(v.b, time)); var run := AllSteps(es) + Choosing(!atA, time);
            && Run(Wrapping, Initial(), run) == Some(FromEnd(atA, c))
            && Apply(Wrapping, c, Step(false, Op.Transmit)) == Some(w)
            && AllSteps(es + [Event(!atA, Send(time))] + after) == run + [Step(!atA, Op.Transmit)] + AllSteps(after)
  {
    StretchSplits(!atA, es, Flip(v), time, Flip(w), after);
    assert Flip(v).(a := Chosen(v.b, time)) == Flip(v.(b := Chosen(v.b, time)));
  }

  /** The stretch there and the peer's choice after the first TX, as one run of steps. */
  lemma ThereSteps(atA: bool, run: seq<Step>, there: seq<Event>, time: nat, es: seq<Event>)
    requires AllSteps(es) == run + [Step(atA, Op.Transmit)] + AllSteps(there)
    ensures AllSteps(es) + Choosing(!atA, time)
            == run + [Step(atA, Op.Transmit)] + (AllSteps(there) + Choosing(!atA, time))
  {
    Associative(run + [Step(atA, Op.Transmit)], AllSteps(there), Choosing(!atA, time));
  }

  /** `RecoveryOnWire` for runs that are known by other names. */
  lemma RecoverySteps(atA: bool, run: seq<Step>, s: System, t: System, there: seq<Step>, v: System, w: System,
                      back: seq<Step>, x: System, arrived: seq<Step>, all: seq<Step>)
    requires arrived == run + [Step(atA, Op.Transmit)] + there && all == arrived + [Step(!atA, Op.Transmit)] + back
    requires Run(Wrapping, Initial(), run) == Some(FromEnd(atA, s)) && FrontTimedOut(s.a)
    requires Act(Wrapping, s, Op.Transmit) == Some(t)
    requires Run(Wrapping, Initial(), arrived) == Some(FromEnd(atA, v))
    requires Run(Wrapping, Initial(), all) == Some(FromEnd(atA, x)) && RunRight(Initial(), all)
    requires Lossless(there, !atA) && Serves(there, !atA) >= |t.ab|
    requires AcksFreshly(Wrapping, v.b) && Apply(Wrapping, v, Step(false, Op.Transmit)) == Some(w)
    requires Lossless(back, atA) && Serves(back, atA) >= |w.ba|
    ensures OnWireAll(t.a.sent) <= v.b.accepted && |x.a.log| - |x.a.ep.retx| >= |t.a.log|
  {
    RecoveryOnWire(atA, run, s, t, there, v, w, back, x);
  }

  lemma ChosenKeeps(x: Node, time: nat)
    ensures var c := Chosen(x, time);
            c.ep.retx == x.ep.retx && c.ep.now == time && c.accepted == x.accepted
  {
  }

  /** What choosing does to the two conditions on which recovery starts. */
  lemma ChosenConditions(s: System, time: nat, v: System, time': nat, c: System, d: System)
    requires c == s.(a := Chosen(s.a, time)) && d == v.(b := Chosen(v.b, time'))
    ensures s.a.ep.retx != [] && TimedOut(time, s.a.ep.retx[0].sendTime, TIMEOUT_TIME) ==> FrontTimedOut(c.a)
    ensures AcksFreshly(Wrapping, Chosen(v.b, time')) ==> AcksFreshly(Wrapping, d.b)
    ensures d.b.accepted == v.b.accepted
  {
    ChosenKeeps(s.a, time);
    ChosenKeeps(v.b, time');
    assert d.b == Chosen(v.b, time');
  }

  /** Everything two loops do from the opened connection on: an end whose oldest frame has
      timed out sends in some turn; in the turns that follow, with any turns of its own and
      anything queued, the peer finds as many frames as were then on their way to it and none
      of them is lost; then the peer sends an ack that is fresh on 22 bits; and likewise back.
      By then the peer has accepted everything that TX had consumed at the timeout, and no
      frame that was buffered then is still buffered. */
  lemma LoopsRecover(atA: bool, before: seq<Event>, s: System, time: nat, t: System, there: seq<Event>, v: System,
                     time': nat, w: System, back: seq<Event>, x: System)
    requires var sent := before + [Event(atA, Send(time))];
             var answered := sent + there + [Event(!atA, Send(time'))];
             && Stands(before, atA, s) && Stands(sent, atA, t) && Stands(sent + there, atA, v)
             && Stands(answered, atA, w) && Stands(answered + back, atA, x)
             && RunRight(Initial(), AllSteps(answered + back))
    requires s.a.ep.retx != [] && TimedOut(time, s.a.ep.retx[0].sendTime, TIMEOUT_TIME)
    requires NoneLost(there, !atA) && Arrivals(there, !atA) >= |t.ab|
    requires AcksFreshly(Wrapping, Chosen(v.b, time'))
    requires NoneLost(back, atA) && Arrivals(back, atA) >= |w.ba|
    ensures PlayAll(View(Initial()), before + [Event(atA, Send(time))] + there + [Event(!atA, Send(time'))] + back)
            == Some(View(FromEnd(atA, x)))
    ensures OnWireAll(t.a.sent) <= v.b.accepted && |x.a.log| - |x.a.ep.retx| >= |t.a.log|
  {
    var sent := before + [Event(atA, Send(time))];
    var run := AllSteps(before) + Choosing(atA, time);
    var there' := AllSteps(there) + Choosing(!atA, time');
    PlayIsRun(Initial(), sent + there + [Event(!atA, Send(time'))] + back);
    StretchSplits(atA, before, s, time, t, there);
    PeerSplits(atA, sent + there, v, time', w, back);
    ThereSteps(atA, run, there, time', sent + there);
    StretchServes(there, !atA, time', !atA);
    ArrivalsAreServes(back, atA);
    var c, d := s.(a := Chosen(s.a, time)), v.(b := Chosen(v.b, time'));
    ChosenConditions(s, time, v, time', c, d);
    RecoverySteps(atA, run, c, t, there', d, w, AllSteps(back), x,
                  AllSteps(sent + there) + Choosing(!atA, time'),
                  AllSteps(sent + there + [Event(!atA, Send(time'))] + back));
  }
}
