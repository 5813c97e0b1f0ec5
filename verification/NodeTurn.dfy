/**
 Whole turns of one node, and which states of the system they connect.
 */
module NodeTurn {
  import opened Sequences
  import opened SeqNum
  import opened TileLinkMsg
  import opened EndpointSpec
  import opened System
  import opened LoopTurn

  datatype Turned = Turned(x: Node, frames: seq<Frame>)

  function Chosen(x: Node, time: nat): Node {
    var y := if x.pending.Some? then x
             else var c := Select(x.ep); x.(ep := c.state, pending := c.request);
    y.(ep := y.ep.(now := time))
  }

  function SendHalf(x: Node, time: nat): Turned {
    var y := Chosen(x, time);
    var t := EndpointSpec.Transmit(Wrapping, y.ep, y.pending);
    Turned(AfterTransmit(y, t), t.frames)
  }

  function HandleHalf(x: Node): Option<Node> {
    match EndpointSpec.Handle(x.ep)
    case Idle => Some(x)
    case Faulted => None
    case Handled(e) => Some(AfterHandle(x, e))
  }

  function ServeHalf(x: Node, arrived: Option<Frame>): Option<Turned> {
    if arrived.None? then
      (match HandleHalf(x) case None => None case Some(y) => Some(Turned(y, [])))
    else
      match EndpointSpec.Receive(Wrapping, x.ep, arrived.value)
      case Halted => None
      case Received(e, frames) =>
        match HandleHalf(AfterReceive(x, e))
        case None => None
        case Some(y) => Some(Turned(y, frames))
  }

  // ---------- reaching one state from another ----------

  /** Whole turns of the two loops, messages queued and frames lost lead from s to t. */
  ghost predicate Connects(s: System, t: System) {
    exists es :: WholeTurns(es) && Run(Wrapping, s, AllSteps(es)) == Some(t)
  }

  lemma {:induction false} AllStepsConcat(p: seq<Event>, q: seq<Event>)
    ensures AllSteps(p + q) == AllSteps(p) + AllSteps(q)
  {
    if q == [] {
      assert p + q == p;
    } else {
      AllStepsConcat(p, q[..|q| - 1]);
      ConcatFront(p, q);
      Associative(AllSteps(p), AllSteps(q[..|q| - 1]), StepsOf(q[|q| - 1]));
    }
  }

  lemma {:induction false} WholeTurnsConcat(p: seq<Event>, q: seq<Event>)
    requires WholeTurns(p) && WholeTurns(q)
    ensures WholeTurns(p + q)
    decreases |p|
  {
    if p == [] {
      assert p + q == q;
    } else {
      var k := if p[0].action.Send? then 2 else 1;
      WholeTurnsConcat(p[k..], q);
      assert (p + q)[k..] == p[k..] + q;
    }
  }

  lemma ConnectsOn(s: System, t: System, u: System)
    requires Connects(s, t) && Connects(t, u)
    ensures Connects(s, u)
  {
    var p :| WholeTurns(p) && Run(Wrapping, s, AllSteps(p)) == Some(t);
    var q :| WholeTurns(q) && Run(Wrapping, t, AllSteps(q)) == Some(u);
    AllStepsConcat(p, q);
    WholeTurnsConcat(p, q);
    RunConcat(Wrapping, s, AllSteps(p), AllSteps(q));
    assert WholeTurns(p + q) && Run(Wrapping, s, AllSteps(p + q)) == Some(u);
  }

  lemma ConnectsSelf(s: System)
    ensures Connects(s, s)
  {
    assert WholeTurns([]) && Run(Wrapping, s, AllSteps([])) == Some(s);
  }

  lemma OneEvent(s: System, e: Event)
    ensures AllSteps([e]) == StepsOf(e)
    ensures var r := Acts(FromEnd(e.atA, s), Ops(e.action));
            Run(Wrapping, s, StepsOf(e)) == if r.None? then None else Some(FromEnd(e.atA, r.value))
  {
    assert [e][..0] == [] && AllSteps([]) + StepsOf(e) == StepsOf(e);
    ActsAreRun(FromEnd(e.atA, s), Ops(e.action));
    RunFlips(Wrapping, Flip(s), StepsAt(true, Ops(e.action)));
    assert FlipSteps(StepsAt(true, Ops(e.action))) == StepsAt(false, Ops(e.action));
  }

  lemma OutsideConnects(s: System, e: Event, t: System)
    requires e.action.Queue? || e.action.Drop?
    requires Acts(FromEnd(e.atA, s), Ops(e.action)) == Some(FromEnd(e.atA, t))
    ensures Connects(s, t)
  {
    OneEvent(s, e);
    assert [e][1..] == [];
    assert WholeTurns([e]) && Run(Wrapping, s, AllSteps([e])) == Some(t);
  }

  lemma Queues(atA: bool, s: System, m: TlMsg) returns (t: System)
    requires |FromEnd(atA, s).a.ep.messages| < MESSAGE_CAPACITY
    ensures Connects(s, t)
    ensures var x := FromEnd(atA, s).a;
            FromEnd(atA, t) == FromEnd(atA, s).(a := x.(ep := x.ep.(messages := x.ep.messages + [m]),
                                                submitted := x.submitted + [m]))
  {
    Acts1(FromEnd(atA, s), Op.Submit(m));
    t := FromEnd(atA, Act(Wrapping, FromEnd(atA, s), Op.Submit(m)).value);
    OutsideConnects(s, Event(atA, Queue(m)), t);
  }

  lemma Drops(atA: bool, s: System) returns (t: System)
    requires FromEnd(atA, s).ba != []
    ensures Connects(s, t) && FromEnd(atA, t) == FromEnd(atA, s).(ba := FromEnd(atA, s).ba[1..])
  {
    Acts1(FromEnd(atA, s), Op.Lose);
    t := FromEnd(atA, Act(Wrapping, FromEnd(atA, s), Op.Lose).value);
    OutsideConnects(s, Event(atA, Drop), t);
  }

  lemma ChosenRuns(s: System, time: nat)
    requires time >= s.a.ep.now
    ensures Act(Wrapping, Act(Wrapping, s, Op.Choose).value, Op.Tick(time)) == Some(s.(a := Chosen(s.a, time)))
  {
  }

  lemma TransmitRuns(s: System)
    ensures var t := EndpointSpec.Transmit(Wrapping, s.a.ep, s.a.pending);
            Act(Wrapping, s, Op.Transmit) == Some(s.(a := AfterTransmit(s.a, t), ab := s.ab + t.frames))
  {
  }

  lemma SendRuns(s: System, time: nat)
    requires time >= s.a.ep.now
    ensures var r := SendHalf(s.a, time); Acts(s, Ops(Send(time))) == Some(s.(a := r.x, ab := s.ab + r.frames))
  {
    SendActs(s, time);
    ChosenRuns(s, time);
    TransmitRuns(s.(a := Chosen(s.a, time)));
  }

  lemma HandleRuns(s: System)
    ensures var r := HandleHalf(s.a);
            Acts(s, [Op.Handle]) == if r.None? then None else Some(s.(a := r.value))
  {
    Acts1(s, Op.Handle);
  }

  lemma ServeRuns(s: System, arrived: bool)
    requires arrived ==> s.ba != []
    requires ServeHalf(s.a, if arrived then Some(s.ba[0]) else None).Some?
    ensures var r := ServeHalf(s.a, if arrived then Some(s.ba[0]) else None).value;
            Acts(s, Ops(Serve(arrived)))
            == Some(s.(a := r.x, ab := s.ab + r.frames, ba := if arrived then s.ba[1..] else s.ba))
  {
    if arrived {
      assert Ops(Serve(true)) == [Op.Receive] + [Op.Handle];
      ActsFirst(s, Op.Receive, [Op.Handle]);
      HandleRuns(Act(Wrapping, s, Op.Receive).value);
    } else {
      HandleRuns(s);
      assert s.ab + [] == s.ab;
    }
  }

  lemma TwoEvents(s: System, t: System, u: System, e: Event, f: Event)
    requires e.action.Send? && f.action.Serve? && e.atA == f.atA
    requires Acts(FromEnd(e.atA, s), Ops(e.action)) == Some(FromEnd(e.atA, t))
    requires Acts(FromEnd(e.atA, t), Ops(f.action)) == Some(FromEnd(e.atA, u))
    ensures Connects(s, u)
  {
    OneEvent(s, e);
    OneEvent(t, f);
    AllStepsConcat([e], [f]);
    RunConcat(Wrapping, s, StepsOf(e), StepsOf(f));
    assert [e] + [f] == [e, f] && [e, f][2..] == [];
    assert WholeTurns([e, f]) && Run(Wrapping, s, AllSteps([e, f])) == Some(u);
  }

  /** A whole turn of a node that resends nothing while serving. */
  lemma Turns(atA: bool, s: System, time: nat, arrived: bool, x': Node) returns (t: System)
    requires var v := FromEnd(atA, s);
             && time >= v.a.ep.now && (arrived ==> v.ba != [])
             && ServeHalf(SendHalf(v.a, time).x, if arrived then Some(v.ba[0]) else None) == Some(Turned(x', []))
    ensures Connects(s, t)
    ensures var v := FromEnd(atA, s);
            FromEnd(atA, t) == System(x', v.b, v.ab + SendHalf(v.a, time).frames, if arrived then v.ba[1..] else v.ba)
  {
    var v := FromEnd(atA, s);
    var sent := SendHalf(v.a, time);
    var mid := v.(a := sent.x, ab := v.ab + sent.frames);
    SendRuns(v, time);
    ServeRuns(mid, arrived);
    assert mid.ab + [] == mid.ab;
    t := FromEnd(atA, System(x', v.b, mid.ab, if arrived then v.ba[1..] else v.ba));
    TwoEvents(s, FromEnd(atA, mid), t, Event(atA, Send(time)), Event(atA, Serve(arrived)));
  }
}
