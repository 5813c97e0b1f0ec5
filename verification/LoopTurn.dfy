/**
 The main loops of two programs and a network, as they interleave: each turn of a
 loop has a sending and a serving half. Every interleaving is a run of steps of the
 two-endpoint system, and every such run of steps is that interleaving, so what holds
 over all runs holds over all interleavings.
 */
module LoopTurn {
  import opened SeqNum
  import opened TileLinkMsg
  import opened EndpointSpec
  import opened System

  /** What one loop keeps between turns. */
  datatype Loop = Loop(ep: EndpointState, pending: Option<TlMsg>)

  datatype Loops = Loops(a: Loop, b: Loop, ab: seq<Frame>, ba: seq<Frame>)

  /** RX finds a frame when `arrived`; a frame in the channel may still be on its way. */
  datatype Action = Send(time: nat) | Serve(arrived: bool) | Queue(m: TlMsg) | Drop

  datatype Event = Event(atA: bool, action: Action)

  function FlipLoops(l: Loops): Loops {
    Loops(l.b, l.a, l.ba, l.ab)
  }

  /** The halves of `Endpoint.Iterate`, taken at a. A program that exits takes no part. */
  function PlayAtA(l: Loops, action: Action): Option<Loops> {
    match action
    case Send(time) =>
      if time < l.a.ep.now then None
      else
        var t := SendTurn(Wrapping, l.a.ep, l.a.pending, time);
        Some(l.(a := Loop(t.state, t.leftover), ab := l.ab + t.frames))
    case Serve(arrived) =>
      if arrived && l.ba == [] then None
      else
        (match ServeTurn(Wrapping, l.a.ep, if arrived then Some(l.ba[0]) else None)
         case Halted => None
         case Received(e, frames) =>
           Some(l.(a := l.a.(ep := e), ab := l.ab + frames, ba := if arrived then l.ba[1..] else l.ba)))
    case Queue(m) =>
      if |l.a.ep.messages| >= MESSAGE_CAPACITY then None
      else Some(l.(a := l.a.(ep := l.a.ep.(messages := l.a.ep.messages + [m]))))
    case Drop =>
      if l.ba == [] then None else Some(l.(ba := l.ba[1..]))
  }

  function Play(l: Loops, e: Event): Option<Loops> {
    if e.atA then PlayAtA(l, e.action)
    else
      match PlayAtA(FlipLoops(l), e.action)
      case None => None
      case Some(k) => Some(FlipLoops(k))
  }

  function PlayAll(l: Loops, es: seq<Event>): Option<Loops> {
    if es == [] then Some(l)
    else
      match PlayAll(l, es[..|es| - 1])
      case None => None
      case Some(k) => Play(k, es[|es| - 1])
  }

  // ---------- the steps behind an event ----------

  function Ops(action: Action): seq<Op> {
    match action
    case Send(time) => [Op.Choose, Op.Tick(time), Op.Transmit]
    case Serve(arrived) => if arrived then [Op.Receive, Op.Handle] else [Op.Handle]
    case Queue(m) => [Op.Submit(m)]
    case Drop => [Op.Lose]
  }

  function StepsAt(atA: bool, ops: seq<Op>): seq<Step> {
    seq(|ops|, i requires 0 <= i < |ops| => Step(atA, ops[i]))
  }

  function StepsOf(e: Event): seq<Step> {
    StepsAt(e.atA, Ops(e.action))
  }

  function AllSteps(es: seq<Event>): seq<Step> {
    if es == [] then [] else AllSteps(es[..|es| - 1]) + StepsOf(es[|es| - 1])
  }

  function View(s: System): Loops {
    Loops(Loop(s.a.ep, s.a.pending), Loop(s.b.ep, s.b.pending), s.ab, s.ba)
  }

  function ViewRun(r: Option<System>): Option<Loops> {
    if r.None? then None else Some(View(r.value))
  }

  // ---------- one event ----------

  /** Steps of node a, one after another. */
  function Acts(s: System, ops: seq<Op>): Option<System>
    decreases |ops|
  {
    if ops == [] then Some(s)
    else
      match Act(Wrapping, s, ops[0])
      case None => None
      case Some(t) => Acts(t, ops[1..])
  }

  lemma {:induction false} ActsAreRun(s: System, ops: seq<Op>)
    ensures Run(Wrapping, s, StepsAt(true, ops)) == Acts(s, ops)
    decreases |ops|
  {
    if ops != [] {
      var first := [Step(true, ops[0])];
      assert StepsAt(true, ops) == first + StepsAt(true, ops[1..]);
      assert first[..0] == [] && Run(Wrapping, s, []) == Some(s);
      assert Run(Wrapping, s, first) == Act(Wrapping, s, ops[0]);
      RunConcat(Wrapping, s, first, StepsAt(true, ops[1..]));
      if Act(Wrapping, s, ops[0]).Some? {
        ActsAreRun(Act(Wrapping, s, ops[0]).value, ops[1..]);
      }
    }
  }

  lemma Acts1(s: System, p: Op)
    ensures Acts(s, [p]) == Act(Wrapping, s, p)
  {
    assert [p][1..] == [];
  }

  lemma ActsFirst(s: System, p: Op, rest: seq<Op>)
    ensures Acts(s, [p] + rest) == match Act(Wrapping, s, p) case None => None case Some(t) => Acts(t, rest)
  {
    assert ([p] + rest)[1..] == rest;
  }

  lemma SendActs(s: System, time: nat)
    ensures var chosen := Act(Wrapping, s, Op.Choose).value;
            Acts(s, Ops(Send(time)))
            == match Act(Wrapping, chosen, Op.Tick(time)) case None => None case Some(t) => Act(Wrapping, t, Op.Transmit)
  {
    var chosen := Act(Wrapping, s, Op.Choose).value;
    assert Ops(Send(time)) == [Op.Choose] + ([Op.Tick(time)] + [Op.Transmit]);
    ActsFirst(s, Op.Choose, [Op.Tick(time)] + [Op.Transmit]);
    ActsFirst(chosen, Op.Tick(time), [Op.Transmit]);
    if Act(Wrapping, chosen, Op.Tick(time)).Some? {
      Acts1(Act(Wrapping, chosen, Op.Tick(time)).value, Op.Transmit);
    }
  }

  lemma SendPlays(s: System, time: nat)
    ensures PlayAtA(View(s), Send(time)) == ViewRun(Acts(s, Ops(Send(time))))
  {
    SendActs(s, time);
  }

  lemma HandlePlays(s: System)
    ensures PlayAtA(View(s), Serve(false)) == ViewRun(Act(Wrapping, s, Op.Handle))
  {
    assert s.ab + [] == s.ab;
  }

  /** The loops once RX has served the frame that has arrived. */
  function PlayReceive(l: Loops): Option<Loops> {
    if l.ba == [] then None
    else
      match EndpointSpec.Receive(Wrapping, l.a.ep, l.ba[0])
      case Halted => None
      case Received(e, frames) => Some(l.(a := l.a.(ep := e), ab := l.ab + frames, ba := l.ba[1..]))
  }

  lemma ReceivePlays(s: System)
    ensures PlayReceive(View(s)) == ViewRun(Act(Wrapping, s, Op.Receive))
  {
  }

  lemma ServeIsTwoStages(l: Loops)
    ensures PlayAtA(l, Serve(true))
            == match PlayReceive(l) case None => None case Some(k) => PlayAtA(k, Serve(false))
  {
    if PlayReceive(l).Some? {
      var frames := PlayReceive(l).value.ab;
      assert frames + [] == frames;
    }
  }

  lemma ServePlays(s: System)
    ensures PlayAtA(View(s), Serve(true)) == ViewRun(Acts(s, Ops(Serve(true))))
  {
    assert Ops(Serve(true)) == [Op.Receive] + [Op.Handle];
    ActsFirst(s, Op.Receive, [Op.Handle]);
    ReceivePlays(s);
    ServeIsTwoStages(View(s));
    if Act(Wrapping, s, Op.Receive).Some? {
      var t := Act(Wrapping, s, Op.Receive).value;
      Acts1(t, Op.Handle);
      HandlePlays(t);
    }
  }

  lemma ActionPlays(s: System, action: Action)
    ensures PlayAtA(View(s), action) == ViewRun(Run(Wrapping, s, StepsAt(true, Ops(action))))
  {
    ActsAreRun(s, Ops(action));
    match action
    case Send(time) => SendPlays(s, time);
    case Serve(arrived) =>
      if arrived {
        ServePlays(s);
      } else {
        HandlePlays(s);
        Acts1(s, Op.Handle);
      }
    case Queue(m) => Acts1(s, Op.Submit(m));
    case Drop => Acts1(s, Op.Lose);
  }

  lemma EventPlays(s: System, e: Event)
    ensures Play(View(s), e) == ViewRun(Run(Wrapping, s, StepsOf(e)))
  {
    if e.atA {
      ActionPlays(s, e.action);
    } else {
      ActionPlays(Flip(s), e.action);
      RunFlips(Wrapping, Flip(s), StepsAt(true, Ops(e.action)));
      assert FlipSteps(StepsAt(true, Ops(e.action))) == StepsOf(e);
    }
  }

  // ---------- all interleavings ----------

  /** Any interleaving of the two loops' halves, of messages queued and of frames lost, from
      any state: it can be played exactly when its steps can be run, with the same end. */
  lemma {:induction false} PlayIsRun(s: System, es: seq<Event>)
    ensures PlayAll(View(s), es) == ViewRun(Run(Wrapping, s, AllSteps(es)))
  {
    if es != [] {
      var front, last := es[..|es| - 1], es[|es| - 1];
      PlayIsRun(s, front);
      RunConcat(Wrapping, s, AllSteps(front), StepsOf(last));
      if Run(Wrapping, s, AllSteps(front)).Some? {
        EventPlays(Run(Wrapping, s, AllSteps(front)).value, last);
      }
    }
  }

  /** Every event belongs to a whole turn of one of the loops, or to the outside. */
  predicate WholeTurns(es: seq<Event>) {
    || es == []
    || (es[0].action.Queue? && WholeTurns(es[1..]))
    || (es[0].action.Drop? && WholeTurns(es[1..]))
    || (|es| >= 2 && es[0].action.Send? && es[1].action.Serve? && es[0].atA == es[1].atA && WholeTurns(es[2..]))
  }
}
