/**
 Two endpoints joined by two channels that deliver in order, may lose any frame,
 and never duplicate or reorder. Each endpoint carries the history of what
 passed through it; the histories are never read by the protocol.
 */
module System {
  import opened Sequences
  import opened SeqNum
  import opened TileLinkMsg
  import opened EndpointSpec

  /** `first` is the sequence number of the first data frame after the open
      handshake; `log` holds the data frames as first built, so `log[i]` has
      sequence number `first + i`. */
  datatype Node = Node(
    ep: EndpointState, pending: Option<TlMsg>, first: int,
    log: seq<Frame>,
    submitted: seq<TlMsg>, sent: seq<TlMsg>, accepted: seq<TlMsg>, handled: seq<TlMsg>)

  /** `ab` is the channel from a to b, oldest frame first. */
  datatype System = System(a: Node, b: Node, ab: seq<Frame>, ba: seq<Frame>)

  datatype Op = Submit(m: TlMsg) | Choose | Tick(time: nat) | Transmit | Receive | Lose | Handle

  /** One step, taken at node a or at node b. */
  datatype Step = Step(atA: bool, op: Op)

  const FULL_CREDIT := 1024

  /** State of an endpoint right after the open handshake. */
  function OpenedEndpoint(nextTx: int, nextRx: int): EndpointState {
    NewEndpoint().(nextTx := nextTx, nextRx := nextRx,
      credits := [128, FULL_CREDIT, FULL_CREDIT, FULL_CREDIT, FULL_CREDIT, FULL_CREDIT])
  }

  function OpenedNode(e: EndpointState): Node {
    Node(e, None, e.nextTx, [], [], [], [], [])
  }

  /** Node a is the master, which closes the handshake with a frame that carries no
      message; node b, the slave, has accepted it and owes an ack-only frame for it. */
  function Initial(): System {
    System(OpenedNode(OpenedEndpoint(6, 5)),
           OpenedNode(OpenedEndpoint(5, 6).(sendAckOnly := true, stats := Stats(1, 0, 0, 0, 0, 0, 0))), [], [])
  }

  function Flip(s: System): System {
    System(s.b, s.a, s.ba, s.ab)
  }

  /** The system with the given end in the place of node a. */
  function FromEnd(atA: bool, s: System): System {
    if atA then s else Flip(s)
  }

  // ---------- steps of node a ----------

  function AfterTransmit(x: Node, t: Transmitted): Node {
    x.(ep := t.state,
       pending := t.leftover,
       log := if |t.state.retx| > |x.ep.retx| then x.log + [t.state.retx[|t.state.retx| - 1].frame] else x.log,
       sent := if x.pending.Some? && t.leftover.None? then x.sent + [x.pending.value] else x.sent)
  }

  function AfterReceive(x: Node, e: EndpointState): Node {
    x.(ep := e,
       accepted := if |e.inbox| > |x.ep.inbox| then x.accepted + [e.inbox[|e.inbox| - 1]] else x.accepted)
  }

  function AfterHandle(x: Node, e: EndpointState): Node {
    x.(ep := e, handled := if x.ep.inbox == [] then x.handled else x.handled + [x.ep.inbox[0]])
  }

  /** The step `op` of node a, or `None` when it cannot be taken: time does not run
      backwards, an empty channel delivers nothing, and a program that would
      exit takes no step. */
  function Act(n: Numbering, s: System, op: Op): Option<System> {
    match op
    case Submit(m) =>
      if |s.a.ep.messages| >= MESSAGE_CAPACITY then None
      else Some(s.(a := s.a.(ep := s.a.ep.(messages := s.a.ep.messages + [m]), submitted := s.a.submitted + [m])))
    case Choose =>
      if s.a.pending.Some? then Some(s)
      else
        var c := EndpointSpec.Select(s.a.ep);
        Some(s.(a := s.a.(ep := c.state, pending := c.request)))
    case Tick(time) =>
      if time < s.a.ep.now then None else Some(s.(a := s.a.(ep := s.a.ep.(now := time))))
    case Transmit =>
      var t := EndpointSpec.Transmit(n, s.a.ep, s.a.pending);
      Some(s.(a := AfterTransmit(s.a, t), ab := s.ab + t.frames))
    case Receive =>
      if s.ba == [] then None
      else
        (match EndpointSpec.Receive(n, s.a.ep, s.ba[0])
         case Halted => None
         case Received(e, frames) => Some(s.(a := AfterReceive(s.a, e), ba := s.ba[1..], ab := s.ab + frames)))
    case Lose =>
      if s.ba == [] then None else Some(s.(ba := s.ba[1..]))
    case Handle =>
      match EndpointSpec.Handle(s.a.ep)
      case Idle => Some(s)
      case Faulted => None
      case Handled(e) => Some(s.(a := AfterHandle(s.a, e)))
  }

  function Apply(n: Numbering, s: System, step: Step): Option<System> {
    if step.atA then Act(n, s, step.op)
    else
      match Act(n, Flip(s), step.op)
      case None => None
      case Some(t) => Some(Flip(t))
  }

  /** The state after a whole run, or `None` when some step could not be taken. */
  function Run(n: Numbering, s: System, steps: seq<Step>): Option<System> {
    if steps == [] then Some(s)
    else
      match Run(n, s, steps[..|steps| - 1])
      case None => None
      case Some(t) => Apply(n, t, steps[|steps| - 1])
  }

  lemma {:induction false} RunConcat(n: Numbering, s: System, p: seq<Step>, q: seq<Step>)
    ensures Run(n, s, p + q) == match Run(n, s, p) case None => None case Some(t) => Run(n, t, q)
  {
    if q == [] {
      assert p + q == p;
    } else {
      RunConcat(n, s, p, q[..|q| - 1]);
      ConcatFront(p, q);
    }
  }

  /** `s` is the state after the steps, with either end taken as node a. */
  predicate Reaches(n: Numbering, steps: seq<Step>, s: System) {
    Run(n, Initial(), steps) == Some(s) || Run(n, Initial(), steps) == Some(Flip(s))
  }

  /** The same steps with the two ends exchanged. */
  function FlipSteps(steps: seq<Step>): seq<Step> {
    seq(|steps|, i requires 0 <= i < |steps| => Step(!steps[i].atA, steps[i].op))
  }

  lemma {:induction false} RunFlips(n: Numbering, s: System, steps: seq<Step>)
    ensures Run(n, Flip(s), FlipSteps(steps))
            == match Run(n, s, steps) case None => None case Some(t) => Some(Flip(t))
  {
    if steps != [] {
      var front, last := steps[..|steps| - 1], steps[|steps| - 1];
      RunFlips(n, s, front);
      assert FlipSteps(steps)[..|steps| - 1] == FlipSteps(front);
      if Run(n, s, front).Some? {
        ApplyFlips(n, Run(n, s, front).value, last);
      }
    }
  }

  lemma ApplyFlips(n: Numbering, s: System, step: Step)
    ensures Apply(n, Flip(s), Step(!step.atA, step.op))
            == match Apply(n, s, step) case None => None case Some(t) => Some(Flip(t))
  {
    assert Flip(Flip(s)) == s;
  }

  /** Messages carried by a sequence of frames, in order. */
  function Payloads(fs: seq<Frame>): seq<TlMsg> {
    if fs == [] then []
    else Payloads(fs[..|fs| - 1]) + if fs[|fs| - 1].msg.Some? then [fs[|fs| - 1].msg.value] else []
  }
}
