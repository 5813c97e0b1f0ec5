/**
 A state that two endpoints never leave: each holds a request it has no credit for, with
 nothing to acknowledge and nothing to resend, so neither ever sends again, not even the
 credit it owes the other.
 */
module Deadlock {
  import opened SeqNum
  import opened TileLinkMsg
  import opened FlowControl
  import opened EndpointSpec
  import opened System
  import opened LoopTurn

  predicate Blocked(x: Node) {
    && x.pending.Some? && !CanPay(x.ep.credits, x.pending.value.header)
    && x.ep.acks == [] && x.ep.retx == [] && !x.ep.sendAckOnly
  }

  predicate Deadlocked(s: System) {
    Blocked(s.a) && Blocked(s.b) && s.ab == [] && s.ba == []
  }

  predicate SameRequest(x: Node, x': Node) {
    x'.pending == x.pending && x'.log == x.log && x'.accepted == x.accepted && x'.ep.credits == x.ep.credits
  }

  lemma BlockedSendsNothing(n: Numbering, e: EndpointState, m: TlMsg)
    requires !CanPay(e.credits, m.header) && e.acks == [] && e.retx == [] && !e.sendAckOnly
    ensures EndpointSpec.Transmit(n, e, Some(m)) == Transmitted(e, Some(m), [])
  {
  }

  predicate QuietAt(n: Numbering, x: Node, time: nat) {
    EndpointSpec.Transmit(n, x.ep.(now := time), x.pending).frames == []
  }

  lemma {:induction false} FrontIsResent(n: Numbering, retx: seq<RetxElement>, from: int, ack: int)
    requires retx != [] && n.Compare(retx[0].frame.seqNum, from) >= 0
    ensures ResentFrames(n, retx, from, ack) != []
  {
    if |retx| > 1 {
      FrontIsResent(n, retx[..|retx| - 1], from, ack);
    }
  }

  lemma ResendsFront(n: Numbering, e: EndpointState)
    requires e.retx != [] && TimedOut(e.now, e.retx[0].sendTime, TIMEOUT_TIME)
    ensures ResendOnTimeout(n, e).frames != []
  {
    FrontIsResent(n, e.retx, e.retx[0].frame.seqNum, n.Pred(e.nextRx));
  }

  lemma LateIsNotQuiet(n: Numbering, x: Node, time: nat)
    requires x.ep.retx != [] && TimedOut(time, x.ep.retx[0].sendTime, TIMEOUT_TIME)
    ensures !QuietAt(n, x, time)
  {
    var e := x.ep.(now := time);
    var half := SendHalfTimeoutAck(n, SendRequestedAck(n, e).state);
    var data := SendData(n, half.state, x.pending, MaxChannel(e.owed, CHANNEL_NUM));
    assert data.state.retx[0] == e.retx[0];
    ResendsFront(n, data.state);
  }

  /** An end with a request pending stays silent, however far its clock runs while nothing
      arrives, exactly when it is blocked. */
  lemma SilentIff(n: Numbering, x: Node)
    requires x.pending.Some?
    ensures (forall time: nat :: time >= x.ep.now ==> QuietAt(n, x, time)) <==> Blocked(x)
  {
    if Blocked(x) {
      forall time: nat | time >= x.ep.now ensures QuietAt(n, x, time) {
        BlockedSendsNothing(n, x.ep.(now := time), x.pending.value);
      }
    } else if x.ep.retx != [] {
      LateIsNotQuiet(n, x, x.ep.now + x.ep.retx[0].sendTime + TIMEOUT_TIME);
    } else {
      assert !QuietAt(n, x, x.ep.now);
    }
  }

  lemma ActStaysDeadlocked(n: Numbering, s: System, op: Op, t: System)
    requires Deadlocked(s) && Act(n, s, op) == Some(t)
    ensures Deadlocked(t) && SameRequest(s.a, t.a) && t.b == s.b
  {
    if op.Transmit? {
      BlockedSendsNothing(n, s.a.ep, s.a.pending.value);
    }
  }

  /** Whatever steps are taken, at either end and for as long as one likes: nothing is sent,
      nothing is accepted, and the requests stay where they are. */
  lemma {:induction false} DeadlockIsForever(n: Numbering, s: System, steps: seq<Step>, t: System)
    requires Deadlocked(s) && Run(n, s, steps) == Some(t)
    ensures Deadlocked(t) && SameRequest(s.a, t.a) && SameRequest(s.b, t.b)
  {
    if steps != [] {
      var front, last := steps[..|steps| - 1], steps[|steps| - 1];
      var u := Run(n, s, front).value;
      DeadlockIsForever(n, s, front, u);
      ActStaysDeadlocked(n, FromEnd(last.atA, u), last.op, FromEnd(last.atA, t));
    }
  }

  /** So the two loops, however they go on, put no frame on the network again. */
  lemma LoopsStaySilent(s: System, es: seq<Event>, l: Loops)
    requires Deadlocked(s) && PlayAll(View(s), es) == Some(l)
    ensures l.ab == [] && l.ba == [] && l.a.pending == s.a.pending && l.b.pending == s.b.pending
  {
    PlayIsRun(s, es);
    DeadlockIsForever(Wrapping, s, AllSteps(es), Run(Wrapping, s, AllSteps(es)).value);
  }
}
