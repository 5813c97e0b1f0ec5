/**
 Credit conservation over the whole system, and what it rules out: an overflowing
 message buffer and a credit exponent too large for its field.
 */
module Credits {
  import opened SeqNum
  import opened TileLinkMsg
  import opened FlowControl
  import opened EndpointSpec
  import opened System
  import opened Safety

  function MsgFlits(m: Option<TlMsg>, c: Channel): nat {
    if m.Some? && m.value.header.chan == c then Flits(m.value.header) else 0
  }

  /** Flits of channel c carried by data frames. */
  function CarriedFlits(fs: seq<Frame>, c: Channel): nat {
    if fs == [] then 0 else CarriedFlits(fs[..|fs| - 1], c) + MsgFlits(fs[|fs| - 1].msg, c)
  }

  /** Flits of channel c waiting in a message buffer. */
  function WaitingFlits(ms: seq<TlMsg>, c: Channel): nat {
    if ms == [] then 0 else WaitingFlits(ms[..|ms| - 1], c) + MsgFlits(Some(ms[|ms| - 1]), c)
  }

  function FrameCredit(f: Frame, c: Channel): nat {
    if c != 0 && f.chan == c then Pow2(f.credit) else 0
  }

  /** Credit of channel c carried by data frames. */
  function CarriedCredit(fs: seq<Frame>, c: Channel): nat {
    if fs == [] then 0 else CarriedCredit(fs[..|fs| - 1], c) + FrameCredit(fs[|fs| - 1], c)
  }

  /** Frames of x that its peer has not accepted. */
  function Unaccepted(x: Node, y: Node): seq<Frame>
    requires 0 <= y.ep.nextRx - x.first <= |x.log|
  {
    x.log[y.ep.nextRx - x.first..]
  }

  /** All the credit of channel c for sending from x to y, wherever it is. */
  function Pool(x: Node, y: Node, c: Channel): nat
    requires 0 <= y.ep.nextRx - x.first <= |x.log| && 0 <= x.ep.nextRx - y.first <= |y.log|
  {
    x.ep.credits[c] + CarriedFlits(Unaccepted(x, y), c) + WaitingFlits(y.ep.inbox, c)
    + y.ep.owed[c] + CarriedCredit(Unaccepted(y, x), c)
  }

  ghost predicate Conserved(x: Node, y: Node) {
    && 0 <= y.ep.nextRx - x.first <= |x.log| && 0 <= x.ep.nextRx - y.first <= |y.log|
    && (forall c: Channel :: 1 <= c ==> Pool(x, y, c) == FULL_CREDIT)
    && y.ep.owed[0] == 0
    && (forall i :: 0 <= i < |x.log| ==> x.log[i].credit <= CREDIT_DEFAULT)
  }

  ghost predicate CreditInv(s: System) {
    Inv(s) && Conserved(s.a, s.b) && Conserved(s.b, s.a)
  }

  // ---------- sums over sequences ----------

  lemma {:induction false} CarriedAppend(fs: seq<Frame>, f: Frame, c: Channel)
    ensures CarriedFlits(fs + [f], c) == CarriedFlits(fs, c) + MsgFlits(f.msg, c)
    ensures CarriedCredit(fs + [f], c) == CarriedCredit(fs, c) + FrameCredit(f, c)
  {
    assert (fs + [f])[..|fs|] == fs;
  }

  lemma {:induction false} CarriedDropFirst(fs: seq<Frame>, c: Channel)
    requires fs != []
    ensures CarriedFlits(fs, c) == MsgFlits(fs[0].msg, c) + CarriedFlits(fs[1..], c)
    ensures CarriedCredit(fs, c) == FrameCredit(fs[0], c) + CarriedCredit(fs[1..], c)
  {
    var last := |fs| - 1;
    if last > 0 {
      CarriedDropFirst(fs[..last], c);
      assert fs[..last][1..] == fs[1..][..last - 1];
    }
  }

  lemma {:induction false} WaitingAppend(ms: seq<TlMsg>, m: TlMsg, c: Channel)
    ensures WaitingFlits(ms + [m], c) == WaitingFlits(ms, c) + MsgFlits(Some(m), c)
  {
    assert (ms + [m])[..|ms|] == ms;
  }

  lemma {:induction false} WaitingDropFirst(ms: seq<TlMsg>, c: Channel)
    requires ms != []
    ensures WaitingFlits(ms, c) == MsgFlits(Some(ms[0]), c) + WaitingFlits(ms[1..], c)
  {
    var last := |ms| - 1;
    if last > 0 {
      WaitingDropFirst(ms[..last], c);
      assert ms[..last][1..] == ms[1..][..last - 1];
    }
  }

  // ---------- TX ----------

  ghost predicate SameCounters(x: Node, x': Node) {
    && x'.first == x.first && x'.log == x.log && x'.ep.nextRx == x.ep.nextRx
    && x'.ep.credits == x.ep.credits && x'.ep.owed == x.ep.owed && x'.ep.inbox == x.ep.inbox
  }

  /** The logged frame pays for its message and takes what it returns out of the pool. */
  ghost predicate Charged(x: Node, x': Node, f: Frame) {
    && x'.first == x.first && x'.log == x.log + [f] && x'.ep.nextRx == x.ep.nextRx && x'.ep.inbox == x.ep.inbox
    && (forall c: Channel :: 1 <= c ==> x'.ep.credits[c] + MsgFlits(f.msg, c) == x.ep.credits[c])
    && (forall c: Channel :: 1 <= c ==> x'.ep.owed[c] + FrameCredit(f, c) == x.ep.owed[c])
    && (x.ep.owed[0] == 0 ==> x'.ep.owed[0] == 0)
    && (f.chan != 0 ==> x.ep.owed[f.chan] > 0 && f.credit == LargestPow(x.ep.owed[f.chan]))
    && (f.chan == 0 ==> f.credit == 0)
  }

  lemma PayAndReturn(credits: Counters, owed: Counters, m: Option<TlMsg>, chan: Channel, f: Frame)
    requires chan != 0 ==> owed[chan] > 0
    requires m.Some? ==> CanPay(credits, m.value.header)
    requires f.chan == chan && f.credit == (if chan == 0 then 0 else LargestPow(owed[chan]))
    ensures forall c: Channel :: 1 <= c ==> Return(owed, chan)[c] + FrameCredit(f, c) == owed[c]
    ensures forall c: Channel :: 1 <= c ==>
              (if m.Some? then Pay(credits, m.value.header) else credits)[c] + MsgFlits(m, c) == credits[c]
    ensures Return(owed, chan)[0] == owed[0]
  {
  }

  lemma SendDataCharged(e: EndpointState, request: Option<TlMsg>, chan: Channel, d: Transmitted, f: Frame)
    requires chan != 0 ==> e.owed[chan] > 0
    requires !NothingToSend(e, request, chan)
    requires d == SendData(Unbounded, e, request, chan) && f == DataFrame(Unbounded, e, request, chan)
    ensures d.frames == [f] && d.state.nextRx == e.nextRx && d.state.inbox == e.inbox
    ensures |d.state.retx| == |e.retx| + 1 && d.state.retx[|e.retx|].frame == f
    ensures forall c: Channel :: 1 <= c ==> d.state.credits[c] + MsgFlits(f.msg, c) == e.credits[c]
    ensures forall c: Channel :: 1 <= c ==> d.state.owed[c] + FrameCredit(f, c) == e.owed[c]
    ensures d.state.owed[0] == e.owed[0]
    ensures f.chan == chan && f.credit == (if chan == 0 then 0 else LargestPow(e.owed[chan]))
  {
    var paid := if Payable(e, request) then request else None;
    PayAndReturn(e.credits, e.owed, paid, chan, f);
    forall c: Channel ensures MsgFlits(f.msg, c) == MsgFlits(paid, c) {}
  }

  lemma DataCharged(x: Node)
    ensures var d := DataStep(x);
            var x' := AfterTransmit(x, d);
            SameCounters(x, x') || (|d.frames| == 1 && Charged(x, x', d.frames[0]))
  {
    var e := BeforeData(x);
    assert e.credits == x.ep.credits && e.owed == x.ep.owed && e.nextRx == x.ep.nextRx
           && e.inbox == x.ep.inbox && e.retx == x.ep.retx;
    var chan := MaxChannel(x.ep.owed, CHANNEL_NUM);
    if !NothingToSend(e, x.pending, chan) {
      var d := SendData(Unbounded, e, x.pending, chan);
      SendDataCharged(e, x.pending, chan, d, DataFrame(Unbounded, e, x.pending, chan));
      ChargedByState(x, d);
    }
  }

  lemma ChargedByState(x: Node, d: Transmitted)
    requires |d.frames| == 1 && d.state.nextRx == x.ep.nextRx && d.state.inbox == x.ep.inbox
    requires |d.state.retx| == |x.ep.retx| + 1 && d.state.retx[|x.ep.retx|].frame == d.frames[0]
    requires var f := d.frames[0];
             && (forall c: Channel :: 1 <= c ==> d.state.credits[c] + MsgFlits(f.msg, c) == x.ep.credits[c])
             && (forall c: Channel :: 1 <= c ==> d.state.owed[c] + FrameCredit(f, c) == x.ep.owed[c])
             && d.state.owed[0] == x.ep.owed[0]
             && (f.chan != 0 ==> x.ep.owed[f.chan] > 0 && f.credit == LargestPow(x.ep.owed[f.chan]))
             && (f.chan == 0 ==> f.credit == 0)
    ensures Charged(x, AfterTransmit(x, d), d.frames[0])
  {
  }

  lemma TimeoutSameCounters(x: Node)
    ensures SameCounters(x, x.(ep := ResendOnTimeout(Unbounded, x.ep).state))
  {
  }

  lemma PartsCharged(x: Node, x': Node, frames: seq<Frame>, mid: Node, late: Sent, data: seq<Frame>)
    requires Parts(x, x', frames, mid, late, data)
    ensures SameCounters(x, x') || (|data| == 1 && Charged(x, x', data[0]))
  {
    DataCharged(x);
    TimeoutSameCounters(mid);
  }

  lemma TransmitCharged(x: Node, x': Node)
    requires x' == AfterTransmit(x, EndpointSpec.Transmit(Unbounded, x.ep, x.pending))
    ensures SameCounters(x, x') || (x'.log != [] && Charged(x, x', x'.log[|x'.log| - 1]))
  {
    var mid, late, data := TransmitSplits(x);
    PartsCharged(x, x', EndpointSpec.Transmit(Unbounded, x.ep, x.pending).frames, mid, late, data);
  }

  lemma ChargedKeeps(x: Node, x': Node, y: Node, f: Frame)
    requires Conserved(x, y) && Conserved(y, x) && Charged(x, x', f)
    ensures Conserved(x', y) && Conserved(y, x')
  {
    assert Unaccepted(x', y) == Unaccepted(x, y) + [f];
    assert Unaccepted(y, x') == Unaccepted(y, x);
    forall c: Channel | 1 <= c
      ensures Pool(x', y, c) == FULL_CREDIT && Pool(y, x', c) == FULL_CREDIT
    {
      CarriedAppend(Unaccepted(x, y), f, c);
      assert Pool(x, y, c) == FULL_CREDIT && Pool(y, x, c) == FULL_CREDIT;
    }
    if f.chan != 0 {
      assert Pool(y, x, f.chan) == FULL_CREDIT;
      assert Pow2(11) == 2048;
      LargestPowBound(x.ep.owed[f.chan], 11);
    }
  }

  // ---------- RX ----------

  /** Only an accepted frame moves credit: its message enters the inbox, and the
      credit it carries becomes spendable. */
  ghost predicate Credited(x: Node, x': Node, f: Frame, accepted: bool) {
    && x'.first == x.first && x'.log == x.log && x'.ep.owed == x.ep.owed
    && x'.ep.nextRx == (if accepted then x.ep.nextRx + 1 else x.ep.nextRx)
    && x'.ep.credits == (if accepted then Gain(x.ep.credits, f.chan, f.credit) else x.ep.credits)
    && x'.ep.inbox == (if accepted && f.msg.Some? then x.ep.inbox + [f.msg.value] else x.ep.inbox)
  }

  lemma ReceiveCredited(x: Node, f: Frame)
    requires f.isAck && EndpointSpec.Receive(Unbounded, x.ep, f).Received?
    ensures Credited(x, AfterReceive(x, EndpointSpec.Receive(Unbounded, x.ep, f).state), f,
                     !f.kind.AckOnlyFrame? && f.seqNum == x.ep.nextRx)
  {
  }

  lemma CreditedPools(x: Node, x': Node, y: Node, f: Frame, c: Channel)
    requires 0 <= y.ep.nextRx - x.first <= |x.log| && 0 <= x.ep.nextRx - y.first < |y.log|
    requires Credited(x, x', f, true) && 1 <= c
    requires var g := y.log[x.ep.nextRx - y.first]; f.msg == g.msg && f.chan == g.chan && f.credit == g.credit
    ensures Pool(x', y, c) == Pool(x, y, c) && Pool(y, x', c) == Pool(y, x, c)
  {
    assert Unaccepted(x', y) == Unaccepted(x, y);
    assert Unaccepted(y, x') == Unaccepted(y, x)[1..];
    CarriedDropFirst(Unaccepted(y, x), c);
    if f.msg.Some? {
      WaitingAppend(x.ep.inbox, f.msg.value, c);
    }
  }

  lemma CreditedKeeps(x: Node, x': Node, y: Node, f: Frame)
    requires Conserved(x, y) && Conserved(y, x) && Credited(x, x', f, true)
    requires x.ep.nextRx - y.first < |y.log|
    requires var g := y.log[x.ep.nextRx - y.first]; f.msg == g.msg && f.chan == g.chan && f.credit == g.credit
    ensures Conserved(x', y) && Conserved(y, x')
  {
    forall c: Channel | 1 <= c
      ensures Pool(x', y, c) == FULL_CREDIT && Pool(y, x', c) == FULL_CREDIT
    {
      CreditedPools(x, x', y, f, c);
      assert Pool(x, y, c) == FULL_CREDIT && Pool(y, x, c) == FULL_CREDIT;
    }
  }

  lemma SameCountersKeep(x: Node, x': Node, y: Node)
    requires Conserved(x, y) && Conserved(y, x) && SameCounters(x, x')
    ensures Conserved(x', y) && Conserved(y, x')
  {
    assert Unaccepted(x', y) == Unaccepted(x, y) && Unaccepted(y, x') == Unaccepted(y, x);
    forall c: Channel | 1 <= c
      ensures Pool(x', y, c) == FULL_CREDIT && Pool(y, x', c) == FULL_CREDIT
    {
      assert Pool(x, y, c) == FULL_CREDIT && Pool(y, x, c) == FULL_CREDIT;
    }
  }

  // ---------- tl_handler ----------

  /** Handling a message turns its flits into credit owed to the sender. */
  ghost predicate Settled(x: Node, x': Node) {
    && x'.first == x.first && x'.log == x.log && x'.ep.nextRx == x.ep.nextRx && x'.ep.credits == x.ep.credits
    && x.ep.inbox != [] && x'.ep.inbox == x.ep.inbox[1..]
    && x'.ep.owed == Owe(x.ep.owed, x.ep.inbox[0].header.chan, Flits(x.ep.inbox[0].header))
  }

  lemma SettledKeeps(x: Node, x': Node, y: Node)
    requires Conserved(x, y) && Conserved(y, x) && Settled(x, x')
    ensures Conserved(x', y) && Conserved(y, x')
  {
    assert Unaccepted(x', y) == Unaccepted(x, y) && Unaccepted(y, x') == Unaccepted(y, x);
    forall c: Channel | 1 <= c
      ensures Pool(x', y, c) == FULL_CREDIT && Pool(y, x', c) == FULL_CREDIT
    {
      WaitingDropFirst(x.ep.inbox, c);
      assert Pool(x, y, c) == FULL_CREDIT && Pool(y, x, c) == FULL_CREDIT;
    }
  }

  lemma OtherCounters(n: Numbering, s: System, t: System, op: Op)
    requires Act(n, s, op) == Some(t) && !op.Transmit? && !op.Receive?
    ensures SameCounters(s.a, t.a) || Settled(s.a, t.a)
    ensures t.b == s.b
  {
  }

  // ---------- the invariant ----------

  lemma ServedKeepsCredit(x: Node, x': Node, y: Node, f: Frame)
    requires Conserved(x, y) && Conserved(y, x) && InFlight(y, x.ep.nextRx, f)
    requires Credited(x, x', f, !f.kind.AckOnlyFrame? && f.seqNum == x.ep.nextRx)
    ensures Conserved(x', y) && Conserved(y, x')
  {
    if !f.kind.AckOnlyFrame? && f.seqNum == x.ep.nextRx {
      CreditedKeeps(x, x', y, f);
    } else {
      SameCountersKeep(x, x', y);
    }
  }

  lemma ReceiveKeepsCredit(s: System, t: System)
    requires CreditInv(s) && Act(Unbounded, s, Op.Receive) == Some(t)
    ensures Conserved(t.a, t.b) && Conserved(t.b, t.a)
  {
    assert InFlight(s.b, s.a.ep.nextRx, s.ba[0]);
    ReceiveCredited(s.a, s.ba[0]);
    ServedKeepsCredit(s.a, t.a, s.b, s.ba[0]);
  }

  lemma ActKeepsCredit(s: System, op: Op)
    requires CreditInv(s) && Act(Unbounded, s, op).Some?
    ensures CreditInv(Act(Unbounded, s, op).value)
  {
    var t := Act(Unbounded, s, op).value;
    ActKeepsInv(s, op);
    if op.Receive? {
      ReceiveKeepsCredit(s, t);
    } else {
      if op.Transmit? {
        TransmitCharged(s.a, t.a);
      } else {
        OtherCounters(Unbounded, s, t, op);
      }
      if SameCounters(s.a, t.a) {
        SameCountersKeep(s.a, t.a, s.b);
      } else if op.Transmit? {
        ChargedKeeps(s.a, t.a, s.b, t.a.log[|t.a.log| - 1]);
      } else {
        SettledKeeps(s.a, t.a, s.b);
      }
    }
  }

  lemma EmptySums(c: Channel)
    ensures CarriedFlits([], c) == 0 && CarriedCredit([], c) == 0 && WaitingFlits([], c) == 0
  {
  }

  lemma InitialPool(s: System, c: Channel)
    requires 1 <= c && (s == Initial() || s == Flip(Initial()))
    ensures Pool(s.a, s.b, c) == FULL_CREDIT
  {
    var none: seq<Frame> := [];
    assert s.a.log[0..] == none && s.b.log[0..] == none;
    EmptySums(c);
    assert s.a.ep.credits == [128, FULL_CREDIT, FULL_CREDIT, FULL_CREDIT, FULL_CREDIT, FULL_CREDIT];
  }

  lemma InitialConserved()
    ensures CreditInv(Initial())
  {
    forall c: Channel | 1 <= c
      ensures Pool(Initial().a, Initial().b, c) == FULL_CREDIT && Pool(Initial().b, Initial().a, c) == FULL_CREDIT
    {
      InitialPool(Initial(), c);
      InitialPool(Flip(Initial()), c);
    }
  }

  /** For each channel the credit between the endpoints is always 1024: at the
      sender, in messages not yet accepted or not yet handled, in the receiver's
      pool, or in credit frames not yet accepted. */
  lemma {:induction false} CreditConservation(steps: seq<Step>)
    requires Run(Unbounded, Initial(), steps).Some?
    ensures CreditInv(Run(Unbounded, Initial(), steps).value)
  {
    if steps == [] {
      InitialConserved();
    } else {
      var front, last := steps[..|steps| - 1], steps[|steps| - 1];
      CreditConservation(front);
      var s := Run(Unbounded, Initial(), front).value;
      ActKeepsCredit(if last.atA then s else Flip(s), last.op);
    }
  }

  lemma ReachesCreditInv(steps: seq<Step>, s: System)
    requires Reaches(Unbounded, steps, s)
    ensures CreditInv(s)
  {
    CreditConservation(steps);
  }

  // ---------- consequences ----------

  lemma {:induction false} MessagesCost(ms: seq<TlMsg>)
    ensures |ms| <= WaitingFlits(ms, 1) + WaitingFlits(ms, 2) + WaitingFlits(ms, 3) + WaitingFlits(ms, 4) + WaitingFlits(ms, 5)
  {
    if ms != [] {
      MessagesCost(ms[..|ms| - 1]);
      FlitsBounds(ms[|ms| - 1]);
    }
  }

  /** The message buffer never holds more than 5 * 1024 messages. */
  lemma CreditsBoundInbox(x: Node, y: Node)
    requires Conserved(y, x)
    ensures |x.ep.inbox| <= 5 * FULL_CREDIT < TL_MSG_CAPACITY
  {
    MessagesCost(x.ep.inbox);
    forall c: Channel | 1 <= c
      ensures WaitingFlits(x.ep.inbox, c) <= FULL_CREDIT
    {
      assert Pool(y, x, c) == FULL_CREDIT;
    }
  }

  /** So the program's exit on an overflowing message buffer cannot be reached: RX
      halts exactly for a data frame that is not the next one when the ack buffer
      is full. */
  lemma HaltsOnlyOnFullAckBuffer(s: System)
    requires CreditInv(s) && s.ba != []
    ensures var f := s.ba[0];
            EndpointSpec.Receive(Unbounded, s.a.ep, f).Halted?
            <==> !f.kind.AckOnlyFrame? && f.seqNum != s.a.ep.nextRx && |s.a.ep.acks| >= ACK_CAPACITY
  {
    CreditsBoundInbox(s.a, s.b);
    assert InFlight(s.b, s.a.ep.nextRx, s.ba[0]);
  }
}
