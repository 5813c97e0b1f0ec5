/**
 The 22-bit protocol does, step by step, what the unbounded one does. The wrapped
 comparison of data frames is always right; that of acks is right exactly when the
 ack of a frame that is served is not behind the window, or behind it by an
 unambiguous distance. A run refines the unbounded one at every step exactly when
 that holds each time a frame is served.
 */
module Wire {
  import opened Sequences
  import opened SeqNum
  import opened TileLinkMsg
  import opened FlowControl
  import opened EndpointSpec
  import opened System
  import opened Safety
  import opened Credits

  function WrapFrame(f: Frame): Frame {
    f.(seqNum := Wrap(f.seqNum), seqNumAck := Wrap(f.seqNumAck))
  }

  function WrapFrames(fs: seq<Frame>): seq<Frame> {
    seq(|fs|, i requires 0 <= i < |fs| => WrapFrame(fs[i]))
  }

  function WrapElement(e: RetxElement): RetxElement {
    e.(frame := WrapFrame(e.frame))
  }

  function WrapRetx(retx: seq<RetxElement>): seq<RetxElement> {
    seq(|retx|, i requires 0 <= i < |retx| => WrapElement(retx[i]))
  }

  function WrapState(s: EndpointState): EndpointState {
    s.(nextTx := Wrap(s.nextTx), nextRx := Wrap(s.nextRx), retx := WrapRetx(s.retx), acks := WrapFrames(s.acks))
  }

  function WrapNode(x: Node): Node {
    x.(ep := WrapState(x.ep), log := WrapFrames(x.log))
  }

  function WrapSystem(s: System): System {
    System(WrapNode(s.a), WrapNode(s.b), WrapFrames(s.ab), WrapFrames(s.ba))
  }

  function WrapSent(s: Sent): Sent {
    Sent(WrapState(s.state), WrapFrames(s.frames))
  }

  function WrapTransmitted(t: Transmitted): Transmitted {
    Transmitted(WrapState(t.state), t.leftover, WrapFrames(t.frames))
  }

  function WrapReceived(r: Received): Received {
    if r.Halted? then Halted else Received(WrapState(r.state), WrapFrames(r.frames))
  }

  function WrapRun(r: Option<System>): Option<System> {
    if r.None? then None else Some(WrapSystem(r.value))
  }

  predicate Near(a: int, b: int) {
    -HALF_MAX_SEQ_NUM < a - b < HALF_MAX_SEQ_NUM
  }

  lemma SameResidue(a: int, b: int)
    requires Wrap(a) == Wrap(b) && Near(a, b)
    ensures a == b
  {
    CmpExact(a, b);
  }

  // ---------- buffer operations ----------

  lemma {:induction false} SlideWraps(retx: seq<RetxElement>, base: int, ack: int)
    requires Consecutive(retx, base) && |retx| <= WINDOW_SIZE && Near(base, ack)
    ensures Slide(Wrapping, WrapRetx(retx), Wrap(ack)) == WrapRetx(Slide(Unbounded, retx, ack))
  {
    if retx != [] {
      CmpExact(base, ack);
      assert WrapRetx(retx)[1..] == WrapRetx(retx[1..]);
      if base <= ack {
        SlideWraps(retx[1..], base + 1, ack);
      }
    }
  }

  lemma {:induction false} ResendWraps(retx: seq<RetxElement>, from: int, ack: int, now: nat)
    requires forall i :: 0 <= i < |retx| ==> Near(retx[i].frame.seqNum, from)
    ensures ResentFrames(Wrapping, WrapRetx(retx), Wrap(from), Wrap(ack))
            == WrapFrames(ResentFrames(Unbounded, retx, from, ack))
    ensures Restamped(Wrapping, WrapRetx(retx), Wrap(from), now) == WrapRetx(Restamped(Unbounded, retx, from, now))
  {
    forall i | 0 <= i < |retx|
      ensures Wrapping.Compare(WrapRetx(retx)[i].frame.seqNum, Wrap(from))
              == Unbounded.Compare(retx[i].frame.seqNum, from)
    {
      CmpExact(retx[i].frame.seqNum, from);
    }
    if retx != [] {
      var front := retx[..|retx| - 1];
      ResendWraps(front, from, ack, now);
      assert WrapRetx(retx)[..|retx| - 1] == WrapRetx(front);
    }
  }

  // ---------- TX ----------

  lemma AckOnlyWraps(s: EndpointState)
    ensures AckOnly(Wrapping, WrapState(s)) == WrapFrame(AckOnly(Unbounded, s))
    ensures SendRequestedAck(Wrapping, WrapState(s)) == WrapSent(SendRequestedAck(Unbounded, s))
    ensures SendHalfTimeoutAck(Wrapping, WrapState(s)) == WrapSent(SendHalfTimeoutAck(Unbounded, s))
  {
    NextPrevWrap(s.nextRx);
  }

  lemma DataWraps(s: EndpointState, request: Option<TlMsg>, chan: Channel)
    requires chan != 0 ==> s.owed[chan] > 0
    ensures SendData(Wrapping, WrapState(s), request, chan) == WrapTransmitted(SendData(Unbounded, s, request, chan))
  {
    NextPrevWrap(s.nextRx);
    NextPrevWrap(s.nextTx);
    if !NothingToSend(s, request, chan) {
      assert !NothingToSend(WrapState(s), request, chan);
      var f := DataFrame(Unbounded, s, request, chan);
      assert DataFrame(Wrapping, WrapState(s), request, chan) == WrapFrame(f);
      assert WrapRetx(s.retx + [RetxElement(f, s.now)]) == WrapRetx(s.retx) + [RetxElement(WrapFrame(f), s.now)];
      assert s.acks != [] ==> WrapFrames(s.acks)[1..] == WrapFrames(s.acks[1..]);
    }
  }

  lemma RetransmitWraps(s: EndpointState, from: int)
    requires forall i :: 0 <= i < |s.retx| ==> Near(s.retx[i].frame.seqNum, from)
    ensures Retransmit(Wrapping, WrapState(s), Wrap(from)) == WrapSent(Retransmit(Unbounded, s, from))
  {
    NextPrevWrap(s.nextRx);
    ResendWraps(s.retx, from, s.nextRx - 1, s.now);
  }

  lemma TimeoutWraps(s: EndpointState, base: int)
    requires Consecutive(s.retx, base) && |s.retx| <= WINDOW_SIZE
    ensures ResendOnTimeout(Wrapping, WrapState(s)) == WrapSent(ResendOnTimeout(Unbounded, s))
  {
    RetransmitWraps(s, base);
  }

  lemma WrapFramesConcat(fs: seq<Frame>, gs: seq<Frame>)
    ensures WrapFrames(fs + gs) == WrapFrames(fs) + WrapFrames(gs)
  {
  }

  lemma WrapFramesAppend(fs: seq<Frame>, f: Frame)
    ensures WrapFrames(fs + [f]) == WrapFrames(fs) + [WrapFrame(f)]
  {
  }

  lemma WrapFramesConcat4(f: seq<Frame>, g: seq<Frame>, h: seq<Frame>, k: seq<Frame>)
    ensures WrapFrames(f + g + h + k) == WrapFrames(f) + WrapFrames(g) + WrapFrames(h) + WrapFrames(k)
  {
    WrapFramesConcat(f, g);
    WrapFramesConcat(f + g, h);
    WrapFramesConcat(f + g + h, k);
  }

  /** The ack-only stage leaves the buffer alone and wraps. */
  lemma AcksStageWraps(s: EndpointState)
    ensures var acked := SendRequestedAck(Unbounded, s);
            var half := SendHalfTimeoutAck(Unbounded, acked.state);
            && SendRequestedAck(Wrapping, WrapState(s)) == WrapSent(acked)
            && SendHalfTimeoutAck(Wrapping, WrapState(acked.state)) == WrapSent(half)
            && half.state.retx == s.retx && half.state.nextTx == s.nextTx && half.state.owed == s.owed
  {
    AckOnlyWraps(s);
    AckOnlyWraps(SendRequestedAck(Unbounded, s).state);
  }

  lemma DataStageWraps(s: EndpointState, request: Option<TlMsg>, chan: Channel)
    requires Consecutive(s.retx, s.nextTx - |s.retx|) && |s.retx| <= WINDOW_SIZE
    requires chan != 0 ==> s.owed[chan] > 0
    ensures var data := SendData(Unbounded, s, request, chan);
            && SendData(Wrapping, WrapState(s), request, chan) == WrapTransmitted(data)
            && ResendOnTimeout(Wrapping, WrapState(data.state)) == WrapSent(ResendOnTimeout(Unbounded, data.state))
  {
    DataWraps(s, request, chan);
    TimeoutWraps(SendData(Unbounded, s, request, chan).state, s.nextTx - |s.retx|);
  }

  /** TX on wrapped numbers is TX on true ones, wrapped. */
  lemma TransmitWraps(s: EndpointState, request: Option<TlMsg>)
    requires Consecutive(s.retx, s.nextTx - |s.retx|) && |s.retx| <= WINDOW_SIZE
    ensures EndpointSpec.Transmit(Wrapping, WrapState(s), request)
            == WrapTransmitted(EndpointSpec.Transmit(Unbounded, s, request))
  {
    var chan := MaxChannel(s.owed, CHANNEL_NUM);
    var acked := SendRequestedAck(Unbounded, s);
    var half := SendHalfTimeoutAck(Unbounded, acked.state);
    var data := SendData(Unbounded, half.state, request, chan);
    AcksStageWraps(s);
    DataStageWraps(half.state, request, chan);
    WrapFramesConcat4(acked.frames, half.frames, data.frames, ResendOnTimeout(Unbounded, data.state).frames);
  }

  // ---------- RX ----------

  /** Normal, duplicate or out of sequence: the wrapped test classifies as the
      unbounded counters do. */
  lemma ClassifyWraps(seqNum: int, nextRx: int)
    requires Near(seqNum, nextRx)
    ensures GetReqType(Wrapping, Wrap(seqNum), Wrap(nextRx)) == GetReqType(Unbounded, seqNum, nextRx)
  {
    CmpExact(seqNum, nextRx);
  }

  lemma ServeAckWraps(s: EndpointState, f: Frame, base: int)
    requires Consecutive(s.retx, base) && |s.retx| <= WINDOW_SIZE && Near(base, f.seqNumAck) && f.isAck
    ensures ServeAck(Wrapping, WrapState(s), WrapFrame(f)) == WrapSent(ServeAck(Unbounded, s, f))
  {
    SlideWraps(s.retx, base, f.seqNumAck);
  }

  lemma ServeDataWraps(s: EndpointState, f: Frame)
    requires Near(f.seqNum, s.nextRx)
    ensures var r := ServeData(Unbounded, s, f);
            ServeData(Wrapping, WrapState(s), WrapFrame(f)) == if r.None? then None else Some(WrapState(r.value))
  {
    ClassifyWraps(f.seqNum, s.nextRx);
    NextPrevWrap(f.seqNum);
    NextPrevWrap(s.nextRx);
    WrapFramesAppend(s.acks, AckEntry(f, f.seqNum, true));
    WrapFramesAppend(s.acks, AckEntry(f, s.nextRx - 1, false));
  }

  lemma ReceiveWraps(s: EndpointState, f: Frame, base: int)
    requires Consecutive(s.retx, base) && |s.retx| <= WINDOW_SIZE && Near(base, f.seqNumAck) && f.isAck
    requires !f.kind.AckOnlyFrame? ==> Near(f.seqNum, s.nextRx)
    ensures EndpointSpec.Receive(Wrapping, WrapState(s), WrapFrame(f))
            == WrapReceived(EndpointSpec.Receive(Unbounded, s, f))
  {
    ServeAckWraps(s, f, base);
    if !f.kind.AckOnlyFrame? {
      ServeDataWraps(ServeAck(Unbounded, s, f).state, f);
    }
  }

  // ---------- when an old ack is read right ----------

  lemma {:induction false} SlideShrinks(n: Numbering, retx: seq<RetxElement>, ack: int)
    ensures |Slide(n, retx, ack)| <= |retx|
  {
    if retx != [] {
      SlideShrinks(n, retx[1..], ack);
    }
  }

  /** For every buffer and every ack of a frame that was sent: the 22-bit slide
      removes what the true slide would exactly when the ack is not behind the
      window, or is behind it by an unambiguous distance. */
  lemma StaleAckExactIff(retx: seq<RetxElement>, base: int, ack: int)
    requires Consecutive(retx, base) && 1 <= |retx| <= WINDOW_SIZE && ack < base + |retx|
    ensures Slide(Wrapping, WrapRetx(retx), Wrap(ack)) == WrapRetx(Slide(Unbounded, retx, ack))
            <==> (ack >= base || Unambiguous(base - ack, Wrap(base) < Wrap(ack)))
  {
    if ack >= base {
      SlideWraps(retx, base, ack);
    } else {
      CmpExactIff(base, ack);
      SlideShrinks(Wrapping, WrapRetx(retx)[1..], Wrap(ack));
    }
  }

  lemma ServeDataKeepsRetx(n: Numbering, e: EndpointState, f: Frame)
    ensures var r := ServeData(n, e, f); r.Some? ==> r.value.retx == e.retx
  {
  }

  lemma ReceivedRetx(n: Numbering, e: EndpointState, f: Frame)
    requires f.isAck && EndpointSpec.Receive(n, e, f).Received?
    ensures EndpointSpec.Receive(n, e, f).state.retx == Slide(n, e.retx, f.seqNumAck)
  {
    ServeDataKeepsRetx(n, ServeAck(n, e, f).state, f);
  }

  /** When the slides agree, so does the rest of RX. */
  lemma ReceiveFollowsSlide(e: EndpointState, f: Frame)
    requires f.isAck && (!f.kind.AckOnlyFrame? ==> Near(f.seqNum, e.nextRx))
    requires Slide(Wrapping, WrapRetx(e.retx), Wrap(f.seqNumAck)) == WrapRetx(Slide(Unbounded, e.retx, f.seqNumAck))
    ensures EndpointSpec.Receive(Wrapping, WrapState(e), WrapFrame(f)) == WrapReceived(EndpointSpec.Receive(Unbounded, e, f))
  {
    assert ServeAck(Wrapping, WrapState(e), WrapFrame(f)) == WrapSent(ServeAck(Unbounded, e, f));
    if !f.kind.AckOnlyFrame? {
      ServeDataWraps(ServeAck(Unbounded, e, f).state, f);
    }
  }

  /** An ack that the 22-bit slide reads as the true slide does. */
  predicate ReadRight(retx: seq<RetxElement>, base: int, ack: int) {
    retx == [] || ack >= base || Unambiguous(base - ack, Wrap(base) < Wrap(ack))
  }

  lemma SlideExactIff(retx: seq<RetxElement>, base: int, ack: int)
    requires Consecutive(retx, base) && |retx| <= WINDOW_SIZE && ack < base + |retx|
    ensures Slide(Wrapping, WrapRetx(retx), Wrap(ack)) == WrapRetx(Slide(Unbounded, retx, ack))
            <==> ReadRight(retx, base, ack)
  {
    if retx != [] {
      StaleAckExactIff(retx, base, ack);
    }
  }

  lemma ReceiveExactOnlyIf(e: EndpointState, f: Frame)
    requires f.isAck && EndpointSpec.Receive(Unbounded, e, f).Received?
    requires EndpointSpec.Receive(Wrapping, WrapState(e), WrapFrame(f)) == WrapReceived(EndpointSpec.Receive(Unbounded, e, f))
    ensures Slide(Wrapping, WrapRetx(e.retx), Wrap(f.seqNumAck)) == WrapRetx(Slide(Unbounded, e.retx, f.seqNumAck))
  {
    ReceivedRetx(Unbounded, e, f);
    ReceivedRetx(Wrapping, WrapState(e), WrapFrame(f));
  }

  lemma HaltingNeedsNoAck(e: EndpointState, f: Frame)
    requires HaltsAnyway(e, f) && Near(f.seqNum, e.nextRx)
    ensures EndpointSpec.Receive(Wrapping, WrapState(e), WrapFrame(f)).Halted?
    ensures EndpointSpec.Receive(Unbounded, e, f).Halted?
  {
    ClassifyWraps(f.seqNum, e.nextRx);
  }

  /** A data frame other than the next one, and no room for its ack: the program exits. */
  predicate HaltsAnyway(e: EndpointState, f: Frame) {
    !f.kind.AckOnlyFrame? && f.seqNum != e.nextRx && |e.acks| >= ACK_CAPACITY
  }

  /** For every state with the invariant and every frame that arrives in it, however old its
      ack: RX on 22 bits does what RX on true numbers does exactly when the ack is read
      right, or the program exits for a full ack buffer anyway. */
  lemma ReceiveExactIff(s: System)
    requires CreditInv(s) && s.ba != []
    ensures var e, f := s.a.ep, s.ba[0];
            EndpointSpec.Receive(Wrapping, WrapState(e), WrapFrame(f)) == WrapReceived(EndpointSpec.Receive(Unbounded, e, f))
            <==> ReadRight(e.retx, Base(s.a), f.seqNumAck)
                 || HaltsAnyway(e, f)
  {
    var e, f := s.a.ep, s.ba[0];
    assert InFlight(s.b, e.nextRx, f);
    HaltsOnlyOnFullAckBuffer(s);
    if EndpointSpec.Receive(Unbounded, e, f).Halted? {
      HaltingNeedsNoAck(e, f);
    } else {
      SlideExactIff(e.retx, Base(s.a), f.seqNumAck);
      if ReadRight(e.retx, Base(s.a), f.seqNumAck) {
        ReceiveFollowsSlide(e, f);
      } else if EndpointSpec.Receive(Wrapping, WrapState(e), WrapFrame(f))
                == WrapReceived(EndpointSpec.Receive(Unbounded, e, f)) {
        ReceiveExactOnlyIf(e, f);
      }
    }
  }

  /** The half-way case: the true ack leaves the buffer alone and the wrapped one empties it. */
  lemma HalfWayAckEmptiesBuffer(e: RetxElement)
    requires e.frame.seqNum == 6 + HALF_MAX_SEQ_NUM
    ensures Slide(Unbounded, [e], 6) == [e]
    ensures Slide(Wrapping, WrapRetx([e]), Wrap(6)) == []
  {
    assert WrapRetx([e])[1..] == [];
  }

  // ---------- the whole system ----------

  lemma WrapLog(log: seq<Frame>, retx: seq<RetxElement>)
    requires retx != []
    ensures WrapFrames(log + [retx[|retx| - 1].frame]) == WrapFrames(log) + [WrapRetx(retx)[|retx| - 1].frame]
  {
    WrapFramesAppend(log, retx[|retx| - 1].frame);
  }

  lemma WrapTransmitNode(x: Node, t: Transmitted)
    ensures AfterTransmit(WrapNode(x), WrapTransmitted(t)) == WrapNode(AfterTransmit(x, t))
  {
    var w := AfterTransmit(WrapNode(x), WrapTransmitted(t));
    if |t.state.retx| > |x.ep.retx| {
      WrapLog(x.log, t.state.retx);
    }
    assert w.log == WrapFrames(AfterTransmit(x, t).log);
    assert w.ep == WrapState(t.state);
  }

  lemma TransmitSimulates(s: System)
    requires Window(s.a)
    ensures Act(Wrapping, WrapSystem(s), Op.Transmit) == WrapRun(Act(Unbounded, s, Op.Transmit))
  {
    var t := EndpointSpec.Transmit(Unbounded, s.a.ep, s.a.pending);
    TransmitWraps(s.a.ep, s.a.pending);
    WrapTransmitNode(s.a, t);
    WrapFramesConcat(s.ab, t.frames);
  }

  lemma HeadNear(s: System)
    requires Inv(s) && s.ba != []
    ensures !s.ba[0].kind.AckOnlyFrame? ==> Near(s.ba[0].seqNum, s.a.ep.nextRx)
    ensures !s.ba[0].kind.AckOnlyFrame? ==>
              s.a.ep.nextRx - WINDOW_SIZE <= s.ba[0].seqNum <= s.a.ep.nextRx + WINDOW_SIZE - 1
    ensures s.ba[0].isAck
  {
    assert InFlight(s.b, s.a.ep.nextRx, s.ba[0]);
  }

  lemma WrapReceiveNode(x: Node, e: EndpointState)
    ensures AfterReceive(WrapNode(x), WrapState(e)) == WrapNode(AfterReceive(x, e))
  {
  }

  lemma WrapTail(fs: seq<Frame>)
    requires fs != []
    ensures WrapFrames(fs)[0] == WrapFrame(fs[0]) && WrapFrames(fs)[1..] == WrapFrames(fs[1..])
  {
  }

  lemma DeliverWraps(s: System, r: Received)
    requires s.ba != []
    requires r == EndpointSpec.Receive(Unbounded, s.a.ep, s.ba[0])
    requires EndpointSpec.Receive(Wrapping, WrapState(s.a.ep), WrapFrame(s.ba[0])) == WrapReceived(r)
    ensures Act(Wrapping, WrapSystem(s), Op.Receive) == WrapRun(Act(Unbounded, s, Op.Receive))
  {
    WrapTail(s.ba);
    if r.Received? {
      WrapFramesConcat(s.ab, r.frames);
      WrapReceiveNode(s.a, r.state);
    }
  }

  /** The other way: only RX can make the delivery the same. */
  lemma DeliveredAlike(s: System, r: Received)
    requires s.ba != [] && s.ba[0].isAck
    requires r == EndpointSpec.Receive(Unbounded, s.a.ep, s.ba[0])
    requires Act(Wrapping, WrapSystem(s), Op.Receive) == WrapRun(Act(Unbounded, s, Op.Receive))
    ensures EndpointSpec.Receive(Wrapping, WrapState(s.a.ep), WrapFrame(s.ba[0])) == WrapReceived(r)
  {
    WrapTail(s.ba);
    var q := EndpointSpec.Receive(Wrapping, WrapState(s.a.ep), WrapFrame(s.ba[0]));
    assert q.Received? ==> q.frames == [];
    assert r.Received? ==> r.frames == [];
  }

  /** The oldest frame on its way to a, if any, would be served right. */
  ghost predicate ServedRight(s: System) {
    s.ba == [] || ReadRight(s.a.ep.retx, Base(s.a), s.ba[0].seqNumAck) || HaltsAnyway(s.a.ep, s.ba[0])
  }

  lemma ReceiveSimulatesIff(s: System)
    requires CreditInv(s)
    ensures Act(Wrapping, WrapSystem(s), Op.Receive) == WrapRun(Act(Unbounded, s, Op.Receive)) <==> ServedRight(s)
  {
    if s.ba != [] {
      var r := EndpointSpec.Receive(Unbounded, s.a.ep, s.ba[0]);
      HeadNear(s);
      ReceiveExactIff(s);
      if ServedRight(s) {
        DeliverWraps(s, r);
      }
      if Act(Wrapping, WrapSystem(s), Op.Receive) == WrapRun(Act(Unbounded, s, Op.Receive)) {
        DeliveredAlike(s, r);
      }
    }
  }

  lemma LoseSimulates(s: System)
    ensures Act(Wrapping, WrapSystem(s), Op.Lose) == WrapRun(Act(Unbounded, s, Op.Lose))
  {
    if s.ba != [] {
      WrapTail(s.ba);
    }
  }

  lemma HandleSimulates(s: System)
    ensures Act(Wrapping, WrapSystem(s), Op.Handle) == WrapRun(Act(Unbounded, s, Op.Handle))
  {
  }

  lemma OtherSimulates(s: System, op: Op)
    requires !op.Transmit? && !op.Receive?
    ensures Act(Wrapping, WrapSystem(s), op) == WrapRun(Act(Unbounded, s, op))
  {
    LoseSimulates(s);
    HandleSimulates(s);
  }

  ghost predicate StepRight(s: System, step: Step) {
    step.op.Receive? ==> ServedRight(FromEnd(step.atA, s))
  }

  /** One step of the wire system is one step of the unbounded system, wrapped, both possible
      or neither, exactly when it is not a frame whose ack is misread. */
  lemma ActSimulatesIff(s: System, op: Op)
    requires CreditInv(s)
    ensures Act(Wrapping, WrapSystem(s), op) == WrapRun(Act(Unbounded, s, op)) <==> (op.Receive? ==> ServedRight(s))
  {
    if op.Transmit? {
      TransmitSimulates(s);
    } else if op.Receive? {
      ReceiveSimulatesIff(s);
    } else {
      OtherSimulates(s, op);
    }
  }

  lemma FlipWraps(s: System)
    ensures WrapSystem(Flip(s)) == Flip(WrapSystem(s))
  {
  }

  lemma FlipInjective(s: System, t: System)
    ensures Flip(s) == Flip(t) <==> s == t
  {
    assert Flip(Flip(s)) == s && Flip(Flip(t)) == t;
  }

  lemma ApplySimulatesIff(s: System, step: Step)
    requires CreditInv(s)
    ensures Apply(Wrapping, WrapSystem(s), step) == WrapRun(Apply(Unbounded, s, step)) <==> StepRight(s, step)
  {
    ActSimulatesIff(FromEnd(step.atA, s), step.op);
    if !step.atA {
      FlipWraps(s);
      var q, r := Act(Wrapping, WrapSystem(Flip(s)), step.op), Act(Unbounded, Flip(s), step.op);
      if q.Some? && r.Some? {
        FlipWraps(r.value);
        FlipInjective(q.value, WrapSystem(r.value));
      }
    }
  }

  // ---------- whole runs ----------

  /** The one hypothesis: whenever a frame is served, its ack is read right, or the program
      exits for a full ack buffer. */
  ghost predicate RunRight(s: System, steps: seq<Step>) {
    steps == []
    || (var front, last := steps[..|steps| - 1], steps[|steps| - 1];
        RunRight(s, front)
        && (Run(Unbounded, s, front).Some? ==> StepRight(Run(Unbounded, s, front).value, last)))
  }

  lemma {:induction false} RightFront(s: System, p: seq<Step>, q: seq<Step>)
    requires RunRight(s, p + q)
    ensures RunRight(s, p)
  {
    if q == [] {
      assert p + q == p;
    } else {
      ConcatFront(p, q);
      RightFront(s, p, q[..|q| - 1]);
    }
  }

  /** The refinement: over whole runs, from the opened connection, the 22-bit system
      is the unbounded system seen through wrapping. */
  lemma {:induction false} WireRefinesUnbounded(steps: seq<Step>)
    requires RunRight(Initial(), steps)
    ensures Run(Wrapping, Initial(), steps) == WrapRun(Run(Unbounded, Initial(), steps))
    ensures Run(Unbounded, Initial(), steps).Some? ==> CreditInv(Run(Unbounded, Initial(), steps).value)
  {
    if steps == [] {
      assert WrapSystem(Initial()) == Initial();
    } else {
      var front, last := steps[..|steps| - 1], steps[|steps| - 1];
      WireRefinesUnbounded(front);
      if Run(Unbounded, Initial(), front).Some? {
        ApplySimulatesIff(Run(Unbounded, Initial(), front).value, last);
      }
    }
    if Run(Unbounded, Initial(), steps).Some? {
      CreditConservation(steps);
    }
  }

  ghost predicate Follows(steps: seq<Step>) {
    Run(Wrapping, Initial(), steps) == WrapRun(Run(Unbounded, Initial(), steps))
  }

  lemma {:induction false} FollowsOnlyIfRight(steps: seq<Step>)
    requires forall k :: 0 <= k <= |steps| ==> Follows(steps[..k])
    ensures RunRight(Initial(), steps)
  {
    if steps != [] {
      var front, last := steps[..|steps| - 1], steps[|steps| - 1];
      forall k | 0 <= k <= |front| ensures Follows(front[..k]) {
        assert front[..k] == steps[..k];
      }
      FollowsOnlyIfRight(front);
      assert front[..|front|] == front && steps[..|steps|] == steps;
      assert Follows(front) && Follows(steps);
      if Run(Unbounded, Initial(), front).Some? {
        CreditConservation(front);
        ApplySimulatesIff(Run(Unbounded, Initial(), front).value, last);
      }
    }
  }

  /** And exactly then: for every run, the 22-bit system follows the unbounded one all the way
      if and only if every ack that is served is read right. */
  lemma RunExactIff(steps: seq<Step>)
    ensures (forall k :: 0 <= k <= |steps| ==> Follows(steps[..k])) <==> RunRight(Initial(), steps)
  {
    if RunRight(Initial(), steps) {
      forall k | 0 <= k <= |steps| ensures Follows(steps[..k]) {
        assert steps == steps[..k] + steps[k..];
        RightFront(Initial(), steps[..k], steps[k..]);
        WireRefinesUnbounded(steps[..k]);
      }
    }
    if forall k :: 0 <= k <= |steps| ==> Follows(steps[..k]) {
      FollowsOnlyIfRight(steps);
    }
  }
}
