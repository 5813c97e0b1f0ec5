/**
 The guarantees of the protocol, for every run: stated first on unbounded numbers
 and then on the 22-bit system itself.
 */
module Delivery {
  import opened SeqNum
  import opened TileLinkMsg
  import opened FlowControl
  import opened EndpointSpec
  import opened System
  import opened Safety
  import opened Credits
  import opened Wire

  /** Buffered frames numbered at or after `nextRx`. */
  function Outstanding(n: Numbering, retx: seq<RetxElement>, nextRx: int): seq<Frame> {
    if retx == [] then []
    else
      var last := retx[|retx| - 1].frame;
      Outstanding(n, retx[..|retx| - 1], nextRx)
      + if n.Compare(last.seqNum, nextRx) < 0 then [] else [last]
  }

  /** Exactly once and in order: the messages TX has consumed are the messages the
      peer has enqueued followed by those still outstanding in the buffer. */
  ghost predicate ExactlyOnce(n: Numbering, x: Node, y: Node) {
    OnWireAll(x.sent) == y.accepted + Payloads(Outstanding(n, x.ep.retx, y.ep.nextRx))
  }

  /** The credit of channel c for sending from x to y, as the two endpoints hold it. */
  function CreditInSystem(n: Numbering, x: Node, y: Node, c: Channel): nat {
    x.ep.credits[c] + CarriedFlits(Outstanding(n, x.ep.retx, y.ep.nextRx), c) + WaitingFlits(y.ep.inbox, c)
    + y.ep.owed[c] + CarriedCredit(Outstanding(n, y.ep.retx, x.ep.nextRx), c)
  }

  // ---------- unbounded numbers ----------

  lemma {:induction false} OutstandingIsLogSuffix(retx: seq<RetxElement>, log: seq<Frame>, first: int, nextRx: int)
    requires |retx| <= |log|
    requires forall i :: 0 <= i < |log| ==> log[i].seqNum == first + i
    requires forall i :: 0 <= i < |retx| ==> retx[i].frame == log[|log| - |retx| + i]
    requires first + |log| - |retx| <= nextRx <= first + |log|
    ensures Outstanding(Unbounded, retx, nextRx) == log[nextRx - first..]
  {
    if retx != [] && nextRx < first + |log| {
      var last := |log| - 1;
      OutstandingIsLogSuffix(retx[..|retx| - 1], log[..last], first, nextRx);
      assert log[nextRx - first..] == log[..last][nextRx - first..] + [log[last]];
    } else if retx != [] {
      NothingOutstanding(retx, nextRx);
    }
  }

  lemma {:induction false} NothingOutstanding(retx: seq<RetxElement>, nextRx: int)
    requires forall i :: 0 <= i < |retx| ==> retx[i].frame.seqNum < nextRx
    ensures Outstanding(Unbounded, retx, nextRx) == []
  {
    if retx != [] {
      NothingOutstanding(retx[..|retx| - 1], nextRx);
    }
  }

  lemma {:induction false} PayloadsConcat(fs: seq<Frame>, gs: seq<Frame>)
    ensures Payloads(fs + gs) == Payloads(fs) + Payloads(gs)
  {
    if gs == [] {
      assert fs + gs == fs;
    } else {
      var last := |gs| - 1;
      PayloadsConcat(fs, gs[..last]);
      assert (fs + gs)[..|fs + gs| - 1] == fs + gs[..last];
    }
  }

  lemma OutstandingIsUnaccepted(x: Node, y: Node)
    requires Window(x) && InStep(x, y)
    ensures Outstanding(Unbounded, x.ep.retx, y.ep.nextRx) == Unaccepted(x, y)
  {
    OutstandingIsLogSuffix(x.ep.retx, x.log, x.first, y.ep.nextRx);
  }

  lemma DirectionDelivers(x: Node, y: Node, xy: seq<Frame>, yx: seq<Frame>)
    requires Direction(x, y, xy, yx)
    ensures ExactlyOnce(Unbounded, x, y)
  {
    var k := y.ep.nextRx - x.first;
    OutstandingIsUnaccepted(x, y);
    PayloadsConcat(x.log[..k], x.log[k..]);
    assert x.log == x.log[..k] + x.log[k..];
  }

  lemma CreditIsPool(s: System, c: Channel)
    requires CreditInv(s)
    ensures CreditInSystem(Unbounded, s.a, s.b, c) == Pool(s.a, s.b, c)
  {
    OutstandingIsUnaccepted(s.a, s.b);
    OutstandingIsUnaccepted(s.b, s.a);
  }

  /** Every run of the lossy system delivers exactly once, in order, both ways. */
  lemma DeliveryOnTrueNumbers(steps: seq<Step>, s: System)
    requires Run(Unbounded, Initial(), steps) == Some(s)
    ensures ExactlyOnce(Unbounded, s.a, s.b) && ExactlyOnce(Unbounded, s.b, s.a)
    ensures forall c: Channel :: 1 <= c ==>
              CreditInSystem(Unbounded, s.a, s.b, c) == CreditInSystem(Unbounded, s.b, s.a, c) == FULL_CREDIT
  {
    CreditConservation(steps);
    DirectionDelivers(s.a, s.b, s.ab, s.ba);
    DirectionDelivers(s.b, s.a, s.ba, s.ab);
    forall c: Channel | 1 <= c
      ensures CreditInSystem(Unbounded, s.a, s.b, c) == CreditInSystem(Unbounded, s.b, s.a, c) == FULL_CREDIT
    {
      CreditIsPool(s, c);
      CreditIsPool(Flip(s), c);
      assert Pool(s.a, s.b, c) == FULL_CREDIT && Pool(s.b, s.a, c) == FULL_CREDIT;
    }
  }

  // ---------- 22-bit numbers ----------

  lemma {:induction false} OutstandingWraps(retx: seq<RetxElement>, nextRx: int)
    requires forall i :: 0 <= i < |retx| ==> Near(retx[i].frame.seqNum, nextRx)
    ensures Outstanding(Wrapping, WrapRetx(retx), Wrap(nextRx)) == WrapFrames(Outstanding(Unbounded, retx, nextRx))
  {
    if retx != [] {
      var front := retx[..|retx| - 1];
      OutstandingWraps(front, nextRx);
      CmpExact(retx[|retx| - 1].frame.seqNum, nextRx);
      assert WrapRetx(retx)[..|retx| - 1] == WrapRetx(front);
    }
  }

  lemma {:induction false} ContentsOfWrapped(fs: seq<Frame>, c: Channel)
    ensures Payloads(WrapFrames(fs)) == Payloads(fs)
    ensures CarriedFlits(WrapFrames(fs), c) == CarriedFlits(fs, c)
    ensures CarriedCredit(WrapFrames(fs), c) == CarriedCredit(fs, c)
  {
    if fs != [] {
      ContentsOfWrapped(fs[..|fs| - 1], c);
      assert WrapFrames(fs)[..|fs| - 1] == WrapFrames(fs[..|fs| - 1]);
    }
  }

  lemma WrappedOutstanding(x: Node, y: Node)
    requires Window(x) && InStep(x, y)
    ensures Outstanding(Wrapping, WrapNode(x).ep.retx, WrapNode(y).ep.nextRx)
            == WrapFrames(Outstanding(Unbounded, x.ep.retx, y.ep.nextRx))
  {
    OutstandingWraps(x.ep.retx, y.ep.nextRx);
  }

  lemma ExactlyOnceWraps(x: Node, y: Node)
    requires Window(x) && InStep(x, y) && ExactlyOnce(Unbounded, x, y)
    ensures ExactlyOnce(Wrapping, WrapNode(x), WrapNode(y))
  {
    WrappedOutstanding(x, y);
    ContentsOfWrapped(Outstanding(Unbounded, x.ep.retx, y.ep.nextRx), 0);
  }

  lemma CreditWraps(x: Node, y: Node, c: Channel)
    requires Window(x) && InStep(x, y) && Window(y) && InStep(y, x)
    ensures CreditInSystem(Wrapping, WrapNode(x), WrapNode(y), c) == CreditInSystem(Unbounded, x, y, c)
  {
    WrappedOutstanding(x, y);
    WrappedOutstanding(y, x);
    ContentsOfWrapped(Outstanding(Unbounded, x.ep.retx, y.ep.nextRx), c);
    ContentsOfWrapped(Outstanding(Unbounded, y.ep.retx, x.ep.nextRx), c);
  }

  /** The same guarantees of the 22-bit system, for runs of any length in which every ack
      that is served is read right. */
  lemma DeliveryOnWire(steps: seq<Step>, w: System)
    requires RunRight(Initial(), steps)
    requires Run(Wrapping, Initial(), steps) == Some(w)
    ensures ExactlyOnce(Wrapping, w.a, w.b) && ExactlyOnce(Wrapping, w.b, w.a)
    ensures forall c: Channel :: 1 <= c ==>
              CreditInSystem(Wrapping, w.a, w.b, c) == CreditInSystem(Wrapping, w.b, w.a, c) == FULL_CREDIT
    ensures |w.a.ep.inbox| < TL_MSG_CAPACITY && |w.b.ep.inbox| < TL_MSG_CAPACITY
  {
    WireRefinesUnbounded(steps);
    var s := Run(Unbounded, Initial(), steps).value;
    DeliveryOnTrueNumbers(steps, s);
    ExactlyOnceWraps(s.a, s.b);
    ExactlyOnceWraps(s.b, s.a);
    CreditConservation(steps);
    CreditsBoundInbox(s.a, s.b);
    CreditsBoundInbox(s.b, s.a);
    forall c: Channel | 1 <= c
      ensures CreditInSystem(Wrapping, w.a, w.b, c) == CreditInSystem(Wrapping, w.b, w.a, c) == FULL_CREDIT
    {
      CreditWraps(s.a, s.b, c);
      CreditWraps(s.b, s.a, c);
    }
  }

  // ---------- the window ----------

  /** On true numbers, whatever the run and with no hypothesis on acks: a data frame that
      reaches RX is less than a window away from the expected number, so the 22-bit test
      classifies it as the true numbers would; and it is never a NAK. */
  lemma WindowSound(steps: seq<Step>, s: System)
    requires Reaches(Unbounded, steps, s) && s.ba != [] && !s.ba[0].kind.AckOnlyFrame?
    ensures s.a.ep.nextRx - WINDOW_SIZE <= s.ba[0].seqNum <= s.a.ep.nextRx + WINDOW_SIZE - 1
    ensures GetReqType(Wrapping, Wrap(s.ba[0].seqNum), Wrap(s.a.ep.nextRx))
            == GetReqType(Unbounded, s.ba[0].seqNum, s.a.ep.nextRx)
    ensures s.ba[0].isAck
  {
    ReachesCreditInv(steps, s);
    assert InFlight(s.b, s.a.ep.nextRx, s.ba[0]);
    ClassifyWraps(s.ba[0].seqNum, s.a.ep.nextRx);
  }

  /** Serving a frame frees only elements that the peer has accepted. */
  lemma FreedWasAccepted(steps: seq<Step>, s: System, i: nat)
    requires Reaches(Unbounded, steps, s) && s.ba != []
    requires i < |s.a.ep.retx| - |Slide(Unbounded, s.a.ep.retx, s.ba[0].seqNumAck)|
    ensures s.a.ep.retx[i].frame.seqNum < s.b.ep.nextRx
  {
    ReachesCreditInv(steps, s);
    SlideIsPrefixDrop(s.a.ep.retx, Base(s.a), s.ba[0].seqNumAck);
  }

  lemma ReachesWraps(steps: seq<Step>, w: System) returns (s: System)
    requires RunRight(Initial(), steps) && Reaches(Wrapping, steps, w)
    ensures Reaches(Unbounded, steps, s) && CreditInv(s) && w == WrapSystem(s)
  {
    WireRefinesUnbounded(steps);
    s := Run(Unbounded, Initial(), steps).value;
    FlipWraps(s);
    if w != WrapSystem(s) {
      s := Flip(s);
    }
  }

  /** A wrapped number `d` away from the wrapped expected one, and classified by the sign of `d`. */
  predicate ClassifiedBy(seqNum: int, nextRx: int, d: int) {
    && seqNum == Wrap(nextRx + d)
    && GetReqType(Wrapping, seqNum, nextRx) == if d == 0 then ReqNormal else if d < 0 then ReqDuplicate else ReqOos
  }

  lemma ClassifiedByDistance(seqNum: int, nextRx: int, wrapped: int, expected: int)
    requires Near(seqNum, nextRx) && wrapped == Wrap(seqNum) && expected == Wrap(nextRx)
    ensures ClassifiedBy(wrapped, expected, seqNum - nextRx)
  {
    WrapPlus(nextRx, seqNum - nextRx);
    ClassifyWraps(seqNum, nextRx);
  }

  lemma HeadOfWrapped(s: System)
    requires Inv(s) && s.ba != []
    ensures var w := WrapSystem(s);
            && w.ba != [] && w.ba[0] == WrapFrame(s.ba[0]) && w.a.ep.nextRx == Wrap(s.a.ep.nextRx)
            && s.ba[0].isAck
    ensures !s.ba[0].kind.AckOnlyFrame? ==>
              -WINDOW_SIZE <= s.ba[0].seqNum - s.a.ep.nextRx < WINDOW_SIZE
  {
    WrapTail(s.ba);
    HeadNear(s);
  }

  /** In the 22-bit system too: such a frame is `d` away from the expected number, less than
      a window either way across the wrap, and is classified by the sign of `d`. */
  lemma WindowSoundOnWire(steps: seq<Step>, w: System) returns (d: int)
    requires RunRight(Initial(), steps) && Reaches(Wrapping, steps, w)
    requires w.ba != [] && !w.ba[0].kind.AckOnlyFrame?
    ensures -WINDOW_SIZE <= d < WINDOW_SIZE && ClassifiedBy(w.ba[0].seqNum, w.a.ep.nextRx, d)
    ensures w.ba[0].isAck
  {
    var s := ReachesWraps(steps, w);
    HeadOfWrapped(s);
    var seqNum, nextRx := s.ba[0].seqNum, s.a.ep.nextRx;
    d := seqNum - nextRx;
    ClassifiedByDistance(seqNum, nextRx, w.ba[0].seqNum, w.a.ep.nextRx);
  }

  lemma HaltWraps(e: EndpointState, f: Frame)
    requires !f.kind.AckOnlyFrame? ==> Near(f.seqNum, e.nextRx)
    ensures EndpointSpec.Receive(Wrapping, WrapState(e), WrapFrame(f)).Halted? <==> EndpointSpec.Receive(Unbounded, e, f).Halted?
  {
    if !f.kind.AckOnlyFrame? {
      ClassifyWraps(f.seqNum, e.nextRx);
    }
  }

  /** The 22-bit RX of a reachable state halts exactly for a data frame that is not the next
      one when the ack buffer is full. */
  lemma HaltsOnWire(steps: seq<Step>, w: System)
    requires RunRight(Initial(), steps) && Reaches(Wrapping, steps, w) && w.ba != []
    ensures EndpointSpec.Receive(Wrapping, w.a.ep, w.ba[0]).Halted? <==> HaltsAnyway(w.a.ep, w.ba[0])
  {
    var s := ReachesWraps(steps, w);
    HaltsOnlyOnFullAckBuffer(s);
    HeadOfWrapped(s);
    HeadNear(s);
    HaltWraps(s.a.ep, s.ba[0]);
    if w.ba[0].seqNum == w.a.ep.nextRx && !s.ba[0].kind.AckOnlyFrame? {
      SameResidue(s.ba[0].seqNum, s.a.ep.nextRx);
    }
  }

  /** A frame that is served and read right frees on 22 bits what it frees on true numbers. */
  lemma ServedSlides(s: System)
    requires CreditInv(s) && s.ba != [] && ServedRight(s) && !HaltsAnyway(s.a.ep, s.ba[0])
    ensures Slide(Wrapping, WrapRetx(s.a.ep.retx), Wrap(s.ba[0].seqNumAck))
            == WrapRetx(Slide(Unbounded, s.a.ep.retx, s.ba[0].seqNumAck))
  {
    SlideExactIff(s.a.ep.retx, Base(s.a), s.ba[0].seqNumAck);
  }

  lemma ServedIsNotHalting(s: System)
    requires CreditInv(s) && s.ba != []
    requires EndpointSpec.Receive(Wrapping, WrapState(s.a.ep), WrapFrame(s.ba[0])).Received?
    ensures !HaltsAnyway(s.a.ep, s.ba[0])
  {
    HeadNear(s);
    HaltWraps(s.a.ep, s.ba[0]);
    HaltsOnlyOnFullAckBuffer(s);
  }

  lemma FreedIsDuplicate(s: System, i: nat)
    requires CreditInv(s) && s.ba != [] && ServedRight(s) && !HaltsAnyway(s.a.ep, s.ba[0])
    requires i < |s.a.ep.retx| - |Slide(Wrapping, WrapRetx(s.a.ep.retx), Wrap(s.ba[0].seqNumAck))|
    ensures GetReqType(Wrapping, Wrap(s.a.ep.retx[i].frame.seqNum), Wrap(s.b.ep.nextRx)) == ReqDuplicate
  {
    ServedSlides(s);
    SlideIsPrefixDrop(s.a.ep.retx, Base(s.a), s.ba[0].seqNumAck);
    ClassifyWraps(s.a.ep.retx[i].frame.seqNum, s.b.ep.nextRx);
  }

  /** The same of freeing on 22 bits, when the frame's ack is read right: the peer would take
      what is freed for a duplicate. */
  lemma FreedWasAcceptedOnWire(steps: seq<Step>, atA: bool, w: System, i: nat)
    requires Run(Wrapping, Initial(), steps) == Some(FromEnd(atA, w)) && w.ba != []
    requires RunRight(Initial(), steps + [Step(atA, Op.Receive)])
    requires EndpointSpec.Receive(Wrapping, w.a.ep, w.ba[0]).Received?
    requires i < |w.a.ep.retx| - |Slide(Wrapping, w.a.ep.retx, w.ba[0].seqNumAck)|
    ensures GetReqType(Wrapping, w.a.ep.retx[i].frame.seqNum, w.b.ep.nextRx) == ReqDuplicate
  {
    var all := steps + [Step(atA, Op.Receive)];
    assert all[..|all| - 1] == steps;
    var s := BehindWire(steps, atA, w);
    HeadOfWrapped(s);
    ServedIsNotHalting(s);
    FreedIsDuplicate(s, i);
  }

  /** The unbounded state behind a 22-bit one, seen from the same end. */
  lemma BehindWire(steps: seq<Step>, atA: bool, w: System) returns (s: System)
    requires RunRight(Initial(), steps) && Run(Wrapping, Initial(), steps) == Some(FromEnd(atA, w))
    ensures Run(Unbounded, Initial(), steps) == Some(FromEnd(atA, s)) && w == WrapSystem(s) && CreditInv(s)
  {
    WireRefinesUnbounded(steps);
    s := FromEnd(atA, Run(Unbounded, Initial(), steps).value);
    FlipWraps(s);
    FlipWraps(Flip(s));
  }
}
