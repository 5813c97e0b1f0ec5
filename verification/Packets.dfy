/**
 The system exchanges frames; the programs exchange bytes. Every frame that is ever
 in flight survives being packed into a packet and unpacked again, so delivering
 the packet is delivering the frame.
 */
module Packets {
  import opened SeqNum
  import opened TileLinkMsg
  import opened EndpointSpec
  import opened System
  import opened Safety
  import opened Credits
  import opened Wire
  import opened Codec

  /** Ack-only frames carry nothing but their ack. */
  ghost predicate PlainAcks(fs: seq<Frame>) {
    forall i :: 0 <= i < |fs| && fs[i].kind.AckOnlyFrame? ==> fs[i].credit == 0 && fs[i].msg.None?
  }

  ghost predicate AllNormal(fs: seq<Frame>) {
    forall i :: 0 <= i < |fs| ==> fs[i].kind.NormalFrame?
  }

  lemma TimeoutNormal(x: Node)
    requires Window(x)
    ensures AllNormal(ResendOnTimeout(Unbounded, x.ep).frames)
  {
    var r := ResendOnTimeout(Unbounded, x.ep);
    if r.frames != [] {
      ResentFromBuffer(Unbounded, x.ep.retx, x.ep.retx[0].frame.seqNum, x.ep.nextRx - 1);
    }
    forall i | 0 <= i < |r.frames| ensures r.frames[i].kind.NormalFrame? {
      assert r.frames[i] in r.frames;
    }
  }

  lemma RequestedAcksPlain(x: Node)
    ensures PlainAcks(RequestedAcks(x))
  {
  }

  lemma PartsPlain(x: Node, x': Node, frames: seq<Frame>, mid: Node, late: Sent, data: seq<Frame>)
    requires Parts(x, x', frames, mid, late, data)
    requires AllNormal(late.frames)
    ensures PlainAcks(frames)
  {
    RequestedAcksPlain(x);
    DataStepCases(x);
  }

  lemma TransmitPlain(x: Node)
    requires Window(x)
    requires forall i :: 0 <= i < |x.ep.acks| ==> x.ep.acks[i].seqNumAck < x.ep.nextRx
    ensures PlainAcks(EndpointSpec.Transmit(Unbounded, x.ep, x.pending).frames)
  {
    var mid, late, data := TransmitSplits(x);
    var t := EndpointSpec.Transmit(Unbounded, x.ep, x.pending);
    DataOk(x, mid, data);
    TimeoutNormal(mid);
    PartsPlain(x, AfterTransmit(x, t), t.frames, mid, late, data);
  }

  lemma ActKeepsPlain(s: System, t: System, op: Op)
    requires Inv(s) && Act(Unbounded, s, op) == Some(t) && PlainAcks(s.ab) && PlainAcks(s.ba)
    ensures PlainAcks(t.ab) && PlainAcks(t.ba)
  {
    if op.Transmit? {
      TransmitPlain(s.a);
    } else if op.Receive? {
      assert InFlight(s.b, s.a.ep.nextRx, s.ba[0]);
      ReceiveEffect(s.a, s.ba[0]);
      assert t.ab == s.ab;
    } else {
      OtherIsQuiet(Unbounded, s, t, op);
    }
  }

  lemma {:induction false} ReachablePlain(steps: seq<Step>)
    requires Run(Unbounded, Initial(), steps).Some?
    ensures var s := Run(Unbounded, Initial(), steps).value; PlainAcks(s.ab) && PlainAcks(s.ba)
  {
    if steps != [] {
      var front, last := steps[..|steps| - 1], steps[|steps| - 1];
      ReachablePlain(front);
      ReachableInv(front);
      var s := Run(Unbounded, Initial(), front).value;
      var at := if last.atA then s else Flip(s);
      ActKeepsPlain(at, Act(Unbounded, at, last.op).value, last.op);
    }
  }

  lemma {:induction false} PayloadOf(fs: seq<Frame>, i: nat)
    requires i < |fs| && fs[i].msg.Some?
    ensures fs[i].msg.value in Payloads(fs)
  {
    if i < |fs| - 1 {
      PayloadOf(fs[..|fs| - 1], i);
    }
  }

  /** What a log holds has been through the mask already. */
  lemma LoggedIsMasked(x: Node, i: nat)
    requires Payloads(x.log) == OnWireAll(x.sent) && i < |x.log| && x.log[i].msg.Some?
    ensures OnWire(x.log[i].msg.value) == x.log[i].msg.value
  {
    PayloadOf(x.log, i);
    var k :| 0 <= k < |x.sent| && x.log[i].msg.value == OnWire(x.sent[k]);
    OnWireIdempotent(x.sent[k]);
  }

  lemma StableMessage(f: Frame, bs: seq<byte>)
    requires f.msg.Some? ==> OnWire(f.msg.value) == f.msg.value
    requires |bs| >= 16
    requires DecodeFrame(bs) == Some(f.(msg := if f.msg.None? then None else Some(OnWire(f.msg.value))))
    ensures DecodeFrame(bs) == Some(f)
  {
  }

  lemma StableFramePasses(f: Frame)
    requires Encodable(f) && (f.msg.Some? ==> OnWire(f.msg.value) == f.msg.value)
    ensures |EncodeFrame(f)| >= 56 && DecodeFrame(EncodeFrame(f)) == Some(f)
  {
    FrameRoundTrip(f);
    StableMessage(f, EncodeFrame(f));
  }

  lemma InFlightPasses(x: Node, y: Node, g: Frame)
    requires InFlight(x, y.ep.nextRx, g) && Conserved(x, y) && Payloads(x.log) == OnWireAll(x.sent)
    requires g.kind.AckOnlyFrame? ==> g.credit == 0 && g.msg.None?
    ensures var f := WrapFrame(g); Encodable(f) && (f.msg.Some? ==> OnWire(f.msg.value) == f.msg.value)
  {
    if g.msg.Some? {
      LoggedIsMasked(x, g.seqNum - x.first);
    }
  }

  lemma ChannelPasses(x: Node, y: Node, xy: seq<Frame>, yx: seq<Frame>, f: Frame)
    requires Direction(x, y, xy, yx) && Conserved(x, y) && PlainAcks(xy) && f in WrapFrames(xy)
    ensures Encodable(f) && (f.msg.Some? ==> OnWire(f.msg.value) == f.msg.value)
  {
    var i :| 0 <= i < |xy| && f == WrapFrame(xy[i]);
    InFlightPasses(x, y, xy[i]);
  }

  /** In every state of the 22-bit system, every frame in flight fits its packet and
      is what the peer unpacks from it, message and all. */
  lemma PacketsCarryFrames(steps: seq<Step>, w: System, f: Frame)
    requires RunRight(Initial(), steps)
    requires Run(Wrapping, Initial(), steps) == Some(w) && (f in w.ab || f in w.ba)
    ensures Encodable(f) && |EncodeFrame(f)| >= 56 && DecodeFrame(EncodeFrame(f)) == Some(f)
  {
    WireRefinesUnbounded(steps);
    CreditConservation(steps);
    ReachablePlain(steps);
    var s := Run(Unbounded, Initial(), steps).value;
    if f in w.ab {
      ChannelPasses(s.a, s.b, s.ab, s.ba, f);
    } else {
      ChannelPasses(s.b, s.a, s.ba, s.ab, f);
    }
    StableFramePasses(f);
  }
}
