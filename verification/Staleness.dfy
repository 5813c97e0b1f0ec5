/**
 Where a stale ack can come from: every frame is stamped either afresh or with the
 oldest entry of the ack buffer. A run in which no frame is stamped 2^21 or more behind
 reads every ack right; that is a condition on one queue entry, and no run of fewer
 than 2^21 - 1 steps can fail it.
 */
module Staleness {
  import opened SeqNum
  import opened TileLinkMsg
  import opened EndpointSpec
  import opened System
  import opened Safety
  import opened Wire

  /** No ack on its way to x is half the circle behind x's window, nor would be
      after those ahead of it have been served. */
  ghost predicate AcksFresh(x: Node, yx: seq<Frame>) {
    && (forall i :: 0 <= i < |yx| ==> Base(x) - yx[i].seqNumAck < HALF_MAX_SEQ_NUM)
    && (forall i, j :: 0 <= i < j < |yx| ==> yx[i].seqNumAck + 1 - yx[j].seqNumAck < HALF_MAX_SEQ_NUM)
  }

  ghost predicate WireInv(s: System) {
    Inv(s) && AcksFresh(s.a, s.ba) && AcksFresh(s.b, s.ab)
  }

  /** What TX puts on the network acknowledges less than 2^21 frames late. Only an entry
      that has waited in the ack buffer can fail it. */
  ghost predicate StampsFresh(x: Node) {
    var t := EndpointSpec.Transmit(Unbounded, x.ep, x.pending);
    forall i :: 0 <= i < |t.frames| ==> x.ep.nextRx - t.frames[i].seqNumAck < HALF_MAX_SEQ_NUM
  }

  ghost predicate StepFresh(s: System, step: Step) {
    step.op.Transmit? ==> StampsFresh(FromEnd(step.atA, s).a)
  }

  ghost predicate RunFresh(s: System, steps: seq<Step>) {
    steps == []
    || (var front, last := steps[..|steps| - 1], steps[|steps| - 1];
        RunFresh(s, front)
        && (Run(Unbounded, s, front).Some? ==> StepFresh(Run(Unbounded, s, front).value, last)))
  }

  lemma TransmitKeepsFresh(x: Node, x': Node, y: Node, xy: seq<Frame>, yx: seq<Frame>, frames: seq<Frame>)
    requires Direction(y, x, yx, xy) && AcksFresh(x, yx) && AcksFresh(y, xy)
    requires TransmitOk(x, x', frames)
    requires forall i :: 0 <= i < |frames| ==> x.ep.nextRx - frames[i].seqNumAck < HALF_MAX_SEQ_NUM
    ensures AcksFresh(x', yx) && AcksFresh(y, xy + frames)
  {
  }

  lemma ServeKeepsFresh(x: Node, x': Node, yx: seq<Frame>)
    requires yx != [] && AcksFresh(x, yx) && ReceiveOk(x, x', yx[0], !yx[0].kind.AckOnlyFrame?)
    ensures AcksFresh(x', yx[1..])
  {
    forall i | 0 <= i < |yx| - 1 ensures Base(x') - yx[1..][i].seqNumAck < HALF_MAX_SEQ_NUM {
      assert yx[1..][i] == yx[i + 1];
    }
  }

  lemma TransmitKeepsWireInv(s: System, t: System)
    requires WireInv(s) && Act(Unbounded, s, Op.Transmit) == Some(t) && StampsFresh(s.a)
    ensures AcksFresh(t.a, t.ba) && AcksFresh(t.b, t.ab)
  {
    var out := EndpointSpec.Transmit(Unbounded, s.a.ep, s.a.pending);
    TransmitAct(s, t);
    TransmitEffect(s.a);
    TransmitKeepsFresh(s.a, t.a, s.b, s.ab, s.ba, out.frames);
  }

  lemma ReceiveKeepsWireInv(s: System, t: System)
    requires WireInv(s) && Act(Unbounded, s, Op.Receive) == Some(t)
    ensures AcksFresh(t.a, t.ba) && AcksFresh(t.b, t.ab)
  {
    ReceiveAct(s, t);
    ServeKeepsFresh(s.a, t.a, s.ba);
  }

  lemma ActKeepsWireInv(s: System, op: Op)
    requires WireInv(s) && Act(Unbounded, s, op).Some?
    requires op.Transmit? ==> StampsFresh(s.a)
    ensures WireInv(Act(Unbounded, s, op).value)
  {
    var t := Act(Unbounded, s, op).value;
    ActKeepsInv(s, op);
    if op.Transmit? {
      TransmitKeepsWireInv(s, t);
    } else if op.Receive? {
      ReceiveKeepsWireInv(s, t);
    } else {
      OtherIsQuiet(Unbounded, s, t, op);
    }
  }

  lemma FreshHeadIsRight(s: System)
    requires WireInv(s)
    ensures ServedRight(s)
  {
    if s.ba != [] && s.ba[0].seqNumAck < Base(s.a) {
      assert Unambiguous(Base(s.a) - s.ba[0].seqNumAck, Wrap(Base(s.a)) < Wrap(s.ba[0].seqNumAck));
    }
  }

  /** A run that stamps every frame freshly reads every ack right. */
  lemma {:induction false} FreshIsRight(steps: seq<Step>)
    requires RunFresh(Initial(), steps)
    ensures RunRight(Initial(), steps)
    ensures Run(Unbounded, Initial(), steps).Some? ==> WireInv(Run(Unbounded, Initial(), steps).value)
  {
    if steps != [] {
      var front, last := steps[..|steps| - 1], steps[|steps| - 1];
      FreshIsRight(front);
      if Run(Unbounded, Initial(), front).Some? {
        var at := FromEnd(last.atA, Run(Unbounded, Initial(), front).value);
        FreshHeadIsRight(at);
        if Act(Unbounded, at, last.op).Some? {
          ActKeepsWireInv(at, last.op);
        }
      }
    }
  }

  // ---------- where a stamp comes from ----------

  ghost predicate StampedBy(x: Node, f: Frame) {
    f.seqNumAck == x.ep.nextRx - 1 || (x.ep.acks != [] && f.seqNumAck == x.ep.acks[0].seqNumAck)
  }

  lemma PartsStamps(x: Node, x': Node, frames: seq<Frame>, mid: Node, late: Sent, data: seq<Frame>)
    requires Parts(x, x', frames, mid, late, data)
    ensures forall f :: f in frames ==> StampedBy(x, f)
  {
    RequestedAcksFresh(x);
    DataStepCases(x);
    TimeoutStamps(mid);
    assert mid.ep.nextRx == x.ep.nextRx;
  }

  /** A frame that TX sends acknowledges the last accepted frame, or what the oldest
      entry of the ack buffer says; the NAK bit of that entry is not copied. */
  lemma TransmitStamps(x: Node)
    ensures forall f :: f in EndpointSpec.Transmit(Unbounded, x.ep, x.pending).frames ==> StampedBy(x, f)
  {
    var mid, late, data := TransmitSplits(x);
    var t := EndpointSpec.Transmit(Unbounded, x.ep, x.pending);
    PartsStamps(x, AfterTransmit(x, t), t.frames, mid, late, data);
  }

  /** So it is enough that the oldest ack entry is less than 2^21 behind. */
  lemma FreshEntrySuffices(x: Node)
    requires x.ep.acks != [] ==> x.ep.nextRx - x.ep.acks[0].seqNumAck < HALF_MAX_SEQ_NUM
    ensures StampsFresh(x)
  {
    TransmitStamps(x);
    var t := EndpointSpec.Transmit(Unbounded, x.ep, x.pending);
    forall i | 0 <= i < |t.frames|
      ensures x.ep.nextRx - t.frames[i].seqNumAck < HALF_MAX_SEQ_NUM
    {
      assert t.frames[i] in t.frames;
    }
  }

  /** No queued ack is older than the connection. */
  ghost predicate Floor(y: Node, x: Node) {
    forall i :: 0 <= i < |y.ep.acks| ==> y.ep.acks[i].seqNumAck >= x.first - 1
  }

  ghost predicate Young(s: System, k: nat) {
    Inv(s) && Floor(s.a, s.b) && Floor(s.b, s.a) && |s.a.log| + |s.b.log| <= k
  }

  lemma TransmitKeepsYoung(s: System, t: System, k: nat, frames: seq<Frame>)
    requires Young(s, k) && TransmitOk(s.a, t.a, frames) && t.b == s.b && Inv(t)
    ensures Young(t, k + 1)
  {
    forall i | 0 <= i < |t.a.ep.acks|
      ensures t.a.ep.acks[i].seqNumAck >= s.b.first - 1
    {
      assert t.a.ep.acks[i] in s.a.ep.acks;
    }
  }

  lemma ServedKeepsYoung(s: System, t: System, k: nat)
    requires Young(s, k) && s.ba != [] && t.b == s.b && Inv(t)
    requires ReceiveOk(s.a, t.a, s.ba[0], !s.ba[0].kind.AckOnlyFrame?)
    ensures Young(t, k)
  {
    assert InFlight(s.b, s.a.ep.nextRx, s.ba[0]);
  }

  lemma TransmitYoung(s: System, t: System, k: nat)
    requires Young(s, k) && Act(Unbounded, s, Op.Transmit) == Some(t) && Inv(t)
    ensures Young(t, k + 1)
  {
    TransmitEffect(s.a);
    TransmitKeepsYoung(s, t, k, EndpointSpec.Transmit(Unbounded, s.a.ep, s.a.pending).frames);
  }

  lemma ReceiveYoung(s: System, t: System, k: nat)
    requires Young(s, k) && Act(Unbounded, s, Op.Receive) == Some(t) && Inv(t)
    ensures Young(t, k)
  {
    HeadIsAck(s);
    ReceiveEffect(s.a, s.ba[0]);
    ServedKeepsYoung(s, t, k);
  }

  lemma ActKeepsYoung(s: System, op: Op, k: nat)
    requires Young(s, k) && Act(Unbounded, s, op).Some?
    ensures Young(Act(Unbounded, s, op).value, k + 1)
  {
    var t := Act(Unbounded, s, op).value;
    ActKeepsInv(s, op);
    if op.Transmit? {
      TransmitYoung(s, t, k);
    } else if op.Receive? {
      ReceiveYoung(s, t, k);
    } else {
      OtherIsQuiet(Unbounded, s, t, op);
    }
  }

  lemma HeadIsAck(s: System)
    requires Inv(s) && s.ba != []
    ensures s.ba[0].isAck
  {
    assert InFlight(s.b, s.a.ep.nextRx, s.ba[0]);
  }

  lemma YoungIsFresh(s: System, k: nat)
    requires Young(s, k) && k < HALF_MAX_SEQ_NUM - 1
    ensures StampsFresh(s.a)
  {
    FreshEntrySuffices(s.a);
  }

  /** Runs of fewer than 2^21 - 1 steps need no hypothesis. */
  lemma {:induction false} ShortRunsAreFresh(steps: seq<Step>)
    requires |steps| < HALF_MAX_SEQ_NUM - 1
    ensures RunFresh(Initial(), steps)
    ensures Run(Unbounded, Initial(), steps).Some? ==> Young(Run(Unbounded, Initial(), steps).value, |steps|)
  {
    if steps != [] {
      var front, last := steps[..|steps| - 1], steps[|steps| - 1];
      ShortRunsAreFresh(front);
      if Run(Unbounded, Initial(), front).Some? {
        var s := Run(Unbounded, Initial(), front).value;
        var at := if last.atA then s else Flip(s);
        YoungIsFresh(at, |front|);
        if Act(Unbounded, at, last.op).Some? {
          ActKeepsYoung(at, last.op, |front|);
        }
      }
    }
  }
}
