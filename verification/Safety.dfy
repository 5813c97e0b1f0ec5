/**
 What holds in every reachable state of the two-endpoint system when sequence
 numbers are unbounded, whatever frames are lost: the sliding window, the
 order of frames in flight, and exactly-once delivery in order.
 */
module Safety {
  import opened SeqNum
  import opened TileLinkMsg
  import opened FlowControl
  import opened EndpointSpec
  import opened System

  /** Oldest sequence number still in the retransmit buffer. */
  function Base(x: Node): int {
    x.ep.nextTx - |x.ep.retx|
  }

  /** The buffer is the last |retx| frames of the log, at most a window of them. */
  ghost predicate Window(x: Node) {
    && |x.ep.retx| <= WINDOW_SIZE
    && |x.ep.retx| <= |x.log|
    && x.ep.nextTx == x.first + |x.log|
    && (forall i :: 0 <= i < |x.log| ==>
          x.log[i].seqNum == x.first + i && x.log[i].kind.NormalFrame? && x.log[i].isAck)
    && (forall i :: 0 <= i < |x.ep.retx| ==> x.ep.retx[i].frame == x.log[|x.log| - |x.ep.retx| + i])
  }

  /** Nothing the receiver still lacks has left the sender's buffer. */
  predicate InStep(x: Node, y: Node) {
    Base(x) <= y.ep.nextRx <= x.ep.nextTx
  }

  /** A frame of x on its way to a receiver at `nextRx`: an ack, or a frame of the
      log with another ack number, at most a window behind. */
  ghost predicate InFlight(x: Node, nextRx: int, f: Frame) {
    && f.isAck
    && (f.kind.AckOnlyFrame?
        || (&& x.first <= f.seqNum < x.first + |x.log|
            && nextRx <= f.seqNum + WINDOW_SIZE
            && f == x.log[f.seqNum - x.first].(seqNumAck := f.seqNumAck)))
  }

  /** Later data frames are never a window or more behind earlier ones. */
  ghost predicate NoneFarBehind(fs: seq<Frame>) {
    forall i, j :: 0 <= i < j < |fs| && !fs[i].kind.AckOnlyFrame? && !fs[j].kind.AckOnlyFrame? ==>
                     fs[i].seqNum < fs[j].seqNum + WINDOW_SIZE
  }

  ghost predicate ChannelOk(x: Node, y: Node, xy: seq<Frame>) {
    && (forall i :: 0 <= i < |xy| ==> InFlight(x, y.ep.nextRx, xy[i]))
    && NoneFarBehind(xy)
  }

  /** y only acknowledges what it has accepted. */
  ghost predicate AcksBelow(y: Node, yx: seq<Frame>) {
    && (forall i :: 0 <= i < |yx| ==> yx[i].seqNumAck < y.ep.nextRx)
    && (forall i :: 0 <= i < |y.ep.acks| ==> y.ep.acks[i].seqNumAck < y.ep.nextRx)
  }

  /** What y has accepted is what the log of x holds below y's next number, and the
      log holds what TX has consumed. */
  ghost predicate Delivered(x: Node, y: Node) {
    && 0 <= y.ep.nextRx - x.first <= |x.log|
    && y.accepted == Payloads(x.log[..y.ep.nextRx - x.first])
    && Payloads(x.log) == OnWireAll(x.sent)
  }

  ghost predicate Direction(x: Node, y: Node, xy: seq<Frame>, yx: seq<Frame>) {
    Window(x) && InStep(x, y) && ChannelOk(x, y, xy) && AcksBelow(y, yx) && Delivered(x, y)
  }

  ghost predicate Inv(s: System) {
    Direction(s.a, s.b, s.ab, s.ba) && Direction(s.b, s.a, s.ba, s.ab)
  }

  // ---------- the buffer operations ----------

  /** Number of elements of a buffer that starts at `base` which `ack` covers. */
  function Covered(base: int, len: nat, ack: int): nat {
    if ack < base then 0 else if ack >= base + len then len else ack + 1 - base
  }

  ghost predicate Consecutive(retx: seq<RetxElement>, base: int) {
    forall i :: 0 <= i < |retx| ==> retx[i].frame.seqNum == base + i
  }

  /** slide_window removes precisely the elements up to the ack. */
  lemma {:induction false} SlideIsPrefixDrop(retx: seq<RetxElement>, base: int, ack: int)
    requires Consecutive(retx, base)
    ensures Slide(Unbounded, retx, ack) == retx[Covered(base, |retx|, ack)..]
  {
    if retx != [] && base <= ack {
      SlideIsPrefixDrop(retx[1..], base + 1, ack);
    }
  }

  /** A resent frame is a buffered frame with the given ack number. */
  lemma {:induction false} ResentFromBuffer(n: Numbering, retx: seq<RetxElement>, from: int, ack: int)
    ensures forall f :: f in ResentFrames(n, retx, from, ack) ==>
              exists i :: 0 <= i < |retx| && f == retx[i].frame.(seqNumAck := ack)
  {
    if retx != [] {
      var front := retx[..|retx| - 1];
      ResentFromBuffer(n, front, from, ack);
      forall f | f in ResentFrames(n, retx, from, ack)
        ensures exists i :: 0 <= i < |retx| && f == retx[i].frame.(seqNumAck := ack)
      {
        if f in ResentFrames(n, front, from, ack) {
          var i :| 0 <= i < |front| && f == front[i].frame.(seqNumAck := ack);
          assert f == retx[i].frame.(seqNumAck := ack);
        } else {
          assert f == retx[|retx| - 1].frame.(seqNumAck := ack);
        }
      }
    }
  }

  /** Go-back-N: after the window has slid for `ack`, resending from the number
      after `ack` sends every element that is left, in order, each as it was
      first sent except for the ack number. */
  lemma {:induction false} SlideThenResend(retx: seq<RetxElement>, base: int, ack: int, newAck: int)
    requires Consecutive(retx, base)
    ensures var left := Slide(Unbounded, retx, ack);
            ResentFrames(Unbounded, left, ack + 1, newAck)
            == seq(|left|, i requires 0 <= i < |left| => left[i].frame.(seqNumAck := newAck))
  {
    SlideIsPrefixDrop(retx, base, ack);
    var k := Covered(base, |retx|, ack);
    ResentAll(retx[k..], base + k, ack + 1, newAck);
  }

  lemma {:induction false} ResentAll(retx: seq<RetxElement>, base: int, from: int, ack: int)
    requires Consecutive(retx, base) && (retx != [] ==> from <= base)
    ensures ResentFrames(Unbounded, retx, from, ack)
            == seq(|retx|, i requires 0 <= i < |retx| => retx[i].frame.(seqNumAck := ack))
  {
    if retx != [] {
      ResentAll(retx[..|retx| - 1], base, from, ack);
    }
  }

  // ---------- one call ----------

  /** What TX does to a node and what it puts on the network. */
  ghost predicate TransmitOk(x: Node, x': Node, frames: seq<Frame>) {
    && Window(x') && x'.first == x.first && Base(x') == Base(x)
    && x'.ep.nextRx == x.ep.nextRx && x'.accepted == x.accepted
    && (x'.log == x.log || (exists f :: x'.log == x.log + [f]))
    && (forall i :: 0 <= i < |x'.ep.acks| ==> x'.ep.acks[i] in x.ep.acks)
    && (forall i :: 0 <= i < |frames| ==>
          InFlight(x', Base(x'), frames[i]) && frames[i].seqNumAck < x.ep.nextRx
          && (!frames[i].kind.AckOnlyFrame? ==> frames[i].seqNum >= Base(x)))
  }

  /** Whatever the timeout resends acknowledges the last accepted number. */
  lemma TimeoutStamps(x: Node)
    ensures forall f :: f in ResendOnTimeout(Unbounded, x.ep).frames ==> f.seqNumAck == x.ep.nextRx - 1
  {
    if x.ep.retx != [] {
      ResentFromBuffer(Unbounded, x.ep.retx, x.ep.retx[0].frame.seqNum, x.ep.nextRx - 1);
    }
  }

  lemma RestampedWindow(x: Node, e: EndpointState)
    requires Window(x) && e.nextTx == x.ep.nextTx && |e.retx| == |x.ep.retx|
    requires forall i :: 0 <= i < |e.retx| ==> e.retx[i].frame == x.ep.retx[i].frame
    ensures Window(x.(ep := e)) && Base(x.(ep := e)) == Base(x)
  {
  }

  lemma ResentInFlight(x: Node, f: Frame)
    requires Window(x) && exists i :: 0 <= i < |x.ep.retx| && f == x.ep.retx[i].frame.(seqNumAck := f.seqNumAck)
    ensures InFlight(x, Base(x), f) && f.seqNum >= Base(x)
  {
  }

  lemma ResendOk(x: Node)
    requires Window(x)
    ensures var r := ResendOnTimeout(Unbounded, x.ep);
            TransmitOk(x, x.(ep := r.state), r.frames)
  {
    var r := ResendOnTimeout(Unbounded, x.ep);
    RestampedWindow(x, r.state);
    forall i | 0 <= i < |r.frames|
      ensures InFlight(x.(ep := r.state), Base(x.(ep := r.state)), r.frames[i]) && r.frames[i].seqNum >= Base(x)
      ensures r.frames[i].seqNumAck < x.ep.nextRx
    {
      LateFrameOk(x, r.frames[i]);
    }
  }

  lemma LateFrameOk(x: Node, f: Frame)
    requires Window(x) && f in ResendOnTimeout(Unbounded, x.ep).frames
    ensures InFlight(x, Base(x), f) && f.seqNum >= Base(x) && f.seqNumAck < x.ep.nextRx
  {
    TimeoutStamps(x);
    ResentFromBuffer(Unbounded, x.ep.retx, x.ep.retx[0].frame.seqNum, x.ep.nextRx - 1);
    ResentInFlight(x, f);
  }

  /** The state in which TX builds its frame: only the ack flags differ from `x`. */
  function BeforeData(x: Node): EndpointState {
    SendHalfTimeoutAck(Unbounded, SendRequestedAck(Unbounded, x.ep).state).state
  }

  function DataStep(x: Node): Transmitted {
    SendData(Unbounded, BeforeData(x), x.pending, MaxChannel(x.ep.owed, CHANNEL_NUM))
  }

  lemma {:induction false} PayloadsAppend(fs: seq<Frame>, f: Frame)
    ensures Payloads(fs + [f]) == Payloads(fs) + if f.msg.Some? then [f.msg.value] else []
  {
    assert (fs + [f])[..|fs|] == fs;
  }

  lemma {:induction false} OnWireAppend(ms: seq<TlMsg>, m: TlMsg)
    ensures OnWireAll(ms + [m]) == OnWireAll(ms) + [OnWire(m)]
  {
    assert (ms + [m])[..|ms|] == ms;
  }

  /** A data step either leaves the node alone but for its ack flags, or logs,
      buffers and sends one frame. */
  ghost predicate DataSent(x: Node, x': Node, f: Frame) {
    && x'.first == x.first && x'.log == x.log + [f] && x'.accepted == x.accepted
    && x'.ep.nextRx == x.ep.nextRx && x'.ep.nextTx == x.ep.nextTx + 1
    && x'.ep.acks == (if x.ep.acks == [] then [] else x.ep.acks[1..])
    && |x.ep.retx| < WINDOW_SIZE
    && |x'.ep.retx| == |x.ep.retx| + 1
    && x'.ep.retx == x.ep.retx + [RetxElement(f, x.ep.now)]
    && f.kind.NormalFrame? && f.isAck && f.seqNum == x.ep.nextTx
    && f.seqNumAck == (if x.ep.acks == [] then x.ep.nextRx - 1 else x.ep.acks[0].seqNumAck)
    && x'.sent == (if f.msg.Some? && x.pending.Some? then x.sent + [x.pending.value] else x.sent)
    && (f.msg.Some? ==> x.pending.Some? && f.msg.value == OnWire(x.pending.value))
  }

  /** The ack stage leaves all but two flags and a counter alone. */
  lemma BeforeDataSame(x: Node)
    ensures var e := BeforeData(x);
            && e == x.ep.(sendAckOnly := e.sendAckOnly, ackOnlySent := e.ackOnlySent, stats := e.stats)
  {
  }

  lemma DataStepIdle(x: Node, e: EndpointState, chan: Channel)
    requires chan != 0 ==> e.owed[chan] > 0
    requires NothingToSend(e, x.pending, chan) && |e.retx| == |x.ep.retx|
    ensures var d := SendData(Unbounded, e, x.pending, chan);
            d.frames == [] && AfterTransmit(x, d) == x.(ep := e)
  {
  }

  lemma DataStepSends(x: Node, e: EndpointState, chan: Channel)
    requires chan != 0 ==> e.owed[chan] > 0
    requires !NothingToSend(e, x.pending, chan)
    requires e.retx == x.ep.retx && e.nextTx == x.ep.nextTx && e.nextRx == x.ep.nextRx && e.acks == x.ep.acks
             && e.now == x.ep.now
    ensures var d := SendData(Unbounded, e, x.pending, chan);
            |d.frames| == 1 && DataSent(x, AfterTransmit(x, d), d.frames[0])
  {
  }

  lemma DataStepCases(x: Node)
    ensures var d := DataStep(x);
            var x' := AfterTransmit(x, d);
            || (d.frames == [] && x' == x.(ep := BeforeData(x)))
            || (|d.frames| == 1 && DataSent(x, x', d.frames[0]))
  {
    var chan := MaxChannel(x.ep.owed, CHANNEL_NUM);
    BeforeDataSame(x);
    if NothingToSend(BeforeData(x), x.pending, chan) {
      DataStepIdle(x, BeforeData(x), chan);
    } else {
      DataStepSends(x, BeforeData(x), chan);
    }
  }

  lemma DataSentWindow(x: Node, x': Node, f: Frame)
    requires Window(x) && DataSent(x, x', f)
    ensures Window(x') && Base(x') == Base(x)
  {
    forall i | 0 <= i < |x'.log|
      ensures x'.log[i].seqNum == x'.first + i && x'.log[i].kind.NormalFrame? && x'.log[i].isAck
    {
      if i < |x.log| { assert x'.log[i] == x.log[i]; }
    }
    var low, low' := |x.log| - |x.ep.retx|, |x'.log| - |x'.ep.retx|;
    forall i | 0 <= i < |x'.ep.retx|
      ensures x'.ep.retx[i].frame == x'.log[low' + i]
    {
      if i < |x.ep.retx| { assert x'.ep.retx[i].frame == x.log[low + i]; }
    }
  }

  lemma DataSentPayloads(x: Node, x': Node, f: Frame)
    requires DataSent(x, x', f) && Payloads(x.log) == OnWireAll(x.sent)
    ensures Payloads(x'.log) == OnWireAll(x'.sent)
  {
    PayloadsAppend(x.log, f);
    if f.msg.Some? {
      OnWireAppend(x.sent, x.pending.value);
    }
  }

  lemma DataSentOk(x: Node, x': Node, f: Frame)
    requires Window(x) && DataSent(x, x', f)
    requires forall i :: 0 <= i < |x.ep.acks| ==> x.ep.acks[i].seqNumAck < x.ep.nextRx
    ensures TransmitOk(x, x', [f])
  {
    DataSentWindow(x, x', f);
    assert InFlight(x', Base(x'), f) by { assert x'.log[f.seqNum - x.first] == f; }
  }

  lemma DataOk(x: Node, x': Node, frames: seq<Frame>)
    requires Window(x)
    requires forall i :: 0 <= i < |x.ep.acks| ==> x.ep.acks[i].seqNumAck < x.ep.nextRx
    requires x' == AfterTransmit(x, DataStep(x)) && frames == DataStep(x).frames
    ensures TransmitOk(x, x', frames)
    ensures Payloads(x.log) == OnWireAll(x.sent) ==> Payloads(x'.log) == OnWireAll(x'.sent)
  {
    DataStepCases(x);
    if |frames| == 1 {
      DataSentOk(x, x', frames[0]);
      if Payloads(x.log) == OnWireAll(x.sent) {
        DataSentPayloads(x, x', frames[0]);
      }
      assert frames == [frames[0]];
    } else {
      assert BeforeData(x).retx == x.ep.retx;
    }
  }

  function RequestedAcks(x: Node): seq<Frame> {
    SendRequestedAck(Unbounded, x.ep).frames
    + SendHalfTimeoutAck(Unbounded, SendRequestedAck(Unbounded, x.ep).state).frames
  }

  ghost predicate FreshAcks(x: Node, acks: seq<Frame>) {
    forall i :: 0 <= i < |acks| ==>
      acks[i].kind.AckOnlyFrame? && acks[i].isAck && acks[i].seqNumAck == x.ep.nextRx - 1
  }

  lemma RequestedAcksFresh(x: Node)
    ensures FreshAcks(x, RequestedAcks(x))
  {
  }

  /** TX is the requested acks, the data step, and then the timeout. */
  ghost predicate Parts(x: Node, x': Node, frames: seq<Frame>, mid: Node, late: Sent, data: seq<Frame>) {
    && mid == AfterTransmit(x, DataStep(x)) && data == DataStep(x).frames
    && late == ResendOnTimeout(Unbounded, mid.ep)
    && x' == mid.(ep := late.state)
    && frames == RequestedAcks(x) + data + late.frames
  }

  lemma TransmitSplits(x: Node) returns (mid: Node, late: Sent, data: seq<Frame>)
    ensures var t := EndpointSpec.Transmit(Unbounded, x.ep, x.pending);
            Parts(x, AfterTransmit(x, t), t.frames, mid, late, data)
  {
    data := DataStep(x).frames;
    mid := AfterTransmit(x, DataStep(x));
    late := ResendOnTimeout(Unbounded, mid.ep);
  }

  lemma PartsOk(x: Node, x': Node, frames: seq<Frame>, mid: Node, late: Sent, data: seq<Frame>)
    requires Window(x)
    requires forall i :: 0 <= i < |x.ep.acks| ==> x.ep.acks[i].seqNumAck < x.ep.nextRx
    requires Parts(x, x', frames, mid, late, data)
    ensures TransmitOk(x, x', frames)
    ensures Payloads(x.log) == OnWireAll(x.sent) ==> Payloads(x'.log) == OnWireAll(x'.sent)
  {
    DataOk(x, mid, data);
    ResendOk(mid);
    RequestedAcksFresh(x);
    Chain(x, mid, late.state, RequestedAcks(x), data, late.frames);
  }

  lemma TransmitEffect(x: Node)
    requires Window(x)
    requires forall i :: 0 <= i < |x.ep.acks| ==> x.ep.acks[i].seqNumAck < x.ep.nextRx
    ensures var t := EndpointSpec.Transmit(Unbounded, x.ep, x.pending);
            var x' := AfterTransmit(x, t);
            TransmitOk(x, x', t.frames)
            && (Payloads(x.log) == OnWireAll(x.sent) ==> Payloads(x'.log) == OnWireAll(x'.sent))
  {
    var mid, late, data := TransmitSplits(x);
    var t := EndpointSpec.Transmit(Unbounded, x.ep, x.pending);
    PartsOk(x, AfterTransmit(x, t), t.frames, mid, late, data);
  }

  lemma Chain(x: Node, mid: Node, e: EndpointState, acks: seq<Frame>, data: seq<Frame>, late: seq<Frame>)
    requires TransmitOk(x, mid, data)
    requires TransmitOk(mid, mid.(ep := e), late)
    requires FreshAcks(x, acks)
    ensures TransmitOk(x, mid.(ep := e), acks + data + late)
  {
  }

  /** x, the receiver of data from y, after it has served the frame f. */
  ghost predicate ReceiveOk(x: Node, x': Node, f: Frame, data: bool) {
    && x'.first == x.first && x'.log == x.log && x'.sent == x.sent
    && x'.ep.nextTx == x.ep.nextTx
    && x'.ep.retx == x.ep.retx[Covered(Base(x), |x.ep.retx|, f.seqNumAck)..]
    && (if data && f.seqNum == x.ep.nextRx then
          && x'.ep.nextRx == x.ep.nextRx + 1 && x'.ep.acks == x.ep.acks
          && x'.accepted == (if f.msg.Some? then x.accepted + [f.msg.value] else x.accepted)
        else
          && x'.ep.nextRx == x.ep.nextRx && x'.accepted == x.accepted
          && (if !data then x'.ep.acks == x.ep.acks
              else exists e :: x'.ep.acks == x.ep.acks + [e] && e.seqNumAck
                               == if f.seqNum < x.ep.nextRx then f.seqNum else x.ep.nextRx - 1))
  }

  lemma ReceiveEffect(x: Node, f: Frame)
    requires Window(x) && f.isAck
    requires EndpointSpec.Receive(Unbounded, x.ep, f).Received?
    ensures var r := EndpointSpec.Receive(Unbounded, x.ep, f);
            r.frames == [] && ReceiveOk(x, AfterReceive(x, r.state), f, !f.kind.AckOnlyFrame?)
  {
    SlideIsPrefixDrop(x.ep.retx, Base(x), f.seqNumAck);
    var served := ServeAck(Unbounded, x.ep, f).state;
    var x' := AfterReceive(x, EndpointSpec.Receive(Unbounded, x.ep, f).state);
    if !f.kind.AckOnlyFrame? && f.seqNum != x.ep.nextRx {
      var e := x'.ep.acks[|x'.ep.acks| - 1];
      assert x'.ep.acks == x.ep.acks + [e];
    }
  }

  lemma ReceivedDelivers(y: Node, x: Node, x': Node, f: Frame)
    requires Delivered(y, x) && InFlight(y, x.ep.nextRx, f)
    requires ReceiveOk(x, x', f, !f.kind.AckOnlyFrame?)
    ensures Delivered(y, x')
  {
    if !f.kind.AckOnlyFrame? && f.seqNum == x.ep.nextRx {
      NextDelivers(y, x, x', f);
    }
  }

  lemma NextDelivers(y: Node, x: Node, x': Node, f: Frame)
    requires Delivered(y, x) && InFlight(y, x.ep.nextRx, f) && !f.kind.AckOnlyFrame? && f.seqNum == x.ep.nextRx
    requires x'.ep.nextRx == x.ep.nextRx + 1
    requires x'.accepted == if f.msg.Some? then x.accepted + [f.msg.value] else x.accepted
    ensures Delivered(y, x')
  {
    PayloadsGrow(y.log, x.ep.nextRx - y.first);
  }

  lemma PayloadsGrow(log: seq<Frame>, k: nat)
    requires k < |log|
    ensures Payloads(log[..k + 1]) == Payloads(log[..k]) + if log[k].msg.Some? then [log[k].msg.value] else []
  {
    assert log[..k + 1] == log[..k] + [log[k]];
    PayloadsAppend(log[..k], log[k]);
  }

  lemma ReceivedChannel(y: Node, x: Node, x': Node, yx: seq<Frame>)
    requires yx != [] && ChannelOk(y, x, yx)
    requires ReceiveOk(x, x', yx[0], !yx[0].kind.AckOnlyFrame?)
    ensures ChannelOk(y, x', yx[1..])
  {
    forall i | 0 <= i < |yx| - 1 ensures InFlight(y, x'.ep.nextRx, yx[1..][i]) {
      assert InFlight(y, x.ep.nextRx, yx[i + 1]);
    }
  }

  lemma ReceiverKeeps(y: Node, x: Node, x': Node, yx: seq<Frame>)
    requires yx != [] && Direction(y, x, yx, [])
    requires ReceiveOk(x, x', yx[0], !yx[0].kind.AckOnlyFrame?)
    ensures Direction(y, x', yx[1..], [])
  {
    assert InFlight(y, x.ep.nextRx, yx[0]);
    ReceivedDelivers(y, x, x', yx[0]);
    ReceivedChannel(y, x, x', yx);
  }

  lemma SlidWindow(x: Node, x': Node, y: Node, f: Frame)
    requires Window(x) && InStep(x, y) && f.seqNumAck < y.ep.nextRx
    requires ReceiveOk(x, x', f, !f.kind.AckOnlyFrame?)
    ensures Window(x') && InStep(x', y)
  {
    var k := Covered(Base(x), |x.ep.retx|, f.seqNumAck);
    assert x'.ep.retx == x.ep.retx[k..];
  }

  lemma SameLogChannel(x: Node, x': Node, y: Node, xy: seq<Frame>)
    requires ChannelOk(x, y, xy) && x'.first == x.first && x'.log == x.log
    ensures ChannelOk(x', y, xy)
  {
    forall i | 0 <= i < |xy| ensures InFlight(x', y.ep.nextRx, xy[i]) {
      assert InFlight(x, y.ep.nextRx, xy[i]);
    }
  }

  lemma SenderKeeps(x: Node, x': Node, y: Node, xy: seq<Frame>, yx: seq<Frame>)
    requires yx != [] && Direction(x, y, xy, yx)
    requires ReceiveOk(x, x', yx[0], !yx[0].kind.AckOnlyFrame?)
    ensures Direction(x', y, xy, yx[1..])
  {
    SlidWindow(x, x', y, yx[0]);
    SameLogChannel(x, x', y, xy);
  }

  /** The acks x issues stay below what it has accepted. */
  lemma IssuerKeeps(y: Node, x: Node, x': Node, f: Frame, yx: seq<Frame>, xy: seq<Frame>)
    requires ReceiveOk(x, x', f, !f.kind.AckOnlyFrame?) && AcksBelow(x, xy)
    ensures AcksBelow(x', xy)
  {
  }

  lemma TransmitterChannel(x: Node, x': Node, y: Node, xy: seq<Frame>, frames: seq<Frame>)
    requires Window(x) && InStep(x, y) && ChannelOk(x, y, xy) && TransmitOk(x, x', frames)
    ensures ChannelOk(x', y, xy + frames)
  {
    forall i | 0 <= i < |xy|
      ensures InFlight(x', y.ep.nextRx, xy[i])
    {
      assert InFlight(x, y.ep.nextRx, xy[i]);
    }
    forall i | 0 <= i < |frames|
      ensures InFlight(x', y.ep.nextRx, frames[i])
    {
      assert InFlight(x', Base(x'), frames[i]);
    }
    var all := xy + frames;
    forall i, j | 0 <= i < j < |all| && !all[i].kind.AckOnlyFrame? && !all[j].kind.AckOnlyFrame?
      ensures all[i].seqNum < all[j].seqNum + WINDOW_SIZE
    {
      if j >= |xy| {
        assert all[j] == frames[j - |xy|];
        assert InFlight(x', y.ep.nextRx, all[i]);
      }
    }
  }

  lemma TransmitterKeeps(x: Node, x': Node, y: Node, xy: seq<Frame>, yx: seq<Frame>, frames: seq<Frame>)
    requires Direction(x, y, xy, yx) && TransmitOk(x, x', frames)
    requires Payloads(x'.log) == OnWireAll(x'.sent)
    ensures Direction(x', y, xy + frames, yx)
  {
    TransmitterChannel(x, x', y, xy, frames);
    var k := y.ep.nextRx - x.first;
    assert x'.log[..k] == x.log[..k];
  }

  lemma TransmitterAcks(x: Node, x': Node, y: Node, xy: seq<Frame>, yx: seq<Frame>, frames: seq<Frame>)
    requires Direction(y, x, yx, xy) && TransmitOk(x, x', frames)
    ensures Direction(y, x', yx, xy + frames)
  {
  }

  lemma TransmitAct(s: System, t: System)
    requires Act(Unbounded, s, Op.Transmit) == Some(t)
    ensures var out := EndpointSpec.Transmit(Unbounded, s.a.ep, s.a.pending);
            t == s.(a := AfterTransmit(s.a, out), ab := s.ab + out.frames)
  {
  }

  lemma ReceiveUnfolds(s: System, t: System)
    requires Act(Unbounded, s, Op.Receive) == Some(t)
    ensures s.ba != [] && EndpointSpec.Receive(Unbounded, s.a.ep, s.ba[0]).Received?
    ensures var r := EndpointSpec.Receive(Unbounded, s.a.ep, s.ba[0]);
            t == s.(a := AfterReceive(s.a, r.state), ba := s.ba[1..], ab := s.ab + r.frames)
  {
  }

  lemma AckSendsNothing(n: Numbering, e: EndpointState, f: Frame)
    requires f.isAck && EndpointSpec.Receive(n, e, f).Received?
    ensures EndpointSpec.Receive(n, e, f).frames == []
  {
  }

  lemma ReceiveAct(s: System, t: System)
    requires Inv(s) && Act(Unbounded, s, Op.Receive) == Some(t)
    ensures s.ba != [] && t.ba == s.ba[1..] && t.b == s.b && t.ab == s.ab
    ensures ReceiveOk(s.a, t.a, s.ba[0], !s.ba[0].kind.AckOnlyFrame?)
  {
    ReceiveUnfolds(s, t);
    assert InFlight(s.b, s.a.ep.nextRx, s.ba[0]);
    AckSendsNothing(Unbounded, s.a.ep, s.ba[0]);
    ReceiveEffect(s.a, s.ba[0]);
  }

  lemma TransmitKeepsInv(s: System, t: System)
    requires Inv(s) && Act(Unbounded, s, Op.Transmit) == Some(t)
    ensures Inv(t)
  {
    var out := EndpointSpec.Transmit(Unbounded, s.a.ep, s.a.pending);
    TransmitAct(s, t);
    TransmitEffect(s.a);
    TransmitterKeeps(s.a, t.a, s.b, s.ab, s.ba, out.frames);
    TransmitterAcks(s.a, t.a, s.b, s.ab, s.ba, out.frames);
  }

  lemma ServedKeepsInv(s: System, t: System)
    requires Inv(s) && s.ba != []
    requires ReceiveOk(s.a, t.a, s.ba[0], !s.ba[0].kind.AckOnlyFrame?)
    requires t.b == s.b && t.ab == s.ab && t.ba == s.ba[1..]
    ensures Inv(t)
  {
    SenderKeeps(s.a, t.a, s.b, s.ab, s.ba);
    assert Direction(s.b, s.a, s.ba, []);
    ReceiverKeeps(s.b, s.a, t.a, s.ba);
    IssuerKeeps(s.b, s.a, t.a, s.ba[0], s.ba, s.ab);
  }

  lemma ReceiveKeepsInv(s: System, t: System)
    requires Inv(s) && Act(Unbounded, s, Op.Receive) == Some(t)
    ensures Inv(t)
  {
    ReceiveEffect(s.a, s.ba[0]);
    assert t.ab == s.ab;
    ServedKeepsInv(s, t);
  }

  /** What every step but TX and RX leaves alone. */
  predicate SameTransport(x: Node, x': Node) {
    && x'.first == x.first && x'.log == x.log && x'.sent == x.sent && x'.accepted == x.accepted
    && x'.ep.nextTx == x.ep.nextTx && x'.ep.nextRx == x.ep.nextRx
    && x'.ep.acks == x.ep.acks && x'.ep.retx == x.ep.retx
  }

  predicate Quiet(s: System, t: System) {
    SameTransport(s.a, t.a) && t.b == s.b && t.ab == s.ab && (t.ba == s.ba || (s.ba != [] && t.ba == s.ba[1..]))
  }

  lemma OtherIsQuiet(n: Numbering, s: System, t: System, op: Op)
    requires Act(n, s, op) == Some(t)
    requires !op.Transmit? && !op.Receive?
    ensures Quiet(s, t)
  {
  }

  lemma SameSender(x: Node, x': Node, y: Node, xy: seq<Frame>, yx: seq<Frame>)
    requires Direction(x, y, xy, yx) && SameTransport(x, x')
    ensures Direction(x', y, xy, yx)
  {
    SameLogChannel(x, x', y, xy);
  }

  lemma SameReceiver(x: Node, y: Node, y': Node, xy: seq<Frame>, yx: seq<Frame>)
    requires Direction(x, y, xy, yx) && SameTransport(y, y')
    ensures Direction(x, y', xy, yx)
  {
  }

  lemma LosingKeeps(x: Node, y: Node, xy: seq<Frame>, yx: seq<Frame>)
    requires Direction(x, y, xy, yx)
    ensures xy != [] ==> Direction(x, y, xy[1..], yx)
    ensures yx != [] ==> Direction(x, y, xy, yx[1..])
  {
  }

  lemma QuietKeepsInv(s: System, t: System)
    requires Inv(s) && Quiet(s, t)
    ensures Inv(t)
  {
    SameSender(s.a, t.a, s.b, s.ab, s.ba);
    SameReceiver(s.b, s.a, t.a, s.ba, s.ab);
    LosingKeeps(t.a, s.b, s.ab, s.ba);
    LosingKeeps(s.b, t.a, s.ba, s.ab);
  }

  lemma ActKeepsInv(s: System, op: Op)
    requires Inv(s) && Act(Unbounded, s, op).Some?
    ensures Inv(Act(Unbounded, s, op).value)
  {
    var t := Act(Unbounded, s, op).value;
    if op.Transmit? {
      TransmitKeepsInv(s, t);
    } else if op.Receive? {
      ReceiveKeepsInv(s, t);
    } else {
      OtherIsQuiet(Unbounded, s, t, op);
      QuietKeepsInv(s, t);
    }
  }

  /** Every reachable state of the lossy system satisfies the invariant. */
  lemma {:induction false} ReachableInv(steps: seq<Step>)
    requires Run(Unbounded, Initial(), steps).Some?
    ensures Inv(Run(Unbounded, Initial(), steps).value)
  {
    if steps != [] {
      var front, last := steps[..|steps| - 1], steps[|steps| - 1];
      ReachableInv(front);
      var s := Run(Unbounded, Initial(), front).value;
      ActKeepsInv(if last.atA then s else Flip(s), last.op);
    }
  }
}
