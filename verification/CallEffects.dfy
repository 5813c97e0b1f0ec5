/**
 What one call of TX or RX does for every state, whatever else happens in the same call.
 */
module CallEffects {
  import opened SeqNum
  import opened TileLinkMsg
  import opened FlowControl
  import opened EndpointSpec
  import opened System
  import opened Safety
  import opened Recovery

  /** TX takes the pending request exactly when the window has room and the credit of its
      channel covers all its bytes; then, and only then, credit is spent, and only there. */
  lemma RequestGoesOutIff(n: Numbering, e: EndpointState, m: TlMsg)
    ensures var t := EndpointSpec.Transmit(n, e, Some(m));
            && (t.leftover.None? <==> |e.retx| < 4 && 8 + |m.data| <= 8 * e.credits[m.header.chan])
            && (t.leftover.Some? ==> t.leftover == Some(m))
            && (forall c :: 0 <= c < CHANNEL_NUM ==>
                  t.state.credits[c]
                  == e.credits[c] - if t.leftover.None? && c == m.header.chan then Flits(m.header) else 0)
  {
    FlitsBounds(m);
  }

  predicate Affordable(x: Node) {
    x.pending.Some? && 8 + |x.pending.value.data| <= 8 * x.ep.credits[x.pending.value.header.chan]
  }

  /** What there is to be sent besides resent frames: a request that can be paid for, a queued
      ack, or, with no request pending, credit owed (channel 0 never owes any). */
  predicate NewFrameDue(x: Node) {
    && |x.ep.retx| < 4
    && (x.ep.acks != []
        || (if x.pending.Some? then Affordable(x)
            else exists c :: 1 <= c < CHANNEL_NUM && x.ep.owed[c] > x.ep.owed[0]))
  }

  lemma NewFrameIff(x: Node)
    ensures DataStep(x).frames != [] <==> NewFrameDue(x)
  {
    DataFrameIff(x);
    if x.pending.Some? {
      FlitsBounds(x.pending.value);
    }
  }

  function One(b: bool): nat {
    if b then 1 else 0
  }

  lemma AckOnlyFrames(x: Node)
    ensures |RequestedAcks(x)| == One(x.ep.sendAckOnly) + One(HalfDue(x))
  {
  }

  /** One TX sends an ack-only frame for each of the two reasons, one new frame if one is due,
      and, when the front has timed out, the whole buffer with it. Nothing holds back anything
      else. */
  lemma FramesSent(x: Node)
    requires Window(x) && AcksBelow(x, [])
    ensures var t := EndpointSpec.Transmit(Unbounded, x.ep, x.pending);
            && |t.state.retx| == |x.ep.retx| + One(NewFrameDue(x))
            && |t.frames| == One(x.ep.sendAckOnly) + One(HalfDue(x)) + One(NewFrameDue(x))
                             + if FrontTimedOut(x) then |t.state.retx| else 0
  {
    var t := EndpointSpec.Transmit(Unbounded, x.ep, x.pending);
    var mid, late, data := TransmitSplits(x);
    PartsCount(x, AfterTransmit(x, t), t.frames, mid, late, data);
  }

  lemma PartsCount(x: Node, x': Node, frames: seq<Frame>, mid: Node, late: Sent, data: seq<Frame>)
    requires Window(x) && AcksBelow(x, []) && Parts(x, x', frames, mid, late, data)
    ensures |x'.ep.retx| == |x.ep.retx| + One(NewFrameDue(x))
    ensures |frames| == One(x.ep.sendAckOnly) + One(HalfDue(x)) + One(NewFrameDue(x))
                        + if FrontTimedOut(x) then |x'.ep.retx| else 0
  {
    AckOnlyFrames(x);
    NewFrameIff(x);
    DataStepCases(x);
    LateIff(x, mid, late);
    PartsKeepSize(mid, late);
    if FrontTimedOut(x) {
      PartsResend(x, x', frames, mid, late, data);
    }
  }

  lemma PartsKeepSize(mid: Node, late: Sent)
    requires late == ResendOnTimeout(Unbounded, mid.ep)
    ensures |late.state.retx| == |mid.ep.retx|
  {
  }

  /** The new frame f of a TX that leaves this much owed: the next number, the oldest queued ack or
      else the last accepted number, the request if it can be paid for, and the highest power of
      two of what is owed on a channel that is owed the most. */
  predicate Carries(x: Node, f: Frame, left: Counters) {
    && f.kind.NormalFrame? && f.isAck && f.seqNum == x.ep.nextTx
    && f.seqNumAck == (if x.ep.acks == [] then x.ep.nextRx - 1 else x.ep.acks[0].seqNumAck)
    && f.msg == (if Affordable(x) then Some(OnWire(x.pending.value)) else None)
    && (forall c :: 0 <= c < CHANNEL_NUM ==> x.ep.owed[c] <= x.ep.owed[f.chan])
    && (if f.chan == 0 then f.credit == 0 && left == x.ep.owed
        else && Pow2(f.credit) <= x.ep.owed[f.chan] < 2 * Pow2(f.credit)
             && forall c :: 0 <= c < CHANNEL_NUM ==> left[c] == x.ep.owed[c] - if c == f.chan then Pow2(f.credit) else 0)
  }

  lemma DataCarries(x: Node)
    requires DataStep(x).frames != []
    ensures |DataStep(x).frames| == 1 && Carries(x, DataStep(x).frames[0], DataStep(x).state.owed)
  {
    var chan := MaxChannel(x.ep.owed, CHANNEL_NUM);
    var e := BeforeData(x);
    assert e.retx == x.ep.retx && e.acks == x.ep.acks && e.credits == x.ep.credits && e.owed == x.ep.owed
        && e.nextTx == x.ep.nextTx && e.nextRx == x.ep.nextRx;
    if x.pending.Some? {
      FlitsBounds(x.pending.value);
    }
  }

  /** Whatever else TX sends, the new frame is that one. */
  lemma NewFrameCarries(x: Node) returns (f: Frame)
    requires NewFrameDue(x)
    ensures var t := EndpointSpec.Transmit(Unbounded, x.ep, x.pending); f in t.frames && Carries(x, f, t.state.owed)
  {
    NewFrameIff(x);
    DataCarries(x);
    f := DataStep(x).frames[0];
    var mid, late, data := TransmitSplits(x);
    assert data[0] == f;
  }

  /** A negative acknowledgement is answered at once with every frame left in the buffer, in
      order, each acknowledging the last accepted number; an acknowledgement with nothing. */
  lemma NakResends(x: Node, f: Frame)
    requires Window(x)
    ensures var left := Slide(Unbounded, x.ep.retx, f.seqNumAck);
            ServeAck(Unbounded, x.ep, f).frames
            == if f.isAck then []
               else seq(|left|, i requires 0 <= i < |left| => left[i].frame.(seqNumAck := x.ep.nextRx - 1))
  {
    SlideThenResend(x.ep.retx, Base(x), f.seqNumAck, x.ep.nextRx - 1);
  }

  /** Every frame counts once, and a data frame besides as a duplicate or as out of sequence by
      its distance from the expected number. */
  lemma ArrivalsCounted(e: EndpointState, f: Frame)
    requires EndpointSpec.Receive(Unbounded, e, f).Received?
    ensures var stats := EndpointSpec.Receive(Unbounded, e, f).state.stats;
            && stats.ackCnt == e.stats.ackCnt + 1
            && stats.dupCnt == e.stats.dupCnt + One(!f.kind.AckOnlyFrame? && f.seqNum < e.nextRx)
            && stats.oosCnt == e.stats.oosCnt + One(!f.kind.AckOnlyFrame? && f.seqNum > e.nextRx)
  {
  }
}
