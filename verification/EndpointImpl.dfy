/**
 The endpoint as the program has it: five ring buffers, the credit arrays, the
 memory and the counters, updated in place. Every method is tied to the step
 function of the same name at `Wrapping` numbers.
 */
module EndpointImpl {
  import opened SeqNum
  import opened TileLinkMsg
  import FC = FlowControl
  import CQ = CircularQueue
  import opened EndpointSpec

  class Endpoint {
    const retransmitBuffer: CQ.CircularQueue<RetxElement>
    const ackBuffer: CQ.CircularQueue<Frame>
    const tlMsgBuffer: CQ.CircularQueue<TlMsg>
    const responseBuffer: CQ.CircularQueue<TlMsg>
    const messageBuffer: CQ.CircularQueue<TlMsg>
    const fc: FC.FlowControl
    const memStorage: array<byte>

    var nextTxSeq: int
    var nextRxSeq: int
    var ackedSeq: int
    var shouldSendAckOnlyFrame: bool
    var ackOnlyFrameSent: bool
    var iterationTs: nat
    var bufferSelectCounter: int
    var stats: Stats

    /** Everything handed to the network so far, in order. */
    var sentFrames: seq<Frame>

    /** The abstract state; `Valid` ties it to the fields above. */
    ghost var state: EndpointState

    ghost function Repr(): set<object> {
      {this, fc, fc.credits, fc.txFlowCredits, memStorage,
       retransmitBuffer, retransmitBuffer.data, ackBuffer, ackBuffer.data, tlMsgBuffer, tlMsgBuffer.data,
       responseBuffer, responseBuffer.data, messageBuffer, messageBuffer.data}
    }

    /** No buffer shares its storage with another; buffers of different element
        types cannot. */
    ghost predicate Separate() {
      && tlMsgBuffer != responseBuffer && tlMsgBuffer != messageBuffer && responseBuffer != messageBuffer
      && tlMsgBuffer.data != responseBuffer.data && tlMsgBuffer.data != messageBuffer.data
      && responseBuffer.data != messageBuffer.data
    }

    ghost predicate Valid()
      reads Repr()
    {
      && Separate()
      && retransmitBuffer.Valid() && retransmitBuffer.size == WINDOW_SIZE + 1
      && ackBuffer.Valid() && ackBuffer.size == ACK_CAPACITY + 1
      && tlMsgBuffer.Valid() && tlMsgBuffer.size == TL_MSG_CAPACITY + 1
      && responseBuffer.Valid() && responseBuffer.size == RESPONSE_CAPACITY + 1
      && messageBuffer.Valid() && messageBuffer.size == MESSAGE_CAPACITY + 1
      && fc.Valid()
      && memStorage.Length == MEM_SIZE
      && state.nextTx == nextTxSeq && state.nextRx == nextRxSeq
      && state.retx == retransmitBuffer.Contents() && state.acks == ackBuffer.Contents()
      && state.inbox == tlMsgBuffer.Contents() && state.responses == responseBuffer.Contents()
      && state.messages == messageBuffer.Contents()
      && state.credits == fc.Credits() && state.owed == fc.Owed()
      && state.sendAckOnly == shouldSendAckOnlyFrame && state.ackOnlySent == ackOnlyFrameSent
      && state.now == iterationTs && state.turns == bufferSelectCounter
      && state.mem == memStorage[..] && state.stats == stats
    }

    static method NewTlQueues() returns (
        t: CQ.CircularQueue<TlMsg>, p: CQ.CircularQueue<TlMsg>, m: CQ.CircularQueue<TlMsg>)
      ensures t.Valid() && t.size == TL_MSG_CAPACITY + 1 && t.Contents() == []
      ensures p.Valid() && p.size == RESPONSE_CAPACITY + 1 && p.Contents() == []
      ensures m.Valid() && m.size == MESSAGE_CAPACITY + 1 && m.Contents() == []
      ensures fresh({t, t.data, p, p.data, m, m.data})
      ensures {t as object, t.data} !! {p as object, p.data} !! {m as object, m.data}
    {
      t := new CQ.CircularQueue<TlMsg>(10000);
      p := new CQ.CircularQueue<TlMsg>(100);
      m := new CQ.CircularQueue<TlMsg>(10000);
    }

    static method NewQueues() returns (
        r: CQ.CircularQueue<RetxElement>, a: CQ.CircularQueue<Frame>,
        t: CQ.CircularQueue<TlMsg>, p: CQ.CircularQueue<TlMsg>, m: CQ.CircularQueue<TlMsg>)
      ensures r.Valid() && r.size == WINDOW_SIZE + 1 && r.Contents() == []
      ensures a.Valid() && a.size == ACK_CAPACITY + 1 && a.Contents() == []
      ensures t.Valid() && t.size == TL_MSG_CAPACITY + 1 && t.Contents() == []
      ensures p.Valid() && p.size == RESPONSE_CAPACITY + 1 && p.Contents() == []
      ensures m.Valid() && m.size == MESSAGE_CAPACITY + 1 && m.Contents() == []
      ensures fresh({r, r.data, a, a.data, t, t.data, p, p.data, m, m.data})
      ensures {r as object, r.data} !! {a as object, a.data} !! {t as object, t.data}
              !! {p as object, p.data} !! {m as object, m.data}
    {
      r := new CQ.CircularQueue<RetxElement>(WINDOW_SIZE + 1);
      a := new CQ.CircularQueue<Frame>(2048);
      t, p, m := NewTlQueues();
    }

    constructor ()
      ensures Valid() && fresh(Repr())
      ensures state == NewEndpoint() && ackedSeq == MAX_SEQ_NUM && sentFrames == []
    {
      var rb, ab, tb, pb, mb := NewQueues();
      var flow := new FC.FlowControl();
      var mem := new byte[MEM_SIZE](_ => 0);
      retransmitBuffer, messageBuffer, ackBuffer, tlMsgBuffer, responseBuffer := rb, mb, ab, tb, pb;
      fc, memStorage := flow, mem;
      nextTxSeq, nextRxSeq, ackedSeq := 0, 0, MAX_SEQ_NUM;
      shouldSendAckOnlyFrame, ackOnlyFrameSent := false, false;
      iterationTs, bufferSelectCounter := 0, BUFFER_SELECT_TURNS;
      stats := Stats(0, 0, 0, 0, 0, 0, 0);
      sentFrames := [];
      state := NewEndpoint();
      assert mem[..] == seq(MEM_SIZE, _ => 0);
    }

    // ---------- go-back-N buffer ----------

    static lemma ResentStep(all: seq<RetxElement>, k: nat, from: int, newAck: int)
      requires k < |all|
      ensures ResentFrames(Wrapping, all[..k + 1], from, newAck)
              == ResentFrames(Wrapping, all[..k], from, newAck)
                 + if Cmp(all[k].frame.seqNum, from) < 0 then [] else [all[k].frame.(seqNumAck := newAck)]
    {
      assert all[..k + 1][..k] == all[..k];
    }

    /** One visit of the ring iteration: the frame to send, if any, and its send time. */
    static method ResendSlot(q: CQ.CircularQueue<RetxElement>, i: nat, ghost k: nat, from: int, newAck: int, now: nat)
      returns (frames: seq<Frame>)
      requires q.Valid() && k < q.Length() && i == q.Slot(k)
      modifies q.data
      ensures var e := old(q.Contents())[k];
              if Cmp(e.frame.seqNum, from) < 0 then
                q.Contents() == old(q.Contents()) && frames == []
              else
                q.Contents() == old(q.Contents())[k := e.(sendTime := now)]
                && frames == [e.frame.(seqNumAck := newAck)]
    {
      var element := q.data[i];
      frames := [];
      if Cmp(element.frame.seqNum, from) >= 0 {
        frames := [element.frame.(seqNumAck := newAck)];
        q.Update(i, k, element.(sendTime := now));
      }
    }

    /** The buffer when the iteration has passed its first k elements. */
    static ghost predicate PartlyStamped(now: seq<RetxElement>, all: seq<RetxElement>, stamped: seq<RetxElement>, k: nat)
      requires k <= |all| == |stamped|
    {
      |now| == |all| && forall j :: 0 <= j < |all| ==> now[j] == if j < k then stamped[j] else all[j]
    }

    static lemma FullyStamped(now: seq<RetxElement>, all: seq<RetxElement>, stamped: seq<RetxElement>)
      requires |all| == |stamped| && PartlyStamped(now, all, stamped, |all|)
      ensures now == stamped && all[..|all|] == all
    {
    }

    /** One visit when the iteration has already passed k elements of `all`, and the next slot. */
    static method ResendNext(q: CQ.CircularQueue<RetxElement>, i: nat, ghost k: nat, ghost all: seq<RetxElement>,
                             ghost stamped: seq<RetxElement>, from: int, newAck: int, now: nat)
      returns (frames: seq<Frame>, next: nat)
      requires q.Valid() && k < q.Length() == |all| && i == q.Slot(k)
      requires stamped == Restamped(Wrapping, all, from, now) && PartlyStamped(q.Contents(), all, stamped, k)
      modifies q.data
      ensures q.Valid() && next == q.Slot(k + 1) && (next == q.rear <==> k + 1 == |all|)
      ensures PartlyStamped(q.Contents(), all, stamped, k + 1)
      ensures ResentFrames(Wrapping, all[..k], from, newAck) + frames == ResentFrames(Wrapping, all[..k + 1], from, newAck)
    {
      ResentStep(all, k, from, newAck);
      q.SlotStep(k);
      q.SlotStep(k + 1);
      frames := ResendSlot(q, i, k, from, newAck, now);
      next := q.Advance(i);
    }

    static method ResendFrom(q: CQ.CircularQueue<RetxElement>, from: int, newAck: int, now: nat)
      returns (frames: seq<Frame>)
      requires q.Valid()
      modifies q.data
      ensures q.Valid()
      ensures q.Contents() == Restamped(Wrapping, old(q.Contents()), from, now)
      ensures frames == ResentFrames(Wrapping, old(q.Contents()), from, newAck)
    {
      ghost var all := q.Contents();
      ghost var stamped := Restamped(Wrapping, all, from, now);
      frames := [];
      var i := q.front;
      ghost var k := 0;
      q.SlotStep(0);
      while i != q.rear
        invariant q.Valid() && 0 <= k <= |all| == q.Length() && i == q.Slot(k)
        invariant i == q.rear <==> k == |all|
        invariant PartlyStamped(q.Contents(), all, stamped, k)
        invariant frames == ResentFrames(Wrapping, all[..k], from, newAck)
        decreases |all| - k
      {
        var sent;
        sent, i := ResendNext(q, i, k, all, stamped, from, newAck, now);
        frames := frames + sent;
        k := k + 1;
      }
      FullyStamped(q.Contents(), all, stamped);
    }

    method Retransmit(from: int)
      requires Valid()
      modifies this, retransmitBuffer.data
      ensures Valid() && ackedSeq == old(ackedSeq)
      ensures var r := EndpointSpec.Retransmit(Wrapping, old(state), from);
              state == r.state && sentFrames == old(sentFrames) + r.frames
    {
      var frames := ResendFrom(retransmitBuffer, from, Prev(nextRxSeq), iterationTs);
      sentFrames := sentFrames + frames;
      state := EndpointSpec.Retransmit(Wrapping, state, from).state;
    }

    /** The loop of slide_window. */
    static method DropAcked(q: CQ.CircularQueue<RetxElement>, ack: int)
      requires q.Valid()
      modifies q
      ensures q.Valid() && q.Contents() == Slide(Wrapping, old(q.Contents()), ack)
    {
      var rbe := q.GetFront();
      while rbe.Some?
        invariant q.Valid()
        invariant rbe == if q.Contents() == [] then None else Some(q.Contents()[0])
        invariant Slide(Wrapping, q.Contents(), ack) == Slide(Wrapping, old(q.Contents()), ack)
        decreases |q.Contents()|
      {
        if Cmp(rbe.value.frame.seqNum, ack) > 0 {
          break;
        }
        rbe := q.Dequeue();
        rbe := q.GetFront();
      }
    }

    method SlideWindow(ack: int)
      requires Valid()
      modifies this, retransmitBuffer
      ensures sentFrames == old(sentFrames) && ackedSeq == old(ackedSeq)
      ensures Valid()
      ensures state == old(state).(retx := Slide(Wrapping, old(state).retx, ack))
    {
      DropAcked(retransmitBuffer, ack);
      state := state.(retx := Slide(Wrapping, state.retx, ack));
    }

    // ---------- TX ----------

    method SendAckOnlyFrame()
      requires Valid()
      modifies this
      ensures Valid() && state == old(state)
      ensures sentFrames == old(sentFrames) + [AckOnly(Wrapping, state)]
    {
      sentFrames := sentFrames + [Frame(AckOnlyFrame, nextTxSeq, Prev(nextRxSeq), true, 0, 0, None)];
    }

    method SendRequestedAck()
      requires Valid()
      modifies this
      ensures Valid()
      ensures var r := EndpointSpec.SendRequestedAck(Wrapping, old(state));
              state == r.state && sentFrames == old(sentFrames) + r.frames
    {
      if shouldSendAckOnlyFrame {
        SendAckOnlyFrame();
        shouldSendAckOnlyFrame := false;
        state := state.(sendAckOnly := false);
      }
    }

    method MarkAckOnlySent()
      requires Valid()
      modifies this
      ensures sentFrames == old(sentFrames) && ackedSeq == old(ackedSeq)
      ensures Valid()
      ensures var s := old(state);
              state == s.(ackOnlySent := true, stats := s.stats.(ackOnlyCnt := s.stats.ackOnlyCnt + 1))
    {
      ackOnlyFrameSent := true;
      stats := stats.(ackOnlyCnt := stats.ackOnlyCnt + 1);
      state := state.(ackOnlySent := true, stats := stats);
    }

    method SendHalfTimeoutAck()
      requires Valid()
      modifies this
      ensures Valid()
      ensures var r := EndpointSpec.SendHalfTimeoutAck(Wrapping, old(state));
              state == r.state && sentFrames == old(sentFrames) + r.frames
    {
      var full := retransmitBuffer.IsFull();
      if full && !ackOnlyFrameSent {
        var rbe := retransmitBuffer.GetFront();
        if TimedOut(iterationTs, rbe.value.sendTime, TIMEOUT_TIME / 2) {
          MarkAckOnlySent();
          SendAckOnlyFrame();
        }
      }
    }

    method Charge(h: TlHeader) returns (paid: bool)
      requires Valid() && h.chan < CHANNEL_NUM
      modifies this, fc.credits
      ensures sentFrames == old(sentFrames) && ackedSeq == old(ackedSeq)
      ensures Valid()
      ensures var s := old(state);
              && paid == FC.CanPay(s.credits, h)
              && state == if paid then s.(credits := FC.Pay(s.credits, h)) else s
    {
      var cost := fc.CreditDec(h);
      paid := cost != -1;
      state := state.(credits := fc.Credits());
    }

    /** Whether a frame is to be built, and the request after credit was charged. */
    method ChargeRequest(request: Option<TlMsg>, chan: FC.Channel)
      returns (proceed: bool, payload: Option<TlMsg>, leftover: Option<TlMsg>)
      requires Valid()
      modifies this, fc.credits
      ensures sentFrames == old(sentFrames) && ackedSeq == old(ackedSeq)
      ensures Valid()
      ensures proceed <==> !NothingToSend(old(state), request, chan)
      ensures !proceed ==> state == old(state) && leftover == request
      ensures proceed ==>
                var s, paid := old(state), Payable(old(state), request);
                && state == s.(credits := if paid then FC.Pay(s.credits, request.value.header) else s.credits)
                && payload == (if paid then request else None) && leftover == (if paid then None else request)
    {
      proceed, payload, leftover := false, None, request;
      var full := retransmitBuffer.IsFull();
      if full {
        return;
      }
      var noAcks := ackBuffer.IsEmpty();
      if request.None? {
        proceed := !noAcks || chan != 0;
        return;
      }
      var paid := Charge(request.value.header);
      if paid {
        proceed, payload, leftover := true, request, None;
      } else {
        proceed := !noAcks;
      }
    }

    /** Number for the ack field: the oldest queued ack, or a fresh one. */
    method TakeAck() returns (ack: int)
      requires Valid()
      modifies this, ackBuffer
      ensures sentFrames == old(sentFrames) && ackedSeq == old(ackedSeq)
      ensures Valid()
      ensures var s := old(state);
              && ack == (if s.acks == [] then Prev(s.nextRx) else s.acks[0].seqNumAck)
              && state == s.(acks := if s.acks == [] then [] else s.acks[1..])
    {
      ack := Prev(nextRxSeq);
      var ackFrame := ackBuffer.Dequeue();
      if ackFrame.Some? {
        ack := ackFrame.value.seqNumAck;
        state := state.(acks := state.acks[1..]);
      }
    }

    /** Credit to return on the channel that was selected. */
    method TakeCredit(chan: FC.Channel) returns (credit: nat)
      requires Valid() && (chan != 0 ==> state.owed[chan] > 0)
      modifies this, fc.txFlowCredits
      ensures sentFrames == old(sentFrames) && ackedSeq == old(ackedSeq)
      ensures Valid()
      ensures var s := old(state);
              && credit == (if chan == 0 then 0 else FC.LargestPow(s.owed[chan]))
              && state == s.(owed := FC.Return(s.owed, chan))
    {
      credit := 0;
      if chan != 0 {
        credit := fc.GetOutgoingCredits(chan);
      }
      state := state.(owed := FC.Return(state.owed, chan));
    }

    method EnqueueAndSend(f: Frame)
      requires Valid() && |state.retx| < WINDOW_SIZE
      modifies this, retransmitBuffer, retransmitBuffer.data
      ensures Valid()
      ensures var s := old(state);
              state == s.(retx := s.retx + [RetxElement(f, s.now)], nextTx := Next(s.nextTx))
      ensures sentFrames == old(sentFrames) + [f]
    {
      var enqueued := retransmitBuffer.Enqueue(RetxElement(f, iterationTs));
      sentFrames := sentFrames + [f];
      nextTxSeq := Next(nextTxSeq);
      state := state.(retx := state.retx + [RetxElement(f, state.now)], nextTx := Next(state.nextTx));
    }

    method SendNormalFrame(request: Option<TlMsg>, chan: FC.Channel) returns (leftover: Option<TlMsg>)
      requires Valid() && (chan != 0 ==> state.owed[chan] > 0)
      modifies this, fc.credits, fc.txFlowCredits, ackBuffer, retransmitBuffer, retransmitBuffer.data
      ensures Valid()
      ensures var r := SendData(Wrapping, old(state), request, chan);
              state == r.state && leftover == r.leftover && sentFrames == old(sentFrames) + r.frames
    {
      var proceed, payload;
      proceed, payload, leftover := ChargeRequest(request, chan);
      if proceed {
        var ack := TakeAck();
        var credit := TakeCredit(chan);
        var f := Frame(NormalFrame, nextTxSeq, ack, true, chan, credit,
                       if payload.Some? then Some(OnWire(payload.value)) else None);
        EnqueueAndSend(f);
      }
    }

    method ResendOnTimeout()
      requires Valid()
      modifies this, retransmitBuffer.data
      ensures Valid()
      ensures var r := EndpointSpec.ResendOnTimeout(Wrapping, old(state));
              state == r.state && sentFrames == old(sentFrames) + r.frames
    {
      var rbe := retransmitBuffer.GetFront();
      if rbe.Some? && TimedOut(iterationTs, rbe.value.sendTime, TIMEOUT_TIME) {
        Retransmit(rbe.value.frame.seqNum);
      }
    }

    method SendAcks()
      requires Valid()
      modifies this
      ensures Valid()
      ensures var acked := EndpointSpec.SendRequestedAck(Wrapping, old(state));
              var half := EndpointSpec.SendHalfTimeoutAck(Wrapping, acked.state);
              state == half.state && sentFrames == old(sentFrames) + acked.frames + half.frames
    {
      SendRequestedAck();
      SendHalfTimeoutAck();
    }

    method SendRequest(request: Option<TlMsg>, chan: FC.Channel) returns (leftover: Option<TlMsg>)
      requires Valid() && (chan != 0 ==> state.owed[chan] > 0)
      modifies this, fc.credits, fc.txFlowCredits, ackBuffer, retransmitBuffer, retransmitBuffer.data
      ensures Valid()
      ensures var data := SendData(Wrapping, old(state), request, chan);
              var late := EndpointSpec.ResendOnTimeout(Wrapping, data.state);
              state == late.state && leftover == data.leftover
              && sentFrames == old(sentFrames) + data.frames + late.frames
    {
      leftover := SendNormalFrame(request, chan);
      ResendOnTimeout();
    }

    /** The transmit step is the ack stage followed by the request stage. */
    static lemma TransmitIsTwoStages(s0: EndpointState, s1: EndpointState, request: Option<TlMsg>, chan: FC.Channel,
                                     sent0: seq<Frame>, sent1: seq<Frame>)
      requires chan == FC.MaxChannel(s0.owed, CHANNEL_NUM)
      requires var acked := EndpointSpec.SendRequestedAck(Wrapping, s0);
               var half := EndpointSpec.SendHalfTimeoutAck(Wrapping, acked.state);
               s1 == half.state && sent1 == sent0 + acked.frames + half.frames
      ensures var data := SendData(Wrapping, s1, request, chan);
              var late := EndpointSpec.ResendOnTimeout(Wrapping, data.state);
              var t := EndpointSpec.Transmit(Wrapping, s0, request);
              && late.state == t.state && data.leftover == t.leftover
              && sent1 + data.frames + late.frames == sent0 + t.frames
    {
      var acked := EndpointSpec.SendRequestedAck(Wrapping, s0);
      var half := EndpointSpec.SendHalfTimeoutAck(Wrapping, acked.state);
      var data := SendData(Wrapping, s1, request, chan);
      Associate(sent0, acked.frames, half.frames, data.frames, EndpointSpec.ResendOnTimeout(Wrapping, data.state).frames);
    }

    static lemma Associate(p: seq<Frame>, a: seq<Frame>, b: seq<Frame>, c: seq<Frame>, d: seq<Frame>)
      ensures p + a + b + c + d == p + (a + b + c + d)
    {
    }

    /** TX: returns the request if it could not be sent. */
    method TX(request: Option<TlMsg>) returns (leftover: Option<TlMsg>)
      requires Valid()
      modifies this, fc.credits, fc.txFlowCredits, ackBuffer, retransmitBuffer, retransmitBuffer.data
      ensures Valid()
      ensures var t := EndpointSpec.Transmit(Wrapping, old(state), request);
              state == t.state && leftover == t.leftover && sentFrames == old(sentFrames) + t.frames
    {
      var chan := fc.SelectMaxCreditChannel();
      ghost var sent0, s0 := sentFrames, state;
      SendAcks();
      ghost var sent1, s1 := sentFrames, state;
      leftover := SendRequest(request, chan);
      TransmitIsTwoStages(s0, s1, request, chan, sent0, sent1);
    }

    // ---------- RX ----------

    method SlideAndResend(f: Frame)
      requires Valid()
      modifies this, retransmitBuffer, retransmitBuffer.data
      ensures Valid() && ackedSeq == old(ackedSeq)
      ensures var slid := old(state).(retx := Slide(Wrapping, old(state).retx, f.seqNumAck));
              var r := if f.isAck then Sent(slid, []) else EndpointSpec.Retransmit(Wrapping, slid, Next(f.seqNumAck));
              state == r.state && sentFrames == old(sentFrames) + r.frames
    {
      SlideWindow(f.seqNumAck);
      if !f.isAck {
        Retransmit(Next(f.seqNumAck));
      }
    }

    method ServeAck(f: Frame)
      requires Valid()
      modifies this, retransmitBuffer, retransmitBuffer.data
      ensures Valid() && ackedSeq == old(ackedSeq)
      ensures var r := EndpointSpec.ServeAck(Wrapping, old(state), f);
              state == r.state && sentFrames == old(sentFrames) + r.frames
    {
      SlideAndResend(f);
      CountAck();
    }

    method CountAck()
      requires Valid()
      modifies this
      ensures sentFrames == old(sentFrames) && ackedSeq == old(ackedSeq)
      ensures Valid()
      ensures var s := old(state);
              state == s.(stats := s.stats.(ackCnt := s.stats.ackCnt + 1), ackOnlySent := false)
    {
      stats := stats.(ackCnt := stats.ackCnt + 1);
      ackOnlyFrameSent := false;
      state := state.(stats := stats, ackOnlySent := false);
    }

    method UpdateAckedSeq(f: Frame)
      requires Valid()
      modifies this
      ensures sentFrames == old(sentFrames)
      ensures Valid() && state == old(state)
      ensures ackedSeq == Newer(old(ackedSeq), f.seqNumAck)
    {
      if Cmp(f.seqNumAck, ackedSeq) > 0 {
        ackedSeq := f.seqNumAck;
      }
    }

    /** The sequence numbers after an accepted frame. */
    method UpdateSeqNums(f: Frame)
      requires Valid()
      modifies this
      ensures sentFrames == old(sentFrames) && ackedSeq == Newer(old(ackedSeq), f.seqNumAck)
      ensures Valid()
      ensures state == old(state).(nextRx := Next(f.seqNum))
    {
      nextRxSeq := Next(f.seqNum);
      state := state.(nextRx := nextRxSeq);
      UpdateAckedSeq(f);
    }

    method IncreaseCredit(f: Frame)
      requires Valid()
      modifies this, fc.credits
      ensures sentFrames == old(sentFrames) && ackedSeq == old(ackedSeq)
      ensures Valid()
      ensures state == old(state).(credits := FC.Gain(old(state).credits, f.chan, f.credit))
    {
      fc.CreditInc(f.chan, f.credit);
      state := state.(credits := fc.Credits());
    }

    method EnqueueTlMsg(m: TlMsg) returns (enqueued: bool)
      requires Valid()
      modifies this, tlMsgBuffer, tlMsgBuffer.data
      ensures sentFrames == old(sentFrames) && ackedSeq == old(ackedSeq)
      ensures Valid()
      ensures var s := old(state);
              && (enqueued <==> |s.inbox| < TL_MSG_CAPACITY)
              && state == if enqueued then s.(inbox := s.inbox + [m]) else s
    {
      enqueued := tlMsgBuffer.Enqueue(m);
      state := state.(inbox := tlMsgBuffer.Contents());
    }

    method RequestAckOnly()
      requires Valid()
      modifies this
      ensures sentFrames == old(sentFrames) && ackedSeq == old(ackedSeq)
      ensures Valid() && state == old(state).(sendAckOnly := true)
    {
      shouldSendAckOnlyFrame := true;
      state := state.(sendAckOnly := true);
    }

    method ServeNormalRequest(f: Frame) returns (halted: bool)
      requires Valid() && f.msg.Some? && GetReqType(Wrapping, f.seqNum, nextRxSeq) == ReqNormal
      modifies this, tlMsgBuffer, tlMsgBuffer.data, fc.credits
      ensures sentFrames == old(sentFrames) && ackedSeq == Newer(old(ackedSeq), f.seqNumAck)
      ensures var r := ServeData(Wrapping, old(state), f);
              (halted <==> r.None?) && (!halted ==> Valid() && state == r.value)
    {
      UpdateSeqNums(f);
      var enqueued := EnqueueTlMsg(f.msg.value);
      if !enqueued {
        return true;
      }
      IncreaseCredit(f);
      return false;
    }

    method ServeZeroTlmsgRequest(f: Frame)
      requires Valid() && f.msg.None? && GetReqType(Wrapping, f.seqNum, nextRxSeq) == ReqNormal
      modifies this, fc.credits
      ensures sentFrames == old(sentFrames) && ackedSeq == Newer(old(ackedSeq), f.seqNumAck)
      ensures Valid()
      ensures ServeData(Wrapping, old(state), f) == Some(state)
    {
      UpdateSeqNums(f);
      RequestAckOnly();
      IncreaseCredit(f);
    }

    method ServeDuplicateRequest(f: Frame) returns (halted: bool)
      requires Valid() && GetReqType(Wrapping, f.seqNum, nextRxSeq) == ReqDuplicate
      modifies this, ackBuffer, ackBuffer.data
      ensures sentFrames == old(sentFrames) && ackedSeq == old(ackedSeq)
      ensures var r := ServeData(Wrapping, old(state), f);
              (halted <==> r.None?) && (!halted ==> Valid() && state == r.value)
    {
      var enqueued := ackBuffer.Enqueue(AckEntry(f, f.seqNum, true));
      stats := stats.(dupCnt := stats.dupCnt + 1);
      if enqueued {
        state := ServeData(Wrapping, state, f).value;
      }
      return !enqueued;
    }

    method ServeOosRequest(f: Frame) returns (halted: bool)
      requires Valid() && GetReqType(Wrapping, f.seqNum, nextRxSeq) == ReqOos
      modifies this, ackBuffer, ackBuffer.data
      ensures sentFrames == old(sentFrames) && ackedSeq == old(ackedSeq)
      ensures var r := ServeData(Wrapping, old(state), f);
              (halted <==> r.None?) && (!halted ==> Valid() && state == r.value)
    {
      var enqueued := ackBuffer.Enqueue(AckEntry(f, Prev(nextRxSeq), false));
      stats := stats.(oosCnt := stats.oosCnt + 1);
      if enqueued {
        state := ServeData(Wrapping, state, f).value;
      }
      return !enqueued;
    }

    /** RX for one received frame. `halted` is the program's exit on a full buffer. */
    method RX(f: Frame) returns (halted: bool)
      requires Valid()
      modifies this, retransmitBuffer, retransmitBuffer.data, ackBuffer, ackBuffer.data
      modifies tlMsgBuffer, tlMsgBuffer.data, fc.credits
      ensures var r := EndpointSpec.Receive(Wrapping, old(state), f);
              && (halted <==> r.Halted?)
              && (!halted ==> Valid() && state == r.state && sentFrames == old(sentFrames) + r.frames)
      ensures !halted ==>
                ackedSeq == if f.kind.AckOnlyFrame? || Cmp(f.seqNum, old(nextRxSeq)) == 0
                            then Newer(old(ackedSeq), f.seqNumAck) else old(ackedSeq)
    {
      halted := false;
      ServeAck(f);
      if f.kind.AckOnlyFrame? {
        UpdateAckedSeq(f);
        return;
      }
      match GetReqType(Wrapping, f.seqNum, nextRxSeq)
      case ReqNormal =>
        if f.msg.Some? {
          halted := ServeNormalRequest(f);
        } else {
          ServeZeroTlmsgRequest(f);
        }
      case ReqDuplicate => halted := ServeDuplicateRequest(f);
      case ReqOos => halted := ServeOosRequest(f);
    }

    // ---------- tl_handler ----------

    /** memcpy */
    static method CopyInto(a: array<byte>, offset: nat, src: seq<byte>)
      requires offset + |src| <= a.Length
      modifies a
      ensures a[..] == old(a[..offset]) + src + old(a[offset + |src|..])
    {
      for i := 0 to |src|
        invariant a[..] == old(a[..offset]) + src[..i] + old(a[offset + i..])
      {
        a[offset + i] := src[i];
      }
      assert src[..|src|] == src;
    }

    method WriteMemory(m: TlMsg)
      requires Valid() && IsPut(m) && InBounds(m)
      modifies this, memStorage
      ensures sentFrames == old(sentFrames) && ackedSeq == old(ackedSeq)
      ensures Valid()
      ensures state == old(state).(mem := Written(old(state).mem, m))
    {
      CopyInto(memStorage, Offset(m), m.data[8..]);
      state := state.(mem := Written(state.mem, m));
    }

    method EnqueueResponse(m: TlMsg)
      requires Valid()
      modifies this, responseBuffer, responseBuffer.data
      ensures sentFrames == old(sentFrames) && ackedSeq == old(ackedSeq)
      ensures Valid()
      ensures var s := old(state);
              state == if |s.responses| < RESPONSE_CAPACITY then s.(responses := s.responses + [m])
                        else s.(stats := s.stats.(dropResponseCnt := s.stats.dropResponseCnt + 1))
    {
      var enqueued := AppendResponse(m);
      if !enqueued {
        Count(stats.(dropResponseCnt := stats.dropResponseCnt + 1));
      }
    }

    method AppendResponse(m: TlMsg) returns (enqueued: bool)
      requires Valid()
      modifies this, responseBuffer, responseBuffer.data
      ensures sentFrames == old(sentFrames) && ackedSeq == old(ackedSeq)
      ensures Valid()
      ensures var s := old(state);
              && (enqueued <==> |s.responses| < RESPONSE_CAPACITY)
              && state == if enqueued then s.(responses := s.responses + [m]) else s
    {
      enqueued := responseBuffer.Enqueue(m);
      state := state.(responses := responseBuffer.Contents());
    }

    method Count(counters: Stats)
      requires Valid()
      modifies this
      ensures sentFrames == old(sentFrames) && ackedSeq == old(ackedSeq)
      ensures Valid() && state == old(state).(stats := counters)
    {
      stats := counters;
      state := state.(stats := counters);
    }

    /** Dispatch on channel and opcode; `faulted` is the exit on an access out of bounds. */
    method Dispatch(m: TlMsg) returns (faulted: bool)
      requires Valid() && |state.responses| < RESPONSE_CAPACITY
      modifies this, memStorage, responseBuffer, responseBuffer.data
      ensures sentFrames == old(sentFrames) && ackedSeq == old(ackedSeq)
      ensures faulted <==> !InBounds(m)
      ensures !faulted ==>
                Valid() && var s := old(state);
                var reply := ReplyTo(s.mem, m);
                state == s.(
                  mem := Written(s.mem, m),
                  responses := s.responses + (if reply.Some? then [reply.value] else []),
                  stats := s.stats.(
                    accessAckCnt := s.stats.accessAckCnt + (if IsAccessAck(m) then 1 else 0),
                    accessAckDataCnt := s.stats.accessAckDataCnt + (if IsAccessAckData(m) then 1 else 0)))
    {
      faulted := false;
      if IsPut(m) {
        if Offset(m) + Pow2(m.header.size) > MEM_SIZE {
          return true;
        }
        WriteMemory(m);
        EnqueueResponse(RawMsg(Reply(D_ACCESSACK, 0, m.header.source), []));
      } else if IsGet(m) {
        var offset, n := Offset(m), Pow2(m.header.size);
        if offset + n > MEM_SIZE {
          return true;
        }
        ReadReplyFits(m);
        EnqueueResponse(RawMsg(Reply(D_ACCESSACKDATA, m.header.size, m.header.source), memStorage[offset..offset + n]));
      } else if IsAccessAck(m) {
        Count(stats.(accessAckCnt := stats.accessAckCnt + 1));
      } else if IsAccessAckData(m) {
        Count(stats.(accessAckDataCnt := stats.accessAckDataCnt + 1));
      }
    }

    method TakeTlMsg() returns (m: TlMsg)
      requires Valid() && state.inbox != []
      modifies this, tlMsgBuffer
      ensures sentFrames == old(sentFrames) && ackedSeq == old(ackedSeq)
      ensures Valid()
      ensures m == old(state).inbox[0] && state == old(state).(inbox := old(state).inbox[1..])
    {
      var front := tlMsgBuffer.Dequeue();
      m := front.value;
      state := state.(inbox := state.inbox[1..]);
    }

    method AddChannelFlowCredits(h: TlHeader)
      requires Valid() && h.chan < CHANNEL_NUM
      modifies this, fc.txFlowCredits
      ensures sentFrames == old(sentFrames) && ackedSeq == old(ackedSeq)
      ensures Valid()
      ensures state == old(state).(owed := FC.Owe(old(state).owed, h.chan, Flits(h)))
    {
      fc.AddChannelFlowCredits(h.chan, Flits(h));
      state := state.(owed := FC.Owe(state.owed, h.chan, Flits(h)));
    }

    /** tl_handler and the credit that the loop hands back after it. */
    method TlHandler() returns (faulted: bool)
      requires Valid()
      modifies this, tlMsgBuffer, memStorage, responseBuffer, responseBuffer.data, fc.txFlowCredits
      ensures sentFrames == old(sentFrames) && ackedSeq == old(ackedSeq)
      ensures var r := EndpointSpec.Handle(old(state));
              && (faulted <==> r.Faulted?)
              && (!faulted ==> Valid() && state == if r.Idle? then old(state) else r.state)
    {
      faulted := false;
      var empty := tlMsgBuffer.IsEmpty();
      var full := responseBuffer.IsFull();
      if empty || full {
        return;
      }
      var m := TakeTlMsg();
      faulted := Dispatch(m);
      if !faulted {
        AddChannelFlowCredits(m.header);
      }
    }

    // ---------- choosing what to send next ----------

    method CountTurn(turns: int)
      requires Valid()
      modifies this
      ensures sentFrames == old(sentFrames) && ackedSeq == old(ackedSeq)
      ensures Valid() && state == old(state).(turns := turns)
    {
      bufferSelectCounter := turns;
      state := state.(turns := turns);
    }

    method DequeueResponse() returns (m: Option<TlMsg>)
      requires Valid()
      modifies this, responseBuffer
      ensures sentFrames == old(sentFrames) && ackedSeq == old(ackedSeq)
      ensures Valid()
      ensures var q := old(state).responses;
              if q == [] then m == None && state == old(state)
              else m == Some(q[0]) && state == old(state).(responses := q[1..])
    {
      m := responseBuffer.Dequeue();
      state := state.(responses := if m.None? then state.responses else state.responses[1..]);
    }

    method DequeueMessage() returns (m: Option<TlMsg>)
      requires Valid()
      modifies this, messageBuffer
      ensures sentFrames == old(sentFrames) && ackedSeq == old(ackedSeq)
      ensures Valid()
      ensures var q := old(state).messages;
              if q == [] then m == None && state == old(state)
              else m == Some(q[0]) && state == old(state).(messages := q[1..])
    {
      m := messageBuffer.Dequeue();
      state := state.(messages := if m.None? then state.messages else state.messages[1..]);
    }

    method SelectBuffer() returns (request: Option<TlMsg>)
      requires Valid()
      modifies this, responseBuffer, messageBuffer
      ensures sentFrames == old(sentFrames) && ackedSeq == old(ackedSeq)
      ensures Valid()
      ensures var r := EndpointSpec.Select(old(state)); state == r.state && request == r.request
    {
      CountTurn(bufferSelectCounter - 1);
      if bufferSelectCounter > 0 {
        request := DequeueResponse();
        if request.Some? {
          return;
        }
      }
      request := DequeueMessage();
      CountTurn(BUFFER_SELECT_TURNS);
    }

    // ---------- one turn of the main loop ----------

    method UpdateIterationTimestamp(time: nat)
      requires Valid()
      modifies this
      ensures sentFrames == old(sentFrames) && ackedSeq == old(ackedSeq)
      ensures Valid() && state == old(state).(now := time)
    {
      iterationTs := time;
      state := state.(now := time);
    }

    /** The first half of a turn: choose, read the clock, and send. */
    method SendTurn(pending: Option<TlMsg>, time: nat) returns (left: Option<TlMsg>)
      requires Valid()
      modifies this, responseBuffer, messageBuffer, fc.credits, fc.txFlowCredits
      modifies ackBuffer, retransmitBuffer, retransmitBuffer.data
      ensures Valid()
      ensures var t := EndpointSpec.SendTurn(Wrapping, old(state), pending, time);
              state == t.state && left == t.leftover && sentFrames == old(sentFrames) + t.frames
    {
      var request := pending;
      if request.None? {
        request := SelectBuffer();
      }
      UpdateIterationTimestamp(time);
      left := TX(request);
    }

    /** The second half: serve a frame if one has arrived, then handle a message. */
    method ServeTurn(arrived: Option<Frame>) returns (exited: bool)
      requires Valid()
      modifies this, retransmitBuffer, retransmitBuffer.data, ackBuffer, ackBuffer.data
      modifies tlMsgBuffer, tlMsgBuffer.data, fc.credits, fc.txFlowCredits
      modifies memStorage, responseBuffer, responseBuffer.data
      ensures var r := EndpointSpec.ServeTurn(Wrapping, old(state), arrived);
              && (exited <==> r.Halted?)
              && (!exited ==> Valid() && state == r.state && sentFrames == old(sentFrames) + r.frames)
    {
      exited := false;
      if arrived.Some? {
        exited := RX(arrived.value);
        if exited {
          return;
        }
      }
      exited := TlHandler();
    }

    /** One turn of the loop in tloe_endpoint; the request left over is kept for the next. */
    method Iterate(pending: Option<TlMsg>, time: nat, arrived: Option<Frame>) returns (exited: bool, left: Option<TlMsg>)
      requires Valid()
      modifies Repr()
      ensures var t := EndpointSpec.SendTurn(Wrapping, old(state), pending, time);
              var r := EndpointSpec.ServeTurn(Wrapping, t.state, arrived);
              && left == t.leftover && (exited <==> r.Halted?)
              && (!exited ==> Valid() && state == r.state && sentFrames == old(sentFrames) + t.frames + r.frames)
    {
      left := SendTurn(pending, time);
      exited := ServeTurn(arrived);
    }
  }
}
