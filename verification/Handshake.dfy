/**
 The master side of opening a connection: five credit frames each way, resent on a
 timer, until every channel has been filled.
 */
module Handshake {
  import opened SeqNum
  import opened TileLinkMsg
  import FC = FlowControl
  import opened EndpointSpec
  import System

  const CONN_CHANNELS := 5

  /** One turn of the open loop: what arrived, and whether the resend timer ran out. */
  datatype Turn = Turn(arrived: Option<Frame>, expired: bool)

  /** What can arrive: one of the slave's five credit frames, any number of times, or a
      frame numbered after them. */
  predicate FromSlave(f: Frame) {
    && 0 <= f.seqNum <= MAX_SEQ_NUM
    && (f.seqNum < CONN_CHANNELS ==> f.chan == f.seqNum + 1 && f.credit == FC.CREDIT_DEFAULT)
  }

  predicate CarriesNumber(t: Turn, k: int) {
    t.arrived.Some? && t.arrived.value.seqNum == k
  }

  /** Credit frames accepted in order by the end of the stream. */
  function Progress(turns: seq<Turn>): (p: nat)
    ensures p <= CONN_CHANNELS
  {
    if turns == [] then 0
    else
      var p := Progress(turns[..|turns| - 1]);
      if p < CONN_CHANNELS && CarriesNumber(turns[|turns| - 1], p) then p + 1 else p
  }

  /** Numbers 0..k-1 occur in the stream in that order, with anything in between. */
  ghost predicate HasInOrder(turns: seq<Turn>, k: nat) {
    k == 0 || exists i :: 0 <= i < |turns| && CarriesNumber(turns[i], k - 1) && HasInOrder(turns[..i], k - 1)
  }

  lemma {:induction false} ProgressOfPrefix(turns: seq<Turn>, i: nat)
    requires i <= |turns|
    ensures Progress(turns[..i]) <= Progress(turns)
  {
    if i < |turns| {
      ProgressOfPrefix(turns[..|turns| - 1], i);
      assert turns[..|turns| - 1][..i] == turns[..i];
    } else {
      assert turns[..i] == turns;
    }
  }

  lemma {:induction false} InOrderOfPrefix(turns: seq<Turn>, m: nat, k: nat)
    requires m <= |turns| && HasInOrder(turns[..m], k)
    ensures HasInOrder(turns, k)
  {
    if k > 0 {
      var i :| 0 <= i < m && CarriesNumber(turns[..m][i], k - 1) && HasInOrder(turns[..m][..i], k - 1);
      assert turns[..m][..i] == turns[..i];
    }
  }

  lemma {:induction false} ProgressComesInOrder(turns: seq<Turn>, k: nat)
    requires k <= Progress(turns)
    ensures HasInOrder(turns, k)
  {
    if turns != [] && k > 0 {
      var last := |turns| - 1;
      if k <= Progress(turns[..last]) {
        ProgressComesInOrder(turns[..last], k);
        InOrderOfPrefix(turns, last, k);
      } else {
        ProgressComesInOrder(turns[..last], k - 1);
        assert CarriesNumber(turns[last], k - 1);
      }
    }
  }

  lemma {:induction false} InOrderMakesProgress(turns: seq<Turn>, k: nat)
    requires k <= CONN_CHANNELS && HasInOrder(turns, k)
    ensures Progress(turns) >= k
  {
    if k > 0 {
      var i :| 0 <= i < |turns| && CarriesNumber(turns[i], k - 1) && HasInOrder(turns[..i], k - 1);
      InOrderMakesProgress(turns[..i], k - 1);
      assert turns[..i + 1][..i] == turns[..i];
      ProgressOfPrefix(turns, i + 1);
    }
  }

  /** Accepting greedily misses nothing: k frames are accepted exactly when the first k
      numbers occur in order, whatever is lost, resent or interleaved. */
  lemma ProgressIsInOrder(turns: seq<Turn>, k: nat)
    requires k <= CONN_CHANNELS
    ensures Progress(turns) >= k <==> HasInOrder(turns, k)
  {
    if k <= Progress(turns) {
      ProgressComesInOrder(turns, k);
    }
    if HasInOrder(turns, k) {
      InOrderMakesProgress(turns, k);
    }
  }

  /** Credits of the channels up to `p` filled, the others as initialised. */
  predicate FilledUpTo(credits: FC.Counters, p: nat) {
    forall c :: 0 <= c < CHANNEL_NUM ==>
      credits[c] == if 1 <= c <= p then System.FULL_CREDIT else 128
  }

  /** The first k credit frames: number c - 1 fills channel c. */
  function CreditFrames(ack: int, k: nat): seq<Frame>
    requires k <= CONN_CHANNELS
  {
    if k == 0 then []
    else CreditFrames(ack, k - 1)
         + [Frame(if k == CHANNEL_A then OpenFrame else NormalFrame, k - 1, ack, true, k, FC.CREDIT_DEFAULT, None)]
  }

  /** The five of them: channels 1 to 5, numbers 0 to 4, 2^10 credits each, the first one open. */
  function FiveFrames(ack: int): (fs: seq<Frame>)
    ensures |fs| == 5
  {
    [Frame(OpenFrame, 0, ack, true, 1, 10, None), Frame(NormalFrame, 1, ack, true, 2, 10, None),
     Frame(NormalFrame, 2, ack, true, 3, 10, None), Frame(NormalFrame, 3, ack, true, 4, 10, None),
     Frame(NormalFrame, 4, ack, true, 5, 10, None)]
  }

  lemma CreditFramesAreFive(ack: int)
    ensures CreditFrames(ack, CONN_CHANNELS) == FiveFrames(ack)
  {
    var fs := FiveFrames(ack);
    assert CreditFrames(ack, 1) == CreditFrames(ack, 0) + [fs[0]];
    assert CreditFrames(ack, 2) == CreditFrames(ack, 1) + [fs[1]];
    assert CreditFrames(ack, 3) == CreditFrames(ack, 2) + [fs[2]];
    assert CreditFrames(ack, 4) == CreditFrames(ack, 3) + [fs[3]];
  }

  /** The number before the one expected: the last one accepted, or the highest there is. */
  function LastAccepted(expected: nat): int {
    if expected == 0 then 0x3F_FFFF else expected - 1
  }

  /** The turn is served, the timer having run out in the one before it or not yet run. */
  ghost predicate Resends(turns: seq<Turn>, i: nat)
    requires i < |turns|
  {
    Progress(turns[..i]) < CONN_CHANNELS && (i == 0 || turns[i - 1].expired)
  }

  /** What the open loop sends before it closes: five frames in each such turn, which
      acknowledge the last number accepted by then. */
  ghost function OpeningFrames(turns: seq<Turn>): seq<Frame> {
    if turns == [] then []
    else
      var last := |turns| - 1;
      OpeningFrames(turns[..last])
      + if Resends(turns, last) then FiveFrames(LastAccepted(Progress(turns[..last]))) else []
  }

  lemma TurnSends(turns: seq<Turn>, i: nat, timer: bool)
    requires i < |turns| && Progress(turns[..i]) < CONN_CHANNELS
    requires timer <==> i == 0 || turns[i - 1].expired
    ensures OpeningFrames(turns[..i + 1])
            == OpeningFrames(turns[..i]) + if timer then FiveFrames(LastAccepted(Progress(turns[..i]))) else []
    ensures Progress(turns[..i + 1])
            == if CarriesNumber(turns[i], Progress(turns[..i])) then Progress(turns[..i]) + 1 else Progress(turns[..i])
  {
    assert turns[..i + 1][..i] == turns[..i];
  }

  /** How many turns send. */
  ghost function Batches(turns: seq<Turn>): set<nat> {
    set i: nat | i < |turns| && Resends(turns, i)
  }

  /** The loop sends five frames for each turn that sends, and no others. */
  lemma {:induction false} FiveForEachBatch(turns: seq<Turn>)
    ensures |OpeningFrames(turns)| == 5 * |Batches(turns)|
  {
    if turns != [] {
      var last := |turns| - 1;
      FiveForEachBatch(turns[..last]);
      BatchesGrow(turns, last);
    }
  }

  lemma BatchesGrow(turns: seq<Turn>, last: nat)
    requires |turns| == last + 1
    ensures last !in Batches(turns[..last])
    ensures Batches(turns) == Batches(turns[..last]) + if Resends(turns, last) then {last} else {}
  {
    forall i: nat | i < last
      ensures Resends(turns, i) <==> Resends(turns[..last], i)
    {
      assert turns[..last][..i] == turns[..i];
    }
  }

  /** Once all five numbers have come in, nothing more is sent. */
  lemma {:induction false} SilentWhenFilled(turns: seq<Turn>, i: nat)
    requires i <= |turns| && Progress(turns[..i]) == CONN_CHANNELS
    ensures OpeningFrames(turns) == OpeningFrames(turns[..i])
  {
    if i < |turns| {
      var front := turns[..|turns| - 1];
      assert front[..i] == turns[..i];
      ProgressOfPrefix(front, i);
      SilentWhenFilled(front, i);
    } else {
      assert turns[..i] == turns;
    }
  }

  /** The frame that closes the handshake. */
  function ClosingFrame(): Frame {
    Frame(NormalFrame, CONN_CHANNELS, CONN_CHANNELS - 1, true, 0, 0, None)
  }

  /** When the slave accepts it, the connection is where the data phase starts. */
  lemma ClosingFrameAccepted()
    ensures EndpointSpec.Receive(Wrapping, System.OpenedEndpoint(5, 5), ClosingFrame())
            == Received(System.Initial().b.ep, [])
  {
  }

  const NOTHING_OWED: FC.Counters := [0, 0, 0, 0, 0, 0]

  class Master {
    const fc: FC.FlowControl
    var nextTxSeq: int
    var nextRxSeq: int
    var ackedSeq: int
    var sentFrames: seq<Frame>

    ghost predicate Valid()
      reads this, fc
    {
      fc.Valid()
    }

    ghost function Repr(): set<object> {
      {this, fc, fc.credits, fc.txFlowCredits}
    }

    constructor ()
      ensures Valid() && fresh(Repr())
      ensures nextRxSeq == 0 && FilledUpTo(fc.Credits(), 0) && fc.Owed() == NOTHING_OWED && sentFrames == []
    {
      fc := new FC.FlowControl();
      nextTxSeq, nextRxSeq, ackedSeq := 0, 0, MAX_SEQ_NUM;
      sentFrames := [];
    }

    method SendFrame(kind: Kind, seqNum: int, chan: FC.Channel, credit: nat)
      requires Valid()
      modifies this`sentFrames
      ensures sentFrames == old(sentFrames) + [Frame(kind, seqNum, Prev(nextRxSeq), true, chan, credit, None)]
    {
      sentFrames := sentFrames + [Frame(kind, seqNum, Prev(nextRxSeq), true, chan, credit, None)];
    }

    /** (Re)sends the five credit frames. */
    method ServeConn()
      requires Valid()
      modifies this`sentFrames, this`nextTxSeq
      ensures nextTxSeq == CONN_CHANNELS
      ensures sentFrames == old(sentFrames) + FiveFrames(Prev(nextRxSeq))
    {
      CreditFramesAreFive(Prev(nextRxSeq));
      for i := 1 to CHANNEL_NUM
        invariant i > 1 ==> nextTxSeq == i - 1
        invariant sentFrames == old(sentFrames) + CreditFrames(Prev(nextRxSeq), i - 1)
      {
        SendFrame(if i == CHANNEL_A then OpenFrame else NormalFrame, i - 1, i, FC.CREDIT_DEFAULT);
        nextTxSeq := i;
      }
    }

    /** Any frame that carries the expected number sets the credit of the channel it names. */
    method RecvConn(arrived: Option<Frame>)
      requires Valid() && 0 <= nextRxSeq <= MAX_SEQ_NUM
      requires arrived.Some? ==> 0 <= arrived.value.seqNum <= MAX_SEQ_NUM
      modifies this`nextRxSeq, this`ackedSeq, fc.credits, fc.txFlowCredits
      ensures Valid()
      ensures if CarriesNumber(Turn(arrived, false), old(nextRxSeq)) then
                var f := arrived.value;
                && nextRxSeq == Next(old(nextRxSeq))
                && fc.Credits() == old(fc.Credits())[f.chan := Pow2(f.credit)]
                && fc.Owed() == old(fc.Owed())[f.chan := 0] && ackedSeq == Newer(old(ackedSeq), f.seqNumAck)
              else
                nextRxSeq == old(nextRxSeq) && ackedSeq == old(ackedSeq) && fc.Credits() == old(fc.Credits()) && fc.Owed() == old(fc.Owed())
    {
      if arrived.Some? {
        var f := arrived.value;
        if Cmp(f.seqNum, nextRxSeq) == 0 {
          fc.SetCredit(f.chan, f.credit);
          nextRxSeq := Next(f.seqNum);
          if Cmp(f.seqNumAck, ackedSeq) > 0 {
            ackedSeq := f.seqNumAck;
          }
        }
      }
    }

    /** On frames the slave sends: channel c is filled exactly for c up to the next number. */
    method RecvConnFromSlave(arrived: Option<Frame>)
      requires Valid() && 0 <= nextRxSeq < CONN_CHANNELS && FilledUpTo(fc.Credits(), nextRxSeq)
      requires fc.Owed() == NOTHING_OWED
      requires arrived.Some? ==> FromSlave(arrived.value)
      modifies this`nextRxSeq, this`ackedSeq, fc.credits, fc.txFlowCredits
      ensures Valid()
      ensures nextRxSeq == if CarriesNumber(Turn(arrived, false), old(nextRxSeq)) then old(nextRxSeq) + 1
                           else old(nextRxSeq)
      ensures FilledUpTo(fc.Credits(), nextRxSeq) && fc.Owed() == NOTHING_OWED
    {
      assert Pow2(FC.CREDIT_DEFAULT) == System.FULL_CREDIT by { Pow2Splits(5, 5); assert Pow2(5) == 32; }
      RecvConn(arrived);
    }

    /** One turn of the loop: resend if the timer ran out, serve what arrived, test. */
    method OpenTurn(timer: bool, arrived: Option<Frame>) returns (done: bool)
      requires Valid() && 0 <= nextRxSeq < CONN_CHANNELS && FilledUpTo(fc.Credits(), nextRxSeq)
      requires fc.Owed() == NOTHING_OWED
      requires arrived.Some? ==> FromSlave(arrived.value)
      requires timer || nextTxSeq == CONN_CHANNELS
      modifies Repr()
      ensures Valid() && nextTxSeq == CONN_CHANNELS
      ensures nextRxSeq == if CarriesNumber(Turn(arrived, false), old(nextRxSeq)) then old(nextRxSeq) + 1
                           else old(nextRxSeq)
      ensures FilledUpTo(fc.Credits(), nextRxSeq) && fc.Owed() == NOTHING_OWED
      ensures done <==> nextRxSeq == CONN_CHANNELS
      ensures sentFrames == old(sentFrames) + if timer then FiveFrames(LastAccepted(old(nextRxSeq))) else []
    {
      if timer {
        ServeConn();
      }
      RecvConnFromSlave(arrived);
      done := fc.CheckAllChannels();
      FilledIffFive(fc.Credits(), nextRxSeq);
    }

    /** The open loop, run on a finite stream: it completes exactly when the slave's five
        frames have arrived in order, and then leaves the master with every channel
        filled and the sequence numbers of the data phase. */
    method OpenConn(turns: seq<Turn>) returns (done: bool)
      requires Valid() && nextRxSeq == 0 && FilledUpTo(fc.Credits(), 0) && fc.Owed() == NOTHING_OWED
      requires forall i :: 0 <= i < |turns| && turns[i].arrived.Some? ==> FromSlave(turns[i].arrived.value)
      modifies Repr()
      ensures Valid()
      ensures done <==> Progress(turns) == CONN_CHANNELS
      ensures nextRxSeq == Progress(turns) && FilledUpTo(fc.Credits(), nextRxSeq)
      ensures done ==>
                NewEndpoint().(nextTx := nextTxSeq, nextRx := nextRxSeq, credits := fc.Credits(), owed := fc.Owed())
                == System.Initial().a.ep
      ensures sentFrames == old(sentFrames) + OpeningFrames(turns) + if done then [ClosingFrame()] else []
    {
      done := false;
      var timer := true;
      var i := 0;
      while i < |turns| && !done
        invariant 0 <= i <= |turns| && Valid()
        invariant nextRxSeq == Progress(turns[..i]) && FilledUpTo(fc.Credits(), nextRxSeq)
        invariant fc.Owed() == NOTHING_OWED
        invariant done <==> nextRxSeq == CONN_CHANNELS
        invariant timer || nextTxSeq == CONN_CHANNELS
        invariant done ==> nextTxSeq == CONN_CHANNELS
        invariant timer <==> i == 0 || turns[i - 1].expired
        invariant sentFrames == old(sentFrames) + OpeningFrames(turns[..i])
        decreases |turns| - i
      {
        TurnSends(turns, i, timer);
        done := OpenTurn(timer, turns[i].arrived);
        timer := turns[i].expired;
        i := i + 1;
      }
      ProgressOfPrefix(turns, i);
      assert i == |turns| ==> turns[..i] == turns;
      if done {
        SilentWhenFilled(turns, i);
        CloseOpening();
      }
    }

    /** The frame after the loop. */
    method CloseOpening()
      requires Valid() && nextTxSeq == nextRxSeq == CONN_CHANNELS && FilledUpTo(fc.Credits(), CONN_CHANNELS)
      requires fc.Owed() == NOTHING_OWED
      modifies this`sentFrames, this`nextTxSeq
      ensures sentFrames == old(sentFrames) + [ClosingFrame()]
      ensures NewEndpoint().(nextTx := nextTxSeq, nextRx := nextRxSeq, credits := fc.Credits(), owed := fc.Owed())
              == System.Initial().a.ep
    {
      SendFrame(NormalFrame, nextTxSeq, 0, 0);
      nextTxSeq := Next(nextTxSeq);
    }
  }

  lemma FilledIffFive(credits: FC.Counters, p: nat)
    requires p <= CONN_CHANNELS && FilledUpTo(credits, p)
    ensures (forall c :: 1 <= c < CHANNEL_NUM ==> credits[c] > Pow2(FC.CREDIT_INIT)) <==> p == CONN_CHANNELS
  {
    assert Pow2(FC.CREDIT_INIT) == 128;
    if p < CONN_CHANNELS {
      assert credits[p + 1] == 128;
    }
  }
}
