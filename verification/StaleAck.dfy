/**
 A run of the two programs in which a message is lost for good: an entry of the ack
 buffer waits while the peer sends 2^21 frames, and when it is sent at last the 22-bit
 comparison takes it for an ack of frames that have not arrived.

 The slave's window stays full because its first frame is always lost, so it sends no new
 frame and the entry cannot leave the ack buffer. Its resent frames make the master send
 frames of its own, which the slave acknowledges by ack-only frames.
 */
module StaleAck {
  import opened SeqNum
  import opened TileLinkMsg
  import opened FlowControl
  import opened EndpointSpec
  import opened System
  import opened Delivery
  import opened LoopTurn
  import opened NodeTurn
  import opened NodeCore

  /** The message that both ends send: it costs one credit and asks for no reply. */
  const MSG: TlMsg := RawMsg(Reply(D_ACCESSACK, 0, 0), [])

  const NOTHING: Counters := [0, 0, 0, 0, 0, 0]
  const ONE_FLIT: Counters := [0, 0, 0, 0, 1, 0]

  lemma MsgFacts()
    ensures OnWire(MSG) == MSG && Flits(MSG.header) == 1 && MSG.header.chan == CHANNEL_D
    ensures !IsPut(MSG) && !IsGet(MSG)
  {
  }

  lemma CreditFacts()
    ensures MaxChannel(NOTHING, CHANNEL_NUM) == 0 && MaxChannel(ONE_FLIT, CHANNEL_NUM) == CHANNEL_D
    ensures LargestPow(1) == 0 && Return(ONE_FLIT, CHANNEL_D) == NOTHING && Return(NOTHING, 0) == NOTHING
    ensures Owe(NOTHING, CHANNEL_D, 1) == ONE_FLIT
  {
    assert Pow2(0) == 1;
  }

  /** A node with nothing pending, received or to be answered, and clear memory. */
  function Bare(nextTx: int, nextRx: int, retx: seq<RetxElement>, ackNums: seq<int>, messages: seq<TlMsg>,
                owed: Counters, creditD: nat, sendAckOnly: bool, ackOnlySent: bool, now: nat,
                sent: seq<TlMsg>, accepted: seq<TlMsg>): Core {
    Core(nextTx, nextRx, retx, ackNums, None, messages, [], [], owed,
         [128, FULL_CREDIT, FULL_CREDIT, FULL_CREDIT, creditD, FULL_CREDIT], sendAckOnly, ackOnlySent, now,
         BUFFER_SELECT_TURNS, seq(MEM_SIZE, _ => 0), sent, accepted)
  }

  // ---------- the slave fills its window ----------

  function SlaveFrame(i: int, ack: int): Frame {
    Frame(NormalFrame, i, ack, true, 0, 0, Some(MSG))
  }

  function SlaveRetx(i: nat, time: nat): seq<RetxElement> {
    seq(i, j => RetxElement(SlaveFrame(5 + j, 5), time))
  }

  function Msgs(i: nat): seq<TlMsg> {
    seq(i, _ => MSG)
  }

  function MasterOpened(): Core {
    Bare(6, 5, [], [], [], NOTHING, 1024, false, false, 0, [], [])
  }

  function SlaveOpened(): Core {
    Bare(5, 6, [], [], [], NOTHING, 1024, true, false, 0, [], [])
  }

  /** The slave after sending i frames that were all lost. */
  function Filling(i: nat): Core
    requires i <= 4
  {
    Bare(5 + i, 6, SlaveRetx(i, 0), [], [], NOTHING, 1024 - i, false, false, 0, Msgs(i), [])
  }

  lemma OpenedTakes()
    ensures Takes(SlaveOpened(), 0, None, Filling(0), [AckOnlyOf(SlaveOpened())])
  {
    CreditFacts();
  }

  lemma InitialCores()
    ensures Now(false, Initial(), SlaveOpened(), MasterOpened(), [], [])
  {
  }

  lemma Opened() returns (t: System)
    ensures Connects(Initial(), t) && Now(false, t, Filling(0), MasterOpened(), [], [])
  {
    InitialCores();
    OpenedTakes();
    var s := TurnMove(false, Initial(), SlaveOpened(), MasterOpened(), [], [], 0, false, Filling(0), [AckOnlyOf(SlaveOpened())]);
    t := DropMove(true, s, MasterOpened(), Filling(0), [], [AckOnlyOf(SlaveOpened())], 1);
    ConnectsOn(Initial(), s, t);
  }

  lemma FillingTakes(i: nat)
    requires i < 4
    ensures Takes(Filling(i).(messages := [MSG]), 0, None, Filling(i + 1), [SlaveFrame(5 + i, 5)])
  {
    MsgFacts();
    CreditFacts();
    assert SlaveRetx(i + 1, 0) == SlaveRetx(i, 0) + [RetxElement(SlaveFrame(5 + i, 5), 0)];
    assert Msgs(i + 1) == Msgs(i) + [MSG];
    assert Next(5 + i) == 5 + (i + 1);
    assert [MSG][1..] == [];
  }

  lemma FillOne(s: System, i: nat) returns (t: System)
    requires i < 4 && Now(false, s, Filling(i), MasterOpened(), [], [])
    ensures Connects(s, t) && Now(false, t, Filling(i + 1), MasterOpened(), [], [])
  {
    FillingTakes(i);
    var u := QueueMove(false, s, Filling(i), MasterOpened(), [], [], MSG);
    var v := TurnMove(false, u, Filling(i).(messages := [MSG]), MasterOpened(), [], [], 0, false,
                      Filling(i + 1), [SlaveFrame(5 + i, 5)]);
    t := DropMove(true, v, MasterOpened(), Filling(i + 1), [], [SlaveFrame(5 + i, 5)], 1);
    ConnectsOn(s, u, v);
    ConnectsOn(s, v, t);
  }

  lemma {:induction false} Filled(i: nat) returns (t: System)
    requires i <= 4
    ensures Connects(Initial(), t) && Now(false, t, Filling(i), MasterOpened(), [], [])
  {
    if i == 0 {
      t := Opened();
    } else {
      var s := Filled(i - 1);
      t := FillOne(s, i - 1);
      ConnectsOn(Initial(), s, t);
    }
  }

  /** No frame of the slave's window is acknowledged by a number below it. */
  lemma SlaveSlides(time: nat)
    ensures Slide(Wrapping, SlaveRetx(4, time), 4) == SlaveRetx(4, time)
    ensures Slide(Wrapping, SlaveRetx(4, time), 5) == SlaveRetx(4, time)[1..]
  {
    assert SlaveRetx(4, time)[0].frame.seqNum == 5 && SlaveRetx(4, time)[1..][0].frame.seqNum == 6;
  }

  // ---------- the entry ----------

  const PERIOD := TIMEOUT_TIME

  function MasterFrame(ack: int): Frame {
    Frame(NormalFrame, 6, ack, true, 0, 0, Some(MSG))
  }

  /** The master after sending frame 6, last at `time`. */
  function MasterSent(time: nat): Core {
    Bare(7, 5, [RetxElement(MasterFrame(4), time)], [], [], NOTHING, 1023, false, false, time, [MSG], [])
  }

  /** The slave after accepting it, with the queued acks given. */
  function SlaveHas(ackNums: seq<int>): Core {
    Bare(9, 7, SlaveRetx(4, 0), ackNums, [], ONE_FLIT, 1020, false, false, 0, Msgs(4), [MSG])
  }

  lemma FirstSendTakes()
    ensures Takes(MasterOpened().(messages := [MSG]), 0, None, MasterSent(0), [MasterFrame(4)])
  {
    MsgFacts();
    CreditFacts();
    assert [MSG][1..] == [];
  }

  lemma FirstAccepted()
    ensures Acceptable(Filling(4), MasterFrame(4))
    ensures AfterRx(Filling(4), MasterFrame(4)) == SlaveHas([]).(inbox := [MSG], owed := NOTHING)
  {
    MsgFacts();
    SlaveSlides(0);
  }

  lemma FirstHandled()
    ensures var c := SlaveHas([]).(inbox := [MSG], owed := NOTHING);
            Workable(c) && AfterHandler(c) == SlaveHas([])
  {
    MsgFacts();
    CreditFacts();
    assert [MSG][1..] == [];
  }

  lemma FirstServeTakes()
    ensures Takes(Filling(4), 0, Some(MasterFrame(4)), SlaveHas([]), [])
  {
    FullIsQuiet();
    FirstAccepted();
    FirstHandled();
  }

  /** With its window full and no time gone by, the slave sends nothing. */
  lemma FullIsQuiet()
    ensures Picked(Filling(4), 0) == Filling(4) && Plain(Filling(4))
    ensures AfterSend(Filling(4)) == Filling(4) && SentFrames(Filling(4)) == []
  {
    CreditFacts();
  }

  lemma FirstSent(s: System) returns (t: System)
    requires Now(true, s, MasterOpened(), Filling(4), [], [])
    ensures Connects(s, t) && Now(true, t, MasterSent(0), Filling(4), [MasterFrame(4)], [])
  {
    FirstSendTakes();
    var u := QueueMove(true, s, MasterOpened(), Filling(4), [], [], MSG);
    t := TurnMove(true, u, MasterOpened().(messages := [MSG]), Filling(4), [], [], 0, false, MasterSent(0), [MasterFrame(4)]);
    ConnectsOn(s, u, t);
  }

  lemma FirstServed(s: System) returns (t: System)
    requires Now(false, s, Filling(4), MasterSent(0), [], [MasterFrame(4)])
    ensures Connects(s, t) && Now(false, t, SlaveHas([]), MasterSent(0), [], [])
  {
    FirstServeTakes();
    t := TurnMove(false, s, Filling(4), MasterSent(0), [], [MasterFrame(4)], 0, true, SlaveHas([]), []);
    assert [MasterFrame(4)][1..] == [];
  }

  /** The master's frame 6 reaches the slave. */
  lemma FirstFrame(s: System) returns (t: System)
    requires Now(true, s, MasterOpened(), Filling(4), [], [])
    ensures Connects(s, t) && Now(true, t, MasterSent(0), SlaveHas([]), [], [])
  {
    var u := FirstSent(s);
    t := FirstServed(u);
    ConnectsOn(s, u, t);
  }

  lemma MasterResends(since: nat)
    ensures Takes(MasterSent(since), since + PERIOD, None, MasterSent(since + PERIOD), [MasterFrame(4)])
  {
    CreditFacts();
    assert Stamped(MasterSent(since).retx, since + PERIOD) == MasterSent(since + PERIOD).retx;
    assert Resent(MasterSent(since).retx, 4) == [MasterFrame(4)];
  }

  lemma DuplicateTakes()
    ensures Takes(SlaveHas([]), 0, Some(MasterFrame(4)), SlaveHas([6]), [])
  {
    SlaveSlides(0);
  }

  /** It is not acknowledged, is sent again, and leaves entry 6 in the slave's ack buffer. */
  lemma Duplicate(s: System) returns (t: System)
    requires Now(true, s, MasterSent(0), SlaveHas([]), [], [])
    ensures Connects(s, t) && Now(true, t, MasterSent(PERIOD), SlaveHas([6]), [], [])
  {
    MasterResends(0);
    DuplicateTakes();
    var u := TurnMove(true, s, MasterSent(0), SlaveHas([]), [], [], PERIOD, false, MasterSent(PERIOD), [MasterFrame(4)]);
    t := TurnMove(false, u, SlaveHas([]), MasterSent(PERIOD), [], [MasterFrame(4)], 0, true, SlaveHas([6]), []);
    ConnectsOn(s, u, t);
  }

  // ---------- the slave's timeout ----------

  function Late(ack: int): seq<Frame> {
    seq(4, j => SlaveFrame(5 + j, ack))
  }

  /** The slave's turn on a timeout: perhaps an ack-only frame, and its window again. */
  lemma LateTakes(c: Core, time: nat, since: nat)
    requires c.retx == SlaveRetx(4, since) && !c.sendAckOnly && time >= since + TIMEOUT_TIME && time >= c.now
    requires c.pending.None? && c.messages == [] && c.responses == [] && c.inbox == [] && c.turns == BUFFER_SELECT_TURNS
    ensures Takes(c, time, None, c.(retx := SlaveRetx(4, time), now := time, ackOnlySent := true),
                  (if c.ackOnlySent then [] else [AckOnlyOf(c)]) + Late(Prev(c.nextRx)))
  {
    assert Stamped(c.retx, time) == SlaveRetx(4, time);
    assert Resent(c.retx, Prev(c.nextRx)) == Late(Prev(c.nextRx));
  }

  // ---------- the stuck window ----------

  /** After k rounds: the master has sent 1 + k frames, all accepted; the slave's four are
      all unaccepted, and the ack of the duplicate of frame 6 has not been sent. */
  function MasterAt(k: nat): Core {
    Bare(7 + k, 5, [], [], [], NOTHING, 1023, false, false, PERIOD, [MSG], [])
  }

  function SlaveAt(k: nat): Core {
    Bare(9, 7 + k, SlaveRetx(4, PERIOD * (k + 1)), [6], [], ONE_FLIT, 1020, false, k == 0, PERIOD * (k + 1), Msgs(4), [MSG])
  }

  ghost predicate Stuck(s: System, k: nat) {
    Now(true, s, MasterAt(k), SlaveAt(k), [], [])
  }

  lemma AckingTakes()
    ensures var ack := AckOnlyOf(SlaveHas([6]));
            && Takes(SlaveHas([6]), PERIOD, None, SlaveAt(0), [ack] + Late(6))
            && ([ack] + Late(6))[1..] == Late(6) && Late(6)[4..] == []
  {
    LateTakes(SlaveHas([6]), PERIOD, 0);
  }

  lemma AckedTakes()
    ensures Takes(MasterSent(PERIOD), PERIOD, Some(AckOnlyOf(SlaveHas([6]))), MasterAt(0), [])
  {
    CreditFacts();
    assert MasterSent(PERIOD).retx[1..] == [];
  }

  /** Half the timeout makes the slave acknowledge frame 6 after all. */
  lemma Acked(s: System) returns (t: System)
    requires Now(true, s, MasterSent(PERIOD), SlaveHas([6]), [], [])
    ensures Connects(s, t) && Stuck(t, 0)
  {
    AckingTakes();
    AckedTakes();
    var ack := AckOnlyOf(SlaveHas([6]));
    var u := TurnMove(false, s, SlaveHas([6]), MasterSent(PERIOD), [], [], PERIOD, false, SlaveAt(0), [ack] + Late(6));
    var v := TurnMove(true, u, MasterSent(PERIOD), SlaveAt(0), [], [ack] + Late(6), PERIOD, true, MasterAt(0), []);
    t := DropMove(true, v, MasterAt(0), SlaveAt(0), [], Late(6), 4);
    ConnectsOn(s, u, v);
    ConnectsOn(s, v, t);
  }

  lemma FirstStuck() returns (t: System)
    ensures Connects(Initial(), t) && Stuck(t, 0)
  {
    var s := Filled(4);
    var u := FirstFrame(s);
    var v := Duplicate(u);
    t := Acked(v);
    ConnectsOn(Initial(), s, u);
    ConnectsOn(Initial(), u, v);
    ConnectsOn(Initial(), v, t);
  }

  // ---------- one round ----------

  function SlaveLate(k: nat): Core {
    SlaveAt(k).(retx := SlaveRetx(4, PERIOD * (k + 2)), now := PERIOD * (k + 2), ackOnlySent := true)
  }

  lemma LateTakesAt(k: nat)
    ensures var ack := AckOnlyOf(SlaveAt(k));
            && Takes(SlaveAt(k), PERIOD * (k + 2), None, SlaveLate(k), (if k == 0 then [] else [ack]) + Late(6 + k))
            && ([ack] + Late(6 + k))[1..] == Late(6 + k) && [] + Late(6 + k) == Late(6 + k)
  {
    LateTakes(SlaveAt(k), PERIOD * (k + 2), PERIOD * (k + 1));
  }

  /** The slave resends its window; an ack-only frame before it is lost. */
  lemma LateTurn(s: System, k: nat, master: Core) returns (t: System)
    requires Now(true, s, master, SlaveAt(k), [], [])
    ensures Connects(s, t) && Now(true, t, master, SlaveLate(k), [], Late(6 + k))
  {
    LateTakesAt(k);
    var frames := (if k == 0 then [] else [AckOnlyOf(SlaveAt(k))]) + Late(6 + k);
    t := TurnMove(false, s, SlaveAt(k), master, [], [], PERIOD * (k + 2), false, SlaveLate(k), frames);
    if k > 0 {
      var u := t;
      t := DropMove(true, u, master, SlaveLate(k), [], frames, 1);
      ConnectsOn(s, u, t);
    }
  }

  /** The master's frame of round k carries nothing but an ack. */
  function Empty(k: nat): Frame {
    Frame(NormalFrame, 7 + k, 4, true, 0, 0, None)
  }

  function MasterEmpty(k: nat): Core {
    MasterAt(k).(nextTx := 8 + k, retx := [RetxElement(Empty(k), PERIOD)])
  }

  /** The slave with the master's frame accepted. */
  function SlaveNext(k: nat): Core {
    SlaveLate(k).(nextRx := 8 + k, sendAckOnly := true, ackOnlySent := false)
  }

  predicate Early(k: nat) {
    8 + k <= MAX_SEQ_NUM
  }

  lemma MasterTakes(k: nat)
    requires Early(k)
    ensures var m := MasterAt(k).(ackNums := [4]);
            && Takes(MasterAt(k), PERIOD, Some(SlaveFrame(6, 6 + k)), m, [])
            && Takes(m, PERIOD, None, MasterEmpty(k), [Empty(k)])
  {
    CreditFacts();
    assert [4][1..] == [];
  }

  lemma SlaveTakes(k: nat)
    requires Early(k)
    ensures Takes(SlaveLate(k), PERIOD * (k + 2), Some(Empty(k)), SlaveNext(k), [])
    ensures Takes(SlaveNext(k), PERIOD * (k + 2), None, SlaveAt(k + 1), [AckOnlyOf(SlaveNext(k))])
  {
    SlaveSlides(PERIOD * (k + 2));
  }

  lemma AckTakes(k: nat)
    requires Early(k)
    ensures Takes(MasterEmpty(k), PERIOD, Some(AckOnlyOf(SlaveNext(k))), MasterAt(k + 1), [])
  {
    CreditFacts();
    assert MasterEmpty(k).retx[1..] == [] && Slide(Wrapping, MasterEmpty(k).retx, 7 + k) == [];
  }

  /** Frame 6 of the slave makes the master send one. */
  lemma Provoked(s: System, k: nat) returns (t: System)
    requires Early(k) && Stuck(s, k)
    ensures Connects(s, t) && Now(true, t, MasterEmpty(k), SlaveLate(k), [Empty(k)], [])
  {
    MasterTakes(k);
    var m, c := MasterAt(k).(ackNums := [4]), SlaveLate(k);
    var u := LateTurn(s, k, MasterAt(k));
    var v := DropMove(true, u, MasterAt(k), c, [], Late(6 + k), 1);
    assert Late(6 + k)[1..][0] == SlaveFrame(6, 6 + k);
    var w := TurnMove(true, v, MasterAt(k), c, [], Late(6 + k)[1..], PERIOD, true, m, []);
    var x := DropMove(true, w, m, c, [], Late(6 + k)[1..][1..], 2);
    assert Late(6 + k)[1..][1..][2..] == [];
    t := TurnMove(true, x, m, c, [], [], PERIOD, false, MasterEmpty(k), [Empty(k)]);
    ConnectsOn(s, u, v);
    ConnectsOn(s, v, w);
    ConnectsOn(s, w, x);
    ConnectsOn(s, x, t);
  }

  /** The slave accepts it and acknowledges it by an ack-only frame. */
  lemma Answered(s: System, k: nat) returns (t: System)
    requires Early(k) && Now(true, s, MasterEmpty(k), SlaveLate(k), [Empty(k)], [])
    ensures Connects(s, t) && Stuck(t, k + 1)
  {
    SlaveTakes(k);
    AckTakes(k);
    var ack := AckOnlyOf(SlaveNext(k));
    var u := TurnMove(false, s, SlaveLate(k), MasterEmpty(k), [], [Empty(k)], PERIOD * (k + 2), true, SlaveNext(k), []);
    var v := TurnMove(false, u, SlaveNext(k), MasterEmpty(k), [], [], PERIOD * (k + 2), false, SlaveAt(k + 1), [ack]);
    t := TurnMove(true, v, MasterEmpty(k), SlaveAt(k + 1), [], [ack], PERIOD, true, MasterAt(k + 1), []);
    ConnectsOn(s, u, v);
    ConnectsOn(s, v, t);
  }

  lemma OneRound(s: System, k: nat) returns (t: System)
    requires Early(k) && Stuck(s, k)
    ensures Connects(s, t) && Stuck(t, k + 1)
  {
    var u := Provoked(s, k);
    t := Answered(u, k);
    ConnectsOn(s, u, t);
  }

  lemma {:induction false} Rounds(s: System, k: nat) returns (t: System)
    requires Stuck(s, 0) && 7 + k <= MAX_SEQ_NUM
    ensures Connects(s, t) && Stuck(t, k)
    decreases k
  {
    t := s;
    ConnectsSelf(s);
    if k > 0 {
      var j: nat := k - 1;
      var u := Rounds(s, j);
      t := OneRound(u, j);
      ConnectsOn(s, u, t);
    }
  }

  // ---------- the loss ----------

  const LAST := HALF_MAX_SEQ_NUM - 1

  /** The number half the circle after that of the waiting entry. */
  const FAR := 6 + HALF_MAX_SEQ_NUM

  function LostFrame(): Frame {
    Frame(NormalFrame, FAR, 4, true, 0, 0, Some(MSG))
  }

  /** The frame that returns the slave's credit and opens its window by one. */
  function OpeningFrame(): Frame {
    Frame(NormalFrame, FAR + 1, 5, true, CHANNEL_D, 0, None)
  }

  /** The frame that carries the entry. */
  function StaleFrame(): Frame {
    Frame(NormalFrame, 9, 6, true, CHANNEL_D, 0, None)
  }

  function MasterLost(): Core {
    Bare(FAR + 1, 5, [RetxElement(LostFrame(), PERIOD)], [], [], NOTHING, 1022, false, false, PERIOD, [MSG, MSG], [])
  }

  function MasterCredited(): Core {
    MasterLost().(nextRx := 6, accepted := [MSG], owed := ONE_FLIT)
  }

  function MasterOpening(): Core {
    MasterCredited().(nextTx := FAR + 2, owed := NOTHING,
                      retx := [RetxElement(LostFrame(), PERIOD), RetxElement(OpeningFrame(), PERIOD)])
  }

  /** The master when the entry has freed both of its frames. */
  function MasterMisled(): Core {
    MasterOpening().(retx := [], ackNums := [5])
  }

  function SlaveOpening(): Core {
    SlaveLate(LAST).(retx := SlaveRetx(4, PERIOD * (LAST + 2))[1..], ackNums := [6, FAR - 1], ackOnlySent := false)
  }

  function SlaveSends(): Core {
    SlaveOpening().(nextTx := 10, owed := NOTHING, ackNums := [FAR - 1],
                    retx := SlaveRetx(4, PERIOD * (LAST + 2))[1..] + [RetxElement(StaleFrame(), PERIOD * (LAST + 2))])
  }

  lemma LostTakes()
    ensures Takes(MasterAt(LAST).(messages := [MSG]), PERIOD, None, MasterLost(), [LostFrame()])
  {
    MsgFacts();
    CreditFacts();
    assert [MSG][1..] == [];
  }

  lemma CreditedTakes()
    ensures Takes(MasterLost(), PERIOD, Some(SlaveFrame(5, 6 + LAST)), MasterCredited(), [])
  {
    MsgFacts();
    CreditFacts();
    assert [MSG][1..] == [];
  }

  lemma ReturningTakes()
    ensures Takes(MasterCredited(), PERIOD, None, MasterOpening(), [OpeningFrame()])
  {
    CreditFacts();
  }

  lemma OpeningTakes()
    ensures Takes(SlaveLate(LAST), PERIOD * (LAST + 2), Some(OpeningFrame()), SlaveOpening(), [])
  {
    CreditFacts();
    SlaveSlides(PERIOD * (LAST + 2));
  }

  lemma StaleFrameTakes()
    ensures Takes(SlaveOpening(), PERIOD * (LAST + 2), None, SlaveSends(), [StaleFrame()])
  {
    CreditFacts();
    assert [6, FAR - 1][1..] == [FAR - 1];
  }

  /** On 22 bits 6 is not behind FAR, so the entry frees both of the master's frames. */
  lemma StaleTakes()
    ensures Takes(MasterOpening(), PERIOD, Some(StaleFrame()), MasterMisled(), [])
  {
    CreditFacts();
    assert MasterOpening().retx[1..] == [RetxElement(OpeningFrame(), PERIOD)];
    assert MasterOpening().retx[1..][1..] == [];
  }

  /** The master's next message is lost on the way. */
  lemma LoseFar(s: System) returns (t: System)
    requires Stuck(s, LAST)
    ensures Connects(s, t) && Now(true, t, MasterLost(), SlaveAt(LAST), [], [])
  {
    LostTakes();
    var u := QueueMove(true, s, MasterAt(LAST), SlaveAt(LAST), [], [], MSG);
    var v := TurnMove(true, u, MasterAt(LAST).(messages := [MSG]), SlaveAt(LAST), [], [], PERIOD, false,
                      MasterLost(), [LostFrame()]);
    t := DropMove(false, v, SlaveAt(LAST), MasterLost(), [], [LostFrame()], 1);
    ConnectsOn(s, u, v);
    ConnectsOn(s, v, t);
  }

  /** At last frame 5 arrives. */
  lemma Accepted(s: System) returns (t: System)
    requires Now(true, s, MasterLost(), SlaveLate(LAST), [], Late(6 + LAST))
    ensures Connects(s, t) && Now(true, t, MasterCredited(), SlaveLate(LAST), [], Late(6 + LAST)[1..])
  {
    CreditedTakes();
    assert Late(6 + LAST)[0] == SlaveFrame(5, 6 + LAST);
    t := TurnMove(true, s, MasterLost(), SlaveLate(LAST), [], Late(6 + LAST), PERIOD, true, MasterCredited(), []);
  }

  /** The master returns its credit. */
  lemma Opening(s: System) returns (t: System)
    requires Now(true, s, MasterLost(), SlaveAt(LAST), [], [])
    ensures Connects(s, t) && Now(true, t, MasterOpening(), SlaveLate(LAST), [OpeningFrame()], [])
  {
    var u := LateTurn(s, LAST, MasterLost());
    var v := Accepted(u);
    var w := DropMove(true, v, MasterCredited(), SlaveLate(LAST), [], Late(6 + LAST)[1..], 3);
    assert Late(6 + LAST)[1..][3..] == [];
    ReturningTakes();
    t := TurnMove(true, w, MasterCredited(), SlaveLate(LAST), [], [], PERIOD, false, MasterOpening(), [OpeningFrame()]);
    ConnectsOn(s, u, v);
    ConnectsOn(s, v, w);
    ConnectsOn(s, w, t);
  }

  /** The slave's window opens, the entry is sent, and the master drops its frames. */
  lemma Misread(s: System) returns (t: System)
    requires Now(true, s, MasterOpening(), SlaveLate(LAST), [OpeningFrame()], [])
    ensures Connects(s, t) && t.a.ep.retx == [] && t.a.sent == [MSG, MSG] && t.b.accepted == [MSG]
  {
    OpeningTakes();
    StaleFrameTakes();
    StaleTakes();
    var time := PERIOD * (LAST + 2);
    var u := TurnMove(false, s, SlaveLate(LAST), MasterOpening(), [], [OpeningFrame()], time, true, SlaveOpening(), []);
    var v := TurnMove(false, u, SlaveOpening(), MasterOpening(), [], [], time, false, SlaveSends(), [StaleFrame()]);
    t := TurnMove(true, v, MasterOpening(), SlaveSends(), [], [StaleFrame()], PERIOD, true, MasterMisled(), []);
    ConnectsOn(s, u, v);
    ConnectsOn(s, v, t);
  }

  lemma NotDelivered(w: System)
    requires w.a.ep.retx == [] && w.a.sent == [MSG, MSG] && w.b.accepted == [MSG]
    ensures !ExactlyOnce(Wrapping, w.a, w.b)
  {
    assert |OnWireAll(w.a.sent)| == 2;
  }

  /** Two programs, a network that only loses frames, and whole turns of their loops can end
      with a message consumed by TX that is neither accepted nor buffered any more. */
  lemma MessageLost() returns (es: seq<Event>, w: System)
    ensures WholeTurns(es) && Run(Wrapping, Initial(), AllSteps(es)) == Some(w)
    ensures PlayAll(View(Initial()), es) == Some(View(w))
    ensures |w.a.sent| == 2 && |w.b.accepted| == 1 && w.a.ep.retx == []
    ensures !ExactlyOnce(Wrapping, w.a, w.b)
  {
    var r := FirstStuck();
    var s := Rounds(r, LAST);
    var t := LoseFar(s);
    var u := Opening(t);
    w := Misread(u);
    ConnectsOn(Initial(), r, s);
    ConnectsOn(Initial(), s, t);
    ConnectsOn(Initial(), t, u);
    ConnectsOn(Initial(), u, w);
    es :| WholeTurns(es) && Run(Wrapping, Initial(), AllSteps(es)) == Some(w);
    PlayIsRun(Initial(), es);
    NotDelivered(w);
  }
}
