/**
 The end of the run into a deadlock: the client's window gets through, and an ack of a
 duplicate empties it. Nothing is left to send but what neither end can pay for.
 */
module DeadlockReached {
  import opened SeqNum
  import opened TileLinkMsg
  import opened FlowControl
  import opened EndpointSpec
  import opened System
  import opened LoopTurn
  import opened NodeTurn
  import opened NodeCore
  import opened StaleAck
  import opened Deadlock
  import opened DeadlockRun
  import opened DeadlockReplies

  /** The server with a request that it cannot pay. */
  function Held(g: Game, nextTx: int, nextRx: int, retx: seq<RetxElement>, ackNums: seq<int>, inbox: seq<TlMsg>, x: nat): Core {
    Server(g, nextTx, nextRx, retx, ackNums, Some(g.big), [], Copies(99, g.big), inbox, x, 45, false, PERIOD, 4)
  }

  predicate Backed(inbox: seq<TlMsg>) {
    0 < |inbox| < 1000 && InBounds(inbox[0])
  }

  lemma BacklogIsBacked(g: Game, j: nat)
    requires Fits(g) && 1 <= j <= 20
    ensures Backed(Backlog(g, j, 15)) && |Backlog(g, j, 15)| < 900
  {
  }

  lemma HeldIsQuiet(g: Game, nextTx: int, nextRx: int, retx: seq<RetxElement>, inbox: seq<TlMsg>, x: nat, c: Core)
    requires Fits(g) && c.now <= PERIOD && Picked(c, PERIOD) == Held(g, nextTx, nextRx, retx, [], inbox, x)
    requires |retx| <= 1 && (retx != [] ==> retx[0].sendTime == PERIOD)
    ensures Sends(c, PERIOD, Held(g, nextTx, nextRx, retx, [], inbox, x), [])
  {
    QuietSend(c, PERIOD, Picked(c, PERIOD));
  }

  lemma LastPick(g: Game, r: Round)
    requires IsRound(r) && r.n == 23
    ensures Picked(ServerIn(g, r), PERIOD) == Held(g, 24, 141, [r.e], [], Backlog(g, r.j, 15), r.x)
  {
    Picks(g, r);
    assert Copies(0, g.big) == [];
  }

  lemma ServerHolds(g: Game, r: Round)
    requires Fits(g) && IsRound(r) && r.n == 23
    ensures Does(ServerIn(g, r), PERIOD, Some(ClientAck(23)), Held(g, 24, 141, [], [], Backlog(g, r.j, 15), r.x), [])
  {
    var inbox := Backlog(g, r.j, 15);
    var d := Held(g, 24, 141, [r.e], [], inbox, r.x);
    LastPick(g, r);
    BacklogGrows(g, r.j, 15);
    HeldIsQuiet(g, 24, 141, [r.e], inbox, r.x, ServerIn(g, r));
    SlidesEvery([r.e], 23);
    AckServes(d, ClientAck(23));
    HalvesDo(ServerIn(g, r), PERIOD, d, [], Some(ClientAck(23)), Held(g, 24, 141, [], [], inbox, r.x));
  }

  // ---------- the client's window gets through ----------

  function ClientLate(g: Game, ack: int): seq<Frame> {
    seq(4, j => ClientFrame(g, j, ack))
  }

  lemma ClientStamps(g: Game, r: int, since: nat, time: nat)
    requires 1 <= r < 1000
    ensures Stamped(ClientRetx(g, 4, since), time) == ClientRetx(g, 4, time)
    ensures Resent(ClientRetx(g, 4, since), Prev(r)) == ClientLate(g, r - 1)
  {
  }

  lemma StuckResends(g: Game, r: int, y: nat, a: nat, since: nat, now: nat, time: nat)
    requires 1 <= r < 1000 && time >= since + TIMEOUT_TIME && time >= now
    ensures Does(StuckClient(g, r, y, a, since, now, true), time, None, StuckClient(g, r, y, a, time, time, true),
                 ClientLate(g, r - 1))
  {
    var c := StuckClient(g, r, y, a, since, now, true);
    var d, e := c.(now := time), StuckClient(g, r, y, a, time, time, true);
    ClientStamps(g, r, since, time);
    LateSend(c, time, d);
    NoneServes(e);
    HalvesDo(c, time, e, ClientLate(g, r - 1), None, e);
  }

  lemma HeldTakes(g: Game, i: nat, inbox: seq<TlMsg>, x: nat)
    requires Fits(g) && i < 4 && Backed(inbox)
    ensures Does(Held(g, 24, 141 + i, [], [], inbox, x), PERIOD, Some(ClientFrame(g, i, 23)),
                 Held(g, 24, 141 + (i + 1), [], [], inbox + [g.small], x), [])
  {
    var c, e := Held(g, 24, 141 + i, [], [], inbox, x), Held(g, 24, 141 + (i + 1), [], [], inbox + [g.small], x);
    HeldIsQuiet(g, 24, 141 + i, [], inbox, x, c);
    MessageWaits(c, ClientFrame(g, i, 23), g.small);
    HalvesDo(c, PERIOD, c, [], Some(ClientFrame(g, i, 23)), e);
  }

  ghost predicate HasEntered(s: System, g: Game, i: nat, inbox: seq<TlMsg>, x: nat, c: Core)
    requires i <= 4
  {
    Sees(false, s, Held(g, 24, 141 + i, [], [], inbox, x), c, [], ClientLate(g, 23)[i..])
  }

  lemma EnterOne(s: System, g: Game, i: nat, inbox: seq<TlMsg>, x: nat, c: Core) returns (t: System)
    requires Fits(g) && i < 4 && Backed(inbox) && HasEntered(s, g, i, inbox, x, c)
    ensures Connects(s, t) && HasEntered(t, g, i + 1, inbox + [g.small], x, c)
  {
    HeldTakes(g, i, inbox, x);
    assert ClientLate(g, 23)[i..][0] == ClientFrame(g, i, 23) && ClientLate(g, 23)[i..][1..] == ClientLate(g, 23)[i + 1..];
    t := DoesMove(false, s, Held(g, 24, 141 + i, [], [], inbox, x), c, [], ClientLate(g, 23)[i..], PERIOD, true,
                  Held(g, 24, 141 + (i + 1), [], [], inbox + [g.small], x), []);
  }

  lemma {:induction false} EnterAll(s: System, g: Game, i: nat, inbox: seq<TlMsg>, x: nat, c: Core)
    returns (t: System, inbox': seq<TlMsg>)
    requires Fits(g) && i <= 4 && Backed(inbox) && |inbox| < 900 && HasEntered(s, g, 0, inbox, x, c)
    ensures Connects(s, t) && HasEntered(t, g, i, inbox', x, c) && Backed(inbox') && |inbox'| == |inbox| + i
    decreases i
  {
    t, inbox' := s, inbox;
    ConnectsSelf(s);
    if i > 0 {
      var k: nat := i - 1;
      var u, more := EnterAll(s, g, k, inbox, x, c);
      t := EnterOne(u, g, k, more, x, c);
      inbox' := more + [g.small];
      ConnectsOn(s, u, t);
    }
  }

  // ---------- the ack of a duplicate ----------

  lemma HeldQueues(g: Game, inbox: seq<TlMsg>, x: nat)
    requires Fits(g) && Backed(inbox)
    ensures Does(Held(g, 24, 145, [], [], inbox, x), PERIOD, Some(ClientFrame(g, 3, 23)), Held(g, 24, 145, [], [144], inbox, x), [])
  {
    var c := Held(g, 24, 145, [], [], inbox, x);
    HeldIsQuiet(g, 24, 145, [], inbox, x, c);
    DuplicateServes(c, ClientFrame(g, 3, 23));
    assert [] + [144] == [144];
    HalvesDo(c, PERIOD, c, [], Some(ClientFrame(g, 3, 23)), Held(g, 24, 145, [], [144], inbox, x));
  }

  function AckFrame(b: Change): Frame {
    Frame(NormalFrame, 24, 144, true, b.chan, b.credit, None)
  }

  /** The server with the ack sent and not acknowledged itself. */
  function HeldWaits(g: Game, inbox: seq<TlMsg>, b: Change): Core {
    Held(g, 25, 145, [RetxElement(AckFrame(b), PERIOD)], [], inbox, b.left)
  }

  lemma AckFrameIsNew(g: Game, c: Core, inbox: seq<TlMsg>, x: nat, b: Change)
    requires Fits(g) && c == Held(g, 24, 145, [], [144], inbox, x) && Gives(x, b)
    ensures !NoNew(c) && !Pays(c) && CreditChannel(c) == b.chan && NewFrame(c) == AckFrame(b)
  {
    assert !Pays(c) && CreditChannel(c) == b.chan;
    assert b.chan != 0 ==> c.owed[b.chan] == x;
  }

  lemma AckIsNew(g: Game, c: Core, inbox: seq<TlMsg>, x: nat, b: Change)
    requires Fits(g) && c == Held(g, 24, 145, [], [144], inbox, x) && Gives(x, b)
    ensures !NoNew(c) && NewFrame(c) == AckFrame(b) && AfterNew(c) == HeldWaits(g, inbox, b)
  {
    AckFrameIsNew(g, c, inbox, x, b);
    assert [144][1..] == [] && [] + [RetxElement(AckFrame(b), PERIOD)] == [RetxElement(AckFrame(b), PERIOD)];
    assert Next(24) == 25;
  }

  lemma HeldAcks(g: Game, inbox: seq<TlMsg>, x: nat, b: Change)
    requires Fits(g) && Backed(inbox) && Gives(x, b)
    ensures Does(Held(g, 24, 145, [], [144], inbox, x), PERIOD, None,
                 HeldWaits(g, inbox, b), [AckFrame(b)])
  {
    var c, d := Held(g, 24, 145, [], [144], inbox, x), HeldWaits(g, inbox, b);
    AckIsNew(g, c, inbox, x, b);
    NewSend(c, PERIOD, c);
    NoneServes(d);
    HalvesDo(c, PERIOD, d, [AckFrame(b)], None, d);
  }

  lemma LastOfLate(g: Game, ack: int)
    ensures ClientLate(g, ack)[3..] == [ClientFrame(g, 3, ack)] && [ClientFrame(g, 3, ack)][1..] == []
  {
  }

  lemma DuplicateQueued(s: System, g: Game, inbox: seq<TlMsg>, x: nat, c: Core) returns (t: System)
    requires Fits(g) && Backed(inbox)
    requires Sees(false, s, Held(g, 24, 145, [], [], inbox, x), c, [], ClientLate(g, 23))
    ensures Connects(s, t) && Sees(false, t, Held(g, 24, 145, [], [144], inbox, x), c, [], [])
  {
    var p := Held(g, 24, 145, [], [], inbox, x);
    LastOfLate(g, 23);
    var u := DropSees(false, s, p, c, [], ClientLate(g, 23), 3);
    HeldQueues(g, inbox, x);
    t := DoesMove(false, u, p, c, [], [ClientFrame(g, 3, 23)], PERIOD, true, Held(g, 24, 145, [], [144], inbox, x), []);
    ConnectsOn(s, u, t);
  }

  lemma DuplicateTaken(s: System, g: Game, inbox: seq<TlMsg>, x: nat, b: Change, c: Core) returns (t: System)
    requires Fits(g) && Backed(inbox) && Gives(x, b)
    requires Sees(false, s, Held(g, 24, 145, [], [], inbox, x), c, [], ClientLate(g, 23))
    ensures Connects(s, t) && Sees(false, t, HeldWaits(g, inbox, b), c, [AckFrame(b)], [])
  {
    var u := DuplicateQueued(s, g, inbox, x, c);
    HeldAcks(g, inbox, x, b);
    t := DoesMove(false, u, Held(g, 24, 145, [], [144], inbox, x), c, [], [], PERIOD, false, HeldWaits(g, inbox, b), [AckFrame(b)]);
    ConnectsOn(s, u, t);
  }

  function Freed(g: Game, y: nat, a: nat, sendAckOnly: bool): Core {
    Client(g, 145, 25, [], Some(g.big), [], y, a, 45, sendAckOnly, false, 2 * PERIOD)
  }

  lemma ClientFreed(g: Game, y: nat, a: nat, b: Change)
    requires Fits(g) && b.chan <= CHANNEL_A
    ensures Does(StuckClient(g, 24, y, a, 2 * PERIOD, 2 * PERIOD, true), 2 * PERIOD, Some(AckFrame(b)),
                 Freed(g, y, Gained(a, b.chan, b.credit), true), [])
  {
    var c := StuckClient(g, 24, y, a, 2 * PERIOD, 2 * PERIOD, true);
    QuietSend(c, 2 * PERIOD, c);
    SlidesEvery(c.retx, 144);
    assert Gain(Spent(a, 45), b.chan, b.credit) == Spent(Gained(a, b.chan, b.credit), 45);
    EmptyServes(c, AckFrame(b));
    HalvesDo(c, 2 * PERIOD, c, [], Some(AckFrame(b)), Freed(g, y, Gained(a, b.chan, b.credit), true));
  }

  lemma ClientAcks(g: Game, y: nat, a: nat)
    requires Fits(g)
    ensures Does(Freed(g, y, a, true), 2 * PERIOD, None, Freed(g, y, a, false), [ClientAck(24)])
  {
    var c := Freed(g, y, a, true);
    AskedSend(c, 2 * PERIOD, c);
    NoneServes(c.(sendAckOnly := false));
    HalvesDo(c, 2 * PERIOD, c.(sendAckOnly := false), [ClientAck(24)], None, Freed(g, y, a, false));
  }

  lemma HeldIsAcked(g: Game, inbox: seq<TlMsg>, x: nat, e: RetxElement)
    requires Fits(g) && Backed(inbox) && e.frame.seqNum == 24 && e.sendTime == PERIOD
    ensures Does(Held(g, 25, 145, [e], [], inbox, x), PERIOD, Some(ClientAck(24)), Held(g, 25, 145, [], [], inbox, x), [])
  {
    var c := Held(g, 25, 145, [e], [], inbox, x);
    HeldIsQuiet(g, 25, 145, [e], inbox, x, c);
    SlidesEvery([e], 24);
    AckServes(c, ClientAck(24));
    HalvesDo(c, PERIOD, c, [], Some(ClientAck(24)), Held(g, 25, 145, [], [], inbox, x));
  }

  // ---------- the run ----------

  /** The server's last frame is acknowledged. */
  lemma ServerDone(s: System, g: Game, r: Round) returns (t: System)
    requires Fits(g) && r.n == 23 && HasSent(s, g, r)
    ensures Connects(s, t)
    ensures Sees(true, t, StuckClient(g, 24, r.y, r.a, 0, HALF, true), Held(g, 24, 141, [], [], Backlog(g, r.j, 15), r.x), [], [])
  {
    ServerHolds(g, r);
    t := DoesMove(false, s, ServerIn(g, r), ClientIn(g, r), [], [ClientAck(23)], PERIOD, true,
                  Held(g, 24, 141, [], [], Backlog(g, r.j, 15), r.x), []);
  }

  /** And the client's window is through. */
  lemma ClientDone(s: System, g: Game, y: nat, a: nat, inbox: seq<TlMsg>, x: nat) returns (t: System, inbox': seq<TlMsg>)
    requires Fits(g) && Backed(inbox) && |inbox| < 900
    requires Sees(true, s, StuckClient(g, 24, y, a, 0, HALF, true), Held(g, 24, 141, [], [], inbox, x), [], [])
    ensures Connects(s, t) && Backed(inbox')
    ensures Sees(true, t, StuckClient(g, 24, y, a, PERIOD, PERIOD, true), Held(g, 24, 145, [], [], inbox', x), [], [])
  {
    var c, d := StuckClient(g, 24, y, a, 0, HALF, true), StuckClient(g, 24, y, a, PERIOD, PERIOD, true);
    StuckResends(g, 24, y, a, 0, HALF, PERIOD);
    var u := DoesMove(true, s, c, Held(g, 24, 141, [], [], inbox, x), [], [], PERIOD, false, d, ClientLate(g, 23));
    assert [] + ClientLate(g, 23) == ClientLate(g, 23)[0..] && ClientLate(g, 23)[4..] == [];
    t, inbox' := EnterAll(u, g, 4, inbox, x, d);
    ConnectsOn(s, u, t);
  }

  /** The client resends once more, and the server acknowledges the duplicate. */
  lemma DuplicateAcked(s: System, g: Game, y: nat, a: nat, inbox: seq<TlMsg>, x: nat, b: Change) returns (t: System)
    requires Fits(g) && Backed(inbox) && Gives(x, b)
    requires Sees(true, s, StuckClient(g, 24, y, a, PERIOD, PERIOD, true), Held(g, 24, 145, [], [], inbox, x), [], [])
    ensures Connects(s, t)
    ensures Sees(true, t, StuckClient(g, 24, y, a, 2 * PERIOD, 2 * PERIOD, true), HeldWaits(g, inbox, b), [], [AckFrame(b)])
  {
    var c, p := StuckClient(g, 24, y, a, 2 * PERIOD, 2 * PERIOD, true), Held(g, 24, 145, [], [], inbox, x);
    StuckResends(g, 24, y, a, PERIOD, PERIOD, 2 * PERIOD);
    var u := DoesMove(true, s, StuckClient(g, 24, y, a, PERIOD, PERIOD, true), p, [], [], 2 * PERIOD, false, c, ClientLate(g, 23));
    assert [] + ClientLate(g, 23) == ClientLate(g, 23);
    t := DuplicateTaken(u, g, inbox, x, b, c);
    ConnectsOn(s, u, t);
  }

  /** The client's buffer is emptied, and it acknowledges the ack. */
  lemma ClientEmptied(s: System, g: Game, y: nat, a: nat, b: Change, p: Core) returns (t: System, a': nat)
    requires Fits(g) && b.chan <= CHANNEL_A
    requires Sees(true, s, StuckClient(g, 24, y, a, 2 * PERIOD, 2 * PERIOD, true), p, [], [AckFrame(b)])
    ensures Connects(s, t) && Sees(true, t, Freed(g, y, a', false), p, [ClientAck(24)], [])
  {
    a' := Gained(a, b.chan, b.credit);
    ClientFreed(g, y, a, b);
    var u := DoesMove(true, s, StuckClient(g, 24, y, a, 2 * PERIOD, 2 * PERIOD, true), p, [], [AckFrame(b)], 2 * PERIOD, true,
                      Freed(g, y, a', true), []);
    ClientAcks(g, y, a');
    t := DoesMove(true, u, Freed(g, y, a', true), p, [], [], 2 * PERIOD, false, Freed(g, y, a', false), [ClientAck(24)]);
    ConnectsOn(s, u, t);
  }

  /** And so is the server's. */
  lemma ServerEmptied(s: System, g: Game, c: Core, inbox: seq<TlMsg>, b: Change) returns (t: System)
    requires Fits(g) && Backed(inbox)
    requires Sees(false, s, HeldWaits(g, inbox, b), c, [], [ClientAck(24)])
    ensures Connects(s, t) && Sees(false, t, Held(g, 25, 145, [], [], inbox, b.left), c, [], [])
  {
    HeldIsAcked(g, inbox, b.left, RetxElement(AckFrame(b), PERIOD));
    t := DoesMove(false, s, HeldWaits(g, inbox, b), c, [], [ClientAck(24)], PERIOD, true, Held(g, 25, 145, [], [], inbox, b.left), []);
  }

  lemma HeldIsDeadlock(s: System, g: Game, y: nat, a: nat, inbox: seq<TlMsg>, x: nat)
    requires Fits(g) && Sees(true, s, Freed(g, y, a, false), Held(g, 25, 145, [], [], inbox, x), [], [])
    ensures Deadlocked(s) && s.a.ep.owed[CHANNEL_D] == y && s.b.ep.inbox == inbox
    ensures s.a.pending == s.b.pending == Some(g.big)
  {
    assert |s.a.ep.acks| == |AckNums(s.a.ep.acks)| && |s.b.ep.acks| == |AckNums(s.b.ep.acks)|;
  }

  // ---------- the whole run ----------

  lemma FirstCores(g: Game)
    ensures Queued(g, 0) == Piled(g, 135, Backlog(g, 20, 15)) && ClientFilling(g, 0) == Ready(g, 135, 784, 49)
  {
    assert Copies(0, g.big) == [] && ClientRetx(g, 0, 0) == [];
  }

  /** Both windows are stuck, and the client has a request that it cannot pay. */
  lemma BothStuck(s: System, g: Game) returns (t: System)
    requires Fits(g) && HasPiledBigs(s, g, 15)
    ensures Connects(s, t)
    ensures Sees(true, t, StuckClient(g, 5, 0, 784, 0, HALF, true), Queued(g, 0), [], [])
  {
    FirstCores(g);
    var u := Fills(s, g, 4, Queued(g, 0));
    t := BecomesStuck(u, g, Queued(g, 0));
    ConnectsOn(s, u, t);
  }

  /** The server's window gets through. */
  lemma ServerThrough(s: System, g: Game) returns (t: System)
    requires Fits(g) && Sees(false, s, Queued(g, 0), StuckClient(g, 5, 0, 784, 0, HALF, true), [], [])
    ensures Connects(s, t) && HasTaken(t, g, 4)
  {
    var c := StuckClient(g, 5, 0, 784, 0, HALF, true);
    var u := Queueing(s, g, 4, c);
    ServerResends(g);
    var v := DoesMove(false, u, Queued(g, 4), c, [], [], PERIOD, false, ServerLate(g), Late(140));
    assert [] + Late(140) == Late(140)[0..] && TakenAcks(0) == [];
    t := TakeAll(v, g, 4);
    ConnectsOn(s, u, v);
    ConnectsOn(s, v, t);
  }

  lemma AcksOut()
    ensures Acks(3) + [ClientAck(8)] == Acks(4) && Acks(4)[3..] == [ClientAck(8)]
  {
  }

  /** The client acknowledges it, so the server can send again. */
  lemma ServerCanSend(s: System, g: Game) returns (t: System)
    requires Fits(g) && HasTaken(s, g, 4)
    ensures Connects(s, t)
    ensures Sees(false, t, Sending(g, 8, [], Some(g.big), 200, 20, 4, 3), StuckClient(g, 9, 4, 784, 0, HALF, true), [], [])
  {
    var c, d, p := StuckClient(g, 9, 4, 784, 0, HALF, false), StuckClient(g, 9, 4, 784, 0, HALF, true), ServerLate(g);
    assert Late(140)[4..] == [];
    AcksOut();
    StuckAcks(g, 9, 4, 784, 0, HALF, c);
    var u := DoesMove(true, s, c, p, Acks(3), [], HALF, false, d, [ClientAck(8)]);
    var v := DropSees(false, u, p, d, [], Acks(4), 3);
    ServerFreed(g);
    t := DoesMove(false, v, p, d, [], [ClientAck(8)], PERIOD, true, Sending(g, 8, [], Some(g.big), 200, 20, 4, 3), []);
    ConnectsOn(s, u, v);
    ConnectsOn(s, v, t);
  }

  /** It sends until it, too, has a request that it cannot pay. */
  lemma ServerSpends(s: System, g: Game) returns (t: System, r: Round)
    requires Fits(g) && Sees(false, s, Queued(g, 0), StuckClient(g, 5, 0, 784, 0, HALF, true), [], [])
    ensures Connects(s, t) && r.n == 23 && HasSent(t, g, r)
  {
    var u := ServerThrough(s, g);
    var v := ServerCanSend(u, g);
    var w, q := SendFirst(v, g, 200);
    t, r := SendAll(w, g, q, 23);
    ConnectsOn(s, u, v);
    ConnectsOn(s, v, w);
    ConnectsOn(s, w, t);
  }

  /** The ack of a duplicate empties the client's buffer, and its answer the server's: nothing
      remains that they could send. */
  lemma Emptied(s: System, g: Game, y: nat, a: nat, inbox: seq<TlMsg>, x: nat) returns (t: System)
    requires Fits(g) && Backed(inbox)
    requires Sees(true, s, StuckClient(g, 24, y, a, PERIOD, PERIOD, true), Held(g, 24, 145, [], [], inbox, x), [], [])
    ensures Connects(s, t) && Deadlocked(t) && t.a.pending == t.b.pending == Some(g.big)
    ensures t.a.ep.owed[CHANNEL_D] == y && t.b.ep.inbox == inbox
  {
    var chan, credit, left := ReturnsOne(x);
    var b := Change(chan, credit, left);
    var u := DuplicateAcked(s, g, y, a, inbox, x, b);
    var v, a' := ClientEmptied(u, g, y, a, b, HeldWaits(g, inbox, b));
    t := ServerEmptied(v, g, Freed(g, y, a', false), inbox, b);
    HeldIsDeadlock(t, g, y, a', inbox, b.left);
    ConnectsOn(s, u, v);
    ConnectsOn(s, v, t);
  }

  lemma Ends(s: System, g: Game, r: Round) returns (t: System)
    requires Fits(g) && r.n == 23 && HasSent(s, g, r)
    ensures Connects(s, t) && Deadlocked(t) && t.a.pending == t.b.pending == Some(g.big)
    ensures t.a.ep.owed[CHANNEL_D] == r.y && t.b.ep.inbox != []
  {
    BacklogIsBacked(g, r.j);
    var u := ServerDone(s, g, r);
    var v, inbox := ClientDone(u, g, r.y, r.a, Backlog(g, r.j, 15), r.x);
    t := Emptied(v, g, r.y, r.a, inbox, r.x);
    ConnectsOn(s, u, v);
    ConnectsOn(s, v, t);
  }

  lemma Deadlocks(s: System, g: Game) returns (t: System)
    requires Fits(g) && HasPiledBigs(s, g, 15)
    ensures Connects(s, t) && Deadlocked(t) && t.a.pending == t.b.pending == Some(g.big)
    ensures t.a.ep.owed[CHANNEL_D] >= 65 && t.b.ep.inbox != []
  {
    var u := BothStuck(s, g);
    var v, r := ServerSpends(u, g);
    t := Ends(v, g, r);
    ConnectsOn(s, u, v);
    ConnectsOn(s, v, t);
  }

  /** Whole turns of the two loops, messages queued and frames lost on the way lead from the
      start to a state in which neither end ever sends again. Each holds a request of 65 flits;
      the client owes the server enough credit for its request, and unhandled messages of the
      client's wait at the server. */
  lemma DeadlockReached() returns (es: seq<Event>, w: System)
    ensures WholeTurns(es) && Run(Wrapping, Initial(), AllSteps(es)) == Some(w)
    ensures PlayAll(View(Initial()), es) == Some(View(w))
    ensures Deadlocked(w) && w.b.ep.inbox != [] && Flits(w.b.pending.value.header) <= w.a.ep.owed[CHANNEL_D]
  {
    var g := TheGame();
    TheGameFits();
    var s := PiledUp(g);
    w := Deadlocks(s, g);
    ConnectsOn(Initial(), s, w);
    es :| WholeTurns(es) && Run(Wrapping, Initial(), AllSteps(es)) == Some(w);
    PlayIsRun(Initial(), es);
  }
}
