/**
 The middle of the run: the server's window gets through, and it sends replies and
 requests until it cannot pay for the next.
 */
module DeadlockReplies {
  import opened SeqNum
  import opened TileLinkMsg
  import opened FlowControl
  import opened EndpointSpec
  import opened System
  import opened NodeTurn
  import opened NodeCore
  import opened StaleAck
  import opened DeadlockRun

  // ---------- the server's window gets through ----------

  /** The server with requests of its own queued, before and after its timeout. */
  function Queued(g: Game, i: nat): Core {
    Piled(g, 135, Backlog(g, 20, 15)).(messages := Copies(i, g.big))
  }

  function ServerLate(g: Game): Core {
    Server(g, 9, 141, SlaveRetx(4, PERIOD), [], Some(g.big), Copies(4, g.big), Copies(99, g.big), Backlog(g, 20, 15),
           200, 1020, true, PERIOD, 3)
  }

  lemma {:induction false} Queueing(s: System, g: Game, i: nat, c: Core) returns (t: System)
    requires i <= 4 && Sees(true, s, c, Queued(g, 0), [], [])
    ensures Connects(s, t) && Sees(true, t, c, Queued(g, i), [], [])
    decreases i
  {
    t := s;
    ConnectsSelf(s);
    if i > 0 {
      var j: nat := i - 1;
      var u := Queueing(s, g, j, c);
      t := QueueSees(false, u, Queued(g, j), c, [], [], g.big);
      assert Copies(j, g.big) + [g.big] == Copies(i, g.big);
      ConnectsOn(s, u, t);
    }
  }

  lemma ServerResends(g: Game)
    requires Fits(g)
    ensures Does(Queued(g, 4), PERIOD, None, ServerLate(g), Late(140))
  {
    var c := Queued(g, 4);
    var d := c.(now := PERIOD);
    assert Stamped(d.retx, PERIOD) == SlaveRetx(4, PERIOD) && Resent(d.retx, 140) == Late(140);
    LateSend(c, PERIOD, d);
    NoneServes(d.(retx := SlaveRetx(4, PERIOD)));
    HalvesDo(c, PERIOD, d.(retx := SlaveRetx(4, PERIOD)), Late(140), None, ServerLate(g));
  }

  function Acks(j: nat): seq<Frame> {
    seq(j, i => ClientAck(5 + i))
  }

  /** The client when it has taken j frames of the server's window. */
  function Taking(g: Game, j: nat): Core {
    StuckClient(g, 5 + j, j, 784, 0, HALF, j == 0)
  }

  function TakenAcks(j: nat): seq<Frame> {
    Acks(if j == 0 then 0 else j - 1)
  }

  ghost predicate HasTaken(s: System, g: Game, j: nat)
    requires j <= 4
  {
    Sees(true, s, Taking(g, j), ServerLate(g), TakenAcks(j), Late(140)[j..])
  }

  lemma LateParts(g: Game, j: nat)
    requires Fits(g) && j < 4
    ensures Late(140)[j..][0] == Served(5 + j, 0, 0, g.small) && Late(140)[j..][1..] == Late(140)[j + 1..]
    ensures TakenAcks(j) + (if j == 0 then [] else [ClientAck(4 + j)]) == TakenAcks(j + 1)
  {
  }

  lemma TakesOne(g: Game, j: nat)
    requires Fits(g) && j < 4
    ensures Does(Taking(g, j), HALF, Some(Served(5 + j, 0, 0, g.small)), Taking(g, j + 1), if j == 0 then [] else [ClientAck(4 + j)])
  {
    StuckServes(g, 5 + j, j, 784, 0, HALF, j == 0, 0, 0, g.small, 1);
  }

  lemma TakeOne(s: System, g: Game, j: nat) returns (t: System)
    requires Fits(g) && j < 4 && HasTaken(s, g, j)
    ensures Connects(s, t) && HasTaken(t, g, j + 1)
  {
    TakesOne(g, j);
    LateParts(g, j);
    t := DoesMove(true, s, Taking(g, j), ServerLate(g), TakenAcks(j), Late(140)[j..], HALF, true,
                  Taking(g, j + 1), if j == 0 then [] else [ClientAck(4 + j)]);
  }

  lemma {:induction false} TakeAll(s: System, g: Game, j: nat) returns (t: System)
    requires Fits(g) && j <= 4 && HasTaken(s, g, 0)
    ensures Connects(s, t) && HasTaken(t, g, j)
    decreases j
  {
    t := s;
    ConnectsSelf(s);
    if j > 0 {
      var i: nat := j - 1;
      var u := TakeAll(s, g, i);
      t := TakeOne(u, g, i);
      ConnectsOn(s, u, t);
    }
  }

  // ---------- the server sends what it can pay for ----------

  /** The server before its frame n + 1, with `e` still unacknowledged, x credits owed on channel A, j
      reads waiting, q requests of its own queued, and u as the counter of its choices. */
  function Sending(g: Game, n: nat, e: seq<RetxElement>, pending: Option<TlMsg>, x: nat, j: nat, q: nat, u: int): Core
    requires 8 <= n <= 23
  {
    Server(g, n + 1, 141, e, [], pending, Copies(q, g.big), Copies(99, g.big), Backlog(g, j, 15),
           x, 1540 - 65 * n, false, PERIOD, u)
  }

  lemma {:induction false} SlidesEvery(retx: seq<RetxElement>, ack: int)
    requires forall i :: 0 <= i < |retx| ==> Cmp(retx[i].frame.seqNum, ack) <= 0
    ensures Slide(Wrapping, retx, ack) == []
  {
    if retx != [] {
      SlidesEvery(retx[1..], ack);
    }
  }

  lemma ServerFreed(g: Game)
    requires Fits(g)
    ensures Does(ServerLate(g), PERIOD, Some(ClientAck(8)), Sending(g, 8, [], Some(g.big), 200, 20, 4, 3), [])
  {
    var c := ServerLate(g);
    BacklogGrows(g, 20, 15);
    SlidesEvery(SlaveRetx(4, PERIOD), 8);
    QuietSend(c, PERIOD, c);
    AckServes(c, ClientAck(8));
    HalvesDo(c, PERIOD, c, [], Some(ClientAck(8)), Sending(g, 8, [], Some(g.big), 200, 20, 4, 3));
  }

  /** A server that owes x on channel A returns this credit, and then owes `left`. */
  predicate Returns(x: nat, chan: Channel, credit: nat, left: nat) {
    && chan <= CHANNEL_A && MaxChannel(OwesA(x), CHANNEL_NUM) == chan
    && (chan == 0 ==> credit == 0) && (chan != 0 ==> x > 0 && credit == LargestPow(x))
    && Return(OwesA(x), chan) == OwesA(left)
  }

  lemma ReturnsOne(x: nat) returns (chan: Channel, credit: nat, left: nat)
    ensures Returns(x, chan, credit, left)
  {
    OwedFacts(x);
    ReturnFacts(x);
    chan := if x == 0 then 0 else CHANNEL_A;
    credit := if x == 0 then 0 else LargestPow(x);
    left := Left(x);
  }

  /** The credit that a frame returns, and what is owed after it. */
  datatype Change = Change(chan: Channel, credit: nat, left: nat)

  predicate Gives(x: nat, b: Change) {
    Returns(x, b.chan, b.credit, b.left)
  }

  function BigFrame(g: Game, n: nat, b: Change): Frame {
    Served(n, b.chan, b.credit, g.bigw)
  }

  function InFlight(g: Game, n: nat, b: Change): RetxElement {
    RetxElement(BigFrame(g, n, b), PERIOD)
  }

  predicate Sendable(g: Game, d: Core, n: nat, x: nat)
    requires 8 <= n < 23
  {
    && d.nextTx == n + 1 && d.nextRx == 141 && |d.retx| <= 1 && d.ackNums == [] && d.pending == Some(g.big)
    && d.owed == OwesA(x) && d.credits == Spent(FULL_CREDIT, 1540 - 65 * n) && !d.sendAckOnly
    && (d.retx != [] ==> d.retx[0].sendTime == PERIOD) && d.now == PERIOD
  }

  lemma SendablePays(g: Game, d: Core, n: nat, x: nat)
    requires Fits(g) && 8 <= n < 23 && Sendable(g, d, n, x)
    ensures Pays(d) && !NoNew(d) && Pay(d.credits, g.big.header) == Spent(FULL_CREDIT, 1540 - 65 * (n + 1))
  {
  }

  function AfterBig(g: Game, d: Core, n: nat, b: Change): Core
    requires 8 <= n < 23
  {
    d.(nextTx := n + 2, retx := d.retx + [InFlight(g, n + 1, b)], pending := None, owed := OwesA(b.left),
       credits := Spent(FULL_CREDIT, 1540 - 65 * (n + 1)), sent := d.sent + [g.big])
  }

  lemma BigFrameIsNew(g: Game, d: Core, n: nat, x: nat, b: Change)
    requires Fits(g) && 8 <= n < 23 && Sendable(g, d, n, x) && Gives(x, b)
    ensures CreditChannel(d) == b.chan && NewFrame(d) == BigFrame(g, n + 1, b)
  {
    SendablePays(g, d, n, x);
    assert CreditChannel(d) == b.chan;
    assert b.chan != 0 ==> d.owed[b.chan] == x;
    assert Prev(d.nextRx) == 140;
  }

  lemma PaidFrame(d: Core, m: TlMsg, f: Frame, chan: Channel, owed: Counters, credits: Counters)
    requires Pays(d) && d.pending == Some(m) && d.ackNums == [] && NewFrame(d) == f && CreditChannel(d) == chan
    requires Return(d.owed, chan) == owed && Pay(d.credits, m.header) == credits
    ensures AfterNew(d) == d.(nextTx := Next(d.nextTx), retx := d.retx + [RetxElement(f, d.now)], pending := None, owed := owed,
                              credits := credits, sent := d.sent + [m])
  {
  }

  lemma BigLeaves(g: Game, d: Core, n: nat, b: Change)
    requires 8 <= n < 23 && d.nextTx == n + 1 && d.now == PERIOD && d.ackNums == [] && Pays(d) && d.pending == Some(g.big)
    requires NewFrame(d) == BigFrame(g, n + 1, b) && CreditChannel(d) == b.chan && Return(d.owed, b.chan) == OwesA(b.left)
    requires Pay(d.credits, g.big.header) == Spent(FULL_CREDIT, 1540 - 65 * (n + 1))
    ensures AfterNew(d) == AfterBig(g, d, n, b)
  {
    PaidFrame(d, g.big, BigFrame(g, n + 1, b), b.chan, OwesA(b.left), Spent(FULL_CREDIT, 1540 - 65 * (n + 1)));
  }

  lemma BigIsNew(g: Game, d: Core, n: nat, x: nat, b: Change)
    requires Fits(g) && 8 <= n < 23 && Sendable(g, d, n, x) && Gives(x, b)
    ensures NewFrame(d) == BigFrame(g, n + 1, b) && AfterNew(d) == AfterBig(g, d, n, b)
  {
    SendablePays(g, d, n, x);
    BigFrameIsNew(g, d, n, x, b);
    BigLeaves(g, d, n, b);
  }

  /** What TX makes of a server that has picked a big message it can pay for. */
  lemma SendsBig(g: Game, c: Core, d: Core, n: nat, x: nat, b: Change)
    requires Fits(g) && 8 <= n < 23 && c.now <= PERIOD && d == Picked(c, PERIOD) && Sendable(g, d, n, x) && Gives(x, b)
    ensures Sends(c, PERIOD, AfterBig(g, d, n, b), [BigFrame(g, n + 1, b)])
  {
    SendablePays(g, d, n, x);
    BigIsNew(g, d, n, x, b);
    NewSend(c, PERIOD, d);
  }

  lemma SlidesFirst(e: RetxElement, f: RetxElement, ack: int)
    requires e.frame.seqNum == ack && Cmp(f.frame.seqNum, ack) > 0
    ensures Slide(Wrapping, [e, f], ack) == [f]
  {
    assert [e, f][1..] == [f];
  }

  lemma CopiesShrink(n: nat, m: TlMsg)
    ensures n > 0 ==> Copies(n, m)[0] == m && Copies(n, m)[1..] == Copies(n - 1, m)
    ensures Copies(n, m) + [m] == Copies(n + 1, m)
  {
  }

  /** When frame n has been accepted and its ack is on its way. */
  datatype Round = Round(n: nat, e: RetxElement, x: nat, j: nat, q: nat, u: int, y: nat, a: nat)

  predicate IsRound(r: Round) {
    && 9 <= r.n <= 23 && r.e.frame.seqNum == r.n && r.e.sendTime == PERIOD && 29 - r.n <= r.j <= 20
    && 1 <= r.u <= 4 && r.n + 4 * r.q + r.u == 28
  }

  function ServerIn(g: Game, r: Round): Core
    requires IsRound(r)
  {
    Sending(g, r.n, [r.e], None, r.x, r.j, r.q, r.u)
  }

  function ClientIn(g: Game, r: Round): Core
    requires IsRound(r)
  {
    StuckClient(g, r.n + 1, r.y, r.a, 0, HALF, true)
  }

  ghost predicate HasSent(s: System, g: Game, r: Round) {
    IsRound(r) && r.y >= 65 && Sees(false, s, ServerIn(g, r), ClientIn(g, r), [], [ClientAck(r.n)])
  }

  /** The server after its choice: a reply from the buffer, or every fourth time a message of its own. */
  function PicksReply(g: Game, r: Round): Core
    requires IsRound(r)
  {
    ServerIn(g, r).(pending := Some(g.big), responses := Copies(98, g.big), turns := r.u - 1)
  }

  function PicksOwn(g: Game, r: Round): Core
    requires IsRound(r) && r.q >= 1
  {
    ServerIn(g, r).(pending := Some(g.big), messages := Copies(r.q - 1, g.big), turns := 4)
  }

  lemma Picks(g: Game, r: Round)
    requires IsRound(r)
    ensures r.u > 1 ==> Picked(ServerIn(g, r), PERIOD) == PicksReply(g, r)
    ensures r.u == 1 && r.q >= 1 ==> Picked(ServerIn(g, r), PERIOD) == PicksOwn(g, r)
  {
    CopiesShrink(99, g.big);
    CopiesShrink(r.q, g.big);
  }

  lemma PicksAreSendable(g: Game, r: Round)
    requires IsRound(r) && r.n < 23 && r.q >= 1
    ensures Sendable(g, PicksReply(g, r), r.n, r.x) && Sendable(g, PicksOwn(g, r), r.n, r.x)
  {
  }

  /** The round after, when its message is a reply, and when it is the server's own. */
  function AfterReply(g: Game, r: Round, b: Change): Round
    requires r.j >= 1
  {
    r.(n := r.n + 1, e := InFlight(g, r.n + 1, b), x := b.left + 2, j := r.j - 1, u := r.u - 1)
  }

  function AfterOwn(g: Game, r: Round, b: Change): Round
    requires r.q >= 1
  {
    r.(n := r.n + 1, e := InFlight(g, r.n + 1, b), x := b.left, q := r.q - 1, u := 4)
  }

  lemma FirstSlides(r: Round, f: RetxElement)
    requires IsRound(r) && f.frame.seqNum == r.n + 1
    ensures Slide(Wrapping, [r.e] + [f], r.n) == [f]
  {
    assert [r.e] + [f] == [r.e, f];
    SlidesFirst(r.e, f, r.n);
  }

  lemma AfterReplyCore(g: Game, r: Round, b: Change)
    requires IsRound(r) && r.n < 23 && r.u > 1
    ensures IsRound(AfterReply(g, r, b))
    ensures Forget(AfterBig(g, PicksReply(g, r), r.n, b).(retx := [InFlight(g, r.n + 1, b)], ackOnlySent := false,
                     inbox := Backlog(g, r.j - 1, 15), responses := Copies(98, g.big) + [g.big], owed := OwesA(b.left + 2)))
            == ServerIn(g, AfterReply(g, r, b))
  {
    CopiesShrink(98, g.big);
  }

  lemma ReplyServes(g: Game, r: Round, b: Change)
    requires Fits(g) && IsRound(r) && r.n < 23 && r.u > 1
    ensures IsRound(AfterReply(g, r, b))
    ensures Serves(AfterBig(g, PicksReply(g, r), r.n, b), Some(ClientAck(r.n)), ServerIn(g, AfterReply(g, r, b)))
  {
    AfterReplyCore(g, r, b);
    FirstSlides(r, InFlight(g, r.n + 1, b));
    BacklogGrows(g, r.j, 15);
    OweFacts(b.left, 2);
    AckAndHandle(AfterBig(g, PicksReply(g, r), r.n, b), ClientAck(r.n), g.get, Backlog(g, r.j - 1, 15), g.big);
  }

  lemma AfterOwnCore(g: Game, r: Round, b: Change)
    requires IsRound(r) && r.n < 23 && r.u == 1
    ensures IsRound(AfterOwn(g, r, b))
    ensures Forget(AfterBig(g, PicksOwn(g, r), r.n, b).(retx := [InFlight(g, r.n + 1, b)], ackOnlySent := false))
            == ServerIn(g, AfterOwn(g, r, b))
  {
  }

  lemma OwnServes(g: Game, r: Round, b: Change)
    requires Fits(g) && IsRound(r) && r.n < 23 && r.u == 1
    ensures IsRound(AfterOwn(g, r, b))
    ensures Serves(AfterBig(g, PicksOwn(g, r), r.n, b), Some(ClientAck(r.n)), ServerIn(g, AfterOwn(g, r, b)))
  {
    AfterOwnCore(g, r, b);
    FirstSlides(r, InFlight(g, r.n + 1, b));
    BacklogGrows(g, r.j, 15);
    AckServes(AfterBig(g, PicksOwn(g, r), r.n, b), ClientAck(r.n));
  }

  /** A reply is sent; the place it leaves is taken by the reply to the next read. */
  lemma ReplyDoes(g: Game, r: Round, b: Change)
    requires Fits(g) && IsRound(r) && r.n < 23 && r.u > 1 && Gives(r.x, b)
    ensures IsRound(AfterReply(g, r, b))
    ensures Does(ServerIn(g, r), PERIOD, Some(ClientAck(r.n)), ServerIn(g, AfterReply(g, r, b)), [BigFrame(g, r.n + 1, b)])
  {
    Picks(g, r);
    PicksAreSendable(g, r);
    SendsBig(g, ServerIn(g, r), PicksReply(g, r), r.n, r.x, b);
    ReplyServes(g, r, b);
    HalvesDo(ServerIn(g, r), PERIOD, AfterBig(g, PicksReply(g, r), r.n, b), [BigFrame(g, r.n + 1, b)], Some(ClientAck(r.n)),
             ServerIn(g, AfterReply(g, r, b)));
  }

  /** Every fourth time it is a message of its own. */
  lemma OwnDoes(g: Game, r: Round, b: Change)
    requires Fits(g) && IsRound(r) && r.n < 23 && r.u == 1 && Gives(r.x, b)
    ensures IsRound(AfterOwn(g, r, b))
    ensures Does(ServerIn(g, r), PERIOD, Some(ClientAck(r.n)), ServerIn(g, AfterOwn(g, r, b)), [BigFrame(g, r.n + 1, b)])
  {
    Picks(g, r);
    PicksAreSendable(g, r);
    SendsBig(g, ServerIn(g, r), PicksOwn(g, r), r.n, r.x, b);
    OwnServes(g, r, b);
    HalvesDo(ServerIn(g, r), PERIOD, AfterBig(g, PicksOwn(g, r), r.n, b), [BigFrame(g, r.n + 1, b)], Some(ClientAck(r.n)),
             ServerIn(g, AfterOwn(g, r, b)));
  }

  function FirstRound(g: Game, b: Change): Round {
    Round(9, InFlight(g, 9, b), b.left, 20, 4, 3, 4, 784)
  }

  lemma FirstDoes(g: Game, x: nat, b: Change)
    requires Fits(g) && Gives(x, b)
    ensures Does(Sending(g, 8, [], Some(g.big), x, 20, 4, 3), PERIOD, None, ServerIn(g, FirstRound(g, b)), [BigFrame(g, 9, b)])
  {
    var c, e := Sending(g, 8, [], Some(g.big), x, 20, 4, 3), InFlight(g, 9, b);
    BacklogGrows(g, 20, 15);
    SendsBig(g, c, c, 8, x, b);
    NoneServes(AfterBig(g, c, 8, b));
    assert [] + [e] == [e];
    HalvesDo(c, PERIOD, AfterBig(g, c, 8, b), [BigFrame(g, 9, b)], None, ServerIn(g, FirstRound(g, b)));
  }

  /** The client accepts a big message and acknowledges it in its next turn. */
  lemma ClientTakes(s: System, g: Game, n: nat, b: Change, y: nat, a: nat, p: Core) returns (t: System, a': nat)
    requires Fits(g) && 1 <= n < 100 && b.chan <= CHANNEL_A
    requires Sees(false, s, p, StuckClient(g, n, y, a, 0, HALF, true), [BigFrame(g, n, b)], [])
    ensures Connects(s, t) && Sees(false, t, p, StuckClient(g, n + 1, y + 65, a', 0, HALF, true), [], [ClientAck(n)])
  {
    a' := Gained(a, b.chan, b.credit);
    var c, d := StuckClient(g, n, y, a, 0, HALF, true), StuckClient(g, n + 1, y + 65, a', 0, HALF, false);
    StuckServes(g, n, y, a, 0, HALF, true, b.chan, b.credit, g.bigw, 65);
    StuckAcks(g, n + 1, y + 65, a', 0, HALF, d);
    var u := DoesMove(true, s, c, p, [], [BigFrame(g, n, b)], HALF, true, d, []);
    t := DoesMove(true, u, d, p, [], [], HALF, false, d.(ackOnlySent := true), [ClientAck(n)]);
    ConnectsOn(s, u, t);
  }

  /** The rest of a round: the client takes the message and acknowledges it. */
  lemma ClientRound(s: System, g: Game, r: Round, b: Change) returns (t: System, r': Round)
    requires Fits(g) && IsRound(r) && b.chan <= CHANNEL_A
    requires Sees(false, s, ServerIn(g, r), StuckClient(g, r.n, r.y, r.a, 0, HALF, true), [BigFrame(g, r.n, b)], [])
    ensures Connects(s, t) && r'.n == r.n && HasSent(t, g, r')
  {
    var a;
    t, a := ClientTakes(s, g, r.n, b, r.y, r.a, ServerIn(g, r));
    r' := r.(y := r.y + 65, a := a);
    assert ServerIn(g, r') == ServerIn(g, r);
  }

  lemma SendFirst(s: System, g: Game, x: nat) returns (t: System, r: Round)
    requires Fits(g)
    requires Sees(false, s, Sending(g, 8, [], Some(g.big), x, 20, 4, 3), StuckClient(g, 9, 4, 784, 0, HALF, true), [], [])
    ensures Connects(s, t) && r.n == 9 && HasSent(t, g, r)
  {
    var chan, credit, left := ReturnsOne(x);
    var b := Change(chan, credit, left);
    FirstDoes(g, x, b);
    var u := DoesMove(false, s, Sending(g, 8, [], Some(g.big), x, 20, 4, 3), StuckClient(g, 9, 4, 784, 0, HALF, true), [], [],
                      PERIOD, false, ServerIn(g, FirstRound(g, b)), [BigFrame(g, 9, b)]);
    t, r := ClientRound(u, g, FirstRound(g, b), b);
    ConnectsOn(s, u, t);
  }

  /** The server's turn of a round. */
  lemma ServerTurn(s: System, g: Game, r: Round, r': Round, b: Change) returns (t: System)
    requires IsRound(r) && IsRound(r') && r'.n == r.n + 1 && r'.y == r.y && r'.a == r.a
    requires HasSent(s, g, r)
    requires Does(ServerIn(g, r), PERIOD, Some(ClientAck(r.n)), ServerIn(g, r'), [BigFrame(g, r.n + 1, b)])
    ensures Connects(s, t)
    ensures Sees(false, t, ServerIn(g, r'), StuckClient(g, r'.n, r'.y, r'.a, 0, HALF, true), [BigFrame(g, r'.n, b)], [])
  {
    t := DoesMove(false, s, ServerIn(g, r), ClientIn(g, r), [], [ClientAck(r.n)], PERIOD, true,
                  ServerIn(g, r'), [BigFrame(g, r.n + 1, b)]);
  }

  lemma SendNext(s: System, g: Game, r: Round) returns (t: System, r': Round)
    requires Fits(g) && HasSent(s, g, r) && r.n < 23
    ensures Connects(s, t) && HasSent(t, g, r') && r'.n == r.n + 1
  {
    var chan, credit, left := ReturnsOne(r.x);
    var b := Change(chan, credit, left);
    var q;
    if r.u > 1 {
      ReplyDoes(g, r, b);
      q := AfterReply(g, r, b);
    } else {
      OwnDoes(g, r, b);
      q := AfterOwn(g, r, b);
    }
    var mid := ServerTurn(s, g, r, q, b);
    t, r' := ClientRound(mid, g, q, b);
    ConnectsOn(s, mid, t);
  }

  lemma {:induction false} SendAll(s: System, g: Game, r: Round, n: nat) returns (t: System, r': Round)
    requires Fits(g) && HasSent(s, g, r) && r.n == 9 && 9 <= n <= 23
    ensures Connects(s, t) && HasSent(t, g, r') && r'.n == n
    decreases n
  {
    t, r' := s, r;
    ConnectsSelf(s);
    if n > 9 {
      var i: nat := n - 1;
      var u, q := SendAll(s, g, r, i);
      t, r' := SendNext(u, g, q);
      ConnectsOn(s, u, t);
    }
  }
}
