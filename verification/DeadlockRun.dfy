/**
 A run of the two programs into the state of module `Deadlock`.

 The server's window is stuck while the client asks for a hundred reads and more: the
 replies fill the server's response buffer, so further messages wait unhandled, and the
 credit they cost is not owed to the client yet. Behind more reads the client spends its
 channel D credit, until it has a request it cannot pay. Then the client's window is stuck
 while the server sends replies, until it has one it cannot pay. When both windows have got
 through, each end waits for credit that the other only returns with a request it can pay.
 */
module DeadlockRun {
  import opened SeqNum
  import opened TileLinkMsg
  import opened FlowControl
  import opened EndpointSpec
  import opened System
  import opened NodeTurn
  import opened NodeCore
  import opened StaleAck

  /** The messages of the run and the memory behind it: a read, its reply, a reply as it
      arrives, and a message of one flit. */
  datatype Game = Game(get: TlMsg, big: TlMsg, bigw: TlMsg, small: TlMsg, mem: Memory)

  predicate Costs(m: TlMsg, chan: nat, flits: nat) {
    m.header.chan == chan && Flits(m.header) == flits
  }

  predicate Unanswered(m: TlMsg) {
    !IsPut(m) && !IsGet(m)
  }

  predicate Fits(g: Game) {
    && Costs(g.get, CHANNEL_A, 2) && OnWire(g.get) == g.get && !IsPut(g.get) && InBounds(g.get)
    && ReplyTo(g.mem, g.get) == Some(g.big)
    && Costs(g.big, CHANNEL_D, 65) && OnWire(g.big) == g.bigw && Costs(g.bigw, CHANNEL_D, 65) && Unanswered(g.bigw)
    && g.small == MSG && Costs(g.small, CHANNEL_D, 1) && OnWire(g.small) == g.small && Unanswered(g.small)
  }

  function Zeros(n: nat): seq<byte> {
    seq(n, _ => 0)
  }

  lemma BigSize()
    ensures Pow2(9) == 512
  {
    assert Pow2(4) == 16 && Pow2(5) == 32;
    Pow2Splits(4, 5);
  }

  lemma {:induction false} ZeroAddress(n: nat)
    ensures LeNat(Zeros(n)) == 0
  {
    if n > 0 {
      assert Zeros(n)[1..] == Zeros(n - 1);
      ZeroAddress(n - 1);
    }
  }

  /** Reads of 512 bytes at address 0 of a clear memory. */
  function TheGame(): Game {
    BigSize();
    var big: TlMsg := RawMsg(Reply(D_ACCESSACKDATA, 9, 0), Zeros(512));
    Game(RawMsg(TlHeader(0, 0, 0, 0, 9, 0, 0, A_GET, CHANNEL_A, 0), Zeros(8)), big, OnWire(big), MSG, Zeros(MEM_SIZE))
  }

  lemma ReadFacts(get: TlMsg)
    requires get == RawMsg(TlHeader(0, 0, 0, 0, 9, 0, 0, A_GET, CHANNEL_A, 0), Zeros(8))
    ensures Costs(get, CHANNEL_A, 2) && OnWire(get) == get && IsGet(get) && !IsPut(get) && Offset(get) == 0
  {
    ZeroAddress(8);
    assert get.data[..8] == Zeros(8);
  }

  lemma ReplyFacts(get: TlMsg, big: TlMsg, mem: Memory)
    requires IsGet(get) && Offset(get) == 0 && get.header.size == 9 && get.header.source == 0 && mem[0..512] == Zeros(512)
    requires big == RawMsg(Reply(D_ACCESSACKDATA, 9, 0), Zeros(512))
    ensures InBounds(get) && ReplyTo(mem, get) == Some(big)
  {
    BigSize();
  }

  lemma BigFacts(big: TlMsg)
    requires big.header == Reply(D_ACCESSACKDATA, 9, 0)
    ensures Costs(big, CHANNEL_D, 65) && Costs(OnWire(big), CHANNEL_D, 65) && Unanswered(OnWire(big))
  {
    BigSize();
  }

  lemma ClearMemory()
    ensures Zeros(MEM_SIZE)[0..512] == Zeros(512)
  {
  }

  lemma TheGameFits()
    ensures Fits(TheGame())
  {
    var g := TheGame();
    ReadFacts(g.get);
    ClearMemory();
    ReplyFacts(g.get, g.big, g.mem);
    BigFacts(g.big);
    MsgFacts();
  }

  // ---------- credit ----------

  function Spent(a: nat, d: nat): Counters {
    [128, a, FULL_CREDIT, FULL_CREDIT, d, FULL_CREDIT]
  }

  function OwesA(x: nat): Counters { [0, x, 0, 0, 0, 0] }

  function OwesD(y: nat): Counters { [0, 0, 0, 0, y, 0] }

  function Left(x: nat): nat {
    if x == 0 then 0 else x - Pow2(LargestPow(x))
  }

  lemma OwedFacts(x: nat)
    ensures MaxChannel(OwesA(x), CHANNEL_NUM) == (if x == 0 then 0 else CHANNEL_A)
    ensures MaxChannel(OwesD(x), CHANNEL_NUM) == (if x == 0 then 0 else CHANNEL_D)
  {
  }

  lemma ReturnFacts(x: nat)
    ensures Return(OwesA(x), if x == 0 then 0 else CHANNEL_A) == OwesA(Left(x))
    ensures Return(OwesD(0), 0) == OwesD(0)
  {
  }

  lemma OweFacts(x: nat, n: nat)
    ensures Owe(OwesA(x), CHANNEL_A, n) == OwesA(x + n) && Owe(OwesD(x), CHANNEL_D, n) == OwesD(x + n)
  {
  }

  // ---------- the two ends ----------

  function Server(g: Game, nextTx: int, nextRx: int, retx: seq<RetxElement>, ackNums: seq<int>, pending: Option<TlMsg>,
                  messages: seq<TlMsg>, responses: seq<TlMsg>, inbox: seq<TlMsg>, x: nat, d: nat,
                  ackOnlySent: bool, now: nat, turns: int): Core {
    Core(nextTx, nextRx, retx, ackNums, pending, messages, responses, inbox, OwesA(x), Spent(FULL_CREDIT, d),
         false, ackOnlySent, now, turns, g.mem, [], [])
  }

  function Client(g: Game, nextTx: int, nextRx: int, retx: seq<RetxElement>, pending: Option<TlMsg>, messages: seq<TlMsg>,
                  y: nat, a: nat, d: nat, sendAckOnly: bool, ackOnlySent: bool, now: nat): Core {
    Core(nextTx, nextRx, retx, [], pending, messages, [], [], OwesD(y), Spent(a, d),
         sendAckOnly, ackOnlySent, now, BUFFER_SELECT_TURNS, g.mem, [], [])
  }

  function Copies(n: nat, m: TlMsg): seq<TlMsg> {
    seq(n, _ => m)
  }

  // ---------- the client's messages get through one by one ----------

  const HALF := TIMEOUT_TIME / 2

  /** The server with its window stuck, n frames of the client accepted, and acknowledged if `acked`. */
  function Stalled(g: Game, n: nat, pending: Option<TlMsg>, responses: seq<TlMsg>, inbox: seq<TlMsg>, x: nat,
                   turns: int, acked: bool): Core {
    Server(g, 9, 6 + n, SlaveRetx(4, 0), [], pending, [], responses, inbox, x, 1020, acked, HALF, turns)
  }

  function Ready(g: Game, n: nat, a: nat, d: nat): Core {
    Client(g, 6 + n, 5, [], None, [], 0, a, d, false, false, 0)
  }

  function Carrying(n: nat, m: TlMsg): Frame {
    Frame(NormalFrame, 6 + n, 4, true, 0, 0, Some(OnWire(m)))
  }

  function Waiting(g: Game, n: nat, m: TlMsg, a: nat, d: nat): Core {
    Ready(g, n + 1, a, d).(retx := [RetxElement(Carrying(n, m), 0)])
  }

  function Acking(n: nat): Frame {
    Frame(AckOnlyFrame, 9, 6 + n, true, 0, 0, None)
  }

  predicate Affords(m: TlMsg, a: nat, d: nat, a': nat, d': nat) {
    CanPay(Spent(a, d), m.header) && Pay(Spent(a, d), m.header) == Spent(a', d')
  }

  lemma ClientSends(g: Game, n: nat, m: TlMsg, a: nat, d: nat, a': nat, d': nat)
    requires Affords(m, a, d, a', d') && n < 1000
    ensures Does(Ready(g, n, a, d).(messages := [m]), 0, None, Waiting(g, n, m, a', d'), [Carrying(n, m)])
  {
    OwedFacts(0);
    ReturnFacts(0);
    assert [m][1..] == [];
    var c := Ready(g, n, a, d).(messages := [m]);
    var chosen := Ready(g, n, a, d).(pending := Some(m));
    NewSend(c, 0, chosen);
    assert NewFrame(chosen) == Carrying(n, m);
    assert Forget(AfterNew(chosen)) == Waiting(g, n, m, a', d');
    NoneServes(AfterNew(chosen));
    HalvesDo(c, 0, AfterNew(chosen), [Carrying(n, m)], None, Waiting(g, n, m, a', d'));
  }

  lemma SlidesAll(e: RetxElement, ack: int)
    requires e.frame.seqNum == ack
    ensures Slide(Wrapping, [e], ack) == []
  {
    assert [e][1..] == [];
  }

  lemma ClientAcked(g: Game, n: nat, m: TlMsg, a: nat, d: nat)
    requires n < 1000
    ensures Does(Waiting(g, n, m, a, d), 0, Some(Acking(n)), Ready(g, n + 1, a, d), [])
  {
    OwedFacts(0);
    var c := Waiting(g, n, m, a, d);
    QuietSend(c, 0, c);
    AckServes(c, Acking(n));
    SlidesAll(RetxElement(Carrying(n, m), 0), 6 + n);
    HalvesDo(c, 0, c, [], Some(Acking(n)), Ready(g, n + 1, a, d));
  }

  lemma There(s: System, g: Game, n: nat, m: TlMsg, a: nat, d: nat, a': nat, d': nat, p: Core) returns (t: System)
    requires Sees(true, s, Ready(g, n, a, d), p, [], []) && Affords(m, a, d, a', d') && n < 1000
    ensures Connects(s, t) && Sees(true, t, Waiting(g, n, m, a', d'), p, [Carrying(n, m)], [])
  {
    var u := QueueSees(true, s, Ready(g, n, a, d), p, [], [], m);
    ClientSends(g, n, m, a, d, a', d');
    t := DoesMove(true, u, Ready(g, n, a, d).(messages := [m]), p, [], [], 0, false, Waiting(g, n, m, a', d'), [Carrying(n, m)]);
    ConnectsOn(s, u, t);
  }

  lemma Back(s: System, g: Game, n: nat, m: TlMsg, a: nat, d: nat, r: Core) returns (t: System)
    requires Sees(true, s, Waiting(g, n, m, a, d), r, [], [Acking(n)]) && n < 1000
    ensures Connects(s, t) && Sees(true, t, Ready(g, n + 1, a, d), r, [], [])
  {
    ClientAcked(g, n, m, a, d);
    t := DoesMove(true, s, Waiting(g, n, m, a, d), r, [], [Acking(n)], 0, true, Ready(g, n + 1, a, d), []);
  }

  /** The server serves a frame in one turn and acknowledges it in the next. */
  predicate Takes2(p: Core, f: Frame, q: Core, r: Core, ack: Frame) {
    Does(p, HALF, Some(f), q, []) && Does(q, HALF, None, r, [ack])
  }

  lemma Answered2(s: System, c: Core, p: Core, f: Frame, q: Core, r: Core, ack: Frame) returns (t: System)
    requires Sees(true, s, c, p, [f], []) && Takes2(p, f, q, r, ack)
    ensures Connects(s, t) && Sees(true, t, c, r, [], [ack])
  {
    var u := DoesMove(false, s, p, c, [], [f], HALF, true, q, []);
    t := DoesMove(false, u, q, c, [], [], HALF, false, r, [ack]);
    ConnectsOn(s, u, t);
  }

  /** One message there and its ack back, for a server that takes it. */
  lemma Exchange(s: System, g: Game, n: nat, m: TlMsg, a: nat, d: nat, a': nat, d': nat, p: Core, q: Core, r: Core)
    returns (t: System)
    requires Sees(true, s, Ready(g, n, a, d), p, [], []) && Affords(m, a, d, a', d') && n < 1000
    requires Takes2(p, Carrying(n, m), q, r, Acking(n))
    ensures Connects(s, t) && Sees(true, t, Ready(g, n + 1, a', d'), r, [], [])
  {
    var u := There(s, g, n, m, a, d, a', d', p);
    var v := Answered2(u, Waiting(g, n, m, a', d'), p, Carrying(n, m), q, r, Acking(n));
    t := Back(v, g, n, m, a', d', r);
    ConnectsOn(s, u, v);
    ConnectsOn(s, v, t);
  }

  // ---------- the server's responses fill up ----------

  lemma ServerStalls(g: Game)
    requires g == TheGame()
    ensures Does(Forget(Filling(4)), HALF, None, Stalled(g, 0, None, [], [], 0, 4, true), [AckOnlyOf(Filling(4))])
  {
    var c := Forget(Filling(4));
    var chosen := c.(now := HALF);
    HalfSend(c, HALF, chosen);
    NoneServes(chosen.(ackOnlySent := true));
    assert Forget(chosen.(ackOnlySent := true)) == Stalled(g, 0, None, [], [], 0, 4, true);
    assert AckOnlyOf(chosen) == AckOnlyOf(Filling(4));
    HalvesDo(c, HALF, chosen.(ackOnlySent := true), [AckOnlyOf(chosen)], None, Stalled(g, 0, None, [], [], 0, 4, true));
  }

  lemma OpenedCores(g: Game)
    requires g == TheGame()
    ensures Forget(MasterOpened()) == Ready(g, 0, FULL_CREDIT, FULL_CREDIT)
  {
  }

  ghost predicate Untouched(s: System, g: Game) {
    Sees(true, s, Ready(g, 0, FULL_CREDIT, FULL_CREDIT), Stalled(g, 0, None, [], [], 0, 4, true), [], [])
  }

  lemma Begin(g: Game) returns (t: System)
    requires g == TheGame()
    ensures Connects(Initial(), t)
    ensures Untouched(t, g)
  {
    var s := Filled(4);
    OpenedCores(g);
    ServerStalls(g);
    var c, p, ack := Ready(g, 0, FULL_CREDIT, FULL_CREDIT), Stalled(g, 0, None, [], [], 0, 4, true), AckOnlyOf(Filling(4));
    var u := DoesMove(false, s, Forget(Filling(4)), c, [], [], HALF, false, p, [ack]);
    t := DropSees(true, u, c, p, [], [ack], 1);
    ConnectsOn(Initial(), s, u);
    ConnectsOn(Initial(), u, t);
  }

  /** The stuck server acknowledges what it has accepted, in its next turn. */
  lemma StalledAcks(g: Game, n: nat, pending: Option<TlMsg>, responses: seq<TlMsg>, inbox: seq<TlMsg>, x: nat, turns: int,
                    c: Core)
    requires n < 1000 && (inbox == [] || (|responses| >= RESPONSE_CAPACITY && InBounds(inbox[0])))
    requires c.now == HALF && Picked(c, HALF) == Stalled(g, n + 1, pending, responses, inbox, x, turns, false)
    ensures Does(c, HALF, None, Stalled(g, n + 1, pending, responses, inbox, x, turns, true), [Acking(n)])
  {
    var d := Picked(c, HALF);
    HalfSend(c, HALF, d);
    NoneServes(d.(ackOnlySent := true));
    HalvesDo(c, HALF, d.(ackOnlySent := true), [Acking(n)], None,
             Stalled(g, n + 1, pending, responses, inbox, x, turns, true));
  }

  lemma StalledIsQuiet(g: Game, n: nat, pending: Option<TlMsg>, responses: seq<TlMsg>, inbox: seq<TlMsg>, x: nat, turns: int)
    requires pending.Some? || (responses == [] && turns == 4)
    ensures Sends(Stalled(g, n, pending, responses, inbox, x, turns, true), HALF,
                  Stalled(g, n, pending, responses, inbox, x, turns, true), [])
  {
    var c := Stalled(g, n, pending, responses, inbox, x, turns, true);
    assert Picked(c, HALF) == c;
    QuietSend(c, HALF, c);
  }

  lemma ReadServes(g: Game, n: nat, pending: Option<TlMsg>, responses: seq<TlMsg>, x: nat, turns: int)
    requires Fits(g) && n < 1000 && |responses| < RESPONSE_CAPACITY
    ensures Serves(Stalled(g, n, pending, responses, [], x, turns, true), Some(Carrying(n, g.get)),
                   Stalled(g, n + 1, pending, responses + [g.big], [], x + 2, turns, false))
  {
    OweFacts(x, 2);
    SlaveSlides(0);
    MessageHandled(Stalled(g, n, pending, responses, [], x, turns, true), Carrying(n, g.get), g.get);
  }

  lemma StalledReads(g: Game, n: nat, pending: Option<TlMsg>, responses: seq<TlMsg>, x: nat, turns: int)
    requires Fits(g) && n < 1000 && |responses| < RESPONSE_CAPACITY
    requires pending.Some? || (responses == [] && turns == 4)
    ensures Does(Stalled(g, n, pending, responses, [], x, turns, true), HALF, Some(Carrying(n, g.get)),
                 Stalled(g, n + 1, pending, responses + [g.big], [], x + 2, turns, false), [])
  {
    var c := Stalled(g, n, pending, responses, [], x, turns, true);
    StalledIsQuiet(g, n, pending, responses, [], x, turns);
    ReadServes(g, n, pending, responses, x, turns);
    HalvesDo(c, HALF, c, [], Some(Carrying(n, g.get)), Stalled(g, n + 1, pending, responses + [g.big], [], x + 2, turns, false));
  }

  lemma FirstReply(g: Game)
    ensures Does(Stalled(g, 1, None, [g.big], [], 2, 4, false), HALF, None, Stalled(g, 1, Some(g.big), [], [], 2, 3, true),
                 [Acking(0)])
  {
    assert [g.big][1..] == [];
    StalledAcks(g, 0, Some(g.big), [], [], 2, 3, Stalled(g, 1, None, [g.big], [], 2, 4, false));
  }

  lemma FirstRead(s: System, g: Game, c: Core) returns (t: System)
    requires Fits(g) && Sees(false, s, Stalled(g, 0, None, [], [], 0, 4, true), c, [], [Carrying(0, g.get)])
    ensures Connects(s, t) && Sees(false, t, Stalled(g, 1, None, [g.big], [], 2, 4, false), c, [], [])
  {
    StalledReads(g, 0, None, [], 0, 4);
    assert [] + [g.big] == [g.big];
    t := DoesMove(false, s, Stalled(g, 0, None, [], [], 0, 4, true), c, [], [Carrying(0, g.get)], HALF, true,
                  Stalled(g, 1, None, [g.big], [], 2, 4, false), []);
  }

  lemma FirstReadAcked(s: System, g: Game, c: Core) returns (t: System)
    requires Sees(false, s, Stalled(g, 1, None, [g.big], [], 2, 4, false), c, [], [])
    ensures Connects(s, t) && Sees(false, t, Stalled(g, 1, Some(g.big), [], [], 2, 3, true), c, [Acking(0)], [])
  {
    FirstReply(g);
    t := DoesMove(false, s, Stalled(g, 1, None, [g.big], [], 2, 4, false), c, [], [], HALF, false,
                  Stalled(g, 1, Some(g.big), [], [], 2, 3, true), [Acking(0)]);
  }

  /** The server with one reply pending and the others in the response buffer. */
  ghost predicate Reading(s: System, g: Game, n: nat, responses: seq<TlMsg>, x: nat, a: nat) {
    Sees(true, s, Ready(g, n, a, FULL_CREDIT), Stalled(g, n, Some(g.big), responses, [], x, 3, true), [], [])
  }

  lemma ReadCosts(g: Game, a: nat)
    requires Fits(g) && a >= 2
    ensures Affords(g.get, a, FULL_CREDIT, a - 2, FULL_CREDIT)
  {
  }

  lemma ReadOne(s: System, g: Game) returns (t: System)
    requires Fits(g) && Untouched(s, g)
    ensures Connects(s, t) && Reading(t, g, 1, [], 2, FULL_CREDIT - 2)
  {
    ReadCosts(g, FULL_CREDIT);
    var c := Waiting(g, 0, g.get, FULL_CREDIT - 2, FULL_CREDIT);
    var u := There(s, g, 0, g.get, FULL_CREDIT, FULL_CREDIT, FULL_CREDIT - 2, FULL_CREDIT, Stalled(g, 0, None, [], [], 0, 4, true));
    var v := FirstRead(u, g, c);
    var w := FirstReadAcked(v, g, c);
    t := Back(w, g, 0, g.get, FULL_CREDIT - 2, FULL_CREDIT, Stalled(g, 1, Some(g.big), [], [], 2, 3, true));
    ConnectsOn(s, u, v);
    ConnectsOn(s, v, w);
    ConnectsOn(s, w, t);
  }

  lemma ReadServed(s: System, g: Game, n: nat, responses: seq<TlMsg>, x: nat, c: Core) returns (t: System)
    requires Fits(g) && n < 1000 && |responses| < RESPONSE_CAPACITY
    requires Sees(false, s, Stalled(g, n, Some(g.big), responses, [], x, 3, true), c, [], [Carrying(n, g.get)])
    ensures Connects(s, t)
    ensures Sees(false, t, Stalled(g, n + 1, Some(g.big), responses + [g.big], [], x + 2, 3, false), c, [], [])
  {
    StalledReads(g, n, Some(g.big), responses, x, 3);
    t := DoesMove(false, s, Stalled(g, n, Some(g.big), responses, [], x, 3, true), c, [], [Carrying(n, g.get)], HALF, true,
                  Stalled(g, n + 1, Some(g.big), responses + [g.big], [], x + 2, 3, false), []);
  }

  lemma ReadAcked(s: System, g: Game, n: nat, responses: seq<TlMsg>, x: nat, c: Core) returns (t: System)
    requires n < 1000 && Sees(false, s, Stalled(g, n + 1, Some(g.big), responses, [], x, 3, false), c, [], [])
    ensures Connects(s, t)
    ensures Sees(false, t, Stalled(g, n + 1, Some(g.big), responses, [], x, 3, true), c, [Acking(n)], [])
  {
    var p := Stalled(g, n + 1, Some(g.big), responses, [], x, 3, false);
    StalledAcks(g, n, Some(g.big), responses, [], x, 3, p);
    t := DoesMove(false, s, p, c, [], [], HALF, false, p.(ackOnlySent := true), [Acking(n)]);
  }

  lemma ReadThere(s: System, g: Game, n: nat, a: nat, b: nat, p: Core) returns (t: System)
    requires Fits(g) && a == b + 2 && n < 1000 && Sees(true, s, Ready(g, n, a, FULL_CREDIT), p, [], [])
    ensures Connects(s, t) && Sees(false, t, p, Waiting(g, n, g.get, b, FULL_CREDIT), [], [Carrying(n, g.get)])
  {
    ReadCosts(g, a);
    t := There(s, g, n, g.get, a, FULL_CREDIT, b, FULL_CREDIT, p);
  }

  /** The server takes a read and acknowledges it. */
  lemma ReadTaken(s: System, g: Game, n: nat, responses: seq<TlMsg>, x: nat, c: Core) returns (t: System)
    requires Fits(g) && n < 1000 && |responses| < RESPONSE_CAPACITY
    requires Sees(false, s, Stalled(g, n, Some(g.big), responses, [], x, 3, true), c, [], [Carrying(n, g.get)])
    ensures Connects(s, t)
    ensures Sees(true, t, c, Stalled(g, n + 1, Some(g.big), responses + [g.big], [], x + 2, 3, true), [], [Acking(n)])
  {
    var u := ReadServed(s, g, n, responses, x, c);
    t := ReadAcked(u, g, n, responses + [g.big], x + 2, c);
    ConnectsOn(s, u, t);
  }

  lemma ReadStep(s: System, g: Game, n: nat, responses: seq<TlMsg>, x: nat, a: nat, b: nat) returns (t: System)
    requires Fits(g) && n < 1000 && |responses| < RESPONSE_CAPACITY && a == b + 2
    requires Reading(s, g, n, responses, x, a)
    ensures Connects(s, t) && Reading(t, g, n + 1, responses + [g.big], x + 2, b)
  {
    var u := ReadThere(s, g, n, a, b, Stalled(g, n, Some(g.big), responses, [], x, 3, true));
    var v := ReadTaken(u, g, n, responses, x, Waiting(g, n, g.get, b, FULL_CREDIT));
    t := Back(v, g, n, g.get, b, FULL_CREDIT, Stalled(g, n + 1, Some(g.big), responses + [g.big], [], x + 2, 3, true));
    ConnectsOn(s, u, v);
    ConnectsOn(s, v, t);
  }

  /** What n reads after the first have come to. */
  predicate Counts(g: Game, n: nat, responses: seq<TlMsg>, x: nat, a: nat) {
    responses == Copies(n, g.big) && x == 2 * n + 2 && a + x == FULL_CREDIT && n < RESPONSE_CAPACITY + 1
  }

  lemma CountsOn(g: Game, n: nat, responses: seq<TlMsg>, x: nat, a: nat) returns (b: nat)
    requires Counts(g, n, responses, x, a) && n < RESPONSE_CAPACITY
    ensures |responses| < RESPONSE_CAPACITY && a == b + 2 && Counts(g, n + 1, responses + [g.big], x + 2, b)
  {
    b := a - 2;
  }

  ghost predicate HasRead(s: System, g: Game, n: nat) {
    exists responses, x, a :: Counts(g, n, responses, x, a) && Reading(s, g, n + 1, responses, x, a)
  }

  lemma ReadFirst(s: System, g: Game) returns (t: System)
    requires Fits(g) && Untouched(s, g)
    ensures Connects(s, t) && HasRead(t, g, 0)
  {
    t := ReadOne(s, g);
    assert Counts(g, 0, [], 2, FULL_CREDIT - 2);
  }

  lemma ReadNext(s: System, g: Game, n: nat) returns (t: System)
    requires Fits(g) && n < RESPONSE_CAPACITY && HasRead(s, g, n)
    ensures Connects(s, t) && HasRead(t, g, n + 1)
  {
    var responses, x, a :| Counts(g, n, responses, x, a) && Reading(s, g, n + 1, responses, x, a);
    var b := CountsOn(g, n, responses, x, a);
    t := ReadStep(s, g, n + 1, responses, x, a, b);
  }

  lemma {:induction false} Reads(s: System, g: Game, n: nat) returns (t: System)
    requires Fits(g) && n <= RESPONSE_CAPACITY && HasRead(s, g, 0)
    ensures Connects(s, t) && HasRead(t, g, n)
    decreases n
  {
    t := s;
    ConnectsSelf(s);
    if n > 0 {
      var j: nat := n - 1;
      var u := Reads(s, g, j);
      t := ReadNext(u, g, j);
      ConnectsOn(s, u, t);
    }
  }

  // ---------- messages pile up unhandled ----------

  /** One hundred reads answered, none of the replies sent, and more messages waiting. */
  function Piled(g: Game, n: nat, inbox: seq<TlMsg>): Core {
    Stalled(g, n, Some(g.big), Copies(99, g.big), inbox, 200, 3, true)
  }

  lemma NextPiles(g: Game, n: nat, inbox: seq<TlMsg>, m: TlMsg)
    requires n < 1000 && |inbox| < 1000 && InBounds(OnWire(m)) && (inbox != [] ==> InBounds(inbox[0]))
    ensures Takes2(Piled(g, n, inbox), Carrying(n, m), Piled(g, n + 1, inbox + [OnWire(m)]).(ackOnlySent := false),
                   Piled(g, n + 1, inbox + [OnWire(m)]), Acking(n))
  {
    var c, f, d := Piled(g, n, inbox), Carrying(n, m), Piled(g, n + 1, inbox + [OnWire(m)]).(ackOnlySent := false);
    SlaveSlides(0);
    StalledIsQuiet(g, n, Some(g.big), Copies(99, g.big), inbox, 200, 3);
    MessageWaits(c, f, OnWire(m));
    HalvesDo(c, HALF, c, [], Some(f), d);
    StalledAcks(g, n, Some(g.big), Copies(99, g.big), inbox + [OnWire(m)], 200, 3, d);
  }

  /** j reads and k replies of the client's own waiting to be handled. */
  function Backlog(g: Game, j: nat, k: nat): seq<TlMsg> {
    Copies(j, g.get) + Copies(k, g.bigw)
  }

  lemma BacklogGrows(g: Game, j: nat, k: nat)
    ensures Backlog(g, j, 0) + [g.get] == Backlog(g, j + 1, 0) && Backlog(g, j, k) + [g.bigw] == Backlog(g, j, k + 1)
    ensures j > 0 ==> Backlog(g, j, k) == [g.get] + Backlog(g, j - 1, k)
    ensures |Backlog(g, j, k)| == j + k
  {
  }

  ghost predicate HasPiledReads(s: System, g: Game, j: nat)
    requires j <= 20
  {
    Sees(true, s, Ready(g, 100 + j, 824 - 2 * j, 1024), Piled(g, 100 + j, Backlog(g, j, 0)), [], [])
  }

  ghost predicate HasPiledBigs(s: System, g: Game, k: nat)
    requires k <= 15
  {
    Sees(true, s, Ready(g, 120 + k, 784, 1024 - 65 * k), Piled(g, 120 + k, Backlog(g, 20, k)), [], [])
  }

  lemma PileOne(s: System, g: Game, n: nat, inbox: seq<TlMsg>, m: TlMsg, a: nat, d: nat, a': nat, d': nat) returns (t: System)
    requires n < 1000 && |inbox| < 1000 && InBounds(OnWire(m)) && (inbox != [] ==> InBounds(inbox[0]))
    requires Affords(m, a, d, a', d') && Sees(true, s, Ready(g, n, a, d), Piled(g, n, inbox), [], [])
    ensures Connects(s, t) && Sees(true, t, Ready(g, n + 1, a', d'), Piled(g, n + 1, inbox + [OnWire(m)]), [], [])
  {
    NextPiles(g, n, inbox, m);
    var r := Piled(g, n + 1, inbox + [OnWire(m)]);
    t := Exchange(s, g, n, m, a, d, a', d', Piled(g, n, inbox), r.(ackOnlySent := false), r);
  }

  lemma PileRead(s: System, g: Game, j: nat) returns (t: System)
    requires Fits(g) && j < 20 && HasPiledReads(s, g, j)
    ensures Connects(s, t) && HasPiledReads(t, g, j + 1)
  {
    BacklogGrows(g, j, 0);
    t := PileOne(s, g, 100 + j, Backlog(g, j, 0), g.get, 824 - 2 * j, 1024, 824 - 2 * (j + 1), 1024);
  }

  lemma {:induction false} PileReads(s: System, g: Game, j: nat) returns (t: System)
    requires Fits(g) && j <= 20 && HasPiledReads(s, g, 0)
    ensures Connects(s, t) && HasPiledReads(t, g, j)
    decreases j
  {
    t := s;
    ConnectsSelf(s);
    if j > 0 {
      var i: nat := j - 1;
      var u := PileReads(s, g, i);
      t := PileRead(u, g, i);
      ConnectsOn(s, u, t);
    }
  }

  lemma PileBig(s: System, g: Game, k: nat) returns (t: System)
    requires Fits(g) && k < 15 && HasPiledBigs(s, g, k)
    ensures Connects(s, t) && HasPiledBigs(t, g, k + 1)
  {
    BacklogGrows(g, 20, k);
    t := PileOne(s, g, 120 + k, Backlog(g, 20, k), g.big, 784, 1024 - 65 * k, 784, 1024 - 65 * (k + 1));
  }

  lemma {:induction false} PileBigs(s: System, g: Game, k: nat) returns (t: System)
    requires Fits(g) && k <= 15 && HasPiledBigs(s, g, 0)
    ensures Connects(s, t) && HasPiledBigs(t, g, k)
    decreases k
  {
    t := s;
    ConnectsSelf(s);
    if k > 0 {
      var i: nat := k - 1;
      var u := PileBigs(s, g, i);
      t := PileBig(u, g, i);
      ConnectsOn(s, u, t);
    }
  }

  lemma ReadsPile(s: System, g: Game)
    requires HasRead(s, g, 99)
    ensures HasPiledReads(s, g, 0)
  {
    assert Backlog(g, 0, 0) == [];
  }

  lemma PiledUp(g: Game) returns (t: System)
    requires g == TheGame() && Fits(g)
    ensures Connects(Initial(), t) && HasPiledBigs(t, g, 15)
  {
    var s := Begin(g);
    var u := ReadFirst(s, g);
    var v := Reads(u, g, 99);
    ReadsPile(v, g);
    var w := PileReads(v, g, 20);
    t := PileBigs(w, g, 15);
    ConnectsOn(Initial(), s, u);
    ConnectsOn(Initial(), u, v);
    ConnectsOn(Initial(), v, w);
    ConnectsOn(Initial(), w, t);
  }

  // ---------- the client's window is stuck ----------

  function ClientFrame(g: Game, j: int, ack: int): Frame {
    Frame(NormalFrame, 141 + j, ack, true, 0, 0, Some(g.small))
  }

  function ClientRetx(g: Game, i: nat, time: nat): seq<RetxElement> {
    seq(i, j => RetxElement(ClientFrame(g, j, 4), time))
  }

  function ClientFilling(g: Game, i: nat): Core
    requires i <= 4
  {
    Client(g, 141 + i, 5, ClientRetx(g, i, 0), None, [], 0, 784, 49 - i, false, false, 0)
  }

  ghost predicate HasFilled(s: System, g: Game, i: nat, p: Core)
    requires i <= 4
  {
    Sees(true, s, ClientFilling(g, i), p, [], [])
  }

  lemma FillSends(g: Game, i: nat)
    requires Fits(g) && i < 4
    ensures Does(ClientFilling(g, i).(messages := [g.small]), 0, None, ClientFilling(g, i + 1), [ClientFrame(g, i, 4)])
  {
    OwedFacts(0);
    ReturnFacts(0);
    var c, d := ClientFilling(g, i).(messages := [g.small]), ClientFilling(g, i).(pending := Some(g.small));
    assert [g.small][1..] == [];
    NewSend(c, 0, d);
    assert NewFrame(d) == ClientFrame(g, i, 4);
    assert ClientRetx(g, i, 0) + [RetxElement(ClientFrame(g, i, 4), 0)] == ClientRetx(g, i + 1, 0);
    NoneServes(AfterNew(d));
    HalvesDo(c, 0, AfterNew(d), [ClientFrame(g, i, 4)], None, ClientFilling(g, i + 1));
  }

  lemma FillStep(s: System, g: Game, i: nat, p: Core) returns (t: System)
    requires Fits(g) && i < 4 && HasFilled(s, g, i, p)
    ensures Connects(s, t) && HasFilled(t, g, i + 1, p)
  {
    FillSends(g, i);
    var u := QueueSees(true, s, ClientFilling(g, i), p, [], [], g.small);
    var v := DoesMove(true, u, ClientFilling(g, i).(messages := [g.small]), p, [], [], 0, false,
                      ClientFilling(g, i + 1), [ClientFrame(g, i, 4)]);
    t := DropSees(false, v, p, ClientFilling(g, i + 1), [], [ClientFrame(g, i, 4)], 1);
    ConnectsOn(s, u, v);
    ConnectsOn(s, v, t);
  }

  lemma {:induction false} Fills(s: System, g: Game, i: nat, p: Core) returns (t: System)
    requires Fits(g) && i <= 4 && HasFilled(s, g, 0, p)
    ensures Connects(s, t) && HasFilled(t, g, i, p)
    decreases i
  {
    t := s;
    ConnectsSelf(s);
    if i > 0 {
      var j: nat := i - 1;
      var u := Fills(s, g, j, p);
      t := FillStep(u, g, j, p);
      ConnectsOn(s, u, t);
    }
  }

  /** The client with a full window and a request that it cannot pay. */
  function StuckClient(g: Game, r: int, y: nat, a: nat, since: nat, now: nat, acked: bool): Core {
    Client(g, 145, r, ClientRetx(g, 4, since), Some(g.big), [], y, a, 45, false, acked, now)
  }

  function ClientAck(ack: int): Frame {
    Frame(AckOnlyFrame, 145, ack, true, 0, 0, None)
  }

  lemma StuckAcks(g: Game, r: int, y: nat, a: nat, since: nat, now: nat, c: Core)
    requires 1 <= r < 1000 && since + HALF <= now < since + TIMEOUT_TIME
    requires c.now <= now && Picked(c, now) == StuckClient(g, r, y, a, since, now, false)
    ensures Does(c, now, None, StuckClient(g, r, y, a, since, now, true), [ClientAck(r - 1)])
  {
    var d := StuckClient(g, r, y, a, since, now, false);
    HalfSend(c, now, d);
    NoneServes(d.(ackOnlySent := true));
    HalvesDo(c, now, d.(ackOnlySent := true), [ClientAck(r - 1)], None, StuckClient(g, r, y, a, since, now, true));
  }

  lemma BecomesStuck(s: System, g: Game, p: Core) returns (t: System)
    requires Fits(g) && HasFilled(s, g, 4, p)
    ensures Connects(s, t) && Sees(true, t, StuckClient(g, 5, 0, 784, 0, HALF, true), p, [], [])
  {
    var c, d := ClientFilling(g, 4).(messages := [g.big]), StuckClient(g, 5, 0, 784, 0, HALF, true);
    assert [g.big][1..] == [];
    StuckAcks(g, 5, 0, 784, 0, HALF, c);
    var u := QueueSees(true, s, ClientFilling(g, 4), p, [], [], g.big);
    var v := DoesMove(true, u, c, p, [], [], HALF, false, d, [ClientAck(4)]);
    t := DropSees(false, v, p, d, [], [ClientAck(4)], 1);
    ConnectsOn(s, u, v);
    ConnectsOn(s, v, t);
  }

  lemma ClientSlides(g: Game, time: nat)
    ensures Slide(Wrapping, ClientRetx(g, 4, time), 140) == ClientRetx(g, 4, time)
  {
    assert ClientRetx(g, 4, time)[0].frame.seqNum == 141;
  }

  /** A frame of the server with a message that needs no answer, and credit for channel A only. */
  function Served(r: int, chan: Channel, credit: nat, m: TlMsg): Frame {
    Frame(NormalFrame, r, 140, true, chan, credit, Some(m))
  }

  function Gained(a: nat, chan: Channel, credit: nat): nat {
    if chan == 0 then a else a + Pow2(credit)
  }

  lemma StuckServes(g: Game, r: int, y: nat, a: nat, since: nat, now: nat, acked: bool,
                    chan: Channel, credit: nat, m: TlMsg, k: nat)
    requires 1 <= r < 1000 && since + HALF <= now < since + TIMEOUT_TIME && chan <= CHANNEL_A
    requires Costs(m, CHANNEL_D, k) && Unanswered(m)
    ensures Does(StuckClient(g, r, y, a, since, now, acked), now, Some(Served(r, chan, credit, m)),
                 StuckClient(g, r + 1, y + k, Gained(a, chan, credit), since, now, false),
                 if acked then [] else [ClientAck(r - 1)])
  {
    var c, f := StuckClient(g, r, y, a, since, now, acked), Served(r, chan, credit, m);
    var d := c.(ackOnlySent := true);
    var e := StuckClient(g, r + 1, y + k, Gained(a, chan, credit), since, now, false);
    OweFacts(y, k);
    ClientSlides(g, since);
    if acked {
      QuietSend(c, now, c);
    } else {
      HalfSend(c, now, c);
    }
    assert Gain(Spent(a, 45), chan, credit) == Spent(Gained(a, chan, credit), 45);
    MessageHandled(d, f, m);
    HalvesDo(c, now, d, if acked then [] else [ClientAck(r - 1)], Some(f), e);
  }
}
