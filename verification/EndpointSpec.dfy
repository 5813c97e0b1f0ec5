/**
 What one endpoint does in one call, as functions from state to state and to the
 frames handed to the network. Every function takes the numbering of sequence
 numbers; the class `Endpoint` implements them for `Wrapping`.
 */
module EndpointSpec {
  import opened SeqNum
  import opened TileLinkMsg
  import opened FlowControl

  const WINDOW_SIZE := 4
  const ACK_CAPACITY := 2047
  const TL_MSG_CAPACITY := 9999
  const RESPONSE_CAPACITY := 99
  const MESSAGE_CAPACITY := 9999
  const TIMEOUT_TIME := 100000
  const BUFFER_SELECT_TURNS := 4
  const MEM_SIZE := 0x1_0000_0000

  datatype Kind = NormalFrame | AckOnlyFrame | OpenFrame | CloseFrame

  /** A frame: its header fields, and the message that a receiver extracts from it
      (`None` when the mask is zero). */
  datatype Frame = Frame(
    kind: Kind, seqNum: int, seqNumAck: int, isAck: bool,
    chan: Channel, credit: nat, msg: Option<TlMsg>)

  datatype RetxElement = RetxElement(frame: Frame, sendTime: nat)

  type Memory = s: seq<byte> | |s| == MEM_SIZE witness seq(MEM_SIZE, _ => 0)

  datatype Stats = Stats(
    ackCnt: nat, dupCnt: nat, oosCnt: nat, ackOnlyCnt: nat,
    accessAckCnt: nat, accessAckDataCnt: nat, dropResponseCnt: nat)

  /** The endpoint's protocol state; the queues appear as their contents. */
  datatype EndpointState = EndpointState(
    nextTx: int, nextRx: int,
    retx: seq<RetxElement>, acks: seq<Frame>,
    inbox: seq<TlMsg>, responses: seq<TlMsg>, messages: seq<TlMsg>,
    credits: Counters, owed: Counters,
    sendAckOnly: bool, ackOnlySent: bool,
    now: nat, turns: int, mem: Memory, stats: Stats)

  /** tloe_endpoint_init, with the memory as tl_handler_init clears it. */
  function NewEndpoint(): EndpointState {
    EndpointState(0, 0, [], [], [], [], [], [128, 128, 128, 128, 128, 128], [0, 0, 0, 0, 0, 0],
      false, false, 0, BUFFER_SELECT_TURNS, seq(MEM_SIZE, _ => 0), Stats(0, 0, 0, 0, 0, 0, 0))
  }

  // ---------- go-back-N buffer ----------

  /** slide_window: drops elements from the front while they are acknowledged. */
  function Slide(n: Numbering, retx: seq<RetxElement>, ack: int): seq<RetxElement> {
    if retx == [] || n.Compare(retx[0].frame.seqNum, ack) > 0 then retx
    else Slide(n, retx[1..], ack)
  }

  /** The copies that retransmit puts on the network, with a refreshed ack. */
  function ResentFrames(n: Numbering, retx: seq<RetxElement>, from: int, ack: int): seq<Frame> {
    if retx == [] then []
    else
      var last := retx[|retx| - 1].frame;
      ResentFrames(n, retx[..|retx| - 1], from, ack)
      + if n.Compare(last.seqNum, from) < 0 then [] else [last.(seqNumAck := ack)]
  }

  /** The buffer after retransmit: what was resent carries the current time. */
  function Restamped(n: Numbering, retx: seq<RetxElement>, from: int, now: nat): (r: seq<RetxElement>)
    ensures |r| == |retx|
    ensures forall i :: 0 <= i < |retx| ==>
              r[i] == if n.Compare(retx[i].frame.seqNum, from) < 0 then retx[i] else retx[i].(sendTime := now)
  {
    seq(|retx|, i requires 0 <= i < |retx| =>
      if n.Compare(retx[i].frame.seqNum, from) < 0 then retx[i] else retx[i].(sendTime := now))
  }

  datatype Sent = Sent(state: EndpointState, frames: seq<Frame>)

  function Retransmit(n: Numbering, s: EndpointState, from: int): Sent {
    Sent(s.(retx := Restamped(n, s.retx, from, s.now)),
         ResentFrames(n, s.retx, from, n.Pred(s.nextRx)))
  }

  predicate TimedOut(now: nat, since: nat, limit: nat) {
    now - since >= limit
  }

  // ---------- TX ----------

  function AckOnly(n: Numbering, s: EndpointState): Frame {
    Frame(AckOnlyFrame, s.nextTx, n.Pred(s.nextRx), true, 0, 0, None)
  }

  function SendRequestedAck(n: Numbering, s: EndpointState): Sent {
    if s.sendAckOnly then Sent(s.(sendAckOnly := false), [AckOnly(n, s)]) else Sent(s, [])
  }

  function SendHalfTimeoutAck(n: Numbering, s: EndpointState): Sent {
    if |s.retx| == WINDOW_SIZE && !s.ackOnlySent && TimedOut(s.now, s.retx[0].sendTime, TIMEOUT_TIME / 2) then
      Sent(s.(ackOnlySent := true, stats := s.stats.(ackOnlyCnt := s.stats.ackOnlyCnt + 1)), [AckOnly(n, s)])
    else Sent(s, [])
  }

  datatype Transmitted = Transmitted(state: EndpointState, leftover: Option<TlMsg>, frames: seq<Frame>)

  predicate Payable(s: EndpointState, request: Option<TlMsg>) {
    request.Some? && CanPay(s.credits, request.value.header)
  }

  /** Whether TX leaves without building a frame. */
  predicate NothingToSend(s: EndpointState, request: Option<TlMsg>, chan: Channel) {
    || |s.retx| >= WINDOW_SIZE
    || (request.None? && s.acks == [] && chan == 0)
    || (request.Some? && !Payable(s, request) && s.acks == [])
  }

  function DataFrame(n: Numbering, s: EndpointState, request: Option<TlMsg>, chan: Channel): Frame
    requires chan != 0 ==> s.owed[chan] > 0
  {
    Frame(NormalFrame, s.nextTx,
          if s.acks == [] then n.Pred(s.nextRx) else s.acks[0].seqNumAck,
          true, chan,
          if chan == 0 then 0 else LargestPow(s.owed[chan]),
          if Payable(s, request) then Some(OnWire(request.value)) else None)
  }

  function SendData(n: Numbering, s: EndpointState, request: Option<TlMsg>, chan: Channel): Transmitted
    requires chan != 0 ==> s.owed[chan] > 0
  {
    if NothingToSend(s, request, chan) then Transmitted(s, request, [])
    else
      var f := DataFrame(n, s, request, chan);
      Transmitted(
        s.(nextTx := n.Succ(s.nextTx),
           retx := s.retx + [RetxElement(f, s.now)],
           acks := if s.acks == [] then [] else s.acks[1..],
           credits := if Payable(s, request) then Pay(s.credits, request.value.header) else s.credits,
           owed := Return(s.owed, chan)),
        if Payable(s, request) then None else request,
        [f])
  }

  function ResendOnTimeout(n: Numbering, s: EndpointState): Sent {
    if s.retx != [] && TimedOut(s.now, s.retx[0].sendTime, TIMEOUT_TIME) then
      Retransmit(n, s, s.retx[0].frame.seqNum)
    else Sent(s, [])
  }

  /** TX: at most two ack-only frames, at most one new frame, and the timeout. */
  function Transmit(n: Numbering, s: EndpointState, request: Option<TlMsg>): Transmitted {
    var chan := MaxChannel(s.owed, CHANNEL_NUM);
    var acked := SendRequestedAck(n, s);
    var half := SendHalfTimeoutAck(n, acked.state);
    var data := SendData(n, half.state, request, chan);
    var late := ResendOnTimeout(n, data.state);
    Transmitted(late.state, data.leftover, acked.frames + half.frames + data.frames + late.frames)
  }

  // ---------- RX ----------

  /** `Halted` is the program's own exit on a full buffer. */
  datatype Received = Halted | Received(state: EndpointState, frames: seq<Frame>)

  function ServeAck(n: Numbering, s: EndpointState, f: Frame): Sent {
    var slid := s.(retx := Slide(n, s.retx, f.seqNumAck));
    var sent := if f.isAck then Sent(slid, []) else Retransmit(n, slid, n.Succ(f.seqNumAck));
    Sent(sent.state.(stats := sent.state.stats.(ackCnt := s.stats.ackCnt + 1), ackOnlySent := false), sent.frames)
  }

  datatype ReqType = ReqNormal | ReqDuplicate | ReqOos

  function GetReqType(n: Numbering, seqNum: int, nextRx: int): ReqType {
    var diff := n.Compare(seqNum, nextRx);
    if diff == 0 then ReqNormal else if diff < 0 then ReqDuplicate else ReqOos
  }

  /** An entry of the ack buffer: the received header with a new ack number. */
  function AckEntry(f: Frame, ack: int, isAck: bool): Frame {
    f.(seqNumAck := ack, isAck := isAck, chan := 0, credit := 0, msg := None)
  }

  function ServeData(n: Numbering, s: EndpointState, f: Frame): Option<EndpointState> {
    match GetReqType(n, f.seqNum, s.nextRx)
    case ReqNormal =>
      var s1 := s.(nextRx := n.Succ(f.seqNum), credits := Gain(s.credits, f.chan, f.credit));
      if f.msg.None? then Some(s1.(sendAckOnly := true))
      else if |s.inbox| >= TL_MSG_CAPACITY then None
      else Some(s1.(inbox := s.inbox + [f.msg.value]))
    case ReqDuplicate =>
      if |s.acks| >= ACK_CAPACITY then None
      else Some(s.(acks := s.acks + [AckEntry(f, f.seqNum, true)],
                   stats := s.stats.(dupCnt := s.stats.dupCnt + 1)))
    case ReqOos =>
      if |s.acks| >= ACK_CAPACITY then None
      else Some(s.(acks := s.acks + [AckEntry(f, n.Pred(s.nextRx), false)],
                   stats := s.stats.(oosCnt := s.stats.oosCnt + 1)))
  }

  function Receive(n: Numbering, s: EndpointState, f: Frame): Received {
    var served := ServeAck(n, s, f);
    if f.kind.AckOnlyFrame? then Received(served.state, served.frames)
    else
      match ServeData(n, served.state, f)
      case None => Halted
      case Some(s') => Received(s', served.frames)
  }

  // ---------- the memory behind the endpoint ----------

  /** Little-endian value of a byte string. */
  function LeNat(bs: seq<byte>): nat {
    if bs == [] then 0 else bs[0] + 256 * LeNat(bs[1..])
  }

  /** Offset into memory: the address word modulo the size of memory. */
  function Offset(m: TlMsg): nat
    requires |m.data| >= 8
  {
    LeNat(m.data[..8]) % MEM_SIZE
  }

  predicate IsPut(m: TlMsg) { m.header.chan == CHANNEL_A && m.header.opcode == A_PUTFULLDATA }

  predicate IsGet(m: TlMsg) { m.header.chan == CHANNEL_A && m.header.opcode == A_GET }

  predicate IsAccessAck(m: TlMsg) { m.header.chan == CHANNEL_D && m.header.opcode == D_ACCESSACK }

  predicate IsAccessAckData(m: TlMsg) { m.header.chan == CHANNEL_D && m.header.opcode == D_ACCESSACKDATA }

  /** The bytes a request touches must lie inside memory, or the program exits. */
  predicate InBounds(m: TlMsg) {
    IsPut(m) || IsGet(m) ==> Offset(m) + Pow2(m.header.size) <= MEM_SIZE
  }

  function Written(mem: Memory, m: TlMsg): Memory
    requires InBounds(m)
  {
    if IsPut(m) then mem[..Offset(m)] + m.data[8..] + mem[Offset(m) + Pow2(m.header.size)..] else mem
  }

  lemma ReadReplyFits(m: TlMsg)
    requires IsGet(m)
    ensures Pow2(m.header.size) <= 512
  {
    Pow2Monotone(m.header.size, 9);
    assert Pow2(9) == 512 by { Pow2Splits(4, 5); assert Pow2(4) == 16 && Pow2(5) == 32; }
  }

  function ReplyTo(mem: Memory, m: TlMsg): Option<TlMsg>
    requires InBounds(m)
  {
    if IsPut(m) then Some(RawMsg(Reply(D_ACCESSACK, 0, m.header.source), []))
    else if IsGet(m) then
      ReadReplyFits(m);
      Some(RawMsg(Reply(D_ACCESSACKDATA, m.header.size, m.header.source),
                  mem[Offset(m)..Offset(m) + Pow2(m.header.size)]))
    else None
  }

  datatype Handled = Idle | Faulted | Handled(state: EndpointState)

  /** One turn of the loop's tail: tl_handler, then the credit it hands back. */
  function Handle(s: EndpointState): Handled {
    if s.inbox == [] || |s.responses| >= RESPONSE_CAPACITY then Idle
    else
      var m := s.inbox[0];
      if !InBounds(m) then Faulted
      else
        var reply := ReplyTo(s.mem, m);
        Handled(s.(
          inbox := s.inbox[1..],
          mem := Written(s.mem, m),
          responses := s.responses + (if reply.Some? then [reply.value] else []),
          owed := Owe(s.owed, m.header.chan, Flits(m.header)),
          stats := s.stats.(
            accessAckCnt := s.stats.accessAckCnt + (if IsAccessAck(m) then 1 else 0),
            accessAckDataCnt := s.stats.accessAckDataCnt + (if IsAccessAckData(m) then 1 else 0))))
  }

  // ---------- choosing what to send next ----------

  datatype Selected = Selected(state: EndpointState, request: Option<TlMsg>)

  /** select_buffer: responses first, but a message at least every fourth call. */
  function Select(s: EndpointState): Selected {
    if s.turns - 1 > 0 && s.responses != [] then
      Selected(s.(turns := s.turns - 1, responses := s.responses[1..]), Some(s.responses[0]))
    else if s.messages != [] then
      Selected(s.(turns := BUFFER_SELECT_TURNS, messages := s.messages[1..]), Some(s.messages[0]))
    else
      Selected(s.(turns := BUFFER_SELECT_TURNS), None)
  }

  // ---------- one turn of the main loop ----------

  /** Choose a request unless one is pending, read the clock, and send. */
  function SendTurn(n: Numbering, s: EndpointState, pending: Option<TlMsg>, time: nat): Transmitted {
    var chosen := if pending.None? then Select(s) else Selected(s, pending);
    Transmit(n, chosen.state.(now := time), chosen.request)
  }

  /** Serve a frame if one has arrived, then handle a message; `Halted` is any exit. */
  function ServeTurn(n: Numbering, s: EndpointState, arrived: Option<Frame>): Received {
    match (if arrived.None? then Received(s, []) else Receive(n, s, arrived.value))
    case Halted => Halted
    case Received(s1, frames) =>
      match Handle(s1)
      case Idle => Received(s1, frames)
      case Faulted => Halted
      case Handled(s2) => Received(s2, frames)
  }
}
