# A verified model of TileLink over Ethernet

The C programs under `omnixtend-c/` connect two machines by TileLink over Ethernet
(OmniXtend 1.1). Each endpoint runs a go-back-N protocol with 22-bit sequence numbers that
wrap, a window of four frames, cumulative acknowledgements piggybacked on data, a
retransmission timeout, and credits for each TileLink channel. On top of it sits a memory
that answers PutFullData and Get requests. This project models one endpoint, two endpoints
joined by channels that lose frames, the frames as bytes, and the master's side of opening a
connection, and proves what the protocol is for.

`dafny verify dfyconfig.toml` checks everything.

## How it is built

Three layers describe the same protocol.

* `EndpointImpl.Endpoint` is the program: ring buffers (`CircularQueue`), credit arrays
  (`FlowControl`), the memory and the counters, changed in place, one method for each C
  function. A ghost field `state` holds the abstract state, and every method's contract
  equates the new `state` and the frames it has sent with a step function.
* `EndpointSpec` holds those step functions. Each takes a `Numbering`: `Wrapping` is what the
  program computes on, `Unbounded` the same protocol on integers that never wrap. There is
  one text for both.
* `System` joins two such states by two FIFO channels. A `Run` is any sequence of steps at
  either end: submit a message, choose what to send, advance the clock, transmit, receive,
  lose the oldest frame in flight, handle a message. Each node also carries a history that
  the protocol never reads. `LoopTurn` plays the two main loops against each other: each turn
  has a sending and a serving half, RX may find nothing while a frame is still on its way, and
  messages are queued and frames lost in between. Every such interleaving is a run of steps with
  the same end, so what holds over all runs holds over all interleavings.

The proofs first establish an invariant of the unbounded system (`Safety`, `Credits`,
`Recovery`, `Timers`), then show that the 22-bit system does the same thing step by step
(`Wire`), and so carry the results over (`Delivery`, `MemoryService`, `Packets`,
`WireRecovery`, `LoopRecovery`). Where a property fails, a run of whole turns shows it (`StaleAck`,
`AckOverflow`, `DeadlockRun` to `DeadlockReached`); `NodeTurn` and `NodeCore` say what one turn
makes of a node, so that such a run can be given turn by turn.

What the functions of `EndpointSpec` and `Codec` mean is stated without them: `PlainMemory` is a
byte memory read off the bytes of the requests, `PacketBytes` says where every byte of a packet
comes from, and `CallEffects` what one call of TX or RX does in any state.

### The one hypothesis

Comparing wrapped numbers is right as long as the two are less than 2^21 apart. For data frames
the invariant supplies that. For acknowledgements it does not: an entry of the ack buffer can
wait without bound, and TX copies its number into a frame. The results about the 22-bit system
therefore assume `RunRight`: whenever RX serves a frame in the run, the window is empty, or the
frame's ack is not behind it, or is behind it by an unambiguous distance, or the program exits
for a full ack buffer.

* The hypothesis is exact. `Wire.RunExactIff`: for every run, the 22-bit system follows the
  unbounded one all the way if and only if the run is right. It rests on `Wire.ReceiveExactIff`,
  the same of one call of RX in any state with the invariant and for any ack.
* It has a simple sufficient test. `Staleness.FreshIsRight`: a run is right if TX stamps no ack
  2^21 or more behind, which is a condition on the oldest entry of the ack buffer, and which
  every run of fewer than 2^21 - 1 steps meets.
* For longer runs it is needed. `StaleAck.MessageLost` gives whole turns of the two loops, from
  the opened connection, with frames lost and none reordered, after which a message that TX has
  consumed is neither accepted by the peer nor buffered by its sender. In that run an entry waits
  for 2^21 frames of the peer behind a window whose first frame is always lost.

### Progress

After a timeout both ends come level again: `Recovery.TimeoutCatchesUp` and
`Recovery.FreshAckFrees` say so of every run in which the frames then in the channel are served
and none is lost, whatever else either end does in between. `WireRecovery` has the same on 22
bits, and `LoopRecovery.LoopsRecover` on interleavings of the two loops. Two things the code does
not rule out, and for each there is a run of whole turns from the opened connection:
`AckOverflow.ExitReached` ends in the exit on a full ack buffer, and
`DeadlockReached.DeadlockReached` in a state in which neither end ever sends again. There each end
has a request it cannot pay, and TX returns no credit without a request it can pay or a queued
ack. `Deadlock.SilentIff` says exactly when an end is silent for good.

### Where the code and its comments disagree

The model follows the code.

* A comment (`tloe_receiver.c`, lines 110-113) says that a frame out of sequence is answered by
  a negative acknowledgement. The NAK bit is written into the ack buffer but TX copies only the
  number (`tloe_transmitter.c`, line 142), so no NAK is ever sent: `WindowSound` states that every
  arriving data frame carries an ACK, and recovery rests on the timeout alone.
* Memory is 4 GiB, though the comment beside its size says 8 GB.
* The test for a data part on channels A, B and C compares the opcode with those of all
  three channels, whatever the channel is.
* A message of more than 40 bytes shares its last flit with the mask, which is written later.
  The receiver gets the message with that flit replaced by 1; `OnWire` is that effect, and
  the delivery results speak of what `OnWire` leaves. It leaves a message alone if and only if the
  mask flit is free or the last flit is 1 anyway (`OnWireExactIff`).

## Model

| member | source | states |
|---|---|---|
| SeqNum.CmpExactIff | omnixtend-c/tloe_seq_mgr.c:3-16 | for all pairs of true numbers, the wrapped comparison is right if and only if their distance, reduced to 22 bits, is below half the circle, or is half of it with the larger residue behind |
| SeqNum.CmpExact | omnixtend-c/tloe_seq_mgr.c:3-16 | numbers less than 2^21 apart are always ordered as their true values |
| SeqNum.CmpAntisymmetric | omnixtend-c/tloe_seq_mgr.c:3-16 | antisymmetric on every pair, the half-way pair included |
| SeqNum.NextPrevWrap | omnixtend-c/tloe_seq_mgr.c:18-27 | next and prev follow the true successor and predecessor and undo each other across the wrap |
| TileLinkMsg.OnWire | omnixtend-c/tloe_frame.c:17-20 | what a frame carries of a message: all of it up to 40 bytes |
| TileLinkMsg.OnWireIdempotent | omnixtend-c/tloe_frame.c:17-20 | a message that has been through a frame is changed no further |
| TileLinkMsg.OnWireExactIff | omnixtend-c/tloe_frame.c:17-20 | for every message: a frame carries it whole if and only if it leaves the mask flit free, or its last flit is what the mask puts there |
| TileLinkMsg.LargeWriteChanges | omnixtend-c/tloe_frame.c:17-20 | a message it changes: a write of 32 zeros arrives as 24 zeros and a one |
| TileLinkMsg.FlitsBounds | omnixtend-c/tilelink_msg.c:19-34 | for every message: its cost is the least number of eight-byte flits that holds all its bytes |
| TileLinkMsg.FlitsTable | omnixtend-c/tilelink_msg.c:37-112 | the cost of every kind of message in closed form: a Get 2, an AccessAck 1, a PutFullData of size k 2 + (2^k + 7) / 8, an AccessAckData 1 + (2^k + 7) / 8, and so on |
| TileLinkMsg.LargeMessagesAreWholeFlits | omnixtend-c/tilelink_msg.c:106-112 | a message that reaches the mask flit ends on a flit boundary, so the mask overwrites data only |
| FlowControl.MaxChannel | omnixtend-c/flowcontrol.h:34-46 | the first channel whose pool is largest |
| FlowControl.LargestPow | omnixtend-c/flowcontrol.h:48-50 | exponent of the largest power of two not above the value |
| FlowControl.DrainIsBinaryExpansion | omnixtend-c/flowcontrol.c:121-126 | returning the largest power each time drains any pool in as many frames as it has one bits, exponents strictly decreasing and summing to the pool |
| FlowControl.SelectionSound | omnixtend-c/flowcontrol.h:34-46 | with channel 0 empty the choice is 0 only when nothing is owed, and the exponent fits its field |
| FlowControl.FlowControl.constructor | omnixtend-c/flowcontrol.c:8-16 | 128 credits a channel, nothing owed |
| FlowControl.FlowControl.SetCredit | omnixtend-c/flowcontrol.c:18-21 | sets one channel to a power of two and clears what it owes |
| FlowControl.FlowControl.CheckAllChannels | omnixtend-c/flowcontrol.c:34-53 | true if and only if channels 1 to 5 all exceed their initial credit |
| FlowControl.FlowControl.CreditInc | omnixtend-c/flowcontrol.c:67-86 | credit grows by the power carried, on a real channel only, and stays elsewhere |
| FlowControl.FlowControl.CreditDec | omnixtend-c/flowcontrol.c:88-111 | pays the flits of a message if and only if there are that many, on its channel only, or returns -1 and changes nothing |
| FlowControl.FlowControl.AddChannelFlowCredits | omnixtend-c/flowcontrol.c:117-119 | what is owed on the channel grows by the flits handled |
| FlowControl.FlowControl.GetOutgoingCredits | omnixtend-c/flowcontrol.c:121-126 | takes the largest power of two out of what is owed |
| FlowControl.FlowControl.SelectMaxCreditChannel | omnixtend-c/flowcontrol.h:34-46 | the loop finds the first largest pool |
| CircularQueue.CircularQueue.constructor | omnixtend-c/util/circular_queue.c:11-25 | an empty queue |
| CircularQueue.CircularQueue.IsEmpty | omnixtend-c/util/circular_queue.c:42-44 | true if and only if there are no contents |
| CircularQueue.CircularQueue.IsFull | omnixtend-c/util/circular_queue.c:46-48 | true if and only if all slots but one are used |
| CircularQueue.CircularQueue.Enqueue | omnixtend-c/util/circular_queue.c:50-57 | appends, or refuses and changes nothing when full |
| CircularQueue.CircularQueue.Dequeue | omnixtend-c/util/circular_queue.c:60-69 | takes the oldest element, or nothing when empty |
| CircularQueue.CircularQueue.GetFront | omnixtend-c/util/circular_queue.c:71-73 | the oldest element, left in place |
| CircularQueue.CircularQueue.SlotStep | omnixtend-c/retransmission.c:14-14 | the ring iteration visits the slots of all elements in order, and stops after the last |
| CircularQueue.CircularQueue.Update | omnixtend-c/retransmission.c:29-30 | writing an element during the ring iteration changes that element of the contents only |
| EndpointImpl.Endpoint.constructor | omnixtend-c/tloe_endpoint.c:33-75 | the whole initial state: empty buffers of the given capacities, 128 credits a channel, and zero memory, counters and clock |
| EndpointImpl.Endpoint.Retransmit | omnixtend-c/retransmission.c:6-33 | the ring iteration resends every element not before the given number, in order, with a fresh ack, and stamps it with the current time |
| EndpointImpl.Endpoint.SlideWindow | omnixtend-c/retransmission.c:35-53 | drops elements from the front while they are acknowledged, and nothing else |
| EndpointImpl.Endpoint.SendAckOnlyFrame | omnixtend-c/tloe_transmitter.c:13-31 | sends one frame with a fresh ack and nothing else |
| EndpointImpl.Endpoint.SendRequestedAck | omnixtend-c/tloe_transmitter.c:86-90 | sends the requested ack-only frame and clears the request |
| EndpointImpl.Endpoint.SendHalfTimeoutAck | omnixtend-c/tloe_transmitter.c:92-104 | one ack-only frame when the window is full, half the timeout is over and none has been sent |
| EndpointImpl.Endpoint.ChargeRequest | omnixtend-c/tloe_transmitter.c:106-127 | when a frame is built at all, whether it carries the request, and what is left over |
| EndpointImpl.Endpoint.TakeAck | omnixtend-c/tloe_transmitter.c:138-150 | the number of the oldest queued ack, taken out of the queue, or else a fresh one |
| EndpointImpl.Endpoint.TakeCredit | omnixtend-c/tloe_transmitter.c:152-159 | the credit returned on the selected channel leaves the pool |
| EndpointImpl.Endpoint.EnqueueAndSend | omnixtend-c/tloe_transmitter.c:161-184 | buffers and sends one frame under the next number |
| EndpointImpl.Endpoint.ResendOnTimeout | omnixtend-c/tloe_transmitter.c:186-191 | resends the whole buffer once its front has timed out |
| EndpointImpl.Endpoint.TX | omnixtend-c/tloe_transmitter.c:78-193 | the whole call: new state, request left over, and frames sent, in order |
| EndpointImpl.Endpoint.ServeAck | omnixtend-c/tloe_receiver.c:15-32 | slides the window and, for a NAK, resends from the next number |
| EndpointImpl.Endpoint.UpdateAckedSeq | omnixtend-c/tloe_seq_mgr.c:53-57 | the printed ack number only moves forward, and nothing else depends on it |
| EndpointImpl.Endpoint.ServeNormalRequest | omnixtend-c/tloe_receiver.c:34-66 | advances the expected number, takes the credit, queues the message, or halts on a full buffer |
| EndpointImpl.Endpoint.ServeZeroTlmsgRequest | omnixtend-c/tloe_receiver.c:68-79 | the same without a message, and asks for an ack-only frame |
| EndpointImpl.Endpoint.ServeDuplicateRequest | omnixtend-c/tloe_receiver.c:81-104 | queues an ack of the duplicate's own number, or halts on a full ack buffer |
| EndpointImpl.Endpoint.ServeOosRequest | omnixtend-c/tloe_receiver.c:106-133 | queues the last number accepted, or halts on a full ack buffer |
| EndpointImpl.Endpoint.RX | omnixtend-c/tloe_receiver.c:144-213 | the whole call on a frame that has arrived: new state, frames resent, exactly when the program exits, and the printed ack number, which an ack-only frame or the next data frame moves forward |
| EndpointImpl.Endpoint.WriteMemory | omnixtend-c/tilelink_handler.c:44-49 | exactly the addressed bytes of memory change, to the data of the request |
| EndpointImpl.Endpoint.EnqueueResponse | omnixtend-c/tilelink_handler.c:60-64 | queues the response, or counts it as dropped when the buffer is full |
| EndpointImpl.Endpoint.Dispatch | omnixtend-c/tilelink_handler.c:41-188 | effect of every channel and opcode on memory, responses and counters; faults if and only if the access leaves memory |
| EndpointImpl.Endpoint.TlHandler | omnixtend-c/tilelink_handler.c:190-219 | handles the oldest message unless the response buffer is full, and owes its flits to the sender |
| EndpointImpl.Endpoint.SelectBuffer | omnixtend-c/tloe_endpoint.c:95-113 | responses first, a message at least every fourth call |
| EndpointImpl.Endpoint.Iterate | omnixtend-c/tloe_endpoint.c:122-145 | one turn of the main loop, with the request that is kept for the next |
| LoopTurn.EventPlays | omnixtend-c/tloe_endpoint.c:122-145 | a half turn of either loop, a message queued or a frame lost is possible if and only if its steps are, with the same result |
| LoopTurn.PlayIsRun | omnixtend-c/tloe_endpoint.c:122-145 | any interleaving of the two loops' half turns, with arrival independent of what is in the channel, can be played if and only if its steps can be run, with the same end |
| Safety.SlideIsPrefixDrop | omnixtend-c/retransmission.c:40-52 | sliding removes precisely the elements numbered up to the ack |
| Safety.SlideThenResend | omnixtend-c/tloe_receiver.c:20-24 | go-back-N: sliding and then resending from the next number sends every element that is left, in order, unchanged but for the ack |
| Safety.TransmitEffect | omnixtend-c/tloe_transmitter.c:78-193 | TX keeps the buffer equal to the end of the log, sends only logged frames or acks, never acknowledges what was not accepted, and logs exactly the messages it consumes |
| Safety.ReceiveEffect | omnixtend-c/tloe_receiver.c:144-213 | RX frees exactly the acknowledged prefix and accepts a data frame if and only if it is the expected one |
| CallEffects.RequestGoesOutIff | omnixtend-c/tloe_transmitter.c:106-127 | for every state: TX takes the pending request if and only if fewer than four frames are buffered and the credit of its channel covers all its bytes; then, and only then, it spends the flits, on that channel |
| CallEffects.FramesSent | omnixtend-c/tloe_transmitter.c:78-193 | for every state with the window invariant: one ack-only frame for each of the two reasons, one new frame if and only if one is due, and the whole buffer with it when the front has timed out; none holds back another |
| CallEffects.NewFrameCarries | omnixtend-c/tloe_transmitter.c:129-173 | whatever else TX sends, its new frame has the next number, the oldest queued ack or else the last accepted number, the request if it can be paid for, and the highest power of two of what is owed on a channel that is owed the most, which is then owed no longer |
| CallEffects.NakResends | omnixtend-c/tloe_receiver.c:15-32 | a negative acknowledgement is answered with everything left in the buffer, in order and with a fresh ack, an acknowledgement with nothing |
| CallEffects.ArrivalsCounted | omnixtend-c/tloe_receiver.c:81-133 | every frame served counts once, a data frame besides as duplicate or out of sequence by its true distance |
| Safety.ActKeepsInv | omnixtend-c/tloe_endpoint.c:122-145 | every step at either end, loss included, keeps the invariant of window, channels, acks and delivery |
| Safety.ReachableInv | omnixtend-c/tloe_endpoint.c:122-145 | every reachable state has it: at most four consecutive frames buffered, base <= peer's next number <= own next number, every ack below its issuer's next number, delivery exactly once in order |
| Wire.SlideWraps | omnixtend-c/retransmission.c:35-53 | sliding on wrapped numbers is sliding on true ones, near an ack less than 2^21 away |
| Wire.ResendWraps | omnixtend-c/retransmission.c:6-33 | the same for resending and restamping |
| Wire.TransmitWraps | omnixtend-c/tloe_transmitter.c:78-193 | TX on wrapped numbers is TX on true ones, wrapped |
| Wire.ClassifyWraps | omnixtend-c/tloe_receiver.h:20-27 | normal, duplicate or out of sequence as the true counters would say |
| Wire.ReceiveWraps | omnixtend-c/tloe_receiver.c:144-213 | RX on wrapped numbers is RX on true ones, wrapped, exits included |
| Wire.SlideExactIff | omnixtend-c/retransmission.c:43-45 | for every buffer, the empty one included, and every earlier ack: the 22-bit slide removes what the true one would if and only if the ack is read right |
| Wire.StaleAckExactIff | omnixtend-c/retransmission.c:43-45 | for every nonempty buffer and every earlier ack, the 22-bit slide is right if and only if the ack is not behind the window or is behind it by an unambiguous distance |
| Wire.ReceiveExactIff | omnixtend-c/tloe_receiver.c:144-213 | for every state with the invariant and every arriving frame, however old its ack: RX on 22 bits is RX on true numbers if and only if the window is empty, the ack is not behind it or behind it by an unambiguous distance, or the program exits for a full ack buffer |
| Wire.HalfWayAckEmptiesBuffer | omnixtend-c/retransmission.c:43-45 | the half-way case of that condition: a buffer that the true ack leaves alone is emptied by the wrapped one |
| Wire.ActSimulatesIff | omnixtend-c/tloe_endpoint.c:122-145 | in every state with the invariant, a step of the 22-bit system is possible if and only if that of the unbounded one is, and with the same result, wrapped, if and only if it is not a frame whose ack is misread |
| Wire.WireRefinesUnbounded | omnixtend-c/tloe_endpoint.c:122-145 | over whole runs in which every ack served is read right, the 22-bit system is the unbounded system, wrapped |
| Wire.RunExactIff | omnixtend-c/tloe_endpoint.c:122-145 | and only over those: for every run, all its prefixes end in the same state, wrapped, if and only if every ack served in it is read right |
| Credits.ChargedKeeps | omnixtend-c/tloe_transmitter.c:155-173 | building a frame moves credit between places without changing the total |
| Credits.CreditedKeeps | omnixtend-c/flowcontrol.c:67-86 | so does accepting the next frame |
| Credits.SettledKeeps | omnixtend-c/tloe_endpoint.c:142-144 | so does handling a message |
| Credits.ActKeepsCredit | omnixtend-c/flowcontrol.c:67-126 | every step keeps the total of each channel, both ways |
| Credits.CreditConservation | omnixtend-c/flowcontrol.c:67-126 | in every reachable state sender credit, flits not accepted, flits not handled, credit owed and credit in frames not accepted add up to 1024 on each channel |
| Credits.CreditsBoundInbox | omnixtend-c/tloe_endpoint.c:52-52 | so at most 5 * 1024 messages wait, below the capacity of 9999 |
| Credits.HaltsOnlyOnFullAckBuffer | omnixtend-c/tloe_receiver.c:54-57 | on true numbers the exit on a full message buffer is unreachable: RX halts if and only if a data frame other than the next one meets a full ack buffer |
| Delivery.DeliveryOnTrueNumbers | omnixtend-c/tloe_receiver.c:34-66 | in every reachable state, both ways: messages consumed by TX = messages accepted by the peer, then those outstanding in the buffer; and the credit totals |
| Delivery.DeliveryOnWire | omnixtend-c/tloe_receiver.c:34-66 | the same of the 22-bit system over every run that reads its acks right, of any length, with the bound on the message buffer |
| Delivery.WindowSound | omnixtend-c/tloe_receiver.h:20-27 | on true numbers and without hypothesis on acks: a data frame that reaches RX is between next_rx - 4 and next_rx + 3, is classified right on 22 bits, and is never a NAK |
| Delivery.WindowSoundOnWire | omnixtend-c/tloe_receiver.h:20-27 | in the 22-bit system, at either end: such a frame is within the window across the wrap, is classified by its distance, and is never a NAK |
| Delivery.HaltsOnWire | omnixtend-c/tloe_receiver.c:54-57 | in the 22-bit system, at either end: RX halts if and only if a data frame other than the next one meets a full ack buffer |
| Delivery.FreedWasAccepted | omnixtend-c/retransmission.c:35-53 | serving a frame frees only elements the peer has accepted |
| Delivery.FreedWasAcceptedOnWire | omnixtend-c/retransmission.c:35-53 | on 22 bits, when the frame's ack is read right: whatever the slide frees, at either end, the peer would take for a duplicate |
| StaleAck.OneRound | omnixtend-c/tloe_transmitter.c:106-127 | while the slave's window is stuck, one round of turns moves the master on by one frame and leaves the slave's ack entry where it was |
| StaleAck.MessageLost | omnixtend-c/tloe_transmitter.c:138-142 | a run of whole loop turns from the opened connection, losing frames only, that ends with a consumed message neither accepted nor buffered: exactly-once delivery fails without the hypothesis on acks |
| AckOverflow.ExitReached | omnixtend-c/tloe_receiver.c:95-100 | a run of whole loop turns from the opened connection after which the oldest frame in flight makes RX exit on a full ack buffer |
| Staleness.TransmitStamps | omnixtend-c/tloe_transmitter.c:138-142 | every frame TX sends is stamped afresh or with the oldest entry of the ack buffer |
| Staleness.FreshEntrySuffices | omnixtend-c/tloe_transmitter.c:138-142 | so it is enough that this entry is less than 2^21 behind |
| Staleness.ActKeepsWireInv | omnixtend-c/tloe_endpoint.c:122-145 | freshly stamped acks keep every ack in flight less than 2^21 behind, after those ahead of it have been served |
| Staleness.FreshIsRight | omnixtend-c/tloe_transmitter.c:138-142 | so every run that stamps its acks freshly reads every ack right |
| Staleness.ShortRunsAreFresh | omnixtend-c/tloe_receiver.c:95-100 | runs of fewer than 2^21 - 1 steps meet the hypothesis on acks |
| Recovery.RunProgresses | omnixtend-c/tloe_receiver.c:144-213 | over every run in which no frame to an end is lost: having served m frames, whatever else was done in between, it expects the number that the gap-free frames among the first m carry it to, and has freed all they acknowledge |
| Recovery.TransmitResends | omnixtend-c/tloe_transmitter.c:186-191 | after a timeout TX has sent the whole buffer, last and in order, with a fresh ack |
| Recovery.TimeoutCatchesUp | omnixtend-c/tloe_transmitter.c:186-191 | from any state with the invariant, whatever was lost before: once the front has timed out and TX has run, every run that serves as many frames as were then in the channel, loses none of them, and does anything else at either end, brings the peer's next number to the sender's or beyond |
| Recovery.TransmitAcksFreshIff | omnixtend-c/tloe_transmitter.c:86-191 | TX sends a fresh ack if and only if an ack-only frame was asked for, or is due at half the timeout with a full window, or a timeout has run, or a new frame is due and no older ack is queued before it |
| Recovery.AckOnlyOrResentIsFresh | omnixtend-c/tloe_transmitter.c:13-31 | every ack-only frame and every resent frame acknowledges the last accepted number |
| Recovery.FreshAckFrees | omnixtend-c/retransmission.c:35-53 | once the peer has sent a fresh ack, every run that serves as many frames as were then in its channel and loses none frees every buffered frame the peer had accepted |
| Recovery.RecoverySchedule | omnixtend-c/retransmission.c:14-31 | timeout, such a run, a turn of the peer with a fresh ack and such a run back free every frame buffered at the timeout |
| WireRecovery.TimeoutCatchesUpOnWire | omnixtend-c/tloe_transmitter.c:186-191 | in the 22-bit system, for either end as the sender and after any run: the peer comes to accept, in order, everything TX had consumed by the timeout |
| WireRecovery.RecoveryOnWire | omnixtend-c/retransmission.c:14-31 | and after a turn of the peer that acks freshly on 22 bits and a run back, what the sender still buffers was logged after the timeout |
| LoopRecovery.LoopsRecover | omnixtend-c/tloe_endpoint.c:122-145 | the same of interleavings of the two loops, of half turns, arrivals, queued messages and losses elsewhere: what was consumed at the timeout is accepted, what was buffered is freed |
| Deadlock.SilentIff | omnixtend-c/tloe_transmitter.c:106-127 | an end with a request pending sends nothing, however far its clock runs while nothing arrives, if and only if it cannot pay for the request, has no ack queued or asked for, and an empty buffer |
| Deadlock.DeadlockIsForever | omnixtend-c/tloe_transmitter.c:123-126 | with both ends so and empty channels, no run of any steps at either end sends or accepts anything again |
| Deadlock.LoopsStaySilent | omnixtend-c/tloe_endpoint.c:122-145 | so no interleaving of the two loops puts a frame on the network again |
| DeadlockReached.DeadlockReached | omnixtend-c/tloe_transmitter.c:123-126 | a run of whole loop turns from the opened connection that ends there, though the first end owes the second enough credit for its request, and messages of the first wait unhandled at the second |
| Timers.RestampKeepsOrder | omnixtend-c/retransmission.c:29-30 | resending keeps send times ordered from front to rear |
| Timers.TimersStayOrdered | omnixtend-c/tloe_transmitter.c:40-40 | send times are ordered, and not in the future, in every reachable state |
| Timers.FrontDetectsTimeout | omnixtend-c/tloe_transmitter.c:188-190 | testing the front detects a timeout if and only if some element has timed out |
| PlainMemory.AddressOfWord | omnixtend-c/tilelink_handler.c:47-47 | for any 64-bit address word, the address read off its four low bytes is the word modulo 2^32 |
| PlainMemory.WriteSetsBytes | omnixtend-c/tilelink_handler.c:44-49 | for any address word a, a write in range sets byte a mod 2^32 + i to the i-th byte of its data, for every i, and leaves every other byte |
| PlainMemory.WriteIsAcknowledged | omnixtend-c/tilelink_handler.c:51-64 | it is answered by an AccessAck of size 0, without data, under its own source |
| PlainMemory.ReadGetsBytes | omnixtend-c/tilelink_handler.c:70-94 | for any address word a, a read in range is answered by an AccessAckData of its own size and source with exactly the bytes from a mod 2^32 on |
| PlainMemory.FaultsIff | omnixtend-c/tilelink_handler.c:48-48 | an access is out of bounds if and only if a mod 2^32 + 2^size > 2^32 |
| PlainMemory.HandlerExitsIff | omnixtend-c/tilelink_handler.c:190-219 | the handler exits if and only if the oldest message is such a request and there is room for an answer, and leaves it if and only if there is none or no room |
| PlainMemory.AnswerAt | omnixtend-c/tilelink_handler.c:44-94 | of a sequence of requests in range, the i-th gets the i-th answer of the plain memory: empty for a write, the bytes last written for a read, under the source of request i |
| MemoryService.MemoryIsLastWrite | omnixtend-c/tilelink_handler.c:44-49 | after any requests, each byte of memory is the one last written there, by address words, or zero |
| MemoryService.RepliesAreAnswers | omnixtend-c/tilelink_handler.c:44-94 | what the endpoint answers to any sequence of messages whose requests are in range is what the plain memory answers |
| MemoryService.ReadReturnsLastWrites | omnixtend-c/tilelink_handler.c:70-84 | a read returns, byte by byte, what was last written before it, under the request's own source |
| MemoryService.AppAlways | omnixtend-c/tilelink_handler.c:190-219 | in every reachable state memory, response queue and counters are those of the messages handled so far |
| MemoryService.EndToEndLinks | omnixtend-c/tilelink_handler.c:190-219 | when only the master asks: its answers are a prefix of the slave's replies, those of the requests handled, those of the requests made |
| MemoryService.SequentialMemory | omnixtend-c/tilelink_handler.c:44-94 | over the lossy 22-bit system the master receives, in order, a prefix of what a plain byte memory answers to its requests, up to the first one out of range, each message as its frame carries it |
| MemoryService.SequentialMemorySmall | omnixtend-c/tilelink_handler.c:44-94 | for sizes that leave the mask flit free, exactly a prefix of the plain memory's answers |
| MemoryService.MessageConservation | omnixtend-c/tilelink_handler.c:96-110 | every request is in exactly one place until its response is counted, and no response is ever dropped |
| Handshake.ProgressIsInOrder | omnixtend-c/tloe_connection.c:46-52 | k credit frames have been accepted if and only if the first k numbers occur in order in the stream, whatever is lost, repeated or interleaved |
| Handshake.Master.ServeConn | omnixtend-c/tloe_connection.c:82-94 | sends exactly the five credit frames, field by field, and leaves the next number at 5 |
| Handshake.Master.RecvConn | omnixtend-c/tloe_connection.c:35-54 | any frame with the expected number sets the channel it names and advances the number; any other changes nothing |
| Handshake.Master.RecvConnFromSlave | omnixtend-c/tloe_connection.c:35-54 | on the slave's frames, channel c is at 1024 exactly for c up to the next number |
| Handshake.Master.OpenTurn | omnixtend-c/tloe_connection.c:127-140 | one turn of the loop sends the five frames if and only if the timer has run out, and is done if and only if the next number is 5 |
| Handshake.Master.OpenConn | omnixtend-c/tloe_connection.c:122-146 | on any finite stream the loop completes if and only if all five frames have arrived in order, and then the endpoint as initialised, with its numbers and credits, is the state the data phase starts from; it sends exactly the five frames in the first turn and in each turn after an expired one while it lasts, each acknowledging what had been accepted by then, and at the end the closing frame |
| Handshake.FiveForEachBatch | omnixtend-c/tloe_connection.c:127-132 | the frames sent number five for each such turn, whatever arrives |
| Handshake.ClosingFrameAccepted | omnixtend-c/tloe_receiver.c:68-79 | accepting the closing frame takes the slave to the state the data phase starts from, an ack-only frame owed |
| Handshake.FilledIffFive | omnixtend-c/flowcontrol.c:34-53 | all channels are filled if and only if five frames have been accepted |
| Selection.CallKeepsFair | omnixtend-c/tloe_endpoint.c:98-113 | one call keeps the order and the bounds on passing over |
| Selection.SelectionIsFair | omnixtend-c/tloe_endpoint.c:98-113 | over any sequence of events each source is first in, first out; a waiting message is passed over at most three times in a row, a waiting response at most once |
| Codec.JoinSplits | omnixtend-c/tloe_frame.h:17-28 | a bit field reads back, what is above it reads back, and it takes its own bits only |
| Codec.TloeLayout | omnixtend-c/tloe_frame.h:17-28 | the place of each field in the header word of a frame |
| Codec.TloeHeaderRoundTrip | omnixtend-c/tloe_frame.h:17-28 | the frame header is 64 bits and reads back |
| Codec.TlLayout | omnixtend-c/tilelink_msg.h:54-65 | the place of each field in the header word of a message |
| Codec.TlHeaderRoundTrip | omnixtend-c/tilelink_msg.h:54-65 | the message header is 64 bits and reads back |
| Codec.BeRoundTrip | omnixtend-c/tloe_frame.c:99-101 | a word converted to network order converts back |
| Codec.BeSpells | omnixtend-c/tloe_frame.c:87-95 | the eight bytes of a word in network order make it up, the highest first |
| Codec.FlitsRoundTrip | omnixtend-c/tloe_frame.c:17-62 | set message and mask, then extract: the same message up to 40 bytes, above that the message with its last flit replaced by 1 |
| Codec.ParsePacket | omnixtend-c/tloe_frame.c:79-118 | parsing undoes packing for any words |
| Codec.FrameRoundTrip | omnixtend-c/tloe_frame.c:17-118 | for every frame whose numbers fit: the packet has 56 bytes, or 16 more than the data when that is over 40 bytes, and decoding gives back every header field and what is left of the message |
| PacketBytes.HeaderFirst | omnixtend-c/tloe_frame.c:86-89 | the first eight bytes of the packet make up the frame header, the highest first |
| PacketBytes.MessageHeaderNext | omnixtend-c/tloe_frame.c:57-61 | the next eight make up the message header, or are zero without a message |
| PacketBytes.DataBetween | omnixtend-c/tloe_frame.c:91-97 | then come the data, the bytes of each flit turned round, and zeros up to the mask: for every byte of the data its place in the packet |
| PacketBytes.MaskLast | omnixtend-c/tloe_frame.c:17-20 | the last eight bytes are the mask, 1 with a message and 0 without |
| Codec.PutWord | omnixtend-c/tloe_frame.c:99-101 | eight bytes of the buffer are the word in network order, the rest is unchanged |
| Codec.FrameToPacket | omnixtend-c/tloe_frame.c:79-97 | for any size the loop writes the header and every whole flit in network order, and leaves zeros after them |
| Codec.PacketToFrame | omnixtend-c/tloe_frame.c:99-118 | for any size the loop reads back every whole word and leaves the other flits alone |
| Packets.PacketsCarryFrames | omnixtend-c/tloe_frame.c:79-118 | in every state of the 22-bit system each frame in flight fits its packet and is exactly what the peer decodes from it |

## Left out

- EndpointImpl.Endpoint.UpdateAckedSeq: `acked_seq` is a field of the class, and RX's contract says what becomes of it, but it is not part of the abstract state, because the program only prints it; the window base is the front of the retransmit buffer.
- Wire.WireRefinesUnbounded: assumes that every ack served is read right; the code does not ensure it, since entries of the ack buffer can wait without bound, and `RunExactIff` and `MessageLost` say that nothing less will do.
- Frames of the handshake still in flight when the data phase starts: the channels start empty, as after losing them.
- Recovery.TimeoutCatchesUp: speaks of runs that go on, that is, in which no end exits on a full ack buffer; the code does not bound that buffer, and `ExitReached` is a run that exits.
- Liveness beyond those results: that the frames in the channel get served, that losses end, and that a fresh ack is sent, are hypotheses on the schedule.
- The run of `DeadlockReached` loses frames before its last timeouts; whether a run without any loss ends there too is open.
- Which messages are queued: any valid message on any channel. The runs of `MessageLost`, `ExitReached` and `DeadlockReached` queue responses on channel D besides reads; the program's command loop itself queues reads and writes of eight bytes.
- Codec.FrameRoundTrip: the host is taken to be little-endian with bit fields laid out from the lowest bit, as the program assumes; a packet that no endpoint builds (a nonzero mask with an unknown message, or a message longer than its frame) is read as no frame.
- Masks with more than one message: TX only writes 0 or 1, and the receiver's loop over the mask is modelled for those.
- Packets shorter than eight bytes: the program reads whatever its receive buffer held.
- Messages over 65 flits and messages on unknown channels or opcodes: the program overruns its frame or shifts by -1 for them; the shift itself is read as "no bytes".
- Credit channels 6 and 7 in a frame header: they index past the program's arrays, and no endpoint sends them.
- Element fields `state` and `f_size` of the retransmit buffer, which nothing reads but the send call; elements are values in slots rather than heap cells, so their allocation and release are not modelled.
- The counters `inc_cnt`, `inc_value`, `dec_cnt`, `dec_value`, `drop_cnt`, `drop_tlmsg_cnt` and the other statistics that are only printed or used by the drop hooks.
- Credits and counters as 32-bit integers: conservation keeps credits at 1024 or below; the statistics are unbounded here.
- Clocks and the network: times and arriving frames are parameters of the model; each endpoint has its own clock, and its time never runs backwards.
- Channel order: the relay of `tloe_ns_thread.c` keeps order and may drop, and that is the channel modelled; raw Ethernet that reorders or duplicates is not.
- One `buffer_select_counter` for each endpoint: the program has one static counter per process, and one endpoint per process.
- Opcodes without a handler, which have no effect but a printed line.
- The header-only Get that the command loop builds, which the handler reads past its allocation: `ValidMsg` asks for the address word.
- The slave's side of opening a connection, and both sides of closing it.
- Handshake.Master.RecvConnFromSlave: takes credit frames to be numbered as the slave numbers them, frame c - 1 for channel c; the program does not check this.
- Sockets, message queues, the fabric table, the network simulator, menus, argument parsing, threads, the busy wait, the test hooks that drop frames, allocation failure, and the WDE build.
- `get_earliest_element`, `printqueue` and the queue iterator, which nothing on these paths calls.
