# A verified model of the multipath QUIC transport

This project models the transport in `src/quic-go` and proves properties of the model with Dafny:

- **Reliable byte stream** (`StreamFramer`, `StreamFrameSorter`, `ReceiveStream`, `StreamSystem`): written bytes are
  cut and re-cut into frames, reassembled with a gap list and an offset-keyed map, and copied out. Over all runs with
  loss, repetition and reordering, the peer reads a prefix of what was written and nothing gets stuck.
- **Several streams over several paths** (`PacketFlow`, `TransferSystem`): streams, one framer and the acks of every path
  together. Over all runs every byte stays with the sender, in a packet, or arrives, but for one exception.
- **Acks on one path** (`PacketNumberGenerator`, `SentPackets`, `PacketOutcomes`, `AckWalk`, `StopWaitingManager`,
  `ReceivedPackets`, `AckTiming`, `AckSystem`): over all runs, also when the path is closed, acks are never refused,
  acknowledged packets were received, packets and bytes in flight are conserved, and retransmittable packets are
  acknowledged in time. For every call, it is said for every packet in flight what becomes of it.
- **Packet list** (`PacketList`): the pointers of the ring spell out a sequence in both directions.
- **Shared bottlenecks** (`SingleLinkage`, `FlowGrouping`, `PathNumbers`, `MergeObservations`, `SbdWindows`): splitting
  sorted flows at gaps finds connected components, merging observations finds connected components of a weighted graph,
  and the rings hold the last 50 intervals (section 3 of RFC 8382).
- **Congestion control** (`Olia`, `OliaPaths`, `OliaOutcomes`, `OliaSender`, `OliaLostEpoch`, `Cubic`, `CubicSender`,
  `NewReno`): the epsilons of coupled flows cancel out exactly, the cubic target is the one of the curve on either side
  of its origin point, windows grow and shrink by exactly the amounts that the rules give, and over all runs of calls
  they stay within their bounds and losses of one window count once (section 3.2 of RFC 6582, section 4 of RFC 8312).
- **Streams of a session** (`StreamsMap`, `PacketFiller`): list, map and counters agree, removed streams stay removed,
  the round-robin scheduling asks every stream, and packets are filled in its order.

Objects whose methods update fields are classes; a method's contract ties the new state to the old one, usually through
a record of all fields (`View`) and a function or relation on such records. Networks and schedulers are state machines
over these relations, and their theorems speak of all finite runs. Frames, packets and intervals are values. Numbers are
unbounded, except where a width matters: the stored CUBIC target and the byte counters of OLIA and of the group numbers
wrap around in the model as they do in the code. Times are parameters of the methods that look at the clock, and float
arithmetic is done with reals or fractions. `dafny verify dfyconfig.toml` checks everything.

## Where the code does not do what it says

Each of these is stated by a member listed below.

- A frame whose end has been received already is cut, but keeps its FIN. The reader can then be told that the stream has
  ended before it has. This happens exactly if the last byte of the frame had been received before (`FinMisplaced`,
  `PrematureEof`).
- A frame that ends exactly at the largest offset is refused with an internal error (`Sorter.Push`, `RefusedFrames`).
- A frame with FIN and no data that comes before a received byte overwrites whatever is queued at its offset
  (`FinQueued`).
- A new packet number generator never skips a number, because the first number to skip is never drawn
  (`FreshNeverSkips`).
- After a CLOSE_PATH frame, packets can stay in flight on the closed path: those above the largest number acknowledged
  before that the frame does not name (`ClosePathOutcome`, `ClosePathLeavesPacketInFlight`).
- A CLOSE_PATH frame cannot be built before a packet was received, and there is no test for that
  (`Handler.GetClosePathFrame`, `AckCanBeBuilt`).
- In STOP_WAITING handling, the case of a number announced without a frame cannot occur (`Manager.GetStopWaitingFrame`).
- Flows without variance are never grouped by variance, not even with each other. Two flows of equal variance come into
  one group if and only if that variance is positive (`ZeroVarianceAlone`, `EqualVarianceGrouped`).
- A pause of the application that began before an epoch of CUBIC is added to the start of that epoch. The epoch can then
  start in the future, the target can fall below the window that the epoch started with, and it can wrap around.
  `PendingPause`, and `TargetSound` without a pending pause, say exactly when, before the call; `PauseBeforeEpoch` is
  such a run. The sender limits the window to its maximum all the same (`WindowBounded`). Over all runs in which no
  pause that began before an epoch is pending in it, this cannot happen (`TargetsSound`).
- A sender of OLIA whose group history has lost the epoch does not even couple with itself (`CouplesWithItself`), and
  then goes on with the epsilon of an earlier step. Its window can shrink to one packet, below the minimum used after
  losses: exactly as `ShrinksToOne` says, in `BelowMinimum` for instance. With its epoch, it cannot (`WindowsBounded`).
- A client compares the limit for its own streams with the number of open streams of the server, and the other way
  round (`StreamsMap.OpenStreamImpl`, `StreamsMap.OpenRemoteStream`).
- An own stream is taken for closed already when it is the next one to be opened (`StreamsMap.GetOrOpenStream`).
- A stream of the peer that is removed before it was accepted blocks `AcceptStream` for good (`AcceptBlocked`,
  `RemovedBeforeAccepted`).
- A packet that was sent before encryption was forward-secure is not sent again once the handshake is complete. A client
  may have put stream data into it (`canSendData` in `src/quic-go/packet_packer.go`), which is lost for good then:
  `LostExactly` says when, and `EarlyDataLost` is such a run. Nothing else is lost (`NothingLost`, `EverythingArrives`).
- A stream whose header has no room behind the frames of others is passed over, and waits for the next round. So it can
  be asked in every packet and never be served (`NeverServed`; `ServedExactly` gives the condition).
- Skipping streams 1 and 3 does not move the round-robin index, so a round need not move past them; the others are
  asked all the same within as many rounds as there are streams (`Fairness`).

## Model

| member | source | states |
|---|---|---|
| `StreamFrameSorter.Sorter.constructor` | src/quic-go/stream_frame_sorter.go:23-30 | A new sorter has one gap, up to MaxByteCount, and satisfies the invariant. |
| `StreamFrameSorter.Sorter.FindGap` | src/quic-go/stream_frame_sorter.go:54-64 | The gap found is the first one that the frame reaches; without one the frame is a duplicate. The error "no gap found" has no branch of its own: it cannot occur. |
| `StreamFrameSorter.Sorter.FindEndGap` | src/quic-go/stream_frame_sorter.go:78-94 | Finds the last gap that starts before the frame ends, and drops exactly the queued frames that begin at the right ends of the gaps passed over; fails exactly if no gap is left behind the frame. |
| `StreamFrameSorter.Sorter.ShrinkGaps` | src/quic-go/stream_frame_sorter.go:104-130 | The six ways of removing, shrinking and splitting gaps are one operation: bytes start..end leave the gap list, and the list stays ascending and disjoint. |
| `StreamFrameSorter.Sorter.Settle` | src/quic-go/stream_frame_sorter.go:96-143 | Tail cut, gap update and queueing of a frame together give the new state that `Pushed` describes. |
| `StreamFrameSorter.Sorter.Place` | src/quic-go/stream_frame_sorter.go:66-143 | From the gap on: whatever the search for the end gap says, the outcome is one that `Pushed` allows. |
| `StreamFrameSorter.Sorter.PushData` | src/quic-go/stream_frame_sorter.go:41-143 | A frame with data: cut at the front by a queued frame, then placed, or refused as a duplicate. |
| `StreamFrameSorter.Sorter.Push` | src/quic-go/stream_frame_sorter.go:32-144 | Refused as duplicate exactly if all its bytes have been received, as empty exactly if it has neither data nor FIN; "no end gap found" occurs exactly for a frame ending at MaxByteCount, and "too many gaps" exactly if there are 2500 already and the frame lies strictly inside one; otherwise the gaps lose exactly the bytes of the frame and the queue gains only pieces of it. The invariant holds if the frame fits one fixed end of the stream. |
| `StreamFrameSorter.Sorter.Head` | src/quic-go/stream_frame_sorter.go:155-161 | The frame queued at the read position, if any. |
| `StreamFrameSorter.Sorter.Pop` | src/quic-go/stream_frame_sorter.go:146-153 | Removes the head, advances by its length and keeps the invariant, so that nothing readable is skipped. |
| `StreamFrameSorter.HeadAvailable` | src/quic-go/stream_frame_sorter.go:155-161 | There is a head frame with data if and only if the read position lies before the first gap; its data is a prefix of what can be read. |
| `StreamFrameSorter.PopValid` | src/quic-go/stream_frame_sorter.go:146-153 | Popping keeps the invariant, and what could be read before is the head followed by what can be read after. |
| `StreamFrameSorter.PushTiles` | src/quic-go/stream_frame_sorter.go:78-142 | Every block between gaps stays tiled by a chain of frames that starts at its left end and ends exactly at its right end, although frames inside a covered block may stay behind. |
| `StreamFrameSorter.FillMembers` | src/quic-go/stream_frame_sorter.go:104-130 | After the gap update a byte is missing if and only if it was missing and lies outside start..end. |
| `StreamFrameSorter.FillOk` | src/quic-go/stream_frame_sorter.go:104-130 | The gap list stays ascending, disjoint and below MaxByteCount. |
| `StreamFrameSorter.FinQueued` | src/quic-go/stream_frame_sorter.go:33-37 | A frame with FIN and no data overwrites its slot; the invariant is kept if and only if no byte behind it had been received. |
| `StreamFrameSorter.PlacedSplits` | src/quic-go/stream_frame_sorter.go:112-128 | There is one more gap afterwards if and only if the frame lies strictly inside one. |
| `StreamFrameSorter.DuplicateMeansReceived` | src/quic-go/stream_frame_sorter.go:56-60 | A frame that ends before the first gap it could reach has no missing byte. |
| `ReceiveStream.Stream.constructor` | src/quic-go/stream.go:73-88 | Nothing queued, nothing read. |
| `ReceiveStream.Stream.AddStreamFrame` | src/quic-go/stream.go:292-307 | Hands the frame to the sorter; a duplicate is no error, and what can be read next never shrinks. |
| `ReceiveStream.Stream.ReadHead` | src/quic-go/stream.go:102-178 | One turn of the loop copies exactly the next unread bytes of the head frame and pops it when it is used up. |
| `ReceiveStream.Stream.Read` | src/quic-go/stream.go:91-182 | Returns the next unread bytes in order, as many as fit and are available before a gap or FIN; the end is reported if and only if a FIN is met there. The "BUG" errors have no inputs. |
| `ReceiveStream.CopyAt` | src/quic-go/stream.go:157-157 | Copies as much of the source as fits behind an index and leaves the rest of the buffer alone. |
| `ReceiveStream.Advance` | src/quic-go/stream.go:149-173 | Advancing over a part of the unread bytes leaves the remaining ones, in place. |
| `ReceiveStream.AdvanceFin` | src/quic-go/stream.go:169-177 | The FIN ahead stays where it is while frames before it are used up. |
| `ReceiveStream.PushKeepsPosition` | src/quic-go/stream.go:292-307 | A frame pushed between reads leaves the unread bytes a prefix of the new ones, so a read position inside the head frame stays valid. |
| `ReceiveStream.BelowLimit` | src/quic-go/stream.go:103-110 | Reading stops exactly at the first gap, or at the FIN before it. |
| `StreamFramer.MaybeSplitOffFrame` | src/quic-go/stream_framer.go:246-266 | The first n bytes are split off, without FIN, exactly if there are more; the second piece is not empty, the two continue each other and together carry what the frame carried, and the other fields stay. |
| `StreamFramer.Framer.MaybePopFramesForRetransmission` | src/quic-go/stream_framer.go:129-163 | Headers plus data stay within the budget, every frame returned has data or FIN, and what is returned followed by what stays queued is, byte for byte, what was queued. |
| `StreamFramer.Framer.PopFrameFrom` | src/quic-go/stream_framer.go:169-238 | A frame cut from a stream fits the space and the send window, carries exactly what the stream had pending less what it still has, FIN included, and as much as pending data, space and window allow. Without a frame it is the crypto stream, or there was nothing to send, no window, or no room behind the header; the next stream is not asked if and only if the packet is full or the header did not fit. |
| `StreamFramer.Framer.MaybePopNormalFrames` | src/quic-go/stream_framer.go:165-243 | Over the streams in the order given, the frames, the streams left and the number of streams asked are those of `PopAll`: the total length stays within the budget, each stream loses exactly what its frames carry, in order, every stream asked gave a frame or has a reason not to, and asking ends only where the packet is full or a header has no room. |
| `StreamFramer.Framer.PopNext` | src/quic-go/stream_framer.go:169-238 | One turn of the loop over the streams. |
| `StreamFramer.ServedExactly` | src/quic-go/stream_framer.go:169-216 | A stream that is asked gives no frame if and only if it is the crypto stream, or has nothing to send, no window, or no room behind the header. |
| `StreamFramer.PoppedMore` | src/quic-go/stream_framer.go:169-238 | Asking one more stream is one step of `PopAll`. |
| `StreamFramer.Framer.PopStreamFrames` | src/quic-go/stream_framer.go:36-39 | A batch of retransmissions and new frames never exceeds maxLen, bytes are conserved in both queues, and the streams are asked as above. |
| `StreamFramer.Framer.AddFrameForRetransmission` | src/quic-go/stream_framer.go:32-34 | Appends the frame. |
| `StreamFramer.AllItemsConcat` | src/quic-go/stream_framer.go:129-163 | What a sequence of frames carries is what its parts carry, in order: the measure for conservation. |
| `StreamFramer.DataItemsSplit` | src/quic-go/stream_framer.go:246-266 | Splitting data at any place splits what it carries. |
| `StreamFramer.SendStream.Write` | src/quic-go/stream.go:184-200 | Refuses data on a closed stream; otherwise the data becomes pending at the write offset. |
| `StreamFramer.SendStream.Close` | src/quic-go/stream.go:266-271 | Marks the end of what is written. |
| `StreamFramer.SendStream.GetDataForWriting` | src/quic-go/stream.go:244-263 | Hands out the first maxBytes pending bytes and advances the write offset by as much. |
| `StreamSystem.StepKeeps` | src/quic-go/stream_frame_sorter.go:32-161 | Every step of writer, framer, network, sorter and reader keeps the invariant that ties both ends to the bytes written. |
| `StreamSystem.RunInv` | src/quic-go/stream_frame_sorter.go:32-161 | The invariant holds after every run. |
| `StreamSystem.RefusedFrames` | src/quic-go/stream_frame_sorter.go:82-84 | With an honest sender a frame is refused if and only if it ends at MaxByteCount, or there are 2500 gaps and it lies strictly inside one of them. |
| `StreamSystem.FinMisplaced` | src/quic-go/stream_frame_sorter.go:96-102 | Push keeps FIN on a shortened frame: FIN comes to lie before the end of the stream if and only if the last byte of the frame had been received before. |
| `StreamSystem.PrematureEof` | src/quic-go/stream_frame_sorter.go:96-102 | A run of the classes in which an honest three-byte stream is reported as ended after at most two bytes. |
| `StreamSystem.ReadsPrefix` | src/quic-go/stream.go:91-182 | Over all runs, with frames re-cut, lost, repeated and reordered: the bytes read are a prefix of the bytes written. |
| `StreamSystem.ReadsEverything` | src/quic-go/stream.go:91-182 | Once every written byte has been delivered in some frame, all that is unread can be read: nothing gets stuck. |
| `StreamSystem.AllReadable` | src/quic-go/stream.go:91-182 | The same for any state that satisfies the invariant. |
| `StreamSystem.LastRead` | src/quic-go/stream.go:91-182 | One further Read with a large enough buffer then completes the output. |
| `StreamSystem.EofMeansEnd` | src/quic-go/stream.go:169-177 | As long as no FIN was misplaced, the end of the stream is reported only after everything was read and the writer has closed. |
| `ReceivedPackets.History.ReceivedPacket` | src/quic-go/ackhandler/received_packet_history.go:28-75 | The history gains exactly this packet; ranges stay ascending and at least two apart. Refused if and only if there are 2500 ranges already. |
| `ReceivedPackets.History.DeleteUpTo` | src/quic-go/ackhandler/received_packet_history.go:78-93 | Exactly the packets up to p are forgotten. |
| `ReceivedPackets.History.GetAckRanges` | src/quic-go/ackhandler/received_packet_history.go:96-108 | The ranges from highest to lowest. |
| `ReceivedPackets.History.constructor` | src/quic-go/ackhandler/received_packet_history.go:21-25 | An empty history. |
| `ReceivedPackets.AddAtEnd` | src/quic-go/ackhandler/received_packet_history.go:45-61 | Extending a range at its end adds one packet and keeps the ranges apart. |
| `ReceivedPackets.AddAtStart` | src/quic-go/ackhandler/received_packet_history.go:48-61 | Extending a range at its start, merging it with the one below if they meet, adds one packet and keeps the ranges apart. |
| `ReceivedPackets.AddNew` | src/quic-go/ackhandler/received_packet_history.go:64-72 | A new range of one packet between two others. |
| `ReceivedPackets.DeletePart` | src/quic-go/ackhandler/received_packet_history.go:78-93 | Cutting the first range that reaches beyond p. |
| `ReceivedPackets.Handler.constructor` | src/quic-go/ackhandler/received_packet_handler.go:34-40 | Nothing received, no ACK due. |
| `ReceivedPackets.Handler.ReceivedPacket` | src/quic-go/ackhandler/received_packet_handler.go:46-68 | Registers the packet, tracks the largest number and decides whether an ACK is due; packet 0 is refused. |
| `ReceivedPackets.Handler.MaybeQueueAck` | src/quic-go/ackhandler/received_packet_handler.go:77-123 | An ACK is due at once in exactly the listed cases; otherwise a first retransmittable packet starts the alarm. |
| `ReceivedPackets.Handler.SetLowerLimit` | src/quic-go/ackhandler/received_packet_handler.go:72-75 | Forgets the packets up to p; the invariant is kept if p lies below the largest number. |
| `ReceivedPackets.Handler.GetAckFrame` | src/quic-go/ackhandler/received_packet_handler.go:125-151 | Given exactly if one is due; well-formed, and it acknowledges exactly the packets in the history. |
| `ReceivedPackets.Handler.GetClosePathFrame` | src/quic-go/ackhandler/received_packet_handler.go:153-165 | Well-formed and exact, if the history is not empty: the code indexes the ranges without a check. |
| `ReceivedPackets.ReceivedInv` | src/quic-go/ackhandler/received_packet_handler.go:46-68 | A packet above the lower limit keeps the largest number in the history. |
| `ReceivedPackets.LowerLimitInv` | src/quic-go/ackhandler/received_packet_handler.go:72-75 | A lower limit below the largest number keeps it in the history. |
| `ReceivedPackets.LowerLimitTooHigh` | src/quic-go/ackhandler/received_packet_handler.go:72-75 | The history runs empty if and only if the limit reaches the largest number or it was empty. |
| `ReceivedPackets.AckSound` | src/quic-go/ackhandler/received_packet_handler.go:125-151 | ACK frames are well-formed and name exactly the packets in the history. |
| `StopWaitingManager.Manager.constructor` | src/quic-go/ackhandler/stop_waiting_manager.go:9-14 | Nothing sent. |
| `StopWaitingManager.Manager.GetStopWaitingFrame` | src/quic-go/ackhandler/stop_waiting_manager.go:16-37 | A new frame is given exactly if the least unacked number has grown since the last one; a forced one repeats the last. The case that a number was announced without a frame to repeat cannot occur. |
| `StopWaitingManager.Manager.ReceivedAck` | src/quic-go/ackhandler/stop_waiting_manager.go:39-43 | An ACK moves the least unacked number above its largest packet. |
| `StopWaitingManager.Manager.QueuedRetransmissionForPacketNumber` | src/quic-go/ackhandler/stop_waiting_manager.go:45-49 | Queueing a packet again moves the number above it. |
| `AckWalk.DetermineNewlyAckedPackets` | src/quic-go/ackhandler/sent_packet_handler.go:273-310 | For a well-formed frame, the one-pass walk over history and ranges returns exactly the packets of the history that the frame names, in order, and never reports a wrong packet. |
| `AckWalk.WalkDecides` | src/quic-go/ackhandler/sent_packet_handler.go:290-306 | With the range index moved up as the walk does, the packet is named by the frame if and only if it is in that range. |
| `PacketHistory.PickDrop` | src/quic-go/ackhandler/sent_packet_handler.go:218-223 | Taking packets out by number splits the history, its numbers and its bytes in two. |
| `PacketHistory.PickDropAscending` | src/quic-go/ackhandler/sent_packet_handler.go:218-223 | Both parts stay in order. |
| `PacketHistory.StripKeeps` | src/quic-go/ackhandler/retransmittable.go:6-26 | Stripping removes exactly the ACK and STOP_WAITING frames; each of the others stays as often as it was. |
| `PacketHistory.StripConcat` | src/quic-go/ackhandler/retransmittable.go:6-26 | ... and in its place: stripping a packet in two parts is stripping the parts. |
| `SentPackets.Handler.constructor` | src/quic-go/ackhandler/sent_packet_handler.go:91-113 | Nothing in flight. |
| `SentPackets.Handler.SkipUpTo` | src/quic-go/ackhandler/sent_packet_handler.go:139-145 | The numbers left out are appended, and the last ten are kept. |
| `SentPackets.Handler.SentPacket` | src/quic-go/ackhandler/sent_packet_handler.go:130-179 | Refused if and only if the number does not increase or too many packets are tracked; else the state is `AfterSend`, and the invariant holds. |
| `SentPackets.Handler.Record` | src/quic-go/ackhandler/sent_packet_handler.go:147-167 | The packet becomes the last one sent. |
| `SentPackets.Handler.Track` | src/quic-go/ackhandler/sent_packet_handler.go:156-167 | A packet with frames to retransmit enters the history and the bytes in flight. |
| `SentPackets.Handler.OnPacketAcked` | src/quic-go/ackhandler/sent_packet_handler.go:488-493 | The packet leaves the history; bytes in flight drop by its length and do not underflow; counters of timeouts are reset. |
| `SentPackets.Handler.QueuePacketForRetransmission` | src/quic-go/ackhandler/sent_packet_handler.go:569-575 | The packet moves from the history to the queue, and the bytes in flight with it. |
| `SentPackets.Handler.AckAll` | src/quic-go/ackhandler/sent_packet_handler.go:218-223 | One by one, exactly the acknowledged packets leave. |
| `SentPackets.Handler.QueueAll` | src/quic-go/ackhandler/sent_packet_handler.go:420-425 | One by one, exactly the lost packets are queued, in order. |
| `SentPackets.Handler.CollectLate` | src/quic-go/ackhandler/sent_packet_handler.go:394-418 | Exactly the packets up to the largest acknowledged one that were sent too long ago; the loss time is that of the first other one. |
| `SentPackets.Handler.DetectLostPackets` | src/quic-go/ackhandler/sent_packet_handler.go:394-426 | Queues exactly the late packets. |
| `SentPackets.Handler.SetInflightAsLost` | src/quic-go/ackhandler/sent_packet_handler.go:428-448 | Queues exactly the packets up to the largest acknowledged one. |
| `SentPackets.Handler.SkippedPacketsAcked` | src/quic-go/ackhandler/sent_packet_handler.go:604-611 | True if and only if the frame names one of the numbers left out. |
| `SentPackets.Handler.GarbageCollectSkippedPackets` | src/quic-go/ackhandler/sent_packet_handler.go:622-631 | Only numbers above the largest one acknowledged in order are kept. |
| `SentPackets.Handler.ReceivedAck` | src/quic-go/ackhandler/sent_packet_handler.go:181-232 | All branches: unsent, out of order, old, skipped, and otherwise acknowledged packets leave, late ones are queued, and the invariant holds. `PacketOutcomes.AckAnswered` says for every packet in flight what that comes to. |
| `SentPackets.Handler.ReceivedClosePath` | src/quic-go/ackhandler/sent_packet_handler.go:234-271 | The same for CLOSE_PATH; the largest acknowledged number stays as it is. |
| `SentPackets.Handler.HasOutstandingRetransmittablePacket` | src/quic-go/ackhandler/sent_packet_handler.go:365-372 | True if and only if some packet in flight has a frame of the listed kinds. |
| `SentPackets.Handler.RetransmitOldest` | src/quic-go/ackhandler/sent_packet_handler.go:545-567 | The first n packets in flight are queued, in order. |
| `SentPackets.Handler.OnAlarm` | src/quic-go/ackhandler/sent_packet_handler.go:450-482 | Loss detection, a tail loss probe, or the two oldest or all packets again, as the counters say; `PacketOutcomes.AlarmOutcome` says for every packet in flight what that comes to. |
| `SentPackets.Handler.DequeuePacketForRetransmission` | src/quic-go/ackhandler/sent_packet_handler.go:495-507 | The first queued packet, if any. |
| `SentPackets.Handler.DuplicatePacket` | src/quic-go/ackhandler/sent_packet_handler.go:577-579 | Queues a packet without touching the history. |
| `SentPackets.AfterSendInv` | src/quic-go/ackhandler/sent_packet_handler.go:130-179 | Sending keeps the invariant: numbers ascending, bytes in flight equal to the sum over the history, every packet in flight, acknowledged or lost. |
| `SentPackets.AcknowledgeInv` | src/quic-go/ackhandler/sent_packet_handler.go:488-493 | So does acknowledging. |
| `SentPackets.MarkLostInv` | src/quic-go/ackhandler/sent_packet_handler.go:569-575 | So does queueing for retransmission. |
| `SentPackets.AfterAckInv` | src/quic-go/ackhandler/sent_packet_handler.go:181-232 | So does an ACK. |
| `SentPackets.AfterClosePathInv` | src/quic-go/ackhandler/sent_packet_handler.go:234-271 | So does a CLOSE_PATH frame. |
| `SentPackets.AfterAlarmInv` | src/quic-go/ackhandler/sent_packet_handler.go:450-482 | So does the alarm. |
| `SentPackets.AckOutcome` | src/quic-go/ackhandler/sent_packet_handler.go:181-232 | For every packet in flight: acknowledged packets leave as acknowledged, late ones as lost, the others stay. |
| `SentPackets.ClosePathOutcome` | src/quic-go/ackhandler/sent_packet_handler.go:234-271 | After CLOSE_PATH exactly those packets stay in flight that the frame does not name and that lie above the largest number acknowledged before; none stays if and only if there is no such packet. |
| `SentPackets.ClosePathLeavesPacketInFlight` | src/quic-go/ackhandler/sent_packet_handler.go:428-448 | A run of two packets and one frame after which a packet stays in flight on the closed path. |
| `PacketOutcomes.AckAnswered` | src/quic-go/ackhandler/sent_packet_handler.go:181-232 | ReceivedAck for every packet in flight, without the number in order that the code compares with: refused exactly for unsent, repeated and skipped numbers; otherwise every packet that the frame names leaves as acknowledged, every other one sent too long ago is queued, the rest stays. Only a frame below everything in flight is taken as old. Counters, loss time, skipped numbers and the least unacked number follow. |
| `PacketOutcomes.AckedDetected` | src/quic-go/ackhandler/sent_packet_handler.go:207-232 | The same for the state after an ACK that is taken in; nothing else is queued, and the queue grows in order. |
| `PacketOutcomes.AckedNoted` | src/quic-go/ackhandler/sent_packet_handler.go:200-230 | The counters of alarms start again exactly if a packet is acknowledged; the least unacked number moves behind the largest acknowledged one. |
| `PacketOutcomes.OldAck` | src/quic-go/ackhandler/sent_packet_handler.go:119-124 | A frame that says nothing new names no packet in flight, and makes none late. |
| `PacketOutcomes.CollectOutcome` | src/quic-go/ackhandler/sent_packet_handler.go:622-631 | A number left out is remembered exactly as long as a packet below it is in flight, or, with none in flight, while it lies above the largest acknowledged number. |
| `PacketOutcomes.CloseAnswered` | src/quic-go/ackhandler/sent_packet_handler.go:234-271 | ReceivedClosePath for every packet in flight: named ones leave as acknowledged, others up to the largest acknowledged number are queued, the rest stays. |
| `PacketOutcomes.AlarmOutcome` | src/quic-go/ackhandler/sent_packet_handler.go:450-482 | OnAlarm for every packet in flight: without one to send again nothing happens; with a loss time those sent too long ago are queued; else, for the first two alarms, exactly the newest one; then exactly those with fewer than two before them, or all if the path may have failed. |
| `PacketOutcomes.FailedTimeoutEmpties` | src/quic-go/ackhandler/sent_packet_handler.go:467-567 | If the path may have failed, one retransmission timeout empties the flight into the queue. |
| `PacketOutcomes.BeforeIsPosition` | src/quic-go/ackhandler/sent_packet_handler.go:545-567 | The packets before one are counted by its place in the history. |
| `PacketOutcomes.DetectOutcome` | src/quic-go/ackhandler/sent_packet_handler.go:394-426 | Loss detection queues exactly the packets up to the largest acknowledged one that were sent too long ago, and the loss time is when the oldest of the others will be. |
| `PacketOutcomes.LossTimeOf` | src/quic-go/ackhandler/sent_packet_handler.go:394-418 | The loss time is determined by the packets that are left. |
| `PacketOutcomes.SendOutcome` | src/quic-go/ackhandler/sent_packet_handler.go:130-179 | A packet goes into flight exactly if it has something to send again, behind all others; the ten largest numbers left out are remembered. |
| `PacketOutcomes.SkippedOutcome` | src/quic-go/ackhandler/sent_packet_handler.go:139-145 | Of the numbers left out before and now, exactly those with fewer than ten above them are remembered. |
| `AckTiming.AckedInTime` | src/quic-go/ackhandler/received_packet_handler.go:46-151 | Over all runs: a retransmittable packet above the lower limit is acknowledged by the first ACK frame asked for after the delay at the latest, and named in it unless the lower limit has reached it. |
| `AckTiming.SecondAtOnce` | src/quic-go/ackhandler/received_packet_handler.go:77-123 | The second retransmittable packet since the last ACK makes the next one due at once. |
| `AckTiming.DueAtOnce` | src/quic-go/ackhandler/received_packet_handler.go:77-123 | An ACK is due at once exactly for the first packet, for one that the last ACK reported missing, above a new gap, with the second retransmittable packet, or, in old versions, the twentieth packet. |
| `AckTiming.GapIs` | src/quic-go/ackhandler/received_packet_handler.go:106-109 | The test with the highest range finds exactly a number missing from the last acknowledged one on. |
| `AckTiming.StaysDue` | src/quic-go/ackhandler/received_packet_handler.go:77-151 | What is due stays due until an ACK frame is built. |
| `AckTiming.RunTimely` | src/quic-go/ackhandler/received_packet_handler.go:46-151 | Over all runs, an unacknowledged retransmittable packet has an ACK queued or an alarm set, no later than the delay from now. |
| `AckTiming.StepTimely` | src/quic-go/ackhandler/received_packet_handler.go:46-151 | Every call keeps that. |
| `AckTiming.StaysContained` | src/quic-go/ackhandler/received_packet_handler.go:72-75 | A received packet stays in the history until a lower limit reaches it. |
| `Wire.FieldsFit` | src/quic-go/internal/wire/stream_frame.go:204-252 | The header fields hold every stream id of 32 bits and every offset of 64 bits, and are no wider than needed, but for an offset of one byte. |
| `AckSystem.StepKeeps` | src/quic-go/ackhandler/sent_packet_handler.go:181-232 | Every step of sender, receiver and network keeps the protocol invariant. |
| `AckSystem.RunInv` | src/quic-go/ackhandler/sent_packet_handler.go:130-271 | The invariant holds after every run, with ACK and CLOSE_PATH frames. |
| `AckSystem.ClosesNeverRefused` | src/quic-go/ackhandler/sent_packet_handler.go:234-271 | Nor is a CLOSE_PATH frame; afterwards exactly those packets are in flight on the path that it does not name and that lie above the largest acknowledged number. |
| `AckSystem.DeliverCloseKeeps` | src/quic-go/ackhandler/sent_packet_handler.go:234-271 | Delivering a CLOSE_PATH frame, at any time and any number of times, keeps the invariant. |
| `AckSystem.AcksNeverRefused` | src/quic-go/ackhandler/sent_packet_handler.go:182-205 | With a network that loses, repeats, delays and reorders, an ACK is never refused as one for an unsent or skipped packet. |
| `AckSystem.AckedWasReceived` | src/quic-go/ackhandler/sent_packet_handler.go:218-223 | Every packet that leaves as acknowledged was received, and every received packet was sent. |
| `AckSystem.PacketsConserved` | src/quic-go/ackhandler/sent_packet_handler.go:130-179 | After every run, each retransmittable packet is in exactly one of in flight, acknowledged and lost, and the bytes in flight are their lengths. |
| `AckSystem.LargestAckedGrows` | src/quic-go/ackhandler/sent_packet_handler.go:198-201 | The largest acknowledged number never decreases. |
| `AckSystem.AckCanBeBuilt` | src/quic-go/ackhandler/received_packet_handler.go:125-165 | Whenever an ACK is due there are ranges to build it from; the history is empty only as long as nothing was received, and the largest number was received. |
| `PacketNumberGenerator.Generator.constructor` | src/quic-go/packet_number_generator.go:20-25 | Starts at 1, with no number to skip. |
| `PacketNumberGenerator.Generator.Peek` | src/quic-go/packet_number_generator.go:27-29 | The number that the next Pop returns. |
| `PacketNumberGenerator.Generator.Pop` | src/quic-go/packet_number_generator.go:31-43 | Numbers increase, by one or two, and never by two twice in a row. |
| `PacketNumberGenerator.Generator.GenerateNewSkip` | src/quic-go/packet_number_generator.go:45-56 | The next number to skip leaves at least two numbers before it; a failed random source leaves the old one. |
| `PacketNumberGenerator.SkipDistance` | src/quic-go/packet_number_generator.go:45-56 | The distance to the next number to skip is 2 more than the random share of the period, rounded down. |
| `PacketNumberGenerator.SkipsOnAverage` | src/quic-go/packet_number_generator.go:45-56 | Two opposite random numbers give distances that add up to twice the period, up to rounding. |
| `PacketNumberGenerator.PopSpaced` | src/quic-go/packet_number_generator.go:31-56 | The spacing of the numbers issued is kept by every Pop, for every random value. |
| `PacketNumberGenerator.SkipsIffAhead` | src/quic-go/packet_number_generator.go:31-43 | Some number is left out if and only if the number to skip is ahead; then it is exactly that one. |
| `PacketNumberGenerator.FreshNeverSkips` | src/quic-go/packet_number_generator.go:20-25 | A new generator never skips: its first number to skip is never drawn, against the comment on the type. |
| `PacketList.List.constructor` | src/quic-go/ackhandler/packet_linkedlist.go:45-48 | The zero value is an empty list. |
| `PacketList.List.Init` | src/quic-go/ackhandler/packet_linkedlist.go:52-57 | An empty ring. |
| `PacketList.List.LazyInit` | src/quic-go/ackhandler/packet_linkedlist.go:83-87 | Closes the ring of a zero value and changes nothing else. |
| `PacketList.List.Front` | src/quic-go/ackhandler/packet_linkedlist.go:67-72 | The first element, if any. |
| `PacketList.List.Back` | src/quic-go/ackhandler/packet_linkedlist.go:75-80 | The last element, if any. |
| `PacketList.List.Insert` | src/quic-go/ackhandler/packet_linkedlist.go:90-99 | The pointers spell out the sequence with the element inserted after the given place, forwards and backwards. |
| `PacketList.List.InsertValue` | src/quic-go/ackhandler/packet_linkedlist.go:102-104 | The same with a new element. |
| `PacketList.List.RemoveElement` | src/quic-go/ackhandler/packet_linkedlist.go:107-115 | The pointers spell out the sequence without the element. |
| `PacketList.List.Remove` | src/quic-go/ackhandler/packet_linkedlist.go:119-126 | Takes out exactly this element if it belongs to the list; else nothing changes. |
| `PacketList.List.PushFront` | src/quic-go/ackhandler/packet_linkedlist.go:129-132 | The sequence grows by one at the front. |
| `PacketList.List.PushBack` | src/quic-go/ackhandler/packet_linkedlist.go:135-138 | The sequence grows by one at the back. |
| `PacketList.List.InsertBefore` | src/quic-go/ackhandler/packet_linkedlist.go:142-148 | The sequence grows by one before the mark, if the mark belongs to the list. |
| `PacketList.List.InsertAfter` | src/quic-go/ackhandler/packet_linkedlist.go:152-158 | The sequence grows by one after the mark, if the mark belongs to the list. |
| `PacketList.List.PushBackList` | src/quic-go/ackhandler/packet_linkedlist.go:200-205 | The values of the other list follow the own ones; it ends and copies once even if both lists are the same. |
| `PacketList.List.PushFrontList` | src/quic-go/ackhandler/packet_linkedlist.go:209-214 | The values of the other list precede the own ones, in order, even if both lists are the same. |
| `PacketList.List.Neighbours` | src/quic-go/ackhandler/packet_linkedlist.go:29-42 | Next and Prev lead to the neighbouring elements, and to nil at the ends. |
| `PacketList.List.Forward` | src/quic-go/ackhandler/packet_linkedlist.go:28-42 | Walking with Next visits exactly the sequence. |
| `PacketList.List.Backward` | src/quic-go/ackhandler/packet_linkedlist.go:36-42 | Walking with Prev visits it in reverse. |
| `SingleLinkage.CutsCluster` | src/quic-go/flow_grouping.go:165-216 | Sorting and cutting at the gaps puts two flows into one group if and only if a chain of flows, each within the threshold of the next, joins them. |
| `SingleLinkage.LinkedTogether` | src/quic-go/flow_grouping.go:165-207 | Two flows within the threshold are never separated: a wider pair inside the order would have to be within it too. |
| `SingleLinkage.SliceConnected` | src/quic-go/flow_grouping.go:193-194 | The flows of a group are joined by a chain, in either direction. |
| `SingleLinkage.SlicesPartition` | src/quic-go/flow_grouping.go:195-216 | Every flow is in exactly one group, once. |
| `SingleLinkage.JoinsInside` | src/quic-go/flow_grouping.go:181-191 | Both kinds of threshold are monotone: if the ends of a stretch are within it, so are neighbours inside, also for negative keys. |
| `SingleLinkage.OrderIrrelevant` | src/quic-go/flow_grouping.go:266-314 | The order in which flows are listed and the way ties are sorted do not change which flows end up together. |
| `SingleLinkage.ZeroVarianceAlone` | src/quic-go/flow_grouping.go:172-191 | A flow without variance is grouped with no other flow, not even with one like it. |
| `SingleLinkage.EqualVarianceLinked` | src/quic-go/flow_grouping.go:172-191 | Two flows of equal variance are within the threshold if and only if that variance is positive. |
| `SingleLinkage.EqualVarianceGrouped` | src/quic-go/flow_grouping.go:172-191 | So they come into one group if and only if it is positive. |
| `FlowGrouping.SortFlows` | src/quic-go/flow_grouping.go:266-314 | In place: a permutation, descending by the key. |
| `FlowGrouping.Insert` | src/quic-go/flow_grouping.go:289-314 | One flow moves up to its place. |
| `FlowGrouping.CutAtGaps` | src/quic-go/flow_grouping.go:160-216 | The loop with the reused scratch slice returns the clusters; the slices returned are new and differ from each other and from the scratch slice. |
| `FlowGrouping.Append` | src/quic-go/flow_grouping.go:195-216 | Emitting copies the scratch slice, so that emptying it later changes no group. |
| `FlowGrouping.SplitFlows` | src/quic-go/flow_grouping.go:147-217 | The groups are the connected components of the flows, each in a slice of its own. |
| `FlowGrouping.SplitCongestion` | src/quic-go/flow_grouping.go:124-145 | Both lists together have every flow once; a flow is congested exactly by the three tests, and remembers it. |
| `FlowGrouping.SplitSkewness` | src/quic-go/flow_grouping.go:219-234 | Splits by loss if one flow has a high loss, else by skewness. |
| `FlowGrouping.SplitByVariance` | src/quic-go/flow_grouping.go:250-254 | The frequency groups refined by variance. |
| `FlowGrouping.SplitBySkewness` | src/quic-go/flow_grouping.go:256-262 | Every variance group is partitioned again, in order. |
| `FlowGrouping.ProcessOwds` | src/quic-go/flow_grouping.go:237-264 | The variance groups partition exactly the congested flows; two flows share one if and only if they are connected by frequency and, within that class, by variance; each is partitioned into skewness groups. |
| `FlowGrouping.SplitOneMore` | src/quic-go/flow_grouping.go:250-254 | Refining one more frequency group keeps that description. |
| `FlowGrouping.WriteNumber` | src/quic-go/compute_sbd.go:235-239 | All flows of one variance group get one number. |
| `FlowGrouping.NumberPaths` | src/quic-go/compute_sbd.go:223-240 | Every path starts at 0 and gets the number of its group. |
| `FlowGrouping.NumbersMean` | src/quic-go/compute_sbd.go:234-240 | A number is 0 if and only if there is no group; numbers are equal if and only if the groups are. |
| `FlowGrouping.FewGroups` | src/quic-go/compute_sbd.go:234-240 | There are at most as many groups as flows, so the numbers do not wrap around. |
| `FlowGrouping.Grouping` | src/quic-go/compute_sbd.go:216-240 | A path has number 0 if and only if it is not congested; two congested paths share a number if and only if they share frequency class and variance class. |
| `PathNumbers.SimilarSameNumber` | src/quic-go/compute_sbd.go:216-240 | Congested paths whose key frequencies differ by less than 0.1 and whose variances differ by less than a tenth of the larger one get the same number. |
| `PathNumbers.FrequencyGapSeparates` | src/quic-go/compute_sbd.go:216-240 | Congested paths on either side of a gap of 0.1 in the key frequencies get different numbers. |
| `PathNumbers.VarianceGapSeparates` | src/quic-go/compute_sbd.go:216-240 | So do those on either side of a gap of a tenth in the variances. |
| `PathNumbers.LinkedByFrequency` | src/quic-go/flow_grouping.go:168-191 | By frequency: linked if and only if the key frequencies differ by less than 0.1. |
| `PathNumbers.LinkedByVariance` | src/quic-go/flow_grouping.go:171-191 | By variance: if and only if the smaller one is more than nine tenths of the larger. |
| `PathNumbers.LinkedBySkewness` | src/quic-go/flow_grouping.go:219-234 | By loss, within 0.1, if one flow loses more than a tenth; else by skewness, within 0.15. |
| `PathNumbers.Hysteresis` | src/quic-go/flow_grouping.go:129-144 | A flow that was congested stays so until its skewness reaches 0.3. |
| `PathNumbers.StaysOnSide` | src/quic-go/flow_grouping.go:160-216 | No chain of links leads out of a side that no link leaves. |
| `MergeObservations.FindAllGroups` | src/quic-go/sbd/sbd.py:418-424 | The groups that have the subflow, over all observations. |
| `MergeObservations.GetAllSubflows` | src/quic-go/sbd/sbd.py:410-416 | All subflows, ascending, each once. |
| `MergeObservations.Weigh` | src/quic-go/sbd/sbd.py:457-469 | The weight of a neighbour is the number of groups that have both, over the number of observations. |
| `MergeObservations.FindEdges` | src/quic-go/sbd/sbd.py:454-469 | An edge joins two subflows if and only if some group has both, with that weight. |
| `MergeObservations.EdgesSymmetric` | src/quic-go/sbd/sbd.py:454-469 | Edges and weights are symmetric. |
| `MergeObservations.StrongMeans` | src/quic-go/sbd/sbd.py:461-468 | Then an edge is strong if and only if that share reaches the threshold. |
| `MergeObservations.OftenTogether` | src/quic-go/sbd/sbd.py:440-489 | Two subflows whose share reaches the threshold are in one group. |
| `MergeObservations.SidesApart` | src/quic-go/sbd/sbd.py:440-489 | Two sides of the subflows between which no share reaches it have no group in common. |
| `MergeObservations.SplitMeans` | src/quic-go/sbd/sbd.py:441-450 | A single observation: every group is reported, one flow marked as not congested apart, any other as a group. |
| `MergeObservations.WeightIsShare` | src/quic-go/sbd/sbd.py:461-468 | If no observation has a subflow twice, the weight is the share of observations that have the two together. |
| `MergeObservations.Visit` | src/quic-go/sbd/sbd.py:426-436 | The search ends, visits each subflow once, and adds flows reachable over strong edges together with all their strong neighbours. |
| `MergeObservations.OneComponent` | src/quic-go/sbd/sbd.py:471-476 | A search started outside what was visited adds a whole connected component. |
| `MergeObservations.FindComponents` | src/quic-go/sbd/sbd.py:471-487 | Every subflow is reported once; two of those in groups are together if and only if strong edges connect them; one is reported apart if and only if no strong edge connects it to another and no observation saw it congested. |
| `MergeObservations.MergeObservations` | src/quic-go/sbd/sbd.py:440-489 | Several observations: the same over the weighted graph that they define. One observation: split by its marks only. |
| `MergeObservations.SplitMarked` | src/quic-go/sbd/sbd.py:441-450 | The branch for a single observation. |
| `MergeObservations.OutputsPartition` | src/quic-go/sbd/sbd.py:477-489 | Every subflow is reported exactly once, alone or in a group. |
| `MergeObservations.OutputsMerged` | src/quic-go/sbd/sbd.py:477-489 | Sorting out single components keeps every connection and says which subflows stand alone. |
| `Olia.Olia.constructor` | src/quic-go/congestion/olia.go:25-35 | All counters at the bytes acked so far, epsilon 0/1. |
| `Olia.Olia.Reset` | src/quic-go/congestion/olia.go:41-48 | All counters at zero, epsilon 0/1. |
| `Olia.Olia.SmoothedBytesBetweenLosses` | src/quic-go/congestion/olia.go:50-52 | The larger of the two distances between loss counters. |
| `Olia.Olia.UpdateAckedSinceLastLoss` | src/quic-go/congestion/olia.go:54-56 | Only the last counter grows. |
| `Olia.Olia.OnPacketLost` | src/quic-go/congestion/olia.go:58-62 | The counters move on by one loss. |
| `Olia.Olia.AddIncrease` | src/quic-go/congestion/olia.go:64-83 | The three branches add one and the same signed fraction, truncated towards zero, which `IncreaseIsAmount` bounds from both sides. |
| `Olia.Olia.CongestionWindowAfterAck` | src/quic-go/congestion/olia.go:64-93 | Window and count as `WindowAfterAck` and `CountAfterAck` say, and so as `CountOutcome` does. |
| `Olia.WindowAfterAck` | src/quic-go/congestion/olia.go:85-92 | The window moves by at most one packet and stays at least one. |
| `Olia.IncreaseIsAmount` | src/quic-go/congestion/olia.go:64-83 | What an ack adds or takes away is 1024 times the fraction with epsilon, rounded towards zero: bounded from both sides, which leaves one number (`RoundsUnique`). |
| `Olia.RoundsUnique` | src/quic-go/congestion/olia.go:64-83 | Those bounds determine the amount. |
| `Olia.CountOutcome` | src/quic-go/congestion/olia.go:64-93 | One ack with that amount: the count takes it in, and with 1023 of it the window grows or shrinks by a packet and the count starts again. |
| `Olia.GrowsExactly` | src/quic-go/congestion/olia.go:64-93 | Over acks for one window with amounts that are not negative, the window grows exactly with the ack with which they reach a packet. |
| `Olia.GrowsAtLast` | src/quic-go/congestion/olia.go:64-93 | With positive amounts, as with epsilon 0 or +1, it grows within 2045 acks, whatever was taken away before. |
| `Olia.AmountPositive` | src/quic-go/congestion/olia.go:64-83 | The amount is positive for epsilon 0 or +1 unless the rate is larger than 2^30 times the window. |
| `Olia.NoFasterThanReno` | src/quic-go/congestion/olia.go:64-93 | A flow that is coupled with itself and has epsilon 0 grows no faster than Reno: the acks of one window add at most one packet. |
| `Olia.CountAfterAck` | src/quic-go/congestion/olia.go:85-92 | The count stays below one packet in size. |
| `Olia.IncreaseSign` | src/quic-go/congestion/olia.go:72-83 | Only epsilon -1 can take something away, and then exactly if the squared window is below the rate. |
| `Olia.SumTake` | src/quic-go/congestion/olia_sender.go:374-405 | A sum over senders does not depend on the order of the map. |
| `Olia.EpsilonsCancel` | src/quic-go/congestion/olia_sender.go:374-405 | The epsilons of the coupled flows add up to exactly zero, and no denominator is zero. |
| `Olia.EpsilonsShare` | src/quic-go/congestion/olia_sender.go:374-405 | The flows that grow get together one n-th for n coupled flows, and those with the largest window lose as much. |
| `Olia.RateBounds` | src/quic-go/congestion/olia_sender.go:295-316 | The share of a coupled flow in the rate is its window in 1024ths of a packet times the quotient of the RTTs, rounded down. |
| `Olia.OwnRate` | src/quic-go/congestion/olia_sender.go:295-316 | So the rate of a flow that is coupled with itself is at least the square of its own window. |
| `Olia.AsGoodTransitive` | src/quic-go/congestion/olia_sender.go:347-350 | Comparing bytes per squared RTT by cross-multiplication is transitive for measured RTTs. |
| `Olia.LeadersOfBest` | src/quic-go/congestion/olia_sender.go:335-372 | Being as good as the best flow found means being as good as every flow, whichever of several best ones was found. |
| `OliaPaths.GroupRange` | src/quic-go/congestion/olia_sender.go:143-157 | A group is -1 if and only if the history has no entry for the epoch. |
| `OliaPaths.CouplesWithItself` | src/quic-go/congestion/olia_sender.go:207-223 | A sender is among those it couples with if and only if its history has the epoch: uint8(-1) matches no group. |
| `OliaPaths.EpochUnique` | src/quic-go/congestion/olia_sender.go:117-197 | The epoch that is looked at does not depend on the order of the map. |
| `OliaPaths.StepCancels` | src/quic-go/congestion/olia_sender.go:421-428 | After a coupled step, the epsilons of the coupled senders add up to exactly zero. |
| `OliaPaths.MinusOneIsLarger` | src/quic-go/congestion/olia_sender.go:390-399 | A flow gets epsilon -1 only if another coupled flow has a smaller window. |
| `OliaPaths.SelfCoupled` | src/quic-go/congestion/olia_sender.go:421-428 | A sender that couples with itself keeps the minimum of two packets. |
| `OliaPaths.ShrinksToOne` | src/quic-go/congestion/olia_sender.go:421-428 | A coupled step leaves less than two packets if and only if the window is two, the sender has lost the epoch, an epsilon of -1 from an earlier step is left over, and one more step with it takes away a whole packet. |
| `OliaPaths.AnchoredKeepsMinimum` | src/quic-go/congestion/olia_sender.go:421-428 | A sender that has the epoch, or couples with nobody, keeps the minimum. |
| `OliaPaths.LaterEpochAnchored` | src/quic-go/congestion/olia_sender.go:166-194 | For an epoch other than 0, a sender that has lost it couples with nobody, if no group is 255. |
| `OliaPaths.AckedKeeps` | src/quic-go/congestion/olia_sender.go:408-445 | An ack keeps every window between one, or two for senders that have their epochs, and its maximum. |
| `OliaPaths.OwnKeeps` | src/quic-go/congestion/olia_sender.go:237-518 | So does every other call. |
| `OliaPaths.StepKeeps` | src/quic-go/congestion/olia_sender.go:95-542 | So does every step, with the epsilons written into other senders. |
| `OliaPaths.RunInv` | src/quic-go/congestion/olia_sender.go:95-542 | The invariant holds after every run of calls, from no sender on. |
| `OliaPaths.WindowsBounded` | src/quic-go/congestion/olia_sender.go:408-504 | Over all runs every window lies between one packet and its maximum, and is at least two packets as long as the senders whose windows are coupled have their epochs. |
| `OliaPaths.CutbacksSeparated` | src/quic-go/congestion/olia_sender.go:447-487 | Between two cutbacks of a path with neither timeout nor migration, the packet whose loss causes the second one was sent. |
| `OliaPaths.SentSince` | src/quic-go/congestion/olia_sender.go:447-487 | The packets that may cause a cutback were sent since the last one. |
| `OliaPaths.EpsilonsKeepFlows` | src/quic-go/congestion/olia_sender.go:374-405 | Writing epsilons does not change what the rate is computed from. |
| `OliaPaths.OnlyMinusOne` | src/quic-go/congestion/olia.go:64-93 | A step cannot shrink the window unless the epsilon is -1; then it does so exactly if the count falls by a whole packet. |
| `OliaOutcomes.AckedOutcome` | src/quic-go/congestion/olia_sender.go:263-445 | What an ack does, from what a caller can see: nothing in recovery; the bytes count; while the window is not used, or at its maximum, nothing else; one packet more in slow start; otherwise a coupled step. |
| `OliaOutcomes.SteppedOutcome` | src/quic-go/congestion/olia_sender.go:421-428 | The window and the count after a step, from the amount and the count before. |
| `OliaOutcomes.CutbackOutcome` | src/quic-go/congestion/olia_sender.go:447-487 | A cutback leaves the share of the window that belongs to the emulated connections, or the minimum, and begins a new interval between losses. |
| `OliaOutcomes.SmoothedIsLarger` | src/quic-go/congestion/olia_sender.go:431-487 | Over all runs: the bytes that the coupling compares by are the larger of those acknowledged outside of recovery between the last two cutbacks and since the last one. |
| `OliaOutcomes.BetweenCutbacks` | src/quic-go/congestion/olia_sender.go:431-487 | The loss counters differ by the bytes acknowledged between two cutbacks. |
| `OliaOutcomes.BytesSince` | src/quic-go/congestion/olia_sender.go:431-445 | Until the next cutback, timeout or migration, nothing but acks outside of recovery moves them. |
| `OliaOutcomes.RestartForgets` | src/quic-go/congestion/olia_sender.go:495-518 | After a timeout or a migration no bytes count for the coupling, and no ack takes anything away. |
| `OliaOutcomes.CouplesWith` | src/quic-go/congestion/olia_sender.go:207-223 | A sender couples with those without congestion and those of its group, which stands for 255 if its history has lost the epoch. |
| `OliaOutcomes.GroupStored` | src/quic-go/congestion/olia_sender.go:95-115 | A new epoch can be looked up, and so can all others that could, but for the one it replaces. |
| `OliaOutcomes.GroupKept` | src/quic-go/congestion/olia_sender.go:95-115 | A known epoch keeps its group. |
| `OliaLostEpoch.BelowMinimum` | src/quic-go/congestion/olia_sender.go:421-428 | A run of the classes, with two senders, that leaves one with a window of one packet: it has seen 20 epochs, the other one has still epoch 0, and the epsilon was set by an ack of the other one. |
| `OliaLostEpoch.FirstStep` | src/quic-go/congestion/olia_sender.go:421-428 | The ack of the second sender gives the first one, which has the larger window, epsilon -1/2. |
| `OliaLostEpoch.ShrinkStep` | src/quic-go/congestion/olia_sender.go:421-428 | Every ack of the first sender then takes away about a quarter of a packet. |
| `OliaLostEpoch.EpochZero` | src/quic-go/congestion/olia_sender.go:159-197 | With a sender that had group 0 in all of the last 20 epochs, epoch 0 is looked at. |
| `OliaSender.Sender.constructor` | src/quic-go/congestion/olia_sender.go:69-92 | The fields of `NewPath`. |
| `OliaSender.Sender.UpdateGroupEpoch` | src/quic-go/congestion/olia_sender.go:95-115 | A new epoch replaces the oldest entry; a known one changes nothing. |
| `OliaSender.Sender.OnPacketSent` | src/quic-go/congestion/olia_sender.go:237-249 | Only retransmittable packets count as sent. |
| `OliaSender.Sender.OnPacketAcked` | src/quic-go/congestion/olia_sender.go:431-445 | One step of the state machine over all senders: nothing in recovery, one packet more in slow start, and otherwise new epsilons, the rate and the step that they give. |
| `OliaSender.Sender.CountAcked` | src/quic-go/congestion/olia_sender.go:433-439 | The largest acked number and the acked bytes. |
| `OliaSender.Sender.MaybeIncreaseCwnd` | src/quic-go/congestion/olia_sender.go:408-429 | The same without the recovery test. |
| `OliaSender.Sender.CoupledIncrease` | src/quic-go/congestion/olia_sender.go:422-427 | The epoch that the search gives, epsilons and rate for it, and the step of this window, at most its maximum; no other window changes. |
| `OliaSender.Sender.StepAmong` | src/quic-go/congestion/olia_sender.go:426-427 | Of all senders only this one takes the step. |
| `OliaSender.Sender.OnPacketLost` | src/quic-go/congestion/olia_sender.go:447-487 | The state of `AfterPathLost`, and so at a cutback the window and the counters of `OliaOutcomes.CutbackOutcome`. |
| `OliaSender.Sender.CountLoss` | src/quic-go/congestion/olia_sender.go:450-463 | A loss that belongs to an earlier cutback. |
| `OliaSender.Sender.ReduceWindow` | src/quic-go/congestion/olia_sender.go:464-486 | The cutback. |
| `OliaSender.Sender.OnRetransmissionTimeout` | src/quic-go/congestion/olia_sender.go:495-504 | The state of `AfterPathTimeout`. |
| `OliaSender.Sender.OnConnectionMigration` | src/quic-go/congestion/olia_sender.go:506-518 | Back to the initial window. |
| `OliaSender.Sender.ExitSlowstart` | src/quic-go/congestion/olia_sender.go:259-261 | The threshold is the window. |
| `OliaSender.Sender.SetSlowStartLargeReduction` | src/quic-go/congestion/olia_sender.go:532-534 | Only the flag changes. |
| `OliaSender.GetLatestEpoch` | src/quic-go/congestion/olia_sender.go:117-132 | The latest epoch that some sender wrote last, for every order of the map. |
| `OliaSender.AllHaveEpoch` | src/quic-go/congestion/olia_sender.go:172-192 | True if and only if no sender with epochs has group 0 in this one. |
| `OliaSender.GetEpoch` | src/quic-go/congestion/olia_sender.go:159-197 | The latest of the last 20 epochs in which no sender with epochs has group 0; otherwise 0. |
| `OliaSender.GetMaxCwnd` | src/quic-go/congestion/olia_sender.go:281-293 | The largest window among the coupled senders, for every order of the map. |
| `OliaSender.FindBest` | src/quic-go/congestion/olia_sender.go:335-351 | Counts the coupled senders; the best one found has the most bytes per squared RTT. |
| `OliaSender.CountSets` | src/quic-go/congestion/olia_sender.go:355-372 | The sizes of the two sets, without wrap-around of the byte counters. |
| `OliaSender.SetAt` | src/quic-go/congestion/olia_sender.go:381-404 | One turn of the third loop: the sender gets its epsilon. |
| `OliaSender.SetEpsilons` | src/quic-go/congestion/olia_sender.go:375-405 | Every coupled sender gets its epsilon, no other sender changes. |
| `OliaSender.GetEpsilon` | src/quic-go/congestion/olia_sender.go:318-406 | After the call the epsilons cancel out exactly; with measured RTTs exactly the best senders below the largest window grow, for every order of the map. Nothing but epsilons changes. |
| `OliaSender.GetRate` | src/quic-go/congestion/olia_sender.go:295-316 | The square of one more than the sum of the rates, for every order of the map. |
| `OliaSender.Couple` | src/quic-go/congestion/olia_sender.go:424-425 | Epsilons first, then the rate of the same flows. |
| `NewReno.SentInv` | src/quic-go/congestion/cubic_sender.go:95-107 | Sending keeps the bounds and the boundary of the last cutback. |
| `NewReno.LostInv` | src/quic-go/congestion/cubic_sender.go:152-193 | So does a loss, with or without the large reduction; the window does not grow beyond the minimum. |
| `NewReno.TimeoutInv` | src/quic-go/congestion/cubic_sender.go:266-275 | So does a timeout. |
| `NewReno.CutbacksApart` | src/quic-go/congestion/cubic_sender.go:155-168 | Among the packets sent, exactly those sent since the last cutback can cause another. |
| `NewReno.OneCutbackPerWindow` | src/quic-go/congestion/cubic_sender.go:152-193 | Right after a cutback, no packet sent so far can cause another. |
| `NewReno.Reduced` | src/quic-go/congestion/cubic_sender.go:195-201 | The multiplicative decrease of n connections is (n - 0.3) / n of the window, rounded down: bounded from both sides. |
| `NewReno.CutbackShare` | src/quic-go/congestion/cubic_sender.go:152-193 | A cutback leaves that share, or the minimum if it is larger, as window and as threshold; with the large reduction, one packet less in slow start. It ends slow start. |
| `NewReno.LostAgainOutcome` | src/quic-go/congestion/cubic_sender.go:155-168 | Of further losses of that event, only those after slow start count, and only the large reduction takes a packet away for each that is the first one or completes another 1460 bytes lost. |
| `NewReno.TimeoutOutcome` | src/quic-go/congestion/cubic_sender.go:266-275 | After a timeout the window is the minimum, the threshold half of the old window, and every packet sent so far can cause a cutback again. |
| `NewReno.WindowLimited` | src/quic-go/congestion/cubic_sender.go:234-242 | A sender counts as using its window if at most three packets of it are free, or, in slow start, less than half. |
| `NewReno.RecoveryEnds` | src/quic-go/congestion/cubic_sender.go:109-111 | Recovery ends exactly with the ack of a packet that was sent since the cutback. |
| `NewReno.ExitOutcome` | src/quic-go/congestion/cubic_sender.go:125-127 | Leaving slow start moves only the threshold, down to the window. |
| `Cubic.CubeRoot` | src/quic-go/congestion/cubic.go:167-167 | The largest number whose cube is not larger. |
| `Cubic.TargetMonotone` | src/quic-go/congestion/cubic.go:184-199 | Within an epoch the target does not decrease with time. |
| `Cubic.TargetFromStart` | src/quic-go/congestion/cubic.go:157-199 | From the start of an epoch on, the target is at least the window that the epoch started with. |
| `Cubic.ElapsedMonotone` | src/quic-go/congestion/cubic.go:184-184 | Nor does the time measured go back, with both divisions truncating towards zero. |
| `Cubic.Cubic.constructor` | src/quic-go/congestion/cubic.go:71-78 | No epoch. |
| `Cubic.Cubic.Reset` | src/quic-go/congestion/cubic.go:81-92 | No epoch, no maximum. |
| `Cubic.Cubic.OnApplicationLimited` | src/quic-go/congestion/cubic.go:112-125 | Remembers the start of the first pause. |
| `Cubic.Cubic.CongestionWindowAfterPacketLoss` | src/quic-go/congestion/cubic.go:130-140 | The decreased window, which `Reduced` bounds from both sides; the epoch ends, the maximum is lowered further if it was not reached again (`LossOutcome`). |
| `Cubic.Cubic.UpdateEpoch` | src/quic-go/congestion/cubic.go:157-179 | The first ack starts an epoch with a curve through the window; a pause shifts it. The first ack does not clear the pause. |
| `Cubic.Cubic.UpdateEstimate` | src/quic-go/congestion/cubic.go:203-211 | The loop ends for every number of connections, also while no acks are required, and uses up exactly the acks required for the packets added. |
| `Cubic.EstimateUnique` | src/quic-go/congestion/cubic.go:203-211 | That determines the estimate. |
| `Cubic.Cubic.CongestionWindowAfterAck` | src/quic-go/congestion/cubic.go:146-223 | The new state of `AckSpec`, whose target is the one of `TargetExact`, and the larger of target and Reno estimate; within 30 ms nothing but the count of acks changes. |
| `Cubic.AckInv` | src/quic-go/congestion/cubic.go:146-223 | An ack keeps the invariant, and its window is at least the minimum. |
| `Cubic.LossInv` | src/quic-go/congestion/cubic.go:130-140 | So does a loss. |
| `Cubic.AcksMonotone` | src/quic-go/congestion/cubic.go:146-223 | Between two acks of one epoch without a pause, with the same minimal RTT, the target does not go back. |
| `Cubic.TargetExact` | src/quic-go/congestion/cubic.go:157-214 | For one ack, from what is known before it: the target reaches a number if and only if the curve does, beyond the origin point by the cube of the time since, before it by the cube of the time missing; in particular, when it lies below the window at the start of the epoch, and when it is negative. |
| `Cubic.TargetAbove` | src/quic-go/congestion/cubic.go:184-199 | For a window not below the origin point and a time after it: the target is at least the window if and only if the cube of the time since makes up for the difference. |
| `Cubic.TargetReaches` | src/quic-go/congestion/cubic.go:184-199 | The numbers that the curve reaches, on either side of the origin point, are exactly those not above the target. |
| `Cubic.TimeToOrigin` | src/quic-go/congestion/cubic.go:164-168 | The time to the origin point is the cube root of what is missing to the last maximum, bounded from both sides. |
| `Cubic.CurveReachesMax` | src/quic-go/congestion/cubic.go:157-199 | The curve leads from the window at the start of the epoch to the larger of that window and the last maximum. |
| `Cubic.ElapsedBounds` | src/quic-go/congestion/cubic.go:181-184 | The time in 1024ths of a second, bounded from both sides. |
| `Cubic.RequiredBounds` | src/quic-go/congestion/cubic.go:94-108 | The acks that Reno needs for one more packet: the window divided by alpha, bounded from both sides. |
| `Cubic.AcksCounted` | src/quic-go/congestion/cubic.go:146-211 | Every ack of an epoch counts for the Reno estimate exactly once: the acks of an epoch are those used up for its packets and those left over, too few for one more. |
| `Cubic.LossOutcome` | src/quic-go/congestion/cubic.go:130-140 | The maximum to aim at is the window at the loss, or 17 / 20 of it, rounded down, if the last maximum was not reached again. |
| `Cubic.AckOutcome` | src/quic-go/congestion/cubic.go:146-179 | An ack within 30 ms of the last one that was looked at, with the same window, is only counted; any other ends a pause, unless it starts an epoch. |
| `Cubic.PauseStarts` | src/quic-go/congestion/cubic.go:112-118 | A pause starts with the first ack that finds the window unused. |
| `Cubic.TargetBelow` | src/quic-go/congestion/cubic.go:184-199 | For any number up to the origin point: the target lies below it if and only if the cube of the time missing makes up for more than the difference. |
| `Cubic.TargetSound` | src/quic-go/congestion/cubic.go:157-214 | Without a pending pause: the target is below the window at the start of the epoch if and only if the epoch starts so long after the time of the ack that the curve falls that far; never if it starts at most a round trip from now. |
| `Cubic.PendingPause` | src/quic-go/congestion/cubic.go:157-214 | With a pending pause in an epoch, whatever the current time: the epoch comes to start in the future if and only if the pause began before it; the target falls below the window at the start of the epoch, and below zero, so that storing it wraps around, if and only if the curve falls that far in the time missing. |
| `Cubic.PauseBeforeEpoch` | src/quic-go/congestion/cubic.go:170-199 | A run in which a pause that began before the epoch moves its start into the future, and the target wraps around to almost 2^64. |
| `CubicSender.Sender.constructor` | src/quic-go/congestion/cubic_sender.go:64-77 | The initial window; the invariant holds. |
| `CubicSender.Sender.OnPacketSent` | src/quic-go/congestion/cubic_sender.go:95-107 | Only retransmittable packets count as sent. |
| `CubicSender.Sender.OnPacketAcked` | src/quic-go/congestion/cubic_sender.go:139-150 | One step of the state machine: nothing in recovery, otherwise as `MaybeGrown` says. |
| `CubicSender.Sender.MaybeIncreaseCwnd` | src/quic-go/congestion/cubic_sender.go:205-232 | A pause is remembered if the window is not used; slow start adds one; Reno counts acks; CUBIC takes the window of `AckSpec`, at most the maximum. |
| `CubicSender.Sender.OnPacketLost` | src/quic-go/congestion/cubic_sender.go:152-193 | The state of `AfterPacketLoss`, and so at a cutback the window of `CutbackOutcome`: losses of one window count once, and CUBIC is told of a cutback unless the large reduction is used. |
| `CubicSender.Sender.CountLoss` | src/quic-go/congestion/cubic_sender.go:155-168 | A loss that belongs to an earlier cutback. |
| `CubicSender.Sender.ReduceWindow` | src/quic-go/congestion/cubic_sender.go:169-192 | The cutback. |
| `CubicSender.Sender.OnRetransmissionTimeout` | src/quic-go/congestion/cubic_sender.go:266-275 | The state of `AfterRetransmissionTimeout`. |
| `CubicSender.Sender.OnConnectionMigration` | src/quic-go/congestion/cubic_sender.go:278-290 | Back to the initial window. |
| `CubicSender.Sender.ExitSlowstart` | src/quic-go/congestion/cubic_sender.go:125-127 | The threshold is the window. |
| `CubicSender.Sender.SetSlowStartLargeReduction` | src/quic-go/congestion/cubic_sender.go:293-295 | Only the flag changes. |
| `CubicSender.Sender.SetNumEmulatedConnections` | src/quic-go/congestion/cubic_sender.go:260-263 | At least one connection, the same for both algorithms. |
| `CubicSender.AckedKeeps` | src/quic-go/congestion/cubic_sender.go:139-232 | An ack keeps the window between two packets and its maximum, also when the target has wrapped around. |
| `CubicSender.AckOutcome` | src/quic-go/congestion/cubic_sender.go:139-246 | What an ack does, from what a caller can see: nothing in recovery, which ends with the ack of a packet sent since the cutback; a pause while more than three packets of the window, and half of it in slow start, are free; one packet more in slow start; the count of Reno, or the window of CUBIC. |
| `CubicSender.CutbackOutcome` | src/quic-go/congestion/cubic_sender.go:152-201 | A cutback leaves the share of the window that belongs to the emulated connections, or the minimum. |
| `CubicSender.SlowStartGrows` | src/quic-go/congestion/cubic_sender.go:205-219 | In slow start, n acks that find the window in flight add n packets, so the acks of one window double it. |
| `CubicSender.RenoGrows` | src/quic-go/congestion/cubic_sender.go:220-228 | With Reno, the window of n connections grows by one packet with the first number of acks that n times makes up for the window. |
| `CubicSender.RestartOutcome` | src/quic-go/congestion/cubic_sender.go:266-290 | After a timeout or a migration CUBIC has neither an epoch nor a maximum; the windows are the minimum and the initial one. |
| `CubicSender.AckedGrowth` | src/quic-go/congestion/cubic_sender.go:139-232 | An ack does not change the window in recovery or when it is not used, and adds at most one packet in slow start and with Reno. |
| `CubicSender.LossKeeps` | src/quic-go/congestion/cubic_sender.go:152-193 | A loss keeps the invariant. |
| `CubicSender.StepKeeps` | src/quic-go/congestion/cubic_sender.go:95-295 | So does every call. |
| `CubicSender.RunInv` | src/quic-go/congestion/cubic_sender.go:95-295 | The invariant holds after every run of calls. |
| `CubicSender.WindowBounded` | src/quic-go/congestion/cubic_sender.go:139-290 | Over all runs the window lies between two packets and its maximum. |
| `CubicSender.EpochInTime` | src/quic-go/congestion/cubic_sender.go:139-232 | Over all runs with a clock that does not go back, in which no pause that began before an epoch is pending in it, no epoch starts in the future. |
| `CubicSender.TargetsSound` | src/quic-go/congestion/cubic_sender.go:139-232 | Over such runs every new target is at least the window that the epoch started with. |
| `CubicSender.AckTarget` | src/quic-go/congestion/cubic_sender.go:205-232 | The same for one ack. |
| `CubicSender.SentSince` | src/quic-go/congestion/cubic_sender.go:152-193 | The packets that may cause a cutback were sent since the last one. |
| `CubicSender.CutbacksSeparated` | src/quic-go/congestion/cubic_sender.go:152-193 | Between two cutbacks with neither timeout nor migration, the packet whose loss causes the second one was sent. |
| `StreamsMap.StreamsMap.constructor` | src/quic-go/streams_map.go:45-65 | No stream, the first own id and the first id to accept. |
| `StreamsMap.StreamsMap.PutStream` | src/quic-go/streams_map.go:283-292 | List and map gain the stream together, unless it is there. |
| `StreamsMap.StreamsMap.OpenRemoteStream` | src/quic-go/streams_map.go:127-148 | Refused if and only if the odd streams reach the limit; the test for a much smaller id never fires. |
| `StreamsMap.StreamsMap.OpenStreamImpl` | src/quic-go/streams_map.go:150-166 | Refused if and only if the even streams reach the limit, whichever side this is. |
| `StreamsMap.StreamsMap.OpenStream` | src/quic-go/streams_map.go:169-177 | The same, unless the session is closed. |
| `StreamsMap.StreamsMap.GetOrOpenStream` | src/quic-go/streams_map.go:69-125 | An open stream is returned; a stream that was removed is never opened again; an own id up to and including the next one counts as closed; other ids open all streams up to them, as far as the limit goes. |
| `StreamsMap.StreamsMap.OpenStreamsUpTo` | src/quic-go/streams_map.go:109-124 | The loop over the ids of the peer. |
| `StreamsMap.OpenUpToLimit` | src/quic-go/streams_map.go:116-121 | A server opens the stream if and only if all streams up to it fit into the limit. |
| `StreamsMap.OpenUpToInv` | src/quic-go/streams_map.go:116-121 | Opening streams one by one keeps list, map and counters in agreement. |
| `StreamsMap.StreamsMap.AcceptStream` | src/quic-go/streams_map.go:200-217 | Streams are accepted in the order of their ids; the next one is waited for if and only if it has been removed or was not opened yet. |
| `StreamsMap.RemovedBeforeAccepted` | src/quic-go/streams_map.go:200-217 | A run of the class in which the peer opens two streams and the first one is removed: the second is open and is not accepted. |
| `StreamsMap.AcceptedInOrder` | src/quic-go/streams_map.go:200-217 | Over all runs from a new map, the n-th stream accepted is the n-th one that the peer can open, and it has been opened. |
| `StreamsMap.AcceptBlocked` | src/quic-go/streams_map.go:200-217 | Once the next stream to accept has been removed, whatever is called: no stream is ever accepted again. |
| `StreamsMap.StreamsMap.RemoveStream` | src/quic-go/streams_map.go:295-322 | List, map and counters lose the stream together. |
| `StreamsMap.RemovedInv` | src/quic-go/streams_map.go:301-319 | Removing keeps the agreement: list without duplicates, keys of the map, counters by parity. |
| `StreamsMap.NextInLine` | src/quic-go/streams_map.go:307-317 | Removing another stream does not change which one is next in line. |
| `StreamsMap.StreamsMap.IterateFunc` | src/quic-go/streams_map.go:275-281 | Applies the function exactly if the stream is open. |
| `StreamsMap.StreamsMap.RoundRobinIterate` | src/quic-go/streams_map.go:240-273 | Stream 1 comes first; the index moves on by the number of other streams served, and every position it passes was served. A stop at stream 1 or 3 leaves it. Exactly those streams are served that come in this order up to the first one for which the function answers Stop or Fail. |
| `StreamsMap.StreamsMap.IterateFirsts` | src/quic-go/streams_map.go:247-255 | Streams 1 and 3, if they are open, as far as the function goes on. |
| `StreamsMap.StreamsMap.IterateOthers` | src/quic-go/streams_map.go:257-271 | The loop over the list from the index on, with the same ends. |
| `StreamsMap.StreamsMap.IterateRounds` | src/quic-go/streams_map.go:240-273 | As many calls in a row as there are open streams serve every stream but 1 and 3, wherever each of them stops, unless the function fails. |
| `StreamsMap.RoundsServe` | src/quic-go/streams_map.go:257-271 | After t rounds at least t places in a row have been served. |
| `StreamsMap.Fairness` | src/quic-go/streams_map.go:240-273 | As many consecutive rounds as there are open streams serve every stream but 1 and 3 at least once. |
| `SbdWindows.SkewEst.constructor` | src/quic-go/sbd/skewness.go:10-16 | Empty rings. |
| `SbdWindows.SkewEst.ComputeSkewBaseT` | src/quic-go/sbd/skewness.go:50-59 | Counts a sample on its side of the mean. |
| `SbdWindows.SkewEst.AddSkewBase` | src/quic-go/sbd/skewness.go:29-34 | Both rings hold the last M intervals, after any number of them. |
| `SbdWindows.SkewEst.ComputeSkewEst` | src/quic-go/sbd/skewness.go:61-66 | The estimate is the quotient of the sums over the last M intervals, and lies between -1 and 1; without a sample in them it is NaN. |
| `SbdWindows.HoldsMore` | src/quic-go/sbd/skewness.go:29-48 | Writing at the insert position replaces the oldest interval: the sum of the ring is the sum over the last M intervals. |
| `SbdWindows.SkewnessBounded` | src/quic-go/sbd/skewness.go:61-66 | The bound on the estimate. |
| `SbdWindows.FreqEst.constructor` | src/quic-go/sbd/frequency.go:5-13 | An empty ring. |
| `SbdWindows.FreqEst.CountCrossOscillation` | src/quic-go/sbd/frequency.go:35-59 | A crossing up or down is recorded exactly if the mean lies at or beyond the margin on that side and the last crossing within M intervals, if any, was on the other; the ring holds the marks of the last M intervals. |
| `SbdWindows.DirectionMeans` | src/quic-go/sbd/frequency.go:42-52 | A crossing is recorded if and only if the mean leaves the margin on a side to which the last crossing among the 49 intervals before, if any, did not go. |
| `SbdWindows.RecordNext` | src/quic-go/sbd/frequency.go:42-55 | Two consecutive crossings in one direction are at least M intervals apart. |
| `SbdWindows.FreqEst.ComputeFreqEst` | src/quic-go/sbd/frequency.go:75-79 | The share of crossings among the last M intervals, or all if fewer; between 0 and 1. |
| `SbdWindows.SumOfFirst` | src/quic-go/sbd/frequency.go:19-33 | Adding up only the part of the ring that was written gives the sum over the window. |
| `TransferSystem.NothingLost` | src/quic-go/scheduler.go:22-72 | Over all runs with several streams, several paths and one queue of lost frames: every byte and every end of a stream that was written is with the sender, in a packet in flight or waiting for retransmission, or has arrived; or it was in a packet that was dropped. Runs in which a path has refused a packet are excepted. |
| `TransferSystem.LostExactly` | src/quic-go/scheduler.go:40-50 | An item is lost by a step if and only if the step takes a packet that was sent before encryption was forward-secure from the packets to be retransmitted, after the handshake, and the item is in that packet, in no other, and at neither end. |
| `TransferSystem.DroppedEarly` | src/quic-go/scheduler.go:42-46 | Packets are dropped only if they were sent early, and only after the handshake. |
| `TransferSystem.EarlyDataLost` | src/quic-go/scheduler.go:42-46 | A run of eight steps: one byte is sent early and lost, and the handshake is completed before the alarm; then nothing is left with the sender or on the way, and the byte has not arrived. |
| `TransferSystem.EverythingArrives` | src/quic-go/scheduler.go:22-72 | Unless data of the stream was dropped: once nothing is left with the sender or on the way, all that was written to it can be read, and its end has arrived if it was closed. |
| `TransferSystem.StepKeeps` | src/quic-go/scheduler.go:22-72 | Every step of streams, framer, packets, acks and alarms on any path keeps the invariant. |
| `TransferSystem.BaseKeeps` | src/quic-go/scheduler.go:22-72 | The part of it that says where frames and packets belong. |
| `TransferSystem.ItemKeeps` | src/quic-go/scheduler.go:22-72 | The part that says where an item is. |
| `TransferSystem.RunInv` | src/quic-go/scheduler.go:22-72 | The invariant holds after every run. |
| `TransferSystem.RequeueKeeps` | src/quic-go/scheduler.go:29-69 | Frames of a packet to be retransmitted go back to the framer, into the next packet, or nowhere. |
| `TransferSystem.RequeueItem` | src/quic-go/scheduler.go:40-55 | An item in such a packet goes with it. |
| `TransferSystem.ReadsPrefix` | src/quic-go/stream_framer.go:129-243 | Over all runs, although lost frames of all streams are mixed and cut again and packets go over any path: what is read from a stream is a prefix of what was written to it. |
| `TransferSystem.EofMeansEnd` | src/quic-go/stream_framer.go:129-243 | The end of a stream is reported only after everything was read and the writer has closed, as long as no FIN was misplaced. |
| `TransferSystem.PopKeeps` | src/quic-go/stream_framer.go:129-163 | Cutting lost frames of several streams again keeps every stream in order. |
| `TransferSystem.PoppedFit` | src/quic-go/stream_framer.go:129-163 | Frames cut from the common queue fit their streams, and carry exactly what the queue has lost. |
| `TransferSystem.PopItem` | src/quic-go/stream_framer.go:129-163 | An item in the queue is in the packet or still in the queue. |
| `TransferSystem.TakeKeeps` | src/quic-go/stream_framer.go:165-243 | So does taking new data of a stream. |
| `TransferSystem.TakeItem` | src/quic-go/stream_framer.go:165-243 | An item that was pending is in the packet or still pending. |
| `TransferSystem.AckKeeps` | src/quic-go/ackhandler/sent_packet_handler.go:181-271 | Acks, CLOSE_PATH frames and the alarm keep the invariant. |
| `TransferSystem.AckStepFlows` | src/quic-go/ackhandler/sent_packet_handler.go:181-482 | A packet that is neither in flight nor waiting any more has been received. |
| `TransferSystem.FlowItem` | src/quic-go/ackhandler/sent_packet_handler.go:181-482 | An item in a packet that leaves the flight has arrived, or waits in the packet for retransmission. |
| `TransferSystem.SendKeeps` | src/quic-go/ackhandler/sent_packet_handler.go:130-179 | Sending the frames taken in a packet keeps the invariant. |
| `TransferSystem.SendItem` | src/quic-go/ackhandler/sent_packet_handler.go:130-179 | What was taken for the packet is in flight then. |
| `TransferSystem.DuplicateKeeps` | src/quic-go/ackhandler/sent_packet_handler.go:577-579 | Duplicating a packet keeps the invariant. |
| `TransferSystem.ReceiveKeeps` | src/quic-go/path.go:193-252 | Registering a packet, and handling its frames after that, keeps the invariant. |
| `TransferSystem.ReceiveItem` | src/quic-go/path.go:193-252 | An item stays where it is when its packet is received once more. |
| `TransferSystem.HandleKeeps` | src/quic-go/session.go:555-566 | Handling a frame of any stream keeps the invariant. |
| `TransferSystem.HandleItem` | src/quic-go/session.go:658-682 | What the frame carries has arrived then. |
| `PacketFlow.AckFlows` | src/quic-go/ackhandler/sent_packet_handler.go:181-232 | After an ACK, every packet that was in flight is in flight, acknowledged, or queued for retransmission; none leaves the queue. |
| `PacketFlow.CloseFlows` | src/quic-go/ackhandler/sent_packet_handler.go:234-271 | So it is after a CLOSE_PATH frame. |
| `PacketFlow.AlarmFlows` | src/quic-go/ackhandler/sent_packet_handler.go:450-482 | So it is after the alarm. |
| `PacketFlow.SentFlows` | src/quic-go/ackhandler/sent_packet_handler.go:130-179 | A packet with a frame of the listed kinds is in flight once it has been sent. |
| `PacketFiller.FillPacket` | src/quic-go/stream_framer.go:165-243 | The framer as the function that the scheduler applies: the streams asked are a prefix of the order of the round, their frames are those of `PopAll`, and unless the framer stops at stream 1 or 3 the index moves on by the number of others asked. |
| `PacketFiller.NeverServed` | src/quic-go/stream_framer.go:178-181 | A run of the classes for any number of packets: one stream leaves no room for the header of another, which is asked every time, passed over, and never served. |
| `PacketFiller.NoRoomLeft` | src/quic-go/stream_framer.go:178-181 | One such packet. |
| `PacketFiller.EveryStreamAsked` | src/quic-go/stream_framer.go:165-243 | As many packets in a row as there are open streams ask every stream but 1 and 3: it gives a frame, or has nothing to send, no window, or no room behind its header. |
| `PacketFiller.VisitsAsked` | src/quic-go/stream_framer.go:178-238 | With the answers of the framer, the streams visited are exactly those it has asked. |
| `PacketFiller.MoveOn` | src/quic-go/streams_map.go:240-273 | The index after the round in which the first n streams are asked. |
| `PacketFiller.RoundDistinct` | src/quic-go/streams_map.go:257-261 | Every open stream comes at most once in a round. |
| `Cubic.Cubic.SetNumConnections` | src/quic-go/congestion/cubic.go:226-228 | Changes only the number of connections. |
| `Cubic.Cubic.StartEpoch` | src/quic-go/congestion/cubic.go:159-169 | Origin point and time to it of a new epoch. |
| `Cubic.EpochFits` | src/quic-go/congestion/cubic.go:159-169 | Such a curve stays at or above the window from the start of the epoch on. |
| `FlowGrouping.CopyPaths` | src/quic-go/flow_grouping.go:196-201 | The copy is new and has the same content. |
| `FlowGrouping.Forget` | src/quic-go/flow_grouping.go:57-112 | Every grouping starts without memory of an earlier one. |
| `FlowGrouping.SplitGroups` | src/quic-go/flow_grouping.go:257-261 | The variance groups of one frequency group, each split by skewness or loss. |
| `FlowGrouping.MoveUp` | src/quic-go/flow_grouping.go:289-314 | Exchanging a flow with the one before it, when that one has a smaller key, keeps the others in order. |
| `FlowGrouping.FitNumbers` | src/quic-go/compute_sbd.go:216-240 | Numbers written group by group say which congested paths share a bottleneck. |
| `MergeObservations.Sorted` | src/quic-go/sbd/sbd.py:416-416 | Ascending, with the same elements. |
| `MergeObservations.CountGroups` | src/quic-go/sbd/sbd.py:464-467 | How many groups have the subflow. |
| `MergeObservations.FindGroups` | src/quic-go/sbd/sbd.py:420-423 | The groups of one observation that have the subflow. |
| `MergeObservations.FirstFlow` | src/quic-go/sbd/sbd.py:385-390 | The first flow with the number, if there is one. |
| `MergeObservations.CountWith` | src/quic-go/sbd/sbd.py:457-468 | Counting one subflow among the groups of another counts the groups that have both. |
| `MergeObservations.NeverReaches` | src/quic-go/sbd/sbd.py:426-436 | With symmetric edges no strong path leads into or out of a closed set. |
| `MergeObservations.PathInside` | src/quic-go/sbd/sbd.py:426-436 | What a member of a closed set reaches is in the set. |
| `OliaSender.Sender.SetNumEmulatedConnections` | src/quic-go/congestion/olia_sender.go:489-492 | At least one connection. |
| `PacketList.List.Len` | src/quic-go/ackhandler/packet_linkedlist.go:64-64 | The length of the sequence. |
| `PacketList.List.CopyBack` | src/quic-go/ackhandler/packet_linkedlist.go:202-204 | One turn of the loop at the back: the next value is copied, and the walk in the other list goes on behind it. |
| `PacketList.List.CopyFront` | src/quic-go/ackhandler/packet_linkedlist.go:211-213 | One turn of the loop at the front. |
| `StreamFramer.Framer.constructor` | src/quic-go/stream_framer.go:25-30 | Nothing queued. |
| `StreamFramer.SendStream.constructor` | src/quic-go/stream.go:73-88 | Nothing written. |
| `StreamSystem.DeliverKeeps` | src/quic-go/stream_frame_sorter.go:32-144 | Delivering any frame sent, at any time and any number of times, keeps the invariant. |
| `StreamSystem.DeliveredConsistent` | src/quic-go/stream_frame_sorter.go:33-37 | A FIN from an honest sender lies at the end of the stream, at or behind everything received. |
| `StreamSystem.SendKeeps` | src/quic-go/stream_framer.go:165-243 | Cutting a frame from the pending data keeps the invariant. |
| `StreamSystem.ResendKeeps` | src/quic-go/stream_framer.go:129-163 | Re-cutting frames for retransmission keeps it. |
| `StreamSystem.ReadKeeps` | src/quic-go/stream.go:91-182 | Reading keeps it: the output grows by the next written bytes. |
| `StreamSystem.WriteKeeps` | src/quic-go/stream.go:184-200 | Writing keeps it. |
| `StreamsMap.OpenedByPeerInv` | src/quic-go/streams_map.go:127-148 | Opening the next stream of the peer keeps list, map, counters and ids in agreement. |
| `StreamsMap.OpenedHereInv` | src/quic-go/streams_map.go:150-166 | So does opening the next own stream. |
| `StreamsMap.StreamsMap.Unlist` | src/quic-go/streams_map.go:307-319 | The stream leaves list and map, and the index stays with the stream it points to. |
| `StreamsMap.StreamsMap.CloseWithError` | src/quic-go/streams_map.go:324-329 | The session is closed; the streams stay as they are. |
| `SbdWindows.SumRing` | src/quic-go/sbd/skewness.go:41-45 | The sum of the first n entries. |
| `AckSystem.SendKeeps` | src/quic-go/ackhandler/sent_packet_handler.go:130-179 | Sending keeps the protocol invariant. |
| `AckSystem.DeliverAckKeeps` | src/quic-go/ackhandler/sent_packet_handler.go:181-232 | Delivering any ACK, at any time and any number of times, keeps it, and moves the largest acknowledged number up or leaves it. |
| `AckSystem.DeliverKeeps` | src/quic-go/ackhandler/received_packet_handler.go:46-75 | Delivering any packet, with its STOP_WAITING frame, keeps it. |
| `AckSystem.SendAckKeeps` | src/quic-go/ackhandler/received_packet_handler.go:125-151 | Building an ACK keeps it. |
| `SentPackets.CollectSkippedInv` | src/quic-go/ackhandler/sent_packet_handler.go:622-631 | Forgetting skipped numbers keeps the invariant. |
| `SentPackets.DetectLostInv` | src/quic-go/ackhandler/sent_packet_handler.go:394-426 | Queueing late packets keeps it. |

## Left out

- StreamFrameSorter.Sorter.Push: the invariant afterwards, for data behind a frame that has FIN only, or for such a frame before received bytes; what the gaps and the queue are then is stated. Offsets above MaxByteCount are not modelled.
- ReceiveStream.Stream.AddStreamFrame: the flow-control check in front of it.
- ReceiveStream.Stream.Read: waiting for data, deadlines, resets and cancelled streams; without data the outcome is `WouldBlock`.
- StreamSystem.ReadsEverything: speaks of bytes, not of the end of the stream, because a FIN can be misplaced.
- ReceivedPackets.Handler.GetClosePathFrame: only for a history that is not empty; the code has no other case.
- SentPackets.Handler.ReceivedAck: for well-formed frames, which the parser of ACK frames guarantees; the RTT update, the calls of the congestion control and the alarm time are left out.
- StreamFramer.SendStream.Write: the part before Write waits; waiting, deadlines, resets and cancelled streams are not modelled.
- StreamsMap.StreamsMap.AcceptStream: one attempt; waiting for the next stream is the outcome `Waiting`. OpenStreamSync and Iterate are left out.
- OliaSender.Sender.OnPacketAcked: 64-bit products of windows, rates and bytes, and the 16-bit width of epochs, are not modelled.
- Cubic.PendingPause: the int64 product of times above a few minutes is not modelled; the target is an integer until it is stored.
- FlowGrouping.SortFlows: an insertion sort in place of the library sort, whose result for ties is not fixed; callers know only the permutation and the order.
- Aliasing of frames: a frame is a value, so the copying of data that was cut (`wasCut`) has no counterpart, and a frame that is cut again stays whole in the record of an earlier packet. Packets in the sender's history are a sequence there; `PacketList` shows that the list refines one. The value of a list element is fixed.
- StreamFramer.Framer.PopFrameFrom: the counting of bytes for flow control and the BLOCKED frames queued.
- StreamFramer.Framer.MaybePopNormalFrames: the same; the send windows are parameters and do not shrink while a packet is filled.
- StreamFramer.Framer.PopNext: the same.
- Flow control beyond that: WINDOW_UPDATE frames and the crypto stream, which is served apart.
- TransferSystem.NothingLost: says nothing after a path has refused a packet, which closes the session. Frames for streams that were removed, and the fields of the header that the packer sets, are not modelled.
- SentPackets.Handler.SentPacket: the call of the congestion control and the new alarm time.
- SentPackets.Handler.OnAlarm: the same; the delay after which a packet counts as lost is a parameter.
- SentPackets.Handler.ReceivedClosePath: the same.
- Wire formats: frames are records with their minimal length; ACK frames are not truncated to a packet's size.
- Statistics: the numbers of packets, losses and retransmissions that the handlers count for display have no contract of their own.
- MoveToFront, MoveToBack, MoveBefore and MoveAfter of the packet list: not used.
- FlowGrouping.Forget: reading the statistics from the paths. They are built anew every time, so the hysteresis in the grouping never takes effect.
- StreamsMap.StreamsMap.CloseWithError: cancelling the open streams.
- mergeObservations and computeAccuracy of `compute_sbd.go`: text keys, an order of map elements that is not fixed, and printing.
- PRR, hybrid slow start and RTT smoothing: not needed for the windows proved about here.
- Rounding of floats and NaN: arithmetic over reals and fractions.
- Sessions, paths, sockets, goroutines, locks, encryption, HTTP, DASH and the test bed scripts.
