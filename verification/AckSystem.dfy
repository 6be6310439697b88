/**
 The ack protocol on one path: a sender, a receiver, and between them a network that loses,
 repeats, delays and reorders packets. The steps are the contracts of the two handlers.
 */
module AckSystem {
  import opened MinMax
  import opened Wire
  import opened Wrappers
  import opened PacketHistory
  import Stop = StopWaitingManager
  import S = SentPackets
  import R = ReceivedPackets

  // A packet on its way to the receiver; it may carry the LeastUnacked of a STOP_WAITING frame.
  datatype DataPacket = DataPacket(number: nat, stopWaiting: Option<nat>)

  // An ACK frame on its way back, in a packet of the other direction.
  datatype AckPacket = AckPacket(number: nat, ack: AckFrame)

  datatype System = System(
    snd: S.State,
    rcv: R.State,
    failed: bool,               // the receiver has too many ranges and gives up
    packets: set<DataPacket>,   // everything sent so far can still arrive
    acks: set<AckPacket>,
    closes: set<AckFrame>,      // CLOSE_PATH frames, which name packets as ACK frames do
    nextAckPacket: nat,         // packets of the other direction have smaller numbers
    received: set<nat>)         // packet numbers that have arrived

  datatype Step =
    | Send(packet: Packet, askStop: Option<bool>, stopWaiting: Option<nat>)
    | Deliver(p: DataPacket, instigates: bool, alarm: int, r: R.ReceiveResult, mid: R.State)
    | SendAck(number: nat, ack: AckFrame)
    | DeliverAck(a: AckPacket, now: int, delay: int, result: S.AckResult)
    | SendClose(frame: AckFrame)
    | DeliverClose(frame: AckFrame, withPacketNumber: nat, result: S.AckResult)
    | Alarm(now: int, delay: int, failed: bool)
    | Requeue(queue: seq<Packet>)

  ghost predicate Init(s: System) {
    s == System(S.INIT_STATE, R.INIT_STATE, false, {}, {}, {}, 0, {})
  }

  // GetStopWaitingFrame, asked for before the packet is sent, or not at all.
  ghost predicate StopStep(stop: Stop.State, ask: Option<bool>, frame: Option<nat>, stop': Stop.State) {
    match ask
    case None => frame == None && stop' == stop
    case Some(force) =>
      && stop'.nextLeastUnacked == stop.nextLeastUnacked
      && (Stop.Inv(stop) ==>
            && Stop.Inv(stop')
            && frame == (if stop.largestLeastUnackedSent < stop.nextLeastUnacked then Some(stop.nextLeastUnacked)
                         else if force then stop.lastFrame else None)
            && (frame.Some? ==> 0 < frame.value <= stop.nextLeastUnacked))
  }

  ghost predicate SendStep(s: System, packet: Packet, ask: Option<bool>, frame: Option<nat>, s': System) {
    && s.snd.lastSent < packet.number
    && StopStep(s.snd.stop, ask, frame, s'.snd.stop)
    && s' == s.(snd := S.AfterSend(s.snd.(stop := s'.snd.stop), packet),
                packets := s.packets + {DataPacket(packet.number, frame)})
  }

  // The packet is registered first, then its STOP_WAITING frame is handled.
  ghost predicate DeliverStep(s: System, p: DataPacket, instigates: bool, alarm: int,
                              r: R.ReceiveResult, mid: R.State, s': System) {
    && !s.failed && p in s.packets
    && (exists alwaysAck :: R.ReceiveSpec(s.rcv, p.number, instigates, alarm, alwaysAck, r, mid))
    && (r.Received? && p.stopWaiting.Some? && 0 < p.stopWaiting.value ==>
          && R.Deleted(mid.ranges, p.stopWaiting.value - 1, s'.rcv.ranges)
          && s'.rcv == mid.(ranges := s'.rcv.ranges, lowerLimit := p.stopWaiting.value - 1))
    && (r.Received? && p.stopWaiting.None? ==> s'.rcv == mid)
    && s' == s.(rcv := s'.rcv, failed := !r.Received?, received := s.received + {p.number})
  }

  ghost predicate SendAckStep(s: System, number: nat, ack: AckFrame, s': System) {
    && !s.failed && s.nextAckPacket <= number
    && (s.rcv.ackQueued || s.rcv.ackAlarm.Some?)
    && (R.Inv(s.rcv) ==>
          && ack.WellFormed() && ack.largestAcked == s.rcv.largestObserved
          && (forall p: nat :: ack.AcksPacket(p) <==> R.Contains(s.rcv.ranges, p))
          && R.Inv(s'.rcv))
    && s'.rcv == s.rcv.(lastAck := Some(ack), ackAlarm := None, ackQueued := false,
                        packetsSinceLastAck := 0, retransmittableSinceLastAck := 0)
    && s' == s.(rcv := s'.rcv, acks := s.acks + {AckPacket(number, ack)}, nextAckPacket := number + 1)
  }

  // The receiver closes the path; that leaves its state as it is.
  ghost predicate SendCloseStep(s: System, frame: AckFrame, s': System) {
    && !s.failed && s.rcv.ranges != []
    && (R.Inv(s.rcv) ==>
          && frame.WellFormed() && frame.largestAcked == s.rcv.largestObserved
          && forall p: nat :: frame.AcksPacket(p) <==> R.Contains(s.rcv.ranges, p))
    && s' == s.(closes := s.closes + {frame})
  }

  ghost predicate NextStep(s: System, step: Step, s': System) {
    match step
    case Send(packet, ask, frame) => SendStep(s, packet, ask, frame, s')
    case Deliver(p, instigates, alarm, r, mid) => DeliverStep(s, p, instigates, alarm, r, mid, s')
    case SendAck(number, ack) => SendAckStep(s, number, ack, s')
    case DeliverAck(a, now, delay, r) =>
      && a in s.acks
      && S.AckSpec(s.snd, a.ack, a.number, now, delay, r, s'.snd)
      && s' == s.(snd := s'.snd)
    case SendClose(frame) => SendCloseStep(s, frame, s')
    case DeliverClose(frame, number, r) =>
      // with the number of whatever packet the path has received last
      && frame in s.closes
      && S.ClosePathSpec(s.snd, frame, number, r, s'.snd)
      && s' == s.(snd := s'.snd)
    case Alarm(now, delay, failed) =>
      s' == s.(snd := S.AfterAlarm(s.snd, now, delay, failed))
    case Requeue(queue) =>
      // a packet is dequeued, or duplicated
      s' == s.(snd := s.snd.(queue := queue))
  }

  // ---------- the invariant ----------

  ghost predicate PacketsOk(s: System) {
    forall p :: p in s.packets ==>
      && p.number in s.snd.sent
      && (p.stopWaiting.Some? ==> 0 < p.stopWaiting.value <= p.number)
  }

  ghost predicate ReceiverOk(s: System) {
    && R.Inv(s.rcv)
    && (forall q: nat :: R.Contains(s.rcv.ranges, q) ==> q in s.received)
    && (forall n :: n in s.received ==> n <= s.rcv.largestObserved)
  }

  ghost predicate AcksOk(s: System) {
    forall a :: a in s.acks ==>
      && a.ack.WellFormed() && a.number < s.nextAckPacket
      && (forall p: nat :: a.ack.AcksPacket(p) ==> p in s.received)
      && (!s.failed ==> a.ack.largestAcked <= s.rcv.largestObserved)
  }

  ghost predicate ClosesOk(s: System) {
    forall f :: f in s.closes ==> f.WellFormed() && forall p: nat :: f.AcksPacket(p) ==> p in s.received
  }

  // Later packets carry later ACKs.
  ghost predicate AcksOrdered(s: System) {
    && (forall a, b :: a in s.acks && b in s.acks && a.number <= b.number ==> a.ack.largestAcked <= b.ack.largestAcked)
    && (forall a :: a in s.acks && s.snd.largestReceivedWithAck < a.number ==>
          s.snd.largestAcked <= a.ack.largestAcked)
    && (!s.failed ==> s.snd.largestAcked <= s.rcv.largestObserved)
  }

  ghost predicate Inv(s: System) {
    && S.Inv(s.snd)
    && s.received <= s.snd.sent
    && s.snd.acked <= s.received
    && PacketsOk(s)
    && (!s.failed ==> ReceiverOk(s))
    && AcksOk(s)
    && ClosesOk(s)
    && AcksOrdered(s)
  }

  lemma InitInv(s: System)
    requires Init(s)
    ensures Inv(s)
  {
    S.InitInv();
  }

  // ---------- the steps ----------

  lemma StopInv(st: S.State, stop: Stop.State)
    requires S.Inv(st) && Stop.Inv(stop) && stop.nextLeastUnacked == st.stop.nextLeastUnacked
    ensures S.Inv(st.(stop := stop))
  {
  }

  lemma SentNumbers(st: S.State, packet: Packet)
    requires st.lastSent < packet.number
    ensures S.AfterSend(st, packet).sent == st.sent + {packet.number}
    ensures S.AfterSend(st, packet).acked == st.acked
    ensures S.AfterSend(st, packet).largestAcked == st.largestAcked
    ensures S.AfterSend(st, packet).largestReceivedWithAck == st.largestReceivedWithAck
  {
  }

  lemma SendKeeps(s: System, packet: Packet, ask: Option<bool>, frame: Option<nat>, s': System)
    requires Inv(s) && SendStep(s, packet, ask, frame, s')
    ensures Inv(s')
  {
    hide S.AfterSend, R.Inv, S.Inv;
    InvStop(s.snd);
    var mid := s.snd.(stop := s'.snd.stop);
    SentStop(s.snd.(stop := s'.snd.stop), packet);
    StopInv(s.snd, s'.snd.stop);
    S.AfterSendInv(mid, packet);
    SentNumbers(mid, packet);
  }

  lemma InvStop(st: S.State)
    requires S.Inv(st)
    ensures Stop.Inv(st.stop) && st.stop.nextLeastUnacked <= st.lastSent + 1 && st.largestAcked <= st.lastSent
    ensures forall n :: n in st.sent ==> 0 < n <= st.lastSent
    ensures st.acked <= st.sent
  {
  }

  lemma SentStop(st: S.State, packet: Packet)
    requires st.lastSent < packet.number
    ensures S.AfterSend(st, packet).stop == st.stop
  {
  }

  // The STOP_WAITING frame of a packet never reaches the packet's own number, so the largest
  // number received stays in the history.
  lemma DeliverKeeps(s: System, p: DataPacket, instigates: bool, alarm: int,
                     r: R.ReceiveResult, mid: R.State, s': System)
    requires Inv(s) && DeliverStep(s, p, instigates, alarm, r, mid, s')
    ensures Inv(s')
  {
    hide S.Inv, R.Inv, R.Canonical, R.Contains;
    InvStop(s.snd);
    if r.Received? {
      DeliverReceiver(s, p, instigates, alarm, r, mid, s');
    }
  }

  lemma DeliverReceiver(s: System, p: DataPacket, instigates: bool, alarm: int,
                        r: R.ReceiveResult, mid: R.State, s': System)
    requires !s.failed && ReceiverOk(s) && PacketsOk(s)
    requires DeliverStep(s, p, instigates, alarm, r, mid, s') && r.Received?
    ensures ReceiverOk(s') && s.rcv.largestObserved <= s'.rcv.largestObserved
  {
    hide R.Canonical, R.Contains, R.Inv;
    var alwaysAck :| R.ReceiveSpec(s.rcv, p.number, instigates, alarm, alwaysAck, r, mid);
    MidContains(s.rcv, p.number, instigates, alarm, alwaysAck, mid);
    if p.stopWaiting.Some? {
      R.LowerLimitInv(mid, p.stopWaiting.value - 1, s'.rcv);
    }
  }

  lemma MidContains(st: R.State, pn: nat, instigates: bool, alarm: int, alwaysAck: bool, mid: R.State)
    requires R.Inv(st) && R.ReceiveSpec(st, pn, instigates, alarm, alwaysAck, R.Received, mid)
    ensures R.Inv(mid)
    ensures forall q: nat :: R.Contains(mid.ranges, q) ==> R.Contains(st.ranges, q) || q == pn
    ensures mid.largestObserved == Max(st.largestObserved, pn)
  {
    if pn <= st.lowerLimit {
      assert mid.ranges == st.ranges;
    }
  }

  lemma SendAckKeeps(s: System, number: nat, ack: AckFrame, s': System)
    requires Inv(s) && SendAckStep(s, number, ack, s')
    ensures Inv(s')
  {
    hide S.Inv, R.Canonical, R.Contains, R.Inv;
    LargestReceived(s);
    InvStop(s.snd);
    NewestAck(s, number, ack);
  }

  lemma LargestReceived(s: System)
    requires ReceiverOk(s) && (s.rcv.ackQueued || s.rcv.ackAlarm.Some?)
    ensures s.rcv.largestObserved > 0 && s.rcv.largestObserved in s.received
  {
    R.LargestContained(s.rcv);
  }

  lemma NewestAck(s: System, number: nat, ack: AckFrame)
    requires AcksOk(s) && AcksOrdered(s) && !s.failed
    requires s.nextAckPacket <= number && ack.largestAcked == s.rcv.largestObserved
    ensures AcksOrdered(s.(acks := s.acks + {AckPacket(number, ack)}))
  {
  }

  lemma AcksLargest(ack: AckFrame)
    requires ack.WellFormed()
    ensures ack.AcksPacket(ack.largestAcked)
  {
    if ack.HasMissingRanges() {
      assert ack.ackRanges[0].first <= ack.largestAcked <= ack.ackRanges[0].last;
    }
  }

  // With an honest receiver an ACK never names an unsent or a skipped packet number.
  lemma AckAcceptable(s: System, a: AckPacket)
    requires Inv(s) && a in s.acks
    ensures a.ack.WellFormed() && a.ack.largestAcked <= s.snd.lastSent && !S.AcksSkipped(s.snd, a.ack)
  {
    AcksLargest(a.ack);
  }

  lemma AckEffect(st: S.State, ack: AckFrame, withPacketNumber: nat, now: int, delay: int)
    ensures var st' := S.AfterAck(st, ack, withPacketNumber, now, delay);
            && st'.sent == st.sent && st'.largestAcked == ack.largestAcked
            && st'.largestReceivedWithAck == withPacketNumber
            && (forall n :: n in st'.acked ==> n in st.acked || ack.AcksPacket(n))
  {
  }

  lemma AlarmEffect(st: S.State, now: int, delay: int, failed: bool)
    ensures var st' := S.AfterAlarm(st, now, delay, failed);
            && st'.sent == st.sent && st'.largestAcked == st.largestAcked
            && st'.largestReceivedWithAck == st.largestReceivedWithAck && st'.acked == st.acked
  {
  }

  lemma DeliverAckKeeps(s: System, a: AckPacket, now: int, delay: int, r: S.AckResult, s': System)
    requires Inv(s) && NextStep(s, DeliverAck(a, now, delay, r), s')
    ensures Inv(s')
    ensures r == S.Processed || r == S.DuplicateOrOutOfOrderAck
    ensures s.snd.largestAcked <= s'.snd.largestAcked
  {
    hide S.Inv, S.AfterAck, R.Inv, R.Contains;
    AckAcceptable(s, a);
    S.AckNumbersInv(s.snd, a.number, 0);
    S.AfterAckInv(s.snd, a.ack, a.number, now, delay);
    AckEffect(s.snd, a.ack, a.number, now, delay);
  }

  lemma SendCloseKeeps(s: System, frame: AckFrame, s': System)
    requires Inv(s) && SendCloseStep(s, frame, s')
    ensures Inv(s')
  {
    hide S.Inv, R.Inv, R.Contains;
  }

  // Delivering a CLOSE_PATH frame, at any time and any number of times.
  lemma DeliverCloseKeeps(s: System, frame: AckFrame, number: nat, r: S.AckResult, s': System)
    requires Inv(s) && NextStep(s, DeliverClose(frame, number, r), s')
    ensures Inv(s')
    ensures r == S.Processed || r == S.DuplicateOrOutOfOrderAck
    ensures s'.snd.largestAcked == s.snd.largestAcked
  {
    hide S.Inv, S.AfterClosePath, R.Inv, R.Contains;
    CloseAcceptable(s, frame);
    S.AckNumbersInv(s.snd, number, 0);
    S.AfterClosePathInv(s.snd, frame, number);
    CloseEffect(s.snd, frame, number);
  }

  lemma CloseAcceptable(s: System, frame: AckFrame)
    requires Inv(s) && frame in s.closes
    ensures frame.largestAcked <= s.snd.lastSent && !S.AcksSkipped(s.snd, frame)
  {
    AcksLargest(frame);
  }

  lemma CloseEffect(st: S.State, frame: AckFrame, number: nat)
    ensures var st' := S.AfterClosePath(st, frame, number);
            && st'.sent == st.sent && st'.largestAcked == st.largestAcked
            && st'.largestReceivedWithAck == number
            && (forall n :: n in st'.acked ==> n in st.acked || frame.AcksPacket(n))
  {
  }

  lemma StepKeeps(s: System, step: Step, s': System)
    requires Inv(s) && NextStep(s, step, s')
    ensures Inv(s')
  {
    hide Inv, S.Inv, R.Inv, S.AfterAlarm, S.AckSpec, S.ClosePathSpec, SendStep, DeliverStep, SendAckStep, SendCloseStep;
    match step
    case Send(packet, ask, frame) => SendKeeps(s, packet, ask, frame, s');
    case Deliver(p, instigates, alarm, r, mid) => DeliverKeeps(s, p, instigates, alarm, r, mid, s');
    case SendAck(number, ack) => SendAckKeeps(s, number, ack, s');
    case DeliverAck(a, now, delay, r) => DeliverAckKeeps(s, a, now, delay, r, s');
    case SendClose(frame) => SendCloseKeeps(s, frame, s');
    case DeliverClose(frame, number, r) => DeliverCloseKeeps(s, frame, number, r, s');
    case Alarm(now, delay, failed) => AlarmKeeps(s, now, delay, failed, s');
    case Requeue(queue) => RequeueKeeps(s, queue, s');
  }

  lemma AlarmKeeps(s: System, now: int, delay: int, failed: bool, s': System)
    requires Inv(s) && NextStep(s, Alarm(now, delay, failed), s')
    ensures Inv(s')
  {
    hide S.Inv, S.AfterAlarm, R.Inv;
    S.AfterAlarmInv(s.snd, now, delay, failed);
    AlarmEffect(s.snd, now, delay, failed);
  }

  lemma RequeueKeeps(s: System, queue: seq<Packet>, s': System)
    requires Inv(s) && NextStep(s, Requeue(queue), s')
    ensures Inv(s')
  {
  }

  // ---------- whole runs ----------

  ghost predicate IsRun(run: seq<System>, steps: seq<Step>) {
    && |run| == |steps| + 1
    && Init(run[0])
    && (forall i :: 0 <= i < |steps| ==> NextStep(run[i], steps[i], run[i + 1]))
  }

  lemma {:induction false} RunInv(run: seq<System>, steps: seq<Step>)
    requires IsRun(run, steps)
    ensures Inv(run[|steps|])
  {
    if |steps| == 0 {
      InitInv(run[0]);
    } else {
      var n := |steps| - 1;
      RunInv(run[..n + 1], steps[..n]);
      StepKeeps(run[n], steps[n], run[n + 1]);
    }
  }

  // Whatever the network does: no ACK is ever taken for one of an unsent or skipped packet.
  lemma AcksNeverRefused(run: seq<System>, steps: seq<Step>, a: AckPacket, now: int, delay: int, r: S.AckResult,
                         s': System)
    requires IsRun(run, steps) && NextStep(run[|steps|], DeliverAck(a, now, delay, r), s')
    ensures r == S.Processed || r == S.DuplicateOrOutOfOrderAck
  {
    RunInv(run, steps);
    DeliverAckKeeps(run[|steps|], a, now, delay, r, s');
  }

  // Nor is a CLOSE_PATH frame; after it has been processed, exactly those packets are in flight on the
  // path that the frame does not name and that lie above the largest acknowledged number.
  lemma ClosesNeverRefused(run: seq<System>, steps: seq<Step>, frame: AckFrame, number: nat, r: S.AckResult, s': System)
    requires IsRun(run, steps) && NextStep(run[|steps|], DeliverClose(frame, number, r), s')
    ensures r == S.Processed || (r == S.DuplicateOrOutOfOrderAck && number <= run[|steps|].snd.largestReceivedWithAck)
    ensures r == S.Processed ==>
              Numbers(s'.snd.history) == set n | n in Numbers(run[|steps|].snd.history)
                                               && !frame.AcksPacket(n) && n > run[|steps|].snd.largestAcked
  {
    RunInv(run, steps);
    DeliverCloseKeeps(run[|steps|], frame, number, r, s');
    S.ClosePathOutcome(run[|steps|].snd, frame, number);
  }

  // Every packet that the sender takes out of flight as acknowledged was received.
  lemma AckedWasReceived(run: seq<System>, steps: seq<Step>)
    requires IsRun(run, steps)
    ensures run[|steps|].snd.acked <= run[|steps|].received <= run[|steps|].snd.sent
  {
    RunInv(run, steps);
  }

  // Every retransmittable packet ever sent is in flight, acknowledged or lost, and in only one
  // of these; the bytes in flight are the lengths of the packets in flight.
  lemma PacketsConserved(run: seq<System>, steps: seq<Step>)
    requires IsRun(run, steps)
    ensures var st := run[|steps|].snd;
            && st.tracked == Numbers(st.history) + st.acked + st.lost
            && Numbers(st.history) !! st.acked && Numbers(st.history) !! st.lost && st.acked !! st.lost
            && st.bytesInFlight == SumLength(st.history)
  {
    RunInv(run, steps);
  }

  // Whenever an ACK is due, or a CLOSE_PATH frame is wanted after some packet came in, there
  // are ranges to build it from, and its largest number is one that was received.
  lemma AckCanBeBuilt(run: seq<System>, steps: seq<Step>)
    requires IsRun(run, steps) && !run[|steps|].failed
    ensures var s := run[|steps|];
            && (s.rcv.ranges != [] <==> s.received != {})
            && (s.rcv.ackQueued || s.rcv.ackAlarm.Some? ==> s.rcv.ranges != [])
            && (s.rcv.ranges != [] ==> s.rcv.largestObserved in s.received)
  {
    var s := run[|steps|];
    RunInv(run, steps);
    if s.rcv.largestObserved > 0 {
      R.LargestContained(s.rcv);
    }
    forall n | n in s.received ensures 0 < n <= s.rcv.largestObserved {
      assert n in s.snd.sent;
    }
  }

  // The largest acknowledged number never decreases.
  lemma LargestAckedGrows(run: seq<System>, steps: seq<Step>, step: Step, s': System)
    requires IsRun(run, steps) && NextStep(run[|steps|], step, s')
    ensures run[|steps|].snd.largestAcked <= s'.snd.largestAcked
  {
    hide Inv, S.AfterAlarm, S.AfterSend, S.AckSpec;
    var s := run[|steps|];
    RunInv(run, steps);
    match step
    case Send(packet, ask, frame) => SentNumbers(s.snd.(stop := s'.snd.stop), packet);
    case DeliverAck(a, now, delay, r) => DeliverAckKeeps(s, a, now, delay, r, s');
    case DeliverClose(frame, number, r) => DeliverCloseKeeps(s, frame, number, r, s');
    case Alarm(now, delay, failed) => AlarmEffect(s.snd, now, delay, failed);
    case _ =>
  }
}
