/**
 When ACK frames are due: runs of the receiver of ReceivedPackets, with the clock at every step.
 */
module AckTiming {
  import opened Wire
  import opened Wrappers
  import opened ReceivedPackets

  // A packet that is accepted, a new lower limit, and a call of GetAckFrame.
  datatype Event =
    | Packet(number: nat, instigates: bool)
    | Limit(number: nat)
    | Asked(ack: Option<AckFrame>)

  ghost predicate IsDue(st: State, now: int) {
    st.ackQueued || (st.ackAlarm.Some? && st.ackAlarm.value <= now)
  }

  // The contracts of the handler's methods.
  ghost predicate Step(st: State, e: Event, now: int, delay: int, alwaysAck: bool, st': State) {
    match e
    case Packet(number, instigates) => ReceiveSpec(st, number, instigates, now + delay, alwaysAck, Received, st')
    case Limit(number) =>
      && number < st.largestObserved && Deleted(st.ranges, number, st'.ranges)
      && st' == st.(ranges := st'.ranges, lowerLimit := number)
    case Asked(ack) =>
      && (ack.Some? <==> IsDue(st, now))
      && (ack.None? ==> st' == st)
      && (ack.Some? ==>
            && ack.value.WellFormed() && ack.value.largestAcked == st.largestObserved
            && (forall p: nat :: ack.value.AcksPacket(p) <==> Contains(st.ranges, p))
            && st' == st.(lastAck := ack, ackAlarm := None, ackQueued := false,
                          packetsSinceLastAck := 0, retransmittableSinceLastAck := 0))
  }

  ghost predicate IsRun(run: seq<State>, events: seq<Event>, times: seq<int>, delay: int, alwaysAck: bool) {
    && |run| == |events| + 1 == |times| + 1 && run[0] == INIT_STATE && delay >= 0
    && (forall i | 0 < i < |times| :: times[i - 1] <= times[i])
    && forall i | 0 <= i < |events| :: Step(run[i], events[i], times[i], delay, alwaysAck, run[i + 1])
  }

  // Two retransmittable packets, the very first packet, or twenty packets for old versions make an ACK due at once;
  // one retransmittable packet sets the alarm.
  ghost predicate Timely(st: State, now: int, delay: int, alwaysAck: bool) {
    && Inv(st)
    && (st.retransmittableSinceLastAck >= 2 ==> st.ackQueued)
    && (st.retransmittableSinceLastAck >= 1 ==> st.ackQueued || st.ackAlarm.Some?)
    && (st.lastAck.None? && st.packetsSinceLastAck >= 1 ==> st.ackQueued)
    && (alwaysAck && st.packetsSinceLastAck >= 20 ==> st.ackQueued)
    && (st.ackAlarm.Some? ==> st.ackAlarm.value <= now + delay)
  }

  lemma StepTimely(st: State, e: Event, before: int, now: int, delay: int, alwaysAck: bool, st': State)
    requires Timely(st, before, delay, alwaysAck) && before <= now && Step(st, e, now, delay, alwaysAck, st')
    ensures Timely(st', now, delay, alwaysAck)
  {
    hide Inv, Added, Deleted, Contains, AckFrame.WellFormed, AckFrame.AcksPacket;
    match e
    case Packet(_, _) =>
    case Limit(number) => LowerLimitInv(st, number, st');
    case Asked(ack) => AskedInv(st, st');
  }

  lemma AskedInv(st: State, st': State)
    requires Inv(st) && st'.ranges == st.ranges && st'.largestObserved == st.largestObserved
    requires st'.lowerLimit == st.lowerLimit && (st'.ackQueued ==> st.ackQueued)
    requires st'.ackAlarm.Some? ==> st.ackAlarm.Some?
    ensures Inv(st')
  {
  }

  lemma {:induction false} RunTimely(run: seq<State>, events: seq<Event>, times: seq<int>, delay: int,
                                     alwaysAck: bool, n: nat)
    requires IsRun(run, events, times, delay, alwaysAck) && n < |run|
    ensures Timely(run[n], if n > 0 then times[n - 1] else if times != [] then times[0] else 0, delay, alwaysAck)
  {
    hide Step;
    if n > 0 {
      RunTimely(run, events, times, delay, alwaysAck, n - 1);
      StepTimely(run[n - 1], events[n - 1], if n > 1 then times[n - 2] else times[0], times[n - 1], delay, alwaysAck,
                 run[n]);
    }
  }

  // No ACK frame is built between two steps.
  ghost predicate NoAck(events: seq<Event>, i: nat, j: nat) {
    i <= j <= |events| && forall m | i <= m < j :: !(events[m].Asked? && events[m].ack.Some?)
  }

  // What is due stays due, or comes due at the same time, until an ACK frame is built.
  lemma {:induction false} StaysDue(run: seq<State>, events: seq<Event>, times: seq<int>, delay: int,
                                    alwaysAck: bool, i: nat, j: nat, now: int)
    requires IsRun(run, events, times, delay, alwaysAck) && NoAck(events, i, j) && IsDue(run[i], now)
    ensures IsDue(run[j], now) && (run[i].ackQueued ==> run[j].ackQueued)
  {
    hide Inv, Added, Deleted, Contains;
    if i < j {
      StaysDue(run, events, times, delay, alwaysAck, i, j - 1, now);
      assert Step(run[j - 1], events[j - 1], times[j - 1], delay, alwaysAck, run[j]);
    }
  }

  // A retransmittable packet above the lower limit is acknowledged within the delay, if an ACK frame is asked for
  // then; the frame names it unless the lower limit has reached it since.
  lemma AckedInTime(run: seq<State>, events: seq<Event>, times: seq<int>, delay: int, alwaysAck: bool, i: nat, j: nat)
    requires IsRun(run, events, times, delay, alwaysAck) && i < j < |events| && NoAck(events, i + 1, j)
    requires events[i].Packet? && events[i].instigates && run[i].lowerLimit < events[i].number
    requires events[j].Asked? && times[j] >= times[i] + delay
    ensures events[j].ack.Some?
    ensures BelowPacket(events, i + 1, j, events[i].number) ==> events[j].ack.value.AcksPacket(events[i].number)
  {
    hide Step, Timely;
    RunTimely(run, events, times, delay, alwaysAck, i);
    RunTimely(run, events, times, delay, alwaysAck, i + 1);
    PacketDue(run[i], events[i], times[i], delay, alwaysAck, run[i + 1]);
    StaysDue(run, events, times, delay, alwaysAck, i + 1, j, times[i] + delay);
    assert Step(run[j], events[j], times[j], delay, alwaysAck, run[j + 1]);
    AskedAnswers(run[j], events[j], times[j], delay, alwaysAck, run[j + 1]);
    AnswerNames(run[j], events[j], times[j], delay, alwaysAck, run[j + 1], events[i].number);
    if BelowPacket(events, i + 1, j, events[i].number) {
      StaysContained(run, events, times, delay, alwaysAck, i + 1, j, events[i].number);
    }
  }

  lemma PacketDue(st: State, e: Event, now: int, delay: int, alwaysAck: bool, st': State)
    requires e.Packet? && e.instigates && st.lowerLimit < e.number && Step(st, e, now, delay, alwaysAck, st')
    requires Timely(st', now, delay, alwaysAck)
    ensures IsDue(st', now + delay) && Contains(st'.ranges, e.number)
  {
    hide Inv, Contains;
  }

  lemma AskedAnswers(st: State, e: Event, now: int, delay: int, alwaysAck: bool, st': State)
    requires e.Asked? && Step(st, e, now, delay, alwaysAck, st')
    ensures e.ack.Some? <==> IsDue(st, now)
  {
  }

  lemma AnswerNames(st: State, e: Event, now: int, delay: int, alwaysAck: bool, st': State, p: nat)
    requires e.Asked? && e.ack.Some? && Step(st, e, now, delay, alwaysAck, st')
    ensures e.ack.value.AcksPacket(p) <==> Contains(st.ranges, p)
  {
  }

  // No lower limit in between reaches packet p.
  ghost predicate BelowPacket(events: seq<Event>, i: nat, j: nat, p: nat) {
    i <= j <= |events| && forall m | i <= m < j && events[m].Limit? :: events[m].number < p
  }

  // Until then, a packet stays in the history. (The lower limit itself may also go down again.)
  lemma {:induction false} StaysContained(run: seq<State>, events: seq<Event>, times: seq<int>, delay: int,
                                          alwaysAck: bool, i: nat, j: nat, p: nat)
    requires IsRun(run, events, times, delay, alwaysAck) && BelowPacket(events, i, j, p) && Contains(run[i].ranges, p)
    ensures Contains(run[j].ranges, p)
  {
    hide Inv, Contains, Canonical;
    if i < j {
      StaysContained(run, events, times, delay, alwaysAck, i, j - 1, p);
      assert Step(run[j - 1], events[j - 1], times[j - 1], delay, alwaysAck, run[j]);
    }
  }

  // The second retransmittable packet since the last ACK makes the next one due at once.
  lemma SecondAtOnce(run: seq<State>, events: seq<Event>, times: seq<int>, delay: int, alwaysAck: bool, i: nat, j: nat)
    requires IsRun(run, events, times, delay, alwaysAck) && i < j < |events| && NoAck(events, i, j)
    requires events[i].Packet? && events[i].instigates && run[i].lowerLimit < events[i].number
    requires events[j].Packet? && events[j].instigates && run[j].lowerLimit < events[j].number
    ensures run[j + 1].ackQueued
  {
    hide Step, Timely;
    assert Step(run[i], events[i], times[i], delay, alwaysAck, run[i + 1]);
    assert Step(run[j], events[j], times[j], delay, alwaysAck, run[j + 1]);
    CountedOne(run[i], events[i], times[i], delay, alwaysAck, run[i + 1]);
    StaysCounted(run, events, times, delay, alwaysAck, i + 1, j);
    CountedOne(run[j], events[j], times[j], delay, alwaysAck, run[j + 1]);
    RunTimely(run, events, times, delay, alwaysAck, j + 1);
    TwoQueue(run[j + 1], times[j], delay, alwaysAck);
  }

  lemma TwoQueue(st: State, now: int, delay: int, alwaysAck: bool)
    requires Timely(st, now, delay, alwaysAck) && st.retransmittableSinceLastAck >= 2
    ensures st.ackQueued
  {
  }

  lemma CountedOne(st: State, e: Event, now: int, delay: int, alwaysAck: bool, st': State)
    requires e.Packet? && e.instigates && st.lowerLimit < e.number && Step(st, e, now, delay, alwaysAck, st')
    ensures st'.retransmittableSinceLastAck == st.retransmittableSinceLastAck + 1
  {
  }

  lemma {:induction false} StaysCounted(run: seq<State>, events: seq<Event>, times: seq<int>, delay: int,
                                        alwaysAck: bool, i: nat, j: nat)
    requires IsRun(run, events, times, delay, alwaysAck) && NoAck(events, i, j)
    ensures run[i].retransmittableSinceLastAck <= run[j].retransmittableSinceLastAck
  {
    hide Inv, Added, Deleted, Contains;
    if i < j {
      StaysCounted(run, events, times, delay, alwaysAck, i, j - 1);
      assert Step(run[j - 1], events[j - 1], times[j - 1], delay, alwaysAck, run[j]);
    }
  }

  // Which packets make an ACK due at once: those that fill a gap that the last ACK reported, those above a new gap,
  // and those that are one too many to wait.
  lemma DueAtOnce(st: State, pn: nat, instigates: bool, alarm: int, alwaysAck: bool, st': State)
    requires Inv(st) && !st.ackQueued && st.lowerLimit < pn
    requires ReceiveSpec(st, pn, instigates, alarm, alwaysAck, Received, st')
    ensures st'.ackQueued <==>
              || st.lastAck.None?
              || pn < st.lastAck.value.largestAcked
              || GapAbove(st', st.lastAck.value.largestAcked)
              || (instigates && st.retransmittableSinceLastAck >= 1)
              || (alwaysAck && st.packetsSinceLastAck >= 19)
  {
    hide Added, Deleted;
    if st.lastAck.Some? {
      GapIs(st', st.lastAck.value.largestAcked);
    }
  }

  // A number from the last acknowledged one on has not been received, although a larger one has.
  ghost predicate GapAbove(st: State, acked: nat) {
    exists q :: acked <= q < st.largestObserved && !Contains(st.ranges, q)
  }

  lemma GapIs(st: State, acked: nat)
    requires Inv(st) && st.ranges != []
    ensures GapAbove(st, acked) <==> acked < st.ranges[|st.ranges| - 1].start
  {
    var i := |st.ranges| - 1;
    var start := st.ranges[i].start;
    if acked < start {
      forall k | 0 <= k < |st.ranges| ensures !(st.ranges[k].start <= start - 1 <= st.ranges[k].end) {
        assert k < i ==> st.ranges[k].end + 1 < st.ranges[i].start;
      }
      assert !Contains(st.ranges, start - 1);
    } else {
      forall q | acked <= q < st.largestObserved ensures Contains(st.ranges, q) {
        assert st.ranges[i].start <= q <= st.ranges[i].end;
      }
    }
  }
}
