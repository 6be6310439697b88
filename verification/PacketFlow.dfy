/**
 Where a packet goes that leaves the flight: it is acknowledged, or it waits for retransmission.
 */
module PacketFlow {
  import opened Wire
  import opened PacketHistory
  import opened SentPackets
  import AckWalk

  // No packet is forgotten, whatever leaves the flight.
  ghost predicate Flows(st: State, st': State) {
    && Numbers(st.history) <= Numbers(st'.history) + st'.acked + Numbers(st'.queue)
    && Numbers(st'.history) <= Numbers(st.history)
    && Numbers(st.queue) <= Numbers(st'.queue) <= Numbers(st.queue) + Numbers(st.history)
    && st.acked <= st'.acked && st'.sent == st.sent && st'.tracked == st.tracked && st'.lastSent == st.lastSent
  }

  lemma FlowsOn(a: State, b: State, c: State)
    requires Flows(a, b) && Flows(b, c)
    ensures Flows(a, c)
  {
  }

  lemma AcknowledgeFlows(st: State, a: set<nat>)
    ensures Flows(st, Acknowledge(st, a))
  {
    PickDrop(st.history, a);
  }

  lemma MarkLostFlows(st: State, l: set<nat>)
    ensures Flows(st, MarkLost(st, l))
  {
    PickDrop(st.history, l);
    NumbersConcat(st.queue, Pick(st.history, l));
  }

  lemma AckFlows(st: State, ack: AckFrame, withPacketNumber: nat, now: int, delay: int, r: AckResult, st': State)
    requires AckSpec(st, ack, withPacketNumber, now, delay, r, st')
    ensures Flows(st, st')
  {
    hide Acknowledge, MarkLost, Numbers, LateNumbers, NextLossTime, AckWalk.AckedNumbers, AcksSkipped;
    var s1 := st.(largestReceivedWithAck := withPacketNumber, largestAcked := ack.largestAcked);
    var acked := AckWalk.AckedNumbers(s1.history, ack);
    var s2 := Acknowledge(s1, acked);
    var s3 := s2.(lossTime := NextLossTime(s2.history, s2.largestAcked, now, delay));
    AcknowledgeFlows(s1, acked);
    MarkLostFlows(s3, LateNumbers(s2.history, s2.largestAcked, now, delay));
    FlowsOn(s1, s2, DetectLost(s2, now, delay));
  }

  lemma CloseFlows(st: State, f: AckFrame, withPacketNumber: nat, r: AckResult, st': State)
    requires ClosePathSpec(st, f, withPacketNumber, r, st')
    ensures Flows(st, st')
  {
    hide Acknowledge, MarkLost, Numbers, AckWalk.AckedNumbers, AcksSkipped;
    var s1 := st.(largestReceivedWithAck := withPacketNumber);
    var acked := AckWalk.AckedNumbers(s1.history, f);
    var s2 := Acknowledge(s1, acked);
    AcknowledgeFlows(s1, acked);
    MarkLostFlows(s2, set n | n in Numbers(s2.history) && n <= s2.largestAcked);
    FlowsOn(s1, s2, InflightLost(s2));
  }

  lemma AlarmFlows(st: State, now: int, delay: int, failed: bool)
    ensures Flows(st, AfterAlarm(st, now, delay, failed))
  {
    hide MarkLost, Numbers, LateNumbers, NextLossTime;
    if exists i :: 0 <= i < |st.history| && st.history[i].IsRetransmittable() {
      MarkLostFlows(st.(lossTime := NextLossTime(st.history, st.largestAcked, now, delay)),
                    LateNumbers(st.history, st.largestAcked, now, delay));
      MarkLostFlows(st, {st.history[|st.history| - 1].number});
      var n := if failed || |st.history| < 2 then |st.history| else 2;
      MarkLostFlows(st, Numbers(st.history[..n]));
    }
  }

  // A packet with a frame of the listed kinds is in flight once it has been sent.
  lemma SentFlows(st: State, packet: Packet)
    requires st.lastSent < packet.number
    ensures var st' := AfterSend(st, packet);
            && Numbers(st.history) <= Numbers(st'.history) <= Numbers(st.history) + {packet.number}
            && st'.queue == st.queue && st'.acked == st.acked && st'.sent == st.sent + {packet.number}
            && st'.lastSent == packet.number
            && (Listed in packet.frames ==> packet.number in Numbers(st'.history))
  {
    var p := packet.(frames := StripNonRetransmittable(packet.frames));
    StripKeeps(packet.frames, Listed);
    NumbersConcat(st.history, [p]);
    NumbersCons(p, []);
    assert [p] + [] == [p];
  }
}
