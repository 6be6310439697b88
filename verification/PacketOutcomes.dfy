/**
 What becomes of every packet in flight when something is sent, an ACK or CLOSE_PATH frame comes in or the alarm
 goes off, said packet by packet.
 */
module PacketOutcomes {
  import opened MinMax
  import opened Wire
  import opened Wrappers
  import opened PacketHistory
  import opened SentPackets
  import AckWalk

  // ---------- leaving the flight ----------

  ghost predicate InFlight(st: State, number: nat) {
    number in Numbers(st.history)
  }

  ghost predicate IsQueued(st: State, p: Packet) {
    p.number in st.lost && p in st.queue && !InFlight(st, p.number)
  }

  // Exactly the packets that are lost now are queued, behind those that wait already and in ascending order.
  ghost predicate QueuesInOrder(st: State, st': State) {
    exists ps :: st'.queue == st.queue + ps && Ascending(ps)
                 && forall p :: p in ps <==> p in st.history && p.number in st'.lost
  }

  // The least unacked number that is announced to the peer moves behind all of them.
  ghost predicate AnnouncesNext(st: State, st': State) {
    var next := st'.stop.nextLeastUnacked;
    && st'.stop == st.stop.(nextLeastUnacked := next) && st.stop.nextLeastUnacked <= next
    && (forall p | p in st.history && p.number in st'.lost :: p.number < next)
    && (next == st.stop.nextLeastUnacked
        || exists p :: p in st.history && p.number in st'.lost && next == p.number + 1)
  }

  lemma AcknowledgedPacket(st: State, a: set<nat>, p: Packet)
    requires Ascending(st.history) && p in st.history
    ensures var st' := Acknowledge(st, a);
            if p.number in a then p.number in st'.acked && !InFlight(st', p.number) else p in st'.history
    ensures Ascending(Acknowledge(st, a).history)
  {
    SameNumber(st.history, p, a);
    PickDropAscending(st.history, a);
  }

  lemma LostPacket(st: State, l: set<nat>, p: Packet)
    requires Ascending(st.history) && p in st.history
    ensures var st' := MarkLost(st, l); if p.number in l then IsQueued(st', p) else p in st'.history
  {
    SameNumber(st.history, p, l);
  }

  lemma LostInOrder(st: State, l: set<nat>)
    requires Ascending(st.history) && Numbers(st.history) !! st.lost
    ensures var st' := MarkLost(st, l);
            QueuesInOrder(st, st') && AnnouncesNext(st, st') && Ascending(st'.history)
  {
    hide Ascending, SumLength;
    var ps := Pick(st.history, l);
    PickDropAscending(st.history, l);
    PickIn(st.history, l);
    forall p | p in st.history ensures p in ps <==> p.number in st.lost + l {
      SameNumber(st.history, p, l);
      PacketNumberIn(st.history, p);
    }
    if ps != [] {
      LastLargest(ps);
      assert ps[|ps| - 1] in ps;
    }
  }

  lemma LastLargest(ps: seq<Packet>)
    requires Ascending(ps) && ps != []
    ensures forall p | p in ps :: p.number <= ps[|ps| - 1].number
  {
  }

  // The packets left are some of those that were there.
  lemma StillThere(h: seq<Packet>, s: set<nat>)
    ensures forall p | p in Drop(h, s) :: p in h && p.number !in s
  {
    DropIn(h, s);
  }

  // Up to this number, and sent too long ago.
  ghost predicate SentLongAgo(p: Packet, number: nat, now: int, delay: int) {
    p.number <= number && now - p.sendTime > delay
  }

  // The next time at which a packet is too old is that of the oldest one left, if any.
  ghost predicate NextTime(h: seq<Packet>, number: nat, delay: int, time: Option<int>) {
    if h != [] && h[0].number <= number then time == Some(h[0].sendTime + delay) else time == None
  }

  lemma {:induction false} LossTimeOf(h: seq<Packet>, number: nat, now: int, delay: int)
    requires Ascending(h)
    ensures NextTime(Drop(h, LateNumbers(h, number, now, delay)), number, delay, NextLossTime(h, number, now, delay))
  {
    hide LateNumbers;
    if h != [] {
      HeadTail(h);
      LateHead(h, number, now, delay);
      LossTimeOf(h[1..], number, now, delay);
    }
    if h != [] && h[0].number > number {
      NoneLateAbove(h, number, now, delay, 0);
      NotLateAbove(h, number, now, delay, 0);
      assert h[0..] == h;
      DropNone(h, LateNumbers(h, number, now, delay));
    }
  }

  // Whether the first packet is late does not matter for the others.
  lemma LateHead(h: seq<Packet>, number: nat, now: int, delay: int)
    requires h != [] && Ascending(h)
    ensures var s := LateNumbers(h, number, now, delay);
            && (h[0].number in s <==> Late(h[0], number, now, delay))
            && Drop(h[1..], s) == Drop(h[1..], LateNumbers(h[1..], number, now, delay))
  {
    var s, t := LateNumbers(h, number, now, delay), LateNumbers(h[1..], number, now, delay);
    HeadTail(h);
    forall n | n in Numbers(h[1..]) ensures n in s <==> n in t {
      if n in s {
        var i :| 0 <= i < |h| && Late(h[i], number, now, delay) && h[i].number == n;
        assert h[1..][i - 1] == h[i];
      }
    }
    SameDrop(h[1..], s, t);
  }

  lemma {:induction false} SameDrop(h: seq<Packet>, s: set<nat>, t: set<nat>)
    requires forall n | n in Numbers(h) :: n in s <==> n in t
    ensures Drop(h, s) == Drop(h, t)
  {
    if h != [] {
      HeadTail(h);
      SameDrop(h[1..], s, t);
    }
  }

  // Loss detection queues exactly the packets sent too long ago.
  lemma DetectOutcome(st: State, now: int, delay: int)
    requires Ascending(st.history) && Numbers(st.history) !! st.lost
    ensures var st' := DetectLost(st, now, delay);
            && (forall p | p in st.history ::
                  if SentLongAgo(p, st.largestAcked, now, delay) then IsQueued(st', p) else p in st'.history)
            && (forall p | p in st'.history :: p in st.history)
            && NextTime(st'.history, st.largestAcked, delay, st'.lossTime)
            && QueuesInOrder(st, st') && AnnouncesNext(st, st') && Ascending(st'.history)
  {
    var late := LateNumbers(st.history, st.largestAcked, now, delay);
    var timed := st.(lossTime := NextLossTime(st.history, st.largestAcked, now, delay));
    LossTimeOf(st.history, st.largestAcked, now, delay);
    LostInOrder(timed, late);
    StillThere(st.history, late);
    forall p | p in st.history
      ensures if SentLongAgo(p, st.largestAcked, now, delay) then IsQueued(MarkLost(timed, late), p)
              else p in MarkLost(timed, late).history
    {
      LostPacket(timed, late, p);
      LateExactly(st.history, st.largestAcked, now, delay, p);
    }
  }

  // ---------- sending ----------

  // Numbers left out before and just now; the ten largest are remembered.
  ghost function NowLeftOut(st: State, number: nat): set<nat> {
    set x: nat | x < number && IsLeftOut(st, number, x)
  }

  ghost predicate IsLeftOut(st: State, number: nat, x: nat) {
    x in st.skipped || st.lastSent < x < number
  }

  ghost function Elements(s: seq<nat>): set<nat> {
    set x | x in s
  }

  ghost predicate TenLargest(all: set<nat>, kept: seq<nat>) {
    forall x: nat :: x in kept <==> x in all && |set y | y in all && y > x| < 10
  }

  ghost predicate OnlyAcks(frames: seq<Frame>) {
    forall f | f in frames :: f == Ack || f == StopWaiting
  }

  // A packet with anything in it that can be sent again is in flight, behind all others; one without is counted.
  lemma SendOutcome(st: State, packet: Packet)
    requires Inv(st) && st.lastSent < packet.number
    ensures var st' := AfterSend(st, packet);
            && st' == st.(lastSent := packet.number, sent := st.sent + {packet.number}, skipped := st'.skipped,
                          history := st'.history, bytesInFlight := st'.bytesInFlight, tracked := st'.tracked,
                          nonRetransmittable := st'.nonRetransmittable)
            && TenLargest(NowLeftOut(st, packet.number), st'.skipped)
            && if OnlyAcks(packet.frames) then
                 && st'.history == st.history && st'.nonRetransmittable == st.nonRetransmittable + 1
               else
                 && st'.history == st.history + [packet.(frames := StripNonRetransmittable(packet.frames))]
                 && st'.nonRetransmittable == 0
  {
    hide Inv, LastTen, From;
    InvSkipped(st);
    AfterSendInv(st, packet);
    SkippedOutcome(st, packet.number);
    if StripNonRetransmittable(packet.frames) != [] {
      StripKeeps(packet.frames, StripNonRetransmittable(packet.frames)[0]);
    } else if !OnlyAcks(packet.frames) {
      var f :| f in packet.frames && f != Ack && f != StopWaiting;
      StripKeeps(packet.frames, f);
    }
  }

  lemma SkippedOutcome(st: State, number: nat)
    requires Inv(st) && st.lastSent < number
    ensures TenLargest(NowLeftOut(st, number), LastTen(st.skipped + From(st.lastSent + 1, number)))
  {
    hide Inv, LastTen, TenLargest;
    InvSkipped(st);
    SkippedSmall(st);
    var s := st.skipped + From(st.lastSent + 1, number);
    assert NowLeftOut(st, number) == Elements(s) by {
      forall x: nat | x < number && IsLeftOut(st, number, x) ensures x in s {
        if st.lastSent < x {
          assert From(st.lastSent + 1, number)[x - st.lastSent - 1] == x;
        }
      }
    }
    LastTenLargest(s);
  }

  lemma SkippedSmall(st: State)
    requires Inv(st)
    ensures forall i :: 0 <= i < |st.skipped| ==> st.skipped[i] < st.lastSent
  {
  }

  ghost predicate Rising(s: seq<nat>) {
    forall i, j :: 0 <= i < j < |s| ==> s[i] < s[j]
  }

  lemma LastTenLargest(s: seq<nat>)
    requires Rising(s)
    ensures TenLargest(Elements(s), LastTen(s))
  {
    hide Rising;
    forall x: nat ensures x in LastTen(s) <==> x in Elements(s) && |set y | y in Elements(s) && y > x| < 10 {
      if x in s {
        var i :| 0 <= i < |s| && s[i] == x;
        CountAbove(s, i);
        assert (set y | y in Elements(s) && y > x) == set y | y in s && y > s[i];
        LastTenAt(s, i);
      }
    }
  }

  lemma LastTenAt(s: seq<nat>, i: nat)
    requires Rising(s) && i < |s|
    ensures s[i] in LastTen(s) <==> |s| - 1 - i < 10
  {
    if |s| > 10 && |s| - 1 - i < 10 {
      assert LastTen(s)[i - (|s| - 10)] == s[i];
    }
  }

  lemma {:induction false} CountAbove(s: seq<nat>, i: nat)
    requires Rising(s) && i < |s|
    ensures |set y | y in s && y > s[i]| == |s| - 1 - i
    decreases |s| - i
  {
    var above := set y | y in s && y > s[i];
    if i == |s| - 1 {
      assert above == {};
    } else {
      CountAbove(s, i + 1);
      var rest := set y | y in s && y > s[i + 1];
      assert above == rest + {s[i + 1]} by {
        forall y | y in above ensures y in rest + {s[i + 1]} {
          var k :| 0 <= k < |s| && s[k] == y;
          assert k > i;
        }
      }
    }
  }

  // ---------- an ACK ----------

  // A new ACK: not for a packet that was not sent, not out of order, and it names no number left out.
  ghost predicate IsAnswer(st: State, ack: AckFrame, withPacketNumber: nat) {
    && ack.largestAcked <= st.lastSent && withPacketNumber > st.largestReceivedWithAck
    && forall x | x in st.skipped :: !ack.AcksPacket(x)
  }

  // It says something new about the flight, or about the largest number if nothing is in flight.
  ghost predicate IsNews(st: State, ack: AckFrame) {
    if st.history == [] then ack.largestAcked > st.largestAcked
    else exists p :: p in st.history && p.number <= ack.largestAcked
  }

  lemma NewsAtFront(st: State, ack: AckFrame)
    requires Ascending(st.history)
    ensures IsNews(st, ack) <==> ack.largestAcked > LargestInOrderAcked(st)
  {
    if st.history != [] && st.history[0].number <= ack.largestAcked {
      assert st.history[0] in st.history;
    }
  }

  // The packet that an ACK names is acknowledged. One that it does not name is queued if it was sent too long
  // before a packet that is named, and stays in flight else.
  ghost predicate AckedOrLate(st: State, ack: AckFrame, now: int, delay: int, st': State, p: Packet) {
    if ack.AcksPacket(p.number) then p.number in st'.acked && !InFlight(st', p.number)
    else if SentLongAgo(p, ack.largestAcked, now, delay) then IsQueued(st', p)
    else p in st'.history
  }

  lemma AckedDetected(st: State, ack: AckFrame, withPacketNumber: nat, now: int, delay: int)
    requires Inv(st)
    ensures var st' := AfterAck(st, ack, withPacketNumber, now, delay);
            && (forall p | p in st.history :: AckedOrLate(st, ack, now, delay, st', p))
            && NextTime(st'.history, ack.largestAcked, delay, st'.lossTime)
            && QueuesInOrder(st, st') && Ascending(st'.history) && forall p | p in st'.history :: p in st.history
  {
    hide Inv, DetectLost, Acknowledge, Ascending, NextTime, QueuesInOrder, AnnouncesNext, Numbers;
    InvParts(st);
    NoneLost(st);
    var s1 := st.(largestReceivedWithAck := withPacketNumber, largestAcked := ack.largestAcked);
    var a := AckWalk.AckedNumbers(s1.history, ack);
    var s2 := Acknowledge(s1, a);
    AcknowledgeFacts(s1, a);
    DetectOutcome(s2, now, delay);
    DetectFacts(s2, now, delay);
    QueuesAlike(s1, a, DetectLost(s2, now, delay));
    SameQueue(s1, DetectLost(s2, now, delay), st, AfterAck(st, ack, withPacketNumber, now, delay));
    forall p | p in st.history
      ensures AckedOrLate(st, ack, now, delay, AfterAck(st, ack, withPacketNumber, now, delay), p)
    {
      AcknowledgedPacket(s1, a, p);
      PacketNumberIn(st.history, p);
    }
  }

  lemma NoneLost(st: State)
    requires Inv(st)
    ensures Numbers(st.history) !! st.lost
  {
  }

  // What is queued after packets were acknowledged was in flight before, too.
  lemma QueuesAlike(st: State, a: set<nat>, st': State)
    requires Ascending(st.history) && Numbers(st.history) !! st.lost
    requires QueuesInOrder(Acknowledge(st, a), st') && st'.lost <= st.lost + Numbers(Drop(st.history, a))
    ensures QueuesInOrder(st, st')
  {
    hide Ascending;
    PickDrop(st.history, a);
    StillThere(st.history, a);
    forall p | p in st.history && p.number in st'.lost ensures p in Drop(st.history, a) {
      PacketNumberIn(st.history, p);
      SameNumber(st.history, p, a);
    }
  }

  lemma SameQueue(st: State, st': State, s: State, s': State)
    requires QueuesInOrder(st, st') && s.history == st.history && s.queue == st.queue
    requires s'.queue == st'.queue && s'.lost == st'.lost
    ensures QueuesInOrder(s, s')
  {
  }

  lemma PacketNumberIn(h: seq<Packet>, p: Packet)
    requires p in h
    ensures p.number in Numbers(h)
  {
    var i :| 0 <= i < |h| && h[i] == p;
    NumbersAt(h, i);
  }

  lemma AcknowledgeFacts(st: State, a: set<nat>)
    requires Ascending(st.history) && Numbers(st.history) !! st.lost
    ensures var st' := Acknowledge(st, a);
            && Ascending(st'.history) && st'.largestAcked == st.largestAcked && st'.lost == st.lost
            && st'.history == Drop(st.history, a) && Numbers(st'.history) !! st'.lost
            && (forall p | p in st'.history :: p in st.history && p.number !in a)
  {
    PickDropAscending(st.history, a);
    PickDrop(st.history, a);
    StillThere(st.history, a);
  }

  lemma DetectFacts(st: State, now: int, delay: int)
    ensures var st' := DetectLost(st, now, delay);
            && st'.acked == st.acked && Numbers(st'.history) <= Numbers(st.history)
            && st'.lost <= st.lost + Numbers(st.history)
  {
    LateSubset(st.history, st.largestAcked, now, delay);
    PickDrop(st.history, LateNumbers(st.history, st.largestAcked, now, delay));
  }

  // A number left out is remembered as long as a packet below it is in flight, or it lies above the largest
  // acknowledged number.
  ghost predicate SkippedKept(st: State, st': State) {
    forall x: nat :: x in st'.skipped <==>
      x in st.skipped && if st'.history == [] then x > st'.largestAcked
                         else exists p :: p in st'.history && p.number <= x
  }

  lemma {:induction false} KeptAbove(s: seq<nat>, n: int, x: nat)
    requires forall i, j :: 0 <= i < j < |s| ==> s[i] < s[j]
    ensures x in KeepAbove(s, n) <==> x in s && x > n
  {
    if s != [] {
      assert forall i | 0 < i < |s| :: s[0] < s[i] == s[1..][i - 1];
      if s[0] <= n {
        KeptAbove(s[1..], n, x);
        assert x in s <==> x == s[0] || x in s[1..];
      } else if x in s {
        var i :| 0 <= i < |s| && s[i] == x;
        assert x >= s[0];
      }
    }
  }

  lemma CollectOutcome(st: State)
    requires Inv(st)
    ensures SkippedKept(st, CollectSkipped(st))
  {
    hide Inv;
    InvParts(st);
    InvSkipped(st);
    forall x: nat ensures x in CollectSkipped(st).skipped <==>
                       x in st.skipped && if st.history == [] then x > st.largestAcked
                                          else exists p :: p in st.history && p.number <= x
    {
      KeptAbove(st.skipped, LargestInOrderAcked(st), x);
      if st.history != [] && st.history[0].number <= x {
        assert st.history[0] in st.history;
      }
    }
  }

  // What an ACK does besides: the counters of alarms start again if a packet is acknowledged, and the least
  // unacked number announced to the peer moves behind the largest one acknowledged.
  ghost predicate AckNoted(st: State, ack: AckFrame, withPacketNumber: nat, st': State) {
    && st'.largestAcked == ack.largestAcked && st'.largestReceivedWithAck == withPacketNumber
    && (if exists p :: p in st.history && ack.AcksPacket(p.number) then st'.rtoCount == 0 && st'.tlpCount == 0
        else st'.rtoCount == st.rtoCount && st'.tlpCount == st.tlpCount)
    && st'.stop.nextLeastUnacked == Max(st.stop.nextLeastUnacked, ack.largestAcked + 1)
    && st'.lastSent == st.lastSent && st'.sent == st.sent && st'.tracked == st.tracked
    && st'.nonRetransmittable == st.nonRetransmittable
  }

  lemma AckedNoted(st: State, ack: AckFrame, withPacketNumber: nat, now: int, delay: int)
    requires Inv(st)
    ensures AckNoted(st, ack, withPacketNumber, AfterAck(st, ack, withPacketNumber, now, delay))
  {
    hide Inv, Numbers, Drop, Pick, LateNumbers, NextLossTime, KeepAbove, LargestInOrderAcked, SumLength,
         AckWalk.AckedNumbers, AckFrame.AcksPacket;
    var s1 := st.(largestReceivedWithAck := withPacketNumber, largestAcked := ack.largestAcked);
    var a := AckWalk.AckedNumbers(s1.history, ack);
    NamedSome(st.history, ack);
    LateBelow(Drop(s1.history, a), ack.largestAcked, now, delay);
  }

  lemma NamedSome(h: seq<Packet>, ack: AckFrame)
    ensures AckWalk.AckedNumbers(h, ack) == {} <==> forall p | p in h :: !ack.AcksPacket(p.number)
  {
    var a := AckWalk.AckedNumbers(h, ack);
    if n :| n in a {
      var i :| 0 <= i < |h| && h[i].number == n;
      assert h[i] in h;
    }
    forall p | p in h && ack.AcksPacket(p.number) ensures p.number in a {
      PacketNumberIn(h, p);
    }
  }

  // Lost packets lie below the largest acknowledged number, so they do not move the least unacked number more.
  lemma LateBelow(h: seq<Packet>, largestAcked: nat, now: int, delay: int)
    ensures var ps := Pick(h, LateNumbers(h, largestAcked, now, delay));
            ps != [] ==> ps[|ps| - 1].number <= largestAcked
  {
    var late := LateNumbers(h, largestAcked, now, delay);
    assert forall n | n in late :: n < largestAcked + 1;
    PickBound(h, late, largestAcked + 1);
  }

  // The whole of ReceivedAck: refused, of no news, or an answer for every packet in flight.
  lemma AckAnswered(st: State, ack: AckFrame, withPacketNumber: nat, now: int, delay: int, r: AckResult, st': State)
    requires Inv(st) && ack.WellFormed() && AckSpec(st, ack, withPacketNumber, now, delay, r, st')
    ensures r == AckForUnsentPacket <==> ack.largestAcked > st.lastSent
    ensures r == DuplicateOrOutOfOrderAck <==>
              ack.largestAcked <= st.lastSent && withPacketNumber <= st.largestReceivedWithAck
    ensures r == AckForSkippedPacket <==>
              && ack.largestAcked <= st.lastSent && withPacketNumber > st.largestReceivedWithAck && IsNews(st, ack)
              && exists x :: x in st.skipped && ack.AcksPacket(x)
    ensures r == AckForUnsentPacket || r == DuplicateOrOutOfOrderAck ==> st' == st
    ensures r == AckForSkippedPacket ==>
              st' == st.(largestReceivedWithAck := withPacketNumber, largestAcked := ack.largestAcked)
    ensures IsAnswer(st, ack, withPacketNumber) ==>
              r == Processed && forall p | p in st.history :: AckedOrLate(st, ack, now, delay, st', p)
    ensures IsAnswer(st, ack, withPacketNumber) && IsNews(st, ack) ==>
              && AckNoted(st, ack, withPacketNumber, st') && SkippedKept(st, st') && QueuesInOrder(st, st')
              && NextTime(st'.history, ack.largestAcked, delay, st'.lossTime)
    ensures r == Processed && !IsNews(st, ack) ==> st' == st.(largestReceivedWithAck := withPacketNumber)
  {
    hide Inv, AfterAck, IsNews, AckNoted, SkippedKept, QueuesInOrder, NextTime, AckedOrLate;
    InvParts(st);
    NewsAtFront(st, ack);
    SkippedNamed(st, ack);
    AckedDetected(st, ack, withPacketNumber, now, delay);
    AckedNoted(st, ack, withPacketNumber, now, delay);
    if ack.largestAcked <= st.lastSent {
      AckSkipped(st, ack, withPacketNumber, now, delay);
    }
    if !IsNews(st, ack) {
      OldAck(st, ack, now, delay, st.(largestReceivedWithAck := withPacketNumber));
    }
  }

  lemma SkippedNamed(st: State, ack: AckFrame)
    ensures AcksSkipped(st, ack) <==> exists x :: x in st.skipped && ack.AcksPacket(x)
  {
    if x :| x in st.skipped && ack.AcksPacket(x) {
      var i :| 0 <= i < |st.skipped| && st.skipped[i] == x;
    }
  }

  lemma AckSkipped(st: State, ack: AckFrame, withPacketNumber: nat, now: int, delay: int)
    requires Inv(st) && ack.largestAcked <= st.lastSent
    ensures SkippedKept(st, AfterAck(st, ack, withPacketNumber, now, delay))
  {
    hide Inv, Acknowledge, DetectLost, CollectSkipped;
    var s1 := st.(largestReceivedWithAck := withPacketNumber, largestAcked := ack.largestAcked);
    var a := AckWalk.AckedNumbers(s1.history, ack);
    AckNumbersInv(st, withPacketNumber, ack.largestAcked);
    AcknowledgeInv(s1, a);
    DetectLostInv(Acknowledge(s1, a), now, delay);
    CollectOutcome(DetectLost(Acknowledge(s1, a), now, delay));
    SkippedSame(s1, a, now, delay);
    CollectSame(DetectLost(Acknowledge(s1, a), now, delay));
  }

  lemma SkippedSame(st: State, a: set<nat>, now: int, delay: int)
    ensures DetectLost(Acknowledge(st, a), now, delay).skipped == st.skipped
  {
  }

  lemma CollectSame(st: State)
    ensures CollectSkipped(st) == st.(skipped := CollectSkipped(st).skipped)
  {
  }

  // Without news nothing in flight is named, and nothing is too old.
  lemma OldAck(st: State, ack: AckFrame, now: int, delay: int, st': State)
    requires ack.WellFormed() && !IsNews(st, ack) && st'.history == st.history
    ensures forall p | p in st.history :: AckedOrLate(st, ack, now, delay, st', p)
  {
  }

  // ---------- a CLOSE_PATH frame ----------

  // A packet that the frame names is acknowledged. One that it does not name is queued if it is not above the
  // largest number acknowledged so far, and stays in flight on the closed path else.
  ghost predicate AckedOrBelow(st: State, f: AckFrame, st': State, p: Packet) {
    if f.AcksPacket(p.number) then p.number in st'.acked && !InFlight(st', p.number)
    else if p.number <= st.largestAcked then IsQueued(st', p)
    else p in st'.history
  }

  lemma CloseAnswered(st: State, f: AckFrame, withPacketNumber: nat, r: AckResult, st': State)
    requires Inv(st) && ClosePathSpec(st, f, withPacketNumber, r, st')
    ensures r == AckForUnsentPacket <==> f.largestAcked > st.lastSent
    ensures r == DuplicateOrOutOfOrderAck <==>
              f.largestAcked <= st.lastSent && withPacketNumber <= st.largestReceivedWithAck
    ensures r == Processed <==> IsAnswer(st, f, withPacketNumber)
    ensures r == AckForUnsentPacket || r == DuplicateOrOutOfOrderAck ==> st' == st
    ensures r == AckForSkippedPacket ==> st' == st.(largestReceivedWithAck := withPacketNumber)
    ensures r == Processed ==>
              && (forall p | p in st.history :: AckedOrBelow(st, f, st', p)) && QueuesInOrder(st, st')
              && AnnouncesNext(st, st') && SkippedKept(st, st')
              && st'.largestReceivedWithAck == withPacketNumber && st'.largestAcked == st.largestAcked
              && st'.lossTime == st.lossTime
  {
    hide Inv, AfterClosePath, AckedOrBelow, QueuesInOrder, AnnouncesNext, SkippedKept;
    SkippedNamed(st, f);
    ClosedInOrder(st, f, withPacketNumber);
  }

  lemma ClosedInOrder(st: State, f: AckFrame, withPacketNumber: nat)
    requires Inv(st)
    ensures var st' := AfterClosePath(st, f, withPacketNumber);
            && (forall p | p in st.history :: AckedOrBelow(st, f, st', p)) && QueuesInOrder(st, st')
            && AnnouncesNext(st, st') && SkippedKept(st, st')
            && st'.largestReceivedWithAck == withPacketNumber && st'.largestAcked == st.largestAcked
            && st'.lossTime == st.lossTime
  {
    hide Inv, Acknowledge, MarkLost, CollectSkipped, Ascending, QueuesInOrder, AnnouncesNext, SkippedKept, Numbers;
    InvParts(st);
    NoneLost(st);
    var s1 := st.(largestReceivedWithAck := withPacketNumber);
    var a := AckWalk.AckedNumbers(s1.history, f);
    AcknowledgeFacts(s1, a);
    var s2 := Acknowledge(s1, a);
    var l := set n | n in Numbers(s2.history) && n <= s2.largestAcked;
    LostInOrder(s2, l);
    LostFacts(s2, l);
    var s3 := MarkLost(s2, l);
    AckNumbersInv(st, withPacketNumber, 0);
    AcknowledgeInv(s1, a);
    MarkLostInv(s2, l);
    CollectOutcome(s3);
    CollectSame(s3);
    QueuesAlike(s1, a, s3);
    AcknowledgedOnly(s1, a);
    AnnouncesAlike(s1, s2, s3);
    var st' := AfterClosePath(st, f, withPacketNumber);
    SameQueue(s1, s3, st, st');
    SameAnnounced(s1, s3, st, st');
    SameKept(s3, st, st');
    forall p | p in st.history ensures AckedOrBelow(st, f, st', p) {
      AcknowledgedPacket(s1, a, p);
      PacketNumberIn(st.history, p);
      if p in s2.history {
        LostPacket(s2, l, p);
        PacketNumberIn(s2.history, p);
      }
    }
  }

  lemma LostFacts(st: State, l: set<nat>)
    ensures var st' := MarkLost(st, l);
            && st'.acked == st.acked && Numbers(st'.history) <= Numbers(st.history) && st'.lost == st.lost + l
            && st'.largestAcked == st.largestAcked && st'.lossTime == st.lossTime && st'.skipped == st.skipped
            && st'.largestReceivedWithAck == st.largestReceivedWithAck
  {
    PickDrop(st.history, l);
  }

  lemma AcknowledgedOnly(st: State, a: set<nat>)
    ensures var st' := Acknowledge(st, a);
            && st'.stop == st.stop && st'.largestReceivedWithAck == st.largestReceivedWithAck
            && st'.largestAcked == st.largestAcked && st'.lossTime == st.lossTime && st'.skipped == st.skipped
            && st'.acked == st.acked + a && st'.queue == st.queue
  {
  }

  lemma AnnouncesAlike(st: State, mid: State, st': State)
    requires AnnouncesNext(mid, st') && mid.stop == st.stop && mid.lost == st.lost
    requires forall p | p in mid.history :: p in st.history
    requires QueuesInOrder(mid, st') && QueuesInOrder(st, st') && mid.queue == st.queue
    ensures AnnouncesNext(st, st')
  {
    var ps :| st'.queue == mid.queue + ps && Ascending(ps)
              && forall p :: p in ps <==> p in mid.history && p.number in st'.lost;
    var qs :| st'.queue == st.queue + qs && Ascending(qs)
              && forall p :: p in qs <==> p in st.history && p.number in st'.lost;
    assert ps == st'.queue[|st.queue|..] == qs;
  }

  lemma SameAnnounced(st: State, st': State, s: State, s': State)
    requires AnnouncesNext(st, st') && s.history == st.history && s.stop == st.stop
    requires s'.stop == st'.stop && s'.lost == st'.lost
    ensures AnnouncesNext(s, s')
  {
  }

  lemma SameKept(mid: State, st: State, st': State)
    requires SkippedKept(mid, st') && mid.skipped == st.skipped
    ensures SkippedKept(st, st')
  {
  }

  // ---------- the alarm ----------

  // How many packets in flight were sent before this one.
  ghost function Before(h: seq<Packet>, p: Packet): nat {
    |set n | n in Numbers(h) && n < p.number|
  }

  lemma BeforeIsPosition(h: seq<Packet>, i: nat)
    requires Ascending(h) && i < |h|
    ensures Before(h, h[i]) == i
    ensures forall k: nat | k <= |h| :: h[i].number in Numbers(h[..k]) <==> i < k
  {
    CountNumbers(h, i);
    assert (set n | n in Numbers(h) && n < h[i].number) == Numbers(h[..i]) by {
      forall j | 0 <= j < |h| && h[j].number < h[i].number ensures h[j].number in Numbers(h[..i]) {
        assert h[..i][j] == h[j];
      }
    }
    forall k: nat | k <= |h| ensures h[i].number in Numbers(h[..k]) <==> i < k {
      if i < k {
        assert h[..k][i] == h[i];
      }
    }
  }

  lemma {:induction false} CountNumbers(h: seq<Packet>, i: nat)
    requires Ascending(h) && i <= |h|
    ensures |Numbers(h[..i])| == i
  {
    hide Ascending, Numbers;
    if i == 0 {
      NumbersNone(h[..0]);
    } else {
      CountNumbers(h, i - 1);
      PrefixNumbers(h, i - 1);
    }
  }

  lemma NumbersNone(h: seq<Packet>)
    requires h == []
    ensures Numbers(h) == {}
  {
  }

  // An alarm changes nothing but what concerns packets that go from the flight into the queue.
  ghost predicate OnlyQueues(st: State, st': State) {
    && st' == st.(history := st'.history, bytesInFlight := st'.bytesInFlight, queue := st'.queue, stop := st'.stop,
                  lossTime := st'.lossTime, rtoCount := st'.rtoCount, tlpCount := st'.tlpCount, lost := st'.lost)
    && QueuesInOrder(st, st') && AnnouncesNext(st, st')
  }

  ghost predicate DetectedLate(st: State, now: int, delay: int, st': State) {
    && (forall p | p in st.history ::
          if SentLongAgo(p, st.largestAcked, now, delay) then IsQueued(st', p) else p in st'.history)
    && NextTime(st'.history, st.largestAcked, delay, st'.lossTime)
    && st'.rtoCount == st.rtoCount && st'.tlpCount == st.tlpCount
  }

  // The newest packet in flight is sent again.
  ghost predicate Probed(st: State, st': State) {
    && (forall p | p in st.history ::
          if forall q | q in st.history :: q.number <= p.number then IsQueued(st', p) else p in st'.history)
    && st'.tlpCount == st.tlpCount + 1 && st'.rtoCount == st.rtoCount && st'.lossTime == st.lossTime
  }

  // The two oldest packets are sent again, or all of them if the path may have failed.
  ghost predicate TimedOut(st: State, failed: bool, st': State) {
    && (forall p | p in st.history ::
          if failed || Before(st.history, p) < 2 then IsQueued(st', p) else p in st'.history)
    && st'.rtoCount == st.rtoCount + 1 && st'.tlpCount == st.tlpCount && st'.lossTime == st.lossTime
  }

  lemma AlarmOutcome(st: State, now: int, delay: int, failed: bool)
    requires Inv(st)
    ensures var st' := AfterAlarm(st, now, delay, failed);
            if forall p | p in st.history :: !p.IsRetransmittable() then st' == st
            else
              && OnlyQueues(st, st')
              && if st.lossTime.Some? then DetectedLate(st, now, delay, st')
                 else if st.tlpCount < 2 then Probed(st, st')
                 else TimedOut(st, failed, st')
  {
    hide Inv, AfterAlarm, OnlyQueues, DetectedLate, Probed, TimedOut;
    InvParts(st);
    NoneLost(st);
    AlarmBranches(st, now, delay, failed);
    if p :| p in st.history && p.IsRetransmittable() {
      if st.lossTime.Some? {
        LateQueued(st, now, delay);
      } else if st.tlpCount < 2 {
        ProbeOutcome(st);
      } else {
        TimeoutOutcome(st, failed);
      }
    }
  }

  // The three branches, and none of them without anything that can be sent again.
  lemma AlarmBranches(st: State, now: int, delay: int, failed: bool)
    ensures var st' := AfterAlarm(st, now, delay, failed);
            if forall p | p in st.history :: !p.IsRetransmittable() then st' == st
            else if st.lossTime.Some? then st' == DetectLost(st, now, delay)
            else if st.tlpCount < 2 then
              st' == MarkLost(st, {st.history[|st.history| - 1].number}).(tlpCount := st.tlpCount + 1)
            else
              var n := if failed || |st.history| < 2 then |st.history| else 2;
              st' == MarkLost(st, Numbers(st.history[..n])).(rtoCount := st.rtoCount + 1)
  {
    hide MarkLost, DetectLost, Numbers;
    if p :| p in st.history && p.IsRetransmittable() {
      var i :| 0 <= i < |st.history| && st.history[i] == p;
    }
  }

  lemma LateQueued(st: State, now: int, delay: int)
    requires Ascending(st.history) && Numbers(st.history) !! st.lost
    ensures OnlyQueues(st, DetectLost(st, now, delay)) && DetectedLate(st, now, delay, DetectLost(st, now, delay))
  {
    hide DetectLost, Ascending, Numbers, QueuesInOrder, AnnouncesNext, NextTime, SentLongAgo, IsQueued;
    DetectOutcome(st, now, delay);
    DetectFrame(st, now, delay);
  }

  lemma DetectFrame(st: State, now: int, delay: int)
    ensures var st' := DetectLost(st, now, delay);
            st' == st.(history := st'.history, bytesInFlight := st'.bytesInFlight, queue := st'.queue,
                       stop := st'.stop, lossTime := st'.lossTime, lost := st'.lost)
  {
  }

  lemma LostFrame(st: State, l: set<nat>)
    ensures var st' := MarkLost(st, l);
            st' == st.(history := st'.history, bytesInFlight := st'.bytesInFlight, queue := st'.queue,
                       stop := st'.stop, lost := st'.lost)
  {
  }

  lemma ProbeOutcome(st: State)
    requires Ascending(st.history) && Numbers(st.history) !! st.lost && st.history != []
    ensures var st' := MarkLost(st, {st.history[|st.history| - 1].number}).(tlpCount := st.tlpCount + 1);
            OnlyQueues(st, st') && Probed(st, st')
  {
    hide MarkLost, Ascending, Numbers, QueuesInOrder, AnnouncesNext;
    var last := st.history[|st.history| - 1];
    var l := {last.number};
    LostInOrder(st, l);
    LostFrame(st, l);
    LastLargest(st.history);
    SameQueue(st, MarkLost(st, l), st, MarkLost(st, l).(tlpCount := st.tlpCount + 1));
    SameAnnounced(st, MarkLost(st, l), st, MarkLost(st, l).(tlpCount := st.tlpCount + 1));
    forall p | p in st.history
      ensures if forall q | q in st.history :: q.number <= p.number then IsQueued(MarkLost(st, l), p)
              else p in MarkLost(st, l).history
    {
      LostPacket(st, l, p);
      assert last in st.history;
    }
  }

  lemma TimeoutOutcome(st: State, failed: bool)
    requires Ascending(st.history) && Numbers(st.history) !! st.lost
    ensures var n := if failed || |st.history| < 2 then |st.history| else 2;
            var st' := MarkLost(st, Numbers(st.history[..n])).(rtoCount := st.rtoCount + 1);
            OnlyQueues(st, st') && TimedOut(st, failed, st')
  {
    hide MarkLost, Ascending, Numbers, QueuesInOrder, AnnouncesNext, Before;
    var n := if failed || |st.history| < 2 then |st.history| else 2;
    var l := Numbers(st.history[..n]);
    LostInOrder(st, l);
    LostFrame(st, l);
    SameQueue(st, MarkLost(st, l), st, MarkLost(st, l).(rtoCount := st.rtoCount + 1));
    SameAnnounced(st, MarkLost(st, l), st, MarkLost(st, l).(rtoCount := st.rtoCount + 1));
    forall p | p in st.history
      ensures if failed || Before(st.history, p) < 2 then IsQueued(MarkLost(st, l), p)
              else p in MarkLost(st, l).history
    {
      LostPacket(st, l, p);
      var i :| 0 <= i < |st.history| && st.history[i] == p;
      BeforeIsPosition(st.history, i);
    }
  }

  // When the path may have failed, one timeout leaves nothing in flight: all that was, is queued.
  lemma FailedTimeoutEmpties(st: State, now: int, delay: int)
    requires Inv(st) && st.lossTime.None? && st.tlpCount >= 2
    requires exists p :: p in st.history && p.IsRetransmittable()
    ensures var st' := AfterAlarm(st, now, delay, true);
            st'.history == [] && st'.bytesInFlight == 0 && st'.queue == st.queue + st.history
  {
    hide Inv, OnlyQueues, TimedOut;
    InvParts(st);
    assert st.history[..|st.history|] == st.history;
    PickAll(st.history, Numbers(st.history));
  }
}
