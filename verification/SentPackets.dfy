/**
 The sending side of the ack protocol: packets in flight, acknowledged packets, and lost
 packets that wait to be sent again.
 */
module SentPackets {
  import opened MinMax
  import opened Wire
  import opened Wrappers
  import opened PacketHistory
  import AckWalk
  import Stop = StopWaitingManager

  const MAX_TRACKED_SENT_PACKETS: nat := 5000
  const MAX_TRACKED_SKIPPED_PACKETS: nat := 10
  const MAX_TAIL_LOSS_PROBES: nat := 2

  datatype SendResult = Sent | PacketNumberNotIncreasing | TooManyTrackedSentPackets

  datatype AckResult = Processed | AckForUnsentPacket | DuplicateOrOutOfOrderAck | AckForSkippedPacket

  // The last four components record what has happened to the packets so far.
  datatype State = State(
    lastSent: nat,
    skipped: seq<nat>,
    largestAcked: nat,
    largestReceivedWithAck: nat,
    history: seq<Packet>,
    queue: seq<Packet>,
    bytesInFlight: nat,
    stop: Stop.State,
    lossTime: Option<int>,
    rtoCount: nat,
    tlpCount: nat,
    nonRetransmittable: nat,
    sent: set<nat>,     // all packet numbers sent
    tracked: set<nat>,  // those of retransmittable packets
    acked: set<nat>,    // those taken out of flight by an ACK
    lost: set<nat>)     // those taken out of flight and queued for retransmission

  // Numbers left out between sent packets.
  ghost predicate SkippedOk(st: State) {
    |st.skipped| <= MAX_TRACKED_SKIPPED_PACKETS && LeftOut(st.skipped, st.lastSent, st.sent)
  }

  ghost predicate LeftOut(s: seq<nat>, lastSent: nat, sent: set<nat>) {
    && (forall i :: 0 <= i < |s| ==> 0 < s[i] < lastSent && s[i] !in sent)
    && (forall i, j :: 0 <= i < j < |s| ==> s[i] < s[j])
  }

  // Every retransmittable packet ever sent is in exactly one place.
  ghost predicate Partition(st: State) {
    && st.tracked == Numbers(st.history) + st.acked + st.lost
    && Numbers(st.history) !! st.acked && Numbers(st.history) !! st.lost && st.acked !! st.lost
    && st.tracked <= st.sent
  }

  ghost predicate Inv(st: State) {
    && Ascending(st.history)
    && (forall n :: n in st.sent ==> 0 < n <= st.lastSent)
    && Partition(st)
    && st.bytesInFlight == SumLength(st.history)
    && SkippedOk(st)
    && st.largestAcked <= st.lastSent
    && Stop.Inv(st.stop) && st.stop.nextLeastUnacked <= st.lastSent + 1
  }

  const INIT_STATE: State :=
    State(0, [], 0, 0, [], [], 0, Stop.State(0, 0, None), None, 0, 0, 0, {}, {}, {}, {})

  // ---------- sending ----------

  ghost function From(lo: nat, hi: nat): seq<nat>
    requires lo <= hi
  {
    seq(hi - lo, i => lo + i)
  }

  ghost function LastTen(s: seq<nat>): seq<nat> {
    if |s| <= MAX_TRACKED_SKIPPED_PACKETS then s else s[|s| - MAX_TRACKED_SKIPPED_PACKETS..]
  }

  // A packet with retransmittable frames is tracked; what cannot be sent again is stripped off.
  ghost function Tracked(st: State, p: Packet): State {
    if p.frames != [] then
      st.(history := st.history + [p], bytesInFlight := st.bytesInFlight + p.length,
          nonRetransmittable := 0, tracked := st.tracked + {p.number})
    else st.(nonRetransmittable := st.nonRetransmittable + 1)
  }

  ghost function Recorded(st: State, packet: Packet): State {
    Tracked(st.(lastSent := packet.number, sent := st.sent + {packet.number}),
            packet.(frames := StripNonRetransmittable(packet.frames)))
  }

  // A packet has been sent; only the last few skipped numbers are remembered.
  ghost function AfterSend(st: State, packet: Packet): State
    requires st.lastSent < packet.number
  {
    Recorded(st.(skipped := LastTen(st.skipped + From(st.lastSent + 1, packet.number))), packet)
  }

  lemma LeftOutConcat(s: seq<nat>, t: seq<nat>, x: nat, lastSent: nat, sent: set<nat>)
    requires LeftOut(s, lastSent, sent) && LeftOut(t, lastSent, sent)
    requires forall i :: 0 <= i < |s| ==> s[i] < x
    requires forall i :: 0 <= i < |t| ==> x <= t[i]
    ensures LeftOut(s + t, lastSent, sent)
  {
  }

  lemma LeftOutSuffix(s: seq<nat>, k: nat, lastSent: nat, sent: set<nat>)
    requires LeftOut(s, lastSent, sent) && k <= |s|
    ensures LeftOut(s[k..], lastSent, sent)
  {
  }

  lemma LeftOutGrows(s: seq<nat>, lastSent: nat, sent: set<nat>, n: nat)
    requires LeftOut(s, lastSent, sent) && lastSent < n
    ensures LeftOut(s, n, sent + {n})
  {
  }

  lemma LeftOutBetween(lastSent: nat, n: nat, sent: set<nat>)
    requires lastSent < n && forall m :: m in sent ==> m <= lastSent
    ensures LeftOut(From(lastSent + 1, n), n, sent + {n})
  {
  }

  lemma AfterSendSkipped(st: State, packet: Packet)
    requires Inv(st) && st.lastSent < packet.number
    ensures SkippedOk(AfterSend(st, packet))
  {
    hide LeftOut;
    var n, sent := packet.number, st.sent + {packet.number};
    var between := From(st.lastSent + 1, n);
    LeftOutGrows(st.skipped, st.lastSent, st.sent, n);
    LeftOutBetween(st.lastSent, n, st.sent);
    SkippedBelow(st);
    LeftOutConcat(st.skipped, between, st.lastSent, n, sent);
    var all := st.skipped + between;
    if |all| > MAX_TRACKED_SKIPPED_PACKETS {
      LeftOutSuffix(all, |all| - MAX_TRACKED_SKIPPED_PACKETS, n, sent);
    }
  }

  lemma SkippedBelow(st: State)
    requires SkippedOk(st)
    ensures forall i :: 0 <= i < |st.skipped| ==> st.skipped[i] < st.lastSent
  {
  }

  lemma AfterSendInv(st: State, packet: Packet)
    requires Inv(st) && st.lastSent < packet.number
    ensures Inv(AfterSend(st, packet))
  {
    AfterSendSkipped(st, packet);
    var p := packet.(frames := StripNonRetransmittable(packet.frames));
    NumbersConcat(st.history, [p]);
    NumbersCons(p, []);
    assert [p] + [] == [p];
    SumLengthConcat(st.history, [p]);
    assert [p][1..] == [];
    forall i | 0 <= i < |st.history| ensures st.history[i].number <= st.lastSent {
      NumbersAt(st.history, i);
    }
  }

  // ---------- packets leave the flight ----------

  // Packets with numbers in a are acknowledged.
  ghost function Acknowledge(st: State, a: set<nat>): State {
    st.(history := Drop(st.history, a),
        bytesInFlight := SumLength(Drop(st.history, a)),
        rtoCount := if a == {} then st.rtoCount else 0,
        tlpCount := if a == {} then st.tlpCount else 0,
        acked := st.acked + a)
  }

  ghost function NextUnacked(next: nat, ps: seq<Packet>): nat {
    if ps == [] then next else Max(next, ps[|ps| - 1].number + 1)
  }

  // Packets with numbers in l are lost; they are queued in order.
  ghost function MarkLost(st: State, l: set<nat>): State {
    st.(history := Drop(st.history, l),
        bytesInFlight := SumLength(Drop(st.history, l)),
        queue := st.queue + Pick(st.history, l),
        stop := st.stop.(nextLeastUnacked := NextUnacked(st.stop.nextLeastUnacked, Pick(st.history, l))),
        lost := st.lost + l)
  }

  lemma AcknowledgeInv(st: State, a: set<nat>)
    requires Inv(st) && a <= Numbers(st.history)
    ensures Inv(Acknowledge(st, a))
  {
    PickDrop(st.history, a);
    PickDropAscending(st.history, a);
  }

  lemma MarkLostInv(st: State, l: set<nat>)
    requires Inv(st) && l <= Numbers(st.history)
    ensures Inv(MarkLost(st, l))
  {
    PickDrop(st.history, l);
    PickDropAscending(st.history, l);
    var ps := Pick(st.history, l);
    if ps != [] {
      NumbersAt(ps, |ps| - 1);
      assert ps[|ps| - 1].number in st.sent;
    }
  }

  lemma {:induction false} PickAppend(h: seq<Packet>, s: set<nat>, p: Packet)
    requires Ascending(h) && p in h
    requires forall n :: n in s ==> n < p.number
    ensures Pick(h, s + {p.number}) == Pick(h, s) + [p]
  {
    HeadTail(h);
    if h[0] == p {
      forall n | n in Numbers(h) ensures n !in s { }
      DropNone(h, s);
      DropNone(h[1..], s + {p.number});
    } else {
      assert p in h[1..];
      var i :| 0 <= i < |h| && h[i] == p;
      assert h[0].number < h[i].number;
      PickAppend(h[1..], s, p);
    }
  }

  lemma AcknowledgeOne(st: State, a: set<nat>, p: Packet)
    requires Inv(st) && a <= Numbers(st.history)
    requires p.number in Numbers(st.history) && p.number !in a
    ensures p.number in Numbers(Acknowledge(st, a).history)
    ensures Acknowledge(Acknowledge(st, a), {p.number}) == Acknowledge(st, a + {p.number})
  {
    PickDrop(st.history, a);
    DropDrop(st.history, a, {p.number});
  }

  lemma MarkLostOne(st: State, l: set<nat>, p: Packet)
    requires Inv(st) && l <= Numbers(st.history)
    requires p in st.history && forall n :: n in l ==> n < p.number
    ensures p in MarkLost(st, l).history
    ensures MarkLost(MarkLost(st, l), {p.number}) == MarkLost(st, l + {p.number})
  {
    hide Pick, Drop, SumLength, Ascending, SkippedOk, Partition;
    var h := st.history;
    InvAscending(st);
    DropDrop(h, l, {p.number});
    PickAppend(h, l, p);
    DropKeeps(h, l, p);
    PickOnly(Drop(h, l), p);
    PickBound(h, l, p.number);
  }

  lemma InvAscending(st: State)
    requires Inv(st)
    ensures Ascending(st.history)
    ensures forall s: set<nat> :: Ascending(Drop(st.history, s))
  {
    forall s: set<nat> ensures Ascending(Drop(st.history, s)) {
      PickDropAscending(st.history, s);
    }
  }

  lemma PickOnly(h: seq<Packet>, p: Packet)
    requires Ascending(h) && p in h
    ensures Pick(h, {p.number}) == [p]
  {
    PickAppend(h, {}, p);
    DropNone(h, {});
    assert {} + {p.number} == {p.number};
  }

  lemma {:induction false} DropKeeps(h: seq<Packet>, s: set<nat>, p: Packet)
    requires p in h && p.number !in s
    ensures p in Drop(h, s)
  {
    if h[0] != p {
      assert p in h[1..];
      DropKeeps(h[1..], s, p);
    }
  }

  lemma PickBound(h: seq<Packet>, s: set<nat>, n: nat)
    requires forall m :: m in s ==> m < n
    ensures Pick(h, s) != [] ==> Pick(h, s)[|Pick(h, s)| - 1].number < n
  {
    PickDrop(h, s);
    if Pick(h, s) != [] {
      NumbersAt(Pick(h, s), |Pick(h, s)| - 1);
    }
  }

  lemma {:induction false} PickIn(h: seq<Packet>, s: set<nat>)
    ensures forall p :: p in Pick(h, s) ==> p in h && p.number in s
  {
    if h != [] {
      PickIn(h[1..], s);
    }
  }

  lemma LengthOne(h: seq<Packet>, p: Packet)
    requires Ascending(h) && p in h
    ensures p.number in Numbers(h)
    ensures SumLength(h) == p.length + SumLength(Drop(h, {p.number}))
  {
    PickOnly(h, p);
    PickDrop(h, {p.number});
    assert [p][1..] == [];
    var i :| 0 <= i < |h| && h[i] == p;
    NumbersAt(h, i);
  }

  lemma PrefixNumbers(ps: seq<Packet>, i: nat)
    requires Ascending(ps) && i < |ps|
    ensures forall n :: n in Numbers(ps[..i]) ==> n < ps[i].number && n in Numbers(ps)
    ensures Numbers(ps[..i + 1]) == Numbers(ps[..i]) + {ps[i].number}
    ensures ps[i].number in Numbers(ps)
  {
    assert ps[..i + 1] == ps[..i] + [ps[i]];
    NumbersConcat(ps[..i], [ps[i]]);
    NumbersCons(ps[i], []);
    assert [ps[i]] + [] == [ps[i]];
  }

  // The packets picked by l, one after the other.
  lemma PickedOneByOne(h: seq<Packet>, l: set<nat>, i: nat)
    requires Ascending(h) && l <= Numbers(h)
    ensures Numbers(Pick(h, l)) == l
    ensures var ps := Pick(h, l);
            i < |ps| ==>
              && ps[i] in h && ps[i].number in l
              && (forall n :: n in Numbers(ps[..i]) ==> n < ps[i].number && n in l)
              && Numbers(ps[..i + 1]) == Numbers(ps[..i]) + {ps[i].number}
  {
    hide Pick, Ascending, Numbers;
    PickDrop(h, l);
    PickDropAscending(h, l);
    PickIn(h, l);
    var ps := Pick(h, l);
    if i < |ps| {
      PrefixNumbers(ps, i);
    }
  }

  // ---------- loss detection ----------

  ghost predicate Late(p: Packet, largestAcked: nat, now: int, delay: int) {
    p.number <= largestAcked && now - p.sendTime > delay
  }

  ghost function LateNumbers(h: seq<Packet>, largestAcked: nat, now: int, delay: int): set<nat> {
    set i | 0 <= i < |h| && Late(h[i], largestAcked, now, delay) :: h[i].number
  }

  // When the oldest packet that is not late yet will be late.
  ghost function NextLossTime(h: seq<Packet>, largestAcked: nat, now: int, delay: int): Option<int> {
    if h == [] || h[0].number > largestAcked then None
    else if Late(h[0], largestAcked, now, delay) then NextLossTime(h[1..], largestAcked, now, delay)
    else Some(now + (delay - (now - h[0].sendTime)))
  }

  lemma LateOne(h: seq<Packet>, largestAcked: nat, now: int, delay: int, i: nat)
    requires Ascending(h) && i < |h|
    ensures var s := LateNumbers(h, largestAcked, now, delay);
            Pick(h[..i + 1], s) == Pick(h[..i], s) + if Late(h[i], largestAcked, now, delay) then [h[i]] else []
  {
    var s := LateNumbers(h, largestAcked, now, delay);
    assert h[..i + 1] == h[..i] + [h[i]];
    PickConcat(h[..i], [h[i]], s);
    assert [h[i]][1..] == [];
    assert h[i].number in s <==> Late(h[i], largestAcked, now, delay);
  }

  lemma NotLateAbove(h: seq<Packet>, largestAcked: nat, now: int, delay: int, i: nat)
    requires Ascending(h) && i <= |h|
    requires i < |h| ==> largestAcked < h[i].number
    ensures Numbers(h[i..]) !! LateNumbers(h, largestAcked, now, delay)
  {
    forall n | n in Numbers(h[i..]) ensures n !in LateNumbers(h, largestAcked, now, delay) {
      var k :| 0 <= k < |h[i..]| && h[i..][k].number == n;
      assert n == h[i + k].number;
    }
  }

  lemma NoneLateAbove(h: seq<Packet>, largestAcked: nat, now: int, delay: int, i: nat)
    requires Ascending(h) && i <= |h|
    requires i < |h| ==> largestAcked < h[i].number
    ensures var s := LateNumbers(h, largestAcked, now, delay); Pick(h, s) == Pick(h[..i], s)
  {
    hide Pick, Drop, LateNumbers, Ascending;
    var s := LateNumbers(h, largestAcked, now, delay);
    NotLateAbove(h, largestAcked, now, delay, i);
    DropNone(h[i..], s);
    assert h == h[..i] + h[i..];
    PickConcat(h[..i], h[i..], s);
  }

  lemma LateSubset(h: seq<Packet>, largestAcked: nat, now: int, delay: int)
    ensures LateNumbers(h, largestAcked, now, delay) <= Numbers(h)
  {
  }

  // ---------- the effect of whole operations ----------

  ghost function LargestInOrderAcked(st: State): int {
    if st.history != [] then st.history[0].number - 1 else st.largestAcked
  }

  ghost function KeepAbove(s: seq<nat>, n: int): seq<nat> {
    if s == [] then [] else if s[0] <= n then KeepAbove(s[1..], n) else s
  }

  ghost function CollectSkipped(st: State): State {
    st.(skipped := KeepAbove(st.skipped, LargestInOrderAcked(st)))
  }

  ghost function DetectLost(st: State, now: int, delay: int): State {
    MarkLost(st.(lossTime := NextLossTime(st.history, st.largestAcked, now, delay)),
             LateNumbers(st.history, st.largestAcked, now, delay))
  }

  ghost function InflightLost(st: State): State {
    MarkLost(st, set n | n in Numbers(st.history) && n <= st.largestAcked)
  }

  // An ACK frame that is neither out of order nor a repetition.
  ghost function AfterAck(st: State, ack: AckFrame, withPacketNumber: nat, now: int, delay: int): State {
    var s1 := st.(largestReceivedWithAck := withPacketNumber, largestAcked := ack.largestAcked);
    var s2 := Acknowledge(s1, AckWalk.AckedNumbers(s1.history, ack));
    var s3 := CollectSkipped(DetectLost(s2, now, delay));
    s3.(stop := s3.stop.(nextLeastUnacked := Max(s3.stop.nextLeastUnacked, ack.largestAcked + 1)))
  }

  ghost function AfterClosePath(st: State, f: AckFrame, withPacketNumber: nat): State {
    var s1 := st.(largestReceivedWithAck := withPacketNumber);
    CollectSkipped(InflightLost(Acknowledge(s1, AckWalk.AckedNumbers(s1.history, f))))
  }

  ghost predicate AcksSkipped(st: State, ack: AckFrame) {
    exists i :: 0 <= i < |st.skipped| && ack.AcksPacket(st.skipped[i])
  }

  ghost predicate AckSpec(st: State, ack: AckFrame, withPacketNumber: nat, now: int, delay: int,
                          r: AckResult, st': State) {
    if ack.largestAcked > st.lastSent then r == AckForUnsentPacket && st' == st
    else if withPacketNumber <= st.largestReceivedWithAck then r == DuplicateOrOutOfOrderAck && st' == st
    else if ack.largestAcked <= LargestInOrderAcked(st) then
      r == Processed && st' == st.(largestReceivedWithAck := withPacketNumber)
    else if AcksSkipped(st, ack) then
      r == AckForSkippedPacket
      && st' == st.(largestReceivedWithAck := withPacketNumber, largestAcked := ack.largestAcked)
    else
      r == Processed && st' == AfterAck(st, ack, withPacketNumber, now, delay)
  }

  ghost predicate ClosePathSpec(st: State, f: AckFrame, withPacketNumber: nat, r: AckResult, st': State) {
    if f.largestAcked > st.lastSent then r == AckForUnsentPacket && st' == st
    else if withPacketNumber <= st.largestReceivedWithAck then r == DuplicateOrOutOfOrderAck && st' == st
    else if AcksSkipped(st, f) then
      r == AckForSkippedPacket && st' == st.(largestReceivedWithAck := withPacketNumber)
    else r == Processed && st' == AfterClosePath(st, f, withPacketNumber)
  }

  // Loss detection if a loss time is set, else one probe, else two or all packets again.
  ghost function AfterAlarm(st: State, now: int, delay: int, failed: bool): State {
    if forall i :: 0 <= i < |st.history| ==> !st.history[i].IsRetransmittable() then st
    else if st.lossTime.Some? then DetectLost(st, now, delay)
    else if st.tlpCount < MAX_TAIL_LOSS_PROBES then
      MarkLost(st, {st.history[|st.history| - 1].number}).(tlpCount := st.tlpCount + 1)
    else
      var n := if failed || |st.history| < 2 then |st.history| else 2;
      MarkLost(st, Numbers(st.history[..n])).(rtoCount := st.rtoCount + 1)
  }

  // ---------- the invariant is kept ----------

  lemma {:induction false} KeepAboveSuffix(s: seq<nat>, n: int)
    ensures exists k :: 0 <= k <= |s| && KeepAbove(s, n) == s[k..]
  {
    if s != [] && s[0] <= n {
      KeepAboveSuffix(s[1..], n);
      var k :| 0 <= k <= |s[1..]| && KeepAbove(s[1..], n) == s[1..][k..];
      assert s[1..][k..] == s[k + 1..];
      assert KeepAbove(s, n) == s[k + 1..];
    } else {
      assert KeepAbove(s, n) == s[0..];
    }
  }

  lemma CollectSkippedInv(st: State)
    requires Inv(st)
    ensures Inv(CollectSkipped(st))
  {
    var n := LargestInOrderAcked(st);
    KeepAboveSuffix(st.skipped, n);
    var k :| 0 <= k <= |st.skipped| && KeepAbove(st.skipped, n) == st.skipped[k..];
    LeftOutSuffix(st.skipped, k, st.lastSent, st.sent);
  }

  lemma DetectLostInv(st: State, now: int, delay: int)
    requires Inv(st)
    ensures Inv(DetectLost(st, now, delay))
  {
    LateSubset(st.history, st.largestAcked, now, delay);
    MarkLostInv(st.(lossTime := NextLossTime(st.history, st.largestAcked, now, delay)),
                LateNumbers(st.history, st.largestAcked, now, delay));
  }

  lemma AfterAckInv(st: State, ack: AckFrame, withPacketNumber: nat, now: int, delay: int)
    requires Inv(st) && ack.largestAcked <= st.lastSent
    ensures Inv(AfterAck(st, ack, withPacketNumber, now, delay))
  {
    hide Inv, DetectLost, CollectSkipped;
    var s1 := st.(largestReceivedWithAck := withPacketNumber, largestAcked := ack.largestAcked);
    AckNumbersInv(st, withPacketNumber, ack.largestAcked);
    AcknowledgeInv(s1, AckWalk.AckedNumbers(s1.history, ack));
    var s2 := Acknowledge(s1, AckWalk.AckedNumbers(s1.history, ack));
    DetectLostInv(s2, now, delay);
    CollectSkippedInv(DetectLost(s2, now, delay));
    LastSentSame(s2, now, delay);
    StopInv(CollectSkipped(DetectLost(s2, now, delay)), ack);
  }

  lemma AckNumbersInv(st: State, withPacketNumber: nat, largestAcked: nat)
    requires Inv(st) && largestAcked <= st.lastSent
    ensures Inv(st.(largestReceivedWithAck := withPacketNumber, largestAcked := largestAcked))
    ensures Inv(st.(largestReceivedWithAck := withPacketNumber))
  {
  }

  lemma LastSentSame(st: State, now: int, delay: int)
    ensures CollectSkipped(DetectLost(st, now, delay)).lastSent == st.lastSent
    ensures forall s: State, a: set<nat> :: Acknowledge(s, a).lastSent == s.lastSent
  {
  }

  lemma StopInv(st: State, ack: AckFrame)
    requires Inv(st) && ack.largestAcked <= st.lastSent
    ensures Stop.Inv(st.stop)
    ensures Inv(st.(stop := st.stop.(nextLeastUnacked := Max(st.stop.nextLeastUnacked, ack.largestAcked + 1))))
  {
  }

  lemma AfterClosePathInv(st: State, f: AckFrame, withPacketNumber: nat)
    requires Inv(st)
    ensures Inv(AfterClosePath(st, f, withPacketNumber))
  {
    hide Inv, CollectSkipped;
    var s1 := st.(largestReceivedWithAck := withPacketNumber);
    AckNumbersInv(st, withPacketNumber, 0);
    AcknowledgeInv(s1, AckWalk.AckedNumbers(s1.history, f));
    var s2 := Acknowledge(s1, AckWalk.AckedNumbers(s1.history, f));
    MarkLostInv(s2, set n | n in Numbers(s2.history) && n <= s2.largestAcked);
    CollectSkippedInv(InflightLost(s2));
  }

  lemma SomeNumbers(st: State, n: nat)
    requires n <= |st.history|
    ensures Numbers(st.history[..n]) <= Numbers(st.history)
    ensures st.history != [] ==> {st.history[|st.history| - 1].number} <= Numbers(st.history)
  {
    assert st.history == st.history[..n] + st.history[n..];
    NumbersConcat(st.history[..n], st.history[n..]);
    if st.history != [] {
      NumbersAt(st.history, |st.history| - 1);
    }
  }

  lemma CountersInv(st: State, tlpCount: nat, rtoCount: nat)
    requires Inv(st)
    ensures Inv(st.(tlpCount := tlpCount)) && Inv(st.(rtoCount := rtoCount))
  {
  }

  lemma AfterAlarmInv(st: State, now: int, delay: int, failed: bool)
    requires Inv(st)
    ensures Inv(AfterAlarm(st, now, delay, failed))
  {
    hide Inv, MarkLost, DetectLost, Numbers;
    if exists i :: 0 <= i < |st.history| && st.history[i].IsRetransmittable() {
      var n := if failed || |st.history| < 2 then |st.history| else 2;
      SomeNumbers(st, n);
      if st.lossTime.Some? {
        DetectLostInv(st, now, delay);
      } else if st.tlpCount < MAX_TAIL_LOSS_PROBES {
        var l := {st.history[|st.history| - 1].number};
        MarkLostInv(st, l);
        CountersInv(MarkLost(st, l), st.tlpCount + 1, 0);
      } else {
        var l := Numbers(st.history[..n]);
        MarkLostInv(st, l);
        CountersInv(MarkLost(st, l), 0, st.rtoCount + 1);
      }
    }
  }

  // ---------- the handler ----------

  class Handler {
    var lastSentPacketNumber: nat
    var skippedPackets: seq<nat>
    var numNonRetransmittablePackets: nat
    var largestAcked: nat
    var largestReceivedPacketWithAck: nat
    var packetHistory: seq<Packet>
    const stopWaitingManager: Stop.Manager
    var retransmissionQueue: seq<Packet>
    var bytesInFlight: nat
    var rtoCount: nat
    var tlpCount: nat
    var lossTime: Option<int>
    // statistics
    var packets: nat
    var retransmissions: nat
    var losses: nat

    ghost var sent: set<nat>
    ghost var tracked: set<nat>
    ghost var acked: set<nat>
    ghost var lost: set<nat>

    ghost function View(): State
      reads this, stopWaitingManager
    {
      State(lastSentPacketNumber, skippedPackets, largestAcked, largestReceivedPacketWithAck,
            packetHistory, retransmissionQueue, bytesInFlight, stopWaitingManager.View(), lossTime,
            rtoCount, tlpCount, numNonRetransmittablePackets, sent, tracked, acked, lost)
    }

    constructor ()
      ensures View() == INIT_STATE && Inv(View()) && fresh(stopWaitingManager)
    {
      stopWaitingManager := new Stop.Manager();
      lastSentPacketNumber, skippedPackets, numNonRetransmittablePackets := 0, [], 0;
      largestAcked, largestReceivedPacketWithAck := 0, 0;
      packetHistory, retransmissionQueue, bytesInFlight := [], [], 0;
      rtoCount, tlpCount, lossTime := 0, 0, None;
      packets, retransmissions, losses := 0, 0, 0;
      sent, tracked, acked, lost := {}, {}, {}, {};
    }

    // Remembers the packet numbers between the last packet and this one.
    method SkipUpTo(number: nat)
      requires lastSentPacketNumber < number && |skippedPackets| <= MAX_TRACKED_SKIPPED_PACKETS
      modifies this`skippedPackets
      ensures skippedPackets == LastTen(old(skippedPackets) + From(lastSentPacketNumber + 1, number))
    {
      hide LastTen, From;
      SkipNone(skippedPackets, lastSentPacketNumber + 1);
      var p := lastSentPacketNumber + 1;
      while p < number
        invariant lastSentPacketNumber + 1 <= p <= number
        invariant skippedPackets == LastTen(old(skippedPackets) + From(lastSentPacketNumber + 1, p))
      {
        SkipOne(old(skippedPackets), lastSentPacketNumber + 1, p);
        skippedPackets := skippedPackets + [p];
        if |skippedPackets| > MAX_TRACKED_SKIPPED_PACKETS {
          skippedPackets := skippedPackets[1..];
        }
        p := p + 1;
      }
    }

    method SentPacket(packet: Packet) returns (r: SendResult)
      requires Inv(View())
      modifies this
      ensures r.PacketNumberNotIncreasing? <==> packet.number <= old(lastSentPacketNumber)
      ensures r.TooManyTrackedSentPackets? <==>
              old(lastSentPacketNumber) < packet.number
              && |old(retransmissionQueue)| + |old(packetHistory)| + 1 > MAX_TRACKED_SENT_PACKETS
      ensures r.Sent? ==> View() == AfterSend(old(View()), packet)
      ensures !r.Sent? ==> View() == old(View())
      ensures Inv(View())
    {
      hide Inv, LastTen, From, Recorded;
      ghost var st := View();
      if packet.number <= lastSentPacketNumber {
        return PacketNumberNotIncreasing;
      }
      if |retransmissionQueue| + |packetHistory| + 1 > MAX_TRACKED_SENT_PACKETS {
        return TooManyTrackedSentPackets;
      }
      InvParts(st);
      SkipUpTo(packet.number);
      Record(packet);
      AfterSendInv(st, packet);
      r := Sent;
    }

    method Record(packet: Packet)
      modifies this
      ensures View() == Recorded(old(View()), packet)
    {
      hide Tracked;
      lastSentPacketNumber := packet.number;
      packets := packets + 1;
      sent := sent + {packet.number};
      Track(packet.(frames := StripNonRetransmittable(packet.frames)));
    }

    method Track(stripped: Packet)
      modifies this
      ensures View() == Tracked(old(View()), stripped)
    {
      if stripped.frames != [] {
        bytesInFlight := bytesInFlight + stripped.length;
        packetHistory := packetHistory + [stripped];
        numNonRetransmittablePackets := 0;
        tracked := tracked + {stripped.number};
      } else {
        numNonRetransmittablePackets := numNonRetransmittablePackets + 1;
      }
    }

    method OnPacketAcked(p: Packet)
      requires Inv(View()) && p in packetHistory
      modifies this
      ensures View() == Acknowledge(old(View()), {p.number}) && Inv(View())
    {
      ghost var st := View();
      LengthOne(packetHistory, p);
      AcknowledgeInv(st, {p.number});
      bytesInFlight := bytesInFlight - p.length;
      rtoCount := 0;
      tlpCount := 0;
      packetHistory := Drop(packetHistory, {p.number});
      acked := acked + {p.number};
    }

    method QueuePacketForRetransmission(p: Packet)
      requires Inv(View()) && p in packetHistory
      modifies this, stopWaitingManager
      ensures View() == MarkLost(old(View()), {p.number}) && Inv(View())
      ensures losses == old(losses)
    {
      ghost var st := View();
      LengthOne(packetHistory, p);
      PickOnly(packetHistory, p);
      MarkLostInv(st, {p.number});
      bytesInFlight := bytesInFlight - p.length;
      retransmissionQueue := retransmissionQueue + [p];
      packetHistory := Drop(packetHistory, {p.number});
      stopWaitingManager.QueuedRetransmissionForPacketNumber(p.number);
      lost := lost + {p.number};
    }

    // Takes the packets of ps, those with numbers in a, out of flight as acknowledged.
    method AckAll(ps: seq<Packet>, ghost a: set<nat>)
      requires Inv(View()) && a <= Numbers(packetHistory) && ps == Pick(packetHistory, a)
      modifies this
      ensures View() == Acknowledge(old(View()), a) && Inv(View())
    {
      hide Inv, Numbers, Pick, Acknowledge;
      ghost var st := View();
      AcknowledgeNone(st);
      var i := 0;
      while i < |ps|
        invariant i <= |ps| && Inv(View())
        invariant View() == Acknowledge(st, Numbers(ps[..i]))
      {
        AckNext(st, a, ps, i);
        OnPacketAcked(ps[i]);
        i := i + 1;
      }
      AckDone(st, a, ps);
    }

    // Takes the packets of ps, those with numbers in l, out of flight and queues them.
    method QueueAll(ps: seq<Packet>, ghost l: set<nat>)
      requires Inv(View()) && l <= Numbers(packetHistory) && ps == Pick(packetHistory, l)
      modifies this, stopWaitingManager
      ensures View() == MarkLost(old(View()), l) && Inv(View())
      ensures losses == old(losses)
    {
      hide Inv, Numbers, Pick, MarkLost;
      ghost var st := View();
      MarkLostNone(st);
      var i := 0;
      while i < |ps|
        invariant i <= |ps| && Inv(View())
        invariant View() == MarkLost(st, Numbers(ps[..i]))
        invariant losses == old(losses)
      {
        LostNext(st, l, ps, i);
        QueuePacketForRetransmission(ps[i]);
        i := i + 1;
      }
      LostDone(st, l, ps);
    }

    function LargestInOrder(): int
      reads this
    {
      if packetHistory != [] then packetHistory[0].number - 1 else largestAcked
    }

    // Packets up to the largest acknowledged one that were sent too long ago.
    method CollectLate(now: int, delayUntilLost: int) returns (late: seq<Packet>)
      requires Inv(View())
      modifies this`lossTime, this`losses
      ensures late == Pick(packetHistory, LateNumbers(packetHistory, largestAcked, now, delayUntilLost))
      ensures lossTime == NextLossTime(packetHistory, largestAcked, now, delayUntilLost)
      ensures losses == old(losses) + |late|
    {
      hide Inv, Pick, LateNumbers, Late;
      ghost var h := packetHistory;
      InvParts(View());
      lossTime := None;
      late := [];
      PickEmpty(LateNumbers(h, largestAcked, now, delayUntilLost));
      var i := 0;
      while i < |packetHistory|
        invariant i <= |h|
        invariant late == Pick(h[..i], LateNumbers(h, largestAcked, now, delayUntilLost))
        invariant losses == old(losses) + |late|
        invariant if lossTime.None?
                  then NextLossTime(h, largestAcked, now, delayUntilLost) ==
                       NextLossTime(h[i..], largestAcked, now, delayUntilLost)
                  else lossTime == NextLossTime(h, largestAcked, now, delayUntilLost)
      {
        var packet := packetHistory[i];
        NextLossTimeStep(h, largestAcked, now, delayUntilLost, i);
        LateOne(h, largestAcked, now, delayUntilLost, i);
        LateIs(packet, largestAcked, now, delayUntilLost);
        if packet.number > largestAcked {
          break;
        }
        var timeSinceSent := now - packet.sendTime;
        if timeSinceSent > delayUntilLost {
          losses := losses + 1;
          late := late + [packet];
        } else if lossTime.None? {
          lossTime := Some(now + (delayUntilLost - timeSinceSent));
        }
        i := i + 1;
      }
      NoneLateAbove(h, largestAcked, now, delayUntilLost, i);
      NextLossTimeEnd(h, largestAcked, now, delayUntilLost, i);
    }

    method DetectLostPackets(now: int, delayUntilLost: int)
      requires Inv(View())
      modifies this, stopWaitingManager
      ensures View() == DetectLost(old(View()), now, delayUntilLost) && Inv(View())
    {
      hide Inv, MarkLost, LateNumbers, NextLossTime, Pick;
      ghost var st := View();
      LateSubset(packetHistory, largestAcked, now, delayUntilLost);
      LossTimeInv(st, NextLossTime(packetHistory, largestAcked, now, delayUntilLost));
      ghost var l := LateNumbers(packetHistory, largestAcked, now, delayUntilLost);
      var late := CollectLate(now, delayUntilLost);
      QueueAll(late, l);
    }

    method SetInflightAsLost()
      requires Inv(View())
      modifies this, stopWaitingManager
      ensures View() == InflightLost(old(View())) && Inv(View())
    {
      hide Inv, MarkLost, Pick;
      ghost var l := set n | n in Numbers(packetHistory) && n <= largestAcked;
      InvParts(View());
      var lostPackets: seq<Packet> := [];
      PickEmpty(l);
      var i := 0;
      while i < |packetHistory|
        invariant i <= |packetHistory|
        invariant lostPackets == Pick(packetHistory[..i], l)
        invariant View() == old(View())
      {
        PickNext(packetHistory, l, i);
        NumbersAt(packetHistory, i);
        if packetHistory[i].number > largestAcked {
          break;
        }
        losses := losses + 1;
        lostPackets := lostPackets + [packetHistory[i]];
        i := i + 1;
      }
      PickPrefix(packetHistory, l, i, largestAcked);
      QueueAll(lostPackets, l);
    }

    method SkippedPacketsAcked(ack: AckFrame) returns (b: bool)
      ensures b <==> AcksSkipped(View(), ack)
    {
      var i := 0;
      while i < |skippedPackets|
        invariant i <= |skippedPackets|
        invariant forall k :: 0 <= k < i ==> !ack.AcksPacket(skippedPackets[k])
      {
        if ack.AcksPacket(skippedPackets[i]) {
          return true;
        }
        i := i + 1;
      }
      b := false;
    }

    method GarbageCollectSkippedPackets()
      requires Inv(View())
      modifies this`skippedPackets
      ensures View() == CollectSkipped(old(View())) && Inv(View())
    {
      hide Inv;
      ghost var st := View();
      CollectSkippedInv(st);
      InvSkipped(st);
      var lioa := LargestInOrder();
      var deleteIndex := 0;
      var i := 0;
      while i < |skippedPackets|
        invariant i <= |skippedPackets| && deleteIndex <= i
        invariant deleteIndex > 0 ==> skippedPackets[deleteIndex - 1] <= lioa
        invariant forall k :: deleteIndex <= k < i ==> skippedPackets[k] > lioa
      {
        if skippedPackets[i] <= lioa {
          deleteIndex := i + 1;
        }
        i := i + 1;
      }
      KeepAboveIs(skippedPackets, lioa, deleteIndex);
      skippedPackets := skippedPackets[deleteIndex..];
    }

    // The clock and the delay after which a packet counts as lost come from outside. The
    // parser lets only well-formed frames through; for those the walk over the ranges cannot
    // fail.
    method ReceivedAck(ack: AckFrame, withPacketNumber: nat, now: int, delayUntilLost: int) returns (r: AckResult)
      requires Inv(View()) && ack.WellFormed()
      modifies this, stopWaitingManager
      ensures AckSpec(old(View()), ack, withPacketNumber, now, delayUntilLost, r, View())
      ensures Inv(View())
    {
      hide Inv, Acknowledge, DetectLost, CollectSkipped, Pick, AckWalk.AckedNumbers;
      AckNumbersInv(View(), withPacketNumber, if ack.largestAcked <= lastSentPacketNumber then ack.largestAcked else 0);
      if ack.largestAcked > lastSentPacketNumber {
        return AckForUnsentPacket;
      }
      if withPacketNumber <= largestReceivedPacketWithAck {
        return DuplicateOrOutOfOrderAck;
      }
      largestReceivedPacketWithAck := withPacketNumber;
      if ack.largestAcked <= LargestInOrder() {
        return Processed;
      }
      largestAcked := ack.largestAcked;
      var skippedAcked := SkippedPacketsAcked(ack);
      if skippedAcked {
        return AckForSkippedPacket;
      }
      InvParts(View());
      var ackedPackets, bug := AckWalk.DetermineNewlyAckedPackets(packetHistory, ack);
      if bug {
        assert false;
      }
      AckedSubset(View(), ack);
      AckAll(ackedPackets, AckWalk.AckedNumbers(packetHistory, ack));
      LastSentSame(View(), now, delayUntilLost);
      DetectLostPackets(now, delayUntilLost);
      GarbageCollectSkippedPackets();
      StopInv(View(), ack);
      stopWaitingManager.ReceivedAck(ack);
      r := Processed;
    }

    method ReceivedClosePath(f: AckFrame, withPacketNumber: nat) returns (r: AckResult)
      requires Inv(View()) && f.WellFormed()
      modifies this, stopWaitingManager
      ensures ClosePathSpec(old(View()), f, withPacketNumber, r, View())
      ensures Inv(View())
    {
      hide Inv, Acknowledge, InflightLost, CollectSkipped, Pick, AckWalk.AckedNumbers;
      AckNumbersInv(View(), withPacketNumber, 0);
      if f.largestAcked > lastSentPacketNumber {
        return AckForUnsentPacket;
      }
      if withPacketNumber <= largestReceivedPacketWithAck {
        return DuplicateOrOutOfOrderAck;
      }
      largestReceivedPacketWithAck := withPacketNumber;
      var skippedAcked := SkippedPacketsAcked(f);
      if skippedAcked {
        return AckForSkippedPacket;
      }
      InvParts(View());
      var ackedPackets, bug := AckWalk.DetermineNewlyAckedPackets(packetHistory, f);
      if bug {
        assert false;
      }
      AckedSubset(View(), f);
      AckAll(ackedPackets, AckWalk.AckedNumbers(packetHistory, f));
      SetInflightAsLost();
      GarbageCollectSkippedPackets();
      r := Processed;
    }

    method HasOutstandingRetransmittablePacket() returns (b: bool)
      ensures b <==> exists i :: 0 <= i < |packetHistory| && packetHistory[i].IsRetransmittable()
    {
      var i := 0;
      while i < |packetHistory|
        invariant i <= |packetHistory|
        invariant forall k :: 0 <= k < i ==> !packetHistory[k].IsRetransmittable()
      {
        if packetHistory[i].IsRetransmittable() {
          return true;
        }
        i := i + 1;
      }
      b := false;
    }

    // The oldest packets are queued again, n of them.
    method RetransmitOldest(n: nat)
      requires Inv(View()) && n <= |packetHistory|
      modifies this, stopWaitingManager
      ensures View() == MarkLost(old(View()), Numbers(old(packetHistory)[..n])) && Inv(View())
    {
      hide Inv, MarkLost, Numbers;
      ghost var st := View();
      MarkLostNone(st);
      assert packetHistory[..0] == [];
      var i := 0;
      while i < n
        invariant i <= n && Inv(View())
        invariant View() == MarkLost(st, Numbers(st.history[..i]))
      {
        OldestNext(st, i);
        // queueRTO of the packet at the front
        QueuePacketForRetransmission(packetHistory[0]);
        losses := losses + 1;
        i := i + 1;
      }
    }

    // The alarm has gone off; failed says that nothing was received since the last packet was sent.
    method OnAlarm(now: int, delayUntilLost: int, failed: bool)
      requires Inv(View())
      modifies this, stopWaitingManager
      ensures View() == AfterAlarm(old(View()), now, delayUntilLost, failed) && Inv(View())
    {
      hide Inv, MarkLost, DetectLost, Numbers;
      ghost var st := View();
      AfterAlarmInv(st, now, delayUntilLost, failed);
      InvParts(st);
      var outstanding := HasOutstandingRetransmittablePacket();
      if !outstanding {
        return;
      }
      if lossTime.Some? {
        DetectLostPackets(now, delayUntilLost);
      } else if tlpCount < MAX_TAIL_LOSS_PROBES {
        var p := packetHistory[|packetHistory| - 1];
        QueuePacketForRetransmission(p);
        MarkLostCounters(st, {p.number});
        tlpCount := tlpCount + 1;
      } else {
        var n := if failed || |packetHistory| < 2 then |packetHistory| else 2;
        RetransmitOldest(n);
        MarkLostCounters(st, Numbers(st.history[..n]));
        rtoCount := rtoCount + 1;
      }
    }

    method DequeuePacketForRetransmission() returns (p: Option<Packet>)
      requires Inv(View())
      modifies this
      ensures p == if old(retransmissionQueue) == [] then None else Some(old(retransmissionQueue)[0])
      ensures View() == old(View()).(queue := if p.None? then [] else old(retransmissionQueue)[1..])
      ensures Inv(View())
    {
      if |retransmissionQueue| == 0 {
        return None;
      }
      p := Some(retransmissionQueue[0]);
      retransmissionQueue := retransmissionQueue[1..];
      retransmissions := retransmissions + 1;
    }

    // The packet stays in flight, so it may end up in the queue twice.
    method DuplicatePacket(p: Packet)
      requires Inv(View())
      modifies this
      ensures View() == old(View()).(queue := old(retransmissionQueue) + [p]) && Inv(View())
    {
      retransmissionQueue := retransmissionQueue + [p];
    }
  }

  lemma InvParts(st: State)
    requires Inv(st)
    ensures |st.skipped| <= MAX_TRACKED_SKIPPED_PACKETS && Ascending(st.history)
  {
  }

  lemma SkipNone(skipped: seq<nat>, lo: nat)
    requires |skipped| <= MAX_TRACKED_SKIPPED_PACKETS
    ensures LastTen(skipped + From(lo, lo)) == skipped
  {
    assert skipped + From(lo, lo) == skipped;
  }

  lemma SkipOne(skipped: seq<nat>, lo: nat, p: nat)
    requires lo <= p
    ensures var s := LastTen(skipped + From(lo, p)) + [p];
            LastTen(skipped + From(lo, p + 1)) == if |s| > MAX_TRACKED_SKIPPED_PACKETS then s[1..] else s
  {
    var all := skipped + From(lo, p);
    assert skipped + From(lo, p + 1) == all + [p];
  }

  lemma AcknowledgeNone(st: State)
    requires Inv(st)
    ensures Numbers([]) == {} && Acknowledge(st, {}) == st
  {
    DropNone(st.history, {});
  }

  lemma MarkLostNone(st: State)
    requires Inv(st)
    ensures Numbers([]) == {} && MarkLost(st, {}) == st
  {
    DropNone(st.history, {});
  }

  lemma AckNext(st: State, a: set<nat>, ps: seq<Packet>, i: nat)
    requires Inv(st) && a <= Numbers(st.history) && ps == Pick(st.history, a) && i < |ps|
    ensures var s := Acknowledge(st, Numbers(ps[..i]));
            ps[i] in s.history && Acknowledge(s, {ps[i].number}) == Acknowledge(st, Numbers(ps[..i + 1]))
  {
    hide Acknowledge, Pick, Numbers, Partition, SkippedOk;
    InvParts(st);
    PickedOneByOne(st.history, a, i);
    AcknowledgeOne(st, Numbers(ps[..i]), ps[i]);
    AckedKeeps(st, Numbers(ps[..i]), ps[i]);
  }

  lemma AckedKeeps(st: State, a: set<nat>, p: Packet)
    requires p in st.history && p.number !in a
    ensures p in Acknowledge(st, a).history
  {
    DropKeeps(st.history, a, p);
  }

  lemma AckDone(st: State, a: set<nat>, ps: seq<Packet>)
    requires Inv(st) && a <= Numbers(st.history) && ps == Pick(st.history, a)
    ensures Numbers(ps[..|ps|]) == a
  {
    assert ps[..|ps|] == ps;
    PickDrop(st.history, a);
  }

  lemma LostNext(st: State, l: set<nat>, ps: seq<Packet>, i: nat)
    requires Inv(st) && l <= Numbers(st.history) && ps == Pick(st.history, l) && i < |ps|
    ensures var s := MarkLost(st, Numbers(ps[..i]));
            ps[i] in s.history && MarkLost(s, {ps[i].number}) == MarkLost(st, Numbers(ps[..i + 1]))
  {
    hide MarkLost, Pick, Numbers, Partition, SkippedOk;
    InvParts(st);
    PickedOneByOne(st.history, l, i);
    MarkLostOne(st, Numbers(ps[..i]), ps[i]);
  }

  lemma LostDone(st: State, l: set<nat>, ps: seq<Packet>)
    requires Inv(st) && l <= Numbers(st.history) && ps == Pick(st.history, l)
    ensures Numbers(ps[..|ps|]) == l
  {
    AckDone(st, l, ps);
  }

  lemma NextLossTimeStep(h: seq<Packet>, largestAcked: nat, now: int, delay: int, i: nat)
    requires i < |h|
    ensures NextLossTime(h[i..], largestAcked, now, delay) ==
            if h[i].number > largestAcked then None
            else if now - h[i].sendTime > delay then NextLossTime(h[i + 1..], largestAcked, now, delay)
            else Some(now + (delay - (now - h[i].sendTime)))
    ensures h[0..] == h
  {
    assert h[i..][1..] == h[i + 1..];
  }

  lemma NextLossTimeEnd(h: seq<Packet>, largestAcked: nat, now: int, delay: int, i: nat)
    requires i <= |h| && (i < |h| ==> h[i].number > largestAcked)
    ensures NextLossTime(h[i..], largestAcked, now, delay) == None
  {
  }

  lemma LateIs(p: Packet, largestAcked: nat, now: int, delay: int)
    ensures Late(p, largestAcked, now, delay) <==> p.number <= largestAcked && now - p.sendTime > delay
  {
  }

  lemma LossTimeInv(st: State, lossTime: Option<int>)
    requires Inv(st)
    ensures Inv(st.(lossTime := lossTime))
  {
  }

  lemma PickNext(h: seq<Packet>, l: set<nat>, i: nat)
    requires i < |h|
    ensures Pick(h[..i + 1], l) == Pick(h[..i], l) + if h[i].number in l then [h[i]] else []
  {
    assert h[..i + 1] == h[..i] + [h[i]];
    PickConcat(h[..i], [h[i]], l);
    assert [h[i]][1..] == [];
  }

  lemma PickPrefix(h: seq<Packet>, l: set<nat>, i: nat, bound: nat)
    requires Ascending(h) && i <= |h| && (i < |h| ==> bound < h[i].number)
    requires forall n :: n in l ==> n <= bound
    ensures Pick(h, l) == Pick(h[..i], l)
  {
    forall n | n in Numbers(h[i..]) ensures n !in l {
      var k :| 0 <= k < |h[i..]| && h[i..][k].number == n;
      assert n == h[i + k].number;
    }
    DropNone(h[i..], l);
    assert h == h[..i] + h[i..];
    PickConcat(h[..i], h[i..], l);
  }

  lemma InvSkipped(st: State)
    requires Inv(st)
    ensures forall i, j :: 0 <= i < j < |st.skipped| ==> st.skipped[i] < st.skipped[j]
  {
  }

  lemma {:induction false} KeepAboveIs(s: seq<nat>, n: int, k: nat)
    requires k <= |s|
    requires forall i, j :: 0 <= i < j < |s| ==> s[i] < s[j]
    requires k > 0 ==> s[k - 1] <= n
    requires forall i :: k <= i < |s| ==> s[i] > n
    ensures KeepAbove(s, n) == s[k..]
  {
    if k > 0 {
      assert s[0] <= s[k - 1];
      KeepAboveIs(s[1..], n, k - 1);
      assert s[1..][k - 1..] == s[k..];
    }
  }

  lemma AckedSubset(st: State, ack: AckFrame)
    ensures AckWalk.AckedNumbers(st.history, ack) <= Numbers(st.history)
  {
  }

  lemma OldestNext(st: State, i: nat)
    requires Inv(st) && i < |st.history|
    ensures var s := MarkLost(st, Numbers(st.history[..i]));
            && s.history != [] && s.history[0] == st.history[i]
            && MarkLost(s, {st.history[i].number}) == MarkLost(st, Numbers(st.history[..i + 1]))
  {
    hide MarkLost, Pick, Drop, Partition, SkippedOk;
    var h, p := st.history, st.history[i];
    InvParts(st);
    PrefixNumbers(h, i);
    OldestDropped(h, i);
    MarkLostOne(st, Numbers(h[..i]), p);
    MarkLostHistory(st, Numbers(h[..i]));
  }

  lemma MarkLostHistory(st: State, l: set<nat>)
    ensures MarkLost(st, l).history == Drop(st.history, l)
  {
  }

  lemma OldestDropped(h: seq<Packet>, i: nat)
    requires Ascending(h) && i < |h|
    ensures Drop(h, Numbers(h[..i])) == h[i..]
  {
    hide Drop, Ascending, Numbers;
    assert h == h[..i] + h[i..];
    PickConcat(h[..i], h[i..], Numbers(h[..i]));
    PickAll(h[..i], Numbers(h[..i]));
    DisjointHalves(h, i);
    DropNone(h[i..], Numbers(h[..i]));
  }

  lemma DisjointHalves(h: seq<Packet>, i: nat)
    requires Ascending(h) && i <= |h|
    ensures Numbers(h[i..]) !! Numbers(h[..i])
  {
    forall n | n in Numbers(h[i..]) ensures n !in Numbers(h[..i]) {
      var k :| 0 <= k < |h[i..]| && h[i..][k].number == n;
      assert n == h[i + k].number;
    }
  }

  lemma MarkLostCounters(st: State, l: set<nat>)
    ensures MarkLost(st, l).tlpCount == st.tlpCount && MarkLost(st, l).rtoCount == st.rtoCount
  {
  }

  // ---------- what becomes of a packet ----------

  lemma {:induction false} DropIn(h: seq<Packet>, s: set<nat>)
    ensures forall p :: p in Drop(h, s) ==> p in h && p.number !in s
  {
    if h != [] {
      DropIn(h[1..], s);
    }
  }

  lemma SameNumber(h: seq<Packet>, p: Packet, s: set<nat>)
    requires Ascending(h) && p in h
    ensures if p.number in s then p in Pick(h, s) && p !in Drop(h, s) && p.number !in Numbers(Drop(h, s))
            else p in Drop(h, s) && p !in Pick(h, s)
  {
    PickDrop(h, s);
    PickIn(h, s);
    DropIn(h, s);
    if p.number in s {
      PickOnly(h, p);
      PickSubset(h, {p.number}, s);
    } else {
      DropKeeps(h, s, p);
    }
  }

  lemma {:induction false} PickSubset(h: seq<Packet>, s: set<nat>, t: set<nat>)
    requires s <= t
    ensures forall p :: p in Pick(h, s) ==> p in Pick(h, t)
  {
    if h != [] {
      PickSubset(h[1..], s, t);
    }
  }

  // An ACK takes every acknowledged packet out of flight. Of the others, the ones up to the
  // largest acknowledged number that were sent too long ago are queued; the rest stays.
  lemma AckOutcome(st: State, ack: AckFrame, withPacketNumber: nat, now: int, delay: int, p: Packet)
    requires Inv(st) && p in st.history
    ensures var st' := AfterAck(st, ack, withPacketNumber, now, delay);
            if ack.AcksPacket(p.number) then
              p.number in st'.acked && p.number !in Numbers(st'.history)
            else if Late(p, ack.largestAcked, now, delay) then
              p.number in st'.lost && p in st'.queue && p.number !in Numbers(st'.history)
            else p in st'.history
  {
    var s1 := st.(largestReceivedWithAck := withPacketNumber, largestAcked := ack.largestAcked);
    var a := AckWalk.AckedNumbers(st.history, ack);
    LengthOne(st.history, p);
    SameNumber(st.history, p, a);
    PickDropAscending(st.history, a);
    PickDrop(st.history, a);
    var h2 := Drop(st.history, a);
    var l := LateNumbers(h2, ack.largestAcked, now, delay);
    PickDrop(h2, l);
    if !ack.AcksPacket(p.number) {
      SameNumber(h2, p, l);
      LateExactly(h2, ack.largestAcked, now, delay, p);
    }
  }

  lemma LateExactly(h: seq<Packet>, largestAcked: nat, now: int, delay: int, p: Packet)
    requires Ascending(h) && p in h
    ensures p.number in LateNumbers(h, largestAcked, now, delay) <==> Late(p, largestAcked, now, delay)
  {
    var i :| 0 <= i < |h| && h[i] == p;
  }

  // A CLOSE_PATH frame does not move the largest acknowledged number, and only packets up to
  // that number are queued again. So some packets may stay in flight on the closed path:
  // exactly the ones above it that the frame does not acknowledge.
  lemma ClosePathOutcome(st: State, f: AckFrame, withPacketNumber: nat)
    requires Inv(st)
    ensures Numbers(AfterClosePath(st, f, withPacketNumber).history) ==
            set n | n in Numbers(st.history) && !f.AcksPacket(n) && n > st.largestAcked
    ensures AfterClosePath(st, f, withPacketNumber).history == [] <==>
            forall n :: n in Numbers(st.history) ==> f.AcksPacket(n) || n <= st.largestAcked
  {
    var a := AckWalk.AckedNumbers(st.history, f);
    PickDrop(st.history, a);
    var h2 := Drop(st.history, a);
    var l := set n | n in Numbers(h2) && n <= st.largestAcked;
    PickDrop(h2, l);
    var h3 := Drop(h2, l);
    assert h3 == AfterClosePath(st, f, withPacketNumber).history;
    if h3 != [] {
      NumbersAt(h3, 0);
    } else {
      assert forall n :: n in Numbers(st.history) && !f.AcksPacket(n) && n > st.largestAcked ==> n in Numbers(h3);
    }
  }

  // Such a packet exists in a run of three steps: two packets are sent, nothing is
  // acknowledged, and the frame names the second one only.
  lemma ClosePathLeavesPacketInFlight()
    ensures var p1, p2 := Packet(1, [Listed], 100, 0), Packet(2, [Listed], 100, 0);
            var st := AfterSend(AfterSend(INIT_STATE, p1), p2);
            var f := AckFrame(2, 2, []);
            && Inv(st) && f.WellFormed()
            && AfterClosePath(st, f, 1).history != []
  {
    hide Inv, AfterClosePath, LastTen, From;
    var p1, p2 := Packet(1, [Listed], 100, 0), Packet(2, [Listed], 100, 0);
    TwoPackets(p1, p2);
    var st := AfterSend(AfterSend(INIT_STATE, p1), p2);
    ClosePathOutcome(st, AckFrame(2, 2, []), 1);
    NumbersAt(st.history, 0);
  }

  lemma TwoPackets(p1: Packet, p2: Packet)
    requires 0 < p1.number < p2.number && p1.frames == p2.frames == [Listed]
    ensures var st := AfterSend(AfterSend(INIT_STATE, p1), p2);
            Inv(st) && st.history == [p1, p2] && st.largestAcked == 0
  {
    hide Inv, LastTen, From;
    assert StripNonRetransmittable([Listed]) == [Listed];
    InitInv();
    AfterSendInv(INIT_STATE, p1);
    AfterSendInv(AfterSend(INIT_STATE, p1), p2);
  }

  lemma InitInv()
    ensures Inv(INIT_STATE)
  {
  }
}
