/**
 The receiving side of the ack protocol: which packet numbers have arrived, and the ACK
 frames built from that.
 */
module ReceivedPackets {
  import opened MinMax
  import opened Wire
  import opened Wrappers

  const MAX_TRACKED_ACK_RANGES: nat := 2500
  const MAX_PACKETS_BEFORE_ACK: nat := 20
  const RETRANSMITTABLE_PACKETS_BEFORE_ACK: nat := 2

  datatype Range = Range(start: nat, end: nat)

  // ---------- sets of packet numbers as ranges ----------

  ghost predicate Contains(ranges: seq<Range>, p: nat) {
    exists i :: 0 <= i < |ranges| && ranges[i].start <= p <= ranges[i].end
  }

  ghost predicate InRange(r: Range, p: nat) {
    r.start <= p <= r.end
  }

  // Canonical form: non-empty, ascending, and two ranges that could be merged are merged.
  ghost predicate Canonical(ranges: seq<Range>) {
    && (forall i :: 0 <= i < |ranges| ==> 0 < ranges[i].start <= ranges[i].end)
    && (forall i, j :: 0 <= i < j < |ranges| ==> ranges[i].end + 1 < ranges[j].start)
  }

  lemma ContainsConcat(a: seq<Range>, b: seq<Range>, p: nat)
    ensures Contains(a + b, p) <==> Contains(a, p) || Contains(b, p)
  {
    if Contains(a, p) {
      var i :| 0 <= i < |a| && a[i].start <= p <= a[i].end;
      assert (a + b)[i] == a[i];
    }
    if Contains(b, p) {
      var i :| 0 <= i < |b| && b[i].start <= p <= b[i].end;
      assert (a + b)[|a| + i] == b[i];
    }
  }

  lemma ContainsOne(r: Range, p: nat)
    ensures Contains([r], p) <==> r.start <= p <= r.end
  {
    assert [r][0] == r;
  }

  lemma CanonicalConcat(a: seq<Range>, b: seq<Range>, x: nat)
    requires Canonical(a) && Canonical(b)
    requires forall i :: 0 <= i < |a| ==> a[i].end + 1 < x
    requires forall i :: 0 <= i < |b| ==> x <= b[i].start
    ensures Canonical(a + b)
  {
  }

  lemma CanonicalSlices(ranges: seq<Range>, k: nat)
    requires Canonical(ranges) && k <= |ranges|
    ensures Canonical(ranges[..k]) && Canonical(ranges[k..])
    ensures k < |ranges| ==> forall i :: 0 <= i < k ==> ranges[..k][i].end + 1 < ranges[k].start
    ensures 0 < k ==> var b := ranges[k..]; forall i :: 0 <= i < |b| ==> ranges[k - 1].end + 2 <= b[i].start
  {
  }

  // a + [r] + b with a range r that covers old ranges between a and b, and one more number.
  lemma CanonicalMiddle(a: seq<Range>, r: Range, b: seq<Range>)
    requires Canonical(a) && Canonical(b) && 0 < r.start <= r.end
    requires forall i :: 0 <= i < |a| ==> a[i].end + 1 < r.start
    requires forall i :: 0 <= i < |b| ==> r.end + 2 <= b[i].start
    ensures Canonical(a + [r] + b)
    ensures forall p: nat :: Contains(a + [r] + b, p) <==> Contains(a, p) || r.start <= p <= r.end || Contains(b, p)
  {
    CanonicalConcat(a, [r], r.start);
    assert forall i :: 0 <= i < |a + [r]| ==> (a + [r])[i].end + 1 < r.end + 2;
    CanonicalConcat(a + [r], b, r.end + 2);
    forall p: nat
      ensures Contains(a + [r] + b, p) <==> Contains(a, p) || r.start <= p <= r.end || Contains(b, p)
    {
      ContainsConcat(a + [r], b, p);
      ContainsConcat(a, [r], p);
      ContainsOne(r, p);
    }
  }

  lemma ContainsSlices(ranges: seq<Range>, k: nat)
    requires k <= |ranges|
    ensures forall p: nat :: Contains(ranges, p) <==> Contains(ranges[..k], p) || Contains(ranges[k..], p)
  {
    forall p: nat
      ensures Contains(ranges, p) <==> Contains(ranges[..k], p) || Contains(ranges[k..], p)
    {
      assert ranges == ranges[..k] + ranges[k..];
      ContainsConcat(ranges[..k], ranges[k..], p);
    }
  }

  // The new range list after number p came in.
  ghost predicate Added(ranges: seq<Range>, p: nat, ranges': seq<Range>) {
    && Canonical(ranges')
    && (forall q: nat :: Contains(ranges', q) <==> Contains(ranges, q) || q == p)
    && |ranges'| <= |ranges| + 1
  }

  lemma SliceBounds(ranges: seq<Range>, lo: nat, hi: nat, r: Range)
    requires Canonical(ranges) && lo <= hi <= |ranges|
    requires lo > 0 ==> ranges[lo - 1].end + 1 < r.start
    requires hi < |ranges| ==> r.end + 1 < ranges[hi].start
    ensures Canonical(ranges[..lo]) && Canonical(ranges[hi..])
    ensures forall i :: 0 <= i < lo ==> ranges[..lo][i].end + 1 < r.start
    ensures var b := ranges[hi..]; forall i :: 0 <= i < |b| ==> r.end + 2 <= b[i].start
  {
    assert forall i :: 0 <= i < lo ==> ranges[i].end <= ranges[lo - 1].end;
    assert forall i :: hi <= i < |ranges| ==> ranges[hi].start <= ranges[i].start;
  }

  lemma ContainsThree(ranges: seq<Range>, lo: nat, hi: nat, q: nat)
    requires lo <= hi <= |ranges|
    ensures Contains(ranges, q) <==>
            Contains(ranges[..lo], q) || Contains(ranges[lo..hi], q) || Contains(ranges[hi..], q)
  {
    assert ranges == ranges[..lo] + (ranges[lo..hi] + ranges[hi..]);
    ContainsConcat(ranges[..lo], ranges[lo..hi] + ranges[hi..], q);
    ContainsConcat(ranges[lo..hi], ranges[hi..], q);
  }

  // Replacing ranges lo..hi by the one range r.
  lemma AddedMiddle(ranges: seq<Range>, p: nat, lo: nat, hi: nat, r: Range)
    requires Canonical(ranges) && lo <= hi <= |ranges|
    requires 0 < r.start <= r.end
    requires lo > 0 ==> ranges[lo - 1].end + 1 < r.start
    requires hi < |ranges| ==> r.end + 1 < ranges[hi].start
    requires forall q: nat :: InRange(r, q) <==> q == p || Contains(ranges[lo..hi], q)
    ensures Added(ranges, p, ranges[..lo] + [r] + ranges[hi..])
  {
    hide Canonical, Contains;
    var a, b := ranges[..lo], ranges[hi..];
    SliceBounds(ranges, lo, hi, r);
    CanonicalMiddle(a, r, b);
    forall q: nat
      ensures Contains(a + [r] + b, q) <==> Contains(ranges, q) || q == p
    {
      ContainsThree(ranges, lo, hi, q);
    }
  }

  class History {
    var ranges: seq<Range>
    var lowestInReceivedPacketNumbers: nat

    constructor ()
      ensures ranges == [] && Canonical(ranges)
    {
      ranges, lowestInReceivedPacketNumbers := [], 0;
    }

    // Registers packet p; fails if there are too many ranges already.
    method ReceivedPacket(p: nat) returns (ok: bool)
      requires Canonical(ranges) && 0 < p
      modifies this`ranges
      ensures ok <==> |old(ranges)| < MAX_TRACKED_ACK_RANGES
      ensures if ok then Added(old(ranges), p, ranges) else ranges == old(ranges)
    {
      hide Canonical, Contains, Added;
      if |ranges| >= MAX_TRACKED_ACK_RANGES {
        return false;
      }
      ok := true;
      if |ranges| == 0 {
        AddNew(ranges, p, 0);
        ranges := [Range(p, p)];
        return;
      }
      var i: nat := |ranges|;
      while i > 0
        invariant i <= |ranges| && ranges == old(ranges)
        invariant i < |ranges| ==> p + 1 < ranges[i].start
      {
        i := i - 1;
        var el := ranges[i];
        RangeOk(ranges, i);
        // p is already included
        if el.start <= p <= el.end {
          AddNothing(ranges, p, i);
          return;
        }
        var rangeExtended := false;
        if el.end == p - 1 {
          rangeExtended := true;
          AddAtEnd(ranges, p, i);
          ranges := ranges[i := Range(el.start, p)];
        } else if el.start == p + 1 {
          rangeExtended := true;
          AddAtStart(ranges, p, i);
          ranges := ranges[i := Range(p, el.end)];
        }
        // an extended range may meet the one before it
        if rangeExtended {
          if i > 0 && ranges[i - 1].end + 1 == ranges[i].start {
            ranges := ranges[..i - 1] + [Range(ranges[i - 1].start, ranges[i].end)] + ranges[i + 1..];
          }
          return;
        }
        if p > el.end {
          AddNew(ranges, p, i + 1);
          ranges := ranges[..i + 1] + [Range(p, p)] + ranges[i + 1..];
          return;
        }
      }
      AddNew(ranges, p, 0);
      ranges := ranges[..0] + [Range(p, p)] + ranges[0..];
    }

    // Forgets all numbers up to and including p.
    method DeleteUpTo(p: nat)
      requires Canonical(ranges)
      modifies this
      ensures Deleted(old(ranges), p, ranges)
    {
      hide Canonical, Contains;
      lowestInReceivedPacketNumbers :=
        if p + 1 > lowestInReceivedPacketNumbers then p + 1 else lowestInReceivedPacketNumbers;
      ghost var n := 0;
      assert ranges == ranges[0..];
      while ranges != []
        invariant n <= |old(ranges)| && ranges == old(ranges)[n..]
        invariant forall i :: 0 <= i < n ==> old(ranges)[i].end <= p
        decreases |ranges|
      {
        var el := ranges[0];
        if p >= el.start && p < el.end {
          DeletePart(old(ranges), p, n);
          ranges := [Range(p + 1, el.end)] + ranges[1..];
          return;
        } else if el.end <= p {
          ranges := ranges[1..];
          n := n + 1;
        } else {
          DeletePrefix(old(ranges), p, n);
          return;
        }
      }
      DeletePrefix(old(ranges), p, n);
    }

    // The ranges for an ACK frame, the highest first.
    method GetAckRanges() returns (ackRanges: seq<AckRange>)
      ensures ackRanges == Descending(ranges)
    {
      ackRanges := [];
      var i := |ranges|;
      while i > 0
        invariant 0 <= i <= |ranges| && |ackRanges| == |ranges| - i
        invariant forall k :: 0 <= k < |ackRanges| ==>
                    ackRanges[k] == AckRange(ranges[|ranges| - 1 - k].start, ranges[|ranges| - 1 - k].end)
      {
        i := i - 1;
        ackRanges := ackRanges + [AckRange(ranges[i].start, ranges[i].end)];
      }
      assert ackRanges == Descending(ranges);
    }

    function GetHighestAckRange(): AckRange
      reads this
    {
      if ranges == [] then AckRange(0, 0)
      else AckRange(ranges[|ranges| - 1].start, ranges[|ranges| - 1].end)
    }
  }

  ghost function Descending(ranges: seq<Range>): seq<AckRange> {
    seq(|ranges|, k requires 0 <= k < |ranges| =>
      AckRange(ranges[|ranges| - 1 - k].start, ranges[|ranges| - 1 - k].end))
  }

  // The new range list after all numbers up to p were deleted.
  ghost predicate Deleted(ranges: seq<Range>, p: nat, ranges': seq<Range>) {
    && Canonical(ranges')
    && (forall q: nat :: Contains(ranges', q) <==> Contains(ranges, q) && p < q)
    && |ranges'| <= |ranges|
    && (ranges != [] && p < ranges[|ranges| - 1].end ==>
          ranges' != [] && ranges'[|ranges'| - 1].end == ranges[|ranges| - 1].end)
  }

  // ---------- the cases of DeleteUpTo ----------

  lemma AllAbove(ranges: seq<Range>, p: nat)
    requires Canonical(ranges) && (ranges != [] ==> p < ranges[0].start)
    ensures forall q: nat :: Contains(ranges, q) ==> p < q
  {
    assert forall i :: 0 <= i < |ranges| ==> ranges[0].start <= ranges[i].start;
  }

  lemma AllBelow(ranges: seq<Range>, p: nat)
    requires forall i :: 0 <= i < |ranges| ==> ranges[i].end <= p
    ensures forall q: nat :: Contains(ranges, q) ==> q <= p
  {
  }

  lemma DeletePrefix(ranges: seq<Range>, p: nat, n: nat)
    requires Canonical(ranges) && n <= |ranges|
    requires forall i :: 0 <= i < n ==> ranges[i].end <= p
    requires n < |ranges| ==> !(ranges[n].start <= p < ranges[n].end) && p < ranges[n].end
    ensures Deleted(ranges, p, ranges[n..])
  {
    CanonicalSlices(ranges, n);
    ContainsSlices(ranges, n);
    AllBelow(ranges[..n], p);
    AllAbove(ranges[n..], p);
  }

  lemma DeletePart(ranges: seq<Range>, p: nat, n: nat)
    requires Canonical(ranges) && n < |ranges|
    requires forall i :: 0 <= i < n ==> ranges[i].end <= p
    requires ranges[n].start <= p < ranges[n].end
    ensures Deleted(ranges, p, [Range(p + 1, ranges[n].end)] + ranges[n..][1..])
  {
    hide Canonical, Contains;
    var r, b := Range(p + 1, ranges[n].end), ranges[n + 1..];
    assert ranges[n..][1..] == b;
    EmptyContains();
    PartAbove(ranges, p, n);
    CanonicalMiddle([], r, b);
    assert [] + [r] + b == [r] + b;
    AllBelow(ranges[..n], p);
    forall q: nat
      ensures Contains([r] + b, q) <==> Contains(ranges, q) && p < q
    {
      ContainsThree(ranges, n, n + 1, q);
      assert ranges[n..n + 1] == [ranges[n]];
      ContainsOne(ranges[n], q);
    }
  }

  lemma EmptyContains()
    ensures Canonical([]) && forall q: nat :: !Contains([], q)
  {
  }

  lemma PartAbove(ranges: seq<Range>, p: nat, n: nat)
    requires Canonical(ranges) && n < |ranges| && p < ranges[n].end
    ensures Canonical(ranges[n + 1..])
    ensures var b := ranges[n + 1..]; forall q: nat :: Contains(b, q) ==> p < q
    ensures var b := ranges[n + 1..]; forall i :: 0 <= i < |b| ==> ranges[n].end + 2 <= b[i].start
  {
    var b := ranges[n + 1..];
    assert forall i :: 0 <= i < |b| ==> ranges[n].end + 1 < b[i].start;
  }

  // ---------- the cases of ReceivedPacket ----------

  lemma RangeOk(ranges: seq<Range>, i: nat)
    requires Canonical(ranges) && i < |ranges|
    ensures 0 < ranges[i].start <= ranges[i].end
    ensures i > 0 ==> ranges[i - 1].end + 1 < ranges[i].start
    ensures i + 1 < |ranges| ==> ranges[i].end + 1 < ranges[i + 1].start
  {
  }

  lemma AddNothing(ranges: seq<Range>, p: nat, i: nat)
    requires Canonical(ranges) && i < |ranges| && ranges[i].start <= p <= ranges[i].end
    ensures Added(ranges, p, ranges)
  {
  }

  lemma AddNew(ranges: seq<Range>, p: nat, i: nat)
    requires Canonical(ranges) && i <= |ranges| && 0 < p
    requires i > 0 ==> ranges[i - 1].end + 1 < p
    requires i < |ranges| ==> p + 1 < ranges[i].start
    ensures Added(ranges, p, ranges[..i] + [Range(p, p)] + ranges[i..])
    ensures i == |ranges| == 0 ==> Added(ranges, p, [Range(p, p)])
  {
    assert ranges[i..i] == [];
    AddedMiddle(ranges, p, i, i, Range(p, p));
    assert |ranges| == 0 ==> ranges[..0] + [Range(p, p)] + ranges[0..] == [Range(p, p)];
  }

  lemma AddAtEnd(ranges: seq<Range>, p: nat, i: nat)
    requires Canonical(ranges) && i < |ranges| && ranges[i].end + 1 == p
    requires i + 1 < |ranges| ==> p + 1 < ranges[i + 1].start
    ensures Added(ranges, p, ranges[i := Range(ranges[i].start, p)])
    ensures i > 0 ==> ranges[i - 1].end + 1 != ranges[i].start
  {
    hide Contains, Canonical;
    RangeOk(ranges, i);
    assert ranges[i..i + 1] == [ranges[i]];
    var r := Range(ranges[i].start, p);
    forall q: nat
      ensures InRange(r, q) <==> q == p || Contains(ranges[i..i + 1], q)
    {
      ContainsOne(ranges[i], q);
    }
    AddedMiddle(ranges, p, i, i + 1, r);
    assert ranges[..i] + [r] + ranges[i + 1..] == ranges[i := r];
  }

  lemma AddAtStart(ranges: seq<Range>, p: nat, i: nat)
    requires Canonical(ranges) && i < |ranges| && ranges[i].start == p + 1 && 0 < p
    ensures if i > 0 && ranges[i - 1].end + 1 == p
            then Added(ranges, p, ranges[..i - 1] + [Range(ranges[i - 1].start, ranges[i].end)] + ranges[i + 1..])
            else Added(ranges, p, ranges[i := Range(p, ranges[i].end)])
  {
    hide Contains, Canonical;
    RangeOk(ranges, i);
    if i > 0 && ranges[i - 1].end + 1 == p {
      RangeOk(ranges, i - 1);
      assert ranges[i - 1..i + 1] == [ranges[i - 1]] + [ranges[i]];
      var r := Range(ranges[i - 1].start, ranges[i].end);
      forall q: nat
        ensures InRange(r, q) <==> q == p || Contains(ranges[i - 1..i + 1], q)
      {
        ContainsConcat([ranges[i - 1]], [ranges[i]], q);
        ContainsOne(ranges[i - 1], q);
        ContainsOne(ranges[i], q);
      }
      AddedMiddle(ranges, p, i - 1, i + 1, r);
    } else {
      assert ranges[i..i + 1] == [ranges[i]];
      var r := Range(p, ranges[i].end);
      forall q: nat
        ensures InRange(r, q) <==> q == p || Contains(ranges[i..i + 1], q)
      {
        ContainsOne(ranges[i], q);
      }
      AddedMiddle(ranges, p, i, i + 1, r);
      assert ranges[..i] + [r] + ranges[i + 1..] == ranges[i := r];
    }
  }

  // ---------- the handler ----------

  datatype State = State(
    largestObserved: nat,
    lowerLimit: nat,
    ranges: seq<Range>,
    ackQueued: bool,
    ackAlarm: Option<int>,
    lastAck: Option<AckFrame>,
    packetsSinceLastAck: nat,
    retransmittableSinceLastAck: nat)

  const INIT_STATE: State := State(0, 0, [], false, None, None, 0, 0)

  datatype ReceiveResult = Received | InvalidPacketNumber | TooManyRanges

  // The largest packet number stays in the history, so whenever an ACK is due there is
  // something to acknowledge.
  ghost predicate Inv(st: State) {
    && Canonical(st.ranges)
    && (forall q: nat :: Contains(st.ranges, q) ==> st.lowerLimit < q <= st.largestObserved)
    && (st.largestObserved == 0 ==> st.ranges == [] && st.lowerLimit == 0)
    && (st.largestObserved > 0 ==>
          && st.lowerLimit < st.largestObserved
          && st.ranges != [] && st.ranges[|st.ranges| - 1].end == st.largestObserved)
    && (st.ackQueued || st.ackAlarm.Some? ==> st.largestObserved > 0)
  }

  lemma LargestContained(st: State)
    requires Inv(st) && st.largestObserved > 0
    ensures Contains(st.ranges, st.largestObserved)
  {
    var i := |st.ranges| - 1;
    assert st.ranges[i].start <= st.largestObserved <= st.ranges[i].end;
  }

  // A range list whose largest number is known ends with it.
  lemma LastEnd(ranges: seq<Range>, p: nat)
    requires Canonical(ranges) && Contains(ranges, p)
    requires forall q: nat :: Contains(ranges, q) ==> q <= p
    ensures ranges != [] && ranges[|ranges| - 1].end == p
  {
    var i := |ranges| - 1;
    var last := ranges[i].end;
    assert Contains(ranges, last) by { assert ranges[i].start <= last <= ranges[i].end; }
    var k :| 0 <= k < |ranges| && ranges[k].start <= p <= ranges[k].end;
    assert ranges[k].end <= last;
  }

  // Packet pn arrived; its number may be too small to be of interest.
  lemma ReceivedInv(st: State, pn: nat, st': State)
    requires Inv(st) && 0 < pn
    requires st'.largestObserved == Max(st.largestObserved, pn) && st'.lowerLimit == st.lowerLimit
    requires if pn <= st.lowerLimit then st'.ranges == st.ranges else Added(st.ranges, pn, st'.ranges)
    ensures Inv(st')
  {
    if pn > st.lowerLimit {
      assert Contains(st'.ranges, pn);
      if st.largestObserved > 0 {
        LargestContained(st);
      }
      LastEnd(st'.ranges, st'.largestObserved);
    }
  }

  // All numbers up to p are forgotten; p lies below the largest number.
  lemma LowerLimitInv(st: State, p: nat, st': State)
    requires Inv(st) && p < st.largestObserved
    requires Deleted(st.ranges, p, st'.ranges)
    requires st' == st.(ranges := st'.ranges, lowerLimit := p)
    ensures Inv(st')
  {
  }

  // Without that bound the history runs empty, and building an ACK frame would fail.
  lemma LowerLimitTooHigh(st: State, p: nat, ranges': seq<Range>)
    requires Inv(st) && Deleted(st.ranges, p, ranges')
    ensures ranges' == [] <==> st.largestObserved <= p || st.ranges == []
  {
    if st.ranges != [] && p < st.largestObserved {
      LargestContained(st);
    }
    if ranges' != [] {
      assert Contains(ranges', ranges'[0].start) by {
        assert ranges'[0].start <= ranges'[0].start <= ranges'[0].end;
      }
    }
  }

  ghost function AckOf(st: State): AckFrame
    requires st.ranges != []
  {
    AckFrame(st.largestObserved, st.ranges[0].start, if |st.ranges| > 1 then Descending(st.ranges) else [])
  }

  lemma AckWellFormed(st: State)
    requires Inv(st) && st.ranges != []
    ensures AckOf(st).WellFormed()
  {
    AckBounds(st.ranges);
  }

  lemma DescendingContains(ranges: seq<Range>, p: nat)
    ensures Contains(ranges, p) <==>
            exists i :: 0 <= i < |Descending(ranges)| && Descending(ranges)[i].first <= p <= Descending(ranges)[i].last
  {
    var d, n := Descending(ranges), |ranges|;
    if Contains(ranges, p) {
      var i :| 0 <= i < n && ranges[i].start <= p <= ranges[i].end;
      assert d[n - 1 - i].first <= p <= d[n - 1 - i].last;
    }
    if i :| 0 <= i < |d| && d[i].first <= p <= d[i].last {
      assert ranges[n - 1 - i].start <= p <= ranges[n - 1 - i].end;
    }
  }

  // ACK and CLOSE_PATH frames are well-formed and name exactly the packets in the history.
  lemma AckSound(st: State)
    requires Inv(st) && st.ranges != []
    ensures AckOf(st).WellFormed()
    ensures forall p: nat :: AckOf(st).AcksPacket(p) <==> Contains(st.ranges, p)
  {
    AckWellFormed(st);
    forall p: nat
      ensures AckOf(st).AcksPacket(p) <==> Contains(st.ranges, p)
    {
      AckNames(st, p);
    }
  }

  lemma AckNames(st: State, p: nat)
    requires Inv(st) && st.ranges != []
    ensures AckOf(st).AcksPacket(p) <==> Contains(st.ranges, p)
  {
    hide Canonical, Contains;
    LastIsLargest(st);
    AckBounds(st.ranges);
    DescendingContains(st.ranges, p);
    if |st.ranges| == 1 {
      ContainsOne(st.ranges[0], p);
      assert st.ranges == [st.ranges[0]];
    }
  }

  lemma LastIsLargest(st: State)
    requires Inv(st) && st.ranges != []
    ensures st.ranges[|st.ranges| - 1].end == st.largestObserved
  {
  }

  lemma AckBounds(ranges: seq<Range>)
    requires Canonical(ranges) && ranges != []
    ensures ranges[0].start <= ranges[|ranges| - 1].end
    ensures forall p: nat :: Contains(ranges, p) ==> ranges[0].start <= p <= ranges[|ranges| - 1].end
  {
    assert forall i :: 0 <= i < |ranges| ==>
             ranges[0].start <= ranges[i].start && ranges[i].end <= ranges[|ranges| - 1].end;
  }

  // Whether packet pn, just added to the history, makes an ACK due at once.
  ghost predicate AckNow(st: State, ranges: seq<Range>, pn: nat, instigates: bool, alwaysAck: bool)
    requires ranges != []
  {
    || st.ackQueued
    || st.lastAck.None?
    || (alwaysAck && st.packetsSinceLastAck + 1 >= MAX_PACKETS_BEFORE_ACK)
    || (st.lastAck.Some? && pn < st.lastAck.value.largestAcked)
    || (st.lastAck.Some? && st.lastAck.value.largestAcked < ranges[|ranges| - 1].start)
    || (instigates && st.retransmittableSinceLastAck + 1 >= RETRANSMITTABLE_PACKETS_BEFORE_ACK)
  }

  ghost predicate ReceiveSpec(st: State, pn: nat, instigates: bool, alarm: int, alwaysAck: bool,
                              r: ReceiveResult, st': State) {
    && (r.InvalidPacketNumber? <==> pn == 0)
    && (r.TooManyRanges? <==> st.lowerLimit < pn && |st.ranges| >= MAX_TRACKED_ACK_RANGES)
    && (r.Received? ==>
          && Inv(st') && st'.lowerLimit == st.lowerLimit && st'.lastAck == st.lastAck
          && st'.largestObserved == Max(st.largestObserved, pn))
    && (r.Received? && pn <= st.lowerLimit ==> st' == st.(largestObserved := st'.largestObserved))
    && (r.Received? && st.lowerLimit < pn ==>
          && Added(st.ranges, pn, st'.ranges) && st'.ranges != []
          && (st'.ackQueued <==> AckNow(st, st'.ranges, pn, instigates, alwaysAck))
          && st'.ackAlarm == (if st'.ackQueued then None
                              else if instigates && st.ackAlarm.None? then Some(alarm) else st.ackAlarm)
          && st'.packetsSinceLastAck == st.packetsSinceLastAck + 1
          && st'.retransmittableSinceLastAck == st.retransmittableSinceLastAck + (if instigates then 1 else 0))
  }

  class Handler {
    const packetHistory: History
    const alwaysAck: bool  // versions before 39
    const ackSendDelay: int
    var largestObserved: nat
    var lowerLimit: nat
    var packetsReceivedSinceLastAck: nat
    var retransmittablePacketsReceivedSinceLastAck: nat
    var ackQueued: bool
    var ackAlarm: Option<int>
    var lastAck: Option<AckFrame>

    ghost function View(): State
      reads this, packetHistory
    {
      State(largestObserved, lowerLimit, packetHistory.ranges, ackQueued, ackAlarm, lastAck,
            packetsReceivedSinceLastAck, retransmittablePacketsReceivedSinceLastAck)
    }

    constructor (alwaysAck: bool, ackSendDelay: int)
      ensures View() == INIT_STATE && Inv(View()) && fresh(packetHistory)
      ensures this.alwaysAck == alwaysAck && this.ackSendDelay == ackSendDelay
    {
      packetHistory := new History();
      this.alwaysAck, this.ackSendDelay := alwaysAck, ackSendDelay;
      largestObserved, lowerLimit := 0, 0;
      packetsReceivedSinceLastAck, retransmittablePacketsReceivedSinceLastAck := 0, 0;
      ackQueued, ackAlarm, lastAck := false, None, None;
    }

    method ReceivedPacket(packetNumber: nat, shouldInstigateAck: bool, now: int) returns (r: ReceiveResult)
      requires Inv(View())
      modifies this, packetHistory
      ensures ReceiveSpec(old(View()), packetNumber, shouldInstigateAck, now + ackSendDelay, alwaysAck, r, View())
    {
      hide Canonical, Contains, Added, Inv;
      ghost var st := View();
      InvRanges(st);
      if packetNumber == 0 {
        return InvalidPacketNumber;
      }
      if packetNumber > largestObserved {
        largestObserved := packetNumber;
      }
      if packetNumber <= lowerLimit {
        ReceivedInv(st, packetNumber, View());
        return Received;
      }
      var ok := packetHistory.ReceivedPacket(packetNumber);
      if !ok {
        return TooManyRanges;
      }
      AddedNonEmpty(st.ranges, packetNumber, packetHistory.ranges);
      MaybeQueueAck(packetNumber, shouldInstigateAck, now);
      ReceivedInv(st, packetNumber, View());
      r := Received;
    }

    method MaybeQueueAck(packetNumber: nat, shouldInstigateAck: bool, now: int)
      requires packetHistory.ranges != []
      modifies this`packetsReceivedSinceLastAck, this`retransmittablePacketsReceivedSinceLastAck, this`ackQueued,
               this`ackAlarm
      ensures ackQueued <==> AckNow(old(View()), packetHistory.ranges, packetNumber, shouldInstigateAck, alwaysAck)
      ensures ackAlarm == if ackQueued then None
                          else if shouldInstigateAck && old(ackAlarm).None? then Some(now + ackSendDelay)
                          else old(ackAlarm)
      ensures packetsReceivedSinceLastAck == old(packetsReceivedSinceLastAck) + 1
      ensures retransmittablePacketsReceivedSinceLastAck ==
              old(retransmittablePacketsReceivedSinceLastAck) + (if shouldInstigateAck then 1 else 0)
    {
      packetsReceivedSinceLastAck := packetsReceivedSinceLastAck + 1;
      if shouldInstigateAck {
        retransmittablePacketsReceivedSinceLastAck := retransmittablePacketsReceivedSinceLastAck + 1;
      }
      // always ack the first packet
      if lastAck.None? {
        ackQueued := true;
      }
      if alwaysAck {
        if packetsReceivedSinceLastAck >= MAX_PACKETS_BEFORE_ACK {
          ackQueued := true;
        }
      }
      // it was reported missing with the last ACK
      if lastAck.Some? && packetNumber < lastAck.value.largestAcked {
        ackQueued := true;
      }
      // a new missing range was created
      if lastAck.Some? && packetHistory.GetHighestAckRange().first > lastAck.value.largestAcked {
        ackQueued := true;
      }
      if !ackQueued && shouldInstigateAck {
        if retransmittablePacketsReceivedSinceLastAck >= RETRANSMITTABLE_PACKETS_BEFORE_ACK {
          ackQueued := true;
        } else {
          if ackAlarm.None? {
            ackAlarm := Some(now + ackSendDelay);
          }
        }
      }
      if ackQueued {
        ackAlarm := None;
      }
    }

    method SetLowerLimit(p: nat)
      requires Inv(View())
      modifies this, packetHistory
      ensures Deleted(old(View()).ranges, p, View().ranges)
      ensures View() == old(View()).(ranges := View().ranges, lowerLimit := p)
      ensures p < largestObserved ==> Inv(View())
    {
      hide Canonical, Contains, Deleted, Inv;
      ghost var st := View();
      InvRanges(st);
      lowerLimit := p;
      packetHistory.DeleteUpTo(p);
      if p < largestObserved {
        LowerLimitInv(st, p, View());
      }
    }

    method GetAckFrame(now: int) returns (ack: Option<AckFrame>)
      requires Inv(View())
      modifies this
      ensures ack.Some? <==> old(ackQueued) || (old(ackAlarm).Some? && old(ackAlarm).value <= now)
      ensures ack.None? ==> View() == old(View())
      ensures ack.Some? ==>
                && ack.value.WellFormed() && ack.value.largestAcked == largestObserved
                && (forall p: nat :: ack.value.AcksPacket(p) <==> Contains(View().ranges, p))
                && View() == old(View()).(lastAck := ack, ackAlarm := None, ackQueued := false,
                                          packetsSinceLastAck := 0, retransmittableSinceLastAck := 0)
      ensures Inv(View())
    {
      hide Contains, Canonical;
      if !ackQueued && (ackAlarm.None? || ackAlarm.value > now) {
        return None;
      }
      AckSound(View());
      var ackRanges := packetHistory.GetAckRanges();
      var frame := AckFrame(largestObserved, ackRanges[|ackRanges| - 1].first, []);
      if |ackRanges| > 1 {
        frame := frame.(ackRanges := ackRanges);
      }
      assert frame == AckOf(View());
      ack := Some(frame);
      lastAck, ackAlarm, ackQueued := ack, None, false;
      packetsReceivedSinceLastAck, retransmittablePacketsReceivedSinceLastAck := 0, 0;
    }

    // Needs a packet in the history: there is no check for that.
    method GetClosePathFrame() returns (frame: AckFrame)
      requires Inv(View()) && View().ranges != []
      ensures frame.WellFormed() && frame.largestAcked == largestObserved
      ensures forall p: nat :: frame.AcksPacket(p) <==> Contains(View().ranges, p)
    {
      hide Contains, Canonical, Inv;
      AckSound(View());
      var ackRanges := packetHistory.GetAckRanges();
      frame := AckFrame(largestObserved, ackRanges[|ackRanges| - 1].first, []);
      if |ackRanges| > 1 {
        frame := frame.(ackRanges := ackRanges);
      }
      assert frame == AckOf(View());
    }
  }

  lemma InvRanges(st: State)
    requires Inv(st)
    ensures Canonical(st.ranges)
  {
  }

  lemma AddedNonEmpty(ranges: seq<Range>, p: nat, ranges': seq<Range>)
    requires Added(ranges, p, ranges')
    ensures ranges' != []
  {
    assert Contains(ranges', p);
  }
}
