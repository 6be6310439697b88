/**
 sbd/frequency.go and sbd/skewness.go: statistics over the last M intervals (sections 3.2.2 and 3.2.4 of
 RFC 8382), kept in rings. The ghost field `history` has one entry for every interval there ever was.
 */
module SbdWindows {
  import opened Wrappers

  const M := 50

  function Sum(s: seq<int>): int {
    if s == [] then 0 else Sum(s[..|s| - 1]) + s[|s| - 1]
  }

  lemma {:induction false} SumConcat(s: seq<int>, t: seq<int>)
    ensures Sum(s + t) == Sum(s) + Sum(t)
  {
    if t == [] {
      assert s + t == s;
    } else {
      assert (s + t)[..|s + t| - 1] == s + t[..|t| - 1];
      SumConcat(s, t[..|t| - 1]);
    }
  }

  lemma SumOne(x: int)
    ensures Sum([x]) == x
  {
    assert [x][..0] == [];
  }

  lemma SumSplit(s: seq<int>, i: nat)
    requires i < |s|
    ensures Sum(s) == Sum(s[..i]) + s[i] + Sum(s[i + 1..])
  {
    hide Sum;
    assert s == s[..i] + ([s[i]] + s[i + 1..]);
    SumConcat(s[..i], [s[i]] + s[i + 1..]);
    SumConcat([s[i]], s[i + 1..]);
    SumOne(s[i]);
  }

  lemma SumUpdate(s: seq<int>, i: nat, x: int)
    requires i < |s|
    ensures Sum(s[i := x]) == Sum(s) - s[i] + x
  {
    hide Sum;
    var t := s[i := x];
    SumSplit(s, i);
    SumSplit(t, i);
    assert s[..i] == t[..i] && s[i + 1..] == t[i + 1..];
  }

  lemma {:induction false} SumZeros(s: seq<int>)
    requires forall i | 0 <= i < |s| :: s[i] == 0
    ensures Sum(s) == 0
  {
    if s != [] {
      SumZeros(s[..|s| - 1]);
    }
  }

  // The last M intervals, or all if there are fewer.
  function Window(history: seq<int>): seq<int> {
    if |history| <= M then history else history[|history| - M..]
  }

  // The ring holds the window; what has never been written is zero.
  ghost predicate Holds(ring: seq<int>, history: seq<int>) {
    && |ring| == M && Places(ring, history)
    && (forall j | |history| <= j < M :: ring[j] == 0)
    && Sum(ring) == Sum(Window(history))
  }

  ghost predicate Places(ring: seq<int>, history: seq<int>)
    requires |ring| == M
  {
    forall i | 0 <= i < |history| && i >= |history| - M :: ring[i % M] == history[i]
  }

  lemma HoldsNothing(ring: seq<int>)
    requires |ring| == M && forall i | 0 <= i < M :: ring[i] == 0
    ensures Holds(ring, [])
  {
    SumZeros(ring);
  }

  lemma SumShift(window: seq<int>, x: int)
    requires window != []
    ensures Sum(window[1..] + [x]) == Sum(window) + x - window[0]
  {
    hide Sum;
    SumOne(x);
    SumOne(window[0]);
    SumConcat([window[0]], window[1..]);
    SumConcat(window[1..], [x]);
    assert [window[0]] + window[1..] == window;
  }

  lemma WindowMore(history: seq<int>, x: int)
    ensures Sum(Window(history + [x]))
              == Sum(Window(history)) + x - if |history| >= M then history[|history| - M] else 0
  {
    hide Sum;
    var k := |history|;
    if k >= M {
      var window := history[k - M..];
      assert Window(history) == window;
      assert window[1..] + [x] == (history + [x])[k + 1 - M..];
      SumShift(window, x);
    } else {
      SumOne(x);
      SumConcat(history, [x]);
    }
  }

  // Different recent intervals have different places.
  lemma PlacesDiffer(i: nat, k: nat)
    requires k - M < i < k
    ensures i % M != k % M
  {
  }

  lemma PlacesMore(ring: seq<int>, history: seq<int>, x: int)
    requires |ring| == M && Places(ring, history)
    ensures Places(ring[|history| % M := x], history + [x])
    ensures |history| >= M ==> ring[|history| % M] == history[|history| - M]
  {
    var k := |history|;
    if k >= M {
      var oldest := k - M;
      assert oldest % M == k % M;
      assert ring[oldest % M] == history[oldest];
    }
    forall i | 0 <= i < k + 1 && i >= k + 1 - M ensures ring[k % M := x][i % M] == (history + [x])[i] {
      if i < k {
        PlacesDiffer(i, k);
      }
    }
  }

  // Writing at the insert position drops the oldest interval of a full window.
  lemma HoldsMore(ring: seq<int>, history: seq<int>, x: int)
    requires Holds(ring, history)
    ensures Holds(ring[|history| % M := x], history + [x])
  {
    hide Sum, Window, Places;
    var k, p := |history|, |history| % M;
    SumUpdate(ring, p, x);
    WindowMore(history, x);
    PlacesMore(ring, history, x);
    if k < M {
      assert p == k;
    }
  }

  // ---- skewness.go ----

  // How many samples of an interval were below the mean less how many were above it, and how many there were.
  datatype Interval = Interval(base: int, num: int)
  {
    // No more samples on one side of the mean than there were in all.
    predicate IsBalanced() {
      -num <= base <= num
    }
  }

  ghost function Bases(history: seq<Interval>): (s: seq<int>)
    ensures |s| == |history| && forall i | 0 <= i < |s| :: s[i] == history[i].base
  {
    seq(|history|, i requires 0 <= i < |history| => history[i].base)
  }

  ghost function Nums(history: seq<Interval>): (s: seq<int>)
    ensures |s| == |history| && forall i | 0 <= i < |s| :: s[i] == history[i].num
  {
    seq(|history|, i requires 0 <= i < |history| => history[i].num)
  }

  method SumRing(ring: array<int>, n: nat) returns (sum: int)
    requires n <= ring.Length
    ensures sum == Sum(ring[..n])
  {
    sum := 0;
    for i := 0 to n
      invariant sum == Sum(ring[..i])
    {
      assert ring[..i + 1][..i] == ring[..i];
      sum := sum + ring[i];
    }
  }

  class SkewEst {
    var skewEst: Option<real>   // None stands for NaN, the quotient of two zeros
    const skewBaseMT: array<int>
    const numMT: array<int>
    var insPos: nat
    var skewBaseT: int
    var numT: nat
    ghost var history: seq<Interval>

    ghost predicate Valid()
      reads this, skewBaseMT, numMT
    {
      && skewBaseMT != numMT && insPos == |history|
      && Holds(skewBaseMT[..], Bases(history)) && Holds(numMT[..], Nums(history))
      && Interval(skewBaseT, numT).IsBalanced()
      && (forall i | 0 <= i < |history| :: history[i].IsBalanced())
    }

    constructor ()
      ensures Valid() && history == [] && fresh(skewBaseMT) && fresh(numMT)
    {
      skewEst, insPos, skewBaseT, numT, history := Some(0.0), 0, 0, 0, [];
      skewBaseMT := new int[M](_ => 0);
      numMT := new int[M](_ => 0);
      new;
      HoldsNothing(skewBaseMT[..]);
      HoldsNothing(numMT[..]);
    }

    method ComputeSkewBaseT(owd: real, meanDelay: real)
      requires Valid()
      modifies this`skewBaseT, this`numT
      ensures Valid() && numT == old(numT) + 1
      ensures skewBaseT == old(skewBaseT) + if owd < meanDelay then 1 else if owd > meanDelay then -1 else 0
    {
      if owd < meanDelay {
        skewBaseT := skewBaseT + 1;
      } else if owd > meanDelay {
        skewBaseT := skewBaseT - 1;
      }
      numT := numT + 1;
    }

    method AddSkewBase()
      requires Valid()
      modifies this`insPos, this`history, skewBaseMT, numMT
      ensures Valid() && history == old(history) + [Interval(skewBaseT, numT)]
    {
      hide Holds;
      HoldsMore(skewBaseMT[..], Bases(history), skewBaseT);
      HoldsMore(numMT[..], Nums(history), numT);
      RingLength(skewBaseMT[..], Bases(history));
      RingLength(numMT[..], Nums(history));
      ghost var bases, nums := skewBaseMT[..], numMT[..];
      skewBaseMT[insPos % M] := skewBaseT;
      numMT[insPos % M] := numT;
      ghost var history' := history + [Interval(skewBaseT, numT)];
      assert skewBaseMT[..] == bases[insPos % M := skewBaseT] && numMT[..] == nums[insPos % M := numT];
      assert Bases(history') == Bases(history) + [skewBaseT] && Nums(history') == Nums(history) + [numT];
      history := history';
      insPos := insPos + 1;
    }

    // The estimate over the last M intervals: a number exactly if they have samples, and then a
    // skewness between -1 and 1.
    method ComputeSkewEst()
      requires Valid()
      modifies this, skewBaseMT, numMT
      ensures Valid() && history == old(history + [Interval(skewBaseT, numT)]) && skewBaseT == 0 && numT == 0
      ensures skewEst.Some? <==> exists i :: 0 <= i < |history| && i >= |history| - M && history[i].num > 0
      ensures skewEst.Some? ==>
                && Sum(Window(Nums(history))) > 0
                && skewEst.value == Sum(Window(Bases(history))) as real / Sum(Window(Nums(history))) as real
                && -1.0 <= skewEst.value <= 1.0
    {
      hide Sum, Window;
      AddSkewBase();
      assert skewBaseMT[..] == skewBaseMT[..M] && numMT[..] == numMT[..M];
      var sumMT := SumRing(skewBaseMT, M);
      var num := SumRing(numMT, M);
      SamplesSum(history);
      if num > 0 {
        SkewnessBounded(history);
        skewEst := Some(sumMT as real / num as real);
      } else {
        skewEst := None;
      }
      skewBaseT := 0;
      numT := 0;
    }
  }

  lemma {:induction false} SumPositive(s: seq<int>)
    requires forall i | 0 <= i < |s| :: s[i] >= 0
    ensures Sum(s) >= 0
    ensures Sum(s) > 0 <==> exists i :: 0 <= i < |s| && s[i] > 0
  {
    if s != [] {
      var rest := s[..|s| - 1];
      SumPositive(rest);
      assert forall i | 0 <= i < |rest| :: rest[i] == s[i];
    }
  }

  // The number of samples in the window is positive exactly if some interval in it has one.
  lemma SamplesSum(history: seq<Interval>)
    requires forall i | 0 <= i < |history| :: history[i].IsBalanced()
    ensures Sum(Window(Nums(history))) >= 0
    ensures Sum(Window(Nums(history))) > 0 <==>
              exists i :: 0 <= i < |history| && i >= |history| - M && history[i].num > 0
  {
    var nums := Window(Nums(history));
    var from := |history| - |nums|;
    assert forall i | 0 <= i < |nums| :: nums[i] == history[from + i].num && history[from + i].IsBalanced();
    SumPositive(nums);
    if i :| 0 <= i < |history| && i >= |history| - M && history[i].num > 0 {
      assert nums[i - from] > 0;
    }
  }

  lemma RingLength(ring: seq<int>, history: seq<int>)
    requires Holds(ring, history)
    ensures |ring| == M
  {
  }

  lemma {:induction false} SumBounded(s: seq<int>, t: seq<int>)
    requires |s| == |t| && forall i | 0 <= i < |s| :: -t[i] <= s[i] <= t[i]
    ensures -Sum(t) <= Sum(s) <= Sum(t)
  {
    if s != [] {
      SumBounded(s[..|s| - 1], t[..|t| - 1]);
    }
  }

  lemma SkewnessBounded(history: seq<Interval>)
    requires forall i | 0 <= i < |history| :: history[i].IsBalanced()
    requires Sum(Window(Nums(history))) > 0
    ensures -1.0 <= Sum(Window(Bases(history))) as real / Sum(Window(Nums(history))) as real <= 1.0
  {
    SumBounded(Window(Bases(history)), Window(Nums(history)));
    Ratio(Sum(Window(Bases(history))), Sum(Window(Nums(history))));
  }

  lemma Ratio(a: int, b: int)
    requires b > 0 && -b <= a <= b
    ensures -1.0 <= a as real / b as real <= 1.0
  {
  }

  // ---- frequency.go ----

  const PV := 0.7

  // Which way each interval crossed the mean: 0 not at all, 1 up, 2 down. A crossing in the direction of
  // the one before it is recorded only M intervals later.
  ghost predicate Apart(crossings: seq<nat>) {
    forall i, j | 0 <= i < j < |crossings| && crossings[i] == crossings[j] != 0 && Quiet(crossings, i + 1, j) ::
      j - i >= M
  }

  // No crossing from i on, up to j.
  ghost predicate Quiet(crossings: seq<nat>, i: nat, j: nat) {
    i <= j <= |crossings| && forall k | i <= k < j :: crossings[k] == 0
  }

  // What lnc and lastStateCross remember.
  ghost predicate Remembers(crossings: seq<nat>, lnc: nat, last: nat) {
    if Quiet(crossings, 0, |crossings|) then lnc == 0 && last == 0
    else
      && lnc < |crossings| && crossings[lnc] != 0 && Quiet(crossings, lnc + 1, |crossings|)
      && last == if |crossings| - lnc <= M then crossings[lnc] else 0
  }

  // The direction of the last crossing, if there is one.
  ghost function LastCrossing(crossings: seq<nat>): nat {
    if crossings == [] then 0
    else if crossings[|crossings| - 1] != 0 then crossings[|crossings| - 1]
    else LastCrossing(crossings[..|crossings| - 1])
  }

  // The direction of the last crossing among the M - 1 intervals before the next one.
  ghost function Recent(crossings: seq<nat>): nat {
    LastCrossing(LastIntervals(crossings))
  }

  ghost function LastIntervals(crossings: seq<nat>): (part: seq<nat>)
    ensures |part| == if |crossings| < M then |crossings| else M - 1
    ensures forall i | 0 <= i < |part| :: part[i] == crossings[|crossings| - |part| + i]
  {
    if |crossings| < M then crossings else crossings[|crossings| - M + 1..]
  }

  // Up if the mean is at or above the margin and the last crossing was not up; down likewise; else none.
  function Direction(mean: real, meanDelay: real, margin: real, recent: nat): nat {
    if mean >= meanDelay + margin && recent != 1 then 1
    else if mean <= meanDelay - margin && recent != 2 then 2
    else 0
  }

  // With all zeros behind it, a crossing is the last one.
  lemma {:induction false} LastBeforeQuiet(s: seq<nat>, q: nat)
    requires q < |s| && s[q] != 0 && forall k | q < k < |s| :: s[k] == 0
    ensures LastCrossing(s) == s[q]
  {
    if q < |s| - 1 {
      LastBeforeQuiet(s[..|s| - 1], q);
    }
  }

  lemma {:induction false} LastOfQuiet(s: seq<nat>)
    requires forall k | 0 <= k < |s| :: s[k] == 0
    ensures LastCrossing(s) == 0
  {
    if s != [] {
      LastOfQuiet(s[..|s| - 1]);
    }
  }

  // What is remembered is the direction of the last crossing, until it is M intervals old.
  lemma RecentRemembered(crossings: seq<nat>, lnc: nat, last: nat)
    requires Remembers(crossings, lnc, last)
    ensures Recent(crossings) == if |crossings| - lnc == M then 0 else last
  {
    hide LastCrossing, LastIntervals;
    var part := LastIntervals(crossings);
    var from := |crossings| - |part|;
    if Quiet(crossings, 0, |crossings|) || lnc < from {
      LastOfQuiet(part);
    } else {
      LastBeforeQuiet(part, lnc - from);
    }
  }

  // The last crossing in this direction among the M - 1 intervals before the next one, without another after it.
  ghost predicate CrossedLast(crossings: seq<nat>, direction: nat) {
    exists i :: |crossings| - 49 <= i < |crossings| && 0 <= i && crossings[i] == direction
                && Quiet(crossings, i + 1, |crossings|)
  }

  // A crossing is recorded exactly if the mean leaves the margin on a side that the last crossing among the 49
  // intervals before did not go to already.
  lemma DirectionMeans(crossings: seq<nat>, mean: real, meanDelay: real, margin: real)
    ensures var d := Direction(mean, meanDelay, margin, Recent(crossings));
            && (d == 1 <==> mean >= meanDelay + margin && !CrossedLast(crossings, 1))
            && (d == 2 <==> d != 1 && mean <= meanDelay - margin && !CrossedLast(crossings, 2))
            && d <= 2
  {
    hide LastCrossing;
    RecentIs(crossings, 1);
    RecentIs(crossings, 2);
  }

  lemma RecentIs(crossings: seq<nat>, direction: nat)
    requires direction > 0
    ensures Recent(crossings) == direction <==> CrossedLast(crossings, direction)
  {
    hide Recent, Quiet;
    if Recent(crossings) == direction {
      var _ := RecentPlace(crossings);
    }
    if CrossedLast(crossings, direction) {
      var i :| |crossings| - 49 <= i < |crossings| && 0 <= i && crossings[i] == direction
               && Quiet(crossings, i + 1, |crossings|);
      RecentFound(crossings, i);
    }
  }

  lemma RecentFound(crossings: seq<nat>, i: nat)
    requires |crossings| - 49 <= i < |crossings| && crossings[i] != 0 && Quiet(crossings, i + 1, |crossings|)
    ensures Recent(crossings) == crossings[i]
  {
    hide LastCrossing;
    var part := LastIntervals(crossings);
    var from := |crossings| - |part|;
    forall k | i - from < k < |part| ensures part[k] == 0 {
      assert crossings[from + k] == 0;
    }
    LastBeforeQuiet(part, i - from);
  }

  lemma RecentPlace(crossings: seq<nat>) returns (i: nat)
    requires Recent(crossings) != 0
    ensures |crossings| - 49 <= i < |crossings| && crossings[i] == Recent(crossings)
            && Quiet(crossings, i + 1, |crossings|)
  {
    hide LastCrossing;
    var part := LastIntervals(crossings);
    var q := LastPlace(part);
    i := |crossings| - |part| + q;
    forall k | i + 1 <= k < |crossings| ensures crossings[k] == 0 {
      assert part[k - (|crossings| - |part|)] == 0;
    }
  }

  // Where the last crossing is, if there is one.
  lemma {:induction false} LastPlace(s: seq<nat>) returns (q: nat)
    requires LastCrossing(s) != 0
    ensures q < |s| && s[q] == LastCrossing(s) && forall k | q < k < |s| :: s[k] == 0
  {
    if s[|s| - 1] != 0 {
      q := |s| - 1;
    } else {
      q := LastPlace(s[..|s| - 1]);
    }
  }

  lemma QuietMore(crossings: seq<nat>, i: nat, cross: nat)
    requires i <= |crossings|
    ensures Quiet(crossings + [cross], i, |crossings| + 1) <==> Quiet(crossings, i, |crossings|) && cross == 0
  {
    var crossings' := crossings + [cross];
    assert forall k | 0 <= k < |crossings| :: crossings'[k] == crossings[k];
    assert crossings'[|crossings|] == cross;
  }

  lemma RememberNext(crossings: seq<nat>, lnc: nat, last: nat, cross: nat)
    requires Remembers(crossings, lnc, last)
    ensures cross != 0 ==> Remembers(crossings + [cross], |crossings|, cross)
    ensures cross == 0 ==> Remembers(crossings + [cross], lnc, if |crossings| - lnc == M then 0 else last)
  {
    hide Quiet;
    QuietMore(crossings, 0, cross);
    if Quiet(crossings, 0, |crossings|) {
      AllQuiet(crossings + [cross], |crossings| + 1);
    } else {
      QuietMore(crossings, lnc + 1, cross);
      AllQuiet(crossings + [cross], |crossings| + 1);
    }
  }

  lemma AllQuiet(crossings: seq<nat>, k: nat)
    requires k <= |crossings|
    ensures Quiet(crossings, k, k)
  {
  }

  // The next interval: `cross` is 0, or a direction that is not the remembered one.
  lemma RecordNext(crossings: seq<nat>, lnc: nat, last: nat, cross: nat)
    requires Apart(crossings) && Remembers(crossings, lnc, last)
    requires var kept := if |crossings| - lnc == M then 0 else last; cross != 0 ==> cross != kept
    ensures Apart(crossings + [cross])
  {
    var k, crossings' := |crossings|, crossings + [cross];
    assert forall i | 0 <= i < k :: crossings'[i] == crossings[i];
    forall i, j | 0 <= i < j <= k && crossings'[i] == crossings'[j] != 0 && Quiet(crossings', i + 1, j)
      ensures j - i >= M
    {
      if j < k {
        assert Quiet(crossings, i + 1, j);
      } else {
        assert Quiet(crossings, i + 1, k);
        assert i == lnc;
      }
    }
  }

  class FreqEst {
    var freqEst: real
    const numberOfCrossMT: array<int>
    var lastStateCross: nat
    var lnc: nat
    var insPos: nat
    var n: nat
    ghost var crossings: seq<nat>

    ghost predicate Valid()
      reads this, numberOfCrossMT
    {
      && insPos == |crossings| && n == |Window(Marks(crossings))|
      && Holds(numberOfCrossMT[..], Marks(crossings))
      && Apart(crossings) && Remembers(crossings, lnc, lastStateCross)
    }

    constructor ()
      ensures Valid() && crossings == [] && fresh(numberOfCrossMT)
    {
      freqEst, lastStateCross, lnc, insPos, n, crossings := 0.0, 0, 0, 0, 0, [];
      numberOfCrossMT := new int[M](_ => 0);
      new;
      HoldsNothing(numberOfCrossMT[..]);
    }

    // One more interval, with or without a crossing of the mean.
    method CountCrossOscillation(meanOWD: real, meanDelay: real, varEst: real)
      requires Valid()
      modifies this`lastStateCross, this`lnc, this`insPos, this`crossings, numberOfCrossMT
      ensures insPos == |crossings| == old(insPos) + 1
      ensures crossings == old(crossings + [Direction(meanOWD, meanDelay, varEst * 0.7, Recent(crossings))])
      ensures Holds(numberOfCrossMT[..], Marks(crossings))
      ensures Apart(crossings) && Remembers(crossings, lnc, lastStateCross)
    {
      hide Holds, Apart, Remembers, Marks, Recent;
      RecentRemembered(crossings, lnc, lastStateCross);
      var numberOfCross, cross := 0, 0;
      var d := varEst * PV;
      RememberedBefore(crossings, lnc, lastStateCross);
      ghost var last := lastStateCross;
      if insPos - lnc == M {
        lastStateCross := 0;
      }
      if meanOWD >= meanDelay + d && lastStateCross != 1 {
        numberOfCross, cross := 1, 1;
      } else if meanOWD <= meanDelay - d && lastStateCross != 2 {
        numberOfCross, cross := 1, 2;
      }
      RecordNext(crossings, lnc, last, cross);
      RememberNext(crossings, lnc, last, cross);
      if cross != 0 {
        lastStateCross := cross;
        lnc := insPos;
      }
      HoldsMore(numberOfCrossMT[..], Marks(crossings), numberOfCross);
      RingLength(numberOfCrossMT[..], Marks(crossings));
      MarksMore(crossings, cross);
      ghost var ring := numberOfCrossMT[..];
      numberOfCrossMT[insPos % M] := numberOfCross;
      assert numberOfCrossMT[..] == ring[insPos % M := numberOfCross];
      crossings := crossings + [cross];
      insPos := insPos + 1;
    }

    // The share of crossings among the last M intervals.
    method ComputeFreqEst(meanOWD: real, meanDelay: real, varEst: real)
      requires Valid()
      modifies this, numberOfCrossMT
      ensures Valid() && insPos == old(insPos) + 1
      ensures crossings == old(crossings + [Direction(meanOWD, meanDelay, varEst * 0.7, Recent(crossings))])
      ensures var marks := Window(Marks(crossings)); freqEst == Sum(marks) as real / |marks| as real
      ensures 0.0 <= freqEst <= 1.0
    {
      hide Sum, Apart, Remembers, Holds, Window, Marks, Recent, Direction;
      WindowLength(Marks(crossings));
      CountCrossOscillation(meanOWD, meanDelay, varEst);
      WindowLength(Marks(crossings));
      if n < M {
        n := n + 1;
      }
      RingLength(numberOfCrossMT[..], Marks(crossings));
      SumOfFirst(numberOfCrossMT[..], Marks(crossings), n);
      assert numberOfCrossMT[..][..n] == numberOfCrossMT[..n];
      var sumMT := SumRing(numberOfCrossMT, n);
      ShareOfMarks(crossings);
      freqEst := sumMT as real / n as real;
    }
  }

  lemma WindowLength(history: seq<int>)
    ensures |Window(history)| == if |history| < M then |history| else M
  {
  }

  ghost function Marks(crossings: seq<nat>): (s: seq<int>)
    ensures |s| == |crossings| && forall i | 0 <= i < |s| :: s[i] == if crossings[i] == 0 then 0 else 1
  {
    seq(|crossings|, i requires 0 <= i < |crossings| => if crossings[i] == 0 then 0 else 1)
  }

  lemma MarksMore(crossings: seq<nat>, cross: nat)
    ensures Marks(crossings + [cross]) == Marks(crossings) + [if cross == 0 then 0 else 1]
  {
  }

  lemma RememberedBefore(crossings: seq<nat>, lnc: nat, last: nat)
    requires Remembers(crossings, lnc, last)
    ensures lnc <= |crossings|
  {
  }

  // The part of the ring that has not been written adds nothing.
  lemma SumOfFirst(ring: seq<int>, history: seq<int>, n: nat)
    requires Holds(ring, history) && n == |Window(history)|
    ensures n <= |ring| && Sum(ring[..n]) == Sum(Window(history))
  {
    assert ring == ring[..n] + ring[n..];
    SumConcat(ring[..n], ring[n..]);
    SumZeros(ring[n..]);
  }

  lemma {:induction false} SumOfMarks(marks: seq<int>)
    requires forall i | 0 <= i < |marks| :: marks[i] == 0 || marks[i] == 1
    ensures 0 <= Sum(marks) <= |marks|
  {
    if marks != [] {
      SumOfMarks(marks[..|marks| - 1]);
    }
  }

  lemma ShareOfMarks(crossings: seq<nat>)
    requires crossings != []
    ensures var marks := Window(Marks(crossings)); 0.0 <= Sum(marks) as real / |marks| as real <= 1.0
  {
    SumOfMarks(Window(Marks(crossings)));
    Share(Sum(Window(Marks(crossings))), |Window(Marks(crossings))|);
  }

  lemma Share(a: int, b: int)
    requires 0 <= a <= b && b > 0
    ensures 0.0 <= a as real / b as real <= 1.0
  {
  }
}
