/**
 What the numbers of FlowGrouping say about the statistics of two paths themselves: key frequency, variance, and
 loss or skewness.
 */
module PathNumbers {
  import opened SingleLinkage
  import opened FlowGrouping

  // ---- when two flows are linked ----

  predicate Within(x: real, y: real, delta: real) {
    -delta < x - y < delta
  }

  // The smaller is more than nine tenths of the larger.
  predicate SameScale(x: real, y: real) {
    if x >= y then y > 0.9 * x else x > 0.9 * y
  }

  lemma LinkedByFrequency(stats: seq<Statistics>, a: nat, b: nat)
    requires a < |stats| && b < |stats|
    ensures ByFrequency(stats).Linked(a, b) <==> Within(stats[a].freqest, stats[b].freqest, 0.1)
  {
  }

  lemma LinkedByVariance(stats: seq<Statistics>, a: nat, b: nat)
    requires a < |stats| && b < |stats|
    ensures ByVariance(stats).Linked(a, b) <==> SameScale(stats[a].varest, stats[b].varest)
  {
  }

  // Skewness counts unless one of the flows loses more than a tenth.
  lemma LinkedBySkewness(stats: seq<Statistics>, all: set<nat>, a: nat, b: nat)
    requires a < |stats| && b < |stats| && forall k | k in all :: k < |stats|
    ensures BySkewness(stats, all).Linked(a, b) <==>
              if exists k :: k in all && k < |stats| && stats[k].loss > 0.1 then
                Within(stats[a].loss, stats[b].loss, 0.1)
              else Within(stats[a].skewness, stats[b].skewness, 0.15)
  {
  }

  // A flow that was put on the congested side stays there until its skewness reaches the higher threshold.
  lemma Hysteresis(s: Statistics)
    ensures IsCongested(s.(pb := false)) <==> s.skewness < 0.1 || s.loss > 0.1
    ensures IsCongested(s.(pb := true)) <==> s.skewness < 0.3 || s.loss > 0.1
  {
  }

  // ---- when they are connected ----

  lemma LinkConnects(r: Rule, all: set<nat>, a: nat, b: nat)
    requires a in all && b in all && r.Linked(a, b)
    ensures r.Connected(all, a, b)
  {
    assert r.IsChain(all, [a, b]);
  }

  // No chain leads out of a side that no link leaves.
  lemma {:induction false} ChainStays(r: Rule, all: set<nat>, side: set<nat>, p: seq<nat>)
    requires r.IsChain(all, p) && forall x, y | x in all && y in all && r.Linked(x, y) :: x in side <==> y in side
    ensures p[0] in side <==> p[|p| - 1] in side
  {
    if |p| > 1 {
      var q := p[..|p| - 1];
      ChainStays(r, all, side, q);
      assert r.Linked(p[|p| - 1 - 1], p[|p| - 1]);
    }
  }

  lemma StaysOnSide(r: Rule, all: set<nat>, side: set<nat>, a: nat, b: nat)
    requires forall x, y | x in all && y in all && r.Linked(x, y) :: x in side <==> y in side
    requires r.Connected(all, a, b)
    ensures a in side <==> b in side
  {
    hide Rule.Linked;
    var p :| r.IsChain(all, p) && p[0] == a && p[|p| - 1] == b;
    ChainStays(r, all, side, p);
  }

  // ---- numbers ----

  // Congested paths with similar frequencies and similar variances get the same number.
  lemma SimilarSameNumber(numbers: map<nat, nat>, stats: seq<Statistics>, all: set<nat>, a: nat, b: nat)
    requires NumbersFit(numbers, stats, all) && a in all && b in all && forall k | k in all :: k < |stats|
    requires Within(stats[a].freqest, stats[b].freqest, 0.1) && SameScale(stats[a].varest, stats[b].varest)
    requires SameScale(stats[a].varest, stats[a].varest)
    ensures a in numbers && b in numbers && numbers[a] == numbers[b] != 0
  {
    hide Rule.Linked, Rule.Connected;
    LinkedByFrequency(stats, a, b);
    LinkedByFrequency(stats, a, a);
    LinkedByVariance(stats, a, b);
    LinkConnects(ByFrequency(stats), all, a, b);
    LinkConnects(ByFrequency(stats), all, a, a);
    LinkConnects(ByVariance(stats), FrequencyClass(stats, all, a), a, b);
  }

  // Congested paths on either side of a gap in the frequencies get different numbers.
  lemma FrequencyGapSeparates(numbers: map<nat, nat>, stats: seq<Statistics>, all: set<nat>, lo: real, hi: real,
                              a: nat, b: nat)
    requires NumbersFit(numbers, stats, all) && a in all && b in all && forall k | k in all :: k < |stats|
    requires hi - lo >= 0.1 && forall k | k in all :: stats[k].freqest <= lo || stats[k].freqest >= hi
    requires stats[a].freqest <= lo && stats[b].freqest >= hi
    ensures a in numbers && b in numbers && numbers[a] != numbers[b]
  {
    hide Rule.Linked, Rule.Connected;
    var side := set k | k in all && stats[k].freqest <= lo;
    forall x, y | x in all && y in all && ByFrequency(stats).Linked(x, y) ensures x in side <==> y in side {
      LinkedByFrequency(stats, x, y);
    }
    if ByFrequency(stats).Connected(all, a, b) {
      StaysOnSide(ByFrequency(stats), all, side, a, b);
    }
  }

  // So do those on either side of a gap in the variances: of a tenth of the larger one.
  lemma VarianceGapSeparates(numbers: map<nat, nat>, stats: seq<Statistics>, all: set<nat>, lo: real, hi: real,
                             a: nat, b: nat)
    requires NumbersFit(numbers, stats, all) && a in all && b in all && forall k | k in all :: k < |stats|
    requires 0.0 <= lo <= 0.9 * hi && 0.0 < hi && forall k | k in all :: stats[k].varest <= lo || stats[k].varest >= hi
    requires stats[a].varest <= lo && stats[b].varest >= hi
    ensures a in numbers && b in numbers && numbers[a] != numbers[b]
  {
    hide Rule.Linked, Rule.Connected;
    var side := set k | k in all && stats[k].varest <= lo;
    var members := FrequencyClass(stats, all, a);
    forall x, y | x in members && y in members && ByVariance(stats).Linked(x, y) ensures x in side <==> y in side {
      LinkedByVariance(stats, x, y);
    }
    if ByVariance(stats).Connected(members, a, b) {
      StaysOnSide(ByVariance(stats), members, side, a, b);
    }
  }
}
