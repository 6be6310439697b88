/**
 What splitting flows by gaps between sorted keys means: two flows end up together exactly if a
 chain of flows joins them, each within the threshold of the next. Nothing in this depends on the
 order in which the flows are listed.
 */
module SingleLinkage {
  import opened Partitions

  // The statistics of one flow, as far as the grouping looks at them.
  datatype Statistics = Statistics(skewness: real, varest: real, freqest: real, loss: real, pb: bool)

  datatype Key = Freq | Var | Skew | Loss

  datatype Flag = Absolute | Proportional

  // What a split compares: flow k has the statistics stats[k].
  datatype Rule = Rule(stats: seq<Statistics>, key: Key, delta: real, flag: Flag)
  {
    ghost predicate Valid() {
      0.0 <= delta <= 1.0
    }

    predicate Knows(ids: seq<nat>) {
      forall i | 0 <= i < |ids| :: ids[i] < |stats|
    }

    function Value(k: nat): real
      requires k < |stats|
    {
      match key
      case Freq => stats[k].freqest
      case Var => stats[k].varest
      case Skew => stats[k].skewness
      case Loss => stats[k].loss
    }

    // Does a flow join the group of the flow listed before it? Only the variance sets a
    // proportional threshold; for the other keys it stays zero.
    predicate Joins(prev: nat, k: nat)
      requires prev < |stats| && k < |stats|
    {
      var diff := Value(prev) - Value(k);
      match flag
      case Absolute => diff < delta
      case Proportional => diff < if key == Var then Value(prev) * delta else 0.0
    }

    ghost predicate Linked(a: nat, b: nat) {
      && a < |stats| && b < |stats|
      && if Value(a) >= Value(b) then Joins(a, b) else Joins(b, a)
    }

    ghost predicate IsChain(all: set<nat>, p: seq<nat>) {
      && p != []
      && (forall i | 0 <= i < |p| :: p[i] in all)
      && (forall i | 0 < i < |p| :: Linked(p[i - 1], p[i]))
    }

    ghost predicate Connected(all: set<nat>, a: nat, b: nat) {
      exists p :: IsChain(all, p) && p[0] == a && p[|p| - 1] == b
    }

    ghost predicate Descending(ids: seq<nat>)
      requires Knows(ids)
    {
      forall i, j | 0 <= i < j < |ids| :: Value(ids[i]) >= Value(ids[j])
    }
  }

  // The first position of every group, and the end of the last: a flow starts a group unless it joins.
  ghost predicate AreCuts(r: Rule, ids: seq<nat>, cuts: seq<nat>)
    requires r.Knows(ids)
  {
    && |cuts| > 0 && cuts[0] == 0 && cuts[|cuts| - 1] == |ids|
    && (forall g, h | 0 <= g < h < |cuts| :: cuts[g] < cuts[h])
    && (forall i | 0 < i < |ids| :: i in cuts <==> !r.Joins(ids[i - 1], ids[i]))
  }

  ghost predicate AreSlices(ids: seq<nat>, cuts: seq<nat>, groups: seq<seq<nat>>) {
    && |cuts| == |groups| + 1
    && forall g | 0 <= g < |groups| :: IsSlice(ids, cuts, g, groups[g])
  }

  ghost predicate IsSlice(ids: seq<nat>, cuts: seq<nat>, g: nat, group: seq<nat>) {
    g + 1 < |cuts| && cuts[g] < cuts[g + 1] <= |ids| && group == ids[cuts[g]..cuts[g + 1]]
  }

  // The groups are the connected components.
  ghost predicate Clusters(r: Rule, groups: seq<seq<nat>>, all: set<nat>) {
    && Partition(groups, all)
    && forall a, b | a in all && b in all :: Together(groups, a, b) <==> r.Connected(all, a, b)
  }

  // ---- from sorted flows to connected components ----

  lemma {:induction false} GroupAt(cuts: seq<nat>, i: nat, g: nat) returns (h: nat)
    requires |cuts| > 0 && (forall g, h | 0 <= g < h < |cuts| :: cuts[g] < cuts[h])
    requires g < |cuts| - 1 && cuts[g] <= i < cuts[|cuts| - 1]
    ensures g <= h < |cuts| - 1 && cuts[h] <= i < cuts[h + 1]
    decreases |cuts| - g
  {
    if i < cuts[g + 1] {
      h := g;
    } else {
      h := GroupAt(cuts, i, g + 1);
    }
  }

  // A wider gap is never closed when a narrower one inside it is not.
  lemma JoinsInside(r: Rule, a: nat, b: nat, c: nat, d: nat)
    requires r.Valid() && a < |r.stats| && b < |r.stats| && c < |r.stats| && d < |r.stats|
    requires r.Value(a) >= r.Value(b) >= r.Value(c) >= r.Value(d)
    requires r.Joins(a, d)
    ensures r.Joins(b, c)
  {
    if r.flag == Proportional && r.key == Var {
      var rest := 1.0 - r.delta;
      assert r.Value(b) * rest <= r.Value(a) * rest;
    }
  }

  lemma SlicesPartition(r: Rule, ids: seq<nat>, cuts: seq<nat>, groups: seq<seq<nat>>)
    requires r.Knows(ids) && Distinct(ids) && AreCuts(r, ids, cuts) && AreSlices(ids, cuts, groups)
    ensures Partition(groups, Elements(ids))
  {
    forall k | k in Elements(ids) ensures exists g :: 0 <= g < |groups| && k in groups[g] {
      var i :| 0 <= i < |ids| && ids[i] == k;
      var g := GroupAt(cuts, i, 0);
      assert groups[g][i - cuts[g]] == k;
    }
    forall g | 0 <= g < |groups| ensures groups[g] != [] && Distinct(groups[g]) {
      SliceAt(ids, cuts, g, groups[g]);
    }
    forall g, k | 0 <= g < |groups| && k in groups[g] ensures k in Elements(ids) {
      var x := PlaceOf(ids, cuts, g, groups[g], k);
    }
    forall g, h, k | 0 <= g < h < |groups| && k in groups[g] ensures k !in groups[h] {
      var x := PlaceOf(ids, cuts, g, groups[g], k);
      if k in groups[h] {
        var y := PlaceOf(ids, cuts, h, groups[h], k);
        assert false;
      }
    }
  }

  lemma SliceAt(ids: seq<nat>, cuts: seq<nat>, g: nat, group: seq<nat>)
    requires Distinct(ids) && IsSlice(ids, cuts, g, group)
    ensures group != [] && Distinct(group)
  {
  }

  lemma PlaceOf(ids: seq<nat>, cuts: seq<nat>, g: nat, group: seq<nat>, k: nat) returns (i: nat)
    requires IsSlice(ids, cuts, g, group) && k in group
    ensures cuts[g] <= i < cuts[g + 1] && ids[i] == k
  {
    var x :| 0 <= x < |group| && group[x] == k;
    i := cuts[g] + x;
  }

  // Two linked flows are in the same slice: every cut between them would be between linked flows.
  lemma LinkedTogether(r: Rule, ids: seq<nat>, cuts: seq<nat>, groups: seq<seq<nat>>, i: nat, j: nat)
    requires r.Valid() && r.Knows(ids) && r.Descending(ids)
    requires AreCuts(r, ids, cuts) && AreSlices(ids, cuts, groups)
    requires i <= j < |ids| && r.Linked(ids[i], ids[j])
    ensures Together(groups, ids[i], ids[j])
  {
    var g := GroupAt(cuts, i, 0);
    assert groups[g][i - cuts[g]] == ids[i];
    if j < cuts[g + 1] {
      assert groups[g][j - cuts[g]] == ids[j];
    } else {
      var c := cuts[g + 1];
      assert c in cuts && i < c <= j;
      assert r.Value(ids[i]) >= r.Value(ids[c - 1]);
      assert r.Value(ids[c]) >= r.Value(ids[j]);
      JoinsAnyway(r, ids[i], ids[j]);
      JoinsInside(r, ids[i], ids[c - 1], ids[c], ids[j]);
      assert false;
    }
  }

  lemma JoinsAnyway(r: Rule, a: nat, b: nat)
    requires r.Linked(a, b) && r.Value(a) >= r.Value(b)
    ensures r.Joins(a, b)
  {
  }

  lemma PairTogether(r: Rule, ids: seq<nat>, cuts: seq<nat>, groups: seq<seq<nat>>, a: nat, b: nat)
    requires r.Valid() && r.Knows(ids) && r.Descending(ids)
    requires AreCuts(r, ids, cuts) && AreSlices(ids, cuts, groups)
    requires a in Elements(ids) && b in Elements(ids) && r.Linked(a, b)
    ensures Together(groups, a, b)
  {
    hide Rule.Linked, Rule.Descending, AreCuts, AreSlices;
    var i :| 0 <= i < |ids| && ids[i] == a;
    var j :| 0 <= j < |ids| && ids[j] == b;
    if i <= j {
      LinkedTogether(r, ids, cuts, groups, i, j);
    } else {
      LinkedBack(r, a, b);
      LinkedTogether(r, ids, cuts, groups, j, i);
    }
  }

  lemma {:induction false} ChainTogether(r: Rule, ids: seq<nat>, cuts: seq<nat>, groups: seq<seq<nat>>, p: seq<nat>)
    requires r.Valid() && r.Knows(ids) && r.Descending(ids) && Partition(groups, Elements(ids))
    requires AreCuts(r, ids, cuts) && AreSlices(ids, cuts, groups)
    requires r.IsChain(Elements(ids), p)
    ensures Together(groups, p[0], p[|p| - 1])
  {
    hide Rule.Linked, Rule.Descending, AreCuts, AreSlices;
    assert p[0] in Elements(ids);
    if |p| > 1 {
      var q := p[1..];
      assert forall i | 0 < i < |q| :: q[i - 1] == p[i] && q[i] == p[i + 1];
      ChainTogether(r, ids, cuts, groups, q);
      PairTogether(r, ids, cuts, groups, p[1 - 1], p[1]);
      TogetherTransitive(groups, Elements(ids), p[0], p[1], p[|p| - 1]);
    }
  }

  lemma LinkedBack(r: Rule, a: nat, b: nat)
    requires r.Linked(a, b)
    ensures r.Linked(b, a)
  {
  }

  lemma NotACut(cuts: seq<nat>, g: nat, t: nat)
    requires forall g, h | 0 <= g < h < |cuts| :: cuts[g] < cuts[h]
    requires g + 1 < |cuts| && cuts[g] < t < cuts[g + 1]
    ensures t !in cuts
  {
    forall h | 0 <= h < |cuts| ensures cuts[h] != t {
      assert h < g ==> cuts[h] < cuts[g];
      assert h > g + 1 ==> cuts[g + 1] < cuts[h];
    }
  }

  // A position inside a slice, but not at its start, is linked with the one before it.
  lemma LinkedInside(r: Rule, ids: seq<nat>, cuts: seq<nat>, g: nat, t: nat)
    requires r.Knows(ids) && r.Descending(ids) && AreCuts(r, ids, cuts)
    requires g + 1 < |cuts| && cuts[g] < t < cuts[g + 1]
    ensures t < |ids| && r.Linked(ids[t - 1], ids[t]) && r.Linked(ids[t], ids[t - 1])
  {
    assert cuts[g + 1] <= cuts[|cuts| - 1];
    NotACut(cuts, g, t);
    JoinedLinked(r, ids[t - 1], ids[t]);
  }

  // The flows from one position to another, in either direction.
  ghost function Walk(ids: seq<nat>, i: nat, j: nat): (p: seq<nat>)
    requires i < |ids| && j < |ids|
    ensures |p| == if i <= j then j - i + 1 else i - j + 1
    ensures forall x | 0 <= x < |p| :: p[x] == if i <= j then ids[i + x] else ids[i - x]
  {
    if i <= j then ids[i..j + 1] else seq(i - j + 1, x requires 0 <= x < i - j + 1 => ids[i - x])
  }

  // Inside a slice, the flows from one position to another form a chain.
  lemma SliceConnected(r: Rule, ids: seq<nat>, cuts: seq<nat>, g: nat, i: nat, j: nat)
    requires r.Knows(ids) && r.Descending(ids) && AreCuts(r, ids, cuts)
    requires g + 1 < |cuts| && cuts[g] <= i < cuts[g + 1] <= |ids| && cuts[g] <= j < cuts[g + 1]
    ensures r.Connected(Elements(ids), ids[i], ids[j])
  {
    hide AreCuts, Walk, Rule.Linked, Rule.Descending, Rule.Knows;
    var p := Walk(ids, i, j);
    forall x | 0 < x < |p| ensures r.Linked(p[x - 1], p[x]) {
      LinkedInside(r, ids, cuts, g, if i <= j then i + x else i - x + 1);
    }
    forall x | 0 <= x < |p| ensures p[x] in Elements(ids) {
      assert p[x] == ids[if i <= j then i + x else i - x];
    }
    assert r.IsChain(Elements(ids), p);
  }

  lemma JoinedLinked(r: Rule, a: nat, b: nat)
    requires a < |r.stats| && b < |r.stats| && r.Joins(a, b) && r.Value(a) >= r.Value(b)
    ensures r.Linked(a, b) && r.Linked(b, a)
  {
  }

  // Sorting and cutting at the gaps finds the connected components.
  lemma CutsCluster(r: Rule, ids: seq<nat>, cuts: seq<nat>, groups: seq<seq<nat>>)
    requires r.Valid() && r.Knows(ids) && Distinct(ids) && r.Descending(ids)
    requires AreCuts(r, ids, cuts) && AreSlices(ids, cuts, groups)
    ensures Clusters(r, groups, Elements(ids))
  {
    var all := Elements(ids);
    SlicesPartition(r, ids, cuts, groups);
    forall a, b | a in all && b in all ensures Together(groups, a, b) <==> r.Connected(all, a, b) {
      if Together(groups, a, b) {
        var g :| 0 <= g < |groups| && a in groups[g] && b in groups[g];
        var i := PlaceOf(ids, cuts, g, groups[g], a);
        var j := PlaceOf(ids, cuts, g, groups[g], b);
        SliceConnected(r, ids, cuts, g, i, j);
      }
      if r.Connected(all, a, b) {
        var p :| r.IsChain(all, p) && p[0] == a && p[|p| - 1] == b;
        ChainTogether(r, ids, cuts, groups, p);
      }
    }
  }

  // Flows listed, or ties broken, in another order fall into the same groups.
  lemma OrderIrrelevant(r: Rule, groups: seq<seq<nat>>, groups': seq<seq<nat>>, all: set<nat>, a: nat, b: nat)
    requires Clusters(r, groups, all) && Clusters(r, groups', all) && a in all && b in all
    ensures Together(groups, a, b) <==> Together(groups', a, b)
  {
  }

  // Flows without any variance are never grouped by variance, not even with each other.
  lemma ZeroVarianceAlone(r: Rule, all: set<nat>, a: nat, b: nat)
    requires r.Valid() && r.key == Var && r.flag == Proportional && a < |r.stats| && r.stats[a].varest == 0.0
    requires forall k | k in all :: k < |r.stats| && r.stats[k].varest >= 0.0
    ensures r.Connected(all, a, b) ==> a == b
  {
    if r.Connected(all, a, b) && a != b {
      var p :| r.IsChain(all, p) && p[0] == a && p[|p| - 1] == b;
      ZeroVarianceUnlinked(r, a, p[1]);
    }
  }

  lemma ZeroVarianceUnlinked(r: Rule, a: nat, b: nat)
    requires r.Valid() && r.key == Var && r.flag == Proportional && a < |r.stats| && r.stats[a].varest == 0.0
    requires b < |r.stats| && r.stats[b].varest >= 0.0
    ensures !r.Linked(a, b)
  {
    assert r.stats[b].varest * r.delta <= r.stats[b].varest * 1.0;
  }

  // A proportional threshold admits an equal variance exactly if it is not zero.
  lemma EqualVarianceLinked(r: Rule, a: nat, b: nat)
    requires r.Valid() && r.delta > 0.0 && r.key == Var && r.flag == Proportional
    requires a < |r.stats| && b < |r.stats| && r.stats[a].varest == r.stats[b].varest >= 0.0
    ensures r.Linked(a, b) <==> r.stats[a].varest > 0.0
  {
    var v := r.stats[a].varest;
    assert v > 0.0 ==> v * r.delta > 0.0;
  }

  // So two flows of the same variance are grouped by variance exactly if it is not zero.
  lemma EqualVarianceGrouped(r: Rule, all: set<nat>, a: nat, b: nat)
    requires r.Valid() && r.delta > 0.0 && r.key == Var && r.flag == Proportional
    requires forall k | k in all :: k < |r.stats| && r.stats[k].varest >= 0.0
    requires a in all && b in all && a != b && r.stats[a].varest == r.stats[b].varest
    ensures r.Connected(all, a, b) <==> r.stats[a].varest > 0.0
  {
    if r.stats[a].varest > 0.0 {
      EqualVarianceLinked(r, a, b);
      var p := [a, b];
      assert r.IsChain(all, p);
    } else {
      ZeroVarianceAlone(r, all, a, b);
    }
  }
}
