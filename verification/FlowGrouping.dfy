/**
 flow_grouping.go and the loop of compute_sbd.go that numbers the groups: congested flows are split
 by key frequency, each group by variance, and each of those by loss or skewness (section 3.3.1 of
 RFC 8382). A slice of path IDs is an array here, and sorting it works in place.
 */
module FlowGrouping {
  import opened Partitions
  import opened SingleLinkage

  const CONGESTION_THRESHOLD := 0.1
  const HYSTERESIS_THRESHOLD := 0.3
  const LOSS_THRESHOLD := 0.1
  const KEYFREQ_DELTA_THRESHOLD := 0.1
  const LOSS_DELTA_THRESHOLD := 0.1
  const SKEWNESS_DELTA_THRESHOLD := 0.15
  const VARIANCE_DELTA_THRESHOLD := 0.1

  predicate IsCongested(s: Statistics) {
    || s.skewness < CONGESTION_THRESHOLD
    || (s.skewness < HYSTERESIS_THRESHOLD && s.pb)
    || s.loss > LOSS_THRESHOLD
  }

  function ByFrequency(stats: seq<Statistics>): Rule {
    Rule(stats, Freq, KEYFREQ_DELTA_THRESHOLD, Absolute)
  }

  function ByVariance(stats: seq<Statistics>): Rule {
    Rule(stats, Var, VARIANCE_DELTA_THRESHOLD, Proportional)
  }

  // With one lossy flow among them, flows are compared by loss.
  ghost function BySkewness(stats: seq<Statistics>, all: set<nat>): Rule {
    if exists k :: k in all && k < |stats| && stats[k].loss > LOSS_THRESHOLD
    then Rule(stats, Loss, LOSS_DELTA_THRESHOLD, Absolute)
    else Rule(stats, Skew, SKEWNESS_DELTA_THRESHOLD, Absolute)
  }

  // The slices hold these path IDs.
  ghost predicate Hold(groups: seq<array<nat>>, parts: seq<seq<nat>>)
    reads groups
  {
    |parts| == |groups| && forall g | 0 <= g < |groups| :: groups[g][..] == parts[g]
  }

  ghost predicate Different(groups: seq<array<nat>>) {
    forall g, h | 0 <= g < h < |groups| :: groups[g] != groups[h]
  }

  // ---- sorting ----

  lemma {:induction false} DistinctCounts(s: seq<nat>)
    requires Distinct(s)
    ensures forall k :: multiset(s)[k] <= 1
  {
    if s != [] {
      assert s == [s[0]] + s[1..] && s[0] !in s[1..];
      DistinctCounts(s[1..]);
    }
  }

  lemma PermutationDistinct(s: seq<nat>, t: seq<nat>)
    requires Distinct(s) && multiset(s) == multiset(t)
    ensures Distinct(t) && Elements(s) == Elements(t)
  {
    DistinctCounts(s);
    forall k ensures k in s <==> k in t {
      assert k in s <==> k in multiset(s);
      assert k in t <==> k in multiset(t);
    }
    forall i, j | 0 <= i < j < |t| ensures t[i] != t[j] {
      assert t == t[..i] + [t[i]] + t[i + 1..j] + [t[j]] + t[j + 1..];
      assert multiset(t)[t[i]] <= 1;
    }
  }

  // The first i + 1 flows are in order, but for the one at j, which still has to move up.
  ghost predicate OrderedBut(r: Rule, ids: seq<nat>, i: nat, j: nat)
    requires r.Knows(ids)
  {
    i < |ids| && forall x, y | 0 <= x < y <= i && y != j :: r.Value(ids[x]) >= r.Value(ids[y])
  }

  lemma MoveUp(r: Rule, ids: seq<nat>, i: nat, j: nat)
    requires r.Knows(ids) && 0 < j <= i && OrderedBut(r, ids, i, j) && r.Value(ids[j - 1]) < r.Value(ids[j])
    ensures var ids' := ids[j - 1 := ids[j]][j := ids[j - 1]];
            r.Knows(ids') && OrderedBut(r, ids', i, j - 1) && multiset(ids') == multiset(ids)
  {
  }

  method SortFlows(ids: array<nat>, r: Rule)
    requires r.Knows(ids[..])
    modifies ids
    ensures multiset(ids[..]) == multiset(old(ids[..]))
    ensures r.Knows(ids[..]) && r.Descending(ids[..])
  {
    var i := 0;
    while i < ids.Length
      invariant 0 <= i <= ids.Length && multiset(ids[..]) == multiset(old(ids[..]))
      invariant r.Knows(ids[..]) && r.Descending(ids[..i])
    {
      Insert(ids, r, i);
      i := i + 1;
    }
    assert ids[..] == ids[..i];
  }

  method Insert(ids: array<nat>, r: Rule, i: nat)
    requires i < ids.Length && r.Knows(ids[..]) && r.Descending(ids[..i])
    modifies ids
    ensures multiset(ids[..]) == multiset(old(ids[..]))
    ensures r.Knows(ids[..]) && r.Descending(ids[..i + 1])
  {
    var j := i;
    while j > 0 && r.Value(ids[j - 1]) < r.Value(ids[j])
      invariant 0 <= j <= i && multiset(ids[..]) == multiset(old(ids[..]))
      invariant r.Knows(ids[..]) && OrderedBut(r, ids[..], i, j)
    {
      MoveUp(r, ids[..], i, j);
      ghost var moved := ids[..][j - 1 := ids[j]][j := ids[j - 1]];
      ids[j - 1], ids[j] := ids[j], ids[j - 1];
      assert ids[..] == moved;
      j := j - 1;
    }
    Ordered(r, ids[..], i, j);
  }

  lemma Ordered(r: Rule, ids: seq<nat>, i: nat, j: nat)
    requires r.Knows(ids) && j <= i && OrderedBut(r, ids, i, j)
    requires j == 0 || r.Value(ids[j - 1]) >= r.Value(ids[j])
    ensures r.Descending(ids[..i + 1])
  {
    forall x, y | 0 <= x < y <= i ensures r.Value(ids[x]) >= r.Value(ids[y]) {
      assert y == j && x < j - 1 ==> r.Value(ids[x]) >= r.Value(ids[j - 1]);
    }
  }

  // ---- splitting ----

  method CopyPaths(paths: array<nat>, len: nat) returns (copy: array<nat>)
    requires len <= paths.Length
    ensures fresh(copy) && copy[..] == paths[..len]
  {
    copy := new nat[len];
    var j := 0;
    while j < len
      invariant 0 <= j <= len && copy[..j] == paths[..j]
    {
      copy[j] := paths[j];
      j := j + 1;
    }
  }

  // The groups emitted from the first i flows; the last len of them are still in the scratch slice.
  ghost predicate Splitting(r: Rule, ids: seq<nat>, i: nat, len: nat, cuts: seq<nat>, parts: seq<seq<nat>>)
    requires r.Knows(ids)
  {
    && 0 < len <= i <= |ids| && AreSlices(ids, cuts, parts)
    && cuts[0] == 0 && cuts[|cuts| - 1] == i - len
    && (forall g, h | 0 <= g < h < |cuts| :: cuts[g] < cuts[h])
    && (forall t | 0 < t < i :: t in cuts <==> !r.Joins(ids[t - 1], ids[t]))
  }

  lemma First(r: Rule, ids: seq<nat>)
    requires r.Knows(ids) && ids != []
    ensures Splitting(r, ids, 1, 1, [0], [])
  {
  }

  lemma KnownAt(r: Rule, ids: seq<nat>, i: nat)
    requires r.Knows(ids) && 0 < i < |ids|
    ensures ids[i - 1] < |r.stats| && ids[i] < |r.stats|
  {
  }

  lemma Grow(r: Rule, ids: seq<nat>, i: nat, len: nat, cuts: seq<nat>, parts: seq<seq<nat>>)
    requires r.Knows(ids) && Splitting(r, ids, i, len, cuts, parts)
    requires i < |ids| && r.Joins(ids[i - 1], ids[i])
    ensures Splitting(r, ids, i + 1, len + 1, cuts, parts)
  {
    assert forall g | 0 <= g < |cuts| :: cuts[g] <= cuts[|cuts| - 1];
  }

  lemma SliceEmitted(r: Rule, ids: seq<nat>, i: nat, len: nat, cuts: seq<nat>, parts: seq<seq<nat>>)
    requires r.Knows(ids) && Splitting(r, ids, i, len, cuts, parts)
    ensures AreSlices(ids, cuts + [i], parts + [ids[i - len..i]])
    ensures forall g, h | 0 <= g < h <= |cuts| :: (cuts + [i])[g] < (cuts + [i])[h]
    ensures forall t | 0 < t < i :: t in cuts + [i] <==> !r.Joins(ids[t - 1], ids[t])
  {
    var cuts', parts' := cuts + [i], parts + [ids[i - len..i]];
    forall g | 0 <= g < |parts'| ensures IsSlice(ids, cuts', g, parts'[g]) {
      if g < |parts| {
        assert IsSlice(ids, cuts, g, parts[g]);
      }
    }
  }

  lemma Emit(r: Rule, ids: seq<nat>, i: nat, len: nat, cuts: seq<nat>, parts: seq<seq<nat>>)
    requires r.Knows(ids) && Splitting(r, ids, i, len, cuts, parts)
    requires i < |ids| && !r.Joins(ids[i - 1], ids[i])
    ensures Splitting(r, ids, i + 1, 1, cuts + [i], parts + [ids[i - len..i]])
  {
    SliceEmitted(r, ids, i, len, cuts, parts);
  }

  lemma Finish(r: Rule, ids: seq<nat>, i: nat, len: nat, cuts: seq<nat>, parts: seq<seq<nat>>, part: seq<nat>)
    requires r.Valid() && r.Knows(ids) && Distinct(ids) && r.Descending(ids)
    requires i == |ids| && Splitting(r, ids, i, len, cuts, parts) && part == ids[i - len..i]
    ensures Clusters(r, parts + [part], Elements(ids))
  {
    SliceEmitted(r, ids, i, len, cuts, parts);
    CutsCluster(r, ids, cuts + [i], parts + [part]);
  }

  lemma NoFlows(r: Rule)
    ensures Clusters(r, [], Elements([])) && Hold([], []) && Different([])
  {
  }

  // What the loop over the sorted flows has done for the first i of them.
  ghost predicate SplitTo(r: Rule, sorted: seq<nat>, i: nat, scratch: seq<nat>, len: nat, cuts: seq<nat>,
                          parts: seq<seq<nat>>)
    requires r.Knows(sorted)
  {
    Splitting(r, sorted, i, len, cuts, parts) && len <= |scratch| && scratch[..len] == sorted[i - len..i]
  }

  lemma SplitFirst(r: Rule, sorted: seq<nat>, scratch: seq<nat>)
    requires r.Knows(sorted) && sorted != [] && scratch != [] && scratch[0] == sorted[0]
    ensures SplitTo(r, sorted, 1, scratch, 1, [0], [])
  {
    First(r, sorted);
    assert scratch[..1] == [scratch[0]] && sorted[1 - 1..1] == [sorted[0]];
  }

  lemma SplitGrow(r: Rule, sorted: seq<nat>, i: nat, scratch: seq<nat>, len: nat, cuts: seq<nat>, parts: seq<seq<nat>>)
    requires r.Knows(sorted) && SplitTo(r, sorted, i, scratch, len, cuts, parts)
    requires i < |sorted| == |scratch| && r.Joins(sorted[i - 1], sorted[i])
    ensures len < |scratch| && SplitTo(r, sorted, i + 1, scratch[len := sorted[i]], len + 1, cuts, parts)
  {
    Grow(r, sorted, i, len, cuts, parts);
    assert scratch[len := sorted[i]][..len + 1] == scratch[..len] + [sorted[i]];
    assert sorted[i - len..i + 1] == sorted[i - len..i] + [sorted[i]];
  }

  lemma SplitEmit(r: Rule, sorted: seq<nat>, i: nat, scratch: seq<nat>, len: nat, cuts: seq<nat>, parts: seq<seq<nat>>)
    requires r.Knows(sorted) && SplitTo(r, sorted, i, scratch, len, cuts, parts)
    requires i < |sorted| == |scratch| && !r.Joins(sorted[i - 1], sorted[i])
    ensures SplitTo(r, sorted, i + 1, scratch[0 := sorted[i]], 1, cuts + [i], parts + [scratch[..len]])
  {
    Emit(r, sorted, i, len, cuts, parts);
  }

  lemma SplitFinish(r: Rule, sorted: seq<nat>, scratch: seq<nat>, len: nat, cuts: seq<nat>, parts: seq<seq<nat>>)
    requires r.Valid() && r.Knows(sorted) && Distinct(sorted) && r.Descending(sorted)
    requires SplitTo(r, sorted, |sorted|, scratch, len, cuts, parts)
    ensures len <= |scratch| && Clusters(r, parts + [scratch[..len]], Elements(sorted))
  {
    Finish(r, sorted, |sorted|, len, cuts, parts, scratch[..len]);
  }

  lemma SplitBounds(r: Rule, sorted: seq<nat>, i: nat, scratch: seq<nat>, len: nat, cuts: seq<nat>,
                    parts: seq<seq<nat>>)
    requires r.Knows(sorted) && SplitTo(r, sorted, i, scratch, len, cuts, parts)
    ensures 0 < len <= i <= |sorted| && len <= |scratch|
  {
  }

  // The flow at position i joins the group in the scratch slice, or that group is emitted and the slice
  // is used again.
  method Place(ids: array<nat>, r: Rule, i: nat, paths: array<nat>, len: nat, groups: seq<array<nat>>,
               ghost cuts: seq<nat>, ghost parts: seq<seq<nat>>)
    returns (len': nat, groups': seq<array<nat>>, ghost cuts': seq<nat>, ghost parts': seq<seq<nat>>)
    requires r.Knows(ids[..]) && 0 < i < ids.Length == paths.Length && ids != paths
    requires SplitTo(r, ids[..], i, paths[..], len, cuts, parts)
    requires Different(groups) && Hold(groups, parts) && forall x | 0 <= x < |groups| :: groups[x] != paths
    modifies paths
    ensures r.Knows(ids[..]) && SplitTo(r, ids[..], i + 1, paths[..], len', cuts', parts')
    ensures Different(groups') && Hold(groups', parts')
    ensures |groups| <= |groups'| && forall x | 0 <= x < |groups| :: groups'[x] == groups[x]
    ensures forall x | |groups| <= x < |groups'| :: fresh(groups'[x])
    ensures forall x | 0 <= x < |groups'| :: groups'[x] != paths
  {
    hide SplitTo, Rule.Knows, Rule.Joins, Rule.Value, Hold, Different;
    KnownAt(r, ids[..], i);
    ghost var scratch := paths[..];
    SplitBounds(r, ids[..], i, scratch, len, cuts, parts);
    var prev, k := ids[i - 1], ids[i];
    if r.Joins(prev, k) {
      SplitGrow(r, ids[..], i, scratch, len, cuts, parts);
      paths[len] := k;
      assert paths[..] == scratch[len := k];
      len', groups', cuts', parts' := len + 1, groups, cuts, parts;
    } else {
      SplitEmit(r, ids[..], i, scratch, len, cuts, parts);
      groups', parts' := Append(groups, parts, paths, len, scratch[..len]);
      paths[0] := k;
      assert paths[..] == scratch[0 := k];
      len', cuts' := 1, cuts + [i];
    }
  }

  // The loop over the sorted flows; `paths` is the scratch slice that is emptied and filled again.
  method CutAtGaps(ids: array<nat>, r: Rule) returns (groups: seq<array<nat>>, ghost parts: seq<seq<nat>>)
    requires r.Valid() && r.Knows(ids[..]) && Distinct(ids[..]) && r.Descending(ids[..]) && ids.Length > 0
    ensures Different(groups) && Hold(groups, parts)
    ensures forall x | 0 <= x < |groups| :: fresh(groups[x])
    ensures Clusters(r, parts, Elements(ids[..]))
  {
    hide Clusters, SplitTo, Rule.Descending, Rule.Knows, Elements, Distinct, Hold, Different;
    NoFlows(r);
    groups, parts := [], [];
    var paths := new nat[ids.Length];
    paths[0] := ids[0];
    var len: nat := 1;
    ghost var cuts: seq<nat> := [0];
    SplitFirst(r, ids[..], paths[..]);
    var i: nat := 1;
    while i < ids.Length
      invariant i <= ids.Length && SplitTo(r, ids[..], i, paths[..], len, cuts, parts)
      invariant Different(groups) && Hold(groups, parts)
      invariant forall x | 0 <= x < |groups| :: fresh(groups[x]) && groups[x] != paths
    {
      len, groups, cuts, parts := Place(ids, r, i, paths, len, groups, cuts, parts);
      i := i + 1;
    }
    SplitBounds(r, ids[..], i, paths[..], len, cuts, parts);
    ghost var last := paths[..][..len];
    SplitFinish(r, ids[..], paths[..], len, cuts, parts);
    groups, parts := Append(groups, parts, paths, len, last);
  }

  method SplitFlows(ids: array<nat>, r: Rule) returns (groups: seq<array<nat>>, ghost parts: seq<seq<nat>>)
    requires r.Valid() && r.Knows(ids[..]) && Distinct(ids[..])
    modifies ids
    ensures Different(groups) && Hold(groups, parts)
    ensures forall x | 0 <= x < |groups| :: fresh(groups[x])
    ensures Clusters(r, parts, Elements(old(ids[..])))
  {
    hide Clusters, Rule.Descending, Elements, Distinct;
    if ids.Length == 0 {
      assert ids[..] == [];
      NoFlows(r);
      return [], [];
    }
    SortFlows(ids, r);
    PermutationDistinct(old(ids[..]), ids[..]);
    groups, parts := CutAtGaps(ids, r);
  }

  method Append(groups: seq<array<nat>>, ghost parts: seq<seq<nat>>, paths: array<nat>, len: nat, ghost part: seq<nat>)
    returns (groups': seq<array<nat>>, ghost parts': seq<seq<nat>>)
    requires Different(groups) && Hold(groups, parts) && len <= paths.Length && part == paths[..len]
    ensures |groups'| == |groups| + 1 && fresh(groups'[|groups|])
    ensures forall x | 0 <= x < |groups| :: groups'[x] == groups[x]
    ensures Different(groups') && Hold(groups', parts') && parts' == parts + [part]
  {
    var copy := CopyPaths(paths, len);
    groups', parts' := groups + [copy], parts + [part];
  }

  // ---- the three splits ----

  // The congested flows that a chain of similar key frequencies joins to a.
  ghost function FrequencyClass(stats: seq<Statistics>, all: set<nat>, a: nat): set<nat> {
    set k | k in all && ByFrequency(stats).Connected(all, a, k)
  }

  // What two congested flows have in common if they get the same number.
  ghost predicate SharesBottleneck(stats: seq<Statistics>, all: set<nat>, a: nat, b: nat) {
    && ByFrequency(stats).Connected(all, a, b)
    && ByVariance(stats).Connected(FrequencyClass(stats, all, a), a, b)
  }

  // The first n frequency groups have been split by variance.
  ghost predicate SplitSoFar(stats: seq<Statistics>, all: set<nat>, freqs: seq<seq<nat>>, n: nat, vars: seq<seq<nat>>) {
    && n <= |freqs| && Partition(vars, Covered(freqs, n))
    && forall a, b | a in Covered(freqs, n) && b in Covered(freqs, n) ::
         Together(vars, a, b) <==> SharesBottleneck(stats, all, a, b)
  }

  lemma ClassOfGroup(stats: seq<Statistics>, all: set<nat>, freqs: seq<seq<nat>>, g: nat, a: nat)
    requires Clusters(ByFrequency(stats), freqs, all) && g < |freqs| && a in freqs[g]
    ensures FrequencyClass(stats, all, a) == Elements(freqs[g])
  {
    hide Rule.Connected;
    assert a in all;
    forall k | k in all ensures k in freqs[g] <==> ByFrequency(stats).Connected(all, a, k) {
      InOneGroup(freqs, all, g, a, k);
    }
    assert forall k | k in freqs[g] :: k in all;
  }

  // Splitting one more frequency group.
  lemma SplitOneMore(stats: seq<Statistics>, all: set<nat>, freqs: seq<seq<nat>>, n: nat,
                     vars: seq<seq<nat>>, local: seq<seq<nat>>)
    requires Clusters(ByFrequency(stats), freqs, all) && n < |freqs|
    requires SplitSoFar(stats, all, freqs, n, vars)
    requires Clusters(ByVariance(stats), local, Elements(freqs[n]))
    ensures SplitSoFar(stats, all, freqs, n + 1, vars + local)
  {
    hide Rule.Connected, Partition, Together, Covered, FrequencyClass;
    var before, more := Covered(freqs, n), Elements(freqs[n]);
    CoveredMore(freqs, all, n);
    PartitionConcat(vars, local, before, more);
    forall a, b | a in before + more && b in before + more
      ensures Together(vars + local, a, b) <==> SharesBottleneck(stats, all, a, b)
    {
      TogetherConcat(vars, local, a, b);
      if a in before && b in before {
        NotTogether(local, more, a, b);
      } else {
        NotTogether(vars, before, a, b);
        if a in more {
          InOneGroup(freqs, all, n, a, b);
          ClassOfGroup(stats, all, freqs, n, a);
          if b !in more {
            NotTogether(local, more, a, b);
          }
        } else {
          NotTogether(local, more, a, b);
          InOneGroup(freqs, all, n, b, a);
          TogetherBack(freqs, a, b);
        }
      }
    }
  }

  // ---- the whole grouping ----

  ghost predicate Known(ids: seq<nat>, n: nat) {
    forall i | 0 <= i < |ids| :: ids[i] < n
  }

  // Afterwards every flow remembers on which side it was put.
  method SplitCongestion(ids: array<nat>, stats: array<Statistics>)
    returns (congested: seq<nat>, notCongested: seq<nat>)
    requires Distinct(ids[..]) && Known(ids[..], stats.Length)
    modifies stats
    ensures Distinct(congested) && Distinct(notCongested)
    ensures forall k :: k in congested <==> k in ids[..] && k < stats.Length && old(IsCongested(stats[k]))
    ensures forall k :: k in notCongested <==> k in ids[..] && k !in congested
    ensures forall k | 0 <= k < stats.Length ::
              stats[k] == if k in ids[..] then old(stats[k]).(pb := k in congested) else old(stats[k])
  {
    congested, notCongested := [], [];
    for i := 0 to ids.Length
      invariant Distinct(congested) && Distinct(notCongested)
      invariant forall k :: k in congested <==> k in ids[..i] && k < stats.Length && old(IsCongested(stats[k]))
      invariant forall k :: k in notCongested <==> k in ids[..i] && k !in congested
      invariant forall k | 0 <= k < stats.Length ::
                  stats[k] == if k in ids[..i] then old(stats[k]).(pb := k in congested) else old(stats[k])
    {
      var k := ids[i];
      assert k in ids[..] && k !in ids[..i] && ids[..i + 1] == ids[..i] + [k];
      var isSharing := false;
      if IsCongested(stats[k]) {
        isSharing := true;
        congested := congested + [k];
      } else {
        notCongested := notCongested + [k];
      }
      stats[k] := stats[k].(pb := isSharing);
    }
    assert ids[..] == ids[..ids.Length];
  }

  method SplitSkewness(flows: array<nat>, stats: seq<Statistics>)
    returns (groups: seq<array<nat>>, ghost parts: seq<seq<nat>>)
    requires Distinct(flows[..]) && Known(flows[..], |stats|)
    modifies flows
    ensures Different(groups) && Hold(groups, parts)
    ensures forall x | 0 <= x < |groups| :: fresh(groups[x])
    ensures Clusters(BySkewness(stats, old(Elements(flows[..]))), parts, Elements(old(flows[..])))
  {
    var hasHighLoss := false;
    var i := 0;
    while i < flows.Length && !hasHighLoss
      invariant 0 <= i <= flows.Length && forall j | 0 <= j < flows.Length :: flows[j] < |stats|
      invariant hasHighLoss <==> exists j :: 0 <= j < i && stats[flows[j]].loss > LOSS_THRESHOLD
    {
      hasHighLoss := stats[flows[i]].loss > LOSS_THRESHOLD;
      i := i + 1;
    }
    if hasHighLoss {
      groups, parts := SplitFlows(flows, Rule(stats, Loss, LOSS_DELTA_THRESHOLD, Absolute));
    } else {
      groups, parts := SplitFlows(flows, Rule(stats, Skew, SKEWNESS_DELTA_THRESHOLD, Absolute));
    }
  }

  // The slices of several groups of groups.
  ghost predicate HoldAll(groups: seq<seq<array<nat>>>, parts: seq<seq<seq<nat>>>)
    reads set x, g | 0 <= x < |groups| && g in groups[x] :: g
  {
    && |groups| == |parts|
    && (forall x | 0 <= x < |groups| :: |groups[x]| == |parts[x]|)
    && forall x, y | 0 <= x < |groups| && 0 <= y < |groups[x]| ::
         groups[x][y] in groups[x] && groups[x][y][..] == parts[x][y]
  }

  // Every variance group has been split into groups of similar skewness or loss.
  ghost predicate SkewnessSplit(stats: seq<Statistics>, vars: seq<seq<nat>>, parts: seq<seq<seq<nat>>>) {
    && |parts| == |vars|
    && forall x | 0 <= x < |vars| :: Clusters(BySkewness(stats, Elements(vars[x])), parts[x], Elements(vars[x]))
  }

  ghost predicate Splittable(vars: seq<seq<nat>>, n: nat) {
    forall x | 0 <= x < |vars| :: Distinct(vars[x]) && Known(vars[x], n)
  }

  // The loop over the variance groups of one frequency group.
  method SplitGroups(groups: seq<array<nat>>, ghost vars: seq<seq<nat>>, stats: seq<Statistics>)
    returns (out: seq<seq<array<nat>>>, ghost parts: seq<seq<seq<nat>>>)
    requires Different(groups) && Hold(groups, vars) && Splittable(vars, |stats|)
    modifies groups
    ensures HoldAll(out, parts) && SkewnessSplit(stats, vars, parts)
    ensures forall x, g | 0 <= x < |out| && g in out[x] :: fresh(g)
  {
    out, parts := [], [];
    var y := 0;
    while y < |groups|
      invariant 0 <= y <= |groups| && |out| == y
      invariant forall z | y <= z < |groups| :: groups[z][..] == vars[z]
      invariant HoldAll(out, parts) && SkewnessSplit(stats, vars[..y], parts)
      invariant forall x, g | 0 <= x < |out| && g in out[x] :: fresh(g)
    {
      var local, localParts := SplitSkewness(groups[y], stats);
      out, parts := out + [local], parts + [localParts];
      y := y + 1;
    }
    assert vars == vars[..y];
  }

  ghost function Concat(parts: seq<seq<seq<nat>>>): seq<seq<nat>> {
    if parts == [] then [] else Concat(parts[..|parts| - 1]) + parts[|parts| - 1]
  }

  // No slice belongs to two groups of groups.
  ghost predicate Separate(groups: seq<seq<array<nat>>>) {
    && (forall x | 0 <= x < |groups| :: Different(groups[x]))
    && (forall x, y, g | 0 <= x < y < |groups| && g in groups[x] :: g !in groups[y])
  }

  lemma ClustersSplittable(r: Rule, parts: seq<seq<nat>>, all: set<nat>, n: nat)
    requires Clusters(r, parts, all) && forall k | k in all :: k < n
    ensures Splittable(parts, n)
  {
    forall x | 0 <= x < |parts| ensures Distinct(parts[x]) && Known(parts[x], n) {
      forall i | 0 <= i < |parts[x]| ensures parts[x][i] < n {
        var k := parts[x][i];
        assert k in parts[x] && k in all;
      }
    }
  }

  lemma HoldAllAppend(a: seq<seq<array<nat>>>, b: seq<array<nat>>, p: seq<seq<seq<nat>>>, q: seq<seq<nat>>)
    requires HoldAll(a, p) && Hold(b, q)
    ensures HoldAll(a + [b], p + [q])
  {
  }

  lemma SeparateAppend(a: seq<seq<array<nat>>>, b: seq<array<nat>>)
    requires Separate(a) && Different(b) && forall x, g | 0 <= x < |a| && g in a[x] :: g !in b
    ensures Separate(a + [b])
  {
  }

  // The loop that splits every frequency group by variance.
  method SplitByVariance(groups: seq<array<nat>>, ghost freqs: seq<seq<nat>>, ghost all: set<nat>,
                         stats: seq<Statistics>)
    returns (out: seq<seq<array<nat>>>, ghost parts: seq<seq<seq<nat>>>)
    requires Different(groups) && Hold(groups, freqs) && Clusters(ByFrequency(stats), freqs, all)
    requires forall k | k in all :: k < |stats|
    modifies groups
    ensures HoldAll(out, parts) && Separate(out)
    ensures forall x, g | 0 <= x < |out| && g in out[x] :: fresh(g)
    ensures SplitSoFar(stats, all, freqs, |freqs|, Concat(parts))
    ensures forall x | 0 <= x < |parts| :: Splittable(parts[x], |stats|)
  {
    hide Clusters, SplitSoFar, Covered, Partition, Separate;
    out, parts := [], [];
    ClustersSplittable(ByFrequency(stats), freqs, all, |stats|);
    NothingSplit(stats, all, freqs);
    var i := 0;
    while i < |groups|
      invariant 0 <= i <= |groups| && |parts| == i
      invariant forall z | i <= z < |groups| :: groups[z][..] == freqs[z]
      invariant HoldAll(out, parts) && Separate(out)
      invariant forall x, g | 0 <= x < |out| && g in out[x] :: fresh(g)
      invariant SplitSoFar(stats, all, freqs, i, Concat(parts))
      invariant forall x | 0 <= x < |parts| :: Splittable(parts[x], |stats|)
    {
      var local, localParts := SplitFlows(groups[i], ByVariance(stats));
      SplitOneMore(stats, all, freqs, i, Concat(parts), localParts);
      ClustersSplittable(ByVariance(stats), localParts, Elements(freqs[i]), |stats|);
      ghost var before := parts;
      HoldAllAppend(out, local, parts, localParts);
      SeparateAppend(out, local);
      out, parts := out + [local], parts + [localParts];
      assert parts[..|parts| - 1] == before;
      i := i + 1;
    }
  }

  lemma NothingSplit(stats: seq<Statistics>, all: set<nat>, freqs: seq<seq<nat>>)
    ensures SplitSoFar(stats, all, freqs, 0, []) && Separate([])
  {
  }

  lemma SkewnessConcat(stats: seq<Statistics>, v: seq<seq<nat>>, w: seq<seq<nat>>,
                       p: seq<seq<seq<nat>>>, q: seq<seq<seq<nat>>>)
    requires SkewnessSplit(stats, v, p) && SkewnessSplit(stats, w, q)
    ensures SkewnessSplit(stats, v + w, p + q)
  {
  }

  lemma HoldAllConcat(a: seq<seq<array<nat>>>, b: seq<seq<array<nat>>>, p: seq<seq<seq<nat>>>, q: seq<seq<seq<nat>>>)
    requires HoldAll(a, p) && HoldAll(b, q)
    ensures HoldAll(a + b, p + q)
  {
  }

  // The nested loops that split every variance group by skewness or loss.
  method SplitBySkewness(groups: seq<seq<array<nat>>>, ghost vars: seq<seq<seq<nat>>>, stats: seq<Statistics>)
    returns (out: seq<seq<array<nat>>>, ghost parts: seq<seq<seq<nat>>>)
    requires HoldAll(groups, vars) && Separate(groups)
    requires forall x | 0 <= x < |vars| :: Splittable(vars[x], |stats|)
    modifies set x, g | 0 <= x < |groups| && g in groups[x] :: g
    ensures HoldAll(out, parts) && SkewnessSplit(stats, Concat(vars), parts)
  {
    hide Clusters, Splittable;
    out, parts := [], [];
    var x := 0;
    while x < |groups|
      invariant 0 <= x <= |groups|
      invariant forall z | x <= z < |groups| :: Hold(groups[z], vars[z])
      invariant HoldAll(out, parts) && SkewnessSplit(stats, Concat(vars[..x]), parts)
      invariant forall y, g | 0 <= y < |out| && g in out[y] :: fresh(g)
    {
      var local, localParts := SplitGroups(groups[x], vars[x], stats);
      SkewnessConcat(stats, Concat(vars[..x]), vars[x], parts, localParts);
      assert vars[..x + 1][..x] == vars[..x];
      HoldAllConcat(out, local, parts, localParts);
      out, parts := out + local, parts + localParts;
      x := x + 1;
    }
    assert vars == vars[..x];
  }

  // What processOwds hands on: a group of skewness groups for every variance group, for all congested flows.
  ghost predicate Grouped(stats: seq<Statistics>, all: set<nat>, vars: seq<seq<nat>>, parts: seq<seq<seq<nat>>>) {
    && Partition(vars, all) && SkewnessSplit(stats, vars, parts)
    && forall a, b | a in all && b in all :: Together(vars, a, b) <==> SharesBottleneck(stats, all, a, b)
  }

  ghost function Congested(ids: seq<nat>, stats: seq<Statistics>): set<nat>
    requires Known(ids, |stats|)
  {
    set i | 0 <= i < |ids| && IsCongested(stats[ids[i]]) :: ids[i]
  }

  lemma CongestedFlows(ids: seq<nat>, stats: seq<Statistics>, congested: seq<nat>)
    requires Known(ids, |stats|)
    requires forall k :: k in congested <==> k in ids && k < |stats| && IsCongested(stats[k])
    ensures Elements(congested) == Congested(ids, stats) && Known(congested, |stats|)
  {
    forall k | k in congested ensures k in Congested(ids, stats) {
      var i :| 0 <= i < |ids| && ids[i] == k;
    }
    forall i | 0 <= i < |congested| ensures congested[i] < |stats| {
      assert congested[i] in congested;
    }
  }

  method ProcessOwds(ids: array<nat>, stats: array<Statistics>)
    returns (groups: seq<seq<array<nat>>>, ghost vars: seq<seq<nat>>, ghost parts: seq<seq<seq<nat>>>)
    requires Distinct(ids[..]) && Known(ids[..], stats.Length)
    modifies stats
    ensures HoldAll(groups, parts)
    ensures Grouped(stats[..], old(Congested(ids[..], stats[..])), vars, parts)
    ensures forall k | 0 <= k < stats.Length :: stats[k] == old(stats[k]).(pb := stats[k].pb)
  {
    ghost var all := Congested(ids[..], stats[..]);
    ghost var before := stats[..];
    var congested, notCongested := SplitCongestion(ids, stats);
    CongestedFlows(ids[..], before, congested);
    groups, vars, parts := [], [], [];
    if |congested| == 0 {
      return;
    }
    var flows := new nat[|congested|](i requires 0 <= i < |congested| => congested[i]);
    assert flows[..] == congested;
    var freqs, freqParts := SplitFlows(flows, ByFrequency(stats[..]));
    var varGroups, varParts := SplitByVariance(freqs, freqParts, all, stats[..]);
    groups, parts := SplitBySkewness(varGroups, varParts, stats[..]);
    vars := Concat(varParts);
    CoveredAll(freqParts, all);
  }

  // ---- numbering the paths (compute_sbd.go) ----

  ghost predicate InGroups(groups: seq<seq<nat>>, k: nat) {
    exists y :: 0 <= y < |groups| && k in groups[y]
  }

  // The number of the last of the first n groups that has k; uint8 wraps around.
  ghost function NumberUpTo(vars: seq<seq<nat>>, n: nat, k: nat): nat
    requires n <= |vars|
  {
    if n == 0 then 0 else if k in vars[n - 1] then n % 256 else NumberUpTo(vars, n - 1, k)
  }

  method WriteNumber(groups: seq<array<nat>>, ghost parts: seq<seq<nat>>, number: nat, numbers: map<nat, nat>)
    returns (numbers': map<nat, nat>)
    requires Hold(groups, parts)
    ensures forall k :: k in numbers' <==> k in numbers || InGroups(parts, k)
    ensures forall k | k in numbers' :: numbers'[k] == if InGroups(parts, k) then number else numbers[k]
  {
    numbers' := numbers;
    for y := 0 to |groups|
      invariant forall k :: k in numbers' <==> k in numbers || InGroups(parts[..y], k)
      invariant forall k | k in numbers' :: numbers'[k] == if InGroups(parts[..y], k) then number else numbers[k]
    {
      var flow := groups[y];
      ghost var before := numbers';
      for i := 0 to flow.Length
        invariant forall k :: k in numbers' <==> k in before || k in flow[..i]
        invariant forall k | k in numbers' :: numbers'[k] == if k in flow[..i] then number else before[k]
      {
        assert flow[..i + 1] == flow[..i] + [flow[i]];
        numbers' := numbers'[flow[i] := number];
      }
      assert flow[..flow.Length] == parts[y];
      OneMore(parts, y);
    }
    assert parts[..|groups|] == parts;
  }

  lemma OneMore(parts: seq<seq<nat>>, y: nat)
    requires y < |parts|
    ensures forall k :: InGroups(parts[..y + 1], k) <==> InGroups(parts[..y], k) || k in parts[y]
  {
    forall k ensures InGroups(parts[..y + 1], k) <==> InGroups(parts[..y], k) || k in parts[y] {
      if InGroups(parts[..y], k) {
        var z :| 0 <= z < y && k in parts[..y][z];
        assert k in parts[..y + 1][z];
      }
      if k in parts[y] {
        assert k in parts[..y + 1][y];
      }
    }
  }

  lemma HoldAt(groups: seq<seq<array<nat>>>, parts: seq<seq<seq<nat>>>, x: nat)
    requires HoldAll(groups, parts) && x < |groups|
    ensures Hold(groups[x], parts[x])
  {
  }

  lemma InSplitGroup(stats: seq<Statistics>, all: set<nat>, vars: seq<seq<nat>>, parts: seq<seq<seq<nat>>>, x: nat)
    requires Grouped(stats, all, vars, parts) && x < |vars|
    ensures forall k :: InGroups(parts[x], k) <==> k in vars[x]
    ensures forall k | k in vars[x] :: k in all
  {
    assert Partition(parts[x], Elements(vars[x]));
    forall k ensures InGroups(parts[x], k) <==> k in vars[x] {
      assert k in vars[x] <==> k in Elements(vars[x]);
    }
  }

  lemma {:induction false} NumberOf(vars: seq<seq<nat>>, all: set<nat>, n: nat, g: nat, k: nat)
    requires Partition(vars, all) && g < n <= |vars| <= 255 && k in vars[g]
    ensures NumberUpTo(vars, n, k) == g + 1
  {
    if g < n - 1 {
      NumberOf(vars, all, n - 1, g, k);
    }
  }

  lemma {:induction false} NoNumber(vars: seq<seq<nat>>, all: set<nat>, n: nat, k: nat)
    requires Partition(vars, all) && n <= |vars| && k !in all
    ensures NumberUpTo(vars, n, k) == 0
  {
    if n > 0 {
      NoNumber(vars, all, n - 1, k);
    }
  }

  // At most 255 path IDs make at most 255 groups, so no number wraps around to 0.
  lemma {:induction false} FewNumbers(all: set<nat>, n: nat)
    requires forall k | k in all :: 0 < k <= n
    ensures |all| <= n
  {
    if all == {} {
    } else {
      assert n > 0 by { var k :| k in all; }
      FewNumbers(all - {n}, n - 1);
    }
  }

  lemma {:induction false} FewGroups(vars: seq<seq<nat>>, all: set<nat>)
    requires Partition(vars, all)
    ensures |vars| <= |all|
  {
    if vars != [] {
      var last := |vars| - 1;
      var k := vars[last][0];
      var rest := Covered(vars, last);
      assert k in Elements(vars[last]);
      CoveredMore(vars, all, last);
      PrefixPartition(vars, all, last);
      FewGroups(vars[..last], rest);
      Monotone(rest + {k}, all);
    }
  }

  // Same number exactly for the same variance group, none exactly for no group.
  lemma NumbersMean(vars: seq<seq<nat>>, all: set<nat>, a: nat, b: nat)
    requires Partition(vars, all) && |vars| <= 255
    ensures NumberUpTo(vars, |vars|, a) != 0 <==> a in all
    ensures a in all && b in all ==>
              (NumberUpTo(vars, |vars|, a) == NumberUpTo(vars, |vars|, b) <==> Together(vars, a, b))
  {
    if a !in all {
      NoNumber(vars, all, |vars|, a);
    } else {
      var g :| 0 <= g < |vars| && a in vars[g];
      NumberOf(vars, all, |vars|, g, a);
      if b in all {
        var h :| 0 <= h < |vars| && b in vars[h];
        NumberOf(vars, all, |vars|, h, b);
        InOneGroup(vars, all, g, a, b);
      }
    }
  }

  // Every path starts with number 0; then each group writes its own.
  method NumberPaths(ids: array<nat>, groups: seq<seq<array<nat>>>, ghost parts: seq<seq<seq<nat>>>,
                     ghost stats: seq<Statistics>, ghost all: set<nat>, ghost vars: seq<seq<nat>>)
    returns (numbers: map<nat, nat>)
    requires HoldAll(groups, parts) && Grouped(stats, all, vars, parts)
    requires forall k | k in all :: k in ids[..]
    ensures forall k :: k in numbers <==> k in ids[..]
    ensures forall k | k in numbers :: numbers[k] == NumberUpTo(vars, |vars|, k)
  {
    hide Grouped, Partition, Clusters, HoldAll;
    numbers := map[];
    for i := 0 to ids.Length
      invariant forall k :: k in numbers <==> k in ids[..i]
      invariant forall k | k in numbers :: numbers[k] == 0
    {
      assert ids[..i + 1] == ids[..i] + [ids[i]];
      numbers := numbers[ids[i] := 0];
    }
    assert ids[..] == ids[..ids.Length];
    SameLength(groups, stats, all, vars, parts);
    for x := 0 to |groups|
      invariant HoldAll(groups, parts)
      invariant forall k :: k in numbers <==> k in ids[..]
      invariant forall k | k in numbers :: numbers[k] == NumberUpTo(vars, x, k)
    {
      HoldAt(groups, parts, x);
      InSplitGroup(stats, all, vars, parts, x);
      numbers := WriteNumber(groups[x], parts[x], (x + 1) % 256, numbers);
    }
  }

  lemma SameLength(groups: seq<seq<array<nat>>>, stats: seq<Statistics>, all: set<nat>, vars: seq<seq<nat>>,
                   parts: seq<seq<seq<nat>>>)
    requires HoldAll(groups, parts) && Grouped(stats, all, vars, parts)
    ensures |groups| == |parts| == |vars|
  {
  }

  // Before each grouping the statistics are built anew, without any memory of earlier ones.
  method Forget(stats: array<Statistics>)
    modifies stats
    ensures forall k | 0 <= k < stats.Length :: stats[k] == old(stats[k]).(pb := false)
  {
    for k := 0 to stats.Length
      invariant forall j | 0 <= j < stats.Length ::
                  stats[j] == if j < k then old(stats[j]).(pb := false) else old(stats[j])
    {
      stats[k] := stats[k].(pb := false);
    }
  }

  // What the numbers say about two paths.
  ghost predicate NumbersFit(numbers: map<nat, nat>, stats: seq<Statistics>, all: set<nat>) {
    && (forall k | k in numbers :: numbers[k] != 0 <==> k in all)
    && forall a, b | a in all && b in all :: a in numbers && b in numbers &&
         (numbers[a] == numbers[b] <==> SharesBottleneck(stats, all, a, b))
  }

  lemma FitNumbers(numbers: map<nat, nat>, stats: seq<Statistics>, all: set<nat>, vars: seq<seq<nat>>,
                   parts: seq<seq<seq<nat>>>)
    requires Grouped(stats, all, vars, parts) && forall k | k in all :: k in numbers && 0 < k <= 255
    requires forall k | k in numbers :: numbers[k] == NumberUpTo(vars, |vars|, k)
    ensures NumbersFit(numbers, stats, all)
  {
    hide Partition, SharesBottleneck, Together, NumberUpTo, SkewnessSplit;
    FewNumbers(all, 255);
    FewGroups(vars, all);
    forall k | k in numbers ensures numbers[k] != 0 <==> k in all {
      NumbersMean(vars, all, k, k);
    }
    forall a, b | a in all && b in all ensures numbers[a] == numbers[b] <==> SharesBottleneck(stats, all, a, b) {
      NumbersMean(vars, all, a, b);
    }
  }

  // The loop body of `grouping`: fresh statistics, then the groups, then a number for every path.
  // The flows with a number are the congested ones; two of them have the same number exactly if
  // similar frequencies connect them, and similar variances within that class.
  method Grouping(ids: array<nat>, stats: array<Statistics>) returns (numbers: map<nat, nat>)
    requires Distinct(ids[..]) && Known(ids[..], stats.Length)
    requires forall i | 0 <= i < ids.Length :: 0 < ids[i] <= 255
    modifies stats
    ensures forall k | 0 <= k < stats.Length :: stats[k] == old(stats[k]).(pb := stats[k].pb)
    ensures forall k :: k in numbers <==> k in ids[..]
    ensures NumbersFit(numbers, stats[..], set k | k in ids[..] && k < stats.Length &&
              (stats[k].skewness < CONGESTION_THRESHOLD || stats[k].loss > LOSS_THRESHOLD))
  {
    hide Grouped, Distinct, NumbersFit, NumberUpTo, HoldAll;
    Forget(stats);
    ghost var all := Congested(ids[..], stats[..]);
    var groups; ghost var vars, parts;
    groups, vars, parts := ProcessOwds(ids, stats);
    numbers := NumberPaths(ids, groups, parts, stats[..], all, vars);
    FitNumbers(numbers, stats[..], all, vars, parts);
    assert all == set k | k in ids[..] && k < stats.Length &&
              (stats[k].skewness < CONGESTION_THRESHOLD || stats[k].loss > LOSS_THRESHOLD);
  }
}
