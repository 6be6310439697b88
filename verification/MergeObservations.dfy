/**
 merge_observations of sbd/sbd.py: several groupings of the same subflows are merged by a depth-first
 search over the graph whose edges join subflows that were often enough in one group.
 */
module MergeObservations {
  import opened Wrappers
  import opened Partitions

  // A subflow in an observation; nc is set only on the flows marked as not congested.
  datatype Flow = Flow(pi: nat, nc: Option<bool>)

  type Observation = seq<seq<Flow>>

  type Edges = map<nat, map<nat, real>>

  // ---- the graph ----

  ghost predicate Strong(edges: Edges, threshold: real, a: nat, b: nat) {
    a in edges && b in edges[a] && edges[a][b] >= threshold
  }

  ghost predicate IsPath(edges: Edges, threshold: real, p: seq<nat>) {
    && p != []
    && (forall i | 0 <= i < |p| :: p[i] in edges)
    && (forall i | 0 < i < |p| :: Strong(edges, threshold, p[i - 1], p[i]))
  }

  ghost predicate Reaches(edges: Edges, threshold: real, a: nat, b: nat) {
    exists p :: IsPath(edges, threshold, p) && p[0] == a && p[|p| - 1] == b
  }

  // Neighbours are vertices too, and they see each other with the same weight.
  ghost predicate Symmetric(edges: Edges) {
    forall a, b | a in edges && b in edges[a] :: b in edges && a in edges[b] && edges[a][b] == edges[b][a]
  }

  // No strong edge leaves the set.
  ghost predicate Closed(edges: Edges, threshold: real, s: set<nat>) {
    forall a, b | a in s && Strong(edges, threshold, a, b) :: b in s
  }

  lemma ReachesItself(edges: Edges, threshold: real, a: nat)
    requires a in edges
    ensures Reaches(edges, threshold, a, a)
  {
    assert IsPath(edges, threshold, [a]);
  }

  lemma ReachesOver(edges: Edges, threshold: real, a: nat, b: nat, c: nat)
    requires Strong(edges, threshold, a, b) && Reaches(edges, threshold, b, c)
    ensures Reaches(edges, threshold, a, c)
  {
    var p :| IsPath(edges, threshold, p) && p[0] == b && p[|p| - 1] == c;
    var q := [a] + p;
    forall i | 0 < i < |q| ensures Strong(edges, threshold, q[i - 1], q[i]) {
      var j := i - 1;
      assert j > 0 ==> Strong(edges, threshold, p[j - 1], p[j]);
    }
    assert IsPath(edges, threshold, q);
  }

  // Whatever a member of a closed set reaches is in the set.
  lemma {:induction false} PathInside(edges: Edges, threshold: real, s: set<nat>, p: seq<nat>)
    requires Closed(edges, threshold, s) && IsPath(edges, threshold, p) && p[0] in s
    ensures p[|p| - 1] in s
  {
    if |p| > 1 {
      var q := p[..|p| - 1];
      assert forall i | 0 <= i < |q| :: q[i] == p[i];
      PathInside(edges, threshold, s, q);
      assert Strong(edges, threshold, p[|p| - 1 - 1], p[|p| - 1]);
    }
  }

  // With symmetric edges, nothing outside a closed set reaches into it.
  lemma {:induction false} PathOutside(edges: Edges, threshold: real, s: set<nat>, p: seq<nat>)
    requires Symmetric(edges) && Closed(edges, threshold, s) && IsPath(edges, threshold, p) && p[0] !in s
    ensures p[|p| - 1] !in s
  {
    if |p| > 1 {
      var q := p[..|p| - 1];
      assert forall i | 0 <= i < |q| :: q[i] == p[i];
      PathOutside(edges, threshold, s, q);
      assert Strong(edges, threshold, p[|p| - 1 - 1], p[|p| - 1]);
    }
  }

  // ---- the search ----

  // What a visit adds: flows reachable from pi, with all their strong neighbours visited.
  ghost predicate Visited(edges: Edges, threshold: real, pi: nat, before: set<nat>, after: set<nat>) {
    && before <= after <= before + edges.Keys
    && (forall k | k in after - before :: Reaches(edges, threshold, pi, k))
    && (forall k, n | k in after - before && Strong(edges, threshold, k, n) :: n in after)
  }

  method Visit(pi: nat, visited: set<nat>, edges: Edges, group: seq<nat>, threshold: real)
    returns (visited': set<nat>, group': seq<nat>)
    requires Symmetric(edges) && pi in edges && visited <= edges.Keys
    requires Distinct(group) && forall k | k in group :: k in visited
    ensures pi in visited ==> visited' == visited
    ensures pi in visited' && Visited(edges, threshold, pi, visited, visited')
    ensures Distinct(group') && forall k :: k in group' <==> k in group || k in visited' - visited
    decreases edges.Keys - visited
  {
    visited', group' := visited, group;
    if pi in visited {
      return;
    }
    group' := group' + [pi];
    visited' := visited' + {pi};
    ReachesItself(edges, threshold, pi);
    var others := edges[pi].Keys;
    while others != {}
      invariant others <= edges[pi].Keys && pi in visited' && visited <= visited' <= edges.Keys
      invariant forall k | k in visited' - visited :: Reaches(edges, threshold, pi, k)
      invariant forall k, n | k in visited' - visited - {pi} && Strong(edges, threshold, k, n) :: n in visited'
      invariant forall n | n in edges[pi].Keys - others && Strong(edges, threshold, pi, n) :: n in visited'
      invariant Distinct(group') && forall k :: k in group' <==> k in group || k in visited' - visited
      decreases others
    {
      var other :| other in others;
      others := others - {other};
      if edges[pi][other] >= threshold {
        ghost var before := visited';
        visited', group' := Visit(other, visited', edges, group', threshold);
        forall k | k in visited' - before ensures Reaches(edges, threshold, pi, k) {
          ReachesOver(edges, threshold, pi, other, k);
        }
      }
    }
  }

  // ---- the edges ----

  ghost function AllGroups(obs: seq<seq<seq<nat>>>): seq<seq<nat>> {
    if obs == [] then [] else AllGroups(obs[..|obs| - 1]) + obs[|obs| - 1]
  }

  ghost function GroupsWith(groups: seq<seq<nat>>, pi: nat): seq<seq<nat>> {
    if groups == [] then []
    else GroupsWith(groups[..|groups| - 1], pi)
         + if pi in groups[|groups| - 1] then [groups[|groups| - 1]] else []
  }

  // In how many groups a and b are together.
  ghost function Count(groups: seq<seq<nat>>, a: nat, b: nat): nat {
    if groups == [] then 0
    else Count(groups[..|groups| - 1], a, b)
         + if a in groups[|groups| - 1] && b in groups[|groups| - 1] then 1 else 0
  }

  // Two subflows are neighbours if some group has both; the weight is the share of the observations.
  ghost predicate AreEdges(obs: seq<seq<seq<nat>>>, edges: Edges) {
    && edges.Keys == Members(AllGroups(obs))
    && (forall a, b | a in edges :: b in edges[a] <==> a != b && Count(AllGroups(obs), a, b) > 0)
    && (forall a, b | a in edges && b in edges[a] ::
          |obs| > 0 && edges[a][b] == Count(AllGroups(obs), a, b) as real / |obs| as real)
  }

  lemma {:induction false} CountSymmetric(groups: seq<seq<nat>>, a: nat, b: nat)
    ensures Count(groups, a, b) == Count(groups, b, a)
  {
    if groups != [] {
      CountSymmetric(groups[..|groups| - 1], a, b);
    }
  }

  lemma {:induction false} CountMembers(groups: seq<seq<nat>>, a: nat, b: nat)
    ensures Count(groups, a, b) > 0 <==> exists g :: 0 <= g < |groups| && a in groups[g] && b in groups[g]
  {
    if groups != [] {
      var rest := groups[..|groups| - 1];
      CountMembers(rest, a, b);
      if exists g :: 0 <= g < |rest| && a in rest[g] && b in rest[g] {
        var g :| 0 <= g < |rest| && a in rest[g] && b in rest[g];
        assert a in groups[g] && b in groups[g];
      }
      if exists g :: 0 <= g < |groups| && a in groups[g] && b in groups[g] {
        var g :| 0 <= g < |groups| && a in groups[g] && b in groups[g];
        assert g < |rest| ==> a in rest[g] && b in rest[g];
      }
    }
  }

  // Counting b among the groups that have a counts the groups that have both.
  lemma {:induction false} CountWith(groups: seq<seq<nat>>, a: nat, b: nat)
    ensures Count(GroupsWith(groups, a), b, b) == Count(groups, a, b)
    ensures b in Members(GroupsWith(groups, a)) <==> Count(groups, a, b) > 0
  {
    CountMembers(GroupsWith(groups, a), b, b);
    if groups != [] {
      var rest, last := groups[..|groups| - 1], groups[|groups| - 1];
      CountWith(rest, a, b);
      var with := GroupsWith(groups, a);
      assert a in last ==> with[..|with| - 1] == GroupsWith(rest, a);
      assert a !in last ==> with == GroupsWith(rest, a);
    }
  }

  lemma EdgesSymmetric(obs: seq<seq<seq<nat>>>, edges: Edges)
    requires AreEdges(obs, edges)
    ensures Symmetric(edges)
  {
    forall a, b | a in edges && b in edges[a]
      ensures b in edges && a in edges[b] && edges[a][b] == edges[b][a]
    {
      CountSymmetric(AllGroups(obs), a, b);
      CountMembers(AllGroups(obs), a, b);
    }
  }

  // In how many observations a and b are together.
  ghost function CountObservations(obs: seq<seq<seq<nat>>>, a: nat, b: nat): nat {
    if obs == [] then 0
    else CountObservations(obs[..|obs| - 1], a, b) + if Together(obs[|obs| - 1], a, b) then 1 else 0
  }

  lemma {:induction false} CountConcat(s: seq<seq<nat>>, t: seq<seq<nat>>, a: nat, b: nat)
    ensures Count(s + t, a, b) == Count(s, a, b) + Count(t, a, b)
  {
    if t == [] {
      assert s + t == s;
    } else {
      CountConcat(s, t[..|t| - 1], a, b);
      assert (s + t)[..|s + t| - 1] == s + t[..|t| - 1];
    }
  }

  lemma {:induction false} CountOnce(groups: seq<seq<nat>>, a: nat, b: nat)
    requires forall g, h | 0 <= g < h < |groups| && a in groups[g] :: a !in groups[h]
    ensures Count(groups, a, b) == if Together(groups, a, b) then 1 else 0
  {
    if groups != [] {
      var rest := groups[..|groups| - 1];
      CountOnce(rest, a, b);
      CountMembers(rest, a, b);
      CountMembers(groups, a, b);
    }
  }

  // If no observation has a subflow in two groups, the weight is the share of observations
  // that have the two subflows together.
  lemma {:induction false} WeightIsShare(obs: seq<seq<seq<nat>>>, a: nat, b: nat)
    requires forall i, g, h | 0 <= i < |obs| && 0 <= g < h < |obs[i]| && a in obs[i][g] :: a !in obs[i][h]
    ensures Count(AllGroups(obs), a, b) == CountObservations(obs, a, b)
  {
    if obs != [] {
      var rest, last := obs[..|obs| - 1], obs[|obs| - 1];
      WeightIsShare(rest, a, b);
      CountConcat(AllGroups(rest), last, a, b);
      CountOnce(last, a, b);
    }
  }

  lemma OneMoreObservation(obs: seq<seq<seq<nat>>>, i: nat)
    requires i < |obs|
    ensures AllGroups(obs[..i + 1]) == AllGroups(obs[..i]) + obs[i]
  {
    assert obs[..i + 1][..i] == obs[..i];
  }

  lemma OneMoreWith(groups: seq<seq<nat>>, more: seq<seq<nat>>, j: nat, pi: nat)
    requires j < |more|
    ensures var before := GroupsWith(groups + more[..j], pi);
            GroupsWith(groups + more[..j + 1], pi) == if pi in more[j] then before + [more[j]] else before
  {
    var now := groups + more[..j + 1];
    assert now[..|now| - 1] == groups + more[..j];
  }

  method FindAllGroups(pi: nat, obs: seq<seq<seq<nat>>>) returns (found: seq<seq<nat>>)
    ensures found == GroupsWith(AllGroups(obs), pi)
  {
    found := [];
    for i := 0 to |obs|
      invariant found == GroupsWith(AllGroups(obs[..i]), pi)
    {
      found := FindGroups(pi, obs[i], AllGroups(obs[..i]), found);
      OneMoreObservation(obs, i);
    }
    assert obs[..|obs|] == obs;
  }

  method FindGroups(pi: nat, ob: seq<seq<nat>>, ghost before: seq<seq<nat>>, found: seq<seq<nat>>)
    returns (found': seq<seq<nat>>)
    requires found == GroupsWith(before, pi)
    ensures found' == GroupsWith(before + ob, pi)
  {
    hide GroupsWith;
    found' := found;
    assert before + ob[..0] == before;
    for j := 0 to |ob|
      invariant found' == GroupsWith(before + ob[..j], pi)
    {
      OneMoreWith(before, ob, j, pi);
      if pi in ob[j] {
        found' := found' + [ob[j]];
      }
    }
    assert ob[..|ob|] == ob;
  }

  lemma {:induction false} Least(s: set<nat>) returns (m: nat)
    requires s != {}
    ensures m in s && forall k | k in s :: m <= k
  {
    m :| m in s;
    if s != {m} {
      var rest := Least(s - {m});
      forall k | k in s ensures k == m || rest <= k {
        assert k != m ==> k in s - {m};
      }
      m := if rest < m then rest else m;
    }
  }

  method Sorted(s: set<nat>) returns (pis: seq<nat>)
    ensures (forall i, j | 0 <= i < j < |pis| :: pis[i] < pis[j]) && Elements(pis) == s
  {
    pis := [];
    var rest := s;
    while rest != {}
      invariant forall i, j | 0 <= i < j < |pis| :: pis[i] < pis[j]
      invariant Elements(pis) + rest == s && forall i, n | 0 <= i < |pis| && n in rest :: pis[i] < n
      decreases rest
    {
      ghost var least := Least(rest);
      var k :| k in rest && forall n | n in rest :: k <= n;
      rest := rest - {k};
      pis := pis + [k];
    }
  }

  // All subflows of all observations, in ascending order.
  method GetAllSubflows(obs: seq<seq<seq<nat>>>) returns (pis: seq<nat>)
    ensures (forall i, j | 0 <= i < j < |pis| :: pis[i] < pis[j]) && Elements(pis) == Members(AllGroups(obs))
  {
    var found: set<nat> := {};
    for i := 0 to |obs|
      invariant found == Members(AllGroups(obs[..i]))
    {
      assert obs[..i + 1][..i] == obs[..i];
      ghost var before := AllGroups(obs[..i]);
      assert before + obs[i][..0] == before;
      for j := 0 to |obs[i]|
        invariant found == Members(before + obs[i][..j])
      {
        var group := obs[i][j];
        OneMoreGroup(before + obs[i][..j], group);
        assert before + obs[i][..j + 1] == before + obs[i][..j] + [group];
        for l := 0 to |group|
          invariant found == Members(before + obs[i][..j]) + Elements(group[..l])
        {
          assert group[..l + 1] == group[..l] + [group[l]];
          found := found + {group[l]};
        }
        assert group[..|group|] == group;
      }
      assert before + obs[i][..|obs[i]|] == AllGroups(obs[..i + 1]);
    }
    assert obs[..|obs|] == obs;
    pis := Sorted(found);
  }

  lemma OneMoreGroup(groups: seq<seq<nat>>, group: seq<nat>)
    ensures Members(groups + [group]) == Members(groups) + Elements(group)
  {
    forall k | k in Members(groups) + Elements(group) ensures k in Members(groups + [group]) {
      if k in Members(groups) {
        var g :| 0 <= g < |groups| && k in groups[g];
        assert k in (groups + [group])[g];
      } else {
        assert k in (groups + [group])[|groups|];
      }
    }
  }

  method CountGroups(groups: seq<seq<nat>>, other: nat) returns (count: nat)
    ensures count == Count(groups, other, other)
  {
    count := 0;
    for j := 0 to |groups|
      invariant count == Count(groups[..j], other, other)
    {
      assert groups[..j + 1][..j] == groups[..j];
      if other in groups[j] {
        count := count + 1;
      }
    }
    assert groups[..|groups|] == groups;
  }

  lemma OneObservation(groups: seq<seq<nat>>)
    ensures AllGroups([groups]) == groups
  {
    var one := [groups];
    assert one[..0] == [];
  }

  // The weights of the edges at pi.
  method Weigh(pi: nat, obs: seq<seq<seq<nat>>>) returns (weighted: map<nat, real>)
    requires obs != []
    ensures forall b :: b in weighted <==> pi != b && Count(AllGroups(obs), pi, b) > 0
    ensures forall b | b in weighted :: weighted[b] == Count(AllGroups(obs), pi, b) as real / |obs| as real
  {
    hide Count, AllGroups, GroupsWith, Members;
    ghost var all := AllGroups(obs);
    var groups := FindAllGroups(pi, obs);
    var together := GetAllSubflows([groups]);
    OneObservation(groups);
    weighted := map[];
    for i := 0 to |together|
      invariant forall b :: b in weighted <==> b in together[..i] && b != pi
      invariant forall b | b in weighted :: weighted[b] == Count(all, pi, b) as real / |obs| as real
    {
      assert together[..i + 1] == together[..i] + [together[i]];
      var other := together[i];
      if other != pi {
        var count := CountGroups(groups, other);
        CountWith(all, pi, other);
        weighted := weighted[other := count as real / |obs| as real];
      }
    }
    assert together[..|together|] == together;
    forall b ensures b in together <==> Count(all, pi, b) > 0 {
      CountWith(all, pi, b);
      assert b in together <==> b in Elements(together);
    }
  }

  method FindEdges(pis: seq<nat>, obs: seq<seq<seq<nat>>>) returns (edges: Edges)
    requires Elements(pis) == Members(AllGroups(obs))
    ensures AreEdges(obs, edges)
  {
    edges := map[];
    ghost var all := AllGroups(obs);
    for i := 0 to |pis|
      invariant forall a :: a in edges <==> a in pis[..i]
      invariant forall a, b | a in edges :: b in edges[a] <==> a != b && Count(all, a, b) > 0
      invariant forall a, b | a in edges && b in edges[a] ::
                  |obs| > 0 && edges[a][b] == Count(all, a, b) as real / |obs| as real
    {
      assert pis[..i + 1] == pis[..i] + [pis[i]];
      assert pis[i] in Elements(pis);
      var weighted := Weigh(pis[i], obs);
      edges := edges[pis[i] := weighted];
    }
    assert pis[..|pis|] == pis;
    assert forall a :: a in edges <==> a in Elements(pis);
  }

  // ---- merging ----

  // The first flow that has the number pi.
  function FirstFlow(flows: seq<Flow>, pi: nat): (flow: Option<Flow>)
    ensures flow.Some? <==> exists i :: 0 <= i < |flows| && flows[i].pi == pi
    ensures flow.Some? ==>
              exists i :: 0 <= i < |flows| && flow.value == flows[i] && flows[i].pi == pi
                          && forall j | 0 <= j < i :: flows[j].pi != pi
  {
    if flows == [] then None
    else if flows[0].pi == pi then Some(flows[0])
    else FirstFlow(flows[1..], pi)
  }

  predicate IsNoncongested(ob: Observation, pi: nat) {
    if ob == [] then false
    else match FirstFlow(ob[0], pi)
         case Some(flow) => flow.nc.Some?
         case None => IsNoncongested(ob[1..], pi)
  }

  predicate IsNoncongestedInAll(observations: seq<Observation>, pi: nat) {
    forall i | 0 <= i < |observations| :: IsNoncongested(observations[i], pi)
  }

  function Pis(flows: seq<Flow>): (pis: seq<nat>)
    ensures |pis| == |flows| && forall i | 0 <= i < |flows| :: pis[i] == flows[i].pi
  {
    seq(|flows|, i requires 0 <= i < |flows| => flows[i].pi)
  }

  function ExtractPis(observations: seq<Observation>): (obs: seq<seq<seq<nat>>>)
    ensures |obs| == |observations|
  {
    seq(|observations|, i requires 0 <= i < |observations| =>
      seq(|observations[i]|, j requires 0 <= j < |observations[i]| => Pis(observations[i][j])))
  }

  // A component of one flow that no observation saw congested is reported apart from the groups.
  predicate IsAlone(component: seq<nat>, observations: seq<Observation>) {
    |component| == 1 && IsNoncongestedInAll(observations, component[0])
  }

  ghost function Alone(components: seq<seq<nat>>, observations: seq<Observation>): seq<nat> {
    if components == [] then []
    else var last, rest := components[|components| - 1], Alone(components[..|components| - 1], observations);
         if IsAlone(last, observations) then rest + [last[0]] else rest
  }

  ghost function Others(components: seq<seq<nat>>, observations: seq<Observation>): seq<seq<nat>> {
    if components == [] then []
    else var last, rest := components[|components| - 1], Others(components[..|components| - 1], observations);
         if IsAlone(last, observations) then rest else rest + [last]
  }

  // The components found once the first visits are over: their flows are those visited.
  ghost predicate FoundSoFar(edges: Edges, threshold: real, visited: set<nat>, components: seq<seq<nat>>) {
    && visited <= edges.Keys && Closed(edges, threshold, visited) && Partition(components, visited)
    && forall a, b | a in visited && b in visited :: Together(components, a, b) <==> Reaches(edges, threshold, a, b)
  }

  lemma ReachesBack(edges: Edges, threshold: real, a: nat, b: nat)
    requires Symmetric(edges) && Reaches(edges, threshold, a, b)
    ensures Reaches(edges, threshold, b, a)
  {
    var p :| IsPath(edges, threshold, p) && p[0] == a && p[|p| - 1] == b;
    var q := seq(|p|, i requires 0 <= i < |p| => p[|p| - 1 - i]);
    forall i | 0 < i < |q| ensures Strong(edges, threshold, q[i - 1], q[i]) {
      var j := |p| - i;
      assert Strong(edges, threshold, p[j - 1], p[j]);
    }
    assert IsPath(edges, threshold, q);
  }

  lemma ReachesOn(edges: Edges, threshold: real, a: nat, b: nat, c: nat)
    requires Reaches(edges, threshold, a, b) && Reaches(edges, threshold, b, c)
    ensures Reaches(edges, threshold, a, c)
  {
    var p :| IsPath(edges, threshold, p) && p[0] == a && p[|p| - 1] == b;
    var q :| IsPath(edges, threshold, q) && q[0] == b && q[|q| - 1] == c;
    var r := p + q[1..];
    forall i | 0 < i < |r| ensures Strong(edges, threshold, r[i - 1], r[i]) {
      var j := i - |p| + 1;
      assert i < |p| ==> Strong(edges, threshold, p[i - 1], p[i]);
      assert i >= |p| ==> Strong(edges, threshold, q[j - 1], q[j]);
    }
    assert IsPath(edges, threshold, r);
  }

  // A visit from outside what is closed finds a whole component, disjoint from it.
  lemma OneComponent(edges: Edges, threshold: real, pi: nat, visited: set<nat>, visited': set<nat>,
                     components: seq<seq<nat>>, component: seq<nat>)
    requires Symmetric(edges) && FoundSoFar(edges, threshold, visited, components)
    requires pi in edges && pi !in visited && pi in visited' && Visited(edges, threshold, pi, visited, visited')
    requires Distinct(component) && forall k :: k in component <==> k in visited' - visited
    ensures FoundSoFar(edges, threshold, visited', components + [component])
  {
    hide Reaches, Strong, Symmetric;
    var more := visited' - visited;
    assert Closed(edges, threshold, visited');
    assert pi in component;
    PartitionOneMore(components, visited, component, more);
    assert visited + more == visited';
    forall a, b | a in visited' && b in visited'
      ensures Together(components + [component], a, b) <==> Reaches(edges, threshold, a, b)
    {
      TogetherOneMore(components, component, a, b);
      if a in visited && b in visited {
      } else if a in more && b in more {
        ReachesBack(edges, threshold, pi, a);
        ReachesOn(edges, threshold, a, pi, b);
      } else {
        NotTogether(components, visited, a, b);
        NeverReaches(edges, threshold, visited, a, b);
      }
    }
  }

  lemma NothingFound(edges: Edges, threshold: real)
    ensures FoundSoFar(edges, threshold, {}, [])
  {
  }

  lemma NeverReaches(edges: Edges, threshold: real, s: set<nat>, a: nat, b: nat)
    requires Symmetric(edges) && Closed(edges, threshold, s) && (a in s) != (b in s)
    ensures !Reaches(edges, threshold, a, b)
  {
    if Reaches(edges, threshold, a, b) {
      var p :| IsPath(edges, threshold, p) && p[0] == a && p[|p| - 1] == b;
      if a in s {
        PathInside(edges, threshold, s, p);
      } else {
        PathOutside(edges, threshold, s, p);
      }
    }
  }

  // No subflow is lost in the result, and none is reported twice.
  lemma {:induction false} OutputsPartition(components: seq<seq<nat>>, observations: seq<Observation>, all: set<nat>)
    requires Partition(components, all)
    ensures var nc := Alone(components, observations);
            Distinct(nc) && Elements(nc) <= all && Partition(Others(components, observations), all - Elements(nc))
  {
    hide Partition, Distinct, Covered, Elements;
    CoveredAll(components, all);
    if components == [] {
      NoParts();
      assert all - Elements([]) == {};
    } else {
      var n := |components| - 1;
      var last, rest := components[n], Covered(components, n);
      CoveredMore(components, all, n);
      PrefixPartition(components, all, n);
      OutputsPartition(components[..n], observations, rest);
      var nc, others := Alone(components[..n], observations), Others(components[..n], observations);
      if IsAlone(last, observations) {
        DistinctOneMore(nc, last);
        assert all - Elements(nc + [last[0]]) == rest - Elements(nc);
      } else {
        PartProper(components, all, n);
        PartitionOneMore(others, rest - Elements(nc), last, Elements(last));
        assert all - Elements(nc) == rest - Elements(nc) + Elements(last);
      }
    }
  }

  lemma {:induction false} InOthers(components: seq<seq<nat>>, observations: seq<Observation>, c: seq<nat>)
    ensures c in Others(components, observations) <==> c in components && !IsAlone(c, observations)
  {
    if components != [] {
      var n := |components| - 1;
      InOthers(components[..n], observations, c);
      assert c in components <==> c in components[..n] || c == components[n];
    }
  }

  lemma {:induction false} InAlone(components: seq<seq<nat>>, observations: seq<Observation>, k: nat)
    ensures k in Alone(components, observations) <==> [k] in components && IsNoncongestedInAll(observations, k)
  {
    if components != [] {
      var n := |components| - 1;
      InAlone(components[..n], observations, k);
      assert [k] in components <==> [k] in components[..n] || [k] == components[n];
      assert |components[n]| == 1 ==> components[n] == [components[n][0]];
    }
  }

  // No other subflow was often enough in one group with this one, or with one that was, and so on.
  ghost predicate ReachesOnlyItself(edges: Edges, threshold: real, a: nat) {
    forall b | b in edges && Reaches(edges, threshold, a, b) :: b == a
  }

  // The subflows reported apart are those that were never congested and join no other; the others
  // are grouped by reachability. Every subflow is reported once.
  ghost predicate Merged(edges: Edges, threshold: real, observations: seq<Observation>, nc: seq<nat>,
                         groups: seq<seq<nat>>) {
    && Distinct(nc) && Elements(nc) <= edges.Keys && Partition(groups, edges.Keys - Elements(nc))
    && (forall a | a in edges ::
          a in nc <==> IsNoncongestedInAll(observations, a) && ReachesOnlyItself(edges, threshold, a))
    && (forall a, b | a in edges && b in edges && a !in nc && b !in nc ::
          Together(groups, a, b) <==> Reaches(edges, threshold, a, b))
  }

  lemma SingleComponent(edges: Edges, threshold: real, components: seq<seq<nat>>, a: nat)
    requires FoundSoFar(edges, threshold, edges.Keys, components) && a in edges
    ensures [a] in components <==> ReachesOnlyItself(edges, threshold, a)
  {
    hide Reaches;
    var g :| 0 <= g < |components| && a in components[g];
    var c := components[g];
    forall b ensures b in c <==> b in edges && Reaches(edges, threshold, a, b) {
      InOneGroup(components, edges.Keys, g, a, b);
      if b in edges {
        assert Together(components, a, b) <==> Reaches(edges, threshold, a, b);
      }
    }
    if [a] in components {
      var h :| 0 <= h < |components| && components[h] == [a];
      assert a in components[h] && g == h;
    }
    if ReachesOnlyItself(edges, threshold, a) {
      OnlyOne(c, a);
    }
  }

  lemma OnlyOne(c: seq<nat>, a: nat)
    requires Distinct(c) && a in c && forall b | b in c :: b == a
    ensures c == [a]
  {
    assert |c| <= 1 || c[0] != c[1];
    forall i | 0 <= i < |c| ensures c[i] == a {
      assert c[i] in c;
    }
  }

  lemma OutputsMerged(edges: Edges, threshold: real, observations: seq<Observation>, components: seq<seq<nat>>)
    requires FoundSoFar(edges, threshold, edges.Keys, components)
    ensures Merged(edges, threshold, observations, Alone(components, observations), Others(components, observations))
  {
    hide Reaches, ReachesOnlyItself, Partition, Alone, Others;
    var nc, groups := Alone(components, observations), Others(components, observations);
    OutputsPartition(components, observations, edges.Keys);
    forall a | a in edges
      ensures a in nc <==> IsNoncongestedInAll(observations, a) && ReachesOnlyItself(edges, threshold, a)
    {
      InAlone(components, observations, a);
      SingleComponent(edges, threshold, components, a);
    }
    forall a, b | a in edges && b in edges && a !in nc && b !in nc
      ensures Together(groups, a, b) <==> Together(components, a, b)
    {
      if Together(groups, a, b) {
        var g :| 0 <= g < |groups| && a in groups[g] && b in groups[g];
        InOthers(components, observations, groups[g]);
      }
      if Together(components, a, b) {
        var g :| 0 <= g < |components| && a in components[g] && b in components[g];
        var c := components[g];
        InOthers(components, observations, c);
        InAlone(components, observations, a);
        assert |c| == 1 ==> c[0] in c && c == [a];
        assert c in groups;
      }
    }
  }

  method FindComponents(pis: seq<nat>, edges: Edges, threshold: real, observations: seq<Observation>)
    returns (nc: seq<nat>, groups: seq<seq<nat>>)
    requires Symmetric(edges) && Elements(pis) == edges.Keys
    ensures Merged(edges, threshold, observations, nc, groups)
  {
    hide Partition, Reaches, Symmetric, Together, Merged;
    var visited: set<nat> := {};
    nc, groups := [], [];
    ghost var components: seq<seq<nat>> := [];
    NothingFound(edges, threshold);
    for i := 0 to |pis|
      invariant FoundSoFar(edges, threshold, visited, components)
      invariant forall j | 0 <= j < i :: pis[j] in visited
      invariant nc == Alone(components, observations) && groups == Others(components, observations)
    {
      var pi := pis[i];
      assert pi in Elements(pis);
      ghost var before := visited;
      var group;
      visited, group := Visit(pi, visited, edges, [], threshold);
      assert pi !in before ==> pi in group;
      if |group| > 0 {
        assert group[0] in group;
        OneComponent(edges, threshold, pi, before, visited, components, group);
        ghost var found := components;
        components := components + [group];
        assert components[..|components| - 1] == found;
        if |group| == 1 {
          if IsNoncongestedInAll(observations, group[0]) {
            nc := nc + [group[0]];
          } else {
            groups := groups + [group];
          }
        } else {
          groups := groups + [group];
        }
      }
    }
    assert visited == edges.Keys by {
      assert forall k | k in Elements(pis) :: k in visited;
    }
    OutputsMerged(edges, threshold, observations, components);
  }

  // A single observation is only split by its marks; several are merged through the graph.
  method MergeObservations(observations: seq<Observation>, threshold: real)
    returns (nc: seq<nat>, groups: seq<seq<nat>>, ghost edges: Edges)
    ensures |observations| == 1 ==>
              nc == Marked(observations[0]) && groups == Unmarked(observations[0])
    ensures |observations| != 1 ==>
              AreEdges(ExtractPis(observations), edges) && Merged(edges, threshold, observations, nc, groups)
  {
    edges := map[];
    if |observations| == 1 {
      nc, groups := SplitMarked(observations[0]);
      return;
    }
    var obs := ExtractPis(observations);
    var pis := GetAllSubflows(obs);
    var weights := FindEdges(pis, obs);
    edges := weights;
    EdgesSymmetric(obs, edges);
    nc, groups := FindComponents(pis, weights, threshold, observations);
  }

  predicate IsMarked(group: seq<Flow>) {
    |group| == 1 && group[0].nc == Some(true)
  }

  ghost function Marked(ob: Observation): seq<nat> {
    if ob == [] then []
    else var last := ob[|ob| - 1];
         Marked(ob[..|ob| - 1]) + if IsMarked(last) then [last[0].pi] else []
  }

  ghost function Unmarked(ob: Observation): seq<seq<nat>> {
    if ob == [] then []
    else var last := ob[|ob| - 1];
         Unmarked(ob[..|ob| - 1]) + if IsMarked(last) then [] else [Pis(last)]
  }

  method SplitMarked(ob: Observation) returns (nc: seq<nat>, groups: seq<seq<nat>>)
    ensures nc == Marked(ob) && groups == Unmarked(ob)
  {
    nc, groups := [], [];
    for i := 0 to |ob|
      invariant nc == Marked(ob[..i]) && groups == Unmarked(ob[..i])
    {
      assert ob[..i + 1][..i] == ob[..i];
      var group := ob[i];
      if |group| == 1 && group[0].nc == Some(true) {
        nc := nc + [group[0].pi];
      } else {
        groups := groups + [Pis(group)];
      }
    }
    assert ob[..|ob|] == ob;
  }

  // Every group of a single observation is reported, as a flow apart exactly if it is one flow marked as not congested.
  lemma {:induction false} SplitMeans(ob: Observation)
    ensures |Marked(ob)| + |Unmarked(ob)| == |ob|
    ensures forall k :: k in Marked(ob) <==> [Flow(k, Some(true))] in ob
    ensures forall c :: c in Unmarked(ob) <==>
              exists i :: 0 <= i < |ob| && c == Pis(ob[i]) && !(|ob[i]| == 1 && ob[i][0].nc == Some(true))
  {
    if ob != [] {
      var n := |ob| - 1;
      var rest, last := ob[..n], ob[n];
      SplitMeans(rest);
      assert ob == rest + [last];
      assert forall k :: [Flow(k, Some(true))] == last <==> IsMarked(last) && last[0].pi == k;
      forall c ensures c in Unmarked(ob) <==>
                         exists i :: 0 <= i < |ob| && c == Pis(ob[i]) && !(|ob[i]| == 1 && ob[i][0].nc == Some(true))
      {
        if i :| 0 <= i < |rest| && c == Pis(rest[i]) && !(|rest[i]| == 1 && rest[i][0].nc == Some(true)) {
          assert c == Pis(ob[i]);
        }
        if i :| 0 <= i < |ob| && c == Pis(ob[i]) && !(|ob[i]| == 1 && ob[i][0].nc == Some(true)) {
          assert i < n ==> c == Pis(rest[i]);
        }
      }
    }
  }

  // ---- what the groups say about the observations ----

  // No observation has a subflow in two of its groups.
  ghost predicate InOneEach(obs: seq<seq<seq<nat>>>, a: nat) {
    forall i, g, h | 0 <= i < |obs| && 0 <= g < h < |obs[i]| && a in obs[i][g] :: a !in obs[i][h]
  }

  // The share of the observations that have two subflows together reaches the threshold.
  ghost predicate OftenEnough(obs: seq<seq<seq<nat>>>, threshold: real, a: nat, b: nat) {
    CountObservations(obs, a, b) > 0 && CountObservations(obs, a, b) as real >= threshold * |obs| as real
  }

  lemma StrongMeans(obs: seq<seq<seq<nat>>>, edges: Edges, threshold: real, a: nat, b: nat)
    requires AreEdges(obs, edges) && InOneEach(obs, a) && a != b
    ensures Strong(edges, threshold, a, b) <==> OftenEnough(obs, threshold, a, b)
  {
    hide AreEdges, InOneEach, AllGroups, Count, CountObservations;
    SharesCounted(obs, a, b);
    EdgeIs(obs, edges, a, b);
    if obs != [] {
      ShareReaches(CountObservations(obs, a, b), |obs|, threshold);
    }
  }

  lemma SharesCounted(obs: seq<seq<seq<nat>>>, a: nat, b: nat)
    requires InOneEach(obs, a)
    ensures Count(AllGroups(obs), a, b) == CountObservations(obs, a, b)
  {
    WeightIsShare(obs, a, b);
  }

  lemma EdgeIs(obs: seq<seq<seq<nat>>>, edges: Edges, a: nat, b: nat)
    requires AreEdges(obs, edges) && a != b
    ensures a in edges && b in edges[a] <==> Count(AllGroups(obs), a, b) > 0
    ensures a in edges && b in edges[a] ==>
              |obs| > 0 && edges[a][b] == Count(AllGroups(obs), a, b) as real / |obs| as real
  {
    hide AllGroups, Count;
    CountMembers(AllGroups(obs), a, b);
  }

  lemma ShareReaches(count: nat, n: nat, threshold: real)
    requires n > 0
    ensures count as real / n as real >= threshold <==> count as real >= threshold * n as real
  {
    var x, y := count as real, n as real;
    assert x / y * y == x;
  }

  // Subflows that were together often enough are in one group.
  lemma OftenTogether(observations: seq<Observation>, edges: Edges, threshold: real, nc: seq<nat>,
                      groups: seq<seq<nat>>, a: nat, b: nat)
    requires AreEdges(ExtractPis(observations), edges) && Merged(edges, threshold, observations, nc, groups)
    requires a != b && InOneEach(ExtractPis(observations), a) && InOneEach(ExtractPis(observations), b)
    requires OftenEnough(ExtractPis(observations), threshold, a, b)
    ensures Together(groups, a, b)
  {
    hide AreEdges, OftenEnough, InOneEach;
    var obs := ExtractPis(observations);
    StrongMeans(obs, edges, threshold, a, b);
    EdgesSymmetric(obs, edges);
    assert Strong(edges, threshold, a, b) && Strong(edges, threshold, b, a);
    ReachesItself(edges, threshold, a);
    ReachesItself(edges, threshold, b);
    ReachesOver(edges, threshold, a, b, b);
    ReachesOver(edges, threshold, b, a, a);
  }

  // Two sides of the subflows between which no pair was together often enough have no group in common.
  lemma SidesApart(observations: seq<Observation>, edges: Edges, threshold: real, nc: seq<nat>, groups: seq<seq<nat>>,
                   side: set<nat>, a: nat, b: nat)
    requires AreEdges(ExtractPis(observations), edges) && Merged(edges, threshold, observations, nc, groups)
    requires forall x | x in edges :: InOneEach(ExtractPis(observations), x)
    requires forall x, y | x in edges && y in edges && x in side && y !in side ::
               !OftenEnough(ExtractPis(observations), threshold, x, y)
    requires a in side && b !in side
    ensures !Together(groups, a, b)
  {
    hide AreEdges, OftenEnough, InOneEach, Reaches;
    var obs := ExtractPis(observations);
    EdgesSymmetric(obs, edges);
    var inside := set x | x in edges && x in side;
    forall x, y | x in inside && Strong(edges, threshold, x, y) ensures y in inside {
      if y !in side {
        StrongMeans(obs, edges, threshold, x, y);
      }
    }
    if Together(groups, a, b) {
      TogetherKnown(groups, edges.Keys - Elements(nc), a, b);
      NeverReaches(edges, threshold, inside, a, b);
    }
  }

  lemma TogetherKnown(groups: seq<seq<nat>>, all: set<nat>, a: nat, b: nat)
    requires Partition(groups, all) && Together(groups, a, b)
    ensures a in all && b in all
  {
  }
}
