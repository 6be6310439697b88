/**
 Partitions of a finite set, as sequences of groups without repetition: the results of grouping flows.
 */
module Partitions {

  ghost function Elements(ids: seq<nat>): set<nat> {
    set k | k in ids
  }

  ghost predicate Distinct(ids: seq<nat>) {
    forall i, j | 0 <= i < j < |ids| :: ids[i] != ids[j]
  }

  // Every element of `all` is in one of the groups, and in one place only.
  ghost predicate Partition(groups: seq<seq<nat>>, all: set<nat>) {
    && (forall g | 0 <= g < |groups| :: groups[g] != [] && Distinct(groups[g]))
    && (forall g, h, k | 0 <= g < h < |groups| && k in groups[g] :: k !in groups[h])
    && (forall g, k | 0 <= g < |groups| && k in groups[g] :: k in all)
    && (forall k | k in all :: exists g :: 0 <= g < |groups| && k in groups[g])
  }

  ghost predicate Together(groups: seq<seq<nat>>, a: nat, b: nat) {
    exists g :: 0 <= g < |groups| && a in groups[g] && b in groups[g]
  }

  ghost function Members(groups: seq<seq<nat>>): set<nat> {
    set g, k | 0 <= g < |groups| && k in groups[g] :: k
  }

  ghost function Covered(parts: seq<seq<nat>>, n: nat): set<nat>
    requires n <= |parts|
  {
    set g, k | 0 <= g < n && k in parts[g] :: k
  }

  lemma TogetherConcat(s: seq<seq<nat>>, t: seq<seq<nat>>, a: nat, b: nat)
    ensures Together(s + t, a, b) <==> Together(s, a, b) || Together(t, a, b)
  {
    if Together(s, a, b) {
      var g :| 0 <= g < |s| && a in s[g] && b in s[g];
      assert (s + t)[g] == s[g];
    }
    if Together(t, a, b) {
      var g :| 0 <= g < |t| && a in t[g] && b in t[g];
      assert (s + t)[|s| + g] == t[g];
    }
  }

  lemma PartitionConcat(s: seq<seq<nat>>, t: seq<seq<nat>>, all: set<nat>, more: set<nat>)
    requires Partition(s, all) && Partition(t, more) && all !! more
    ensures Partition(s + t, all + more)
  {
    forall g, h, k | 0 <= g < h < |s + t| && k in (s + t)[g] ensures k !in (s + t)[h] {
      assert k in if g < |s| then all else more;
    }
    forall k | k in all + more ensures exists g :: 0 <= g < |s + t| && k in (s + t)[g] {
      if k in all {
        var g :| 0 <= g < |s| && k in s[g];
        assert (s + t)[g] == s[g];
      } else {
        var g :| 0 <= g < |t| && k in t[g];
        assert (s + t)[|s| + g] == t[g];
      }
    }
  }

  lemma NotTogether(parts: seq<seq<nat>>, all: set<nat>, a: nat, b: nat)
    requires Partition(parts, all) && (a !in all || b !in all)
    ensures !Together(parts, a, b)
  {
  }

  lemma InOneGroup(parts: seq<seq<nat>>, all: set<nat>, g: nat, a: nat, b: nat)
    requires Partition(parts, all) && g < |parts| && a in parts[g]
    ensures Together(parts, a, b) <==> b in parts[g]
  {
  }

  lemma TogetherBack(parts: seq<seq<nat>>, a: nat, b: nat)
    ensures Together(parts, a, b) <==> Together(parts, b, a)
  {
  }

  lemma TogetherTransitive(groups: seq<seq<nat>>, all: set<nat>, a: nat, b: nat, c: nat)
    requires Partition(groups, all) && Together(groups, a, b) && Together(groups, b, c)
    ensures Together(groups, a, c)
  {
    var g :| 0 <= g < |groups| && a in groups[g] && b in groups[g];
    var h :| 0 <= h < |groups| && b in groups[h] && c in groups[h];
    assert g == h;
  }

  lemma CoveredMore(parts: seq<seq<nat>>, all: set<nat>, n: nat)
    requires Partition(parts, all) && n < |parts|
    ensures Covered(parts, n) !! Elements(parts[n])
    ensures Covered(parts, n + 1) == Covered(parts, n) + Elements(parts[n]) <= all
  {
  }

  lemma CoveredAll(parts: seq<seq<nat>>, all: set<nat>)
    requires Partition(parts, all)
    ensures Covered(parts, |parts|) == all && Covered(parts, 0) == {}
  {
  }

  lemma PrefixPartition(parts: seq<seq<nat>>, all: set<nat>, n: nat)
    requires Partition(parts, all) && n <= |parts|
    ensures Partition(parts[..n], Covered(parts, n))
  {
    var prefix := parts[..n];
    assert forall g | 0 <= g < n :: prefix[g] == parts[g];
    forall k | k in Covered(parts, n) ensures exists g :: 0 <= g < |prefix| && k in prefix[g] {
      var g :| 0 <= g < n && k in parts[g];
      assert k in prefix[g];
    }
  }

  lemma PartitionOneMore(parts: seq<seq<nat>>, all: set<nat>, part: seq<nat>, more: set<nat>)
    requires Partition(parts, all) && all !! more && part != []
    requires Distinct(part) && forall k :: k in part <==> k in more
    ensures Partition(parts + [part], all + more)
  {
    forall k | k in all + more ensures exists g :: 0 <= g < |parts + [part]| && k in (parts + [part])[g] {
      if k in all {
        var g :| 0 <= g < |parts| && k in parts[g];
        assert (parts + [part])[g] == parts[g];
      } else {
        assert (parts + [part])[|parts|] == part;
      }
    }
  }

  lemma TogetherOneMore(parts: seq<seq<nat>>, part: seq<nat>, a: nat, b: nat)
    ensures Together(parts + [part], a, b) <==> Together(parts, a, b) || (a in part && b in part)
  {
    if Together(parts, a, b) {
      var g :| 0 <= g < |parts| && a in parts[g] && b in parts[g];
      assert (parts + [part])[g] == parts[g];
    }
    assert (parts + [part])[|parts|] == part;
  }

  lemma NoParts()
    ensures Partition([], {}) && Distinct([]) && Elements([]) == {}
  {
  }

  lemma PartProper(parts: seq<seq<nat>>, all: set<nat>, g: nat)
    requires Partition(parts, all) && g < |parts|
    ensures parts[g] != [] && Distinct(parts[g]) && forall k :: k in parts[g] <==> k in Elements(parts[g])
  {
  }

  lemma DistinctOneMore(ids: seq<nat>, one: seq<nat>)
    requires Distinct(ids) && |one| == 1 && Elements(ids) !! Elements(one)
    ensures Distinct(ids + [one[0]]) && Elements(ids + [one[0]]) == Elements(ids) + Elements(one)
  {
    assert one[0] in Elements(one) && forall k | k in ids :: k in Elements(ids);
  }

  lemma {:induction false} Monotone(s: set<nat>, t: set<nat>)
    requires s <= t
    ensures |s| <= |t|
  {
    if s != {} {
      var k :| k in s;
      Monotone(s - {k}, t - {k});
    }
  }
}
