/**
 ackhandler/packet_linkedlist.go: a doubly linked list kept as a ring through a sentinel.
 The ghost field `nodes` is the sequence of elements the pointers spell out.
 */
module PacketList {
  import opened PacketHistory

  class Element {
    var next: Element?
    var prev: Element?
    var list: List?
    const value: Packet

    constructor (value: Packet)
      ensures next == null && prev == null && list == null && this.value == value
    {
      next, prev, list := null, null, null;
      this.value := value;
    }

    function Next(): Element?
      reads this
    {
      if list != null && next != list.root then next else null
    }

    function Prev(): Element?
      reads this
    {
      if list != null && prev != list.root then prev else null
    }
  }

  // The values of a sequence of elements.
  function Values(nodes: seq<Element>): (s: seq<Packet>)
    ensures |s| == |nodes| && forall i | 0 <= i < |nodes| :: s[i] == nodes[i].value
  {
    seq(|nodes|, i requires 0 <= i < |nodes| => nodes[i].value)
  }

  // `now` is `start` with elements behind it that repeat the first n values of `copied`.
  ghost predicate CopiedBack(start: seq<Element>, now: seq<Element>, copied: seq<Element>, n: nat) {
    n <= |copied| && start <= now && Values(now) == Values(start) + Values(copied)[..n]
  }

  // `now` is `start` with elements before it that repeat the last n values of `copied`.
  ghost predicate CopiedFront(start: seq<Element>, now: seq<Element>, copied: seq<Element>, n: nat) {
    && n <= |copied| && EndsWith(now, start)
    && Values(now) == Values(copied)[|copied| - n..] + Values(start)
  }

  ghost predicate EndsWith(s: seq<Element>, end: seq<Element>) {
    |end| <= |s| && s[|s| - |end|..] == end
  }

  lemma NothingCopied(s: seq<Element>, copied: seq<Element>)
    ensures CopiedBack(s, s, copied, 0) && CopiedFront(s, s, copied, 0) && EndsWith(s, s)
  {
  }

  lemma CopyOneBack(start: seq<Element>, now: seq<Element>, copied: seq<Element>, n: nat, a: Element)
    requires CopiedBack(start, now, copied, n) && n < |copied| && a.value == copied[n].value
    ensures CopiedBack(start, now + [a], copied, n + 1)
  {
  }

  lemma CopyOneFront(start: seq<Element>, now: seq<Element>, copied: seq<Element>, n: nat, a: Element)
    requires CopiedFront(start, now, copied, n) && n < |copied| && a.value == copied[|copied| - n - 1].value
    ensures CopiedFront(start, [a] + now, copied, n + 1)
  {
  }

  lemma AllCopied(start: seq<Element>, now: seq<Element>, copied: seq<Element>)
    ensures CopiedBack(start, now, copied, |copied|) ==> start <= now && Values(now) == Values(start) + Values(copied)
    ensures CopiedFront(start, now, copied, |copied|) ==>
              EndsWith(now, start) && Values(now) == Values(copied) + Values(start)
  {
  }

  lemma StillEndsWith(a: Element, s: seq<Element>, end: seq<Element>)
    requires EndsWith(s, end)
    ensures EndsWith([a] + s, end)
  {
  }

  lemma EndAt(s: seq<Element>, end: seq<Element>, k: nat)
    requires EndsWith(s, end) && k < |end|
    ensures |end| <= |s| && s[|s| - |end| + k] == end[k]
  {
    assert s[|s| - |end|..][k] == end[k];
  }

  ghost predicate Distinct(nodes: seq<Element>) {
    forall i, j | 0 <= i < j < |nodes| :: nodes[i] != nodes[j]
  }

  lemma LeftOut(nodes: seq<Element>, k: nat, rest: seq<Element>)
    requires k < |nodes| && Distinct(nodes) && rest == nodes[..k] + nodes[k + 1..]
    ensures Distinct(rest) && |rest| == |nodes| - 1 && nodes[k] !in rest
    ensures forall i | 0 <= i < |rest| :: rest[i] == nodes[if i < k then i else i + 1]
    ensures forall i | 0 <= i < |nodes| && i != k :: nodes[i] != nodes[k]
    ensures forall e | e in rest :: e in nodes && e != nodes[k]
  {
  }

  class List {
    const root: Element
    var len: int
    ghost var nodes: seq<Element>

    // The ring: the elements in order, between two visits to the sentinel.
    ghost function At(i: int): Element
      requires -1 <= i <= |nodes|
      reads this
    {
      if 0 <= i < |nodes| then nodes[i] else root
    }

    ghost predicate Ring()
      reads this, root, nodes
    {
      forall i | -1 <= i < |nodes| :: At(i).next == At(i + 1) && At(i + 1).prev == At(i)
    }

    ghost predicate Valid()
      reads this, root, nodes
    {
      && root.list == null && root !in nodes && Distinct(nodes)
      && (forall e | e in nodes :: e.list == this)
      && len == |nodes|
      && (Ring() || (nodes == [] && root.next == null && root.prev == null))
    }

    // What a caller sees: the packets in order.
    ghost function Contents(): seq<Packet>
      reads this
    {
      Values(nodes)
    }

    // The zero value: the ring is closed by the first push.
    constructor ()
      ensures Valid() && Contents() == [] && fresh(root)
    {
      root := new Element(Packet(0, [], 0, 0));
      len, nodes := 0, [];
    }

    method Init()
      requires root.list == null
      modifies this, root
      ensures Valid() && Ring() && nodes == []
      ensures root.next == root && root.prev == root
    {
      root.next := root;
      root.prev := root;
      len := 0;
      nodes := [];
    }

    method LazyInit()
      requires Valid()
      modifies this, root
      ensures Valid() && Ring() && nodes == old(nodes)
      ensures root.next == root || root.next == old(root.next)
      ensures root.prev == root || root.prev == old(root.prev)
    {
      assert Ring() ==> At(-1).next == At(0);
      if root.next == null {
        Init();
      }
    }

    function Len(): (n: int)
      requires Valid()
      reads this, root, nodes
      ensures n == |nodes|
    {
      len
    }

    function Front(): (e: Element?)
      requires Valid()
      reads this, root, nodes
      ensures e == if nodes == [] then null else nodes[0]
    {
      assert nodes != [] ==> At(-1).next == At(0);
      if len == 0 then null else root.next
    }

    function Back(): (e: Element?)
      requires Valid()
      reads this, root, nodes
      ensures e == if nodes == [] then null else nodes[|nodes| - 1]
    {
      assert nodes != [] ==> At(|nodes|).prev == At(|nodes| - 1);
      if len == 0 then null else root.prev
    }

    // Links e in after position k.
    method Insert(e: Element, at: Element, ghost k: int)
      requires Valid() && Ring() && -1 <= k < |nodes| && at == At(k)
      requires e !in nodes && e != root
      modifies this, e, at, at.next
      ensures Valid() && Ring()
      ensures nodes == old(nodes[..k + 1] + [e] + nodes[k + 1..])
    {
      assert At(k).next == At(k + 1);
      var n := at.next;
      at.next := e;
      e.prev := at;
      e.next := n;
      n.prev := e;
      e.list := this;
      len := len + 1;
      nodes := nodes[..k + 1] + [e] + nodes[k + 1..];
      forall i | -1 <= i < |nodes| ensures At(i).next == At(i + 1) && At(i + 1).prev == At(i) {
        var j := if i <= k then i else i - 1;
        assert i != k && i != k + 1 ==> At(i) == old(At(j)) && At(i + 1) == old(At(j + 1));
        assert i != k && i != k + 1 ==> old(At(j).next == At(j + 1) && At(j + 1).prev == At(j));
      }
    }

    method InsertValue(v: Packet, at: Element, ghost k: int) returns (e: Element)
      requires Valid() && Ring() && -1 <= k < |nodes| && at == At(k)
      modifies this, at, at.next
      ensures Valid() && Ring() && fresh(e) && e.value == v
      ensures nodes == old(nodes[..k + 1]) + [e] + old(nodes[k + 1..])
    {
      e := new Element(v);
      Insert(e, at, k);
    }

    method RemoveElement(e: Element, ghost k: int)
      requires Valid() && 0 <= k < |nodes| && e == nodes[k]
      modifies this, e, e.prev, e.next
      ensures Valid() && Ring()
      ensures nodes == old(nodes[..k] + nodes[k + 1..])
      ensures e.next == null && e.prev == null && e.list == null
    {
      hide Distinct;
      assert At(k - 1).next == At(k) && At(k).next == At(k + 1);
      e.prev.next := e.next;
      e.next.prev := e.prev;
      e.next := null;
      e.prev := null;
      e.list := null;
      len := len - 1;
      nodes := nodes[..k] + nodes[k + 1..];
      LeftOut(old(nodes), k, nodes);
      forall i | -1 <= i < |nodes| ensures At(i).next == At(i + 1) && At(i + 1).prev == At(i) {
        var j := if i < k then i else i + 1;
        assert At(i + 1) == old(At(if i + 1 < k then i + 1 else i + 2));
        assert old(At(j).next == At(j + 1) && At(j + 1).prev == At(j));
      }
    }

    // Only an element of this list is taken out.
    method Remove(e: Element) returns (v: Packet)
      requires Valid() && (e.list == this <==> e in nodes)
      modifies this, e, e.prev, e.next
      ensures Valid() && v == e.value
      ensures e !in old(nodes) ==> nodes == old(nodes) && (old(Ring()) ==> Ring())
      ensures forall k | 0 <= k < |old(nodes)| && old(nodes[k]) == e ::
                Ring() && nodes == old(nodes[..k] + nodes[k + 1..])
    {
      if e.list == this {
        ghost var k :| 0 <= k < |nodes| && e == nodes[k];
        RemoveElement(e, k);
      }
      v := e.value;
    }

    method PushFront(v: Packet) returns (e: Element)
      requires Valid()
      modifies this, root, root.next
      ensures Valid() && Ring() && fresh(e) && e.value == v
      ensures nodes == [e] + old(nodes)
    {
      LazyInit();
      assert At(-1).next == At(0);
      e := InsertValue(v, root, -1);
    }

    method PushBack(v: Packet) returns (e: Element)
      requires Valid()
      modifies this, root, root.prev
      ensures Valid() && Ring() && fresh(e) && e.value == v
      ensures nodes == old(nodes) + [e]
    {
      LazyInit();
      ghost var k := |nodes| - 1;
      assert At(k).next == At(k + 1) && At(k + 1).prev == At(k);
      e := InsertValue(v, root.prev, k);
    }

    method InsertBefore(v: Packet, mark: Element) returns (e: Element?)
      requires Valid() && (mark.list == this <==> mark in nodes)
      modifies this, mark, mark.prev
      ensures Valid()
      ensures mark !in old(nodes) ==> e == null && nodes == old(nodes)
      ensures forall k | 0 <= k < |old(nodes)| && old(nodes[k]) == mark ::
                e != null && fresh(e) && e.value == v && nodes == old(nodes[..k]) + [e] + old(nodes[k..])
    {
      e := null;
      if mark.list == this {
        ghost var k :| 0 <= k < |nodes| && mark == nodes[k];
        assert At(k - 1).next == At(k);
        e := InsertValue(v, mark.prev, k - 1);
      }
    }

    method InsertAfter(v: Packet, mark: Element) returns (e: Element?)
      requires Valid() && (mark.list == this <==> mark in nodes)
      modifies this, mark, mark.next
      ensures Valid()
      ensures mark !in old(nodes) ==> e == null && nodes == old(nodes)
      ensures forall k | 0 <= k < |old(nodes)| && old(nodes[k]) == mark ::
                e != null && fresh(e) && e.value == v && nodes == old(nodes[..k + 1]) + [e] + old(nodes[k + 1..])
    {
      e := null;
      if mark.list == this {
        ghost var k :| 0 <= k < |nodes| && mark == nodes[k];
        assert At(k).next == At(k + 1);
        e := InsertValue(v, mark, k);
      }
    }

    // No element of the other list is an element of this one, unless it is this one.
    ghost predicate Apart(other: List)
      reads this, other
    {
      other != this ==> root != other.root && (forall e | e in nodes :: e !in other.nodes && e != other.root)
                        && root !in other.nodes
    }

    // LazyInit and Insert leave another list as it is.
    method LazyInitBeside(ghost other: List)
      requires Valid() && other.Valid() && Apart(other)
      modifies this, root
      ensures Valid() && Ring() && other.Valid() && Apart(other)
      ensures nodes == old(nodes) && other.nodes == old(other.nodes)
      ensures root.next == root || root.next == old(root.next)
      ensures root.prev == root || root.prev == old(root.prev)
    {
      LazyInit();
    }

    method InsertBeside(v: Packet, at: Element, ghost k: int, ghost other: List) returns (e: Element)
      requires Valid() && Ring() && -1 <= k < |nodes| && at == At(k)
      requires other.Valid() && Apart(other)
      modifies this, at, at.next
      ensures Valid() && Ring() && other.Valid() && Apart(other) && fresh(e) && e.value == v
      ensures nodes == old(nodes[..k + 1]) + [e] + old(nodes[k + 1..])
      ensures other != this ==> other.nodes == old(other.nodes)
    {
      assert at.next == At(k + 1) && (at in nodes || at == root) && (at.next in nodes || at.next == root);
      e := InsertValue(v, at, k);
      if other != this && old(other.Ring()) {
        forall i | -1 <= i < |other.nodes|
          ensures other.At(i).next == other.At(i + 1) && other.At(i + 1).prev == other.At(i)
        {
          assert (other.At(i) in other.nodes || i == -1) && (other.At(i + 1) in other.nodes || i + 1 == |other.nodes|);
          assert old(other.At(i).next == other.At(i + 1) && other.At(i + 1).prev == other.At(i));
        }
      }
    }

    // Where the sentinel leads.
    lemma Ends()
      requires Ring()
      ensures root.next == At(0) && root.prev == At(|nodes| - 1)
      ensures At(0).prev == root && At(|nodes| - 1).next == root
    {
      assert At(-1).next == At(0) && At(|nodes| - 1).next == At(|nodes|);
    }

    // What Next and Prev see at position k.
    lemma Neighbours(k: int)
      requires Valid() && 0 <= k < |nodes|
      ensures nodes[k].Next() == (if k + 1 < |nodes| then nodes[k + 1] else null)
      ensures nodes[k].Prev() == (if k > 0 then nodes[k - 1] else null)
    {
      assert nodes[k] in nodes && At(k).next == At(k + 1) && At(k - 1).next == At(k) && At(k).prev == At(k - 1);
    }

    // The state of the loop of PushBackList: n elements have been copied.
    ghost predicate Backing(other: List, start: seq<Element>, copied: seq<Element>, n: nat)
      reads this, root, nodes, other, other.root, other.nodes
    {
      && Valid() && Ring() && other.Valid() && Apart(other) && n <= |copied|
      && CopiedBack(start, nodes, copied, n)
      && copied <= other.nodes && (other != this ==> other.nodes == copied)
    }

    // The state of the loop of PushFrontList.
    ghost predicate Fronting(other: List, start: seq<Element>, copied: seq<Element>, i: int)
      reads this, root, nodes, other, other.root, other.nodes
    {
      && Valid() && Ring() && other.Valid() && Apart(other) && 0 <= i <= |copied|
      && CopiedFront(start, nodes, copied, |copied| - i)
      && EndsWith(other.nodes, copied) && (other != this ==> other.nodes == copied)
    }

    method CopyBack(e: Element, ghost other: List, ghost start: seq<Element>, ghost copied: seq<Element>, ghost n: nat)
      returns (next: Element?)
      requires n < |copied| && Backing(other, start, copied, n) && e == copied[n]
      modifies this, root, root.prev
      ensures Backing(other, start, copied, n + 1)
      ensures fresh(root.prev) && (n + 1 < |copied| ==> next == copied[n + 1])
    {
      hide CopiedBack, Ring, Valid, Apart, Element.Next;
      Ends();
      ghost var now := nodes;
      var a := InsertBeside(e.value, root.prev, |nodes| - 1, other);
      assert nodes == now + [a];
      Ends();
      CopyOneBack(start, now, copied, n, a);
      other.Neighbours(n);
      next := e.Next();
    }

    method CopyFront(e: Element, ghost other: List, ghost start: seq<Element>, ghost copied: seq<Element>, ghost i: int)
      returns (next: Element?)
      requires Fronting(other, start, copied, i) && 0 < i && e == copied[i - 1]
      modifies this, root, root.next
      ensures Fronting(other, start, copied, i - 1)
      ensures fresh(root.next) && (i > 1 ==> next == copied[i - 2])
    {
      hide CopiedFront, EndsWith, Ring, Valid, Apart, Element.Prev;
      Ends();
      ghost var now, them := nodes, other.nodes;
      var a := InsertBeside(e.value, root, -1, other);
      assert nodes == [a] + now;
      Ends();
      CopyOneFront(start, now, copied, |copied| - i, a);
      StillEndsWith(a, them, copied);
      EndAt(other.nodes, copied, i - 1);
      if i > 1 {
        EndAt(other.nodes, copied, i - 2);
      }
      other.Neighbours(|other.nodes| - |copied| + i - 1);
      next := e.Prev();
    }

    lemma CopyBegins(other: List)
      requires Valid() && Ring() && other.Valid() && Apart(other)
      ensures Backing(other, nodes, other.nodes, 0)
      ensures Fronting(other, nodes, other.nodes, |other.nodes|)
    {
      NothingCopied(nodes, other.nodes);
      NothingCopied(other.nodes, other.nodes);
    }

    lemma BackEnds(other: List, start: seq<Element>, copied: seq<Element>, n: nat)
      requires Backing(other, start, copied, n) && n == |copied|
      ensures Valid() && other.Valid() && (other != this ==> other.nodes == copied)
      ensures start <= nodes && Contents() == Values(start) + Values(copied)
    {
      AllCopied(start, nodes, copied);
    }

    lemma FrontEnds(other: List, start: seq<Element>, copied: seq<Element>, i: int)
      requires Fronting(other, start, copied, i) && i == 0
      ensures Valid() && other.Valid() && (other != this ==> other.nodes == copied)
      ensures EndsWith(nodes, start) && Contents() == Values(copied) + Values(start)
    {
      AllCopied(start, nodes, copied);
    }

    // A copy of the other list, which may be this one, at the back.
    method PushBackList(other: List)
      requires Valid() && other.Valid() && Apart(other)
      modifies this, root, root.prev
      ensures Valid() && other.Valid()
      ensures old(nodes) <= nodes && Contents() == old(Contents() + other.Contents())
      ensures other != this ==> other.nodes == old(other.nodes)
    {
      hide Ring, Valid, Apart, Front, Len, Backing, Values;
      LazyInitBeside(other);
      CopyBegins(other);
      ghost var start, copied := nodes, other.nodes;
      var i, e := other.Len(), other.Front();
      ghost var n: nat := 0;
      while i > 0
        invariant n <= |copied| && i == |copied| - n && Backing(other, start, copied, n)
        invariant root.prev == old(root.prev) || root.prev == root || fresh(root.prev)
        invariant n < |copied| ==> e == copied[n]
      {
        e := CopyBack(e, other, start, copied, n);
        i, n := i - 1, n + 1;
      }
      BackEnds(other, start, copied, n);
    }

    // A copy of the other list, which may be this one, at the front.
    method PushFrontList(other: List)
      requires Valid() && other.Valid() && Apart(other)
      modifies this, root, root.next
      ensures Valid() && other.Valid()
      ensures EndsWith(nodes, old(nodes)) && Contents() == old(other.Contents() + Contents())
      ensures other != this ==> other.nodes == old(other.nodes)
    {
      hide Ring, Valid, Apart, Back, Len, Fronting, Values, EndsWith;
      LazyInitBeside(other);
      CopyBegins(other);
      ghost var start, copied := nodes, other.nodes;
      var i, e := other.Len(), other.Back();
      while i > 0
        invariant 0 <= i <= |copied| && Fronting(other, start, copied, i)
        invariant root.next == old(root.next) || root.next == root || fresh(root.next)
        invariant i > 0 ==> e == copied[i - 1]
      {
        e := CopyFront(e, other, start, copied, i);
        i := i - 1;
      }
      FrontEnds(other, start, copied, i);
    }

    // How callers walk through the list.
    method Forward() returns (s: seq<Packet>)
      requires Valid()
      ensures s == Contents()
    {
      s := [];
      var e := Front();
      while e != null
        invariant |s| <= |nodes| && s == Contents()[..|s|]
        invariant e == if |s| < |nodes| then nodes[|s|] else null
        decreases |nodes| - |s|
      {
        Neighbours(|s|);
        s, e := s + [e.value], e.Next();
      }
    }

    method Backward() returns (s: seq<Packet>)
      requires Valid()
      ensures |s| == |nodes| && forall i | 0 <= i < |s| :: s[i] == Contents()[|s| - 1 - i]
    {
      s := [];
      var e := Back();
      while e != null
        invariant |s| <= |nodes| && forall i | 0 <= i < |s| :: s[i] == nodes[|nodes| - 1 - i].value
        invariant e == if |s| < |nodes| then nodes[|nodes| - 1 - |s|] else null
        decreases |nodes| - |s|
      {
        Neighbours(|nodes| - 1 - |s|);
        s, e := s + [e.value], e.Prev();
      }
    }
  }
}
