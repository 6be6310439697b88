/**
 Reassembly of a stream from frames that arrive in any order, overlap and repeat.

 The sorter keeps a list of gaps (byte ranges not yet received) and a map from an offset
 to the queued frame that starts there. The bytes between two gaps form a block. Queued
 frames may overlap: frames of a block that a larger frame covers are only partly
 removed. What holds is that a chain of queued frames leads through every block.
 */
module StreamFrameSorter {
  import opened Wire
  import opened Wrappers

  const MAX_GAPS: nat := 2500

  datatype Interval = Interval(start: nat, end: nat)

  datatype PushResult =
    | Accepted
    | EmptyStreamData
    | DuplicateStreamData
    | TooManyGaps
    | NoEndGapFound

  datatype State = State(queued: map<nat, StreamFrame>, gaps: seq<Interval>, readPosition: nat)

  // ---------- gaps ----------

  ghost predicate InGap(gaps: seq<Interval>, x: nat) {
    exists i :: 0 <= i < |gaps| && gaps[i].start <= x < gaps[i].end
  }

  // Non-empty gaps in ascending order, with at least one received byte between two of
  // them; the last one is open-ended.
  ghost predicate GapsOk(gaps: seq<Interval>) {
    && |gaps| > 0
    && Ascending(gaps)
    && gaps[|gaps| - 1].end == MAX_BYTE_COUNT
  }

  // The gap list after bytes s..e have arrived, where s lies in gap g and e - 1 in gap j.
  ghost function Fill(gaps: seq<Interval>, g: nat, j: nat, s: nat, e: nat): seq<Interval>
    requires g <= j < |gaps|
  {
    gaps[..g]
    + (if gaps[g].start < s then [Interval(gaps[g].start, s)] else [])
    + (if e < gaps[j].end then [Interval(e, gaps[j].end)] else [])
    + gaps[j + 1..]
  }

  // The list with entry i replaced by vs.
  function Replace(gaps: seq<Interval>, i: nat, vs: seq<Interval>): seq<Interval>
    requires i < |gaps|
  {
    gaps[..i] + vs + gaps[i + 1..]
  }

  // The gap list once the gaps between g and j are gone; gap j is gone too if the frame, which
  // ends at byte end, reaches its end.
  ghost function Remaining(gs: seq<Interval>, g: nat, j: nat, end: nat): seq<Interval>
    requires g <= j < |gs|
  {
    gs[..g]
    + [gs[g]]
    + (if g < j && end < gs[j].end then [gs[j]] else [])
    + gs[j + 1..]
  }

  ghost predicate FillArgs(gaps: seq<Interval>, g: nat, j: nat, s: nat, e: nat) {
    && GapsOk(gaps)
    && g <= j < |gaps|
    && gaps[g].start <= s < gaps[g].end
    && gaps[j].start < e <= gaps[j].end
    && s < e < MAX_BYTE_COUNT
  }

  ghost predicate Ascending(gaps: seq<Interval>) {
    && (forall i :: 0 <= i < |gaps| ==> gaps[i].start < gaps[i].end)
    && (forall i, j :: 0 <= i < j < |gaps| ==> gaps[i].end < gaps[j].start)
  }

  lemma FillShapes(gs: seq<Interval>, g: nat, j: nat, s: nat, e: nat)
    requires g <= j < |gs|
    ensures var a, b := gs[..g], gs[j + 1..];
            var v, w := Interval(gs[g].start, s), Interval(e, gs[j].end);
            Fill(gs, g, j, s, e) ==
            if gs[g].start < s then
              if e < gs[j].end then a + [v] + [w] + b else a + [v] + b
            else
              if e < gs[j].end then a + [w] + b else a + b
  {
  }

  lemma AscendingConcat(a: seq<Interval>, b: seq<Interval>, x: nat)
    requires Ascending(a) && Ascending(b)
    requires forall i :: 0 <= i < |a| ==> a[i].end < x
    requires forall i :: 0 <= i < |b| ==> x <= b[i].start
    ensures Ascending(a + b)
  {
  }

  lemma AscendingSlices(gaps: seq<Interval>, g: nat, j: nat)
    requires Ascending(gaps) && g <= j < |gaps|
    ensures Ascending(gaps[..g]) && Ascending(gaps[j + 1..])
    ensures forall i :: 0 <= i < g ==> gaps[..g][i].end < gaps[g].start
    ensures var b := gaps[j + 1..]; forall i :: 0 <= i < |b| ==> gaps[j].end + 1 <= b[i].start
  {
  }

  lemma AscendingAppend(a: seq<Interval>, v: Interval, x: nat)
    requires Ascending(a) && v.start < v.end
    requires forall i :: 0 <= i < |a| ==> a[i].end < x
    requires x <= v.start
    ensures Ascending(a + [v])
    ensures forall i :: 0 <= i < |a| + 1 ==> (a + [v])[i].end < v.end + 1
  {
    AscendingConcat(a, [v], x);
  }

  lemma FillAscending(gaps: seq<Interval>, g: nat, j: nat, s: nat, e: nat)
    requires FillArgs(gaps, g, j, s, e)
    ensures Ascending(Fill(gaps, g, j, s, e))
  {
    var a, b := gaps[..g], gaps[j + 1..];
    var v, w := Interval(gaps[g].start, s), Interval(e, gaps[j].end);
    FillShapes(gaps, g, j, s, e);
    AscendingSlices(gaps, g, j);
    hide Fill, Ascending;
    if v.start < s {
      AscendingAppend(a, v, v.start);
      if e < w.end {
        AscendingAppend(a + [v], w, e);
        AscendingConcat(a + [v] + [w], b, w.end + 1);
      } else {
        AscendingConcat(a + [v], b, w.end + 1);
      }
    } else {
      if e < w.end {
        AscendingAppend(a, w, v.start);
        AscendingConcat(a + [w], b, w.end + 1);
      } else {
        AscendingConcat(a, b, w.end + 1);
      }
    }
  }

  lemma FillOk(gaps: seq<Interval>, g: nat, j: nat, s: nat, e: nat)
    requires FillArgs(gaps, g, j, s, e)
    ensures GapsOk(Fill(gaps, g, j, s, e))
  {
    FillAscending(gaps, g, j, s, e);
    hide Ascending;
    var n := Fill(gaps, g, j, s, e);
    if j + 1 == |gaps| {
      assert n[|n| - 1] == Interval(e, gaps[j].end);
    } else {
      assert n[|n| - 1] == gaps[|gaps| - 1];
    }
  }

  lemma InGapConcat(a: seq<Interval>, b: seq<Interval>, x: nat)
    ensures InGap(a + b, x) <==> InGap(a, x) || InGap(b, x)
  {
    if InGap(a, x) {
      var i :| 0 <= i < |a| && a[i].start <= x < a[i].end;
      assert (a + b)[i] == a[i];
    }
    if InGap(b, x) {
      var i :| 0 <= i < |b| && b[i].start <= x < b[i].end;
      assert (a + b)[|a| + i] == b[i];
    }
  }

  // Inside the filled stretch only the two ends can still be missing.
  lemma FillMiddle(gaps: seq<Interval>, g: nat, j: nat, s: nat, e: nat, x: nat)
    requires FillArgs(gaps, g, j, s, e)
    ensures InGap(gaps[g..j + 1], x) && !(s <= x < e) <==>
            gaps[g].start <= x < s || e <= x < gaps[j].end
  {
    var m := gaps[g..j + 1];
    assert m[0] == gaps[g] && m[j - g] == gaps[j];
    if i :| 0 <= i < |m| && m[i].start <= x < m[i].end {
      assert m[i] == gaps[g + i];
    }
  }

  lemma InGapSingleton(v: Interval, b: bool, x: nat)
    ensures InGap(if b then [v] else [], x) <==> b && v.start <= x < v.end
  {
    assert b ==> [v][0] == v;
  }

  lemma FillSplit(gaps: seq<Interval>, g: nat, j: nat, s: nat, e: nat, x: nat)
    requires g <= j < |gaps|
    ensures InGap(gaps, x) <==>
            InGap(gaps[..g], x) || InGap(gaps[g..j + 1], x) || InGap(gaps[j + 1..], x)
    ensures InGap(Fill(gaps, g, j, s, e), x) <==>
            || InGap(gaps[..g], x)
            || gaps[g].start <= x < s
            || e <= x < gaps[j].end
            || InGap(gaps[j + 1..], x)
  {
    var l := if gaps[g].start < s then [Interval(gaps[g].start, s)] else [];
    var r := if e < gaps[j].end then [Interval(e, gaps[j].end)] else [];
    InGapSingleton(Interval(gaps[g].start, s), gaps[g].start < s, x);
    InGapSingleton(Interval(e, gaps[j].end), e < gaps[j].end, x);
    InGapConcat(gaps[..g] + l + r, gaps[j + 1..], x);
    InGapConcat(gaps[..g] + l, r, x);
    InGapConcat(gaps[..g], l, x);
    assert gaps == gaps[..g] + (gaps[g..j + 1] + gaps[j + 1..]);
    InGapConcat(gaps[..g], gaps[g..j + 1] + gaps[j + 1..], x);
    InGapConcat(gaps[g..j + 1], gaps[j + 1..], x);
  }

  lemma FillMembers(gaps: seq<Interval>, g: nat, j: nat, s: nat, e: nat, x: nat)
    requires FillArgs(gaps, g, j, s, e)
    ensures InGap(Fill(gaps, g, j, s, e), x) <==> InGap(gaps, x) && !(s <= x < e)
  {
    FillSplit(gaps, g, j, s, e, x);
    FillMiddle(gaps, g, j, s, e, x);
    FillOutside(gaps, g, j, s, e, x);
  }

  // The gaps before and after the filled stretch do not meet s..e.
  lemma FillOutside(gaps: seq<Interval>, g: nat, j: nat, s: nat, e: nat, x: nat)
    requires FillArgs(gaps, g, j, s, e)
    ensures InGap(gaps[..g], x) || InGap(gaps[j + 1..], x) ==> !(s <= x < e)
  {
    if InGap(gaps[..g], x) {
      var i :| 0 <= i < |gaps[..g]| && gaps[..g][i].start <= x < gaps[..g][i].end;
      assert gaps[i].end < gaps[g].start;
    }
    if InGap(gaps[j + 1..], x) {
      var i :| 0 <= i < |gaps[j + 1..]| && gaps[j + 1..][i].start <= x < gaps[j + 1..][i].end;
      assert gaps[j].end < gaps[j + 1 + i].start;
    }
  }

  // ---------- chains of queued frames ----------

  // Following queued frames from byte lo leads exactly to byte hi.
  ghost predicate Chain(queued: map<nat, StreamFrame>, lo: nat, hi: nat)
    decreases hi - lo
  {
    lo == hi ||
    (&& lo < hi
     && lo in queued
     && 0 < queued[lo].DataLen() <= hi - lo
     && Chain(queued, lo + queued[lo].DataLen(), hi))
  }

  // The bytes along a chain.
  ghost function Contents(queued: map<nat, StreamFrame>, lo: nat, hi: nat): (bytes: seq<byte>)
    requires Chain(queued, lo, hi)
    ensures |bytes| == hi - lo
    decreases hi - lo
  {
    if lo == hi then [] else queued[lo].data + Contents(queued, lo + queued[lo].DataLen(), hi)
  }

  lemma {:induction false} ChainFrame(q: map<nat, StreamFrame>, q': map<nat, StreamFrame>, lo: nat, hi: nat)
    requires Chain(q, lo, hi)
    requires forall k :: lo <= k < hi && k in q ==> k in q' && q'[k] == q[k]
    ensures Chain(q', lo, hi)
    ensures Contents(q', lo, hi) == Contents(q, lo, hi)
    decreases hi - lo
  {
    if lo != hi {
      ChainFrame(q, q', lo + q[lo].DataLen(), hi);
    }
  }

  lemma {:induction false} ChainConcat(q: map<nat, StreamFrame>, lo: nat, mid: nat, hi: nat)
    requires Chain(q, lo, mid) && Chain(q, mid, hi)
    ensures Chain(q, lo, hi)
    ensures Contents(q, lo, hi) == Contents(q, lo, mid) + Contents(q, mid, hi)
    decreases mid - lo
  {
    if lo != mid {
      ChainConcat(q, lo + q[lo].DataLen(), mid, hi);
    }
  }

  // ---------- the invariant ----------

  // A chain leads from byte left to the first gap, and from the end of each gap to the next.
  ghost predicate Blocks(queued: map<nat, StreamFrame>, left: nat, gaps: seq<Interval>)
    decreases |gaps|
  {
    |gaps| == 0 ||
    (Chain(queued, left, gaps[0].start) && Blocks(queued, gaps[0].end, gaps[1..]))
  }

  ghost function EndOf(left: nat, gaps: seq<Interval>): nat {
    if gaps == [] then left else gaps[|gaps| - 1].end
  }

  lemma {:induction false} BlocksConcat(q: map<nat, StreamFrame>, left: nat, a: seq<Interval>, b: seq<Interval>)
    ensures Blocks(q, left, a + b) <==> Blocks(q, left, a) && Blocks(q, EndOf(left, a), b)
    decreases |a|
  {
    if a == [] {
      assert a + b == b;
    } else {
      assert (a + b)[1..] == a[1..] + b;
      BlocksConcat(q, a[0].end, a[1..], b);
    }
  }

  lemma {:induction false} BlocksFrame(
      q: map<nat, StreamFrame>, q': map<nat, StreamFrame>, left: nat, gaps: seq<Interval>, lo: nat, hi: nat)
    requires Blocks(q, left, gaps)
    requires forall k :: lo <= k < hi && k in q ==> k in q' && q'[k] == q[k]
    requires lo <= left && forall i :: 0 <= i < |gaps| ==> lo <= gaps[i].end && gaps[i].start <= hi
    ensures Blocks(q', left, gaps)
    decreases |gaps|
  {
    if gaps != [] {
      ChainFrame(q, q', left, gaps[0].start);
      BlocksFrame(q, q', gaps[0].end, gaps[1..], lo, hi);
    }
  }

  ghost predicate Tiled(st: State) {
    Blocks(st.queued, st.readPosition, st.gaps)
  }

  // The block that ends where gap i starts.
  lemma BlockBefore(st: State, i: nat)
    requires Tiled(st) && i < |st.gaps|
    ensures Blocks(st.queued, st.readPosition, st.gaps[..i])
    ensures Chain(st.queued, EndOf(st.readPosition, st.gaps[..i]), st.gaps[i].start)
    ensures Blocks(st.queued, st.gaps[i].end, st.gaps[i + 1..])
  {
    assert st.gaps == st.gaps[..i] + st.gaps[i..];
    BlocksConcat(st.queued, st.readPosition, st.gaps[..i], st.gaps[i..]);
    assert st.gaps[i..][1..] == st.gaps[i + 1..];
  }

  // Queued data was received; a queued frame without data carries FIN and no received
  // byte lies behind it.
  ghost predicate EntryOk(gaps: seq<Interval>, k: nat, f: StreamFrame)
    requires |gaps| > 0
  {
    && f.offset == k
    && (f.DataLen() == 0 ==> f.finBit && gaps[|gaps| - 1].start <= k)
    && (f.DataLen() > 0 ==>
          forall i :: 0 <= i < |gaps| ==> f.End() <= gaps[i].start || gaps[i].end <= k)
  }

  ghost predicate Valid(st: State) {
    && GapsOk(st.gaps)
    && |st.gaps| <= MAX_GAPS
    && Tiled(st)
    && (forall k :: k in st.queued ==> EntryOk(st.gaps, k, st.queued[k]))
  }

  const INIT_STATE: State := State(map[], [Interval(0, MAX_BYTE_COUNT)], 0)

  // ---------- what one Push does ----------

  ghost predicate AllReceived(gaps: seq<Interval>, f: StreamFrame) {
    forall x: nat :: f.offset <= x < f.End() ==> !InGap(gaps, x)
  }

  // The frame lies inside a gap and reaches neither of its ends.
  ghost predicate SplitsGap(gaps: seq<Interval>, f: StreamFrame) {
    f.DataLen() > 0 && exists i :: 0 <= i < |gaps| && gaps[i].start < f.offset && f.End() < gaps[i].end
  }

  // p is a part of f.
  ghost predicate IsPiece(p: StreamFrame, f: StreamFrame) {
    && f.offset <= p.offset < p.End() <= f.End()
    && p == f.(offset := p.offset, data := f.data[p.offset - f.offset..p.End() - f.offset])
  }

  // What a peer that never sends data past its FIN guarantees: a frame without data is not
  // placed before a received byte, and data is not placed behind a queued frame without data.
  ghost predicate FinConsistent(st: State, f: StreamFrame)
    requires |st.gaps| > 0
  {
    if f.DataLen() == 0 then
      f.finBit ==> st.gaps[|st.gaps| - 1].start <= f.offset
    else
      forall k :: k in st.queued && st.queued[k].DataLen() == 0 ==> f.End() <= k
  }

  ghost predicate PushedEntries(st: State, f: StreamFrame, st': State) {
    forall k :: k in st'.queued ==>
      || (k in st.queued && st'.queued[k] == st.queued[k])
      || (&& InGap(st.gaps, k)
          && IsPiece(st'.queued[k], f)
          && (st'.queued[k].End() == f.End() <==> InGap(st.gaps, f.End() - 1)))
  }

  // The relation between the state before and after a Push.
  ghost predicate Pushed(st: State, f: StreamFrame, r: PushResult, st': State)
    requires |st.gaps| > 0
  {
    && st'.readPosition == st.readPosition
    && (r == EmptyStreamData <==> f.DataLen() == 0 && !f.finBit)
    && (r == DuplicateStreamData <==> f.DataLen() > 0 && AllReceived(st.gaps, f))
    && (r == NoEndGapFound <==> f.DataLen() > 0 && f.End() == MAX_BYTE_COUNT)
    && (r.EmptyStreamData? || r.DuplicateStreamData? ==> st' == st)
    && (r == TooManyGaps <==> |st.gaps| == MAX_GAPS && SplitsGap(st.gaps, f))
    && (r.Accepted? ==> |st'.gaps| <= |st.gaps| + 1)
    && (r.Accepted? || r.TooManyGaps? ==>
          forall x: nat :: InGap(st'.gaps, x) <==> InGap(st.gaps, x) && !(f.offset <= x < f.End()))
    && (r.Accepted? && FinConsistent(st, f) ==> Valid(st'))
    && (r.Accepted? && f.DataLen() == 0 ==> st'.queued == st.queued[f.offset := f] && st'.gaps == st.gaps)
    && (r.Accepted? && f.DataLen() > 0 ==> PushedEntries(st, f, st'))
  }

  // ---------- Push keeps the invariant ----------

  // q' is the queue after the frame p, covering s..e, was put into the gaps g to j.
  ghost predicate Queued(st: State, g: nat, j: nat, s: nat, e: nat, p: StreamFrame, q': map<nat, StreamFrame>)
    requires FillArgs(st.gaps, g, j, s, e)
  {
    && p.offset == s && p.End() == e
    && s in q' && q'[s] == p
    && (forall k :: k in q' && k != s ==> k in st.queued && q'[k] == st.queued[k])
    && (forall k :: k in st.queued && (k < st.gaps[g].start || st.gaps[j].end <= k) ==>
          k in q' && q'[k] == st.queued[k])
  }

  lemma GapBounds(gaps: seq<Interval>, i: nat, k: nat)
    requires GapsOk(gaps) && i <= k < |gaps|
    ensures gaps[i].start <= gaps[k].start < gaps[k].end <= MAX_BYTE_COUNT && gaps[i].end <= gaps[k].end
    ensures i < k ==> gaps[i].end < gaps[k].start
    ensures k == |gaps| - 1 ==> gaps[k].end == MAX_BYTE_COUNT
  {
    assert k < |gaps| - 1 ==> gaps[k].end < gaps[|gaps| - 1].start;
  }

  lemma GapOrder(gaps: seq<Interval>, i: nat, k: nat)
    requires GapsOk(gaps) && i < |gaps| && k < |gaps|
    ensures i < k ==> gaps[i].end < gaps[k].start
    ensures k < i ==> gaps[k].end < gaps[i].start
    ensures gaps[i].start < gaps[i].end && gaps[k].start < gaps[k].end
  {
  }

  // What the new frame does not touch.
  lemma SidesKept(st: State, g: nat, j: nat, s: nat, e: nat, p: StreamFrame, q': map<nat, StreamFrame>)
    requires FillArgs(st.gaps, g, j, s, e) && Tiled(st) && Queued(st, g, j, s, e, p, q')
    ensures Blocks(q', st.readPosition, st.gaps[..g])
    ensures Chain(q', EndOf(st.readPosition, st.gaps[..g]), st.gaps[g].start)
    ensures Chain(q', s, e)
    ensures Blocks(q', st.gaps[j].end, st.gaps[j + 1..])
  {
    hide GapsOk;
    assert Chain(q', e, e) && Chain(q', s, e);
    BlockBefore(st, g);
    BlockBefore(st, j);
    forall i | 0 <= i < g
      ensures st.gaps[..g][i].start <= st.gaps[g].start
    {
      GapBounds(st.gaps, i, g);
    }
    BlocksFrame(st.queued, q', st.readPosition, st.gaps[..g], 0, st.gaps[g].start);
    ChainFrame(st.queued, q', EndOf(st.readPosition, st.gaps[..g]), st.gaps[g].start);
    var b := st.gaps[j + 1..];
    forall i | 0 <= i < |b|
      ensures st.gaps[j].end <= b[i].end && b[i].start <= MAX_BYTE_COUNT
    {
      GapBounds(st.gaps, j, j + 1 + i);
    }
    BlocksFrame(st.queued, q', st.gaps[j].end, b, st.gaps[j].end, MAX_BYTE_COUNT);
  }

  // Joining what lies left of the new frame, the frame and what lies right of it.
  lemma JoinBlocks(q: map<nat, StreamFrame>, left: nat, v: Interval, w: Interval, s: nat, e: nat, b: seq<Interval>)
    requires v.start <= s && e <= w.end
    requires Chain(q, left, v.start) && Chain(q, s, e) && Blocks(q, w.end, b)
    ensures var l := if v.start < s then [Interval(v.start, s)] else [];
            var r := if e < w.end then [Interval(e, w.end)] else [];
            Blocks(q, left, l + (r + b))
  {
    var l := if v.start < s then [Interval(v.start, s)] else [];
    var r := if e < w.end then [Interval(e, w.end)] else [];
    assert Blocks(q, left, l);
    var s0 := EndOf(left, l);
    assert Chain(q, s, s);
    ChainConcat(q, s0, s, e);
    if r == [] {
      assert r + b == b;
      if b != [] {
        ChainConcat(q, s0, e, b[0].start);
      }
    } else {
      assert (r + b)[1..] == b;
    }
    assert Blocks(q, s0, r + b);
    BlocksConcat(q, left, l, r + b);
  }

  lemma PushTiles(st: State, g: nat, j: nat, s: nat, e: nat, p: StreamFrame, q': map<nat, StreamFrame>)
    requires FillArgs(st.gaps, g, j, s, e) && Tiled(st) && Queued(st, g, j, s, e, p, q')
    ensures Tiled(State(q', Fill(st.gaps, g, j, s, e), st.readPosition))
  {
    hide GapsOk, Blocks, Chain;
    var a, b := st.gaps[..g], st.gaps[j + 1..];
    var l := if st.gaps[g].start < s then [Interval(st.gaps[g].start, s)] else [];
    var r := if e < st.gaps[j].end then [Interval(e, st.gaps[j].end)] else [];
    SidesKept(st, g, j, s, e, p, q');
    JoinBlocks(q', EndOf(st.readPosition, a), st.gaps[g], st.gaps[j], s, e, b);
    BlocksConcat(q', st.readPosition, a, l + (r + b));
    assert a + (l + (r + b)) == Fill(st.gaps, g, j, s, e);
  }

  // Queued frames stay clear of the remaining gaps.
  lemma PushEntries(st: State, g: nat, j: nat, s: nat, e: nat, p: StreamFrame, q': map<nat, StreamFrame>)
    requires Valid(st) && FillArgs(st.gaps, g, j, s, e) && Queued(st, g, j, s, e, p, q')
    requires forall k :: k in st.queued && st.queued[k].DataLen() == 0 ==> e <= k
    ensures var n := Fill(st.gaps, g, j, s, e);
            |n| > 0 && forall k :: k in q' ==> EntryOk(n, k, q'[k])
  {
    var n := Fill(st.gaps, g, j, s, e);
    FillOk(st.gaps, g, j, s, e);
    forall k | k in q'
      ensures EntryOk(n, k, q'[k])
    {
      forall i | 0 <= i < |n|
        ensures q'[k].DataLen() > 0 ==> q'[k].End() <= n[i].start || n[i].end <= k
      {
        FillPart(st.gaps, g, j, s, e, i);
      }
      if q'[k].DataLen() == 0 {
        FillPart(st.gaps, g, j, s, e, |n| - 1);
      }
    }
  }

  // Every new gap lies inside an old one and does not meet s..e.
  lemma FillPart(gaps: seq<Interval>, g: nat, j: nat, s: nat, e: nat, i: nat)
    requires FillArgs(gaps, g, j, s, e)
    requires i < |Fill(gaps, g, j, s, e)|
    ensures var v := Fill(gaps, g, j, s, e)[i];
            && (v.end <= s || e <= v.start)
            && (exists k :: 0 <= k < |gaps| && gaps[k].start <= v.start && v.end <= gaps[k].end
                  && (v.start == gaps[k].start || v.start == e))
  {
    var l := if gaps[g].start < s then 1 else 0;
    var r := if e < gaps[j].end then 1 else 0;
    if i < g {
      GapBounds(gaps, i, g);
    } else if i < g + l {
      assert gaps[g].start <= s;
    } else if i < g + l + r {
      assert gaps[j].start <= e;
    } else {
      GapBounds(gaps, j, i - g - l - r + j + 1);
    }
  }

  // Of the queue of st, at most frames between the gaps g and j are gone.
  ghost predicate DroppedBetween(st: State, g: nat, j: nat, q: map<nat, StreamFrame>)
    requires g <= j < |st.gaps|
  {
    && (forall k :: k in q ==> k in st.queued && q[k] == st.queued[k])
    && (forall k :: k in st.queued && (k < st.gaps[g].start || st.gaps[j].end <= k) ==> k in q)
  }

  lemma DropNone(st: State, g: nat)
    requires g < |st.gaps|
    ensures DroppedBetween(st, g, g, st.queued)
  {
  }

  lemma DropOne(st: State, g: nat, j: nat, q: map<nat, StreamFrame>)
    requires g <= j < |st.gaps| - 1 && st.gaps[g].start <= st.gaps[j].end < st.gaps[j + 1].end
    requires DroppedBetween(st, g, j, q)
    ensures DroppedBetween(st, g, j + 1, q - {st.gaps[j].end})
  {
  }

  // ---------- the results of Push ----------

  // The frame starts at or behind a received byte, so nothing of it is missing.
  lemma DuplicateMeansReceived(gaps: seq<Interval>, start: nat, end: nat, g: nat)
    requires GapsOk(gaps) && g < |gaps| && end <= gaps[g].start
    requires forall i :: 0 <= i < g ==> gaps[i].end < start
    ensures forall x: nat :: start <= x < end ==> !InGap(gaps, x)
  {
    forall x: nat | start <= x < end
      ensures !InGap(gaps, x)
    {
      if i :| 0 <= i < |gaps| && gaps[i].start <= x < gaps[i].end {
        assert g <= i;
        GapBounds(gaps, g, i);
      }
    }
  }

  lemma QueuedMeansReceived(st: State, k: nat, x: nat)
    requires Valid(st) && k in st.queued && k <= x < st.queued[k].End()
    ensures !InGap(st.gaps, x)
  {
    assert EntryOk(st.gaps, k, st.queued[k]);
  }

  // The part of the frame that Push goes on with, after a queued frame at the same offset
  // was taken off its front.
  ghost predicate CutFront(st: State, f: StreamFrame, frame: StreamFrame) {
    && f.offset <= frame.offset < frame.End() == f.End()
    && frame == f.(offset := frame.offset, data := f.data[frame.offset - f.offset..])
    && (forall x: nat :: f.offset <= x < frame.offset ==> !InGap(st.gaps, x))
    && (f.offset in st.queued ==> frame.offset == st.queued[f.offset].End())
    && (f.offset !in st.queued ==> frame == f)
  }

  // The first byte of a block between two gaps is the start of a queued frame.
  lemma BlockStart(st: State, g: nat)
    requires Valid(st) && g + 1 < |st.gaps|
    ensures st.gaps[g].end in st.queued
  {
    BlockBefore(st, g);
    GapBounds(st.gaps, g, g + 1);
    assert st.gaps[g + 1..][0] == st.gaps[g + 1];
  }

  lemma CutFrontFacts(st: State, f: StreamFrame, frame: StreamFrame)
    requires Valid(st) && CutFront(st, f, frame)
    ensures GapsOk(st.gaps)
    ensures f.DataLen() > 0 && f.offset <= frame.offset < frame.End() == f.End()
  {
  }

  // A frame that touched gap g from behind would have to start where a queued frame starts.
  lemma StartsInsideGap(st: State, f: StreamFrame, frame: StreamFrame, g: nat)
    requires Valid(st) && CutFront(st, f, frame)
    requires g < |st.gaps| && frame.offset <= st.gaps[g].end
    requires frame.End() <= MAX_BYTE_COUNT
    ensures frame.offset < st.gaps[g].end
  {
    hide GapsOk, Tiled, InGap;
    GapBounds(st.gaps, g, g);
    if g + 1 < |st.gaps| {
      BlockStart(st, g);
      GapOrder(st.gaps, g, |st.gaps| - 1);
    }
    assert f.offset in st.queued ==> EntryOk(st.gaps, f.offset, st.queued[f.offset]);
  }

  // The situation at the end of Push: bytes s..e of the frame go into gaps g to j.
  ghost predicate Placed(st: State, f: StreamFrame, frame: StreamFrame, g: nat, j: nat, s: nat, e: nat)
  {
    && Valid(st) && CutFront(st, f, frame)
    && frame.End() < MAX_BYTE_COUNT
    && FillArgs(st.gaps, g, j, s, e)
    && (forall i :: 0 <= i < g ==> st.gaps[i].end < frame.offset)
    && s == (if frame.offset < st.gaps[g].start then st.gaps[g].start else frame.offset)
    && (e == frame.End() || (e == st.gaps[j].end < frame.End()
          && (j + 1 < |st.gaps| ==> frame.End() <= st.gaps[j + 1].start)))
  }

  // Bytes of the frame outside s..e had been received before.
  lemma CutBytes(st: State, f: StreamFrame, frame: StreamFrame, g: nat, j: nat, s: nat, e: nat, x: nat)
    requires Placed(st, f, frame, g, j, s, e)
    requires f.offset <= x < f.End() && !(s <= x < e)
    ensures !InGap(st.gaps, x)
  {
    if x >= frame.offset {
      forall i: nat | i < |st.gaps|
        ensures !(st.gaps[i].start <= x < st.gaps[i].end)
      {
        GapOrder(st.gaps, g, i);
        GapOrder(st.gaps, j, i);
        if j + 1 < |st.gaps| { GapOrder(st.gaps, j + 1, i); }
      }
    }
  }

  lemma InFilledGap(gaps: seq<Interval>, g: nat, j: nat, s: nat, e: nat)
    requires FillArgs(gaps, g, j, s, e)
    ensures InGap(gaps, s) && InGap(gaps, e - 1)
  {
    assert gaps[g].start <= s < gaps[g].end;
    assert gaps[j].start <= e - 1 < gaps[j].end;
  }

  lemma PlacedGaps(st: State, f: StreamFrame, frame: StreamFrame, g: nat, j: nat, s: nat, e: nat, x: nat)
    requires Placed(st, f, frame, g, j, s, e)
    ensures InGap(Fill(st.gaps, g, j, s, e), x) <==> InGap(st.gaps, x) && !(f.offset <= x < f.End())
  {
    FillMembers(st.gaps, g, j, s, e, x);
    if f.offset <= x < f.End() && !(s <= x < e) {
      CutBytes(st, f, frame, g, j, s, e, x);
    }
  }

  ghost predicate PlacedPiece(f: StreamFrame, s: nat, e: nat, p: StreamFrame) {
    && f.offset <= s < e <= f.End()
    && p == f.(offset := s, data := f.data[s - f.offset..e - f.offset])
  }

  lemma PlacedEntries(st: State, f: StreamFrame, frame: StreamFrame, g: nat, j: nat, s: nat, e: nat,
                      p: StreamFrame, q': map<nat, StreamFrame>)
    requires Placed(st, f, frame, g, j, s, e)
    requires PlacedPiece(f, s, e, p) && Queued(st, g, j, s, e, p, q')
    ensures PushedEntries(st, f, State(q', Fill(st.gaps, g, j, s, e), st.readPosition))
  {
    hide GapsOk, Tiled, EntryOk, Fill, FinConsistent, CutFront;
    InFilledGap(st.gaps, g, j, s, e);
    assert e == f.End() <==> InGap(st.gaps, f.End() - 1) by {
      if e < f.End() { CutBytes(st, f, frame, g, j, s, e, f.End() - 1); }
    }
    assert IsPiece(p, f);
  }

  lemma PlacedValid(st: State, f: StreamFrame, frame: StreamFrame, g: nat, j: nat, s: nat, e: nat,
                    p: StreamFrame, q': map<nat, StreamFrame>)
    requires Placed(st, f, frame, g, j, s, e)
    requires PlacedPiece(f, s, e, p) && Queued(st, g, j, s, e, p, q')
    requires |Fill(st.gaps, g, j, s, e)| <= MAX_GAPS && FinConsistent(st, f)
    ensures Valid(State(q', Fill(st.gaps, g, j, s, e), st.readPosition))
  {
    hide GapsOk, Tiled, EntryOk, Fill;
    PushTiles(st, g, j, s, e, p, q');
    FillOk(st.gaps, g, j, s, e);
    PushEntries(st, g, j, s, e, p, q');
  }

  lemma PlacedMissing(st: State, f: StreamFrame, frame: StreamFrame, g: nat, j: nat, s: nat, e: nat)
    requires Placed(st, f, frame, g, j, s, e)
    ensures !AllReceived(st.gaps, f)
    ensures FillArgs(st.gaps, g, j, s, e) && 0 < |st.gaps| <= MAX_GAPS
    ensures |Fill(st.gaps, g, j, s, e)| <= |st.gaps| + 1
    ensures 0 < f.DataLen() && f.End() < MAX_BYTE_COUNT
  {
    InFilledGap(st.gaps, g, j, s, e);
  }

  // There is one more gap exactly if the frame splits one.
  lemma PlacedSplits(st: State, f: StreamFrame, frame: StreamFrame, g: nat, j: nat, s: nat, e: nat)
    requires Placed(st, f, frame, g, j, s, e)
    ensures |Fill(st.gaps, g, j, s, e)| > |st.gaps| <==> SplitsGap(st.gaps, f)
  {
    hide Tiled, InGap;
    assert f.offset in st.queued ==> EntryOk(st.gaps, f.offset, st.queued[f.offset]);
    if |Fill(st.gaps, g, j, s, e)| > |st.gaps| {
      assert g == j && st.gaps[g].start < s == frame.offset && e == frame.End() < st.gaps[g].end;
    }
    if SplitsGap(st.gaps, f) {
      var i :| 0 <= i < |st.gaps| && st.gaps[i].start < f.offset && f.End() < st.gaps[i].end;
      GapOrder(st.gaps, g, i);
      GapOrder(st.gaps, g, j);
    }
  }

  lemma SplitsMissing(st: State, f: StreamFrame)
    requires SplitsGap(st.gaps, f) && GapsOk(st.gaps)
    ensures !AllReceived(st.gaps, f) && f.End() < MAX_BYTE_COUNT
  {
    var i :| 0 <= i < |st.gaps| && st.gaps[i].start < f.offset && f.End() < st.gaps[i].end;
    GapBounds(st.gaps, i, i);
    assert InGap(st.gaps, f.offset);
  }

  lemma PlacedPushed(st: State, f: StreamFrame, frame: StreamFrame, g: nat, j: nat, s: nat, e: nat,
                     p: StreamFrame, q': map<nat, StreamFrame>, r: PushResult)
    requires Placed(st, f, frame, g, j, s, e)
    requires PlacedPiece(f, s, e, p) && Queued(st, g, j, s, e, p, q')
    requires r == if |Fill(st.gaps, g, j, s, e)| > MAX_GAPS then TooManyGaps else Accepted
    ensures Pushed(st, f, r, State(q', Fill(st.gaps, g, j, s, e), st.readPosition))
  {
    hide Fill, Queued, GapsOk, Valid, PushedEntries, FillArgs, Placed, PlacedPiece, SplitsGap;
    PlacedMissing(st, f, frame, g, j, s, e);
    var st' := State(q', Fill(st.gaps, g, j, s, e), st.readPosition);
    forall x: nat
      ensures InGap(st'.gaps, x) <==> InGap(st.gaps, x) && !(f.offset <= x < f.End())
    {
      PlacedGaps(st, f, frame, g, j, s, e, x);
    }
    PlacedEntries(st, f, frame, g, j, s, e, p, q');
    PlacedSplits(st, f, frame, g, j, s, e);
    if |st'.gaps| <= MAX_GAPS && FinConsistent(st, f) {
      PlacedValid(st, f, frame, g, j, s, e, p, q');
    }
  }

  lemma FinQueued(st: State, f: StreamFrame)
    requires Valid(st) && f.DataLen() == 0 && f.finBit
    ensures Valid(st.(queued := st.queued[f.offset := f])) <==> FinConsistent(st, f)
    ensures Pushed(st, f, Accepted, st.(queued := st.queued[f.offset := f]))
  {
    var q' := st.queued[f.offset := f];
    var last := st.gaps[|st.gaps| - 1].start;
    forall i | 0 <= i < |st.gaps|
      ensures st.gaps[i].start <= last
    {
      GapBounds(st.gaps, i, |st.gaps| - 1);
    }
    if FinConsistent(st, f) {
      BlocksFrame(st.queued, q', st.readPosition, st.gaps, 0, last);
    }
    assert q'[f.offset] == f;
  }

  lemma MissingLastByte(st: State, f: StreamFrame)
    requires Valid(st) && f.DataLen() > 0 && f.End() == MAX_BYTE_COUNT
    ensures !AllReceived(st.gaps, f)
  {
    var last := st.gaps[|st.gaps| - 1];
    assert last.start <= f.End() - 1 < last.end;
    assert InGap(st.gaps, f.End() - 1);
  }

  // What Push has made of the frame when it queues it.
  lemma CutPiece(st: State, f: StreamFrame, tail: StreamFrame, frame: StreamFrame, s: nat, e: nat)
    requires CutFront(st, f, tail)
    requires tail.offset <= s < e <= tail.End()
    requires frame == tail.(offset := s, data := tail.data[s - tail.offset..][..e - s])
    ensures PlacedPiece(f, s, e, frame)
  {
    assert tail.data[s - tail.offset..][..e - s] == f.data[s - f.offset..e - f.offset];
  }

  lemma DroppedQueued(st: State, f: StreamFrame, g: nat, j: nat, s: nat, e: nat,
                      p: StreamFrame, queue: map<nat, StreamFrame>)
    requires FillArgs(st.gaps, g, j, s, e)
    requires PlacedPiece(f, s, e, p) && DroppedBetween(st, g, j, queue)
    ensures Queued(st, g, j, s, e, p, queue[s := p])
  {
    GapOrder(st.gaps, g, j);
  }

  // What is left of the frame when a gap that starts at byte s is the first that it reaches.
  function FrontCut(frame: StreamFrame, s: nat): StreamFrame
    requires s < frame.End()
  {
    if frame.offset < s then frame.(offset := s, data := frame.data[s - frame.offset..]) else frame
  }

  // The frame reaches from gap g, or touches its end, to gap j.
  ghost predicate Found(st: State, f: StreamFrame, frame: StreamFrame, g: nat, j: nat) {
    && Valid(st) && CutFront(st, f, frame)
    && frame.End() < MAX_BYTE_COUNT
    && g <= j < |st.gaps|
    && st.gaps[g].start < frame.End() && frame.offset <= st.gaps[g].end
    && st.gaps[j].start < frame.End()
    && (forall i :: 0 <= i < g ==> st.gaps[i].end < frame.offset)
    && (st.gaps[j].end <= frame.End() ==> j + 1 < |st.gaps| && frame.End() <= st.gaps[j + 1].start)
  }

  lemma FoundFacts(st: State, f: StreamFrame, frame: StreamFrame, g: nat, j: nat)
    requires Found(st, f, frame, g, j)
    ensures GapsOk(st.gaps) && |st.gaps| > 0
    ensures g <= j < |st.gaps| && st.gaps[g].start < frame.End()
    ensures st.gaps[j].start < st.gaps[j].end && st.gaps[j].start < frame.End() < MAX_BYTE_COUNT
    ensures FrontCut(frame, st.gaps[g].start).offset <= st.gaps[j].end
    ensures FrontCut(frame, st.gaps[g].start).End() == frame.End()
    ensures FrontCut(frame, st.gaps[g].start).offset < frame.End()
  {
    GapOrder(st.gaps, g, j);
  }

  lemma FoundPlaced(st: State, f: StreamFrame, frame: StreamFrame, g: nat, j: nat, s: nat, e: nat)
    requires Found(st, f, frame, g, j)
    requires s == FrontCut(frame, st.gaps[g].start).offset
    requires e == if st.gaps[j].end < frame.End() then st.gaps[j].end else frame.End()
    ensures frame.offset <= s < e <= frame.End()
    ensures Placed(st, f, frame, g, j, s, e)
  {
    hide Valid, FinConsistent, InGap, GapsOk, CutFront;
    FoundFacts(st, f, frame, g, j);
    StartsInsideGap(st, f, frame, g);
    GapOrder(st.gaps, g, j);
  }

  lemma FoundResult(st: State, f: StreamFrame, frame: StreamFrame, g: nat, j: nat,
                    p: StreamFrame, queue: map<nat, StreamFrame>, st': State, r: PushResult)
    requires Found(st, f, frame, g, j)
    requires var front := FrontCut(frame, st.gaps[g].start);
             var e := if st.gaps[j].end < frame.End() then st.gaps[j].end else frame.End();
             && front.offset <= e
             && p == front.(data := front.data[..e - front.offset])
             && st'.gaps == Fill(st.gaps, g, j, front.offset, e)
    requires DroppedBetween(st, g, j, queue)
    requires st'.readPosition == st.readPosition
    requires r == if |st'.gaps| > MAX_GAPS then TooManyGaps else Accepted
    requires st'.queued == if r.Accepted? then queue[p.offset := p] else queue
    ensures Pushed(st, f, r, st')
  {
    hide GapsOk, Valid, Tiled, FinConsistent, InGap, Pushed, Placed, CutFront, DroppedBetween, Fill;
    var front := FrontCut(frame, st.gaps[g].start);
    var e := if st.gaps[j].end < frame.End() then st.gaps[j].end else frame.End();
    FoundPlaced(st, f, frame, g, j, front.offset, e);
    CutPiece(st, f, frame, p, front.offset, e);
    PlacedResult(st, f, frame, g, j, front.offset, e, p, queue, st', r);
  }

  lemma NoEndGapPushed(st: State, f: StreamFrame, st': State)
    requires Valid(st) && f.DataLen() > 0 && f.End() == MAX_BYTE_COUNT
    requires st'.readPosition == st.readPosition
    ensures Pushed(st, f, NoEndGapFound, st')
  {
    MissingLastByte(st, f);
    if SplitsGap(st.gaps, f) {
      SplitsMissing(st, f);
    }
  }

  lemma PlacedResult(st: State, f: StreamFrame, frame: StreamFrame, g: nat, j: nat, s: nat, e: nat,
                     p: StreamFrame, queue: map<nat, StreamFrame>, st': State, r: PushResult)
    requires Placed(st, f, frame, g, j, s, e)
    requires PlacedPiece(f, s, e, p) && DroppedBetween(st, g, j, queue)
    requires st'.gaps == Fill(st.gaps, g, j, s, e) && st'.readPosition == st.readPosition
    requires r == if |st'.gaps| > MAX_GAPS then TooManyGaps else Accepted
    requires st'.queued == if r.Accepted? then queue[s := p] else queue
    ensures Pushed(st, f, r, st')
  {
    hide GapsOk, Valid, InGap, AllReceived, PushedEntries, Placed, PlacedPiece, Queued, DroppedBetween, FillArgs, Fill,
         SplitsGap;
    PlacedMissing(st, f, frame, g, j, s, e);
    DroppedQueued(st, f, g, j, s, e, p, queue);
    PlacedPushed(st, f, frame, g, j, s, e, p, queue[s := p], r);
  }

  // The gap list with the entries between g and k removed.
  ghost function Without(gs: seq<Interval>, g: nat, k: nat): seq<Interval>
    requires g < k <= |gs|
  {
    gs[..g + 1] + gs[k..]
  }

  lemma WithoutNone(gs: seq<Interval>, g: nat)
    requires g < |gs|
    ensures Without(gs, g, g + 1) == gs
  {
  }

  lemma WithoutAt(gs: seq<Interval>, g: nat, k: nat)
    requires g < k <= |gs|
    ensures var w := Without(gs, g, k);
            && |w| == g + 1 + |gs| - k
            && (k < |gs| ==> w[g + 1] == gs[k] && Replace(w, g + 1, []) == Without(gs, g, k + 1))
            && (k + 1 < |gs| ==> w[g + 2] == gs[k + 1])
  {
  }

  lemma WithoutRemaining(gs: seq<Interval>, g: nat, j: nat, end: nat)
    requires g <= j < |gs|
    ensures Remaining(gs, g, j, end) == Without(gs, g, if g < j && end < gs[j].end then j else j + 1)
  {
    assert gs[..g + 1] == gs[..g] + [gs[g]];
    assert gs[j..] == [gs[j]] + gs[j + 1..];
  }

  lemma ReplaceAt(a: seq<Interval>, x: Interval, b: seq<Interval>, vs: seq<Interval>)
    ensures (a + [x] + b)[|a|] == x
    ensures Replace(a + [x] + b, |a|, vs) == a + vs + b
  {
    var s := a + [x] + b;
    assert s[..|a|] == a && s[|a| + 1..] == b;
  }

  // ---------- the cases of Push ----------

  lemma ValidGaps(st: State)
    requires Valid(st)
    ensures GapsOk(st.gaps) && |st.gaps| > 0
  {
  }

  lemma UnchangedPushed(st: State, f: StreamFrame, r: PushResult)
    requires Valid(st)
    requires if f.DataLen() == 0 then r == EmptyStreamData && !f.finBit
             else r == DuplicateStreamData && AllReceived(st.gaps, f) && f.End() <= MAX_BYTE_COUNT
    ensures Pushed(st, f, r, st)
  {
    if f.DataLen() > 0 && f.End() == MAX_BYTE_COUNT {
      MissingLastByte(st, f);
    }
    if SplitsGap(st.gaps, f) {
      SplitsMissing(st, f);
    }
  }

  lemma QueuedFrontReceived(st: State, f: StreamFrame)
    requires Valid(st) && f.offset in st.queued
    ensures st.queued[f.offset].offset == f.offset
    ensures f.DataLen() <= st.queued[f.offset].DataLen() ==> AllReceived(st.gaps, f)
  {
    assert EntryOk(st.gaps, f.offset, st.queued[f.offset]);
    forall x: nat | f.offset <= x < st.queued[f.offset].End()
      ensures !InGap(st.gaps, x)
    {
      QueuedMeansReceived(st, f.offset, x);
    }
  }

  lemma CutFrontIntro(st: State, f: StreamFrame, frame: StreamFrame)
    requires Valid(st) && f.DataLen() > 0
    requires var n := if f.offset in st.queued then st.queued[f.offset].DataLen() else 0;
             n < f.DataLen() && frame == f.(data := f.data[n..], offset := f.offset + n)
    ensures CutFront(st, f, frame)
  {
    if f.offset in st.queued {
      assert EntryOk(st.gaps, f.offset, st.queued[f.offset]);
      forall x: nat | f.offset <= x < frame.offset
        ensures !InGap(st.gaps, x)
      {
        QueuedMeansReceived(st, f.offset, x);
      }
    } else {
      assert f.data[0..] == f.data;
    }
  }

  lemma CutFrontReceived(st: State, f: StreamFrame, frame: StreamFrame)
    requires CutFront(st, f, frame)
    requires forall x: nat :: frame.offset <= x < frame.End() ==> !InGap(st.gaps, x)
    ensures AllReceived(st.gaps, f) && f.DataLen() > 0
  {
  }

  // ---------- reading ----------

  ghost function HeadOf(st: State): Option<StreamFrame> {
    if st.readPosition in st.queued then Some(st.queued[st.readPosition]) else None
  }

  ghost function Popped(st: State): State {
    match HeadOf(st)
    case None => st
    case Some(f) => st.(readPosition := st.readPosition + f.DataLen(), queued := st.queued - {st.readPosition})
  }

  // The bytes that can be read without waiting for more frames.
  ghost function Readable(st: State): (bytes: seq<byte>)
    requires Valid(st)
    ensures |bytes| == st.gaps[0].start - st.readPosition
  {
    Contents(st.queued, st.readPosition, st.gaps[0].start)
  }

  // There is a head frame with data exactly when the read position lies before the first gap.
  lemma HeadAvailable(st: State)
    requires Valid(st)
    ensures st.readPosition < st.gaps[0].start <==> HeadOf(st).Some? && HeadOf(st).value.DataLen() > 0
    ensures HeadOf(st).Some? ==>
              var f := HeadOf(st).value;
              && f.offset == st.readPosition
              && (f.DataLen() == 0 ==> f.finBit)
              && f.data <= Readable(st)
  {
    if st.readPosition in st.queued {
      assert EntryOk(st.gaps, st.readPosition, st.queued[st.readPosition]);
    }
  }

  lemma PopValid(st: State)
    requires Valid(st)
    ensures Valid(Popped(st))
    ensures HeadOf(st).Some? ==> Readable(st) == HeadOf(st).value.data + Readable(Popped(st))
  {
    HeadAvailable(st);
    if HeadOf(st).Some? {
      var f := HeadOf(st).value;
      var st' := Popped(st);
      ChainFrame(st.queued, st'.queued, st'.readPosition, st.gaps[0].start);
      forall i | 0 <= i < |st.gaps[1..]|
        ensures st.gaps[0].end <= st.gaps[1..][i].end && st.gaps[1..][i].start <= MAX_BYTE_COUNT
      {
        GapBounds(st.gaps, 0, i + 1);
      }
      BlocksFrame(st.queued, st'.queued, st.gaps[0].end, st.gaps[1..], st.gaps[0].end, MAX_BYTE_COUNT);
    }
  }

  lemma RemainingCut(gs: seq<Interval>, g: nat, j: nat, end: nat)
    requires g <= j < |gs|
    ensures Remaining(gs, g, j, end) == Remaining(gs, g, j, if gs[j].end < end then gs[j].end else end)
  {
  }

  lemma RemainingShapes(gs: seq<Interval>, g: nat, j: nat, end: nat)
    requires g <= j < |gs|
    ensures var a, b := gs[..g], gs[j + 1..];
            Remaining(gs, g, j, end) ==
            a + [gs[g]] + if g < j && end < gs[j].end then [gs[j]] + b else b
  {
  }

  class Sorter {
    var queuedFrames: map<nat, StreamFrame>
    var readPosition: nat
    var gaps: seq<Interval>

    constructor ()
      ensures View() == INIT_STATE && Valid(View())
    {
      queuedFrames := map[];
      readPosition := 0;
      gaps := [Interval(0, MAX_BYTE_COUNT)];
    }

    ghost function View(): State
      reads this
    {
      State(queuedFrames, gaps, readPosition)
    }

    // Skips the gaps that end before the frame start..end; says whether nothing of the frame is missing.
    method FindGap(start: nat, end: nat) returns (g: nat, duplicate: bool)
      requires GapsOk(gaps) && start < end <= MAX_BYTE_COUNT
      ensures g < |gaps|
      ensures forall i :: 0 <= i < g ==> gaps[i].end < start
      ensures if duplicate then end <= gaps[g].start else gaps[g].start < end && start <= gaps[g].end
    {
      g := 0;
      while g < |gaps|
        invariant g <= |gaps|
        invariant forall i :: 0 <= i < g ==> gaps[i].end < start
      {
        if end <= gaps[g].start {
          return g, true;
        }
        if end > gaps[g].start && start <= gaps[g].end {
          return g, false;
        }
        g := g + 1;
      }
      // the last gap ends behind every frame
      assert false;
    }

    // Finds the last gap that begins before the end of the frame, starting from gap g. Drops
    // the gaps in between from the list, and a queued frame for each block passed over.
    method FindEndGap(g: nat, end: nat) returns (endGap: Interval, e: nat, found: bool, ghost j: nat)
      requires GapsOk(gaps) && g < |gaps| && gaps[g].start < end <= MAX_BYTE_COUNT
      modifies this
      ensures readPosition == old(readPosition)
      ensures found <==> end < MAX_BYTE_COUNT
      ensures g <= j < |old(gaps)| && endGap == old(gaps)[j] && endGap.start < end
      ensures DroppedBetween(old(View()), g, j, queuedFrames)
      ensures found && end < endGap.end ==> e == if j == g then g else g + 1
      ensures found && endGap.end <= end ==> j + 1 < |old(gaps)| && end <= old(gaps)[j + 1].start
      ensures found ==> gaps == Remaining(old(gaps), g, j, end)
    {
      hide GapsOk, DroppedBetween, Without, Remaining, Replace;
      DropNone(View(), g);
      WithoutNone(gaps, g);
      e, endGap, j := g, gaps[g], g;
      ghost var gs, k := gaps, g + 1;
      while end >= endGap.end
        invariant g <= j < |gs| && endGap == gs[j] && endGap.start < end
        invariant k == if j == g then g + 1 else j
        invariant e == if j == g then g else g + 1
        invariant gaps == Without(gs, g, k)
        invariant readPosition == old(readPosition)
        invariant DroppedBetween(old(View()), g, j, queuedFrames)
        decreases |gs| - j
      {
        GapBounds(gs, j, |gs| - 1);
        WithoutAt(gs, g, k);
        if e + 1 == |gaps| {
          found := false;
          return;
        }
        var nextEndGap := gaps[e + 1];
        GapBounds(gs, j + 1, |gs| - 1);
        GapOrder(gs, j, j + 1);
        GapOrder(gs, g, j);
        if e != g {
          gaps := Replace(gaps, e, []);
          k := k + 1;
        }
        if end <= nextEndGap.start {
          found := true;
          WithoutRemaining(gs, g, j, end);
          return;
        }
        // a queued frame that this frame covers completely
        DropOne(old(View()), g, j, queuedFrames);
        queuedFrames := queuedFrames - {endGap.end};
        endGap, e, j := nextEndGap, g + 1, j + 1;
      }
      GapBounds(gs, j, |gs| - 1);
      WithoutRemaining(gs, g, j, end);
      found := true;
    }

    // Takes start..end out of the gaps: gap is entry g of the list, endGap entry e if it is still there.
    method ShrinkGaps(g: nat, e: nat, endGap: Interval, start: nat, end: nat, ghost gs: seq<Interval>, ghost j: nat)
      requires GapsOk(gs) && g <= j < |gs| && endGap == gs[j] && endGap.start < end <= endGap.end
      requires end < endGap.end ==> e == (if j == g then g else g + 1)
      requires gaps == Remaining(gs, g, j, end)
      modifies this`gaps
      ensures gs[g].start <= start ==> gaps == Fill(gs, g, j, start, end)
    {
      hide GapsOk, FillArgs, Fill, Remaining, Replace;
      GapOrder(gs, g, j);
      FillShapes(gs, g, j, start, end);
      RemainingShapes(gs, g, j, end);
      ghost var a, b := gs[..g], gs[j + 1..];
      ghost var rest := if g < j && end < endGap.end then [endGap] + b else b;
      var gap := gaps[g];
      ReplaceAt(a, gap, rest, []);
      if start == gap.start {
        var i := e;
        if end >= gap.end {
          // the frame fills this gap
          gaps := Replace(gaps, g, []);
          i := g;
          assert gaps == a + rest;
        }
        if end < endGap.end {
          // the frame covers the beginning of the last gap
          assert gaps == a + [endGap] + b;
          ReplaceAt(a, endGap, b, [Interval(end, endGap.end)]);
          gaps := Replace(gaps, i, [Interval(end, endGap.end)]);
        }
      } else if end == endGap.end {
        // the frame covers the end of the gap
        ReplaceAt(a, gap, rest, [Interval(gap.start, start)]);
        gaps := Replace(gaps, g, [Interval(gap.start, start)]);
      } else if e == g {
        // the frame splits the gap
        ReplaceAt(a, gap, rest, [Interval(gap.start, start), Interval(end, gap.end)]);
        gaps := Replace(gaps, g, [Interval(gap.start, start), Interval(end, gap.end)]);
        assert gaps == a + [Interval(gap.start, start)] + [Interval(end, endGap.end)] + b;
      } else {
        ReplaceAt(a, gap, rest, [Interval(gap.start, start)]);
        gaps := Replace(gaps, g, [Interval(gap.start, start)]);
        assert gaps == (a + [Interval(gap.start, start)]) + [endGap] + b;
        ReplaceAt(a + [Interval(gap.start, start)], endGap, b, [Interval(end, endGap.end)]);
        gaps := Replace(gaps, e, [Interval(end, endGap.end)]);
      }
    }

    // Queues the bytes of the frame that lie between the gaps g and j; endGap is gap j.
    method Settle(front: StreamFrame, g: nat, e: nat, endGap: Interval,
                  ghost st: State, ghost f: StreamFrame, ghost tail: StreamFrame, ghost j: nat)
      returns (r: PushResult)
      requires Found(st, f, tail, g, j) && endGap == st.gaps[j]
      requires front == FrontCut(tail, st.gaps[g].start)
      requires front.End() < endGap.end ==> e == if j == g then g else g + 1
      requires gaps == Remaining(st.gaps, g, j, front.End())
      requires readPosition == st.readPosition && DroppedBetween(st, g, j, queuedFrames)
      modifies this
      ensures Pushed(st, f, r, View())
    {
      hide GapsOk, Valid, FinConsistent, CutFront, Remaining, DroppedBetween, Fill, Pushed, Found;
      FoundFacts(st, f, tail, g, j);
      var frame := front;
      var start, end := frame.offset, frame.End();
      if end > endGap.end {
        var cutLen := end - endGap.end;
        var len := frame.DataLen() - cutLen;
        end := end - cutLen;
        frame := frame.(data := frame.data[..len]);
      }
      assert frame == front.(data := front.data[..end - start]);
      RemainingCut(st.gaps, g, j, front.End());
      ShrinkGaps(g, e, endGap, start, end, st.gaps, j);
      r := if |gaps| > MAX_GAPS then TooManyGaps else Accepted;
      ghost var queue := queuedFrames;
      if r.Accepted? {
        queuedFrames := queuedFrames[frame.offset := frame];
      }
      FoundResult(st, f, tail, g, j, frame, queue, View(), r);
    }

    // Queues what is missing of the frame. Gap g is the first that the frame reaches.
    method Place(tail: StreamFrame, g: nat, ghost f: StreamFrame) returns (r: PushResult)
      requires Valid(View())
      requires CutFront(View(), f, tail) && tail.End() <= MAX_BYTE_COUNT
      requires g < |gaps| && gaps[g].start < tail.End() && tail.offset <= gaps[g].end
      requires forall i :: 0 <= i < g ==> gaps[i].end < tail.offset
      modifies this
      ensures Pushed(old(View()), f, r, View())
    {
      hide GapsOk, Valid, CutFront, FinConsistent, DroppedBetween, Remaining, Pushed;
      ghost var st := View();
      CutFrontFacts(st, f, tail);
      var frame := tail;
      var start, end := frame.offset, frame.End();
      if start < gaps[g].start {
        var add := gaps[g].start - start;
        frame := frame.(offset := frame.offset + add, data := frame.data[add..]);
        start := start + add;
      }
      assert frame == FrontCut(tail, st.gaps[g].start);
      var endGap, e, found, j := FindEndGap(g, end);
      if !found {
        NoEndGapPushed(st, f, View());
        return NoEndGapFound;
      }
      r := Settle(frame, g, e, endGap, st, f, tail, j);
    }

    // Push for a frame with data.
    method PushData(f: StreamFrame) returns (r: PushResult)
      requires Valid(View()) && f.DataLen() > 0
      requires f.End() <= MAX_BYTE_COUNT
      modifies this
      ensures Pushed(old(View()), f, r, View())
    {
      hide FinConsistent, Valid, Pushed, CutFront, AllReceived, InGap, GapsOk;
      ghost var st := View();
      ValidGaps(st);
      var queuedLen := 0;
      if f.offset in queuedFrames {
        queuedLen := queuedFrames[f.offset].DataLen();
        if f.DataLen() <= queuedLen {
          QueuedFrontReceived(st, f);
          UnchangedPushed(st, f, DuplicateStreamData);
          return DuplicateStreamData;
        }
      }
      var frame := f.(data := f.data[queuedLen..], offset := f.offset + queuedLen);
      CutFrontIntro(st, f, frame);

      var g, duplicate := FindGap(frame.offset, frame.End());
      if duplicate {
        DuplicateMeansReceived(gaps, frame.offset, frame.End(), g);
        CutFrontReceived(st, f, frame);
        UnchangedPushed(st, f, DuplicateStreamData);
        return DuplicateStreamData;
      }
      r := Place(frame, g, f);
    }

    method Push(f: StreamFrame) returns (r: PushResult)
      requires Valid(View())
      requires f.End() <= MAX_BYTE_COUNT
      modifies this
      ensures Pushed(old(View()), f, r, View())
    {
      hide FinConsistent, Valid, Pushed;
      ghost var st := View();
      ValidGaps(st);
      if f.DataLen() == 0 {
        if f.finBit {
          FinQueued(st, f);
          queuedFrames := queuedFrames[f.offset := f];
          return Accepted;
        }
        UnchangedPushed(st, f, EmptyStreamData);
        return EmptyStreamData;
      }
      r := PushData(f);
    }

    // The frame at the read position.
    method Head() returns (frame: Option<StreamFrame>)
      ensures frame == HeadOf(View())
    {
      frame := if readPosition in queuedFrames then Some(queuedFrames[readPosition]) else None;
    }

    method Pop() returns (frame: Option<StreamFrame>)
      requires Valid(View())
      modifies this
      ensures frame == HeadOf(old(View()))
      ensures View() == Popped(old(View())) && Valid(View())
    {
      PopValid(View());
      frame := Head();
      if frame.Some? {
        assert EntryOk(gaps, readPosition, frame.value);
        readPosition := readPosition + frame.value.DataLen();
        queuedFrames := queuedFrames - {frame.value.offset};
      }
    }
  }
}
