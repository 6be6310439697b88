/**
 The reading side of a stream: frames go into the sorter, Read copies bytes out of it.
 Waiting for more data is an outcome of its own here.
 */
module ReceiveStream {
  import opened MinMax
  import opened Wire
  import opened Wrappers
  import Sort = StreamFrameSorter

  datatype ReadOutcome = Done | Eof | WouldBlock

  // The read offset stands inside the frame at the head of the queue, or where it begins.
  ghost predicate PositionOk(st: Sort.State, readOffset: nat) {
    && st.readPosition <= readOffset
    && (st.readPosition < readOffset ==>
          Sort.HeadOf(st).Some? && readOffset < Sort.HeadOf(st).value.End())
  }

  ghost predicate Ok(st: Sort.State, readOffset: nat) {
    Sort.Valid(st) && PositionOk(st, readOffset)
  }

  // What Read can still return without waiting.
  ghost function Unread(st: Sort.State, readOffset: nat): (bytes: seq<byte>)
    requires Ok(st, readOffset)
    ensures |bytes| == st.gaps[0].start - readOffset
  {
    Sort.HeadAvailable(st);
    Sort.Readable(st)[readOffset - st.readPosition..]
  }

  // Where the first frame with FIN on the way from lo to hi ends.
  ghost function FinOnChain(queued: map<nat, StreamFrame>, lo: nat, hi: nat): (end: Option<nat>)
    requires Sort.Chain(queued, lo, hi)
    ensures end.Some? ==> lo < end.value <= hi
    decreases hi - lo
  {
    if lo == hi then None
    else
      var next := lo + queued[lo].DataLen();
      if queued[lo].finBit then Some(next) else FinOnChain(queued, next, hi)
  }

  lemma {:induction false} FinOnChainFrame(q: map<nat, StreamFrame>, q': map<nat, StreamFrame>, lo: nat, hi: nat)
    requires Sort.Chain(q, lo, hi) && Sort.Chain(q', lo, hi)
    requires forall k :: lo <= k < hi && k in q ==> k in q' && q'[k] == q[k]
    ensures FinOnChain(q', lo, hi) == FinOnChain(q, lo, hi)
    decreases hi - lo
  {
    if lo != hi && !q[lo].finBit {
      FinOnChainFrame(q, q', lo + q[lo].DataLen(), hi);
    }
  }

  // The end of the first frame with FIN and data that reading reaches before it has to wait.
  ghost function FinAhead(st: Sort.State): (end: Option<nat>)
    requires Sort.Valid(st)
    ensures end.Some? ==> st.readPosition < end.value <= st.gaps[0].start
  {
    FinOnChain(st.queued, st.readPosition, st.gaps[0].start)
  }

  // How far reading gets without waiting.
  ghost function Limit(st: Sort.State): nat
    requires Sort.Valid(st)
  {
    if FinAhead(st).Some? then FinAhead(st).value else st.gaps[0].start
  }

  // A FIN without data lies where reading would have to wait.
  ghost predicate FinWaiting(st: Sort.State)
    requires Sort.Valid(st)
  {
    st.gaps[0].start in st.queued
  }

  lemma BeforeFirstGap(gaps: seq<Sort.Interval>, x: nat)
    requires Sort.GapsOk(gaps) && x < gaps[0].start
    ensures !Sort.InGap(gaps, x)
  {
  }

  lemma FirstGapGrows(st: Sort.State, st': Sort.State)
    requires Sort.GapsOk(st.gaps) && Sort.GapsOk(st'.gaps)
    requires forall x: nat :: Sort.InGap(st'.gaps, x) ==> Sort.InGap(st.gaps, x)
    ensures st.gaps[0].start <= st'.gaps[0].start
  {
    var x := st'.gaps[0].start;
    assert Sort.InGap(st'.gaps, x) by { assert st'.gaps[0].start <= x < st'.gaps[0].end; }
    if x < st.gaps[0].start {
      BeforeFirstGap(st.gaps, x);
    }
  }

  // An accepted frame does not disturb a read that is under way, and more can be read than before.
  lemma PushKeepsPosition(st: Sort.State, f: StreamFrame, r: Sort.PushResult, st': Sort.State, readOffset: nat)
    requires Ok(st, readOffset) && Sort.Valid(st')
    requires Sort.Pushed(st, f, r, st')
    requires r.Accepted? || r.EmptyStreamData? || r.DuplicateStreamData?
    ensures Ok(st', readOffset)
    ensures st.gaps[0].start <= st'.gaps[0].start
  {
    FirstGapGrows(st, st');
    if st.readPosition < readOffset {
      Sort.HeadAvailable(st);
      Sort.HeadAvailable(st');
      BeforeFirstGap(st.gaps, st.readPosition);
    }
  }

  // m bytes of the head frame have been copied; the frame is taken off once it is used up.
  ghost function Advanced(st: Sort.State, readOffset: nat, m: nat): Sort.State
    requires Sort.HeadOf(st).Some?
  {
    if readOffset + m >= Sort.HeadOf(st).value.End() then Sort.Popped(st) else st
  }

  lemma SplitRead(readable: seq<byte>, data: seq<byte>, rest: seq<byte>, pos: nat, m: nat)
    requires data <= readable && pos + m <= |data|
    ensures readable[pos..] == data[pos..pos + m] + readable[pos + m..]
    ensures readable == data + rest && pos + m == |data| ==> readable[pos + m..] == rest[0..]
  {
  }

  lemma Advance(st: Sort.State, readOffset: nat, m: nat)
    requires Ok(st, readOffset) && Sort.HeadOf(st).Some?
    requires readOffset + m <= Sort.HeadOf(st).value.End()
    ensures Sort.HeadOf(st).value.offset == st.readPosition
    ensures Ok(Advanced(st, readOffset, m), readOffset + m)
    ensures Advanced(st, readOffset, m).gaps == st.gaps
    ensures Advanced(st, readOffset, m).queued.Items <= st.queued.Items
    ensures var f := Sort.HeadOf(st).value;
            var pos := readOffset - f.offset;
            && pos + m <= f.DataLen()
            && Unread(st, readOffset) == f.data[pos..pos + m] + Unread(Advanced(st, readOffset, m), readOffset + m)
  {
    hide Sort.Valid, Sort.Readable;
    Sort.HeadAvailable(st);
    Sort.PopValid(st);
    var f := Sort.HeadOf(st).value;
    var pos := readOffset - f.offset;
    SplitRead(Sort.Readable(st), f.data, Sort.Readable(Sort.Popped(st)), pos, m);
  }

  // FIN is met when a frame that carries it is used up, and only then.
  lemma AdvanceFin(st: Sort.State, readOffset: nat, m: nat)
    requires Ok(st, readOffset) && Sort.HeadOf(st).Some?
    requires readOffset + m <= Sort.HeadOf(st).value.End()
    ensures var f := Sort.HeadOf(st).value;
            var st' := Advanced(st, readOffset, m);
            && Sort.Valid(st) && Sort.Valid(st')
            && (f.DataLen() == 0 ==>
                  f.finBit && readOffset == st.gaps[0].start && FinAhead(st).None? && FinWaiting(st))
            && (f.DataLen() > 0 ==> f.End() <= Limit(st))
            && (f.DataLen() > 0 && f.finBit ==> FinAhead(st) == Some(f.End()))
            && (f.DataLen() > 0 && (!f.finBit || readOffset + m < f.End()) ==>
                  FinAhead(st') == FinAhead(st) && (FinWaiting(st') <==> FinWaiting(st)))
  {
    Sort.HeadAvailable(st);
    Sort.PopValid(st);
    var f, st' := Sort.HeadOf(st).value, Sort.Popped(st);
    assert f.DataLen() > 0 ==> st.readPosition < st.gaps[0].start;
    if f.DataLen() > 0 {
      FinOnChainFrame(st.queued, st'.queued, st'.readPosition, st.gaps[0].start);
    }
  }

  lemma NothingToRead(st: Sort.State, readOffset: nat)
    requires Ok(st, readOffset) && Sort.HeadOf(st).None?
    ensures Unread(st, readOffset) == [] && readOffset == st.gaps[0].start
    ensures Sort.Valid(st) && FinAhead(st).None? && !FinWaiting(st)
  {
    Sort.HeadAvailable(st);
  }

  lemma BelowLimit(st: Sort.State, readOffset: nat)
    requires Ok(st, readOffset)
    ensures Sort.Valid(st) && |st.gaps| > 0
    ensures readOffset <= Limit(st) <= st.gaps[0].start
    ensures FinAhead(st).Some? ==> readOffset < Limit(st)
  {
    if Sort.HeadOf(st).Some? {
      AdvanceFin(st, readOffset, 0);
    } else {
      NothingToRead(st, readOffset);
    }
  }

  // An empty queued frame is a FIN; any other head frame has bytes left.
  lemma HeadProgress(st: Sort.State, readOffset: nat)
    requires Ok(st, readOffset) && Sort.HeadOf(st).Some?
    ensures Sort.Valid(st)
    ensures var f := Sort.HeadOf(st).value;
            && f.offset == st.readPosition <= readOffset <= f.End()
            && (readOffset == f.End() ==> f.finBit)
            && st.readPosition in st.queued && st.queued[st.readPosition] == f
  {
    Sort.HeadAvailable(st);
  }

  // The buffer holds got, and behind that what it held before.
  ghost predicate Filled(buffer: seq<byte>, got: seq<byte>, pre: seq<byte>) {
    |got| <= |pre| && buffer == got + pre[|got|..]
  }

  lemma FilledNone(buffer: seq<byte>)
    ensures Filled(buffer, [], buffer)
  {
  }

  lemma FilledMore(buffer: seq<byte>, got: seq<byte>, pre: seq<byte>, src: seq<byte>)
    requires Filled(buffer, got, pre) && |got| + |src| <= |pre|
    ensures |buffer| == |pre|
    ensures Filled(buffer[..|got|] + src + buffer[|got| + |src|..], got + src, pre)
  {
  }

  lemma FilledDone(buffer: seq<byte>, got: seq<byte>, pre: seq<byte>)
    requires Filled(buffer, got, pre)
    ensures |buffer| == |pre| && buffer[..|got|] == got && buffer[|got|..] == pre[|got|..]
  {
  }

  lemma Assoc(a: seq<byte>, b: seq<byte>, c: seq<byte>)
    ensures a + (b + c) == a + b + c
  {
  }

  // A Read with a buffer of the given size uses up a frame with FIN.
  ghost predicate FinMet(st: Sort.State, readOffset: nat, size: nat)
    requires Sort.Valid(st) && readOffset <= Limit(st)
  {
    var n := Min(size, Limit(st) - readOffset);
    0 < size && readOffset + n == Limit(st) && (FinAhead(st).Some? || (n < size && FinWaiting(st)))
  }

  // What one Read with a buffer of the given size returns (bytes and outcome) and does. It
  // stops at the end of the buffer, before the first missing byte, or behind FIN.
  ghost predicate ReadSpec(st: Sort.State, readOffset: nat, finished: bool, size: nat,
                           bytes: seq<byte>, outcome: ReadOutcome,
                           st': Sort.State, readOffset': nat, finished': bool)
    requires Ok(st, readOffset) && readOffset <= Limit(st)
  {
    var n := Min(size, Limit(st) - readOffset);
    && Ok(st', readOffset')
    && st'.gaps == st.gaps && st'.queued.Items <= st.queued.Items
    && readOffset' == readOffset + |bytes|
    && Unread(st, readOffset) == bytes + Unread(st', readOffset')
    && |bytes| == (if finished then 0 else n)
    && (outcome.Eof? <==> (finished || FinMet(st, readOffset, size)))
    && (outcome.WouldBlock? <==> n == 0 < size && !outcome.Eof?)
    && (finished' <==> outcome.Eof?)
  }

  // The head frame gave m bytes to a buffer with room for size more.
  ghost predicate HeadUsed(st: Sort.State, readOffset: nat, size: nat, m: nat, fin: bool, st': Sort.State) {
    && Sort.Valid(st) && Sort.Valid(st')
    && m <= size && readOffset + m <= Limit(st) && |st.gaps| > 0
    && (if fin then readOffset + m == Limit(st) && (FinAhead(st).Some? || (m == 0 && FinWaiting(st)))
        else m > 0 && FinAhead(st') == FinAhead(st) && (FinWaiting(st') <==> FinWaiting(st)))
  }

  // A Read that began in state st0 is in state st; it has not met FIN.
  ghost predicate Reading(st0: Sort.State, start: nat, size: nat, got: seq<byte>, st: Sort.State, readOffset: nat)
    requires Ok(st0, start)
  {
    && Ok(st, readOffset)
    && |got| <= size && readOffset == start + |got| <= Limit(st0)
    && st.gaps == st0.gaps && st.queued.Items <= st0.queued.Items
    && Unread(st0, start) == got + Unread(st, readOffset)
    && FinAhead(st) == FinAhead(st0) && (FinWaiting(st) <==> FinWaiting(st0))
  }

  lemma ReadingStarts(st: Sort.State, start: nat, size: nat)
    requires Ok(st, start)
    ensures Reading(st, start, size, [], st, start)
  {
    BelowLimit(st, start);
    assert Unread(st, start) == [] + Unread(st, start);
  }

  // The head frame has given the bytes src.
  ghost predicate HeadGave(st: Sort.State, readOffset: nat, src: seq<byte>, st': Sort.State)
    requires Ok(st, readOffset)
  {
    && Ok(st', readOffset + |src|)
    && st'.gaps == st.gaps && st'.queued.Items <= st.queued.Items
    && Unread(st, readOffset) == src + Unread(st', readOffset + |src|)
  }

  lemma ReadingGoesOn(st0: Sort.State, start: nat, size: nat, got: seq<byte>, st: Sort.State, readOffset: nat,
                      src: seq<byte>, st': Sort.State)
    requires Ok(st0, start) && Reading(st0, start, size, got, st, readOffset)
    requires HeadGave(st, readOffset, src, st')
    requires |got| <= size && HeadUsed(st, readOffset, size - |got|, |src|, false, st')
    ensures Reading(st0, start, size, got + src, st', readOffset + |src|)
  {
    hide Ok, Unread, FinAhead, FinWaiting, Sort.Valid;
    Assoc(got, src, Unread(st', readOffset + |src|));
  }

  lemma ReadingMeetsFin(st0: Sort.State, start: nat, size: nat, got: seq<byte>, st: Sort.State, readOffset: nat,
                        src: seq<byte>, st': Sort.State)
    requires Ok(st0, start) && start <= Limit(st0) && Reading(st0, start, size, got, st, readOffset)
    requires HeadGave(st, readOffset, src, st')
    requires |got| < size && HeadUsed(st, readOffset, size - |got|, |src|, true, st')
    ensures ReadSpec(st0, start, false, size, got + src, Eof, st', readOffset + |src|, true)
  {
    hide Ok, Unread, FinAhead, FinWaiting, Sort.Valid;
    Assoc(got, src, Unread(st', readOffset + |src|));
  }

  lemma ReadingWaits(st0: Sort.State, start: nat, size: nat, got: seq<byte>, st: Sort.State, readOffset: nat)
    requires Ok(st0, start) && start <= Limit(st0) && Reading(st0, start, size, got, st, readOffset)
    requires |got| < size && Sort.HeadOf(st).None?
    ensures ReadSpec(st0, start, false, size, got, if |got| > 0 then Done else WouldBlock, st, readOffset, false)
  {
    hide Ok, Unread, FinAhead, FinWaiting, Sort.Valid;
    NothingToRead(st, readOffset);
  }

  lemma ReadingFills(st0: Sort.State, start: nat, size: nat, got: seq<byte>, st: Sort.State, readOffset: nat)
    requires Ok(st0, start) && start <= Limit(st0) && Reading(st0, start, size, got, st, readOffset)
    requires |got| == size
    ensures ReadSpec(st0, start, false, size, got, Done, st, readOffset, false)
  {
    hide Ok, Unread, FinAhead, FinWaiting, Sort.Valid;
    BelowLimit(st, readOffset);
  }

  lemma ReadingFinished(st: Sort.State, start: nat, size: nat)
    requires Ok(st, start)
    ensures start <= Limit(st) && ReadSpec(st, start, true, size, [], Eof, st, start, true)
  {
    BelowLimit(st, start);
  }

  lemma HeadUsedIntro(st: Sort.State, readOffset: nat, size: nat, m: nat, fin: bool)
    requires Ok(st, readOffset) && Sort.HeadOf(st).Some? && 0 < size
    requires readOffset <= Sort.HeadOf(st).value.End()
    requires m == Min(size, Sort.HeadOf(st).value.End() - readOffset)
    requires fin <==> readOffset + m == Sort.HeadOf(st).value.End() && Sort.HeadOf(st).value.finBit
    ensures HeadUsed(st, readOffset, size, m, fin, Advanced(st, readOffset, m))
  {
    HeadProgress(st, readOffset);
    AdvanceFin(st, readOffset, m);
    BelowLimit(st, readOffset);
  }

  // Copies src into the buffer, from index at on.
  method CopyAt(p: array<byte>, at: nat, src: seq<byte>)
    requires at + |src| <= p.Length
    modifies p
    ensures p[..] == old(p[..])[..at] + src + old(p[..])[at + |src|..]
  {
    for i := 0 to |src|
      invariant p[..at] == old(p[..at])
      invariant forall k :: 0 <= k < i ==> p[at + k] == src[k]
      invariant p[at + i..] == old(p[at + i..])
    {
      p[at + i] := src[i];
    }
  }

  lemma OkValid(st: Sort.State, readOffset: nat)
    requires Ok(st, readOffset)
    ensures Sort.Valid(st) && |st.gaps| > 0
  {
  }

  lemma PushedValid(st: Sort.State, f: StreamFrame, r: Sort.PushResult, st': Sort.State)
    requires Sort.Valid(st) && Sort.Pushed(st, f, r, st')
    requires !r.TooManyGaps? && !r.NoEndGapFound? && |st.gaps| > 0 && Sort.FinConsistent(st, f)
    ensures Sort.Valid(st')
  {
  }

  class Stream {
    const frameQueue: Sort.Sorter
    var readOffset: nat
    var readPosInFrame: nat
    var finishedReading: bool

    ghost predicate Valid()
      reads this, frameQueue
    {
      Ok(frameQueue.View(), readOffset)
    }

    constructor ()
      ensures Valid() && fresh(frameQueue)
      ensures frameQueue.View() == Sort.INIT_STATE && readOffset == 0 && !finishedReading
    {
      frameQueue := new Sort.Sorter();
      readOffset, readPosInFrame, finishedReading := 0, 0, false;
    }

    // A frame of the stream arrives. Duplicates are no error.
    method AddStreamFrame(frame: StreamFrame) returns (ok: bool, ghost r: Sort.PushResult)
      requires Valid()
      requires frame.End() <= MAX_BYTE_COUNT
      modifies frameQueue
      ensures ok <==> r.Accepted? || r.DuplicateStreamData?
      ensures Sort.Pushed(old(frameQueue.View()), frame, r, frameQueue.View())
      ensures ok && Sort.FinConsistent(old(frameQueue.View()), frame) ==> Valid()
    {
      hide Sort.FinConsistent, Sort.Pushed, Ok;
      ghost var st := frameQueue.View();
      OkValid(st, readOffset);
      var err := frameQueue.Push(frame);
      r := err;
      ok := err.Accepted? || err.DuplicateStreamData?;
      if ok && Sort.FinConsistent(st, frame) {
        PushedValid(st, frame, r, frameQueue.View());
        PushKeepsPosition(st, frame, r, frameQueue.View(), readOffset);
      }
    }

    // Copies from the head frame into the buffer, from index at on; takes the frame off the
    // queue once it is used up.
    method ReadHead(p: array<byte>, at: nat, frame: StreamFrame) returns (m: nat, fin: bool, ghost src: seq<byte>)
      requires Valid() && Sort.HeadOf(frameQueue.View()) == Some(frame)
      requires at < p.Length
      modifies this`readOffset, this`readPosInFrame, frameQueue, p
      ensures Valid()
      ensures at + m <= p.Length && readOffset == old(readOffset) + m && |src| == m
      ensures !fin ==> m > 0
      ensures HeadUsed(old(frameQueue.View()), old(readOffset), p.Length - at, m, fin, frameQueue.View())
      ensures HeadGave(old(frameQueue.View()), old(readOffset), src, frameQueue.View())
      ensures p[..] == old(p[..])[..at] + src + old(p[..])[at + m..]
    {
      hide Ok, Unread, Sort.Valid, Sort.HeadOf, Sort.Popped, HeadUsed;
      ghost var st := frameQueue.View();
      HeadProgress(st, readOffset);
      readPosInFrame := readOffset - frame.offset;
      var left := p.Length - at;
      m := if left < frame.DataLen() - readPosInFrame then left else frame.DataLen() - readPosInFrame;
      Advance(st, readOffset, m);
      ghost var st' := Advanced(st, readOffset, m);
      src := frame.data[readPosInFrame..readPosInFrame + m];
      CopyAt(p, at, frame.data[readPosInFrame..readPosInFrame + m]);
      readPosInFrame := readPosInFrame + m;
      readOffset := readOffset + m;
      fin := false;
      if readPosInFrame >= frame.DataLen() {
        var popped := frameQueue.Pop();
        fin := frame.finBit;
      }
      assert frameQueue.View() == st';
      HeadUsedIntro(st, old(readOffset), p.Length - at, m, fin);
    }

    method Read(p: array<byte>) returns (bytesRead: nat, outcome: ReadOutcome)
      requires Valid()
      modifies this, frameQueue, p
      ensures bytesRead <= p.Length && p[..][bytesRead..] == old(p[..])[bytesRead..]
      ensures Valid() && old(readOffset) <= Limit(old(frameQueue.View()))
      ensures ReadSpec(old(frameQueue.View()), old(readOffset), old(finishedReading), p.Length,
                       p[..][..bytesRead], outcome, frameQueue.View(), readOffset, finishedReading)
    {
      hide Ok, Unread, Sort.HeadOf, Sort.Valid, Sort.Sorter.View, Reading, ReadSpec, HeadUsed, HeadGave, Limit, Filled;
      FilledNone(p[..]);
      bytesRead := 0;
      ghost var st0, start, pre, got := frameQueue.View(), readOffset, p[..], [];
      BelowLimit(st0, start);
      if finishedReading {
        ReadingFinished(st0, start, p.Length);
        return 0, Eof;
      }
      ReadingStarts(st0, start, p.Length);
      while bytesRead < p.Length
        invariant Ok(frameQueue.View(), readOffset) && !finishedReading
        invariant |got| == bytesRead <= p.Length && Filled(p[..], got, pre)
        invariant Reading(st0, start, p.Length, got, frameQueue.View(), readOffset)
        decreases p.Length - bytesRead
      {
        ghost var st, offset, buffer := frameQueue.View(), readOffset, p[..];
        var head := frameQueue.Head();
        if head.None? {
          FilledDone(buffer, got, pre);
          ReadingWaits(st0, start, p.Length, got, st, readOffset);
          outcome := if bytesRead > 0 then Done else WouldBlock;
          return;
        }
        var m, fin, src := ReadHead(p, bytesRead, head.value);
        FilledMore(buffer, got, pre, src);
        bytesRead := bytesRead + m;
        if fin {
          ReadingMeetsFin(st0, start, p.Length, got, st, offset, src, frameQueue.View());
          FilledDone(p[..], got + src, pre);
          finishedReading := true;
          outcome := Eof;
          return;
        }
        ReadingGoesOn(st0, start, p.Length, got, st, offset, src, frameQueue.View());
        got := got + src;
      }
      FilledDone(p[..], got, pre);
      ReadingFills(st0, start, p.Length, got, frameQueue.View(), readOffset);
      outcome := Done;
    }
  }
}
