/**
 One stream from the writing application to the reading one. Frames that were sent may get
 lost, arrive late, in any order and any number of times; lost frames are queued again and
 cut again. The steps are the contracts of the parts: the sending stream and the framer on
 one side, the sorter and Read on the other.
 */
module StreamSystem {
  import opened MinMax
  import opened Wire
  import opened Wrappers
  import Sort = StreamFrameSorter
  import Recv = ReceiveStream
  import Framer = StreamFramer

  datatype Net = Net(
    send: Framer.SendState,
    queue: seq<StreamFrame>,      // lost frames, waiting in the framer
    sent: set<StreamFrame>,       // every frame that was ever put into a packet
    sorter: Sort.State,
    readOffset: nat,
    finished: bool,               // Read has reported the end of the stream
    failed: bool,                 // a frame was refused, which closes the connection
    written: seq<byte>,           // all bytes given to Write
    output: seq<byte>,            // all bytes returned by Read
    delivered: set<StreamFrame>,  // the frames that have arrived
    finCut: bool)                 // a frame with FIN arrived after the last byte it carries

  datatype Step =
    | Write(p: seq<byte>)
    | Close
    | Send(frame: StreamFrame, space: nat, window: nat)
    | Lose(frame: StreamFrame)
    | Resend(maxLen: nat, res: seq<StreamFrame>)
    | Deliver(frame: StreamFrame, result: Sort.PushResult)
    | Read(size: nat, bytes: seq<byte>, outcome: Recv.ReadOutcome)

  ghost predicate Init(s: Net) {
    exists id :: s == Net(Framer.SendState(id, None, 0, false, false), [], {}, Sort.INIT_STATE,
                          0, false, false, [], [], {}, false)
  }

  // FIN arrives on a frame whose last byte is already there.
  ghost predicate CutsFin(st: Sort.State, f: StreamFrame, r: Sort.PushResult) {
    r.Accepted? && f.finBit && f.DataLen() > 0 && !Sort.InGap(st.gaps, f.End() - 1)
  }

  ghost predicate NextStep(s: Net, step: Step, s': Net) {
    match step
    case Write(p) =>
      && s.send.dataForWriting.None? && !s.send.finishedWriting
      && s' == s.(send := s.send.(dataForWriting := if p == [] then None else Some(p)), written := s.written + p)
    case Close =>
      s' == s.(send := s.send.(finishedWriting := true))
    case Send(f, space, window) =>
      && Framer.FrameTaken(s.send, Some(f), space, window, s'.send)
      && s' == s.(send := s'.send, sent := s.sent + {f})
    case Lose(f) =>
      f in s.sent && s' == s.(queue := s.queue + [f])
    case Resend(maxLen, res) =>
      && Framer.PopSpec(s.queue, maxLen, res, Framer.WireLength(res), s'.queue)
      && s' == s.(queue := s'.queue, sent := s.sent + set f | f in res)
    case Deliver(f, r) =>
      && !s.failed && f in s.sent && f.End() <= MAX_BYTE_COUNT
      && |s.sorter.gaps| > 0
      && Sort.Pushed(s.sorter, f, r, s'.sorter)
      && s' == s.(sorter := s'.sorter, delivered := s.delivered + {f},
                  failed := !(r.Accepted? || r.DuplicateStreamData?),
                  finCut := s.finCut || CutsFin(s.sorter, f, r))
    case Read(size, bytes, outcome) =>
      && !s.failed
      && (Recv.Ok(s.sorter, s.readOffset) && s.readOffset <= Recv.Limit(s.sorter) ==>
            Recv.ReadSpec(s.sorter, s.readOffset, s.finished, size, bytes, outcome,
                          s'.sorter, s'.readOffset, s'.finished))
      && s' == s.(sorter := s'.sorter, readOffset := s'.readOffset, finished := s'.finished,
                  output := s.output + bytes)
  }

  // ---------- the invariant ----------

  // The item is a part of the stream as it was written.
  ghost predicate ItemOk(s: Net, item: Framer.Item) {
    && item.streamID == s.send.streamID
    && match item
       case Byte(_, o, b) => o < |s.written| && s.written[o] == b
       case Fin(_, o) => s.send.finishedWriting && o == |s.written|
  }

  ghost predicate ItemsOk(s: Net, items: seq<Framer.Item>) {
    forall i :: 0 <= i < |items| ==> ItemOk(s, items[i])
  }

  ghost predicate FrameOk(s: Net, f: StreamFrame) {
    && f.streamID == s.send.streamID
    && f.End() <= |s.written|
    && f.data == s.written[f.offset..f.End()]
    && (f.finBit ==> s.send.finishedWriting && f.End() == |s.written|)
    && (f.DataLen() > 0 || f.finBit)
  }

  ghost predicate SendOk(s: Net) {
    && ItemsOk(s, Framer.PendingItems(s.send))
    && s.send.writeOffset + Pending(s.send) == |s.written|
  }

  ghost function Pending(s: Framer.SendState): nat {
    if s.dataForWriting.Some? then |s.dataForWriting.value| else 0
  }

  // A queued frame may have lost its tail, and then FIN may sit before the end of the stream.
  ghost predicate QueuedOk(s: Net, f: StreamFrame) {
    && f.End() <= |s.written|
    && f.data == s.written[f.offset..f.End()]
    && (f.finBit ==> s.send.finishedWriting)
    && (f.finBit && !s.finCut ==> f.End() == |s.written|)
    && (f.finBit && f.DataLen() == 0 ==> f.End() == |s.written|)
  }

  ghost predicate Covered(delivered: set<StreamFrame>, x: nat) {
    exists f :: f in delivered && f.offset <= x < f.End()
  }

  ghost predicate SenderInv(s: Net) {
    && SendOk(s)
    && (forall f :: f in s.sent ==> FrameOk(s, f))
    && (forall f :: f in s.queue ==> FrameOk(s, f))
  }

  ghost predicate ReceiverInv(s: Net) {
    && Recv.Ok(s.sorter, s.readOffset)
    && s.delivered <= s.sent
    && (forall k :: k in s.sorter.queued ==> QueuedOk(s, s.sorter.queued[k]))
    && (forall x: nat :: x < MAX_BYTE_COUNT ==> (Sort.InGap(s.sorter.gaps, x) <==> !Covered(s.delivered, x)))
  }

  ghost predicate OutputInv(s: Net) {
    && s.readOffset <= |s.written|
    && s.output == s.written[..s.readOffset]
    && (s.finished && !s.finCut ==> s.send.finishedWriting && s.readOffset == |s.written|)
  }

  ghost predicate Inv(s: Net) {
    && SenderInv(s)
    && OutputInv(s)
    && (!s.failed ==> ReceiverInv(s))
  }

  lemma InitInv(s: Net)
    requires Init(s)
    ensures Inv(s)
  {
    assert Sort.Valid(Sort.INIT_STATE) by {
      assert Sort.Chain(map[], 0, 0);
    }
    forall x: nat | x < MAX_BYTE_COUNT
      ensures Sort.InGap(Sort.INIT_STATE.gaps, x)
    {
      assert Sort.INIT_STATE.gaps[0].start <= x < Sort.INIT_STATE.gaps[0].end;
    }
  }

  // ---------- frames and items ----------

  lemma FrameItemsAt(f: StreamFrame, i: nat)
    requires i < |f.data|
    ensures i < |Framer.FrameItems(f)|
    ensures Framer.FrameItems(f)[i] == Framer.Byte(f.streamID, f.offset + i, f.data[i])
  {
  }

  // A byte of the frame is one that was written.
  lemma FrameByteOk(s: Net, f: StreamFrame, i: nat)
    requires ItemsOk(s, Framer.FrameItems(f)) && i < |f.data|
    ensures f.streamID == s.send.streamID
    ensures f.offset + i < |s.written| && s.written[f.offset + i] == f.data[i]
  {
    FrameItemsAt(f, i);
    assert ItemOk(s, Framer.FrameItems(f)[i]);
  }

  lemma FrameFinOk(s: Net, f: StreamFrame)
    requires ItemsOk(s, Framer.FrameItems(f)) && f.finBit
    ensures f.streamID == s.send.streamID && s.send.finishedWriting && f.End() == |s.written|
  {
    var items := Framer.FrameItems(f);
    assert items[|f.data|] == Framer.Fin(f.streamID, f.End());
    assert ItemOk(s, items[|f.data|]);
  }

  lemma FrameItemsOk(s: Net, f: StreamFrame)
    requires f.DataLen() > 0 || f.finBit
    requires ItemsOk(s, Framer.FrameItems(f))
    ensures FrameOk(s, f)
  {
    hide ItemsOk;
    if f.finBit {
      FrameFinOk(s, f);
    }
    if f.DataLen() > 0 {
      FrameByteOk(s, f, |f.data| - 1);
    }
    forall i | 0 <= i < |f.data| ensures f.data[i] == s.written[f.offset..f.End()][i] {
      FrameByteOk(s, f, i);
    }
    assert f.data == s.written[f.offset..f.End()];
  }

  lemma FrameOkItems(s: Net, f: StreamFrame)
    requires FrameOk(s, f)
    ensures ItemsOk(s, Framer.FrameItems(f))
  {
    var items := Framer.FrameItems(f);
    forall i | 0 <= i < |items|
      ensures ItemOk(s, items[i])
    {
      if i < |f.data| {
        FrameItemsAt(f, i);
        assert f.data[i] == s.written[f.offset..f.End()][i];
      }
    }
  }

  lemma ItemsOkConcat(s: Net, a: seq<Framer.Item>, b: seq<Framer.Item>)
    ensures ItemsOk(s, a + b) <==> ItemsOk(s, a) && ItemsOk(s, b)
  {
    if ItemsOk(s, a + b) {
      forall i | 0 <= i < |a| ensures ItemOk(s, a[i]) { assert (a + b)[i] == a[i]; }
      forall i | 0 <= i < |b| ensures ItemOk(s, b[i]) { assert (a + b)[|a| + i] == b[i]; }
    }
  }

  // Frames stay right while the application writes and closes.
  ghost predicate Grows(s: Net, s': Net) {
    && s'.send.streamID == s.send.streamID
    && s.written <= s'.written
    && (s.send.finishedWriting ==> s'.send.finishedWriting && s'.written == s.written)
    && (s.finCut ==> s'.finCut)
  }

  lemma FrameOkGrows(s: Net, s': Net, f: StreamFrame)
    requires Grows(s, s')
    ensures FrameOk(s, f) ==> FrameOk(s', f)
    ensures QueuedOk(s, f) ==> QueuedOk(s', f)
  {
    if f.End() <= |s.written| {
      assert s'.written[f.offset..f.End()] == s.written[f.offset..f.End()];
    }
  }

  lemma ItemsOkGrows(s: Net, s': Net, items: seq<Framer.Item>)
    requires Grows(s, s') && ItemsOk(s, items)
    ensures ItemsOk(s', items)
  {
    forall i | 0 <= i < |items|
      ensures ItemOk(s', items[i])
    {
      assert ItemOk(s, items[i]);
    }
  }

  // ---------- the sender's steps ----------

  lemma FramesGrow(s: Net, s': Net)
    requires SenderInv(s) && Grows(s, s')
    requires s'.sent == s.sent && s'.queue == s.queue
    ensures forall f :: f in s'.sent ==> FrameOk(s', f)
    ensures forall f :: f in s'.queue ==> FrameOk(s', f)
  {
    forall f | f in s.sent ensures FrameOk(s', f) { FrameOkGrows(s, s', f); }
    forall f | f in s.queue ensures FrameOk(s', f) { FrameOkGrows(s, s', f); }
  }

  lemma WriteKeeps(s: Net, p: seq<byte>, s': Net)
    requires SenderInv(s) && NextStep(s, Write(p), s')
    ensures SenderInv(s') && Grows(s, s')
  {
    FramesGrow(s, s');
    var items := Framer.PendingItems(s'.send);
    forall i | 0 <= i < |items|
      ensures ItemOk(s', items[i])
    {
      assert items[i] == Framer.Byte(s.send.streamID, |s.written| + i, p[i]);
    }
  }

  lemma CloseKeeps(s: Net, s': Net)
    requires SenderInv(s) && NextStep(s, Close, s')
    ensures SenderInv(s') && Grows(s, s')
  {
    FramesGrow(s, s');
    var items, items' := Framer.PendingItems(s.send), Framer.PendingItems(s'.send);
    forall i | 0 <= i < |items'|
      ensures ItemOk(s', items'[i])
    {
      if i < Pending(s.send) {
        assert items'[i] == items[i];
        assert ItemOk(s, items[i]);
      }
    }
  }

  // FIN is pending at most once, behind the pending bytes.
  ghost function FinCount(b: bool): nat {
    if b then 1 else 0
  }

  lemma SendCounts(s: Framer.SendState, f: StreamFrame, space: nat, window: nat, s': Framer.SendState)
    requires Framer.FrameTaken(s, Some(f), space, window, s')
    ensures Pending(s) == f.DataLen() + Pending(s')
  {
    var items := Framer.PendingItems(s);
    assert |items| == Pending(s) + FinCount(s.finishedWriting && !s.finSent);
    assert |Framer.FrameItems(f)| == f.DataLen() + FinCount(f.finBit);
    assert |Framer.PendingItems(s')| == Pending(s') + FinCount(s'.finishedWriting && !s'.finSent);
    if f.finBit {
      assert Framer.FrameItems(f)[f.DataLen()].Fin?;
      assert items[f.DataLen()].Fin?;
    }
  }

  lemma SendKeeps(s: Net, f: StreamFrame, space: nat, window: nat, s': Net)
    requires SenderInv(s) && NextStep(s, Send(f, space, window), s')
    ensures SenderInv(s') && Grows(s, s')
  {
    SendCounts(s.send, f, space, window, s'.send);
    ItemsOkConcat(s, Framer.FrameItems(f), Framer.PendingItems(s'.send));
    FrameItemsOk(s, f);
    ItemsOkGrows(s, s', Framer.PendingItems(s'.send));
    forall g | g in s'.sent ensures FrameOk(s', g) { FrameOkGrows(s, s', g); }
    forall g | g in s.queue ensures FrameOk(s', g) { FrameOkGrows(s, s', g); }
  }

  lemma {:induction false} AllItemsOk(s: Net, fs: seq<StreamFrame>)
    ensures (forall f :: f in fs ==> FrameOk(s, f)) ==> ItemsOk(s, Framer.AllItems(fs))
    ensures Framer.Writable(fs) && ItemsOk(s, Framer.AllItems(fs)) ==> forall f :: f in fs ==> FrameOk(s, f)
  {
    if fs != [] {
      AllItemsOk(s, fs[1..]);
      ItemsOkConcat(s, Framer.FrameItems(fs[0]), Framer.AllItems(fs[1..]));
      if FrameOk(s, fs[0]) {
        FrameOkItems(s, fs[0]);
      }
      if ItemsOk(s, Framer.FrameItems(fs[0])) && (fs[0].DataLen() > 0 || fs[0].finBit) {
        FrameItemsOk(s, fs[0]);
      }
      assert forall f :: f in fs <==> f == fs[0] || f in fs[1..];
    }
  }

  lemma ResendKeeps(s: Net, maxLen: nat, res: seq<StreamFrame>, s': Net)
    requires SenderInv(s) && NextStep(s, Resend(maxLen, res), s')
    ensures SenderInv(s') && Grows(s, s')
  {
    AllItemsOk(s, s.queue);
    ItemsOkConcat(s, Framer.AllItems(res), Framer.AllItems(s'.queue));
    AllItemsOk(s, res);
    AllItemsOk(s, s'.queue);
    ItemsOkGrows(s, s', Framer.PendingItems(s.send));
    forall g | g in s'.sent ensures FrameOk(s', g) { FrameOkGrows(s, s', g); }
    forall g | g in s'.queue ensures FrameOk(s', g) { FrameOkGrows(s, s', g); }
  }

  // ---------- the receiver's steps ----------

  // Every gap but the last is followed by a received byte, so the last one starts inside the stream.
  lemma LastGapStart(s: Net)
    requires SenderInv(s) && ReceiverInv(s)
    ensures |s.sorter.gaps| > 0 && s.sorter.gaps[|s.sorter.gaps| - 1].start <= |s.written|
  {
    var gaps := s.sorter.gaps;
    var last := gaps[|gaps| - 1].start;
    if last > 0 {
      assert !Sort.InGap(gaps, last - 1) by {
        if i :| 0 <= i < |gaps| && gaps[i].start <= last - 1 < gaps[i].end {
          Sort.GapOrder(gaps, i, |gaps| - 1);
        }
      }
      assert last - 1 < MAX_BYTE_COUNT by { Sort.GapOrder(gaps, |gaps| - 1, |gaps| - 1); }
      assert Covered(s.delivered, last - 1);
      var f :| f in s.delivered && f.offset <= last - 1 < f.End();
      assert FrameOk(s, f);
    }
  }

  lemma DeliveredConsistent(s: Net, f: StreamFrame)
    requires SenderInv(s) && ReceiverInv(s) && f in s.sent
    ensures |s.sorter.gaps| > 0 && Sort.FinConsistent(s.sorter, f)
  {
    LastGapStart(s);
    assert FrameOk(s, f);
    forall k | k in s.sorter.queued && s.sorter.queued[k].DataLen() == 0
      ensures f.End() <= k
    {
      assert Sort.EntryOk(s.sorter.gaps, k, s.sorter.queued[k]);
      assert QueuedOk(s, s.sorter.queued[k]);
    }
  }

  lemma PieceOk(s: Net, f: StreamFrame, p: StreamFrame, finCut: bool)
    requires FrameOk(s, f) && Sort.IsPiece(p, f)
    requires f.finBit && !finCut ==> p.End() == f.End()
    ensures QueuedOk(s.(finCut := finCut), p)
  {
    SliceOfSlice(s.written, f.data, f.offset, f.End(), p.offset, p.End());
  }

  lemma SliceOfSlice(all: seq<byte>, part: seq<byte>, lo: nat, hi: nat, lo': nat, hi': nat)
    requires lo <= lo' <= hi' <= hi <= |all| && part == all[lo..hi]
    ensures part[lo' - lo..hi' - lo] == all[lo'..hi']
  {
    assert forall k | 0 <= k < |part| :: part[k] == all[lo + k];
  }

  lemma QueueAfterPush(s: Net, f: StreamFrame, r: Sort.PushResult, s': Net)
    requires SenderInv(s) && ReceiverInv(s) && NextStep(s, Deliver(f, r), s')
    requires Sort.Pushed(s.sorter, f, r, s'.sorter) && r.Accepted?
    ensures forall k :: k in s'.sorter.queued ==> QueuedOk(s', s'.sorter.queued[k])
  {
    assert FrameOk(s, f);
    forall k | k in s'.sorter.queued
      ensures QueuedOk(s', s'.sorter.queued[k])
    {
      var p := s'.sorter.queued[k];
      if k in s.sorter.queued && s.sorter.queued[k] == p {
        assert QueuedOk(s, p);
      } else if f.DataLen() > 0 {
        assert Sort.IsPiece(p, f);
        PieceOk(s, f, p, s'.finCut);
        assert QueuedOk(s.(finCut := s'.finCut), p);
      }
    }
  }

  lemma CoverageAfterPush(s: Net, f: StreamFrame, r: Sort.PushResult, s': Net, x: nat)
    requires ReceiverInv(s) && |s.sorter.gaps| > 0
    requires Sort.Pushed(s.sorter, f, r, s'.sorter) && (r.Accepted? || r.DuplicateStreamData?)
    requires s'.delivered == s.delivered + {f}
    requires x < MAX_BYTE_COUNT
    ensures Sort.InGap(s'.sorter.gaps, x) <==> !Covered(s'.delivered, x)
  {
    assert Covered(s'.delivered, x) <==> Covered(s.delivered, x) || f.offset <= x < f.End() by {
      if Covered(s.delivered, x) {
        var g :| g in s.delivered && g.offset <= x < g.End();
        assert g in s'.delivered;
      }
      assert f in s'.delivered;
    }
  }

  lemma DeliverKeeps(s: Net, f: StreamFrame, r: Sort.PushResult, s': Net)
    requires Inv(s) && NextStep(s, Deliver(f, r), s')
    ensures Inv(s')
  {
    DeliveredConsistent(s, f);
    DeliverReceiver(s, f, r, s');
    FramesGrow(s, s');
    ItemsOkGrows(s, s', Framer.PendingItems(s.send));
  }

  lemma DeliverReceiver(s: Net, f: StreamFrame, r: Sort.PushResult, s': Net)
    requires SenderInv(s) && ReceiverInv(s) && NextStep(s, Deliver(f, r), s')
    requires |s.sorter.gaps| > 0 && Sort.FinConsistent(s.sorter, f)
    ensures !s'.failed ==> ReceiverInv(s')
  {
    if !s'.failed {
      Recv.OkValid(s.sorter, s.readOffset);
      Recv.PushedValid(s.sorter, f, r, s'.sorter);
      Recv.PushKeepsPosition(s.sorter, f, r, s'.sorter, s.readOffset);
      if r.Accepted? {
        QueueAfterPush(s, f, r, s');
      } else {
        forall k | k in s'.sorter.queued ensures QueuedOk(s', s'.sorter.queued[k]) {
          assert QueuedOk(s, s.sorter.queued[k]);
        }
      }
      forall x: nat | x < MAX_BYTE_COUNT
        ensures Sort.InGap(s'.sorter.gaps, x) <==> !Covered(s'.delivered, x)
      {
        CoverageAfterPush(s, f, r, s', x);
      }
    }
  }

  // Along a chain of right frames lie the written bytes.
  lemma {:induction false} ContentsWritten(s: Net, lo: nat, hi: nat)
    requires Sort.Chain(s.sorter.queued, lo, hi)
    requires forall k :: k in s.sorter.queued ==> QueuedOk(s, s.sorter.queued[k]) && s.sorter.queued[k].offset == k
    requires lo <= |s.written|
    ensures hi <= |s.written|
    ensures Sort.Contents(s.sorter.queued, lo, hi) == s.written[lo..hi]
    decreases hi - lo
  {
    if lo != hi {
      var f := s.sorter.queued[lo];
      assert QueuedOk(s, f);
      ContentsWritten(s, f.End(), hi);
      assert s.written[lo..hi] == s.written[lo..f.End()] + s.written[f.End()..hi];
    }
  }

  lemma UnreadWritten(s: Net)
    requires ReceiverInv(s) && OutputInv(s)
    ensures |s.sorter.gaps| > 0 && s.readOffset <= s.sorter.gaps[0].start <= |s.written|
    ensures Recv.Unread(s.sorter, s.readOffset) == s.written[s.readOffset..s.sorter.gaps[0].start]
  {
    Recv.BelowLimit(s.sorter, s.readOffset);
    forall k | k in s.sorter.queued ensures s.sorter.queued[k].offset == k {
      assert Sort.EntryOk(s.sorter.gaps, k, s.sorter.queued[k]);
    }
    ContentsWritten(s, s.sorter.readPosition, s.sorter.gaps[0].start);
  }

  // FIN is reported where some frame with FIN ends.
  lemma {:induction false} FinOnChainEntry(q: map<nat, StreamFrame>, lo: nat, hi: nat)
    requires Sort.Chain(q, lo, hi) && Recv.FinOnChain(q, lo, hi).Some?
    ensures exists k :: k in q && q[k].finBit && k + q[k].DataLen() == Recv.FinOnChain(q, lo, hi).value
    decreases hi - lo
  {
    if !q[lo].finBit {
      FinOnChainEntry(q, lo + q[lo].DataLen(), hi);
    }
  }

  lemma FinMetEntry(st: Sort.State, readOffset: nat, size: nat)
    requires Recv.Ok(st, readOffset) && readOffset <= Recv.Limit(st) && Recv.FinMet(st, readOffset, size)
    ensures exists k :: k in st.queued && st.queued[k].finBit && st.queued[k].End() == Recv.Limit(st)
  {
    if Recv.FinAhead(st).Some? {
      FinOnChainEntry(st.queued, st.readPosition, st.gaps[0].start);
      var k :| k in st.queued && st.queued[k].finBit && k + st.queued[k].DataLen() == Recv.FinAhead(st).value;
      assert Sort.EntryOk(st.gaps, k, st.queued[k]);
    } else {
      var k := st.gaps[0].start;
      assert Sort.EntryOk(st.gaps, k, st.queued[k]);
      Sort.GapOrder(st.gaps, 0, 0);
    }
  }

  lemma ReadKeeps(s: Net, size: nat, bytes: seq<byte>, outcome: Recv.ReadOutcome, s': Net)
    requires Inv(s) && NextStep(s, Read(size, bytes, outcome), s')
    ensures Inv(s')
  {
    hide Recv.Ok, Recv.Unread, Sort.InGap;
    Recv.BelowLimit(s.sorter, s.readOffset);
    FramesGrow(s, s');
    ItemsOkGrows(s, s', Framer.PendingItems(s.send));
    UnreadWritten(s);
    ReadOutput(s, size, bytes, outcome, s');
    ReadReceiver(s, size, bytes, outcome, s');
  }

  lemma ReadReceiver(s: Net, size: nat, bytes: seq<byte>, outcome: Recv.ReadOutcome, s': Net)
    requires ReceiverInv(s) && NextStep(s, Read(size, bytes, outcome), s')
    requires s.readOffset <= Recv.Limit(s.sorter)
    ensures ReceiverInv(s')
  {
    forall k | k in s'.sorter.queued
      ensures QueuedOk(s', s'.sorter.queued[k])
    {
      assert (k, s'.sorter.queued[k]) in s.sorter.queued.Items;
      assert QueuedOk(s, s.sorter.queued[k]);
    }
  }

  lemma ReadOutput(s: Net, size: nat, bytes: seq<byte>, outcome: Recv.ReadOutcome, s': Net)
    requires ReceiverInv(s) && OutputInv(s) && NextStep(s, Read(size, bytes, outcome), s')
    requires s.readOffset <= Recv.Limit(s.sorter)
    requires |s.sorter.gaps| > 0 && s.sorter.gaps[0].start <= |s.written|
    requires Recv.Unread(s.sorter, s.readOffset) == s.written[s.readOffset..s.sorter.gaps[0].start]
    ensures OutputInv(s')
  {
    hide Recv.Unread, Recv.Ok, Recv.Limit, Recv.FinMet, QueuedOk, Sort.InGap;
    Recv.BelowLimit(s.sorter, s.readOffset);
    OutputGrows(s.written, s.readOffset, s.sorter.gaps[0].start, bytes, Recv.Unread(s'.sorter, s'.readOffset));
    if s'.finished && !s.finished {
      FinMetEntry(s.sorter, s.readOffset, size);
      var k :| k in s.sorter.queued && s.sorter.queued[k].finBit && s.sorter.queued[k].End() == Recv.Limit(s.sorter);
      FinEnds(s, s.sorter.queued[k]);
      FinMetLimit(s.sorter, s.readOffset, size);
    }
  }

  lemma OutputGrows(written: seq<byte>, readOffset: nat, end: nat, bytes: seq<byte>, rest: seq<byte>)
    requires readOffset <= end <= |written|
    requires written[readOffset..end] == bytes + rest
    ensures readOffset + |bytes| <= |written|
    ensures written[..readOffset] + bytes == written[..readOffset + |bytes|]
  {
    assert |bytes| <= end - readOffset;
    assert bytes == written[readOffset..end][..|bytes|];
  }

  lemma FinEnds(s: Net, f: StreamFrame)
    requires QueuedOk(s, f) && f.finBit
    ensures s.send.finishedWriting && (!s.finCut ==> f.End() == |s.written|)
  {
  }

  lemma FinMetLimit(st: Sort.State, readOffset: nat, size: nat)
    requires Recv.Ok(st, readOffset) && readOffset <= Recv.Limit(st) && Recv.FinMet(st, readOffset, size)
    ensures readOffset + Min(size, Recv.Limit(st) - readOffset) == Recv.Limit(st)
  {
  }

  lemma StepKeeps(s: Net, step: Step, s': Net)
    requires Inv(s) && NextStep(s, step, s')
    ensures Inv(s')
    ensures s.written <= s'.written && s.output <= s'.output
  {
    match step
    case Write(p) => WriteKeeps(s, p, s'); ReceiverGrows(s, s');
    case Close => CloseKeeps(s, s'); ReceiverGrows(s, s');
    case Send(f, space, window) => SendKeeps(s, f, space, window, s'); ReceiverGrows(s, s');
    case Lose(f) => LoseKeeps(s, f, s');
    case Resend(maxLen, res) => ResendKeeps(s, maxLen, res, s'); ReceiverGrows(s, s');
    case Deliver(f, r) => DeliverKeeps(s, f, r, s');
    case Read(size, bytes, outcome) => ReadKeeps(s, size, bytes, outcome, s');
  }

  lemma LoseKeeps(s: Net, f: StreamFrame, s': Net)
    requires Inv(s) && NextStep(s, Lose(f), s')
    ensures Inv(s')
  {
    forall g | g in s'.sent ensures FrameOk(s', g) { FrameOkGrows(s, s', g); }
    forall g | g in s'.queue ensures FrameOk(s', g) { FrameOkGrows(s, s', g); }
    ItemsOkGrows(s, s', Framer.PendingItems(s.send));
    ReceiverGrows(s, s');
  }

  lemma ReceiverGrows(s: Net, s': Net)
    requires Inv(s) && Grows(s, s')
    requires s'.sorter == s.sorter && s'.readOffset == s.readOffset && s'.finished == s.finished
    requires s'.failed == s.failed && s'.output == s.output && s'.delivered == s.delivered && s'.finCut == s.finCut
    requires s.sent <= s'.sent
    ensures OutputInv(s') && (!s'.failed ==> ReceiverInv(s'))
  {
    if !s.failed {
      forall k | k in s'.sorter.queued
        ensures QueuedOk(s', s'.sorter.queued[k])
      {
        FrameOkGrows(s, s', s.sorter.queued[k]);
      }
    }
  }

  // ---------- whole runs ----------

  ghost predicate IsRun(run: seq<Net>, steps: seq<Step>) {
    && |run| == |steps| + 1
    && Init(run[0])
    && (forall i :: 0 <= i < |steps| ==> NextStep(run[i], steps[i], run[i + 1]))
  }

  lemma {:induction false} RunInv(run: seq<Net>, steps: seq<Step>)
    requires IsRun(run, steps)
    ensures Inv(run[|steps|])
  {
    if |steps| == 0 {
      InitInv(run[0]);
    } else {
      var n := |steps| - 1;
      RunInv(run[..n + 1], steps[..n]);
      StepKeeps(run[n], steps[n], run[n + 1]);
    }
  }

  // However frames are cut, lost, repeated and reordered: the peer reads a prefix of what was written.
  lemma ReadsPrefix(run: seq<Net>, steps: seq<Step>)
    requires IsRun(run, steps)
    ensures run[|steps|].output <= run[|steps|].written
  {
    RunInv(run, steps);
  }

  // Once every written byte has been delivered, all that was not read yet is ready to be read.
  lemma AllReadable(s: Net)
    requires Inv(s) && !s.failed && forall x: nat :: x < |s.written| ==> Covered(s.delivered, x)
    ensures Recv.Ok(s.sorter, s.readOffset) && s.output + Recv.Unread(s.sorter, s.readOffset) == s.written
  {
    UnreadWritten(s);
    var g := s.sorter.gaps[0].start;
    Sort.GapOrder(s.sorter.gaps, 0, 0);
    Sort.GapBounds(s.sorter.gaps, 0, |s.sorter.gaps| - 1);
    assert Sort.InGap(s.sorter.gaps, g);
    assert !Covered(s.delivered, g);
    assert g == |s.written|;
    assert s.written == s.written[..s.readOffset] + s.written[s.readOffset..g];
  }

  // Nothing gets stuck over all runs.
  lemma ReadsEverything(run: seq<Net>, steps: seq<Step>)
    requires IsRun(run, steps)
    requires var s := run[|steps|];
             !s.failed && forall x: nat :: x < |s.written| ==> Covered(s.delivered, x)
    ensures var s := run[|steps|];
            Recv.Ok(s.sorter, s.readOffset) && s.output + Recv.Unread(s.sorter, s.readOffset) == s.written
  {
    RunInv(run, steps);
    AllReadable(run[|steps|]);
  }

  // One Read with a large enough buffer then completes the output.
  lemma LastRead(run: seq<Net>, steps: seq<Step>, size: nat, bytes: seq<byte>, outcome: Recv.ReadOutcome, s': Net)
    requires IsRun(run, steps)
    requires var s := run[|steps|];
             && !s.failed && !s.finCut && !s.finished
             && (forall x: nat :: x < |s.written| ==> Covered(s.delivered, x))
             && |s.written| - |s.output| <= size
             && NextStep(s, Read(size, bytes, outcome), s')
    ensures s'.output == s'.written
  {
    var s := run[|steps|];
    RunInv(run, steps);
    StepKeeps(s, Read(size, bytes, outcome), s');
    ReadsEverything(run, steps);
    Recv.BelowLimit(s.sorter, s.readOffset);
    UnreadWritten(s);
    if Recv.FinAhead(s.sorter).Some? {
      FinOnChainEntry(s.sorter.queued, s.sorter.readPosition, s.sorter.gaps[0].start);
      var k :| k in s.sorter.queued && s.sorter.queued[k].finBit
               && k + s.sorter.queued[k].DataLen() == Recv.FinAhead(s.sorter).value;
      assert Sort.EntryOk(s.sorter.gaps, k, s.sorter.queued[k]);
      FinEnds(s, s.sorter.queued[k]);
    }
    assert Recv.Limit(s.sorter) == |s.written|;
  }

  // As long as no frame with FIN arrived after its own last byte, the end of the stream is
  // reported only when everything was read and the writer has closed.
  lemma EofMeansEnd(run: seq<Net>, steps: seq<Step>)
    requires IsRun(run, steps)
    requires run[|steps|].finished && !run[|steps|].finCut
    ensures run[|steps|].output == run[|steps|].written && run[|steps|].send.finishedWriting
  {
    RunInv(run, steps);
  }

  // The only reasons for refusing a frame of an honest sender: it ends at the very last
  // offset, or it lies inside a gap and there are as many gaps as there may be. The two internal errors of the
  // sorter do not occur.
  lemma RefusedFrames(run: seq<Net>, steps: seq<Step>, f: StreamFrame, r: Sort.PushResult, s': Net)
    requires IsRun(run, steps) && NextStep(run[|steps|], Deliver(f, r), s')
    ensures s'.failed <==>
            || (f.End() == MAX_BYTE_COUNT && f.DataLen() > 0)
            || (|run[|steps|].sorter.gaps| == Sort.MAX_GAPS && Sort.SplitsGap(run[|steps|].sorter.gaps, f))
  {
    var s := run[|steps|];
    RunInv(run, steps);
    DeliveredConsistent(s, f);
    assert FrameOk(s, f);
  }

  // ---------- FIN on a shortened frame ----------

  // A received byte that was not read yet lies in a queued frame.
  lemma {:induction false} ChainCovers(q: map<nat, StreamFrame>, lo: nat, hi: nat, x: nat)
    requires Sort.Chain(q, lo, hi) && lo <= x < hi
    ensures exists k :: k in q && k <= x < k + q[k].DataLen()
    decreases hi - lo
  {
    if x >= lo + q[lo].DataLen() {
      ChainCovers(q, lo + q[lo].DataLen(), hi, x);
    }
  }

  lemma {:induction false} BlocksCover(q: map<nat, StreamFrame>, left: nat, gaps: seq<Sort.Interval>, x: nat)
    requires Sort.Blocks(q, left, gaps) && gaps != []
    requires left <= x < gaps[|gaps| - 1].end && !Sort.InGap(gaps, x)
    ensures exists k :: k in q && k <= x < k + q[k].DataLen()
    decreases |gaps|
  {
    if x < gaps[0].start {
      ChainCovers(q, left, gaps[0].start, x);
    } else {
      assert gaps[0].end <= x;
      assert forall i :: 0 <= i < |gaps[1..]| ==> gaps[1..][i] == gaps[i + 1];
      BlocksCover(q, gaps[0].end, gaps[1..], x);
    }
  }

  // The queue holds a piece of f with FIN that ends before f does.
  ghost predicate MisplacedFin(st: Sort.State, f: StreamFrame, st': Sort.State) {
    exists k ::
      && k in st'.queued && !(k in st.queued && st.queued[k] == st'.queued[k])
      && st'.queued[k].finBit && st'.queued[k].End() < f.End()
  }

  lemma LastByteReceived(st: Sort.State, f: StreamFrame)
    requires Sort.Valid(st) && 0 < f.DataLen() && f.End() <= MAX_BYTE_COUNT && !Sort.InGap(st.gaps, f.End() - 1)
    ensures |st.gaps| > 0 && Sort.FinConsistent(st, f)
  {
    hide Sort.Tiled;
    var last := st.gaps[|st.gaps| - 1];
    assert !(last.start <= f.End() - 1 < last.end);
    forall k | k in st.queued && st.queued[k].DataLen() == 0 ensures f.End() <= k {
      assert Sort.EntryOk(st.gaps, k, st.queued[k]);
    }
  }

  // Push keeps FIN on what is left of a frame. FIN ends up before the end of the stream
  // exactly when the last byte of the frame had been received before.
  lemma FinMisplaced(st: Sort.State, f: StreamFrame, st': Sort.State)
    requires Sort.Valid(st) && Sort.Pushed(st, f, Sort.Accepted, st')
    requires f.finBit && f.DataLen() > 0 && f.End() <= MAX_BYTE_COUNT
    ensures MisplacedFin(st, f, st') <==> !Sort.InGap(st.gaps, f.End() - 1)
  {
    hide Sort.FinConsistent;
    if !Sort.InGap(st.gaps, f.End() - 1) {
      LastByteReceived(st, f);
      var x: nat :| f.offset <= x < f.End() && Sort.InGap(st.gaps, x);
      assert !Sort.InGap(st'.gaps, x);
      assert st.readPosition <= x by {
        if x < st.readPosition { Recv.BeforeFirstGap(st.gaps, x); }
      }
      BlocksCover(st'.queued, st'.readPosition, st'.gaps, x);
      var k :| k in st'.queued && k <= x < k + st'.queued[k].DataLen();
      assert Sort.EntryOk(st'.gaps, k, st'.queued[k]);
      if k in st.queued && st.queued[k] == st'.queued[k] {
        Sort.QueuedMeansReceived(st, k, x);
      }
    }
  }

  lemma FirstFrame(f: StreamFrame)
    requires 0 < f.DataLen() && f.End() < MAX_BYTE_COUNT
    ensures Sort.Valid(Sort.INIT_STATE) && Sort.FinConsistent(Sort.INIT_STATE, f)
    ensures forall r, st :: Sort.Pushed(Sort.INIT_STATE, f, r, st) ==>
              && r.Accepted? && Sort.Valid(st) && |st.gaps| <= 2 && st.readPosition == 0
              && (forall x: nat :: x < MAX_BYTE_COUNT ==> (Sort.InGap(st.gaps, x) <==> !(f.offset <= x < f.End())))
              && (forall k :: k in st.queued ==> Sort.IsPiece(st.queued[k], f))
  {
    assert Sort.Chain(map[], 0, 0);
    forall x: nat | x < MAX_BYTE_COUNT
      ensures Sort.InGap(Sort.INIT_STATE.gaps, x)
    {
      assert Sort.INIT_STATE.gaps[0].start <= x < Sort.INIT_STATE.gaps[0].end;
    }
    assert Sort.InGap(Sort.INIT_STATE.gaps, f.offset);
  }

  // f covers everything from the first byte on; its tail was there before.
  lemma CoveringFrame(st: Sort.State, f: StreamFrame, tail: StreamFrame)
    requires Sort.Valid(st) && |st.gaps| <= 2 && st.readPosition == 0
    requires f.finBit && f.offset == 0 < tail.offset < tail.End() == f.End() < MAX_BYTE_COUNT
    requires forall x: nat :: x < MAX_BYTE_COUNT ==> (Sort.InGap(st.gaps, x) <==> !(tail.offset <= x < tail.End()))
    requires forall k :: k in st.queued ==> Sort.IsPiece(st.queued[k], tail)
    ensures Sort.FinConsistent(st, f)
    ensures forall r, st' :: Sort.Pushed(st, f, r, st') ==>
              r.Accepted? && Sort.Valid(st') && st'.readPosition == 0
              && Recv.FinAhead(st').Some? && Recv.FinAhead(st').value < f.End()
  {
    assert Sort.InGap(st.gaps, 0) && !Sort.InGap(st.gaps, f.End() - 1);
    forall r, st' | Sort.Pushed(st, f, r, st')
      ensures r.Accepted? && Sort.Valid(st') && st'.readPosition == 0
      ensures Recv.FinAhead(st').Some? && Recv.FinAhead(st').value < f.End()
    {
      assert r.Accepted?;
      Sort.GapOrder(st'.gaps, 0, 0);
      assert !Sort.InGap(st'.gaps, 0);
      var first := st'.gaps[0].start;
      assert Sort.InGap(st'.gaps, first);
      assert first != 0;
      assert 0 in st'.queued;
      assert Sort.IsPiece(st'.queued[0], f);
    }
  }

  // A run of the code in which the reader is told that the stream has ended after at most two
  // of its three bytes, although all three have arrived: the framer had cut the frame in two
  // for a retransmission, the second half arrives first and the original last.
  method PrematureEof(data: seq<byte>) returns (bytesRead: nat, outcome: Recv.ReadOutcome)
    requires |data| == 3
    ensures bytesRead < 3 && outcome.Eof?
  {
    hide Sort.Valid, Sort.Pushed, Sort.FinConsistent, Recv.Ok, Recv.FinAhead, Sort.InGap;
    var tail := StreamFrame(5, true, true, 2, 0, 0, 0, data[2..]);
    var original := StreamFrame(5, true, true, 0, 0, 0, 0, data);
    var s := new Recv.Stream();
    FirstFrame(tail);
    var ok, r := s.AddStreamFrame(tail);
    CoveringFrame(s.frameQueue.View(), original, tail);
    ok, r := s.AddStreamFrame(original);
    var p := new byte[3];
    bytesRead, outcome := s.Read(p);
  }
}
