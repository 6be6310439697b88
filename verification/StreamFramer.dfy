/**
 Cutting a stream into frames: new data from the sending streams, and lost frames that
 are cut again to fit into the space of the next packet.
 */
module StreamFramer {
  import opened MinMax
  import opened Wire
  import opened Wrappers

  // What frames carry: bytes with their place in a stream, and the end of a stream.
  datatype Item = Byte(streamID: nat, offset: nat, value: byte) | Fin(streamID: nat, offset: nat)

  ghost function DataItems(streamID: nat, offset: nat, data: seq<byte>): (items: seq<Item>)
    ensures |items| == |data|
  {
    seq(|data|, i requires 0 <= i < |data| => Byte(streamID, offset + i, data[i]))
  }

  ghost function FinItems(streamID: nat, offset: nat, fin: bool): seq<Item> {
    if fin then [Fin(streamID, offset)] else []
  }

  ghost function FrameItems(f: StreamFrame): seq<Item> {
    DataItems(f.streamID, f.offset, f.data) + FinItems(f.streamID, f.End(), f.finBit)
  }

  ghost function AllItems(fs: seq<StreamFrame>): seq<Item> {
    if fs == [] then [] else FrameItems(fs[0]) + AllItems(fs[1..])
  }

  // Space that frames take in a packet.
  function WireLength(fs: seq<StreamFrame>): nat {
    if fs == [] then 0 else fs[0].MinLength() + fs[0].DataLen() + WireLength(fs[1..])
  }

  // A frame that may be written into a packet carries data or FIN.
  ghost predicate Writable(fs: seq<StreamFrame>) {
    forall f :: f in fs ==> f.DataLen() > 0 || f.finBit
  }

  lemma {:induction false} AllItemsConcat(a: seq<StreamFrame>, b: seq<StreamFrame>)
    ensures AllItems(a + b) == AllItems(a) + AllItems(b)
  {
    if a == [] {
      assert a + b == b;
    } else {
      assert (a + b)[1..] == a[1..] + b;
      AllItemsConcat(a[1..], b);
    }
  }

  lemma {:induction false} WireLengthConcat(a: seq<StreamFrame>, b: seq<StreamFrame>)
    ensures WireLength(a + b) == WireLength(a) + WireLength(b)
  {
    if a == [] {
      assert a + b == b;
    } else {
      assert (a + b)[1..] == a[1..] + b;
      WireLengthConcat(a[1..], b);
    }
  }

  lemma AllItemsAppend(fs: seq<StreamFrame>, f: StreamFrame)
    ensures AllItems(fs + [f]) == AllItems(fs) + FrameItems(f)
    ensures WireLength(fs + [f]) == WireLength(fs) + f.MinLength() + f.DataLen()
  {
    AllItemsConcat(fs, [f]);
    WireLengthConcat(fs, [f]);
    assert [f][1..] == [];
  }

  lemma DataItemsSplit(streamID: nat, offset: nat, a: seq<byte>, b: seq<byte>)
    ensures DataItems(streamID, offset, a + b) ==
            DataItems(streamID, offset, a) + DataItems(streamID, offset + |a|, b)
  {
  }

  ghost function FramesOf(fs: seq<StreamFrame>, streamID: nat): seq<StreamFrame> {
    if fs == [] then []
    else (if fs[0].streamID == streamID then [fs[0]] else []) + FramesOf(fs[1..], streamID)
  }

  lemma {:induction false} FramesOfAppend(fs: seq<StreamFrame>, f: StreamFrame, streamID: nat)
    ensures FramesOf(fs + [f], streamID) ==
            if f.streamID == streamID then FramesOf(fs, streamID) + [f] else FramesOf(fs, streamID)
  {
    if fs == [] {
      assert [] + [f] == [f] && [f][1..] == [];
    } else {
      assert (fs + [f])[1..] == fs[1..] + [f];
      FramesOfAppend(fs[1..], f, streamID);
    }
  }

  // ---------- retransmissions ----------

  // Takes the first n bytes off the frame. Nothing happens to a frame that fits.
  function MaybeSplitOffFrame(frame: StreamFrame, n: nat): (r: (Option<StreamFrame>, StreamFrame))
    ensures r.0.None? <==> frame.DataLen() <= n
    ensures r.0.None? ==> r.1 == frame
    ensures r.0.Some? ==>
              && r.0.value.DataLen() == n
              && 0 < r.1.DataLen()
              && FrameItems(r.0.value) + FrameItems(r.1) == FrameItems(frame)
              && r.0.value.MinLength() == frame.MinLength()
              && r.0.value == frame.(finBit := false, lossCount := 0, data := r.0.value.data)
              && r.1 == frame.(offset := r.1.offset, data := r.1.data)
  {
    if frame.DataLen() <= n then (None, frame)
    else
      assert frame.data == frame.data[..n] + frame.data[n..];
      DataItemsSplit(frame.streamID, frame.offset, frame.data[..n], frame.data[n..]);
      (Some(StreamFrame(frame.streamID, false, frame.dataLenPresent, frame.offset, 0,
                        frame.pathID, frame.timeStamp, frame.data[..n])),
       frame.(data := frame.data[n..], offset := frame.offset + n))
  }

  // Frames res were taken from the queue for a packet with maxLen bytes of space.
  ghost predicate PopSpec(queue: seq<StreamFrame>, maxLen: nat, res: seq<StreamFrame>, currentLen: nat,
                          queue': seq<StreamFrame>) {
    && AllItems(res) + AllItems(queue') == AllItems(queue)
    && currentLen == WireLength(res)
    && (res != [] ==> currentLen <= maxLen)
    && (Writable(queue) ==> Writable(res) && Writable(queue'))
    && (queue' != [] ==> queue'[0].dataLenPresent && maxLen <= currentLen + queue'[0].MinLength())
    && (forall f :: f in res ==> f.dataLenPresent)
  }

  lemma AllItemsCons(f: StreamFrame, fs: seq<StreamFrame>)
    ensures AllItems([f] + fs) == FrameItems(f) + AllItems(fs)
  {
    assert ([f] + fs)[1..] == fs;
  }

  lemma Regroup(a: seq<Item>, b: seq<Item>, c: seq<Item>, d: seq<Item>)
    ensures (a + b) + (c + d) == a + ((b + c) + d)
  {
  }

  lemma NoFrames()
    ensures AllItems([]) == [] && WireLength([]) == 0 && Writable([])
    ensures forall fs: seq<StreamFrame> :: AllItems([]) + AllItems(fs) == AllItems(fs)
  {
  }

  lemma FlagStep(queue: seq<StreamFrame>)
    requires queue != []
    ensures var queue' := [queue[0].(dataLenPresent := true)] + queue[1..];
            AllItems(queue') == AllItems(queue) && (Writable(queue) ==> Writable(queue'))
  {
    var frame := queue[0].(dataLenPresent := true);
    assert ([frame] + queue[1..])[1..] == queue[1..];
    assert FrameItems(frame) == FrameItems(queue[0]);
    assert queue[0] in queue;
  }

  lemma MoveStep(res: seq<StreamFrame>, frame: StreamFrame, rest: seq<StreamFrame>)
    ensures AllItems(res + [frame]) + AllItems(rest) == AllItems(res) + AllItems([frame] + rest)
    ensures WireLength(res + [frame]) == WireLength(res) + frame.MinLength() + frame.DataLen()
    ensures Writable(res) && Writable([frame] + rest) ==> Writable(res + [frame]) && Writable(rest)
  {
    hide AllItems, FrameItems, WireLength;
    AllItemsAppend(res, frame);
    AllItemsCons(frame, rest);
    assert frame in [frame] + rest;
    assert forall f :: f in rest ==> f in [frame] + rest;
  }

  lemma SplitStep(res: seq<StreamFrame>, split: StreamFrame, remainder: StreamFrame, rest: seq<StreamFrame>,
                  frame: StreamFrame)
    requires FrameItems(split) + FrameItems(remainder) == FrameItems(frame)
    requires 0 < split.DataLen() && 0 < remainder.DataLen()
    ensures AllItems(res + [split]) + AllItems([remainder] + rest) == AllItems(res) + AllItems([frame] + rest)
    ensures WireLength(res + [split]) == WireLength(res) + split.MinLength() + split.DataLen()
    ensures Writable(res) && Writable([frame] + rest) ==> Writable(res + [split]) && Writable([remainder] + rest)
  {
    hide Writable, AllItems, FrameItems, WireLength;
    AllItemsAppend(res, split);
    AllItemsCons(remainder, rest);
    AllItemsCons(frame, rest);
    Regroup(AllItems(res), FrameItems(split), FrameItems(remainder), AllItems(rest));
    SplitWritable(res, split, remainder, rest, frame);
  }

  lemma SplitWritable(res: seq<StreamFrame>, split: StreamFrame, remainder: StreamFrame, rest: seq<StreamFrame>,
                      frame: StreamFrame)
    requires 0 < split.DataLen() && 0 < remainder.DataLen()
    ensures Writable(res) && Writable([frame] + rest) ==> Writable(res + [split]) && Writable([remainder] + rest)
  {
    assert forall f :: f in rest ==> f in [frame] + rest;
  }

  // ---------- new data ----------

  datatype SendState = SendState(
    streamID: nat,
    dataForWriting: Option<seq<byte>>,
    writeOffset: nat,
    finishedWriting: bool,
    finSent: bool)

  // What the stream still has to send.
  ghost function PendingItems(s: SendState): seq<Item> {
    var data := if s.dataForWriting.Some? then s.dataForWriting.value else [];
    DataItems(s.streamID, s.writeOffset, data)
    + FinItems(s.streamID, s.writeOffset + |data|, s.finishedWriting && !s.finSent)
  }

  class SendStream {
    const streamID: nat
    var dataForWriting: Option<seq<byte>>
    var writeOffset: nat
    var finishedWriting: bool
    var finSent: bool

    ghost function View(): SendState
      reads this
    {
      SendState(streamID, dataForWriting, writeOffset, finishedWriting, finSent)
    }

    constructor (id: nat)
      ensures View() == SendState(id, None, 0, false, false)
      ensures PendingItems(View()) == []
    {
      streamID := id;
      dataForWriting, writeOffset, finishedWriting, finSent := None, 0, false, false;
    }

    // The part of Write before it waits; it is only reached after the previous Write has returned.
    method Write(p: seq<byte>) returns (ok: bool)
      requires dataForWriting.None?
      modifies this
      ensures ok <==> !finishedWriting
      ensures PendingItems(View()) ==
              (if ok then DataItems(streamID, writeOffset, p) else []) + old(PendingItems(View()))
      ensures writeOffset == old(writeOffset) && finishedWriting == old(finishedWriting) && finSent == old(finSent)
      ensures dataForWriting == if ok && p != [] then Some(p) else None
    {
      if finishedWriting {
        return false;
      }
      if p == [] {
        return true;
      }
      dataForWriting := Some(p);
      ok := true;
    }

    method Close()
      modifies this
      ensures View() == old(View()).(finishedWriting := true)
    {
      finishedWriting := true;
    }

    method GetDataForWriting(maxBytes: nat) returns (data: Option<seq<byte>>)
      modifies this
      ensures data.None? <==> old(dataForWriting).None?
      ensures data.None? ==> View() == old(View())
      ensures data.Some? ==>
                && var len := |old(dataForWriting).value|;
                |data.value| == (if len < maxBytes then len else maxBytes)
                && data.value == old(dataForWriting).value[..|data.value|]
                && dataForWriting == (if len <= maxBytes then None else Some(old(dataForWriting).value[maxBytes..]))
                && old(PendingItems(View())) ==
                   DataItems(streamID, old(writeOffset), data.value) + PendingItems(View())
                && writeOffset == old(writeOffset) + |data.value|
                && (dataForWriting.Some? ==> |data.value| == maxBytes && dataForWriting.value != [])
                && finishedWriting == old(finishedWriting) && finSent == old(finSent)
    {
      if dataForWriting.None? {
        return None;
      }
      var pending := dataForWriting.value;
      var ret;
      if |pending| > maxBytes {
        ret := pending[..maxBytes];
        dataForWriting := Some(pending[maxBytes..]);
        assert pending == pending[..maxBytes] + pending[maxBytes..];
        DataItemsSplit(streamID, writeOffset, pending[..maxBytes], pending[maxBytes..]);
      } else {
        ret := pending;
        dataForWriting := None;
      }
      writeOffset := writeOffset + |ret|;
      data := Some(ret);
    }

    function LenOfDataForWriting(): nat
      reads this
    {
      if dataForWriting.Some? then |dataForWriting.value| else 0
    }

    predicate ShouldSendFin()
      reads this
    {
      finishedWriting && !finSent && dataForWriting.None?
    }
  }

  function PendingLength(s: SendState): nat {
    if s.dataForWriting.Some? then |s.dataForWriting.value| else 0
  }

  // The header of a frame at the write offset.
  function HeaderLength(s: SendState): nat {
    StreamFrame(s.streamID, false, true, s.writeOffset, 0, 0, 0, []).MinLength()
  }

  function FramesIn(frame: Option<StreamFrame>): seq<StreamFrame> {
    if frame.Some? then [frame.value] else []
  }

  // What the frame takes up.
  function SpaceOf(s: SendState, frame: Option<StreamFrame>): nat {
    if frame.Some? then HeaderLength(s) + frame.value.DataLen() else 0
  }

  // The frame that a stream gives to a packet with this space left.
  function FrameOf(s: SendState, space: nat, window: nat): (frame: Option<StreamFrame>)
    ensures SpaceOf(s, frame) <= space
  {
    if s.streamID == 1 || HeaderLength(s) >= space then None
    else
      var room := space - HeaderLength(s);
      var len := PendingLength(s);
      if len == 0 then
        if s.finishedWriting && !s.finSent then Some(StreamFrame(s.streamID, true, true, s.writeOffset, 0, 0, 0, []))
        else None
      else if window == 0 then None
      else
        var n := Min(len, Min(window, room));
        Some(StreamFrame(s.streamID, n == len && s.finishedWriting && !s.finSent, true, s.writeOffset, 0, 0, 0,
                         s.dataForWriting.value[..n]))
  }

  function AfterFrame(s: SendState, frame: Option<StreamFrame>): SendState {
    match frame
    case None => s
    case Some(f) =>
      var left := if f.DataLen() >= PendingLength(s) then None else Some(s.dataForWriting.value[f.DataLen()..]);
      s.(dataForWriting := left,
         writeOffset := s.writeOffset + f.DataLen(), finSent := s.finSent || f.finBit)
  }

  // Is the next stream asked?
  predicate GoesOn(s: SendState, frame: Option<StreamFrame>, space: nat) {
    if frame.Some? then HeaderLength(s) + frame.value.DataLen() != space
    else s.streamID == 1 || HeaderLength(s) <= space
  }

  // The streams asked one after the other: their frames, what they are left with, and how many are asked.
  function PopAll(views: seq<SendState>, windows: map<nat, nat>, space: nat): (seq<StreamFrame>, seq<SendState>, nat)
    requires forall k | 0 <= k < |views| :: views[k].streamID in windows
  {
    if views == [] then ([], [], 0)
    else
      var s := views[0];
      var frame := FrameOf(s, space, windows[s.streamID]);
      if !GoesOn(s, frame, space) then (FramesIn(frame), [AfterFrame(s, frame)] + views[1..], 1)
      else
        var (more, rest, n) := PopAll(views[1..], windows, space - SpaceOf(s, frame));
        (FramesIn(frame) + more, [AfterFrame(s, frame)] + rest, n + 1)
  }

  // Why a stream has no frame for a packet: it is the crypto stream, there is nothing to send,
  // no window, or no room behind the header.
  ghost predicate NotServed(s: SendState, window: nat, room: nat) {
    s.streamID == 1 || PendingItems(s) == [] || (PendingLength(s) > 0 && window == 0) || room <= HeaderLength(s)
  }

  // Exactly these reasons keep a stream from giving a frame when it is asked.
  lemma ServedExactly(s: SendState, space: nat, window: nat)
    ensures FrameOf(s, space, window).None? <==> NotServed(s, window, space)
  {
    assert PendingItems(s) == [] <==> PendingLength(s) == 0 && !(s.finishedWriting && !s.finSent) by {
      assert |PendingItems(s)| == PendingLength(s) + if s.finishedWriting && !s.finSent then 1 else 0;
    }
  }

  // What happens to one stream when a frame is taken from it.
  ghost predicate FrameTaken(s: SendState, frame: Option<StreamFrame>, space: nat, window: nat, s': SendState) {
    match frame
    case None => s' == s
    case Some(f) =>
      && PendingItems(s) == FrameItems(f) + PendingItems(s')
      && f.streamID == s.streamID == s'.streamID != 1
      && f.offset == s.writeOffset && s'.writeOffset == f.End()
      && (f.DataLen() > 0 || f.finBit)
      && f.MinLength() == HeaderLength(s) <= space
      && f.DataLen() == Min(PendingLength(s), Min(window, space - HeaderLength(s)))
      && s'.finishedWriting == s.finishedWriting && s'.finSent == (s.finSent || f.finBit)
  }

  // FIN goes out with the last data, or alone.
  lemma FinTaken(s: SendState, data: seq<byte>, mid: SendState, f: StreamFrame)
    requires PendingItems(s) == DataItems(s.streamID, s.writeOffset, data) + PendingItems(mid)
    requires mid == s.(dataForWriting := mid.dataForWriting, writeOffset := s.writeOffset + |data|)
    requires f.streamID == s.streamID && f.offset == s.writeOffset && f.data == data
    requires f.finBit == (mid.finishedWriting && !mid.finSent && mid.dataForWriting.None?)
    ensures PendingItems(s) == FrameItems(f) + PendingItems(mid.(finSent := mid.finSent || f.finBit))
  {
    if f.finBit {
      assert PendingItems(mid) == [Fin(s.streamID, mid.writeOffset)];
      assert PendingItems(mid.(finSent := true)) == [];
    }
  }

  lemma NothingPopped(s: SendState)
    ensures PendingItems(s) == AllItems(FramesOf([], s.streamID)) + PendingItems(s)
  {
  }

  lemma WritableAppend(fs: seq<StreamFrame>, f: StreamFrame)
    requires Writable(fs) && (f.DataLen() > 0 || f.finBit)
    ensures Writable(fs + [f])
  {
  }

  // One more frame f was taken, from the stream streamID or from another one.
  lemma TakenStep(items: seq<Item>, fs: seq<StreamFrame>, f: StreamFrame, streamID: nat, s: SendState, s': SendState)
    requires items == AllItems(FramesOf(fs, streamID)) + PendingItems(s)
    requires if f.streamID == streamID then PendingItems(s) == FrameItems(f) + PendingItems(s') else s' == s
    ensures items == AllItems(FramesOf(fs + [f], streamID)) + PendingItems(s')
  {
    hide AllItems, FramesOf, PendingItems, FrameItems;
    FramesOfAppend(fs, f, streamID);
    if f.streamID == streamID {
      AllItemsAppend(FramesOf(fs, streamID), f);
      assert AllItems(FramesOf(fs, streamID)) + FrameItems(f) + PendingItems(s')
          == AllItems(FramesOf(fs, streamID)) + (FrameItems(f) + PendingItems(s'));
    }
  }

  lemma NothingTaken(s: SendState)
    ensures PendingItems(s) == DataItems(s.streamID, s.writeOffset, []) + PendingItems(s)
    ensures s.dataForWriting.None? && !(s.finishedWriting && !s.finSent) ==> PendingItems(s) == []
  {
  }

  // The stream gave a frame to the packet, or there is a reason why it did not.
  ghost predicate Asked(s: SendState, window: nat, res: seq<StreamFrame>, room: nat) {
    (exists f :: f in res && f.streamID == s.streamID) || NotServed(s, window, room)
  }

  lemma AskedStill(s: SendState, window: nat, res: seq<StreamFrame>, f: StreamFrame, room: nat, room': nat)
    requires room' <= room
    ensures Asked(s, window, res, room) ==> Asked(s, window, res + [f], room')
    ensures f.streamID == s.streamID ==> Asked(s, window, res + [f], room')
  {
    hide PendingItems;
    assert f in res + [f];
    assert forall g :: g in res ==> g in res + [f];
  }

  // So it is for the first n streams.
  ghost predicate AskedUpTo(views: seq<SendState>, n: nat, windows: map<nat, nat>, res: seq<StreamFrame>, room: nat) {
    && n <= |views|
    && forall k | 0 <= k < n ::
         views[k].streamID in windows && Asked(views[k], windows[views[k].streamID], res, room)
  }

  ghost function Views(order: seq<SendStream>): seq<SendState>
    reads order
  {
    seq(|order|, k requires 0 <= k < |order| reads order => order[k].View())
  }

  ghost predicate WindowsOf(views: seq<SendState>, windows: map<nat, nat>) {
    forall k | 0 <= k < |views| :: views[k].streamID in windows
  }

  // The streams were asked one after the other.
  ghost predicate IsPopped(before: seq<SendState>, windows: map<nat, nat>, space: nat, res: seq<StreamFrame>,
                           views: seq<SendState>, asked: nat) {
    WindowsOf(before, windows) && PopAll(before, windows, space) == (res, views, asked)
  }

  // The streams from i on are still to be asked.
  ghost predicate PoppedSoFar(before: seq<SendState>, windows: map<nat, nat>, space: nat, views: seq<SendState>, i: nat,
                              res: seq<StreamFrame>, room: nat) {
    && WindowsOf(before, windows) && i <= |before| == |views| && views[i..] == before[i..]
    && var (more, rest, n) := PopAll(before[i..], windows, room);
       PopAll(before, windows, space) == (res + more, views[..i] + rest, i + n)
  }

  lemma PoppedMore(before: seq<SendState>, windows: map<nat, nat>, space: nat, views: seq<SendState>, i: nat,
                   res: seq<StreamFrame>, room: nat)
    requires PoppedSoFar(before, windows, space, views, i, res, room) && i < |views|
    ensures views[i].streamID in windows
    ensures var s := views[i];
            var frame := FrameOf(s, room, windows[s.streamID]);
            var views' := views[i := AfterFrame(s, frame)];
            if GoesOn(s, frame, room) then
              PoppedSoFar(before, windows, space, views', i + 1, res + FramesIn(frame), room - SpaceOf(s, frame))
            else IsPopped(before, windows, space, res + FramesIn(frame), views', i + 1)
  {
    hide FrameOf, AfterFrame, GoesOn, SpaceOf, FramesIn;
    var s, rest := views[i], before[i..];
    assert s == rest[0] == before[i] && rest[1..] == before[i + 1..];
    var frame := FrameOf(s, room, windows[s.streamID]);
    var views' := views[i := AfterFrame(s, frame)];
    assert views'[i + 1..] == before[i + 1..] by {
      assert views'[i + 1..] == views[i..][1..];
    }
    assert views'[..i + 1] == views[..i] + [AfterFrame(s, frame)];
    assert views' == views[..i] + ([AfterFrame(s, frame)] + rest[1..]);
    if GoesOn(s, frame, room) {
      var (more, later, n) := PopAll(before[i + 1..], windows, room - SpaceOf(s, frame));
      assert PopAll(rest, windows, room) == (FramesIn(frame) + more, [AfterFrame(s, frame)] + later, n + 1);
      assert res + (FramesIn(frame) + more) == (res + FramesIn(frame)) + more;
      assert views[..i] + ([AfterFrame(s, frame)] + later) == views'[..i + 1] + later;
    }
  }

  lemma PoppedLast(before: seq<SendState>, windows: map<nat, nat>, space: nat, views: seq<SendState>, i: nat,
                   res: seq<StreamFrame>, room: nat)
    requires PoppedSoFar(before, windows, space, views, i, res, room) && i == |views|
    ensures IsPopped(before, windows, space, res, views, i)
  {
    assert before[i..] == [] && views[..i] + [] == views && res + [] == res;
  }

  lemma PoppedNone(before: seq<SendState>, windows: map<nat, nat>, space: nat)
    requires WindowsOf(before, windows)
    ensures PoppedSoFar(before, windows, space, before, 0, [], space)
  {
    var (more, rest, n) := PopAll(before, windows, space);
    assert before[0..] == before && before[..0] + rest == rest && [] + more == more;
  }

  ghost predicate Different(views: seq<SendState>) {
    forall i, j | 0 <= i < j < |views| :: views[i].streamID != views[j].streamID
  }

  // Every stream has lost exactly what its frames carry.
  ghost predicate Conserved(before: seq<SendState>, res: seq<StreamFrame>, views: seq<SendState>) {
    && |before| == |views|
    && forall k | 0 <= k < |views| ::
         && views[k].streamID == before[k].streamID
         && PendingItems(before[k]) == AllItems(FramesOf(res, views[k].streamID)) + PendingItems(views[k])
  }

  lemma NoneTaken(views: seq<SendState>)
    ensures Conserved(views, [], views)
  {
    hide PendingItems;
    forall k | 0 <= k < |views|
      ensures PendingItems(views[k]) == AllItems(FramesOf([], views[k].streamID)) + PendingItems(views[k])
    {
      NothingPopped(views[k]);
    }
  }

  // A frame of stream i is added.
  lemma OneTaken(before: seq<SendState>, res: seq<StreamFrame>, views: seq<SendState>, i: nat, f: StreamFrame,
                 s': SendState)
    requires Conserved(before, res, views) && Different(views) && i < |views|
    requires f.streamID == views[i].streamID == s'.streamID
             && PendingItems(views[i]) == FrameItems(f) + PendingItems(s')
    ensures Conserved(before, res + [f], views[i := s'])
  {
    hide PendingItems, AllItems, FramesOf, FrameItems;
    forall k | 0 <= k < |views|
      ensures PendingItems(before[k])
              == AllItems(FramesOf(res + [f], views[k].streamID)) + PendingItems(views[i := s'][k])
    {
      TakenStep(PendingItems(before[k]), res, f, views[k].streamID, views[k], views[i := s'][k]);
    }
  }

  lemma OneAsked(views: seq<SendState>, windows: map<nat, nat>, res: seq<StreamFrame>, room: nat, i: nat,
                 f: StreamFrame, s': SendState, room': nat)
    requires AskedUpTo(views, i, windows, res, room) && i < |views| && views[i].streamID in windows && room' <= room
    requires f.streamID == views[i].streamID == s'.streamID
    ensures AskedUpTo(views[i := s'], i + 1, windows, res + [f], room')
  {
    hide NotServed, Asked;
    forall k | 0 <= k <= i
      ensures Asked(views[i := s'][k], windows[views[k].streamID], res + [f], room')
    {
      AskedStill(views[i := s'][k], windows[views[k].streamID], res, f, room, room');
    }
  }

  // The streams are different ones, and none holds an empty slice of data.
  ghost predicate Askable(order: seq<SendStream>, windows: map<nat, nat>)
    reads order
  {
    && (forall i, j | 0 <= i < j < |order| :: order[i] != order[j] && order[i].streamID != order[j].streamID)
    && (forall i | 0 <= i < |order| :: order[i].streamID in windows)
    && (forall i | 0 <= i < |order| :: order[i].dataForWriting != Some([]))
  }

  lemma AskableWindows(order: seq<SendStream>, windows: map<nat, nat>)
    requires Askable(order, windows)
    ensures WindowsOf(Views(order), windows)
  {
  }

  lemma NoneAsked(views: seq<SendState>, windows: map<nat, nat>, room: nat)
    ensures AskedUpTo(views, 0, windows, [], room)
  {
  }

  lemma NotAsked(s: SendState, window: nat, res: seq<StreamFrame>, room: nat)
    ensures NotServed(s, window, room) ==> Asked(s, window, res, room)
  {
  }

  class Framer {
    var retransmissionQueue: seq<StreamFrame>

    constructor ()
      ensures retransmissionQueue == []
    {
      retransmissionQueue := [];
    }

    method AddFrameForRetransmission(frame: StreamFrame)
      modifies this
      ensures retransmissionQueue == old(retransmissionQueue) + [frame]
      ensures AllItems(retransmissionQueue) == old(AllItems(retransmissionQueue)) + FrameItems(frame)
    {
      AllItemsAppend(retransmissionQueue, frame);
      retransmissionQueue := retransmissionQueue + [frame];
    }

    method MaybePopFramesForRetransmission(maxLen: nat) returns (res: seq<StreamFrame>, currentLen: nat)
      modifies this
      ensures PopSpec(old(retransmissionQueue), maxLen, res, currentLen, retransmissionQueue)
    {
      hide AllItems, FrameItems, WireLength, Writable;
      ghost var queue := retransmissionQueue;
      NoFrames();
      res, currentLen := [], 0;
      while retransmissionQueue != []
        invariant AllItems(res) + AllItems(retransmissionQueue) == AllItems(queue)
        invariant currentLen == WireLength(res)
        invariant res != [] ==> currentLen <= maxLen
        invariant Writable(queue) ==> Writable(res) && Writable(retransmissionQueue)
        invariant forall f :: f in res ==> f.dataLenPresent
        decreases |retransmissionQueue|
      {
        var frame := retransmissionQueue[0].(dataLenPresent := true);
        ghost var rest := retransmissionQueue[1..];
        FlagStep(retransmissionQueue);
        retransmissionQueue := [frame] + retransmissionQueue[1..];
        var frameHeaderLen := frame.MinLength();
        if currentLen + frameHeaderLen >= maxLen {
          break;
        }
        currentLen := currentLen + frameHeaderLen;

        var (split, remainder) := MaybeSplitOffFrame(frame, maxLen - currentLen);
        if split.Some? {
          SplitStep(res, split.value, remainder, rest, frame);
          retransmissionQueue := [remainder] + retransmissionQueue[1..];
          res := res + [split.value];
          currentLen := currentLen + split.value.DataLen();
          break;
        }
        MoveStep(res, frame, rest);
        retransmissionQueue := retransmissionQueue[1..];
        res := res + [frame];
        currentLen := currentLen + frame.DataLen();
      }
    }

    // The frame that one stream puts into the rest of the packet; cont says whether to ask the next stream.
    method PopFrameFrom(s: SendStream, space: nat, window: nat) returns (cont: bool, frame: Option<StreamFrame>)
      requires s.dataForWriting != Some([])
      modifies s
      ensures FrameTaken(old(s.View()), frame, space, window, s.View())
      ensures frame == FrameOf(old(s.View()), space, window) && s.View() == AfterFrame(old(s.View()), frame)
      ensures cont <==> GoesOn(old(s.View()), frame, space)
      ensures s.dataForWriting != Some([])
      ensures frame.None? ==> NotServed(s.View(), window, space)
      ensures !cont <==> if frame.Some? then frame.value.MinLength() + frame.value.DataLen() == space
                         else s.streamID != 1 && space < HeaderLength(s.View())
    {
      hide PendingItems, FrameItems, DataItems;
      if s.streamID == 1 {
        return true, None;
      }
      ghost var before := s.View();
      NothingTaken(before);
      var f := StreamFrame(s.streamID, false, true, s.writeOffset, 0, 0, 0, []);
      var frameHeaderBytes := f.MinLength();
      if frameHeaderBytes > space {
        return false, None;
      }
      var maxLen := space - frameHeaderBytes;
      var lenStreamData := s.LenOfDataForWriting();
      if lenStreamData != 0 {
        maxLen := if window < maxLen then window else maxLen;
      }
      if maxLen == 0 {
        return true, None;
      }
      var data := None;
      if lenStreamData != 0 {
        data := s.GetDataForWriting(maxLen);
      }
      var shouldSendFin := s.ShouldSendFin();
      if data.None? && !shouldSendFin {
        return true, None;
      }
      if shouldSendFin {
        f := f.(finBit := true);
        s.finSent := true;
      }
      f := f.(data := if data.Some? then data.value else []);
      FinTaken(before, f.data, s.View().(finSent := before.finSent), f);
      cont := frameHeaderBytes + f.DataLen() != space;
      frame := Some(f);
    }

    // Asks the streams for new data, in the order of the scheduler.
    method MaybePopNormalFrames(maxBytes: nat, order: seq<SendStream>, windows: map<nat, nat>)
      returns (res: seq<StreamFrame>, asked: nat)
      requires Askable(order, windows)
      modifies order
      ensures WireLength(res) <= maxBytes && Writable(res) && asked <= |order|
      ensures IsPopped(old(Views(order)), windows, maxBytes, res, Views(order), asked)
      ensures Conserved(old(Views(order)), res, Views(order))
      ensures AskedUpTo(Views(order), asked, windows, res, maxBytes - WireLength(res))
      ensures asked < |order| ==>
                asked > 0 && (WireLength(res) == maxBytes
                              || maxBytes - WireLength(res) < HeaderLength(Views(order)[asked - 1]))
    {
      hide PendingItems, AllItems, WireLength, Writable, FramesOf, FrameItems, NotServed, HeaderLength, Conserved,
           Asked, AskedUpTo, SendStream.View, Askable, PopAll, IsPopped, PoppedSoFar, FrameOf, AfterFrame, GoesOn,
           SpaceOf, FramesIn;
      NoFrames();
      res, asked := [], 0;
      var currentLen := 0;
      ghost var before := Views(order);
      ghost var views := before;
      NoneTaken(before);
      NoneAsked(before, windows, maxBytes);
      AskableWindows(order, windows);
      PoppedNone(before, windows, maxBytes);
      while asked < |order|
        invariant asked <= |order| && views == Views(order) && Askable(order, windows)
        invariant WireLength(res) == currentLen <= maxBytes && Writable(res)
        invariant Conserved(before, res, views)
        invariant AskedUpTo(views, asked, windows, res, maxBytes - currentLen)
        invariant PoppedSoFar(before, windows, maxBytes, views, asked, res, maxBytes - currentLen)
        decreases |order| - asked
      {
        var cont;
        ghost var room := maxBytes - currentLen;
        ghost var last, got := views, res;
        cont, res, currentLen := PopNext(maxBytes, currentLen, order, asked, windows, res, before);
        views := Views(order);
        PoppedMore(before, windows, maxBytes, last, asked, got, room);
        asked := asked + 1;
        if !cont {
          return;
        }
      }
      PoppedLast(before, windows, maxBytes, views, asked, res, maxBytes - currentLen);
    }

    // One turn of that loop.
    method PopNext(maxBytes: nat, currentLen: nat, order: seq<SendStream>, i: nat, windows: map<nat, nat>,
                   res: seq<StreamFrame>, ghost before: seq<SendState>)
      returns (cont: bool, res': seq<StreamFrame>, currentLen': nat)
      requires Askable(order, windows) && i < |order|
      requires WireLength(res) == currentLen <= maxBytes && Writable(res) && Conserved(before, res, Views(order))
      requires AskedUpTo(Views(order), i, windows, res, maxBytes - currentLen)
      modifies order[i]
      ensures Askable(order, windows) && WireLength(res') == currentLen' <= maxBytes && Writable(res')
      ensures Conserved(before, res', Views(order))
      ensures AskedUpTo(Views(order), i + 1, windows, res', maxBytes - currentLen')
      ensures !cont ==> currentLen' == maxBytes || maxBytes - currentLen' < HeaderLength(Views(order)[i])
      ensures var s := old(Views(order))[i];
              var frame := FrameOf(s, maxBytes - currentLen, windows[s.streamID]);
              && Views(order) == old(Views(order))[i := AfterFrame(s, frame)]
              && res' == res + FramesIn(frame) && currentLen' == currentLen + SpaceOf(s, frame)
              && (cont <==> GoesOn(s, frame, maxBytes - currentLen))
    {
      hide PendingItems, AllItems, WireLength, Writable, FramesOf, FrameItems, NotServed, HeaderLength, Conserved,
           Asked, FrameOf, AfterFrame, GoesOn;
      res', currentLen' := res, currentLen;
      ghost var views := Views(order);
      var s := order[i];
      var frame;
      cont, frame := PopFrameFrom(s, maxBytes - currentLen, windows[s.streamID]);
      assert Views(order) == views[i := s.View()];
      if frame.Some? {
        var f := frame.value;
        OneTaken(before, res, views, i, f, s.View());
        currentLen' := currentLen + f.MinLength() + f.DataLen();
        OneAsked(views, windows, res, maxBytes - currentLen, i, f, s.View(), maxBytes - currentLen');
        WritableAppend(res, f);
        AllItemsAppend(res, f);
        res' := res + [f];
      } else {
        assert Views(order) == views;
        NotAsked(s.View(), windows[s.streamID], res, maxBytes - currentLen);
      }
    }

    // Retransmissions first, then new data in the space that is left.
    method PopStreamFrames(maxLen: nat, order: seq<SendStream>, windows: map<nat, nat>)
      returns (res: seq<StreamFrame>, asked: nat, ghost retransmitted: seq<StreamFrame>, ghost added: seq<StreamFrame>)
      requires Askable(order, windows)
      modifies this, order
      ensures res == retransmitted + added && WireLength(res) == WireLength(retransmitted) + WireLength(added) <= maxLen
      ensures PopSpec(old(retransmissionQueue), maxLen, retransmitted, WireLength(retransmitted), retransmissionQueue)
      ensures Writable(added) && Conserved(old(Views(order)), added, Views(order))
      ensures asked <= |order| && AskedUpTo(Views(order), asked, windows, added, maxLen - WireLength(res))
      ensures asked < |order| ==>
                asked > 0 && (WireLength(res) == maxLen
                              || maxLen - WireLength(res) < HeaderLength(Views(order)[asked - 1]))
    {
      hide PendingItems, AllItems, WireLength, Writable, FramesOf, FrameItems, Conserved, AskedUpTo, PopAll,
           HeaderLength;
      NoFrames();
      var fs, currentLen := MaybePopFramesForRetransmission(maxLen);
      ghost var before := Views(order);
      var more, n := MaybePopNormalFrames(maxLen - currentLen, order, windows);
      WireLengthConcat(fs, more);
      res, asked, retransmitted, added := fs + more, n, fs, more;
    }
  }
}
