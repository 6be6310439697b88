/**
 Filling packets: the framer asks the streams for data in the order in which the streams map hands them out
 (maybePopNormalFrames in stream_framer.go is the function that it gives to RoundRobinIterate).
 */
module PacketFiller {
  import opened Wire
  import opened Wrappers
  import opened Modulo
  import opened Partitions
  import opened StreamFramer
  import Map = StreamsMap

  // Places a and b of a ring are the same only if a round lies between them.
  lemma PlacesDiffer(a: nat, b: nat, start: nat, n: nat)
    requires a < b < n
    ensures (a + start) % n != (b + start) % n
  {
    var p := (a + start) % n;
    Shift(a + start, b - a, n);
    assert a + start + (b - a) == b + start;
    if p + (b - a) < n {
      Small(p + (b - a), n);
    } else {
      Unique(p + (b - a), n, 1, p + (b - a) - n);
    }
  }

  // The stream j places after the start.
  function StreamAt(open: seq<nat>, start: nat, j: nat): nat
    requires open != []
  {
    open[(j + start) % |open|]
  }

  lemma {:induction false} OthersFrom(open: seq<nat>, start: nat, i: nat, id: nat)
    requires id in Map.Others(open, start, i)
    ensures open != [] && !Map.IsFirst(id)
    ensures exists j: nat :: i <= j < |open| && StreamAt(open, start, j) == id
    decreases |open| - i
  {
    OthersHead(open, start, i);
    if id != StreamAt(open, start, i) || Map.IsFirst(id) {
      OthersFrom(open, start, i + 1, id);
    }
  }

  lemma OthersHead(open: seq<nat>, start: nat, i: nat)
    ensures i >= |open| ==> Map.Others(open, start, i) == []
    ensures i < |open| ==>
              Map.Others(open, start, i) == if Map.IsFirst(StreamAt(open, start, i)) then Map.Others(open, start, i + 1)
                                            else [StreamAt(open, start, i)] + Map.Others(open, start, i + 1)
  {
  }

  lemma {:induction false} OthersDistinct(open: seq<nat>, start: nat, i: nat)
    requires Distinct(open)
    ensures Distinct(Map.Others(open, start, i))
    decreases |open| - i
  {
    hide Map.Others;
    OthersHead(open, start, i);
    if i < |open| {
      var id, rest := StreamAt(open, start, i), Map.Others(open, start, i + 1);
      OthersDistinct(open, start, i + 1);
      if id in rest {
        OthersFrom(open, start, i + 1, id);
        var j: nat :| i + 1 <= j < |open| && StreamAt(open, start, j) == id;
        SamePlace(open, start, i, j);
      }
      DistinctCons(id, rest);
    }
  }

  lemma SamePlace(open: seq<nat>, start: nat, i: nat, j: nat)
    requires Distinct(open) && i < j < |open|
    ensures StreamAt(open, start, i) != StreamAt(open, start, j)
  {
    PlacesDiffer(i, j, start, |open|);
  }

  lemma DistinctCons(id: nat, rest: seq<nat>)
    requires Distinct(rest)
    ensures id !in rest ==> Distinct([id] + rest)
  {
  }

  // Every open stream comes once in the order of a round.
  lemma RoundDistinct(open: seq<nat>, start: nat)
    requires Distinct(open)
    ensures Distinct(Map.RoundOrder(open, start))
    ensures forall id | id in Map.RoundOrder(open, start) :: id in open
  {
    hide Map.Others;
    OthersDistinct(open, start, 0);
    forall id | id in Map.Others(open, start, 0) ensures id in open && !Map.IsFirst(id) {
      OthersFrom(open, start, 0, id);
    }
  }

  // What the framer answers: Stop when the packet is full or a header has no room.
  function Answer(ids: seq<nat>, asked: nat): nat -> Map.Verdict {
    id => if 0 < asked < |ids| && id == ids[asked - 1] then Map.Stop else Map.Continue
  }

  // With these answers, the streams visited are those that the framer has asked.
  lemma {:induction false} VisitsAsked(ids: seq<nat>, asked: nat, fn: nat -> Map.Verdict)
    requires Distinct(ids) && asked <= |ids| && (asked == 0 ==> ids == [])
    requires forall k | 0 <= k < |ids| ::
               fn(ids[k]) == if k == asked - 1 && asked < |ids| then Map.Stop else Map.Continue
    ensures Map.Until(ids, fn) == ids[..asked]
    decreases |ids|
  {
    if asked > 0 {
      if asked > 1 || |ids| == 1 {
        assert forall k | 0 <= k < |ids| - 1 :: ids[1..][k] == ids[k + 1];
        VisitsAsked(ids[1..], asked - 1, fn);
        assert ids[..asked] == [ids[0]] + ids[1..][..asked - 1];
      } else {
        assert ids[..1] == [ids[0]];
      }
    }
  }

  // Every open stream has a sending side of its own, and a send window.
  ghost predicate Linked(open: seq<nat>, streams: map<nat, SendStream>, windows: map<nat, nat>)
    reads set id | id in streams :: streams[id]
  {
    forall id | id in open ::
      id in streams && streams[id].streamID == id && id in windows && streams[id].dataForWriting != Some([])
  }

  function InOrder(ids: seq<nat>, streams: map<nat, SendStream>): (order: seq<SendStream>)
    requires forall id | id in ids :: id in streams
    ensures |order| == |ids|
    ensures forall k | 0 <= k < |ids| :: order[k] == streams[ids[k]]
  {
    seq(|ids|, k requires 0 <= k < |ids| => streams[ids[k]])
  }

  lemma OrderAskable(open: seq<nat>, ids: seq<nat>, streams: map<nat, SendStream>, windows: map<nat, nat>)
    requires Linked(open, streams, windows) && Distinct(ids) && forall id | id in ids :: id in open
    ensures forall id | id in ids :: id in streams
    ensures Askable(InOrder(ids, streams), windows)
    ensures forall k | 0 <= k < |ids| :: InOrder(ids, streams)[k].streamID == ids[k]
  {
    forall k | 0 <= k < |ids| ensures ids[k] in open {
      assert ids[k] in ids;
    }
  }

  // One packet: the round of the scheduler, the streams after it in the order of the round, the frames, and the
  // room that is left.
  datatype Fill = Fill(round: Map.Round, views: seq<SendState>, windows: map<nat, nat>, res: seq<StreamFrame>,
                       room: nat)

  // Stream k of the round gave a frame, or there is a reason why it did not.
  ghost predicate AskedAt(p: Fill, k: nat) {
    && k < |p.round.visited| && k < |p.views| && p.views[k].streamID == p.round.visited[k]
    && p.round.visited[k] in p.windows && Asked(p.views[k], p.windows[p.round.visited[k]], p.res, p.room)
  }

  ghost predicate IsFill(open: seq<nat>, p: Fill) {
    && (open != [] ==> Map.ServesAdvance(open, p.round))
    && forall k | 0 <= k < |p.round.visited| :: AskedAt(p, k)
  }

  // The streams are asked in the order of the round, as far as the framer goes. Unless it stops at stream 1
  // or 3, the index moves on by the number of others asked.
  ghost predicate FillSpec(open: seq<nat>, start: nat, before: seq<SendState>, windows: map<nat, nat>, maxBytes: nat,
                           index: nat, p: Fill) {
    var ids, n := Map.RoundOrder(open, start), |p.round.visited|;
    && WindowsOf(before, windows) && (p.res, p.views, n) == PopAll(before, windows, maxBytes)
    && n <= |ids| && p.round.visited == ids[..n] && p.round.start == start && p.windows == windows
    && (n > |Map.Firsts(open)| || n == |ids| ==> IsFill(open, p) && MovesOn(open, p.round, index))
  }

  // The index after a round that got past streams 1 and 3.
  ghost predicate MovesOn(open: seq<nat>, r: Map.Round, index: nat) {
    && r.advance == |r.visited| - |Map.Firsts(open)|
    && (if r.advance == 0 then index == r.start else index < |open|)
    && (open != [] ==> Map.ServesAdvance(open, r) && index % |open| == (r.start + r.advance) % |open|)
  }

  // Fills a packet with new data.
  method FillPacket(m: Map.StreamsMap, f: Framer, streams: map<nat, SendStream>, windows: map<nat, nat>, maxBytes: nat)
    returns (res: seq<StreamFrame>, asked: seq<nat>, ghost p: Fill)
    requires Map.Inv(m.View()) && Linked(m.openStreams, streams, windows)
    requires forall id | id in Map.RoundOrder(m.openStreams, m.roundRobinIndex) :: id in streams
    modifies m`roundRobinIndex, set id | id in streams :: streams[id]
    ensures Map.Inv(m.View()) && m.openStreams == old(m.openStreams) && p.res == res && p.round.visited == asked
    ensures var order := InOrder(Map.RoundOrder(m.openStreams, old(m.roundRobinIndex)), streams);
            && p.views == Views(order)
            && FillSpec(m.openStreams, old(m.roundRobinIndex), old(Views(order)), windows, maxBytes,
                        m.roundRobinIndex, p)
  {
    hide Map.Inv, Map.RoundOrder, Map.Others, Map.Until, Map.ServesAdvance, PopAll, AskedUpTo, Conserved, AllItems,
         WireLength, Writable, HeaderLength, FillSpec, Linked, Views, Askable, WindowsOf, MovesOn;
    var open, start := m.openStreams, m.roundRobinIndex;
    var ids := Map.RoundOrder(open, start);
    RoundIds(m.View());
    OrderAskable(open, ids, streams, windows);
    var order := InOrder(ids, streams);
    ghost var before := Views(order);
    var n;
    res, n := f.MaybePopNormalFrames(maxBytes, order, windows);
    ghost var after := Views(order);
    SameIDs(order, ids, after);
    ghost var advance := MoveOn(m, ids, n);
    asked := ids[..n];
    p := Fill(Map.Round(start, advance, asked), after, windows, res, maxBytes - WireLength(res));
    Filled(open, start, before, windows, maxBytes, m.roundRobinIndex, p);
  }

  // The round of the scheduler in which the first n streams are asked.
  method MoveOn(m: Map.StreamsMap, ids: seq<nat>, n: nat) returns (ghost advance: nat)
    requires Map.Inv(m.View()) && ids == Map.RoundOrder(m.openStreams, m.roundRobinIndex)
    requires Distinct(ids) && n <= |ids| && (n == 0 ==> ids == [])
    modifies m`roundRobinIndex
    ensures Map.Inv(m.View()) && m.openStreams == old(m.openStreams)
    ensures n > |Map.Firsts(m.openStreams)| || n == |ids| ==>
              MovesOn(m.openStreams, Map.Round(old(m.roundRobinIndex), advance, ids[..n]), m.roundRobinIndex)
  {
    hide Map.Inv, Map.RoundOrder, Map.Until, Map.ServesAdvance, Map.AllContinue, Map.UntilRefused, Answer, Map.IsFirst;
    var fn := Answer(ids, n);
    Answers(ids, n);
    VisitsAsked(ids, n, fn);
    FirstsPass(m.openStreams, m.roundRobinIndex, n);
    NeverFails(ids, n);
    Map.FirstOpen(m.View());
    var visited, failed;
    visited, failed, advance := m.RoundRobinIterate(fn);
  }

  lemma NeverFails(ids: seq<nat>, asked: nat)
    ensures forall id :: Answer(ids, asked)(id) != Map.Fail
  {
  }

  lemma SameIDs(order: seq<SendStream>, ids: seq<nat>, views: seq<SendState>)
    requires |order| == |ids| && views == Views(order) && forall k | 0 <= k < |ids| :: order[k].streamID == ids[k]
    ensures |views| == |ids| && forall k | 0 <= k < |ids| :: views[k].streamID == ids[k]
  {
  }

  lemma Filled(open: seq<nat>, start: nat, before: seq<SendState>, windows: map<nat, nat>, maxBytes: nat, index: nat,
               p: Fill)
    requires var ids, n := Map.RoundOrder(open, start), |p.round.visited|;
             && WindowsOf(before, windows) && (p.res, p.views, n) == PopAll(before, windows, maxBytes)
             && n <= |ids| == |p.views| && p.round.visited == ids[..n] && p.round.start == start && p.windows == windows
             && (forall k | 0 <= k < |ids| :: p.views[k].streamID == ids[k])
             && AskedUpTo(p.views, n, windows, p.res, p.room)
             && (n > |Map.Firsts(open)| || n == |ids| ==> MovesOn(open, p.round, index))
    ensures FillSpec(open, start, before, windows, maxBytes, index, p)
  {
    hide Map.RoundOrder, PopAll, Map.ServesAdvance, Asked;
    forall k | 0 <= k < |p.round.visited| ensures AskedAt(p, k) {
    }
  }

  // Streams 1 and 3 let the round go on if the framer goes on behind them.
  lemma FirstsPass(open: seq<nat>, start: nat, asked: nat)
    requires asked <= |Map.RoundOrder(open, start)| && Distinct(Map.RoundOrder(open, start))
    ensures asked > |Map.Firsts(open)| || asked == |Map.RoundOrder(open, start)| ==>
              var fn := Answer(Map.RoundOrder(open, start), asked);
              (1 in open ==> fn(1) == Map.Continue) && (3 in open ==> fn(3) == Map.Continue)
  {
    hide Map.Others;
    var ids := Map.RoundOrder(open, start);
    if 1 in open {
      assert ids[0] == 1;
    }
    if 3 in open {
      assert ids[|Map.Firsts(open)| - 1] == 3;
    }
  }

  lemma RoundIds(st: Map.State)
    requires Map.Inv(st)
    ensures Distinct(Map.RoundOrder(st.openStreams, st.roundRobinIndex))
    ensures forall id | id in Map.RoundOrder(st.openStreams, st.roundRobinIndex) :: id in st.openStreams
  {
    hide Map.RoundOrder;
    RoundDistinct(st.openStreams, st.roundRobinIndex);
  }

  lemma Answers(ids: seq<nat>, asked: nat)
    requires Distinct(ids) && asked <= |ids|
    ensures forall k | 0 <= k < |ids| ::
              Answer(ids, asked)(ids[k]) == if k == asked - 1 && asked < |ids| then Map.Stop else Map.Continue
  {
  }

  // As many packets in a row as there are open streams ask every stream but 1 and 3 for data, whatever is
  // written in between: it gives a frame, or has nothing to send, no window, or no room behind its header.
  lemma EveryStreamAsked(open: seq<nat>, fills: seq<Fill>, id: nat)
    requires id in open && !Map.IsFirst(id) && |fills| >= |open|
             && forall t | 0 <= t < |fills| :: IsFill(open, fills[t])
    requires forall t | 0 < t < |fills| :: Map.Follows(|open|, fills[t - 1].round, fills[t].round)
    ensures exists t, k :: 0 <= t < |fills| && 0 <= k < |fills[t].round.visited|
                           && fills[t].round.visited[k] == id && AskedAt(fills[t], k)
  {
    hide Map.ServesAdvance, AskedAt, Map.Follows;
    var rounds := seq(|fills|, t requires 0 <= t < |fills| => fills[t].round);
    Map.Fairness(open, rounds, id);
    var t :| 0 <= t < |rounds| && id in rounds[t].visited;
    var k :| 0 <= k < |rounds[t].visited| && rounds[t].visited[k] == id;
    assert AskedAt(fills[t], k);
  }

  // ---------- a stream that is never served ----------

  const PACKET := 100

  const CHUNK: seq<byte> := seq(75, _ => 0)

  // Stream 2 sends its chunk, and leaves no room for a header of stream 4, which is asked all the same.
  lemma NoRoomLeft(first: SendState, second: SendState, windows: map<nat, nat>)
    requires first.streamID == 2 && first.dataForWriting == Some(CHUNK) && !first.finishedWriting
    requires second == SendState(4, Some([1]), 0, false, false)
    requires 2 in windows && 4 in windows && windows[2] >= 75
    ensures var all := PopAll([first, second], windows, PACKET);
            && all.0 == FramesIn(FrameOf(first, PACKET, windows[2])) && all.2 == 2
            && all.1 == [first.(dataForWriting := None, writeOffset := first.writeOffset + 75), second]
  {
    assert [first, second][1..] == [second];
    assert CHUNK[..75] == CHUNK;
    var frame := FrameOf(first, PACKET, windows[2]);
    assert HeaderLength(first) <= 22 && HeaderLength(second) == 14;
    assert GoesOn(first, frame, PACKET);
    var room := PACKET - SpaceOf(first, frame);
    assert FrameOf(second, room, windows[4]) == None && !GoesOn(second, None, room);
    assert PopAll([second], windows, room) == ([], [second], 1) by {
      assert [second][1..] == [] && [second] + [] == [second];
    }
    var after := AfterFrame(first, frame);
    assert after == first.(dataForWriting := None, writeOffset := first.writeOffset + 75);
    var (frames, views, asked) := PopAll([first, second], windows, PACKET);
    assert frames == FramesIn(frame) + [] && views == [after] + [second] && asked == 2;
  }

  // So the index is where it was after the packet.
  lemma AfterOne(first: SendState, second: SendState, windows: map<nat, nat>, index: nat, p: Fill)
    requires first.streamID == 2 && first.dataForWriting == Some(CHUNK) && !first.finishedWriting
    requires second == SendState(4, Some([1]), 0, false, false)
    requires 2 in windows && 4 in windows && windows[2] >= 75
    requires FillSpec([2, 4], 0, [first, second], windows, PACKET, index, p)
    ensures index == 0 && p.views == [first.(dataForWriting := None, writeOffset := first.writeOffset + 75), second]
  {
    hide PopAll, IsFill, Map.ServesAdvance, Map.RoundOrder, Map.Firsts;
    NoRoomLeft(first, second, windows);
    TwoInOrder();
    assert p.round.advance == 2 && index < 2 && index % 2 == 0;
  }

  lemma TwoInOrder()
    ensures Map.RoundOrder([2, 4], 0) == [2, 4] && Map.Firsts([2, 4]) == []
  {
    assert Map.Others([2, 4], 0, 2) == [];
    assert Map.Others([2, 4], 0, 1) == [4];
    assert Map.Others([2, 4], 0, 0) == [2] + [4];
  }

  // The application writes a chunk to stream 2 before every packet, and one byte to stream 4 once: the byte is
  // never sent, whatever the number of packets.
  method NeverServed(packets: nat) returns (left: Option<seq<byte>>)
    ensures left == Some([1])
  {
    hide Map.Inv, FillSpec, Views, PopAll, Linked;
    var m := new Map.StreamsMap(true, 10, 10);
    var _ := m.OpenStream();
    var _ := m.OpenStream();
    var f := new Framer();
    var first := new SendStream(2);
    var second := new SendStream(4);
    var _ := second.Write([1]);
    var streams := map[2 := first, 4 := second];
    var i := 0;
    while i < packets
      invariant i <= packets && Map.Inv(m.View()) && m.openStreams == [2, 4] && m.roundRobinIndex == 0
      invariant first.dataForWriting == None && !first.finishedWriting
      invariant second.View() == SendState(4, Some([1]), 0, false, false)
    {
      var _ := first.Write(CHUNK);
      OnePacket(m, f, first, second, streams);
      i := i + 1;
    }
    left := second.dataForWriting;
  }

  method OnePacket(m: Map.StreamsMap, f: Framer, first: SendStream, second: SendStream, streams: map<nat, SendStream>)
    requires Map.Inv(m.View()) && m.openStreams == [2, 4] && m.roundRobinIndex == 0
             && streams == map[2 := first, 4 := second]
    requires first.streamID == 2 && first.dataForWriting == Some(CHUNK) && !first.finishedWriting
    requires second.View() == SendState(4, Some([1]), 0, false, false)
    modifies m`roundRobinIndex, first, second
    ensures Map.Inv(m.View()) && m.openStreams == [2, 4] && m.roundRobinIndex == 0
    ensures first.dataForWriting == None && !first.finishedWriting
    ensures second.View() == SendState(4, Some([1]), 0, false, false)
  {
    hide Map.Inv, FillSpec, Map.RoundOrder, InOrder;
    var windows := map[2 := 1000, 4 := 1000];
    TwoInOrder();
    ghost var order := InOrder([2, 4], streams);
    assert order == [first, second];
    ghost var was, other := first.View(), second.View();
    TwoViews(first, second);
    var res, asked, p := FillPacket(m, f, streams, windows, PACKET);
    TwoViews(first, second);
    AfterOne(was, other, windows, m.roundRobinIndex, p);
  }

  lemma TwoViews(first: SendStream, second: SendStream)
    ensures Views([first, second]) == [first.View(), second.View()]
  {
  }
}
