/**
 streams_map.go: the open streams of a session, in a map and in a list for round-robin scheduling.
 Streams 1 and 3 (crypto and headers) are served first in every round.
 */
module StreamsMap {
  import opened Modulo
  import opened Partitions

  const MAX_NEW_STREAM_ID_DELTA := 400

  datatype Stream = Stream(id: nat)

  datatype Lookup = Found(stream: Stream) | Closed | InvalidStreamID | TooManyOpenStreams | SessionClosed | Waiting

  // What the function applied to a stream answers.
  datatype Verdict = Continue | Stop | Fail

  function Even(ids: seq<nat>): nat {
    if ids == [] then 0 else Even(ids[..|ids| - 1]) + if ids[|ids| - 1] % 2 == 0 then 1 else 0
  }

  lemma {:induction false} EvenConcat(s: seq<nat>, t: seq<nat>)
    ensures Even(s + t) == Even(s) + Even(t)
  {
    if t == [] {
      assert s + t == s;
    } else {
      assert (s + t)[..|s + t| - 1] == s + t[..|t| - 1];
      EvenConcat(s, t[..|t| - 1]);
    }
  }

  // Own streams of a server have even ids, those of a client odd ones.
  predicate IsOwn(server: bool, id: nat) {
    id % 2 == if server then 0 else 1
  }

  // The fields, and the set of streams that were open once.
  datatype State = State(
    server: bool,
    streams: map<nat, Stream>,
    openStreams: seq<nat>,
    roundRobinIndex: nat,
    nextStream: nat,
    highestStreamOpenedByPeer: nat,
    nextStreamToAccept: nat,
    numOutgoingStreams: int,
    numIncomingStreams: int,
    removed: set<nat>)

  ghost predicate Listed(st: State) {
    && Distinct(st.openStreams)
    && (forall id :: id in st.openStreams <==> id in st.streams)
    && (forall id | id in st.streams :: st.streams[id].id == id)
  }

  // The counters count by parity, whoever opened the stream.
  ghost predicate Counted(st: State) {
    && st.numOutgoingStreams == Even(st.openStreams)
    && st.numIncomingStreams == |st.openStreams| - Even(st.openStreams)
  }

  // A new map: no stream, the first own id, and the first id to accept.
  function NoStreams(server: bool): State {
    State(server, map[], [], 0, if server then 2 else 1, 0, if server then 1 else 2, 0, 0, {})
  }

  // Has the stream been open at some time?
  predicate WasOpened(st: State, id: nat) {
    id > 0 && if IsOwn(st.server, id) then id < st.nextStream else id <= st.highestStreamOpenedByPeer
  }

  // Every stream that was ever opened is open or removed, and no other is.
  ghost predicate Accounted(st: State) {
    && st.nextStream > 0 && IsOwn(st.server, st.nextStream)
    && (st.highestStreamOpenedByPeer == 0 || !IsOwn(st.server, st.highestStreamOpenedByPeer))
    && (forall id :: id in st.streams || id in st.removed <==> WasOpened(st, id))
    && (forall id | id in st.streams :: id !in st.removed)
  }

  ghost predicate Inv(st: State) {
    Listed(st) && Counted(st) && Accounted(st) && st.roundRobinIndex <= |st.openStreams|
  }

  // The id of the next stream that the peer can open.
  function NextRemote(st: State): nat {
    if st.highestStreamOpenedByPeer == 0 && st.server then 1 else st.highestStreamOpenedByPeer + 2
  }

  function Put(st: State, id: nat): State {
    st.(streams := st.streams[id := Stream(id)], openStreams := st.openStreams + [id],
        numOutgoingStreams := st.numOutgoingStreams + if id % 2 == 0 then 1 else 0,
        numIncomingStreams := st.numIncomingStreams + if id % 2 == 0 then 0 else 1)
  }

  function OpenedByPeer(st: State): State {
    Put(st, NextRemote(st)).(highestStreamOpenedByPeer := NextRemote(st))
  }

  function OpenedHere(st: State): State {
    Put(st, st.nextStream).(nextStream := st.nextStream + 2)
  }

  lemma PutInv(st: State, id: nat)
    requires Inv(st) && id !in st.streams
    ensures Listed(Put(st, id)) && Counted(Put(st, id))
  {
    EvenConcat(st.openStreams, [id]);
    EvenOne(id);
  }

  lemma OpenedByPeerInv(st: State)
    requires Inv(st)
    ensures Inv(OpenedByPeer(st)) && !IsOwn(st.server, NextRemote(st)) && !WasOpened(st, NextRemote(st))
  {
    hide Even, Distinct;
    var id := NextRemote(st);
    assert !WasOpened(st, id);
    PutInv(st, id);
    assert forall k :: WasOpened(OpenedByPeer(st), k) <==> WasOpened(st, k) || k == id;
  }

  lemma OpenedHereInv(st: State)
    requires Inv(st)
    ensures Inv(OpenedHere(st)) && !WasOpened(st, st.nextStream)
  {
    hide Even, Distinct;
    var id := st.nextStream;
    assert !WasOpened(st, id);
    PutInv(st, id);
    assert forall k :: WasOpened(OpenedHere(st), k) <==> WasOpened(st, k) || k == id;
  }

  // Without position i; the round-robin index stays with the stream it points to.
  function Removed(st: State, i: nat): State
    requires i < |st.openStreams|
  {
    var id := st.openStreams[i];
    st.(streams := st.streams - {id}, openStreams := st.openStreams[..i] + st.openStreams[i + 1..],
        roundRobinIndex := if i < st.roundRobinIndex then st.roundRobinIndex - 1 else st.roundRobinIndex,
        numOutgoingStreams := st.numOutgoingStreams - if id % 2 == 0 then 1 else 0,
        numIncomingStreams := st.numIncomingStreams - if id % 2 == 0 then 0 else 1,
        removed := st.removed + {id})
  }

  lemma EvenWithout(ids: seq<nat>, i: nat)
    requires i < |ids|
    ensures Even(ids[..i] + ids[i + 1..]) == Even(ids) - if ids[i] % 2 == 0 then 1 else 0
  {
    hide Even;
    var one, before, after := [ids[i]], ids[..i], ids[i + 1..];
    assert ids == before + (one + after);
    EvenConcat(before, one + after);
    EvenConcat(one, after);
    EvenConcat(before, after);
    EvenOne(ids[i]);
  }

  lemma EvenOne(id: nat)
    ensures Even([id]) == if id % 2 == 0 then 1 else 0
  {
    assert [id][..0] == [];
  }

  lemma Without(ids: seq<nat>, i: nat)
    requires Distinct(ids) && i < |ids|
    ensures var rest := ids[..i] + ids[i + 1..];
            Distinct(rest) && forall k :: k in rest <==> k in ids && k != ids[i]
  {
    var before, after := ids[..i], ids[i + 1..];
    assert ids == before + ([ids[i]] + after);
    forall k ensures k in before + after <==> k in ids && k != ids[i] {
      assert k in ids <==> k in before || k == ids[i] || k in after;
    }
  }

  lemma RemovedInv(st: State, i: nat)
    requires Inv(st) && i < |st.openStreams|
    ensures Inv(Removed(st, i))
  {
    hide Even, Distinct;
    Without(st.openStreams, i);
    EvenWithout(st.openStreams, i);
    assert st.openStreams[i] in st.openStreams;
    assert forall k :: WasOpened(Removed(st, i), k) <==> WasOpened(st, k);
  }

  // The position next in line, of n, after position i is gone.
  lemma NextPosition(n: nat, r: nat, i: nat)
    requires i < n && r <= n && i != r % n
    ensures n > 1
    ensures var p := (if i < r then r - 1 else r) % (n - 1); p < n - 1 && (if p < i then p else p + 1) == r % n
  {
    if r == n {
      Small(0, n);
      Small(0, n - 1);
    } else {
      Small(r, n);
      Small(if i < r then r - 1 else r, n - 1);
    }
  }

  // Removing a stream does not change which of the others is next in line.
  lemma NextInLine(st: State, i: nat)
    requires st.roundRobinIndex <= |st.openStreams| && i < |st.openStreams|
    requires i != st.roundRobinIndex % |st.openStreams|
    ensures var st' := Removed(st, i);
            |st'.openStreams| > 0 &&
            st'.openStreams[st'.roundRobinIndex % |st'.openStreams|]
              == st.openStreams[st.roundRobinIndex % |st.openStreams|]
  {
    NextPosition(|st.openStreams|, st.roundRobinIndex, i);
  }

  // Opening the peer's streams one by one up to id, as long as the incoming streams are within the limit.
  function OpenUpTo(st: State, id: nat, max: nat): State
    decreases id - st.highestStreamOpenedByPeer
  {
    if NextRemote(st) <= id && st.numIncomingStreams < max then OpenUpTo(OpenedByPeer(st), id, max) else st
  }

  lemma {:induction false} OpenUpToInv(st: State, id: nat, max: nat)
    requires Inv(st)
    ensures Inv(OpenUpTo(st, id, max)) && OpenUpTo(st, id, max).removed == st.removed
    decreases id - st.highestStreamOpenedByPeer
  {
    if NextRemote(st) <= id && st.numIncomingStreams < max {
      OpenedByPeerInv(st);
      OpenUpToInv(OpenedByPeer(st), id, max);
    }
  }

  // A server can open the stream exactly if it and the k streams before it stay within the limit.
  lemma {:induction false} OpenUpToLimit(st: State, id: nat, k: nat, max: nat)
    requires Inv(st) && st.server && id == NextRemote(st) + 2 * k
    ensures NextRemote(OpenUpTo(st, id, max)) > id <==> st.numIncomingStreams + k + 1 <= max
    decreases k
  {
    hide Inv;
    OpenedByPeerInv(st);
    if k > 0 && st.numIncomingStreams < max {
      OpenUpToLimit(OpenedByPeer(st), id, k - 1, max);
    }
  }

  // ---- runs of calls ----

  // What the calls do to the fields, when they are not refused.
  datatype Call = OpenHere | OpenPeer(id: nat, max: nat) | Remove(i: nat) | Iterate(index: nat) | Accept

  ghost predicate Possible(st: State, call: Call) {
    match call
    case Remove(i) => i < |st.openStreams|
    case Iterate(index) => index <= |st.openStreams|
    case Accept => st.nextStreamToAccept in st.streams
    case _ => true
  }

  function After(st: State, call: Call): State
    requires call.Remove? ==> call.i < |st.openStreams|
  {
    match call
    case OpenHere => OpenedHere(st)
    case OpenPeer(id, max) => OpenUpTo(st, id, max)
    case Remove(i) => Removed(st, i)
    case Iterate(index) => st.(roundRobinIndex := index)
    case Accept => st.(nextStreamToAccept := st.nextStreamToAccept + 2)
  }

  ghost predicate IsRun(run: seq<State>, calls: seq<Call>) {
    && |run| == |calls| + 1 && Inv(run[0])
    && forall t :: 0 <= t < |calls| ==> Possible(run[t], calls[t]) && run[t + 1] == After(run[t], calls[t])
  }

  lemma CallInv(st: State, call: Call)
    requires Inv(st) && Possible(st, call)
    ensures Inv(After(st, call)) && st.removed <= After(st, call).removed
  {
    match call
    case OpenHere => OpenedHereInv(st);
    case OpenPeer(id, max) => OpenUpToInv(st, id, max);
    case Remove(i) => RemovedInv(st, i);
    case Iterate(index) => IndexInv(st, index);
    case Accept =>
      assert forall id :: WasOpened(After(st, call), id) <==> WasOpened(st, id);
  }

  // A stream of the peer that is removed before it is accepted blocks the ones behind it: whatever is
  // called afterwards, AcceptStream finds nothing any more.
  lemma {:induction false} AcceptBlocked(run: seq<State>, calls: seq<Call>, t: nat)
    requires IsRun(run, calls) && t < |run| && run[0].nextStreamToAccept in run[0].removed
    ensures Inv(run[t]) && run[t].nextStreamToAccept == run[0].nextStreamToAccept
    ensures run[t].nextStreamToAccept in run[t].removed && !Possible(run[t], Accept)
  {
    hide Inv, OpenedHere, Removed;
    if t > 0 {
      AcceptBlocked(run, calls, t - 1);
      CallInv(run[t - 1], calls[t - 1]);
      KeepsNext(run[t - 1], calls[t - 1]);
    }
    RemovedClosed(run[t]);
  }

  lemma RemovedClosed(st: State)
    requires Inv(st)
    ensures forall id | id in st.removed :: id !in st.streams
  {
  }

  lemma KeepsNext(st: State, call: Call)
    requires Inv(st) && Possible(st, call) && !call.Accept?
    ensures After(st, call).nextStreamToAccept == st.nextStreamToAccept
  {
    if call.OpenPeer? {
      OpenUpToKeepsNext(st, call.id, call.max);
    }
  }

  lemma {:induction false} OpenUpToKeepsNext(st: State, id: nat, max: nat)
    ensures OpenUpTo(st, id, max).nextStreamToAccept == st.nextStreamToAccept
    decreases id - st.highestStreamOpenedByPeer
  {
    if NextRemote(st) <= id && st.numIncomingStreams < max {
      OpenUpToKeepsNext(OpenedByPeer(st), id, max);
    }
  }

  ghost function AcceptsBefore(calls: seq<Call>, t: nat): nat
    requires t <= |calls|
  {
    if t == 0 then 0 else AcceptsBefore(calls, t - 1) + if calls[t - 1].Accept? then 1 else 0
  }

  // The streams of the peer are accepted in the order of their ids, none left out: the n-th one accepted is the n-th
  // one that the peer can open, and it has been opened.
  lemma {:induction false} AcceptedInOrder(run: seq<State>, calls: seq<Call>, t: nat)
    requires IsRun(run, calls) && t < |run| && run[0] == NoStreams(run[0].server)
    ensures run[t].server == run[0].server && Inv(run[t])
    ensures run[t].nextStreamToAccept == (if run[0].server then 1 else 2) + 2 * AcceptsBefore(calls, t)
    ensures t < |calls| && calls[t].Accept? ==>
              && WasOpened(run[t], run[t].nextStreamToAccept) && !IsOwn(run[t].server, run[t].nextStreamToAccept)
  {
    hide Inv, After, Possible, WasOpened;
    InitialInv(run[0]);
    if t > 0 {
      AcceptedInOrder(run, calls, t - 1);
      CallInv(run[t - 1], calls[t - 1]);
      NextMoves(run[t - 1], calls[t - 1]);
      SameServer(run[t - 1], calls[t - 1]);
    }
    if t < |calls| && calls[t].Accept? {
      AcceptOpened(run[t]);
    }
  }

  lemma InitialInv(st: State)
    requires st == NoStreams(st.server)
    ensures Inv(st)
  {
  }

  lemma NextMoves(st: State, call: Call)
    requires Inv(st) && Possible(st, call)
    ensures After(st, call).nextStreamToAccept == st.nextStreamToAccept + if call.Accept? then 2 else 0
  {
    if !call.Accept? {
      KeepsNext(st, call);
    }
  }

  lemma AcceptOpened(st: State)
    requires Inv(st) && Possible(st, Accept)
    ensures WasOpened(st, st.nextStreamToAccept)
  {
  }

  lemma SameServer(st: State, call: Call)
    requires Possible(st, call)
    ensures After(st, call).server == st.server
  {
    if call.OpenPeer? {
      OpenUpToServer(st, call.id, call.max);
    }
  }

  lemma {:induction false} OpenUpToServer(st: State, id: nat, max: nat)
    ensures OpenUpTo(st, id, max).server == st.server
    decreases id - st.highestStreamOpenedByPeer
  {
    if NextRemote(st) <= id && st.numIncomingStreams < max {
      OpenUpToServer(OpenedByPeer(st), id, max);
    }
  }

  // ---- fairness ----

  predicate IsFirst(id: nat) {
    id == 1 || id == 3
  }

  // One call of RoundRobinIterate that got past streams 1 and 3.
  datatype Round = Round(start: nat, advance: nat, visited: seq<nat>)

  // The stream d places after the start has been served, or is one of the first.
  ghost predicate Served(open: seq<nat>, start: nat, d: nat, visited: seq<nat>)
    requires open != []
  {
    var id := open[(start + d) % |open|];
    IsFirst(id) || id in visited
  }

  // The index moves on by no more than what has been served.
  ghost predicate ServesAdvance(open: seq<nat>, r: Round)
    requires open != []
  {
    && (forall d: nat | d < r.advance && d < |open| :: Served(open, r.start, d, r.visited))
    && ((exists id :: id in open && !IsFirst(id)) ==> r.advance > 0)
  }

  // Where a round starts is where the one before it left the index.
  ghost predicate Follows(n: nat, r: Round, r': Round)
    requires n > 0
  {
    r'.start % n == (r.start + r.advance) % n
  }

  ghost predicate Consecutive(n: nat, rounds: seq<Round>)
    requires n > 0
  {
    forall t | 0 < t < |rounds| :: Follows(n, rounds[t - 1], rounds[t])
  }

  ghost predicate ServedInRounds(open: seq<nat>, start: nat, d: nat, rounds: seq<Round>)
    requires open != []
  {
    exists t :: 0 <= t < |rounds| && Served(open, start, d, rounds[t].visited)
  }

  lemma ServedMoved(open: seq<nat>, a: nat, b: nat, d: nat, e: nat, visited: seq<nat>)
    requires open != [] && (a + d) % |open| == (b + e) % |open| && Served(open, a, d, visited)
    ensures Served(open, b, e, visited)
  {
  }

  // After t rounds, at least t places in a row have been served.
  lemma {:induction false} RoundsServe(open: seq<nat>, start: nat, rounds: seq<Round>) returns (total: nat)
    requires open != [] && rounds != [] && Consecutive(|open|, rounds) && start == rounds[0].start
    requires forall t | 0 <= t < |rounds| :: ServesAdvance(open, rounds[t]) && rounds[t].advance > 0
    ensures total >= |rounds|
    ensures var last := rounds[|rounds| - 1];
            (start + total) % |open| == (last.start + last.advance) % |open|
    ensures forall d: nat | d < total && d < |open| :: ServedInRounds(open, start, d, rounds)
  {
    hide Served;
    var n, last, before := |open|, rounds[|rounds| - 1], rounds[..|rounds| - 1];
    if |rounds| == 1 {
      total := last.advance;
      forall d: nat | d < total && d < n ensures ServedInRounds(open, start, d, rounds) {
        assert Served(open, start, d, rounds[0].visited);
      }
    } else {
      var sum := RoundsServe(open, start, before);
      total := sum + last.advance;
      assert Follows(n, rounds[|rounds| - 1 - 1], rounds[|rounds| - 1]);
      SameOffset(start + sum, last.start, last.advance, n);
      forall d: nat | d < total && d < n ensures ServedInRounds(open, start, d, rounds) {
        if d < sum {
          assert ServedInRounds(open, start, d, before);
          var t :| 0 <= t < |before| && Served(open, start, d, before[t].visited);
          assert Served(open, start, d, rounds[t].visited);
        } else {
          SameOffset(start + sum, last.start, d - sum, n);
          ServedMoved(open, last.start, start, d - sum, d, last.visited);
          assert Served(open, start, d, rounds[|rounds| - 1].visited);
        }
      }
    }
  }

  // Every position is some number of places after the start.
  lemma Distance(start: nat, p: nat, n: nat) returns (d: nat)
    requires p < n
    ensures d < n && (start + d) % n == p
  {
    var b := start % n;
    d := if p >= b then p - b else p - b + n;
    Shift(start, d, n);
    Small(p, n);
  }

  // As many rounds as there are open streams serve all streams but 1 and 3.
  lemma Fairness(open: seq<nat>, rounds: seq<Round>, id: nat)
    requires id in open && !IsFirst(id) && |rounds| >= |open| && Consecutive(|open|, rounds)
    requires forall t | 0 <= t < |rounds| :: ServesAdvance(open, rounds[t])
    ensures exists t :: 0 <= t < |rounds| && id in rounds[t].visited
  {
    var p :| 0 <= p < |open| && open[p] == id;
    var start := rounds[0].start;
    var total := RoundsServe(open, start, rounds);
    var d := Distance(start, p, |open|);
    assert ServedInRounds(open, start, d, rounds);
  }

  // The order of a round: streams 1 and 3, and then the others from the index on.
  function RoundOrder(open: seq<nat>, start: nat): seq<nat> {
    Firsts(open) + Others(open, start, 0)
  }

  function Firsts(open: seq<nat>): seq<nat> {
    (if 1 in open then [1] else []) + (if 3 in open then [3] else [])
  }

  function Others(open: seq<nat>, start: nat, i: nat): seq<nat>
    decreases |open| - i
  {
    if i >= |open| then []
    else
      var id := open[(i + start) % |open|];
      (if IsFirst(id) then [] else [id]) + Others(open, start, i + 1)
  }

  // The streams up to the first one that does not answer Continue.
  function Until(ids: seq<nat>, fn: nat -> Verdict): seq<nat> {
    if ids == [] then []
    else if fn(ids[0]) == Continue then [ids[0]] + Until(ids[1..], fn)
    else [ids[0]]
  }

  lemma UntilOne(open: seq<nat>, start: nat, fn: nat -> Verdict)
    ensures 1 in open && fn(1) != Continue ==> Until(RoundOrder(open, start), fn) == [1]
    ensures (1 in open ==> fn(1) == Continue) && 3 in open && fn(3) != Continue ==>
              Until(RoundOrder(open, start), fn) == (if 1 in open then [1] else []) + [3]
  {
    hide Others;
    var order := RoundOrder(open, start);
    if 1 in open {
      assert order[0] == 1;
      if 3 in open {
        assert order[1..][0] == 3;
      }
    } else if 3 in open {
      assert order[0] == 3;
    }
  }

  lemma UntilFirsts(open: seq<nat>, start: nat, fn: nat -> Verdict)
    requires (1 in open ==> fn(1) == Continue) && (3 in open ==> fn(3) == Continue)
    ensures Until(RoundOrder(open, start), fn)
            == Firsts(open) + Until(Others(open, start, 0), fn)
  {
    hide Others;
    var others := Others(open, start, 0);
    UntilHead(1, 1 in open, (if 3 in open then [3] else []) + others, fn);
    UntilHead(3, 3 in open, others, fn);
    assert RoundOrder(open, start) == (if 1 in open then [1] else []) + ((if 3 in open then [3] else []) + others);
  }

  lemma UntilHead(id: nat, open: bool, ids: seq<nat>, fn: nat -> Verdict)
    requires fn(id) == Continue || !open
    ensures Until((if open then [id] else []) + ids, fn) == (if open then [id] else []) + Until(ids, fn)
  {
    if open {
      assert ([id] + ids)[1..] == ids;
    } else {
      assert [] + ids == ids;
    }
  }

  // What is still to be visited from place i on.
  ghost predicate VisitedSoFar(open: seq<nat>, start: nat, fn: nat -> Verdict, first: seq<nat>, visited: seq<nat>,
                               i: nat) {
    first + Until(Others(open, start, 0), fn) == visited + Until(Others(open, start, i), fn)
  }

  lemma VisitedNone(open: seq<nat>, start: nat, fn: nat -> Verdict, first: seq<nat>)
    ensures VisitedSoFar(open, start, fn, first, first, 0)
  {
  }

  lemma VisitedNext(open: seq<nat>, start: nat, fn: nat -> Verdict, first: seq<nat>, visited: seq<nat>, i: nat, id: nat)
    requires VisitedSoFar(open, start, fn, first, visited, i) && i < |open| && id == open[(i + start) % |open|]
    ensures IsFirst(id) ==> VisitedSoFar(open, start, fn, first, visited, i + 1)
    ensures !IsFirst(id) && fn(id) == Continue ==> VisitedSoFar(open, start, fn, first, visited + [id], i + 1)
    ensures !IsFirst(id) && fn(id) != Continue ==> visited + [id] == first + Until(Others(open, start, 0), fn)
  {
    hide Until;
    OthersNext(open, start, i, id);
    if !IsFirst(id) {
      UntilNext(visited, id, Others(open, start, i + 1), fn);
    }
  }

  lemma OthersNext(open: seq<nat>, start: nat, i: nat, id: nat)
    requires i < |open| && id == open[(i + start) % |open|]
    ensures Others(open, start, i) == (if IsFirst(id) then [] else [id]) + Others(open, start, i + 1)
    ensures IsFirst(id) ==> Others(open, start, i) == Others(open, start, i + 1)
  {
  }

  lemma UntilNext(visited: seq<nat>, id: nat, rest: seq<nat>, fn: nat -> Verdict)
    ensures visited + Until([id] + rest, fn)
            == if fn(id) == Continue then visited + [id] + Until(rest, fn) else visited + [id]
  {
    assert ([id] + rest)[1..] == rest;
  }

  lemma VisitedAll(open: seq<nat>, start: nat, fn: nat -> Verdict, first: seq<nat>, visited: seq<nat>)
    requires VisitedSoFar(open, start, fn, first, visited, |open|)
    ensures visited == first + Until(Others(open, start, 0), fn)
  {
    assert visited + [] == visited;
  }

  // Every stream served, but possibly the last, has answered Continue.
  ghost predicate UntilRefused(visited: seq<nat>, fn: nat -> Verdict) {
    forall m | 0 <= m < |visited| - 1 :: fn(visited[m]) == Continue
  }

  ghost predicate AllContinue(visited: seq<nat>, fn: nat -> Verdict) {
    forall m | 0 <= m < |visited| :: fn(visited[m]) == Continue
  }

  lemma Allowed(visited: seq<nat>, fn: nat -> Verdict)
    requires AllContinue(visited, fn)
    ensures UntilRefused(visited, fn) && (visited != [] ==> fn(visited[|visited| - 1]) == Continue)
  {
  }

  lemma AnswerOf(visited: seq<nat>, id: nat, fn: nat -> Verdict)
    requires AllContinue(visited, fn)
    ensures UntilRefused(visited + [id], fn) && (AllContinue(visited + [id], fn) <==> fn(id) == Continue)
  {
    assert (visited + [id])[|visited|] == id;
    assert forall m | 0 <= m < |visited| :: (visited + [id])[m] == visited[m];
  }

  lemma PrefixMembers(s: seq<nat>, t: seq<nat>)
    requires s <= t
    ensures forall id | id in s :: id in t
  {
    assert t == s + t[|s|..];
  }

  lemma FirstOpen(st: State)
    requires Inv(st)
    ensures forall id :: id in st.openStreams <==> id in st.streams
  {
  }

  // The rounds so far, and where they leave the index.
  ghost predicate RoundsOf(open: seq<nat>, rounds: seq<Round>, index: nat)
    requires open != []
  {
    && Consecutive(|open|, rounds) && (forall t | 0 <= t < |rounds| :: ServesAdvance(open, rounds[t]))
    && (rounds != [] ==> var last := rounds[|rounds| - 1]; index % |open| == (last.start + last.advance) % |open|)
  }

  lemma NextRound(open: seq<nat>, rounds: seq<Round>, start: nat, advance: nat, visited: seq<nat>, index: nat)
    requires open != [] && RoundsOf(open, rounds, start) && ServesAdvance(open, Round(start, advance, visited))
    requires index % |open| == (start + advance) % |open|
    ensures RoundsOf(open, rounds + [Round(start, advance, visited)], index)
  {
    hide ServesAdvance;
  }

  // All places looked at.
  lemma AllServed(open: seq<nat>, start: nat, i: nat, index: nat, advance: nat, visited: seq<nat>)
    requires Progress(open, start, i, index, advance, visited)
    ensures i >= |open| ==> forall id | id in open :: IsFirst(id) || id in visited
  {
    if i >= |open| {
      forall id | id in open ensures IsFirst(id) || id in visited {
        var p :| 0 <= p < |open| && open[p] == id;
        var d := Distance(start, p, |open|);
        assert Served(open, start, d, visited);
      }
    }
  }

  lemma NotOpen(st: State, id: nat)
    requires Inv(st) && !WasOpened(st, id)
    ensures id !in st.streams && id !in st.removed
  {
  }

  lemma PeerStreamOpen(st: State, id: nat)
    requires Inv(st) && NextRemote(st) > id >= st.highestStreamOpenedByPeer && !IsOwn(st.server, id)
    ensures id == st.highestStreamOpenedByPeer && (id > 0 ==> id in st.streams || id in st.removed)
    ensures id in st.streams ==> st.streams[id] == Stream(id)
  {
  }

  lemma ListedOnce(st: State, id: nat)
    requires Inv(st) && id in st.streams
    ensures id in st.openStreams
  {
  }

  lemma ListedOpen(st: State, i: nat)
    requires Inv(st) && i < |st.openStreams|
    ensures st.openStreams[i] in st.streams
  {
    assert st.openStreams[i] in st.openStreams;
  }

  lemma IndexInv(st: State, index: nat)
    requires Inv(st) && index <= |st.openStreams|
    ensures Inv(st.(roundRobinIndex := index))
  {
    assert forall id :: WasOpened(st.(roundRobinIndex := index), id) <==> WasOpened(st, id);
  }

  // After i places: how many were served, where the index is, and that nothing was left out.
  ghost predicate Progress(open: seq<nat>, start: nat, i: nat, index: nat, advance: nat, visited: seq<nat>) {
    open != [] ==>
      && advance <= i && index % |open| == (start + advance) % |open|
      && (forall d: nat | d < i :: Served(open, start, d, visited))
      && (advance == 0 ==> forall d: nat | d < i :: FirstAt(open, start, d))
  }

  ghost predicate FirstAt(open: seq<nat>, start: nat, d: nat)
    requires open != []
  {
    IsFirst(open[(start + d) % |open|])
  }

  lemma Begin(open: seq<nat>, start: nat, visited: seq<nat>)
    ensures Progress(open, start, 0, start, 0, visited)
  {
  }

  lemma Advance(open: seq<nat>, start: nat, i: nat, index: nat, advance: nat, visited: seq<nat>, id: nat)
    requires open != [] && Progress(open, start, i, index, advance, visited) && id == open[(i + start) % |open|]
    ensures IsFirst(id) ==> Progress(open, start, i + 1, index, advance, visited)
    ensures !IsFirst(id) ==> Progress(open, start, i + 1, (index + 1) % |open|, advance + 1, visited + [id])
    ensures (index + 1) % |open| < |open|
    ensures (index % |open|) == (start + advance) % |open|
  {
    SameOffset(index, start + advance, 1, |open|);
    Small((index + 1) % |open|, |open|);
    forall d: nat | d < i + 1
      ensures IsFirst(id) ==> Served(open, start, d, visited)
      ensures Served(open, start, d, visited + [id])
    {
      assert d < i ==> Served(open, start, d, visited);
    }
  }

  // All places looked at, or one served and the rest left: either way the round serves its advance.
  lemma Enough(open: seq<nat>, start: nat, i: nat, index: nat, advance: nat, visited: seq<nat>)
    requires Progress(open, start, i, index, advance, visited) && (i >= |open| || advance > 0)
    ensures open != [] ==>
              && index % |open| == (start + advance) % |open|
              && ServesAdvance(open, Round(start, advance, visited))
  {
    if advance == 0 && open != [] {
      forall id | id in open ensures IsFirst(id) {
        var p :| 0 <= p < |open| && open[p] == id;
        var d := Distance(start, p, |open|);
        assert FirstAt(open, start, d);
      }
    }
  }

  lemma OwnParity(st: State)
    requires Inv(st)
    ensures IsOwn(st.server, st.nextStream)
  {
  }

  class StreamsMap {
    const server: bool
    const maxIncomingStreams: nat
    const maxOutgoingStreams: nat
    var streams: map<nat, Stream>
    var openStreams: seq<nat>
    var roundRobinIndex: nat
    var nextStream: nat
    var highestStreamOpenedByPeer: nat
    var nextStreamToAccept: nat
    var numOutgoingStreams: int
    var numIncomingStreams: int
    var closed: bool              // closeErr is set
    ghost var removed: set<nat>   // streams that were open once

    ghost function View(): State
      reads this
    {
      State(server, streams, openStreams, roundRobinIndex, nextStream, highestStreamOpenedByPeer,
            nextStreamToAccept, numOutgoingStreams, numIncomingStreams, removed)
    }

    constructor (server: bool, maxIncomingStreams: nat, maxOutgoingStreams: nat)
      ensures View() == NoStreams(server) && Inv(View()) && !closed
      ensures this.server == server && this.maxIncomingStreams == maxIncomingStreams
      ensures this.maxOutgoingStreams == maxOutgoingStreams
    {
      this.server := server;
      this.maxIncomingStreams := maxIncomingStreams;
      this.maxOutgoingStreams := maxOutgoingStreams;
      streams, openStreams, removed := map[], [], {};
      roundRobinIndex, highestStreamOpenedByPeer := 0, 0;
      numOutgoingStreams, numIncomingStreams, closed := 0, 0, false;
      nextStream := if server then 2 else 1;
      nextStreamToAccept := if server then 1 else 2;
    }

    method PutStream(s: Stream)
      modifies this`streams, this`openStreams
      ensures s.id in old(streams) ==> streams == old(streams) && openStreams == old(openStreams)
      ensures s.id !in old(streams) ==>
                streams == old(streams)[s.id := s] && openStreams == old(openStreams) + [s.id]
    {
      if s.id !in streams {
        streams := streams[s.id := s];
        openStreams := openStreams + [s.id];
      }
    }

    // The next stream of the peer; its id is above the highest one, so the test for an id that is
    // much smaller never fires.
    method OpenRemoteStream(id: nat) returns (r: Lookup)
      requires Inv(View()) && id == NextRemote(View())
      modifies this
      ensures r == if old(numIncomingStreams) >= maxIncomingStreams then TooManyOpenStreams else Found(Stream(id))
      ensures View() == if r.Found? then OpenedByPeer(old(View())) else old(View())
      ensures Inv(View()) && closed == old(closed)
    {
      hide Inv;
      OpenedByPeerInv(View());
      NotOpen(View(), id);
      if numIncomingStreams >= maxIncomingStreams {
        return TooManyOpenStreams;
      }
      if id + MAX_NEW_STREAM_ID_DELTA < highestStreamOpenedByPeer {
        return InvalidStreamID;
      }
      if server {
        numIncomingStreams := numIncomingStreams + 1;
      } else {
        numOutgoingStreams := numOutgoingStreams + 1;
      }
      if id > highestStreamOpenedByPeer {
        highestStreamOpenedByPeer := id;
      }
      var s := Stream(id);
      PutStream(s);
      r := Found(s);
    }

    // The next stream of this side. The limit is compared with the number of open even streams: on a
    // client, those are the streams of the peer.
    method OpenStreamImpl() returns (r: Lookup)
      requires Inv(View())
      modifies this
      ensures r == if old(numOutgoingStreams) >= maxOutgoingStreams then TooManyOpenStreams
                   else Found(Stream(old(nextStream)))
      ensures View() == if r.Found? then OpenedHere(old(View())) else old(View())
      ensures Inv(View()) && closed == old(closed)
    {
      hide Inv;
      OpenedHereInv(View());
      NotOpen(View(), nextStream);
      OwnParity(View());
      var id := nextStream;
      if numOutgoingStreams >= maxOutgoingStreams {
        return TooManyOpenStreams;
      }
      if server {
        numOutgoingStreams := numOutgoingStreams + 1;
      } else {
        numIncomingStreams := numIncomingStreams + 1;
      }
      nextStream := nextStream + 2;
      var s := Stream(id);
      PutStream(s);
      r := Found(s);
    }

    method OpenStream() returns (r: Lookup)
      requires Inv(View())
      modifies this
      ensures old(closed) ==> r == SessionClosed && View() == old(View())
      ensures !old(closed) ==>
                && r == (if old(numOutgoingStreams) >= maxOutgoingStreams then TooManyOpenStreams
                         else Found(Stream(old(nextStream))))
                && View() == if r.Found? then OpenedHere(old(View())) else old(View())
      ensures Inv(View()) && closed == old(closed)
    {
      if closed {
        return SessionClosed;
      }
      r := OpenStreamImpl();
    }

    // A stream that is open is returned; the peer opens streams by naming them, all up to that id.
    // An own stream is taken for closed up to and including the one to be opened next.
    method GetOrOpenStream(id: nat) returns (r: Lookup)
      requires Inv(View())
      modifies this
      ensures Inv(View()) && removed == old(removed) && closed == old(closed)
      ensures r.Found? ==> r.stream.id == id && id in streams
      ensures id in old(streams) ==> r == Found(old(streams)[id]) && View() == old(View())
      ensures id !in old(streams) && IsOwn(server, id) ==>
                View() == old(View()) && r == if id <= nextStream then Closed else InvalidStreamID
      ensures id !in old(streams) && !IsOwn(server, id) && id <= old(highestStreamOpenedByPeer) ==>
                View() == old(View()) && r == Closed && (id > 0 ==> id in removed)
      ensures id !in old(streams) && !IsOwn(server, id) && id > old(highestStreamOpenedByPeer) ==>
                && View() == OpenUpTo(old(View()), id, maxIncomingStreams)
                && r == if NextRemote(View()) <= id then TooManyOpenStreams else Found(Stream(id))
    {
      if id in streams {
        return Found(streams[id]);
      }
      if server {
        if id % 2 == 0 {
          return if id <= nextStream then Closed else InvalidStreamID;
        }
        if id <= highestStreamOpenedByPeer {
          return Closed;
        }
      } else {
        if id % 2 == 1 {
          return if id <= nextStream then Closed else InvalidStreamID;
        }
        if id <= highestStreamOpenedByPeer {
          return Closed;
        }
      }
      r := OpenStreamsUpTo(id);
    }

    // The loop that opens the streams of the peer.
    method OpenStreamsUpTo(id: nat) returns (r: Lookup)
      requires Inv(View()) && !IsOwn(server, id) && id > highestStreamOpenedByPeer
      modifies this
      ensures Inv(View()) && removed == old(removed) && closed == old(closed)
      ensures View() == OpenUpTo(old(View()), id, maxIncomingStreams)
      ensures r == if NextRemote(View()) <= id then TooManyOpenStreams else Found(Stream(id))
      ensures r.Found? ==> id in streams
    {
      hide Inv;
      NotOpen(View(), id);
      var sid := highestStreamOpenedByPeer + 2;
      if sid == 2 && server {
        sid := 1;
      }
      while sid <= id
        invariant Inv(View()) && removed == old(removed) && closed == old(closed)
        invariant sid == NextRemote(View()) && highestStreamOpenedByPeer <= id
        invariant OpenUpTo(View(), id, maxIncomingStreams) == OpenUpTo(old(View()), id, maxIncomingStreams)
        decreases id + 2 - sid
      {
        var next := OpenRemoteStream(sid);
        if !next.Found? {
          return next;
        }
        sid := sid + 2;
      }
      PeerStreamOpen(View(), id);
      r := Found(streams[id]);
    }

    // The peer's streams are accepted in the order of their ids; one that was removed before its
    // turn is waited for forever.
    method AcceptStream() returns (r: Lookup)
      requires Inv(View())
      modifies this`nextStreamToAccept
      ensures Inv(View())
      ensures r.Found? <==> !closed && old(nextStreamToAccept) in streams
      ensures r.Found? ==> r.stream.id == old(nextStreamToAccept) == nextStreamToAccept - 2
      ensures !r.Found? ==> nextStreamToAccept == old(nextStreamToAccept)
      ensures r == Waiting <==>
                !closed && (old(nextStreamToAccept) in removed || !WasOpened(View(), old(nextStreamToAccept)))
      ensures View() == if r.Found? then After(old(View()), Accept) else old(View())
    {
      if closed {
        return SessionClosed;
      }
      if nextStreamToAccept !in streams {
        return Waiting;
      }
      r := Found(streams[nextStreamToAccept]);
      nextStreamToAccept := nextStreamToAccept + 2;
    }

    method RemoveStream(id: nat) returns (ok: bool)
      requires Inv(View())
      modifies this
      ensures Inv(View()) && closed == old(closed)
      ensures ok <==> id in old(streams)
      ensures !ok ==> View() == old(View())
      ensures ok ==> id in removed && exists i ::
                0 <= i < |old(openStreams)| && old(openStreams)[i] == id && View() == Removed(old(View()), i)
    {
      hide Inv;
      if id !in streams {
        return false;
      }
      ListedOnce(View(), id);
      if id % 2 == 0 {
        numOutgoingStreams := numOutgoingStreams - 1;
      } else {
        numIncomingStreams := numIncomingStreams - 1;
      }
      var i := 0;
      while openStreams[i] != id
        invariant 0 <= i < |openStreams| && id !in openStreams[..i]
        decreases |openStreams| - i
      {
        i := i + 1;
      }
      RemovedInv(old(View()), i);
      Unlist(id, i);
      ok := true;
    }

    method Unlist(id: nat, i: nat)
      requires i < |openStreams| && openStreams[i] == id
      modifies this`openStreams, this`roundRobinIndex, this`streams, this`removed
      ensures openStreams == old(openStreams[..i] + openStreams[i + 1..])
      ensures roundRobinIndex == old(if i < roundRobinIndex then roundRobinIndex - 1 else roundRobinIndex)
      ensures streams == old(streams) - {id} && removed == old(removed) + {id}
    {
      openStreams := openStreams[..i] + openStreams[i + 1..];
      if i < roundRobinIndex {
        roundRobinIndex := roundRobinIndex - 1;
      }
      streams := streams - {id};
      removed := removed + {id};
    }

    // Applies fn to one stream, if it is open.
    method IterateFunc(id: nat, fn: nat -> Verdict, visited: seq<nat>)
      returns (missing: bool, v: Verdict, visited': seq<nat>)
      ensures missing <==> id !in streams
      ensures v == if missing then Continue else fn(id)
      ensures visited' == if missing then visited else visited + [id]
    {
      if id !in streams {
        return true, Continue, visited;
      }
      return false, fn(id), visited + [id];
    }

    ghost predicate Passes(id: nat, fn: nat -> Verdict)
      reads this
    {
      id in streams ==> fn(id) == Continue
    }

    // Streams 1 and 3 first, then the others from the index on; each one served moves the index on.
    method RoundRobinIterate(fn: nat -> Verdict) returns (visited: seq<nat>, failed: bool, ghost advance: nat)
      requires Inv(View())
      modifies this`roundRobinIndex
      ensures Inv(View()) && forall id | id in visited :: id in streams
      ensures 1 in streams ==> visited != [] && visited[0] == 1
      ensures !(Passes(1, fn) && Passes(3, fn)) ==>
                roundRobinIndex == old(roundRobinIndex) && forall id | id in visited :: IsFirst(id)
      ensures Passes(1, fn) && Passes(3, fn) && openStreams != [] ==>
                && roundRobinIndex % |openStreams| == (old(roundRobinIndex) + advance) % |openStreams|
                && (!failed ==> ServesAdvance(openStreams, Round(old(roundRobinIndex), advance, visited)))
      ensures UntilRefused(visited, fn) && (failed <==> visited != [] && fn(visited[|visited| - 1]) == Fail)
      ensures AllContinue(visited, fn) ==> forall id | id in openStreams :: id in visited
      ensures visited == Until(RoundOrder(openStreams, old(roundRobinIndex)), fn)
      ensures if advance == 0 then roundRobinIndex == old(roundRobinIndex) else roundRobinIndex < |openStreams|
      ensures Passes(1, fn) && Passes(3, fn) && !failed ==> advance == |visited| - |Firsts(openStreams)|
    {
      hide Inv, Others, Until, RoundOrder, UntilRefused, AllContinue, ServesAdvance, IsFirst;
      var first, v := IterateFirsts(fn);
      if v != Continue {
        return first, v == Fail, 0;
      }
      UntilFirsts(openStreams, roundRobinIndex, fn);
      visited, failed, advance := IterateOthers(fn, first);
      PrefixMembers(first, visited);
    }

    // Streams 1 and 3, if they are open.
    method IterateFirsts(fn: nat -> Verdict) returns (visited: seq<nat>, v: Verdict)
      requires Inv(View())
      ensures v == Continue <==> Passes(1, fn) && Passes(3, fn)
      ensures (forall id | id in visited :: id in streams && IsFirst(id)) && UntilRefused(visited, fn)
      ensures 1 in streams ==> visited != [] && visited[0] == 1
      ensures v == Continue ==>
                && visited == Firsts(openStreams) && AllContinue(visited, fn)
                && forall id | id in openStreams && IsFirst(id) :: id in visited
      ensures v != Continue ==>
                && visited == Until(RoundOrder(openStreams, roundRobinIndex), fn)
                && visited != [] && fn(visited[|visited| - 1]) == v && !AllContinue(visited, fn)
    {
      hide Inv, Others, Until, RoundOrder;
      FirstOpen(View());
      UntilOne(openStreams, roundRobinIndex, fn);
      var missing;
      missing, v, visited := IterateFunc(1, fn, []);
      if v != Continue {
        return;
      }
      missing, v, visited := IterateFunc(3, fn, visited);
    }

    // The loop over the list, from the index on.
    method IterateOthers(fn: nat -> Verdict, first: seq<nat>)
      returns (visited: seq<nat>, failed: bool, ghost advance: nat)
      requires Inv(View()) && (forall id | id in first :: id in streams) && AllContinue(first, fn)
      modifies this`roundRobinIndex
      ensures Inv(View()) && first <= visited && forall id | id in visited :: id in streams
      ensures openStreams != [] ==>
                && roundRobinIndex % |openStreams| == (old(roundRobinIndex) + advance) % |openStreams|
                && (!failed ==> ServesAdvance(openStreams, Round(old(roundRobinIndex), advance, visited)))
      ensures UntilRefused(visited, fn) && (failed <==> visited != [] && fn(visited[|visited| - 1]) == Fail)
      ensures AllContinue(visited, fn) ==> forall id | id in openStreams :: IsFirst(id) || id in visited
      ensures visited == first + Until(Others(openStreams, old(roundRobinIndex), 0), fn)
      ensures if advance == 0 then roundRobinIndex == old(roundRobinIndex) else roundRobinIndex < |openStreams|
      ensures !failed ==> advance == |visited| - |first|
    {
      hide Inv, Progress, ServesAdvance, UntilRefused, AllContinue, Others, Until, VisitedSoFar;
      var numStreams, startIndex := |openStreams|, roundRobinIndex;
      visited, failed, advance := first, false, 0;
      var i: nat := 0;
      Begin(openStreams, startIndex, visited);
      Allowed(visited, fn);
      VisitedNone(openStreams, startIndex, fn, first);
      while i < numStreams
        invariant i <= numStreams && Inv(View())
        invariant Progress(openStreams, startIndex, i, roundRobinIndex, advance, visited)
        invariant VisitedSoFar(openStreams, startIndex, fn, first, visited, i)
        invariant if advance == 0 then roundRobinIndex == startIndex else roundRobinIndex < numStreams
        invariant advance == |visited| - |first|
        invariant first <= visited && AllContinue(visited, fn) && forall id | id in visited :: id in streams
      {
        var id := openStreams[(i + startIndex) % numStreams];
        Advance(openStreams, startIndex, i, roundRobinIndex, advance, visited, id);
        VisitedNext(openStreams, startIndex, fn, first, visited, i, id);
        if id != 1 && id != 3 {
          ListedOpen(View(), (i + startIndex) % numStreams);
          AnswerOf(visited, id, fn);
          visited := visited + [id];
          if fn(id) == Fail {
            return visited, true, advance;
          }
          IndexInv(View(), (roundRobinIndex + 1) % numStreams);
          roundRobinIndex := (roundRobinIndex + 1) % numStreams;
          advance := advance + 1;
          if fn(id) == Stop {
            Enough(openStreams, startIndex, i + 1, roundRobinIndex, advance, visited);
            return;
          }
        }
        i := i + 1;
      }
      Enough(openStreams, startIndex, i, roundRobinIndex, advance, visited);
      AllServed(openStreams, startIndex, i, roundRobinIndex, advance, visited);
      Allowed(visited, fn);
      VisitedAll(openStreams, startIndex, fn, first, visited);
    }

    // One call after the other, as for packet after packet. As many of them as there are open streams serve
    // every stream but 1 and 3, wherever each of them stops.
    method IterateRounds(fns: seq<nat -> Verdict>) returns (served: seq<seq<nat>>, failed: bool)
      requires Inv(View())
      requires forall t | 0 <= t < |fns| ::
                 (1 in streams ==> fns[t](1) == Continue) && (3 in streams ==> fns[t](3) == Continue)
      modifies this`roundRobinIndex
      ensures Inv(View()) && (!failed ==> |served| == |fns|)
      ensures !failed && |fns| >= |openStreams| ==>
                forall id | id in openStreams && !IsFirst(id) :: exists t :: 0 <= t < |served| && id in served[t]
    {
      hide Inv, ServesAdvance, UntilRefused, AllContinue;
      served, failed := [], false;
      ghost var rounds: seq<Round> := [];
      while |served| < |fns|
        invariant |served| <= |fns| && Inv(View()) && |rounds| == |served|
        invariant forall t | 0 <= t < |rounds| :: rounds[t].visited == served[t]
        invariant openStreams != [] ==> RoundsOf(openStreams, rounds, roundRobinIndex)
      {
        ghost var start := roundRobinIndex;
        var visited, fails, advance := RoundRobinIterate(fns[|served|]);
        if fails {
          return served, true;
        }
        if openStreams != [] {
          NextRound(openStreams, rounds, start, advance, visited, roundRobinIndex);
        }
        rounds := rounds + [Round(start, advance, visited)];
        served := served + [visited];
      }
      if |fns| >= |openStreams| {
        forall id | id in openStreams && !IsFirst(id) ensures exists t :: 0 <= t < |served| && id in served[t] {
          Fairness(openStreams, rounds, id);
          var t :| 0 <= t < |rounds| && id in rounds[t].visited;
          assert id in served[t];
        }
      }
    }

    method CloseWithError()
      requires Inv(View())
      modifies this`closed
      ensures closed && Inv(View())
    {
      closed := true;
    }
  }

  // The peer opens streams 1 and 3, and the first is removed before it is accepted: the second is not
  // accepted either, although it is open.
  method RemovedBeforeAccepted() returns (second: Lookup, r: Lookup)
    ensures second == Found(Stream(3)) && r == Waiting
  {
    hide Inv, OpenUpTo;
    var m := new StreamsMap(true, 10, 10);
    OpenNext(m.View(), 1, 10);
    var _ := m.GetOrOpenStream(1);
    OpenNext(m.View(), 3, 10);
    second := m.GetOrOpenStream(3);
    var removed := m.RemoveStream(1);
    r := m.AcceptStream();
  }

  lemma OpenNext(st: State, id: nat, max: nat)
    requires NextRemote(st) == id && id > 0 && st.numIncomingStreams < max
    ensures OpenUpTo(st, id, max) == OpenedByPeer(st)
  {
  }
}
