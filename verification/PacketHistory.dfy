/**
 Sequences of packets in ascending order of their numbers, as the sender keeps them for
 the packets in flight. Taking packets out of such a sequence is described by the set of
 their numbers.
 */
module PacketHistory {

  // Frames by the way the sender treats them: ACK and STOP_WAITING frames are never sent
  // again. Of the others, a few kinds (CLOSE_PATH, for one) are missing in the list that
  // decides whether there is anything left to retransmit.
  datatype Frame = Ack | StopWaiting | Listed | Unlisted

  datatype Packet = Packet(number: nat, frames: seq<Frame>, length: nat, sendTime: int)
  {
    predicate IsRetransmittable() {
      Listed in frames
    }
  }

  function StripNonRetransmittable(frames: seq<Frame>): seq<Frame> {
    if frames == [] then []
    else if frames[0] == Ack || frames[0] == StopWaiting then StripNonRetransmittable(frames[1..])
    else [frames[0]] + StripNonRetransmittable(frames[1..])
  }

  // What is left are the other frames, each as often as before and in the same order.
  lemma {:induction false} StripKeeps(frames: seq<Frame>, f: Frame)
    ensures multiset(StripNonRetransmittable(frames))[f] ==
            if f == Ack || f == StopWaiting then 0 else multiset(frames)[f]
    ensures f in StripNonRetransmittable(frames) <==> f in frames && f != Ack && f != StopWaiting
  {
    if frames != [] {
      StripKeeps(frames[1..], f);
      assert frames == [frames[0]] + frames[1..];
      assert f in frames <==> f == frames[0] || f in frames[1..];
    }
  }

  lemma {:induction false} StripConcat(a: seq<Frame>, b: seq<Frame>)
    ensures StripNonRetransmittable(a + b) == StripNonRetransmittable(a) + StripNonRetransmittable(b)
  {
    if a == [] {
      assert a + b == b;
    } else {
      assert (a + b)[1..] == a[1..] + b;
      StripConcat(a[1..], b);
    }
  }

  ghost predicate Ascending(h: seq<Packet>) {
    && (forall i :: 0 <= i < |h| ==> 0 < h[i].number)
    && (forall i, j :: 0 <= i < j < |h| ==> h[i].number < h[j].number)
  }

  function SumLength(h: seq<Packet>): nat {
    if h == [] then 0 else h[0].length + SumLength(h[1..])
  }

  ghost function Numbers(h: seq<Packet>): set<nat> {
    set i | 0 <= i < |h| :: h[i].number
  }

  // The packets with a number in s, and the others.
  function Pick(h: seq<Packet>, s: set<nat>): seq<Packet> {
    if h == [] then []
    else if h[0].number in s then [h[0]] + Pick(h[1..], s)
    else Pick(h[1..], s)
  }

  function Drop(h: seq<Packet>, s: set<nat>): seq<Packet> {
    if h == [] then []
    else if h[0].number in s then Drop(h[1..], s)
    else [h[0]] + Drop(h[1..], s)
  }

  lemma NumbersAt(h: seq<Packet>, i: nat)
    requires i < |h|
    ensures h[i].number in Numbers(h)
  {
  }

  lemma NumbersCons(p: Packet, h: seq<Packet>)
    ensures Numbers([p] + h) == {p.number} + Numbers(h)
  {
    forall n
      ensures n in Numbers([p] + h) <==> n in {p.number} + Numbers(h)
    {
      if n in Numbers(h) {
        var i :| 0 <= i < |h| && h[i].number == n;
        assert ([p] + h)[i + 1].number == n;
      }
      assert ([p] + h)[0].number == p.number;
    }
  }

  lemma NumbersConcat(a: seq<Packet>, b: seq<Packet>)
    ensures Numbers(a + b) == Numbers(a) + Numbers(b)
  {
    forall n
      ensures n in Numbers(a + b) <==> n in Numbers(a) + Numbers(b)
    {
      if n in Numbers(a) {
        var i :| 0 <= i < |a| && a[i].number == n;
        assert (a + b)[i].number == n;
      }
      if n in Numbers(b) {
        var i :| 0 <= i < |b| && b[i].number == n;
        assert (a + b)[|a| + i].number == n;
      }
    }
  }

  lemma {:induction false} SumLengthConcat(a: seq<Packet>, b: seq<Packet>)
    ensures SumLength(a + b) == SumLength(a) + SumLength(b)
  {
    if a == [] {
      assert a + b == b;
    } else {
      assert (a + b)[1..] == a[1..] + b;
      SumLengthConcat(a[1..], b);
    }
  }

  lemma HeadTail(h: seq<Packet>)
    requires h != []
    ensures Numbers(h) == {h[0].number} + Numbers(h[1..])
    ensures Ascending(h) ==> Ascending(h[1..]) && forall n :: n in Numbers(h[1..]) ==> h[0].number < n
  {
    assert h == [h[0]] + h[1..];
    NumbersCons(h[0], h[1..]);
    assert forall i :: 0 <= i < |h[1..]| ==> h[1..][i] == h[i + 1];
  }

  // Pick and Drop split a sequence.
  lemma {:induction false} PickDrop(h: seq<Packet>, s: set<nat>)
    ensures SumLength(h) == SumLength(Pick(h, s)) + SumLength(Drop(h, s))
    ensures |h| == |Pick(h, s)| + |Drop(h, s)|
    ensures Numbers(Pick(h, s)) == Numbers(h) * s
    ensures Numbers(Drop(h, s)) == Numbers(h) - s
  {
    if h != [] {
      HeadTail(h);
      PickDrop(h[1..], s);
      NumbersCons(h[0], Pick(h[1..], s));
      NumbersCons(h[0], Drop(h[1..], s));
      assert ([h[0]] + Pick(h[1..], s))[1..] == Pick(h[1..], s);
      assert ([h[0]] + Drop(h[1..], s))[1..] == Drop(h[1..], s);
    }
  }

  lemma AscendingCons(p: Packet, h: seq<Packet>)
    requires 0 < p.number && Ascending(h) && forall n :: n in Numbers(h) ==> p.number < n
    ensures Ascending([p] + h)
  {
    forall i | 0 <= i < |h| ensures p.number < h[i].number { NumbersAt(h, i); }
  }

  lemma {:induction false} PickDropAscending(h: seq<Packet>, s: set<nat>)
    requires Ascending(h)
    ensures Ascending(Pick(h, s)) && Ascending(Drop(h, s))
  {
    if h != [] {
      HeadTail(h);
      PickDropAscending(h[1..], s);
      PickDrop(h[1..], s);
      AscendingCons(h[0], Pick(h[1..], s));
      AscendingCons(h[0], Drop(h[1..], s));
    }
  }

  lemma PickCons(p: Packet, h: seq<Packet>, s: set<nat>)
    ensures Pick([p] + h, s) == if p.number in s then [p] + Pick(h, s) else Pick(h, s)
    ensures Drop([p] + h, s) == if p.number in s then Drop(h, s) else [p] + Drop(h, s)
  {
    assert ([p] + h)[1..] == h;
  }

  lemma {:induction false} PickConcat(a: seq<Packet>, b: seq<Packet>, s: set<nat>)
    ensures Pick(a + b, s) == Pick(a, s) + Pick(b, s)
    ensures Drop(a + b, s) == Drop(a, s) + Drop(b, s)
  {
    hide Pick, Drop;
    if a == [] {
      PickEmpty(s);
      assert a + b == b;
    } else {
      var p, rest := a[0], a[1..];
      assert a == [p] + rest && a + b == [p] + (rest + b);
      PickCons(p, rest, s);
      PickCons(p, rest + b, s);
      PickConcat(rest, b, s);
    }
  }

  lemma PickEmpty(s: set<nat>)
    ensures Pick([], s) == [] && Drop([], s) == []
  {
  }

  lemma {:induction false} DropDrop(h: seq<Packet>, s: set<nat>, t: set<nat>)
    ensures Drop(Drop(h, s), t) == Drop(h, s + t)
  {
    if h != [] {
      DropDrop(h[1..], s, t);
      assert ([h[0]] + Drop(h[1..], s))[1..] == Drop(h[1..], s);
    }
  }

  lemma {:induction false} DropNone(h: seq<Packet>, s: set<nat>)
    requires Numbers(h) !! s
    ensures Drop(h, s) == h && Pick(h, s) == []
  {
    if h != [] {
      HeadTail(h);
      DropNone(h[1..], s);
    }
  }

  lemma {:induction false} PickAll(h: seq<Packet>, s: set<nat>)
    requires Numbers(h) <= s
    ensures Pick(h, s) == h && Drop(h, s) == []
  {
    if h != [] {
      HeadTail(h);
      PickAll(h[1..], s);
    }
  }
}
