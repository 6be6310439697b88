/**
 One pass over the packets in flight and, in step with it, over the ranges of an ACK frame
 finds the packets that the frame acknowledges.
 */
module AckWalk {
  import opened Wire
  import opened PacketHistory

  // The numbers in flight that the frame acknowledges.
  ghost function AckedNumbers(h: seq<Packet>, ack: AckFrame): set<nat> {
    set n | n in Numbers(h) && ack.AcksPacket(n)
  }

  // The ranges that the walk has left behind end below number n.
  ghost predicate Behind(ack: AckFrame, rangeIndex: nat, n: nat)
    requires rangeIndex <= |ack.ackRanges|
  {
    forall k :: |ack.ackRanges| - rangeIndex <= k < |ack.ackRanges| ==> ack.ackRanges[k].last < n
  }

  // At its current range the walk can tell whether packet n is acknowledged.
  lemma WalkDecides(ack: AckFrame, rangeIndex: nat, n: nat)
    requires ack.WellFormed() && ack.HasMissingRanges() && rangeIndex < |ack.ackRanges|
    requires ack.lowestAcked <= n <= ack.largestAcked
    requires Behind(ack, rangeIndex, n)
    requires var range := ack.ackRanges[|ack.ackRanges| - 1 - rangeIndex];
             n <= range.last || rangeIndex == |ack.ackRanges| - 1
    ensures var range := ack.ackRanges[|ack.ackRanges| - 1 - rangeIndex];
            n <= range.last && (ack.AcksPacket(n) <==> range.first <= n)
  {
    var k := |ack.ackRanges| - 1 - rangeIndex;
    var range := ack.ackRanges[k];
    if n < range.first {
      forall i | 0 <= i < |ack.ackRanges|
        ensures !(ack.ackRanges[i].first <= n <= ack.ackRanges[i].last)
      {
        assert i < k ==> ack.ackRanges[k].last + 1 < ack.ackRanges[i].first;
      }
    }
  }

  lemma PickOne(h: seq<Packet>, ack: AckFrame, i: nat)
    requires Ascending(h) && i < |h|
    ensures Pick(h[..i + 1], AckedNumbers(h, ack)) ==
            Pick(h[..i], AckedNumbers(h, ack)) + if ack.AcksPacket(h[i].number) then [h[i]] else []
  {
    assert h[..i + 1] == h[..i] + [h[i]];
    PickConcat(h[..i], [h[i]], AckedNumbers(h, ack));
    NumbersAt(h, i);
    assert [h[i]][1..] == [];
  }

  lemma AboveNotAcked(h: seq<Packet>, ack: AckFrame, i: nat)
    requires Ascending(h) && i <= |h|
    requires i < |h| ==> ack.largestAcked < h[i].number
    ensures Numbers(h[i..]) !! AckedNumbers(h, ack)
  {
    forall n | n in Numbers(h[i..]) ensures n !in AckedNumbers(h, ack) {
      var k :| 0 <= k < |h[i..]| && h[i..][k].number == n;
      assert n == h[i + k].number;
    }
  }

  // Behind the largest acknowledged number nothing is acknowledged.
  lemma NoneAbove(h: seq<Packet>, ack: AckFrame, i: nat)
    requires Ascending(h) && i <= |h|
    requires i < |h| ==> ack.largestAcked < h[i].number
    ensures Pick(h[i..], AckedNumbers(h, ack)) == []
    ensures Pick(h, AckedNumbers(h, ack)) == Pick(h[..i], AckedNumbers(h, ack))
  {
    hide Pick, Drop, AckedNumbers;
    AboveNotAcked(h, ack, i);
    DropNone(h[i..], AckedNumbers(h, ack));
    assert h == h[..i] + h[i..];
    PickConcat(h[..i], h[i..], AckedNumbers(h, ack));
  }

  // The packets of h that are acknowledged. The error that a packet would be acknowledged by
  // mistake cannot occur for a well-formed frame.
  method DetermineNewlyAckedPackets(h: seq<Packet>, ack: AckFrame) returns (acked: seq<Packet>, bug: bool)
    ensures ack.WellFormed() && Ascending(h) ==> !bug && acked == Pick(h, AckedNumbers(h, ack))
  {
    hide Pick, AckedNumbers;
    ghost var sound := ack.WellFormed() && Ascending(h);
    acked, bug := [], false;
    var ackRangeIndex := 0;
    PickEmpty(AckedNumbers(h, ack));
    var i := 0;
    while i < |h|
      invariant i <= |h|
      invariant ack.HasMissingRanges() ==> ackRangeIndex < |ack.ackRanges|
      invariant !ack.HasMissingRanges() ==> ackRangeIndex == 0
      invariant sound ==> acked == Pick(h[..i], AckedNumbers(h, ack))
      invariant sound && i < |h| ==> Behind(ack, ackRangeIndex, h[i].number)
    {
      var packetNumber := h[i].number;
      if sound {
        PickOne(h, ack, i);
      }
      // ignore packets below LowestAcked
      if packetNumber < ack.lowestAcked {
        i := i + 1;
        continue;
      }
      // stop after LargestAcked
      if packetNumber > ack.largestAcked {
        if sound {
          NoneAbove(h, ack, i);
        }
        return;
      }
      if ack.HasMissingRanges() {
        var ackRange := ack.ackRanges[|ack.ackRanges| - 1 - ackRangeIndex];
        while packetNumber > ackRange.last && ackRangeIndex < |ack.ackRanges| - 1
          invariant ackRangeIndex < |ack.ackRanges|
          invariant ackRange == ack.ackRanges[|ack.ackRanges| - 1 - ackRangeIndex]
          invariant sound ==> Behind(ack, ackRangeIndex, packetNumber)
          decreases |ack.ackRanges| - ackRangeIndex
        {
          ackRangeIndex := ackRangeIndex + 1;
          ackRange := ack.ackRanges[|ack.ackRanges| - 1 - ackRangeIndex];
        }
        if sound {
          WalkDecides(ack, ackRangeIndex, packetNumber);
        }
        if packetNumber >= ackRange.first {
          if packetNumber > ackRange.last {
            return [], true;
          }
          acked := acked + [h[i]];
        }
      } else {
        acked := acked + [h[i]];
      }
      i := i + 1;
    }
    if sound {
      NoneAbove(h, ack, |h|);
    }
  }
}
