/**
 The frames exchanged by two endpoints, as far as the transport core looks at them.
 */
module Wire {

  newtype byte = x: int | 0 <= x < 256

  // The largest ByteCount, an unsigned 64-bit integer.
  const MAX_BYTE_COUNT: nat := 0xFFFF_FFFF_FFFF_FFFF

  /** A piece of one stream: `data` starts at byte `offset` of stream `streamID`. */
  datatype StreamFrame = StreamFrame(
    streamID: nat,
    finBit: bool,
    dataLenPresent: bool,
    offset: nat,
    lossCount: nat,
    pathID: nat,
    timeStamp: nat,
    data: seq<byte>)
  {
    function DataLen(): nat {
      |data|
    }

    function End(): nat {
      offset + |data|
    }

    function StreamIDLength(): nat {
      if streamID < 0x100 then 1
      else if streamID < 0x1_0000 then 2
      else if streamID < 0x100_0000 then 3
      else 4
    }

    function OffsetLength(): nat {
      if offset == 0 then 0
      else if offset < 0x1_0000 then 2
      else if offset < 0x100_0000 then 3
      else if offset < 0x1_0000_0000 then 4
      else if offset < 0x100_0000_0000 then 5
      else if offset < 0x1_0000_0000_0000 then 6
      else if offset < 0x100_0000_0000_0000 then 7
      else 8
    }

    // Bytes of the header. The loss count, the path and the time stamp are always written.
    function MinLength(): nat {
      3 + StreamIDLength() + OffsetLength() + 8 + (if dataLenPresent then 2 else 0)
    }
  }

  datatype AckRange = AckRange(first: nat, last: nat)

  /** What an ACK frame, or a CLOSE_PATH frame, says about received packets. The ranges are
      given in descending order, and only if there is more than one. */
  datatype AckFrame = AckFrame(largestAcked: nat, lowestAcked: nat, ackRanges: seq<AckRange>)
  {
    predicate HasMissingRanges() {
      |ackRanges| > 0
    }

    predicate AcksPacket(p: nat) {
      && lowestAcked <= p <= largestAcked
      && (HasMissingRanges() ==> exists i :: 0 <= i < |ackRanges| && ackRanges[i].first <= p <= ackRanges[i].last)
    }

    // What the parser of the frame checks.
    ghost predicate WellFormed() {
      && lowestAcked <= largestAcked
      && (HasMissingRanges() ==>
            && |ackRanges| >= 2
            && ackRanges[0].last == largestAcked
            && ackRanges[|ackRanges| - 1].first == lowestAcked
            && (forall i :: 0 <= i < |ackRanges| ==> ackRanges[i].first <= ackRanges[i].last)
            && (forall i, j :: 0 <= i < j < |ackRanges| ==> ackRanges[j].last + 1 < ackRanges[i].first))
    }
  }

  ghost function Power256(n: nat): nat {
    if n == 0 then 1 else 256 * Power256(n - 1)
  }

  // The fields of the header are wide enough for any 32-bit stream and 64-bit offset, and no wider than needed, but
  // for an offset of one byte.
  lemma FieldsFit(f: StreamFrame)
    requires f.streamID < 0x1_0000_0000 && f.offset <= MAX_BYTE_COUNT
    ensures 1 <= f.StreamIDLength() <= 4 && f.streamID < Power256(f.StreamIDLength())
    ensures f.StreamIDLength() > 1 ==> f.streamID >= Power256(f.StreamIDLength() - 1)
    ensures f.OffsetLength() <= 8 && f.OffsetLength() != 1 && f.offset < Power256(f.OffsetLength())
    ensures f.OffsetLength() > 2 ==> f.offset >= Power256(f.OffsetLength() - 1)
    ensures f.OffsetLength() == 0 <==> f.offset == 0
  {
    Powers();
  }

  lemma Powers()
    ensures Power256(0) == 1 && Power256(1) == 0x100 && Power256(2) == 0x1_0000 && Power256(3) == 0x100_0000
    ensures Power256(4) == 0x1_0000_0000 && Power256(5) == 0x100_0000_0000 && Power256(6) == 0x1_0000_0000_0000
    ensures Power256(7) == 0x100_0000_0000_0000 && Power256(8) == 0x1_0000_0000_0000_0000
  {
  }
}
