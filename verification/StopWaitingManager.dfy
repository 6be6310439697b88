/**
 Tells the peer from which packet number on it still has to send acknowledgements.
 */
module StopWaitingManager {
  import opened MinMax
  import opened Wire
  import opened Wrappers

  datatype State = State(largestLeastUnackedSent: nat, nextLeastUnacked: nat, lastFrame: Option<nat>)

  // The last frame is the one with the largest number announced so far.
  ghost predicate Inv(st: State) {
    && st.largestLeastUnackedSent <= st.nextLeastUnacked
    && st.lastFrame == if st.largestLeastUnackedSent == 0 then None else Some(st.largestLeastUnackedSent)
  }

  class Manager {
    var largestLeastUnackedSent: nat
    var nextLeastUnacked: nat
    var lastStopWaitingFrame: Option<nat>

    ghost function View(): State
      reads this
    {
      State(largestLeastUnackedSent, nextLeastUnacked, lastStopWaitingFrame)
    }

    constructor ()
      ensures View() == State(0, 0, None) && Inv(View())
    {
      largestLeastUnackedSent, nextLeastUnacked, lastStopWaitingFrame := 0, 0, None;
    }

    // The LeastUnacked of the next STOP_WAITING frame. A forced frame repeats the last one;
    // the case that there was none although one was announced does not occur.
    method GetStopWaitingFrame(force: bool) returns (frame: Option<nat>)
      modifies this
      ensures nextLeastUnacked == old(nextLeastUnacked)
      ensures Inv(old(View())) ==>
                && Inv(View())
                && frame == (if old(largestLeastUnackedSent) < nextLeastUnacked then Some(nextLeastUnacked)
                             else if force then old(lastStopWaitingFrame) else None)
                && (frame.Some? ==> 0 < frame.value <= nextLeastUnacked)
      ensures old(largestLeastUnackedSent) < nextLeastUnacked ==> largestLeastUnackedSent == nextLeastUnacked
      ensures nextLeastUnacked <= old(largestLeastUnackedSent) && Inv(old(View())) ==> View() == old(View())
    {
      if nextLeastUnacked <= largestLeastUnackedSent {
        if force {
          if lastStopWaitingFrame.None? && largestLeastUnackedSent > 0 {
            lastStopWaitingFrame := Some(nextLeastUnacked);
          }
          return lastStopWaitingFrame;
        }
        return None;
      }
      largestLeastUnackedSent := nextLeastUnacked;
      lastStopWaitingFrame := Some(nextLeastUnacked);
      frame := lastStopWaitingFrame;
    }

    method ReceivedAck(ack: AckFrame)
      requires Inv(View())
      modifies this
      ensures View() == old(View()).(nextLeastUnacked := Max(old(nextLeastUnacked), ack.largestAcked + 1))
      ensures Inv(View())
    {
      if ack.largestAcked >= nextLeastUnacked {
        nextLeastUnacked := ack.largestAcked + 1;
      }
    }

    method QueuedRetransmissionForPacketNumber(p: nat)
      requires Inv(View())
      modifies this
      ensures View() == old(View()).(nextLeastUnacked := Max(old(nextLeastUnacked), p + 1))
      ensures Inv(View())
    {
      if p >= nextLeastUnacked {
        nextLeastUnacked := p + 1;
      }
    }
  }
}
