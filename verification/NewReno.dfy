/**
 What cubic_sender.go and olia_sender.go have in common: the window in packets, the slow start threshold,
 and the rule of RFC 6582 that losses among the packets of one window count as one event.
 */
module NewReno {
  import opened Modulo

  const DEFAULT_TCP_MSS := 1460
  const MIN_CONGESTION_WINDOW: nat := 2
  const MAX_BURST_BYTES := 3 * DEFAULT_TCP_MSS

  // The fields; `sent` and `sinceCutback` are the packets sent at all and since the last cutback.
  datatype State = State(
    window: nat,
    threshold: nat,
    maxWindow: nat,
    largestSent: nat,
    largestAcked: nat,
    largestSentAtLastCutback: nat,
    lastCutbackExitedSlowstart: bool,
    slowStartLargeReduction: bool,
    packetsLost: nat,
    bytesLost: nat,
    sent: set<nat>,
    sinceCutback: set<nat>)

  function Initial(window: nat, maxWindow: nat): State {
    State(window, maxWindow, maxWindow, 0, 0, 0, false, false, 0, 0, {}, {})
  }

  predicate InSlowStart(window: nat, threshold: nat) {
    window * DEFAULT_TCP_MSS < threshold * DEFAULT_TCP_MSS
  }

  predicate InRecovery(largestAcked: nat, largestSentAtLastCutback: nat) {
    largestAcked <= largestSentAtLastCutback && largestAcked != 0
  }

  // Is the sender close to using its window?
  predicate IsWindowLimited(window: nat, threshold: nat, bytesInFlight: nat) {
    var bytes := window * DEFAULT_TCP_MSS;
    || bytesInFlight >= bytes
    || (InSlowStart(window, threshold) && bytesInFlight > bytes / 2)
    || bytes - bytesInFlight <= MAX_BURST_BYTES
  }

  // The window after the multiplicative decrease of n emulated connections: (n - 1 + 0.7) / n of it, rounded down.
  function Reduced(window: nat, n: nat): (w: nat)
    requires n > 0
    ensures w <= window
    ensures 10 * n * w <= window * (10 * n - 3) < 10 * n * (w + 1)
  {
    assert window * (10 * n - 3) <= window * (10 * n);
    Quotient(window * (10 * n - 3), 10 * n, window);
    QuotientIs(window * (10 * n - 3), 10 * n);
    window * (10 * n - 3) / (10 * n)
  }

  function AfterSent(st: State, number: nat): State {
    st.(largestSent := number, sent := st.sent + {number}, sinceCutback := st.sinceCutback + {number})
  }

  function AfterAcked(st: State, number: nat): State {
    st.(largestAcked := if number > st.largestAcked then number else st.largestAcked)
  }

  // Does the loss of this packet start a new loss event?
  predicate IsCutback(st: State, number: nat) {
    number > st.largestSentAtLastCutback
  }

  // A loss that belongs to the last event: only the large reduction takes anything more away.
  function LostAgain(st: State, bytes: nat): State {
    if !st.lastCutbackExitedSlowstart then st
    else
      var lost, total := st.packetsLost + 1, st.bytesLost + bytes;
      var counted := st.(packetsLost := lost, bytesLost := total);
      if !st.slowStartLargeReduction then counted
      else
        var shrinks := lost == 1 || total / DEFAULT_TCP_MSS > st.bytesLost / DEFAULT_TCP_MSS;
        var window := if shrinks then AtLeastMin(st.window - 1) else st.window;
        counted.(window := window, threshold := window)
  }

  function AtLeastMin(window: int): nat {
    if window < MIN_CONGESTION_WINDOW then MIN_CONGESTION_WINDOW else window
  }

  // A new loss event; `reduced` is the window after the multiplicative decrease.
  function CutBack(st: State, reduced: nat): State {
    var slow := InSlowStart(st.window, st.threshold);
    var window := AtLeastMin(if st.slowStartLargeReduction && slow then st.window - 1 else reduced);
    st.(lastCutbackExitedSlowstart := slow, packetsLost := if slow then st.packetsLost + 1 else st.packetsLost,
        window := window, threshold := window, largestSentAtLastCutback := st.largestSent, sinceCutback := {})
  }

  function AfterLost(st: State, number: nat, bytes: nat, reduced: nat): State {
    if IsCutback(st, number) then CutBack(st, reduced) else LostAgain(st, bytes)
  }

  function AfterTimeout(st: State, retransmitted: bool): State {
    var forgotten := st.(largestSentAtLastCutback := 0, sinceCutback := st.sent);
    if !retransmitted then forgotten
    else forgotten.(threshold := st.window / 2, window := MIN_CONGESTION_WINDOW)
  }

  function AfterExit(st: State): State {
    st.(threshold := st.window)
  }

  function AfterMigration(st: State, window: nat, maxWindow: nat): State {
    Initial(window, maxWindow).(packetsLost := st.packetsLost, bytesLost := st.bytesLost,
                                slowStartLargeReduction := st.slowStartLargeReduction)
  }

  // The window stays within its bounds, and the number kept at a cutback separates what was sent
  // before it from what was sent since.
  ghost predicate Inv(st: State, least: nat) {
    && 1 <= least <= MIN_CONGESTION_WINDOW <= st.maxWindow
    && least <= st.window <= st.maxWindow
    && (forall p | p in st.sent :: 0 < p <= st.largestSent)
    && (forall p :: p in st.sinceCutback <==> p in st.sent && p > st.largestSentAtLastCutback)
  }

  lemma InvBounds(st: State, least: nat)
    requires Inv(st, least)
    ensures 1 <= least <= st.window <= st.maxWindow
  {
  }

  lemma InvWindow(st: State, least: nat, window: nat)
    requires Inv(st, least) && least <= window <= st.maxWindow
    ensures Inv(st.(window := window), least)
  {
  }

  lemma SentInv(st: State, least: nat, number: nat)
    requires Inv(st, least) && number > st.largestSent >= st.largestSentAtLastCutback
    ensures Inv(AfterSent(st, number), least)
  {
  }

  lemma LostInv(st: State, least: nat, number: nat, bytes: nat, reduced: nat)
    requires Inv(st, least) && reduced <= st.window
    ensures Inv(AfterLost(st, number, bytes, reduced), least)
    ensures AfterLost(st, number, bytes, reduced).window <= (if st.window > 2 then st.window else 2)
  {
  }

  lemma TimeoutInv(st: State, least: nat, retransmitted: bool)
    requires Inv(st, least)
    ensures Inv(AfterTimeout(st, retransmitted), least)
  {
  }

  // Only a packet that was sent after the last cutback can cause another one.
  lemma CutbacksApart(st: State, least: nat, number: nat)
    requires Inv(st, least) && number in st.sent
    ensures IsCutback(st, number) <==> number in st.sinceCutback
  {
  }

  // ... and right after a cutback, no packet sent so far can.
  lemma OneCutbackPerWindow(st: State, least: nat, reduced: nat, number: nat)
    requires Inv(st, least) && number in st.sent
    ensures !IsCutback(CutBack(st, reduced), number)
  {
  }

  // ---- what the rules mean ----

  // Close to using the window: at most three packets are free, or less than half of it in slow start.
  lemma WindowLimited(window: nat, threshold: nat, bytesInFlight: nat)
    ensures IsWindowLimited(window, threshold, bytesInFlight) <==>
              || bytesInFlight + 3 * 1460 >= window * 1460
              || (window < threshold && 2 * bytesInFlight > window * 1460)
  {
    SlowStartIs(window, threshold);
  }

  lemma SlowStartIs(window: nat, threshold: nat)
    ensures InSlowStart(window, threshold) <==> window < threshold
  {
  }

  // Recovery ends exactly with the ack of a packet that was sent since the cutback.
  lemma RecoveryEnds(st: State, least: nat, number: nat)
    requires Inv(st, least) && number in st.sent && InRecovery(st.largestAcked, st.largestSentAtLastCutback)
    ensures var st' := AfterAcked(st, number);
            !InRecovery(st'.largestAcked, st'.largestSentAtLastCutback) <==> number in st.sinceCutback
  {
  }

  // A cutback leaves the share of the window that belongs to n connections, rounded down, or the minimum if that
  // is larger; with the large reduction, it takes one packet away in slow start. It also ends slow start.
  ghost predicate LeavesShare(window: nat, n: nat, window': nat) {
    && window' >= 2 && window * (10 * n - 3) < 10 * n * (window' + 1)
    && (window' == 2 || 10 * n * window' <= window * (10 * n - 3))
  }

  lemma CutbackShare(st: State, n: nat)
    requires n > 0
    ensures var st' := CutBack(st, Reduced(st.window, n));
            && (if st.slowStartLargeReduction && st.window < st.threshold then
                  st'.window == (if st.window > 3 then st.window - 1 else 2)
                else LeavesShare(st.window, n, st'.window))
            && st'.threshold == st'.window && !InSlowStart(st'.window, st'.threshold)
            && (st'.lastCutbackExitedSlowstart <==> st.window < st.threshold)
            && st'.packetsLost == st.packetsLost + (if st.window < st.threshold then 1 else 0)
            && st'.bytesLost == st.bytesLost && st'.largestSentAtLastCutback == st.largestSent
  {
    hide Reduced;
    SlowStartIs(st.window, st.threshold);
    var w := Reduced(st.window, n);
    if w < 2 {
      ShareMonotone(n, w + 1, 3);
    }
  }

  lemma ShareMonotone(n: nat, w: nat, w': nat)
    requires w <= w'
    ensures 10 * n * w <= 10 * n * w'
  {
  }

  // With the large reduction, a further loss of an event that ended slow start takes one more packet away if it is
  // the first one counted, or if the bytes lost so far go beyond a multiple of the packet size with it.
  lemma LostAgainOutcome(st: State, bytes: nat)
    ensures var st' := LostAgain(st, bytes);
            if !st.lastCutbackExitedSlowstart then st' == st
            else
              && st' == st.(window := st'.window, threshold := st'.threshold, packetsLost := st.packetsLost + 1,
                            bytesLost := st.bytesLost + bytes)
              && if !st.slowStartLargeReduction then st'.window == st.window && st'.threshold == st.threshold
                 else
                   && st'.threshold == st'.window
                   && st'.window == if st.packetsLost > 0 && !CompletesPacket(st.bytesLost, bytes) then st.window
                                    else if st.window > 3 then st.window - 1 else 2
  {
    hide CompletesPacket;
    Completes(st.bytesLost, bytes);
  }

  ghost predicate CompletesPacket(before: nat, more: nat) {
    exists k :: before < k * 1460 <= before + more
  }

  lemma Completes(before: nat, more: nat)
    ensures CompletesPacket(before, more) <==> (before + more) / 1460 > before / 1460
  {
    if (before + more) / 1460 > before / 1460 {
      var k := (before + more) / 1460;
      assert before < k * 1460 <= before + more;
    }
  }

  // After a timeout with something to send again, the window is the minimum, slow start leads up to half of the
  // old window, and every packet sent so far can cause a cutback again.
  lemma TimeoutOutcome(st: State, least: nat, retransmitted: bool)
    requires Inv(st, least)
    ensures var st' := AfterTimeout(st, retransmitted);
            && (forall p | p in st.sent :: IsCutback(st', p))
            && if retransmitted then st'.window == 2 && 2 * st'.threshold <= st.window < 2 * (st'.threshold + 1)
               else st'.window == st.window && st'.threshold == st.threshold
  {
  }

  lemma ExitOutcome(st: State)
    ensures !InSlowStart(AfterExit(st).window, AfterExit(st).threshold)
    ensures AfterExit(st) == st.(threshold := AfterExit(st).threshold)
  {
  }
}
