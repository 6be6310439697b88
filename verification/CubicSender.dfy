/**
 congestion/cubic_sender.go: the window of a single path, with CUBIC or Reno growth outside of slow start;
 the state machine that its methods spell out, and what holds over all runs.
 */
module CubicSender {
  import opened MinMax
  import opened Wrappers
  import opened Cubic
  import opened NewReno

  // All fields.
  datatype SenderState = SenderState(
    path: State,
    cubic: CubicState,
    count: nat,
    numConnections: nat,
    reno: bool,
    initialWindow: nat,
    initialMax: nat)
  {
    function With(window: nat): SenderState {
      this.(path := path.(window := window))
    }
  }

  ghost predicate SenderInv(s: SenderState) {
    && CubicInv(s.cubic) && s.cubic.numConnections == s.numConnections
    && Inv(s.path, MIN_CONGESTION_WINDOW) && s.path.largestSentAtLastCutback <= s.path.largestSent
    && MIN_CONGESTION_WINDOW <= s.initialWindow <= s.initialMax == s.path.maxWindow
  }

  // What can happen to a sender. `SlowStartExited` stands for the decision of hybrid slow start.
  datatype Event =
    | Sent(number: nat, isRetransmittable: bool)
    | Acked(number: nat, bytesInFlight: nat, minRTT: nat, now: int)
    | Lost(number: nat, bytes: nat)
    | TimedOut(retransmitted: bool)
    | Migrated
    | SlowStartExited
    | LargeReductionSet(enabled: bool)
    | ConnectionsSet(n: int)

  // Growth outside of slow start.
  ghost predicate Grown(s: SenderState, minRTT: nat, now: int, s': SenderState)
    requires s.cubic.numConnections > 0
  {
    if s.reno then
      s' == if (s.count + 1) * s.numConnections >= s.path.window then s.(count := 0).With(s.path.window + 1)
            else s.(count := s.count + 1)
    else
      && AckSpec(s.cubic, s.path.window, minRTT, now, s'.cubic)
      && s' == s.(cubic := s'.cubic).With(Min(WindowOf(s'.cubic), s.path.maxWindow))
  }

  // The window grows only if the sender is close to using it and may grow further.
  ghost predicate MaybeGrown(s: SenderState, bytesInFlight: nat, minRTT: nat, now: int, s': SenderState)
    requires s.cubic.numConnections > 0
  {
    if !IsWindowLimited(s.path.window, s.path.threshold, bytesInFlight) then
      s' == s.(cubic := AfterLimited(s.cubic, now))
    else if s.path.window >= s.path.maxWindow then s' == s
    else if InSlowStart(s.path.window, s.path.threshold) then s' == s.With(s.path.window + 1)
    else Grown(s, minRTT, now, s')
  }

  ghost predicate AckedSpec(s: SenderState, number: nat, bytesInFlight: nat, minRTT: nat, now: int, s': SenderState)
    requires s.cubic.numConnections > 0
  {
    var acked := s.(path := AfterAcked(s.path, number));
    if InRecovery(acked.path.largestAcked, acked.path.largestSentAtLastCutback) then s' == acked
    else MaybeGrown(acked, bytesInFlight, minRTT, now, s')
  }

  // CUBIC is told of a cutback unless the large reduction is used or Reno is.
  function AfterPacketLoss(s: SenderState, number: nat, bytes: nat): SenderState
    requires s.numConnections > 0
  {
    var path := AfterLost(s.path, number, bytes, Reduced(s.path.window, s.numConnections));
    if !IsCutback(s.path, number) then s.(path := path)
    else if (s.path.slowStartLargeReduction && InSlowStart(s.path.window, s.path.threshold)) || s.reno then
      s.(path := path, count := 0)
    else s.(path := path, count := 0, cubic := AfterLoss(s.cubic, s.path.window))
  }

  function AfterRetransmissionTimeout(s: SenderState, retransmitted: bool): SenderState {
    s.(path := AfterTimeout(s.path, retransmitted),
       cubic := if retransmitted then Fresh(s.cubic.numConnections) else s.cubic)
  }

  function AfterConnectionMigration(s: SenderState): SenderState {
    s.(path := AfterMigration(s.path, s.initialWindow, s.initialMax),
       cubic := Fresh(s.cubic.numConnections), count := 0)
  }

  function WithConnections(s: SenderState, n: int): SenderState {
    var connections: nat := if n > 1 then n else 1;
    s.(numConnections := connections, cubic := s.cubic.(numConnections := connections))
  }

  function InitialState(reno: bool, window: nat, maxWindow: nat): SenderState {
    SenderState(Initial(window, maxWindow), Fresh(2), 0, 2, reno, window, maxWindow)
  }

  // One call of a method; packet numbers go up.
  ghost predicate Step(s: SenderState, e: Event, s': SenderState) {
    && s.numConnections == s.cubic.numConnections > 0
    && match e
       case Sent(number, isRetransmittable) =>
         number > s.path.largestSent
         && s' == if isRetransmittable then s.(path := AfterSent(s.path, number)) else s
       case Acked(number, bytesInFlight, minRTT, now) => AckedSpec(s, number, bytesInFlight, minRTT, now, s')
       case Lost(number, bytes) => s' == AfterPacketLoss(s, number, bytes)
       case TimedOut(retransmitted) => s' == AfterRetransmissionTimeout(s, retransmitted)
       case Migrated => s' == AfterConnectionMigration(s)
       case SlowStartExited => s' == s.(path := AfterExit(s.path))
       case LargeReductionSet(enabled) => s' == s.(path := s.path.(slowStartLargeReduction := enabled))
       case ConnectionsSet(n) => s' == WithConnections(s, n)
  }

  // ---- cubic_sender.go ----

  class Sender {
    const cubic: Cubic
    const reno: bool
    const initialCongestionWindow: nat
    const initialMaxCongestionWindow: nat
    var numConnections: nat
    var congestionWindow: nat
    var congestionWindowCount: nat
    var slowstartThreshold: nat
    var maxTCPCongestionWindow: nat
    var largestSentPacketNumber: nat
    var largestAckedPacketNumber: nat
    var largestSentAtLastCutback: nat
    var lastCutbackExitedSlowstart: bool
    var slowStartLargeReduction: bool
    var slowstartPacketsLost: nat
    var slowstartBytesLost: nat
    ghost var sent: set<nat>
    ghost var sinceCutback: set<nat>

    ghost function Path(): State
      reads this
    {
      State(congestionWindow, slowstartThreshold, maxTCPCongestionWindow, largestSentPacketNumber,
            largestAckedPacketNumber, largestSentAtLastCutback, lastCutbackExitedSlowstart,
            slowStartLargeReduction, slowstartPacketsLost, slowstartBytesLost, sent, sinceCutback)
    }

    ghost function View(): SenderState
      reads this, cubic
    {
      SenderState(Path(), cubic.View(), congestionWindowCount, numConnections, reno,
                  initialCongestionWindow, initialMaxCongestionWindow)
    }

    constructor (reno: bool, initialCongestionWindow: nat, initialMaxCongestionWindow: nat)
      requires MIN_CONGESTION_WINDOW <= initialCongestionWindow <= initialMaxCongestionWindow
      ensures View() == InitialState(reno, initialCongestionWindow, initialMaxCongestionWindow) && SenderInv(View())
      ensures fresh(cubic)
    {
      cubic := new Cubic();
      this.reno := reno;
      this.initialCongestionWindow, this.initialMaxCongestionWindow :=
        initialCongestionWindow, initialMaxCongestionWindow;
      numConnections, congestionWindowCount := 2, 0;
      congestionWindow, slowstartThreshold, maxTCPCongestionWindow :=
        initialCongestionWindow, initialMaxCongestionWindow, initialMaxCongestionWindow;
      largestSentPacketNumber, largestAckedPacketNumber, largestSentAtLastCutback := 0, 0, 0;
      lastCutbackExitedSlowstart, slowStartLargeReduction := false, false;
      slowstartPacketsLost, slowstartBytesLost := 0, 0;
      sent, sinceCutback := {}, {};
    }

    method OnPacketSent(number: nat, isRetransmittable: bool) returns (counts: bool)
      requires number > largestSentPacketNumber && numConnections == cubic.numConnections > 0
      modifies this
      ensures Step(old(View()), Sent(number, isRetransmittable), View()) && counts == isRetransmittable
    {
      if !isRetransmittable {
        return false;
      }
      largestSentPacketNumber := number;
      sent, sinceCutback := sent + {number}, sinceCutback + {number};
      counts := true;
    }

    // An ack outside of recovery lets the window grow.
    method OnPacketAcked(number: nat, bytesInFlight: nat, minRTT: nat, now: int)
      requires numConnections == cubic.numConnections > 0
      modifies this, cubic
      ensures Step(old(View()), Acked(number, bytesInFlight, minRTT, now), View())
    {
      hide IsWindowLimited, Grown;
      largestAckedPacketNumber := if number > largestAckedPacketNumber then number else largestAckedPacketNumber;
      if InRecovery(largestAckedPacketNumber, largestSentAtLastCutback) {
        return;
      }
      MaybeIncreaseCwnd(bytesInFlight, minRTT, now);
    }

    method MaybeIncreaseCwnd(bytesInFlight: nat, minRTT: nat, now: int)
      requires numConnections == cubic.numConnections > 0
      modifies this`congestionWindow, this`congestionWindowCount, cubic
      ensures MaybeGrown(old(View()), bytesInFlight, minRTT, now, View())
    {
      hide IsWindowLimited, InSlowStart, AckSpec;
      if !IsWindowLimited(congestionWindow, slowstartThreshold, bytesInFlight) {
        cubic.OnApplicationLimited(now);
        return;
      }
      if congestionWindow >= maxTCPCongestionWindow {
        return;
      }
      if InSlowStart(congestionWindow, slowstartThreshold) {
        congestionWindow := congestionWindow + 1;
        return;
      }
      if reno {
        congestionWindowCount := congestionWindowCount + 1;
        if congestionWindowCount * numConnections >= congestionWindow {
          congestionWindow := congestionWindow + 1;
          congestionWindowCount := 0;
        }
      } else {
        var window := cubic.CongestionWindowAfterAck(congestionWindow, minRTT, now);
        congestionWindow := if window < maxTCPCongestionWindow then window else maxTCPCongestionWindow;
      }
    }

    method OnPacketLost(number: nat, lostBytes: nat)
      requires congestionWindow > 0 && numConnections == cubic.numConnections > 0
      modifies this, cubic
      ensures Step(old(View()), Lost(number, lostBytes), View())
    {
      hide Reduced, CutBack, LostAgain, AfterLoss, InSlowStart;
      if number <= largestSentAtLastCutback {
        CountLoss(lostBytes);
      } else {
        ReduceWindow();
      }
    }

    // The cutback.
    method ReduceWindow()
      requires congestionWindow > 0 && numConnections == cubic.numConnections > 0
      modifies this`congestionWindow, this`slowstartThreshold, this`largestSentAtLastCutback,
               this`lastCutbackExitedSlowstart, this`slowstartPacketsLost, this`sinceCutback,
               this`congestionWindowCount, cubic
      ensures Path() == CutBack(old(Path()), Reduced(old(congestionWindow), numConnections))
              && congestionWindowCount == 0
      ensures var slow := InSlowStart(old(congestionWindow), old(slowstartThreshold));
              cubic.View() == if (slowStartLargeReduction && slow) || reno then old(cubic.View())
                              else AfterLoss(old(cubic.View()), old(congestionWindow))
    {
      hide Reduced, AfterLoss;
      var slow := InSlowStart(congestionWindow, slowstartThreshold);
      var window: nat;
      if slowStartLargeReduction && slow {
        window := congestionWindow - 1;
      } else if reno {
        window := Reduced(congestionWindow, numConnections);
      } else {
        window := cubic.CongestionWindowAfterPacketLoss(congestionWindow);
      }
      if window < MIN_CONGESTION_WINDOW {
        window := MIN_CONGESTION_WINDOW;
      }
      SetReduced(slow, window);
    }

    method SetReduced(slow: bool, window: nat)
      modifies this`congestionWindow, this`slowstartThreshold, this`largestSentAtLastCutback,
               this`lastCutbackExitedSlowstart, this`slowstartPacketsLost, this`sinceCutback, this`congestionWindowCount
      ensures congestionWindow == slowstartThreshold == window && largestSentAtLastCutback == largestSentPacketNumber
      ensures lastCutbackExitedSlowstart == slow && sinceCutback == {} && congestionWindowCount == 0
      ensures slowstartPacketsLost == old(slowstartPacketsLost) + if slow then 1 else 0
    {
      lastCutbackExitedSlowstart := slow;
      if slow {
        slowstartPacketsLost := slowstartPacketsLost + 1;
      }
      congestionWindow := window;
      slowstartThreshold := window;
      largestSentAtLastCutback := largestSentPacketNumber;
      sinceCutback := {};
      congestionWindowCount := 0;
    }

    // A loss that belongs to an earlier cutback.
    method CountLoss(lostBytes: nat)
      requires congestionWindow > 0
      modifies this`slowstartPacketsLost, this`slowstartBytesLost, this`congestionWindow, this`slowstartThreshold
      ensures Path() == LostAgain(old(Path()), lostBytes)
    {
      if lastCutbackExitedSlowstart {
        slowstartPacketsLost := slowstartPacketsLost + 1;
        slowstartBytesLost := slowstartBytesLost + lostBytes;
        if slowStartLargeReduction {
          if slowstartPacketsLost == 1
             || slowstartBytesLost / DEFAULT_TCP_MSS > (slowstartBytesLost - lostBytes) / DEFAULT_TCP_MSS {
            congestionWindow := AtLeastMin(congestionWindow - 1);
          }
          slowstartThreshold := congestionWindow;
        }
      }
    }

    method OnRetransmissionTimeout(packetsRetransmitted: bool)
      requires numConnections == cubic.numConnections > 0
      modifies this, cubic
      ensures Step(old(View()), TimedOut(packetsRetransmitted), View())
    {
      largestSentAtLastCutback := 0;
      sinceCutback := sent;
      if !packetsRetransmitted {
        return;
      }
      cubic.Reset();
      slowstartThreshold := congestionWindow / 2;
      congestionWindow := MIN_CONGESTION_WINDOW;
    }

    method OnConnectionMigration()
      requires numConnections == cubic.numConnections > 0
      modifies this, cubic
      ensures Step(old(View()), Migrated, View())
    {
      cubic.Reset();
      StartAgain();
    }

    method StartAgain()
      modifies this`largestSentPacketNumber, this`largestAckedPacketNumber, this`largestSentAtLastCutback,
               this`lastCutbackExitedSlowstart, this`congestionWindow, this`slowstartThreshold,
               this`maxTCPCongestionWindow, this`congestionWindowCount, this`sent, this`sinceCutback
      ensures congestionWindow == initialCongestionWindow && congestionWindowCount == 0
      ensures slowstartThreshold == maxTCPCongestionWindow == initialMaxCongestionWindow
      ensures largestSentPacketNumber == largestAckedPacketNumber == largestSentAtLastCutback == 0
      ensures !lastCutbackExitedSlowstart && sent == sinceCutback == {}
    {
      largestSentPacketNumber, largestAckedPacketNumber, largestSentAtLastCutback := 0, 0, 0;
      lastCutbackExitedSlowstart := false;
      congestionWindowCount := 0;
      congestionWindow, slowstartThreshold := initialCongestionWindow, initialMaxCongestionWindow;
      maxTCPCongestionWindow := initialMaxCongestionWindow;
      sent, sinceCutback := {}, {};
    }

    method ExitSlowstart()
      requires numConnections == cubic.numConnections > 0
      modifies this`slowstartThreshold
      ensures Step(old(View()), SlowStartExited, View())
    {
      slowstartThreshold := congestionWindow;
    }

    method SetSlowStartLargeReduction(enabled: bool)
      requires numConnections == cubic.numConnections > 0
      modifies this`slowStartLargeReduction
      ensures Step(old(View()), LargeReductionSet(enabled), View())
    {
      slowStartLargeReduction := enabled;
    }

    method SetNumEmulatedConnections(n: int)
      requires numConnections == cubic.numConnections > 0
      modifies this`numConnections, cubic
      ensures Step(old(View()), ConnectionsSet(n), View())
    {
      numConnections := if n > 1 then n else 1;
      cubic.SetNumConnections(numConnections);
    }
  }

  // ---- runs ----

  // Whatever CUBIC's target is, wrapped around or not, the window stays within its bounds.
  lemma AckedKeeps(s: SenderState, number: nat, bytesInFlight: nat, minRTT: nat, now: int, s': SenderState)
    requires SenderInv(s) && AckedSpec(s, number, bytesInFlight, minRTT, now, s')
    ensures SenderInv(s') && s'.path.maxWindow == s.path.maxWindow
  {
    hide AckSpec, CubicInv, IsWindowLimited, InSlowStart, WindowOf;
    LimitedInv(s.cubic, now);
    if AckSpec(s.cubic, s.path.window, minRTT, now, s'.cubic) {
      AckInv(s.cubic, s.path.window, minRTT, now, s'.cubic);
    }
  }

  lemma LimitedInv(st: CubicState, now: int)
    requires CubicInv(st)
    ensures CubicInv(AfterLimited(st, now)) && AfterLimited(st, now).numConnections == st.numConnections
  {
  }

  lemma LossKeeps(s: SenderState, number: nat, bytes: nat)
    requires SenderInv(s)
    ensures SenderInv(AfterPacketLoss(s, number, bytes))
    ensures AfterPacketLoss(s, number, bytes).path.maxWindow == s.path.maxWindow
  {
    hide Reduced, CurveFits;
    LostInv(s.path, MIN_CONGESTION_WINDOW, number, bytes, Reduced(s.path.window, s.numConnections));
    LossInv(s.cubic, s.path.window);
  }

  // An ack does not change the window in recovery or while the sender does not use it, and adds at
  // most one packet in slow start and with Reno.
  lemma AckedGrowth(s: SenderState, number: nat, bytesInFlight: nat, minRTT: nat, now: int, s': SenderState)
    requires SenderInv(s) && AckedSpec(s, number, bytesInFlight, minRTT, now, s')
    ensures s'.path == AfterAcked(s.path, number).(window := s'.path.window)
    ensures (InRecovery(s'.path.largestAcked, s.path.largestSentAtLastCutback)
             || !IsWindowLimited(s.path.window, s.path.threshold, bytesInFlight)) ==> s'.path.window == s.path.window
    ensures s.reno || InSlowStart(s.path.window, s.path.threshold) ==>
              s.path.window <= s'.path.window <= s.path.window + 1
  {
    hide AckSpec, CubicInv, IsWindowLimited, InSlowStart, WindowOf;
  }

  lemma RestartKeeps(s: SenderState, retransmitted: bool)
    requires SenderInv(s)
    ensures SenderInv(AfterRetransmissionTimeout(s, retransmitted)) && SenderInv(AfterConnectionMigration(s))
    ensures AfterRetransmissionTimeout(s, retransmitted).path.maxWindow == s.path.maxWindow
    ensures AfterConnectionMigration(s).path.maxWindow == s.path.maxWindow
  {
    TimeoutInv(s.path, MIN_CONGESTION_WINDOW, retransmitted);
  }

  lemma ConnectionsKeep(st: CubicState, n: nat)
    requires CubicInv(st) && n > 0
    ensures CubicInv(st.(numConnections := n))
  {
  }

  lemma PathInv(st: State, st': State)
    requires Inv(st, MIN_CONGESTION_WINDOW)
    requires st' == st.(threshold := st'.threshold, slowStartLargeReduction := st'.slowStartLargeReduction)
    ensures Inv(st', MIN_CONGESTION_WINDOW)
  {
  }

  lemma StepKeeps(s: SenderState, e: Event, s': SenderState)
    requires SenderInv(s) && Step(s, e, s')
    ensures SenderInv(s') && s'.path.maxWindow == s.path.maxWindow
  {
    hide Inv, CubicInv, AckedSpec, AfterPacketLoss, AfterRetransmissionTimeout, AfterConnectionMigration;
    match e
    case Acked(number, bytesInFlight, minRTT, now) => AckedKeeps(s, number, bytesInFlight, minRTT, now, s');
    case Lost(number, bytes) => LossKeeps(s, number, bytes);
    case Sent(number, _) => SentInv(s.path, MIN_CONGESTION_WINDOW, number);
    case ConnectionsSet(n) => ConnectionsKeep(s.cubic, s'.numConnections);
    case SlowStartExited => PathInv(s.path, s'.path);
    case LargeReductionSet(_) => PathInv(s.path, s'.path);
    case TimedOut(retransmitted) => RestartKeeps(s, retransmitted);
    case Migrated => RestartKeeps(s, true);
  }

  ghost predicate IsRun(run: seq<SenderState>, events: seq<Event>) {
    && |run| == |events| + 1
    && SenderInv(run[0])
    && (forall i :: 0 <= i < |events| ==> Step(run[i], events[i], run[i + 1]))
  }

  lemma {:induction false} RunInv(run: seq<SenderState>, events: seq<Event>, n: nat)
    requires IsRun(run, events) && n < |run|
    ensures SenderInv(run[n]) && run[n].path.maxWindow == run[0].path.maxWindow
  {
    if n > 0 {
      RunInv(run, events, n - 1);
      StepKeeps(run[n - 1], events[n - 1], run[n]);
    }
  }

  // Over all runs, the window stays within its bounds.
  lemma WindowBounded(run: seq<SenderState>, events: seq<Event>, n: nat)
    requires IsRun(run, events) && n < |run|
    ensures MIN_CONGESTION_WINDOW <= run[n].path.window <= run[0].path.maxWindow
  {
    RunInv(run, events, n);
  }

  // ---- the target over a run ----

  // The clock at every state; acks are the events that read it.
  ghost predicate Timed(events: seq<Event>, times: seq<int>) {
    && |times| == |events| + 1
    && forall i | 0 <= i < |events| ::
         times[i] <= times[i + 1] && (events[i].Acked? ==> events[i].now == times[i + 1])
  }

  ghost predicate InTime(st: CubicState, now: int) {
    && (st.epoch.Some? ==> st.epoch.value <= now)
    && (st.appLimitedStart.Some? ==> st.appLimitedStart.value <= now)
  }

  // A pause that is still pending did not begin before the epoch.
  predicate PauseInEpoch(st: CubicState) {
    st.epoch.Some? && st.appLimitedStart.Some? ==> st.epoch.value <= st.appLimitedStart.value
  }

  // The ack gets as far as to a new target of CUBIC.
  predicate TakesTarget(s: SenderState, e: Event)
    requires e.Acked?
  {
    var path := AfterAcked(s.path, e.number);
    && !InRecovery(path.largestAcked, path.largestSentAtLastCutback)
    && IsWindowLimited(path.window, path.threshold, e.bytesInFlight) && path.window < path.maxWindow
    && !InSlowStart(path.window, path.threshold) && !s.reno && !IsTooSoon(s.cubic, path.window, e.now)
  }

  lemma AckInTime(st: CubicState, window: nat, delayMin: nat, now: int, st': CubicState)
    requires st.numConnections > 0 && AckSpec(st, window, delayMin, now, st') && InTime(st, now) && PauseInEpoch(st)
    ensures InTime(st', now)
  {
    hide Target, Elapsed, Stored, IsEstimate, TimeToOrigin, Origin;
  }

  lemma StepInTime(s: SenderState, e: Event, s': SenderState, now: int)
    requires Step(s, e, s') && InTime(s.cubic, now) && PauseInEpoch(s.cubic) && (e.Acked? ==> e.now == now)
    ensures InTime(s'.cubic, now)
  {
    hide AckSpec, IsWindowLimited, InSlowStart, InRecovery, AfterLost, PauseInEpoch, WindowOf;
    if e.Acked? && AckSpec(s.cubic, s.path.window, e.minRTT, now, s'.cubic) {
      AckInTime(s.cubic, s.path.window, e.minRTT, now, s'.cubic);
    }
  }

  lemma {:induction false} EpochInTime(run: seq<SenderState>, events: seq<Event>, times: seq<int>, n: nat)
    requires IsRun(run, events) && Timed(events, times) && n < |run| && InTime(run[0].cubic, times[0])
    requires forall m | 0 <= m < n :: PauseInEpoch(run[m].cubic)
    ensures InTime(run[n].cubic, times[n])
  {
    hide Step, PauseInEpoch;
    if n > 0 {
      EpochInTime(run, events, times, n - 1);
      StepInTime(run[n - 1], events[n - 1], run[n], times[n]);
    }
  }

  // Over all runs in which no pause that began before an epoch is pending in it, every new target is at
  // least the window that the epoch started with.
  lemma TargetsSound(run: seq<SenderState>, events: seq<Event>, times: seq<int>, n: nat)
    requires IsRun(run, events) && Timed(events, times) && n < |events| && InTime(run[0].cubic, times[0])
    requires forall m | 0 <= m <= n :: PauseInEpoch(run[m].cubic)
    requires events[n].Acked? && TakesTarget(run[n], events[n])
    ensures var c, e := run[n + 1].cubic, events[n];
            c.epoch.Some? && c.lastTarget == Stored(TargetAt(c, e.minRTT, e.now))
            && TargetAt(c, e.minRTT, e.now) >= c.windowAtEpoch
  {
    hide Step, PauseInEpoch, TakesTarget, SenderInv, TargetAt, Stored;
    RunInv(run, events, n);
    EpochInTime(run, events, times, n);
    assert Step(run[n], events[n], run[n + 1]) && times[n] <= times[n + 1] == events[n].now;
    TargetTaken(run[n], events[n], run[n + 1]);
  }

  lemma TargetTaken(s: SenderState, e: Event, s': SenderState)
    requires SenderInv(s) && Step(s, e, s') && e.Acked? && TakesTarget(s, e) && InTime(s.cubic, e.now)
             && PauseInEpoch(s.cubic)
    ensures var c := s'.cubic;
            c.epoch.Some? && c.lastTarget == Stored(TargetAt(c, e.minRTT, e.now))
            && TargetAt(c, e.minRTT, e.now) >= c.windowAtEpoch
  {
    hide AckSpec, IsWindowLimited, InSlowStart, InRecovery, Stored, TargetAt, CubicInv;
    InvBounds(s.path, MIN_CONGESTION_WINDOW);
    assert AckSpec(s.cubic, s.path.window, e.minRTT, e.now, s'.cubic);
    AckTarget(s.cubic, s.path.window, e.minRTT, e.now, s'.cubic);
  }

  lemma AckTarget(st: CubicState, window: nat, delayMin: nat, now: int, st': CubicState)
    requires CubicInv(st) && window >= MIN_CONGESTION_WINDOW && AckSpec(st, window, delayMin, now, st')
    requires !IsTooSoon(st, window, now) && InTime(st, now) && PauseInEpoch(st)
    ensures st'.epoch.Some? && st'.lastTarget == Stored(TargetAt(st', delayMin, now))
            && TargetAt(st', delayMin, now) >= st'.windowAtEpoch
  {
    hide CurveFits, Target, Stored, Elapsed, TimeToOrigin, Origin, RequiredAcks, IsEstimate;
    if st.epoch.Some? && st.appLimitedStart.Some? {
      PendingPause(st, window, delayMin, now, st');
      assert now + delayMin - st'.epoch.value == delayMin - (st.epoch.value - st.appLimitedStart.value);
    } else {
      TargetSound(st, window, delayMin, now, st');
    }
  }

  // ---- cutbacks over a run ----

  // An event that forgets the last cutback.
  predicate Forgets(e: Event) {
    e.TimedOut? || e.Migrated?
  }

  // The packets that may cause a cutback were sent since the last one, until it is forgotten.
  lemma {:induction false} SentSince(run: seq<SenderState>, events: seq<Event>, i: nat, j: nat, p: nat)
    requires IsRun(run, events) && i <= j <= |events| && run[i].path.sinceCutback == {}
    requires forall m | i <= m < j :: !Forgets(events[m])
    requires p in run[j].path.sinceCutback
    ensures exists m :: i <= m < j && events[m] == Sent(p, true)
  {
    if i < j {
      RunInv(run, events, j - 1);
      if p in run[j - 1].path.sinceCutback {
        SentSince(run, events, i, j - 1, p);
      } else {
        SinceStep(run[j - 1], events[j - 1], run[j], p);
      }
    }
  }

  lemma SinceStep(s: SenderState, e: Event, s': SenderState, p: nat)
    requires SenderInv(s) && Step(s, e, s') && !Forgets(e) && p in s'.path.sinceCutback && p !in s.path.sinceCutback
    ensures e == Sent(p, true)
  {
    hide Reduced, AckSpec, Inv, CubicInv;
  }

  // Between two cutbacks of a run with neither a timeout nor a migration, the packet whose loss
  // causes the second one was sent.
  lemma CutbacksSeparated(run: seq<SenderState>, events: seq<Event>, i: nat, j: nat)
    requires IsRun(run, events) && i < j < |events| && events[i].Lost? && events[j].Lost?
    requires IsCutback(run[i].path, events[i].number) && IsCutback(run[j].path, events[j].number)
    requires events[j].number in run[j].path.sent && forall m | i < m < j :: !Forgets(events[m])
    ensures exists m :: i < m < j && events[m] == Sent(events[j].number, true)
  {
    RunInv(run, events, i);
    RunInv(run, events, j);
    assert Step(run[i], events[i], run[i + 1]);
    CutbacksApart(run[j].path, MIN_CONGESTION_WINDOW, events[j].number);
    CutbackEmpties(run[i], events[i].number, events[i].bytes);
    SentSince(run, events, i + 1, j, events[j].number);
  }

  lemma CutbackEmpties(s: SenderState, number: nat, bytes: nat)
    requires s.numConnections > 0 && IsCutback(s.path, number)
    ensures AfterPacketLoss(s, number, bytes).path.sinceCutback == {}
  {
  }

  // ---- how the window moves ----

  // What an ack does, from what a caller can see: in recovery, until a packet sent since the cutback is acked,
  // nothing but the largest number; while the window is not used, CUBIC is told of the pause; the window stays below
  // its maximum; in slow start it grows by one packet.
  lemma AckOutcome(s: SenderState, number: nat, bytesInFlight: nat, minRTT: nat, now: int, s': SenderState)
    requires SenderInv(s) && number in s.path.sent && AckedSpec(s, number, bytesInFlight, minRTT, now, s')
    ensures var path := s.path.(largestAcked := Max(s.path.largestAcked, number));
            var acked := s.(path := path);
            var window := s.path.window;
            if number !in s.path.sinceCutback && s.path.largestAcked <= s.path.largestSentAtLastCutback then s' == acked
            else if bytesInFlight + 3 * 1460 < window * 1460
                    && (window >= s.path.threshold || 2 * bytesInFlight <= window * 1460) then
              s' == acked.(cubic := AfterLimited(s.cubic, now))
            else if window >= s.path.maxWindow then s' == acked
            else if window < s.path.threshold then s' == acked.With(window + 1)
            else if s.reno then
              s' == if (s.count + 1) * s.numConnections >= window then acked.(count := 0).With(window + 1)
                    else acked.(count := s.count + 1)
            else
              && AckSpec(s.cubic, window, minRTT, now, s'.cubic)
              && s' == acked.(cubic := s'.cubic).With(Min(WindowOf(s'.cubic), s.path.maxWindow))
  {
    hide AckSpec, CubicInv, IsWindowLimited, InSlowStart, WindowOf, AfterLimited;
    WindowLimited(s.path.window, s.path.threshold, bytesInFlight);
    SlowStartIs(s.path.window, s.path.threshold);
  }

  // A cutback leaves the share of the window that belongs to the emulated connections, or the minimum, and ends
  // CUBIC's epoch, if CUBIC is used.
  lemma CutbackOutcome(s: SenderState, number: nat, bytes: nat)
    requires SenderInv(s) && number > s.path.largestSentAtLastCutback
    ensures var s' := AfterPacketLoss(s, number, bytes);
            var large := s.path.slowStartLargeReduction && s.path.window < s.path.threshold;
            && (if large then s'.path.window == (if s.path.window > 3 then s.path.window - 1 else 2)
                else LeavesShare(s.path.window, s.numConnections, s'.path.window))
            && s'.path.threshold == s'.path.window && s'.path.largestSentAtLastCutback == s.path.largestSent
            && s'.count == 0
            && s'.cubic == if large || s.reno then s.cubic else AfterLoss(s.cubic, s.path.window)
  {
    hide Reduced, AfterLoss, CurveFits, LeavesShare, CutBack;
    SlowStartIs(s.path.window, s.path.threshold);
    CutbackShare(s.path, s.numConnections);
  }

  // A timeout with something to send again leaves the minimum, and slow start up to half of the old window; a
  // migration leaves the initial window, in slow start unless that is the maximum. Either way CUBIC knows no maximum
  // any more, and has no epoch.
  lemma RestartOutcome(s: SenderState)
    requires SenderInv(s)
    ensures var s' := AfterRetransmissionTimeout(s, true);
            && s'.path.window == 2 && 2 * s'.path.threshold <= s.path.window < 2 * (s'.path.threshold + 1)
            && s'.cubic.epoch == s'.cubic.appLimitedStart == s'.cubic.lastUpdate == None && s'.cubic.lastMax == 0
            && s'.numConnections == s.numConnections == s'.cubic.numConnections && s'.path.sent == s.path.sent
    ensures var s' := AfterConnectionMigration(s);
            && s'.path.window == s.initialWindow && s'.path.threshold == s'.path.maxWindow == s.initialMax
            && s'.cubic.epoch == s'.cubic.appLimitedStart == s'.cubic.lastUpdate == None && s'.cubic.lastMax == 0
            && s'.numConnections == s.numConnections == s'.cubic.numConnections && s'.count == 0
            && s'.path.sent == {} && s'.path.largestAcked == 0
    ensures AfterRetransmissionTimeout(s, false) == s.(path := AfterRetransmissionTimeout(s, false).path)
  {
    hide CurveFits;
    TimeoutOutcome(s.path, MIN_CONGESTION_WINDOW, true);
  }

  // Acks of packets sent since the cutback that find the whole window in flight.
  ghost predicate AllFull(run: seq<SenderState>, events: seq<Event>) {
    IsRun(run, events) && forall i | 0 <= i < |events| :: FullAck(run[i], events[i])
  }

  predicate FullAck(s: SenderState, e: Event) {
    e.Acked? && e.number > s.path.largestSentAtLastCutback && e.bytesInFlight >= s.path.window * 1460
  }

  lemma FullGrows(s: SenderState, e: Event, s': SenderState)
    requires Step(s, e, s') && FullAck(s, e) && s.path.window < s.path.maxWindow
    ensures s.path.window < s.path.threshold ==>
              s' == s.(path := s.path.(largestAcked := s'.path.largestAcked)).With(s.path.window + 1)
    ensures s.path.window >= s.path.threshold && s.reno ==>
              s' == s.(path := s.path.(largestAcked := s'.path.largestAcked),
                       count := if (s.count + 1) * s.numConnections >= s.path.window then 0 else s.count + 1)
                     .With(s.path.window + if (s.count + 1) * s.numConnections >= s.path.window then 1 else 0)
  {
    hide AckSpec, IsWindowLimited, InSlowStart, WindowOf, AfterLimited;
    WindowLimited(s.path.window, s.path.threshold, e.bytesInFlight);
    SlowStartIs(s.path.window, s.path.threshold);
  }

  // In slow start every such ack adds a packet, so the acks of one window double it.
  lemma {:induction false} SlowStartGrows(run: seq<SenderState>, events: seq<Event>, n: nat)
    requires AllFull(run, events) && n <= |events|
    requires run[0].path.window + n <= run[0].path.threshold && run[0].path.window + n <= run[0].path.maxWindow
    ensures run[n].path.window == run[0].path.window + n && run[n].path.threshold == run[0].path.threshold
    ensures run[n].path.maxWindow == run[0].path.maxWindow
    ensures n == run[0].path.window ==> run[n].path.window == 2 * run[0].path.window
  {
    hide Step;
    if n > 0 {
      SlowStartGrows(run, events, n - 1);
      FullGrows(run[n - 1], events[n - 1], run[n]);
    }
  }

  // With Reno, the window of n connections grows by one packet with the first number of acks that n times makes up
  // for the window, and not before.
  lemma {:induction false} RenoGrows(run: seq<SenderState>, events: seq<Event>, n: nat)
    requires AllFull(run, events) && n <= |events| && run[0].reno && run[0].count == 0
    requires run[0].path.threshold <= run[0].path.window < run[0].path.maxWindow
    requires n > 0 ==> (n - 1) * run[0].numConnections < run[0].path.window
    ensures var w := run[0].path.window;
            if n * run[0].numConnections >= w then run[n].path.window == w + 1 && run[n].count == 0
            else run[n].path.window == w && run[n].count == n
    ensures run[n].reno && run[n].numConnections == run[0].numConnections
    ensures run[n].path.threshold == run[0].path.threshold && run[n].path.maxWindow == run[0].path.maxWindow
  {
    hide Step;
    if n > 0 {
      var c := run[0].numConnections;
      assert n > 1 ==> (n - 2) * c <= (n - 1) * c;
      RenoGrows(run, events, n - 1);
      FullGrows(run[n - 1], events[n - 1], run[n]);
    }
  }
}
