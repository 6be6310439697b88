/**
 congestion/cubic.go: the window as a cubic function of the time since the last loss, and never less
 than what Reno would have (section 4 of RFC 8312). Float factors are fractions; times are nanoseconds.
 */
module Cubic {
  import opened MinMax
  import opened Wrappers
  import opened Modulo
  import opened NewReno

  const CUBE_SCALE := 0x100_0000_0000             // 2^40
  const CUBE_CONGESTION_WINDOW_SCALE := 410
  const CUBE_FACTOR := CUBE_SCALE / CUBE_CONGESTION_WINDOW_SCALE
  const MAX_CUBIC_TIME_INTERVAL := 30_000_000
  const UINT64 := 0x1_0000_0000_0000_0000

  function Cube(x: int): int {
    x * x * x
  }

  lemma CubeMonotone(x: int, y: int)
    requires 0 <= x <= y
    ensures 0 <= Cube(x) <= Cube(y)
  {
    assert x * x <= y * y;
    assert x * x * x <= y * y * x <= y * y * y;
  }

  // The largest number whose cube is at most n.
  function CubeRoot(n: nat): (t: nat)
    ensures Cube(t) <= n < Cube(t + 1)
  {
    if n == 0 then 0
    else
      var t := CubeRoot(n - 1);
      if Cube(t + 1) <= n then
        CubeGrows(t + 1);
        t + 1
      else t
  }

  lemma CubeGrows(t: nat)
    ensures Cube(t) < Cube(t + 1)
  {
    assert Cube(t + 1) == Cube(t) + 3 * (t * t) + 3 * t + 1;
  }

  // How far the cubic curve is from its origin point after some time.
  function Delta(offset: int): int {
    CUBE_CONGESTION_WINDOW_SCALE * Cube(offset) / CUBE_SCALE
  }

  lemma DeltaMonotone(x: int, y: int)
    requires 0 <= x <= y
    ensures 0 <= Delta(x) <= Delta(y)
  {
    CubeMonotone(x, y);
  }

  // The target before it is stored as an unsigned number.
  function Target(origin: int, timeToOrigin: int, elapsed: int): int {
    if elapsed > timeToOrigin then origin + Delta(elapsed - timeToOrigin) else origin - Delta(timeToOrigin - elapsed)
  }

  // Inside an epoch, the target never goes back.
  lemma TargetMonotone(origin: int, timeToOrigin: int, e: int, e': int)
    requires e <= e'
    ensures Target(origin, timeToOrigin, e) <= Target(origin, timeToOrigin, e')
  {
    if e' <= timeToOrigin {
      DeltaMonotone(timeToOrigin - e', timeToOrigin - e);
    } else if e > timeToOrigin {
      DeltaMonotone(e - timeToOrigin, e' - timeToOrigin);
    } else {
      DeltaMonotone(0, timeToOrigin - e);
      DeltaMonotone(0, e' - timeToOrigin);
    }
  }

  // The time that the curve takes from a window to the last maximum: the cube root of what is missing, rounded down,
  // where the division by the scale has been rounded down before.
  function TimeToOrigin(lastMax: nat, window: nat): (t: nat)
    ensures lastMax <= window ==> t == 0
    ensures lastMax > window ==>
              && CUBE_CONGESTION_WINDOW_SCALE * Cube(t) <= CUBE_SCALE * (lastMax - window)
              && CUBE_SCALE * (lastMax - window) < CUBE_CONGESTION_WINDOW_SCALE * (Cube(t + 1) + (lastMax - window))
  {
    if lastMax <= window then 0
    else
      var t := CubeRoot(CUBE_FACTOR * (lastMax - window));
      FactorFits(Cube(t), lastMax - window);
      FactorClose(Cube(t + 1), lastMax - window);
      t
  }

  // The scale is at least the factor, and by less than one at most, times the scale of the window.
  lemma FactorFits(cube: nat, missing: nat)
    requires cube <= CUBE_FACTOR * missing
    ensures CUBE_CONGESTION_WINDOW_SCALE * cube <= missing * CUBE_SCALE
  {
    assert CUBE_FACTOR == 2_681_735_677;
  }

  lemma FactorClose(cube: nat, missing: nat)
    requires cube > CUBE_FACTOR * missing
    ensures CUBE_SCALE * missing < CUBE_CONGESTION_WINDOW_SCALE * (cube + missing)
  {
    assert CUBE_FACTOR == 2_681_735_677;
  }

  function Origin(lastMax: nat, window: nat): nat {
    if lastMax <= window then window else lastMax
  }

  // From its start on, an epoch never aims below the window it started with.
  lemma TargetFromStart(lastMax: nat, window: nat, elapsed: int)
    requires elapsed >= 0
    ensures Target(Origin(lastMax, window), TimeToOrigin(lastMax, window), elapsed) >= window
  {
    var origin, t := Origin(lastMax, window), TimeToOrigin(lastMax, window);
    TargetMonotone(origin, t, 0, elapsed);
    CubeMonotone(0, t);
    var missing := if lastMax <= window then 0 else lastMax - window;
    FactorFits(Cube(t), missing);
    Quotient(CUBE_CONGESTION_WINDOW_SCALE * Cube(t), CUBE_SCALE, missing);
  }

  // From its start on, the curve stays at or above the window that the epoch started with.
  ghost predicate CurveFits(window: nat, origin: nat, timeToOrigin: nat) {
    origin >= window >= MIN_CONGESTION_WINDOW
    && forall elapsed: nat :: Target(origin, timeToOrigin, elapsed) >= window
  }

  lemma CurveAhead(window: nat, origin: nat, timeToOrigin: nat, elapsed: int)
    requires CurveFits(window, origin, timeToOrigin)
    ensures window <= origin
    ensures elapsed >= 0 ==> Target(origin, timeToOrigin, elapsed) >= window
  {
  }

  lemma EpochFits(lastMax: nat, window: nat)
    requires window >= MIN_CONGESTION_WINDOW
    ensures CurveFits(window, Origin(lastMax, window), TimeToOrigin(lastMax, window))
  {
    forall elapsed: nat ensures Target(Origin(lastMax, window), TimeToOrigin(lastMax, window), elapsed) >= window {
      TargetFromStart(lastMax, window, elapsed);
    }
  }

  // The curve has this long to go to its origin point, and that takes it down by more than `depth`.
  predicate FallsBelow(missing: int, depth: nat) {
    missing >= 0 && CUBE_CONGESTION_WINDOW_SCALE * Cube(missing) >= CUBE_SCALE * (depth + 1)
  }

  // When the target lies below a window that is not above the origin point. With window 0, the target is
  // negative then, and wraps around when it is stored.
  lemma TargetBelow(window: int, origin: nat, timeToOrigin: nat, elapsed: int)
    requires window <= origin
    ensures Target(origin, timeToOrigin, elapsed) < window <==> FallsBelow(timeToOrigin - elapsed, origin - window)
  {
    if elapsed > timeToOrigin {
      DeltaMonotone(0, elapsed - timeToOrigin);
    }
  }

  // The curve is this far beyond its origin point, and that takes it up to `window`.
  predicate RisesTo(past: int, origin: nat, window: nat) {
    past > 0 && CUBE_CONGESTION_WINDOW_SCALE * Cube(past) >= CUBE_SCALE * (window - origin)
  }

  // Whether the curve has reached a window, or a negative number, by then.
  predicate Reaches(origin: nat, timeToOrigin: nat, elapsed: int, window: int) {
    if window <= origin then !FallsBelow(timeToOrigin - elapsed, origin - window)
    else RisesTo(elapsed - timeToOrigin, origin, window)
  }

  // The mirror of TargetBelow: when the target is at least a window that is not below the origin point.
  lemma TargetAbove(window: nat, origin: nat, timeToOrigin: nat, elapsed: int)
    requires window >= origin
    ensures elapsed > timeToOrigin ==>
              (Target(origin, timeToOrigin, elapsed) >= window <==>
                 CUBE_CONGESTION_WINDOW_SCALE * Cube(elapsed - timeToOrigin) >= CUBE_SCALE * (window - origin))
    ensures window > origin ==>
              (Target(origin, timeToOrigin, elapsed) >= window <==> RisesTo(elapsed - timeToOrigin, origin, window))
  {
    if elapsed > timeToOrigin {
      var n := CUBE_CONGESTION_WINDOW_SCALE * Cube(elapsed - timeToOrigin);
      CubeMonotone(0, elapsed - timeToOrigin);
      assert n / CUBE_SCALE >= window - origin <==> n >= CUBE_SCALE * (window - origin);
    } else {
      DeltaMonotone(0, timeToOrigin - elapsed);
    }
  }

  // What the curve has reached is exactly what is not above the target, above and below the origin point.
  lemma TargetReaches(origin: nat, timeToOrigin: nat, elapsed: int)
    ensures forall w: int :: Target(origin, timeToOrigin, elapsed) >= w <==> Reaches(origin, timeToOrigin, elapsed, w)
  {
    hide Target, FallsBelow, RisesTo;
    forall w: int ensures Target(origin, timeToOrigin, elapsed) >= w <==> Reaches(origin, timeToOrigin, elapsed, w) {
      if w <= origin {
        TargetBelow(w, origin, timeToOrigin, elapsed);
      } else {
        TargetAbove(w, origin, timeToOrigin, elapsed);
      }
    }
  }

  // The curve leads from the window at the start of the epoch to the larger of the window and the last maximum.
  lemma CurveReachesMax(lastMax: nat, window: nat, elapsed: int)
    ensures var origin, t := Origin(lastMax, window), TimeToOrigin(lastMax, window);
            && Target(origin, t, t) == Max(lastMax, window)
            && (0 <= elapsed <= t ==> window <= Target(origin, t, elapsed) <= Max(lastMax, window))
  {
    var origin, t := Origin(lastMax, window), TimeToOrigin(lastMax, window);
    if 0 <= elapsed <= t {
      TargetFromStart(lastMax, window, elapsed);
      TargetMonotone(origin, t, elapsed, t);
    }
  }

  // Nanoseconds in 1024ths of a second, by way of microseconds.
  function Elapsed(nanoseconds: int): int {
    Truncated(Truncated(nanoseconds, 1000) * 1024, 1_000_000)
  }

  lemma ElapsedSign(nanoseconds: int)
    ensures nanoseconds >= 0 ==> Elapsed(nanoseconds) >= 0
    ensures nanoseconds <= 0 ==> Elapsed(nanoseconds) <= 0
  {
  }

  lemma ElapsedMonotone(x: int, y: int)
    requires x <= y
    ensures Elapsed(x) <= Elapsed(y)
  {
    TruncatedMonotone(x, y, 1000);
    TruncatedMonotone(Truncated(x, 1000) * 1024, Truncated(y, 1000) * 1024, 1_000_000);
  }

  // A 1024th of a second is 976562.5 nanoseconds, and less than a microsecond may be cut off before.
  lemma ElapsedBounds(nanoseconds: nat)
    ensures 1_000_000_000 * Elapsed(nanoseconds) <= 1024 * nanoseconds
    ensures 1024 * nanoseconds < 1_000_000_000 * (Elapsed(nanoseconds) + 1) + 1_024_000
    ensures Elapsed(0 - nanoseconds) == -Elapsed(nanoseconds)
  {
  }

  // Acks that Reno with n connections needs for one more packet: the window divided by alpha.
  function RequiredAcks(window: nat, n: nat): nat
    requires n > 0
  {
    window * (20 * n - 3) / (9 * n * n)
  }

  // With beta = (n - 0.3) / n, alpha = 3 * n^2 * (1 - beta) / (1 + beta) is d / f; the quotient is rounded down.
  lemma RequiredBounds(window: nat, n: nat, d: nat, f: nat)
    requires n > 0 && d == 9 * n * n && f == 20 * n - 3
    ensures d * RequiredAcks(window, n) <= window * f < d * (RequiredAcks(window, n) + 1)
  {
    QuotientIs(window * f, d);
  }

  ghost function RequiredSum(from: nat, to: nat, n: nat): nat
    requires from <= to && n > 0
  {
    if from == to then 0 else RequiredSum(from, to - 1, n) + RequiredAcks(to - 1, n)
  }

  // Acks are used up for one packet after the other, until there are too few for the next.
  ghost predicate IsEstimate(window: nat, acked: nat, window': nat, acked': nat, n: nat)
    requires n > 0
  {
    && window <= window' && acked' < RequiredAcks(window', n)
    && acked == acked' + RequiredSum(window, window', n)
  }

  // There is only one such window.
  lemma EstimateUnique(window: nat, acked: nat, w: nat, a: nat, w': nat, a': nat, n: nat)
    requires n > 0 && IsEstimate(window, acked, w, a, n) && IsEstimate(window, acked, w', a', n)
    ensures w == w' && a == a'
  {
    hide RequiredAcks;
    if w < w' {
      SumGrows(window, w, w', n);
    } else if w' < w {
      SumGrows(window, w', w, n);
    }
  }

  lemma {:induction false} SumGrows(from: nat, w: nat, w': nat, n: nat)
    requires n > 0 && from <= w < w'
    ensures RequiredSum(from, w', n) >= RequiredSum(from, w, n) + RequiredAcks(w, n)
  {
    if w < w' - 1 {
      SumGrows(from, w, w' - 1, n);
    }
  }

  // As long as there are acks enough, the window is within this bound.
  lemma RequiredBound(window: nat, acked: nat, n: nat)
    requires n > 0 && acked >= RequiredAcks(window, n)
    ensures window < (acked + 1) * (9 * n * n)
  {
    assert n * n >= 1;
    var f := 20 * n - 3;
    assert window * f >= window;
    Below(window * f, 9 * n * n, acked);
  }

  lemma BoundMonotone(a: nat, b: nat, d: nat)
    requires a <= b
    ensures (a + 1) * d <= (b + 1) * d
  {
  }

  // A number stored as uint64.
  function Stored(target: int): (t: nat)
    ensures t == target <==> 0 <= target < UINT64
    ensures -UINT64 <= target < 0 ==> t == target + UINT64
  {
    target % UINT64
  }

  // ---- cubic.go ----

  // All fields, and the window at the start of the epoch.
  datatype CubicState = CubicState(
    numConnections: nat,
    epoch: Option<int>,
    appLimitedStart: Option<int>,
    lastUpdate: Option<int>,
    lastWindow: nat,
    lastMax: nat,
    acked: nat,
    estimate: nat,
    origin: nat,
    timeToOrigin: nat,
    lastTarget: nat,
    windowAtEpoch: nat)

  function Fresh(numConnections: nat): CubicState {
    CubicState(numConnections, None, None, None, 0, 0, 0, 0, 0, 0, 0, 0)
  }

  // Once there has been an ack, the Reno estimate is a window that has been in use; the curve of an
  // epoch belongs to the window at its start.
  ghost predicate CubicInv(st: CubicState) {
    && st.numConnections > 0
    && (st.epoch.Some? || st.lastWindow > 0 ==> st.estimate >= MIN_CONGESTION_WINDOW)
    && (st.epoch.Some? ==> CurveFits(st.windowAtEpoch, st.origin, st.timeToOrigin))
  }

  function AfterLimited(st: CubicState, now: int): CubicState {
    st.(appLimitedStart := if st.appLimitedStart.Some? then st.appLimitedStart else Some(now))
  }

  // The epoch ends; the maximum to aim at is lowered further if it was not reached again.
  function AfterLoss(st: CubicState, window: nat): CubicState {
    st.(epoch := None, lastMax := if window < st.lastMax then window * 17 / 20 else window)
  }

  predicate IsTooSoon(st: CubicState, window: nat, now: int) {
    st.lastWindow == window && st.lastUpdate.Some? && now - st.lastUpdate.value <= MAX_CUBIC_TIME_INTERVAL
  }

  // The first ack starts an epoch; a later one shifts it by a pause of the application.
  function InEpoch(st: CubicState, window: nat, now: int): CubicState {
    if st.epoch.None? then
      st.(epoch := Some(now), acked := 1, estimate := window, origin := Origin(st.lastMax, window),
          timeToOrigin := TimeToOrigin(st.lastMax, window), windowAtEpoch := window)
    else if st.appLimitedStart.Some? then
      st.(epoch := Some(st.epoch.value + (now - st.appLimitedStart.value)), appLimitedStart := None)
    else st
  }

  // The target for one minimal round trip from now.
  function TargetAt(st: CubicState, delayMin: nat, now: int): int
    requires st.epoch.Some?
  {
    Target(st.origin, st.timeToOrigin, Elapsed(now + delayMin - st.epoch.value))
  }

  // An ack: nothing new within a short time, otherwise a new target and a new Reno estimate.
  ghost predicate AckSpec(st: CubicState, window: nat, delayMin: nat, now: int, st': CubicState)
    requires st.numConnections > 0
  {
    var counted := st.(acked := st.acked + 1);
    if IsTooSoon(st, window, now) then st' == counted
    else
      var mid := InEpoch(counted, window, now).(lastWindow := window, lastUpdate := Some(now));
      && IsEstimate(mid.estimate, mid.acked, st'.estimate, st'.acked, st.numConnections)
      && st' == mid.(estimate := st'.estimate, acked := st'.acked, lastTarget := Stored(TargetAt(mid, delayMin, now)))
  }

  // The window that an ack leads to: the larger of the curve and the Reno estimate.
  function WindowOf(st: CubicState): nat {
    Max(st.lastTarget, st.estimate)
  }

  // An ack keeps the invariant, and its window is one that may be used.
  lemma AckInv(st: CubicState, window: nat, delayMin: nat, now: int, st': CubicState)
    requires CubicInv(st) && window >= MIN_CONGESTION_WINDOW && AckSpec(st, window, delayMin, now, st')
    ensures CubicInv(st') && WindowOf(st') >= MIN_CONGESTION_WINDOW && st'.numConnections == st.numConnections
  {
    hide CurveFits, Target, Elapsed, Stored, TimeToOrigin, Origin, RequiredAcks;
    EpochFits(st.lastMax, window);
  }

  lemma LossInv(st: CubicState, window: nat)
    requires CubicInv(st)
    ensures CubicInv(AfterLoss(st, window))
  {
  }

  // The maximum to aim at is the window at the loss, or 17 / 20 of it if the last maximum was not reached again.
  lemma LossOutcome(st: CubicState, window: nat)
    ensures var m := AfterLoss(st, window).lastMax;
            && AfterLoss(st, window) == st.(epoch := None, lastMax := m)
            && if window < st.lastMax then 20 * m <= 17 * window < 20 * (m + 1) else m == window
  {
  }

  // Within 30 ms of the last ack that was looked at, an ack for the same window is only counted; any other is
  // looked at, and no pause is pending then, unless the ack started an epoch.
  lemma AckOutcome(st: CubicState, window: nat, delayMin: nat, now: int, st': CubicState)
    requires st.numConnections > 0 && AckSpec(st, window, delayMin, now, st')
    ensures if st.lastUpdate.Some? && now - st.lastUpdate.value <= 30_000_000 && st.lastWindow == window then
              st' == st.(acked := st.acked + 1)
            else
              && st'.lastUpdate == Some(now) && st'.lastWindow == window && st'.lastMax == st.lastMax
              && st'.appLimitedStart == if st.epoch.None? then st.appLimitedStart else None
  {
    hide Stored, TargetAt, IsEstimate, TimeToOrigin, Origin;
  }

  // A pause of the application starts with the first ack that finds the window unused.
  lemma PauseStarts(st: CubicState, now: int, later: int)
    ensures AfterLimited(st, now).appLimitedStart.Some?
    ensures AfterLimited(AfterLimited(st, now), later) == AfterLimited(st, now)
    ensures AfterLimited(st, now) == st.(appLimitedStart := AfterLimited(st, now).appLimitedStart)
    ensures st.appLimitedStart.None? ==> AfterLimited(st, now).appLimitedStart == Some(now)
  {
  }

  // The acks of an epoch that the Reno estimate has used up, and those it has not.
  ghost function CountedAcks(st: CubicState): nat
    requires st.numConnections > 0 && st.windowAtEpoch <= st.estimate
  {
    st.acked + RequiredSum(st.windowAtEpoch, st.estimate, st.numConnections)
  }

  // Every ack of an epoch, from the one that starts it, counts for the estimate exactly once; and unless the ack comes
  // too soon, there are too few left over for one more packet.
  lemma AcksCounted(st: CubicState, window: nat, delayMin: nat, now: int, st': CubicState)
    requires st.numConnections > 0 && AckSpec(st, window, delayMin, now, st')
    requires st.epoch.Some? ==> st.windowAtEpoch <= st.estimate
    ensures st'.epoch.Some? <==> st.epoch.Some? || !IsTooSoon(st, window, now)
    ensures st'.epoch.Some? ==>
              && st'.windowAtEpoch <= st'.estimate
              && CountedAcks(st') == if st.epoch.Some? then CountedAcks(st) + 1 else 1
    ensures !IsTooSoon(st, window, now) ==> st'.acked < RequiredAcks(st'.estimate, st'.numConnections)
  {
    hide Stored, TargetAt, TimeToOrigin, Origin, RequiredAcks;
    if !IsTooSoon(st, window, now) && st.epoch.Some? {
      SumsAdd(st.windowAtEpoch, st.estimate, st'.estimate, st.numConnections);
    }
  }

  lemma {:induction false} SumsAdd(a: nat, b: nat, c: nat, n: nat)
    requires a <= b <= c && n > 0
    ensures RequiredSum(a, c, n) == RequiredSum(a, b, n) + RequiredSum(b, c, n)
  {
    if b < c {
      SumsAdd(a, b, c - 1, n);
    }
  }

  // Between two acks of one epoch without a pause, the target does not go back.
  lemma AcksMonotone(st: CubicState, w: nat, w': nat, delayMin: nat, now: int, now': int, st': CubicState,
                     st'': CubicState)
    requires CubicInv(st) && AckSpec(st, w, delayMin, now, st') && AckSpec(st', w', delayMin, now', st'')
    requires !IsTooSoon(st, w, now) && !IsTooSoon(st', w', now') && st'.appLimitedStart.None? && now <= now'
    ensures TargetAt(st'', delayMin, now') >= TargetAt(st', delayMin, now)
    ensures st''.lastTarget == Stored(TargetAt(st'', delayMin, now'))
            && st'.lastTarget == Stored(TargetAt(st', delayMin, now))
  {
    hide CurveFits, Target, Stored, Elapsed, TimeToOrigin, Origin, RequiredAcks;
    ElapsedMonotone(now + delayMin - st'.epoch.value, now' + delayMin - st'.epoch.value);
    TargetMonotone(st'.origin, st'.timeToOrigin, Elapsed(now + delayMin - st'.epoch.value),
                   Elapsed(now' + delayMin - st'.epoch.value));
  }

  // The time that the target is computed for, as far as it is known before the ack.
  function TimeFor(st: CubicState, delayMin: nat, now: int): int {
    if st.epoch.None? then delayMin
    else if st.appLimitedStart.Some? then delayMin - (st.epoch.value - st.appLimitedStart.value)
    else now + delayMin - st.epoch.value
  }

  // Exactly which numbers the target reaches, exactly when it lies below the window at the start of the epoch,
  // and exactly when it is negative, from what is known before the ack.
  lemma TargetExact(st: CubicState, window: nat, delayMin: nat, now: int, st': CubicState)
    requires CubicInv(st) && window >= MIN_CONGESTION_WINDOW && AckSpec(st, window, delayMin, now, st')
    requires !IsTooSoon(st, window, now)
    ensures st'.epoch.Some? && st'.lastTarget == Stored(TargetAt(st', delayMin, now))
    ensures st'.windowAtEpoch == if st.epoch.None? then window else st.windowAtEpoch
    ensures var origin := if st.epoch.None? then Origin(st.lastMax, window) else st.origin;
            var timeToOrigin := if st.epoch.None? then TimeToOrigin(st.lastMax, window) else st.timeToOrigin;
            var missing := timeToOrigin - Elapsed(TimeFor(st, delayMin, now));
            && TargetAt(st', delayMin, now) == Target(origin, timeToOrigin, Elapsed(TimeFor(st, delayMin, now)))
            && st'.windowAtEpoch <= origin
            && (forall w: int :: TargetAt(st', delayMin, now) >= w <==>
                                 Reaches(origin, timeToOrigin, Elapsed(TimeFor(st, delayMin, now)), w))
            && (TargetAt(st', delayMin, now) < st'.windowAtEpoch <==> FallsBelow(missing, origin - st'.windowAtEpoch))
            && (TargetAt(st', delayMin, now) < 0 <==> FallsBelow(missing, origin))
    ensures TimeFor(st, delayMin, now) >= 0 ==> TargetAt(st', delayMin, now) >= st'.windowAtEpoch
  {
    hide CurveFits, Target, Stored, Elapsed, TimeToOrigin, Origin, RequiredAcks, FallsBelow, Reaches;
    AckInv(st, window, delayMin, now, st');
    var elapsed := Elapsed(TimeFor(st, delayMin, now));
    ElapsedSign(TimeFor(st, delayMin, now));
    CurveAhead(st'.windowAtEpoch, st'.origin, st'.timeToOrigin, elapsed);
    TargetBelow(st'.windowAtEpoch, st'.origin, st'.timeToOrigin, elapsed);
    TargetBelow(0, st'.origin, st'.timeToOrigin, elapsed);
    TargetReaches(st'.origin, st'.timeToOrigin, elapsed);
  }

  // Without a pending pause: the target is at least the window at the start of the epoch, unless the epoch
  // starts more than a round trip from now and the curve falls that far.
  lemma TargetSound(st: CubicState, window: nat, delayMin: nat, now: int, st': CubicState)
    requires CubicInv(st) && window >= MIN_CONGESTION_WINDOW && AckSpec(st, window, delayMin, now, st')
    requires !IsTooSoon(st, window, now) && (st.epoch.None? || st.appLimitedStart.None?)
    ensures st'.lastTarget == Stored(TargetAt(st', delayMin, now))
    ensures TargetAt(st', delayMin, now) < st'.windowAtEpoch <==>
              st.epoch.Some? && FallsBelow(st.timeToOrigin - Elapsed(now + delayMin - st.epoch.value),
                                           st'.origin - st.windowAtEpoch)
    ensures st.epoch.None? || st.epoch.value <= now + delayMin ==> TargetAt(st', delayMin, now) >= st'.windowAtEpoch
  {
    hide CurveFits, Target, Stored, Elapsed, TimeToOrigin, Origin, RequiredAcks, FallsBelow;
    TargetExact(st, window, delayMin, now, st');
  }

  // With a pending pause, the time that counts is the minimal round trip less the time from the start of
  // the pause to the start of the epoch, whenever the ack comes in. So the epoch moves beyond the current
  // time exactly if the pause began before it; the target falls below the window at the start of the epoch,
  // or below zero, so that storing it wraps around, exactly if the curve falls that far in the time missing.
  lemma PendingPause(st: CubicState, window: nat, delayMin: nat, now: int, st': CubicState)
    requires CubicInv(st) && window >= MIN_CONGESTION_WINDOW && AckSpec(st, window, delayMin, now, st')
    requires !IsTooSoon(st, window, now) && st.epoch.Some? && st.appLimitedStart.Some?
    ensures st'.epoch.Some? && (st'.epoch.value > now <==> st.appLimitedStart.value < st.epoch.value)
    ensures var late := st.epoch.value - st.appLimitedStart.value;
            var target := Target(st.origin, st.timeToOrigin, Elapsed(delayMin - late));
            var missing := st.timeToOrigin - Elapsed(delayMin - late);
            && st'.lastTarget == Stored(target) && st.windowAtEpoch <= st.origin
            && (target < st.windowAtEpoch <==> FallsBelow(missing, st.origin - st.windowAtEpoch))
            && (target < 0 <==> FallsBelow(missing, st.origin))
            && (late <= delayMin ==> target >= st.windowAtEpoch)
            && (st'.lastTarget == target <==> 0 <= target < UINT64)
  {
    hide CurveFits, Target, Elapsed, TimeToOrigin, Origin, RequiredAcks, FallsBelow;
    TargetExact(st, window, delayMin, now, st');
  }

  class Cubic {
    var numConnections: nat
    var epoch: Option<int>
    var appLimitedStartTime: Option<int>
    var lastUpdateTime: Option<int>
    var lastCongestionWindow: nat
    var lastMaxCongestionWindow: nat
    var ackedPacketsCount: nat
    var estimatedTCPcongestionWindow: nat
    var originPointCongestionWindow: nat
    var timeToOriginPoint: nat
    var lastTargetCongestionWindow: nat
    ghost var windowAtEpoch: nat

    ghost function View(): CubicState
      reads this
    {
      CubicState(numConnections, epoch, appLimitedStartTime, lastUpdateTime, lastCongestionWindow,
                 lastMaxCongestionWindow, ackedPacketsCount, estimatedTCPcongestionWindow,
                 originPointCongestionWindow, timeToOriginPoint, lastTargetCongestionWindow, windowAtEpoch)
    }

    constructor ()
      ensures View() == Fresh(2) && CubicInv(View())
    {
      numConnections := 2;
      epoch, appLimitedStartTime, lastUpdateTime := None, None, None;
      lastCongestionWindow, lastMaxCongestionWindow, ackedPacketsCount, estimatedTCPcongestionWindow := 0, 0, 0, 0;
      originPointCongestionWindow, timeToOriginPoint, lastTargetCongestionWindow, windowAtEpoch := 0, 0, 0, 0;
    }

    method Reset()
      modifies this
      ensures View() == Fresh(old(numConnections))
    {
      epoch, appLimitedStartTime, lastUpdateTime := None, None, None;
      lastCongestionWindow, lastMaxCongestionWindow, ackedPacketsCount, estimatedTCPcongestionWindow := 0, 0, 0, 0;
      originPointCongestionWindow, timeToOriginPoint, lastTargetCongestionWindow, windowAtEpoch := 0, 0, 0, 0;
    }

    method OnApplicationLimited(now: int)
      modifies this`appLimitedStartTime
      ensures View() == AfterLimited(old(View()), now)
    {
      if appLimitedStartTime.None? {
        appLimitedStartTime := Some(now);
      }
    }

    method SetNumConnections(n: nat)
      modifies this`numConnections
      ensures View() == old(View()).(numConnections := n)
    {
      numConnections := n;
    }

    method CongestionWindowAfterPacketLoss(window: nat) returns (window': nat)
      requires numConnections > 0
      modifies this`epoch, this`lastMaxCongestionWindow
      ensures View() == AfterLoss(old(View()), window) && window' == Reduced(window, numConnections)
    {
      if window < lastMaxCongestionWindow {
        lastMaxCongestionWindow := window * 17 / 20;
      } else {
        lastMaxCongestionWindow := window;
      }
      epoch := None;
      window' := Reduced(window, numConnections);
    }

    // The start of an epoch with the first ack, or a shift of the epoch by a pause of the application.
    method UpdateEpoch(window: nat, now: int)
      modifies this
      ensures View() == InEpoch(old(View()), window, now)
    {
      if epoch.None? {
        StartEpoch(window, now);
      } else if appLimitedStartTime.Some? {
        var shift := now - appLimitedStartTime.value;
        epoch := Some(epoch.value + shift);
        appLimitedStartTime := None;
      }
    }

    method StartEpoch(window: nat, now: int)
      modifies this`epoch, this`ackedPacketsCount, this`estimatedTCPcongestionWindow, this`timeToOriginPoint,
               this`originPointCongestionWindow, this`windowAtEpoch
      ensures epoch == Some(now) && windowAtEpoch == window
      ensures ackedPacketsCount == 1 && estimatedTCPcongestionWindow == window
      ensures originPointCongestionWindow == Origin(lastMaxCongestionWindow, window)
      ensures timeToOriginPoint == TimeToOrigin(lastMaxCongestionWindow, window)
    {
      epoch := Some(now);
      ackedPacketsCount := 1;
      estimatedTCPcongestionWindow := window;
      if lastMaxCongestionWindow <= window {
        timeToOriginPoint := 0;
        originPointCongestionWindow := window;
      } else {
        timeToOriginPoint := CubeRoot(CUBE_FACTOR * (lastMaxCongestionWindow - window));
        originPointCongestionWindow := lastMaxCongestionWindow;
      }
      windowAtEpoch := window;
    }

    // The Reno estimate grows by one packet for every required number of acks; with a small window no
    // acks are required, and the loop still ends.
    method UpdateEstimate()
      requires numConnections > 0
      modifies this`ackedPacketsCount, this`estimatedTCPcongestionWindow
      ensures IsEstimate(old(estimatedTCPcongestionWindow), old(ackedPacketsCount),
                         estimatedTCPcongestionWindow, ackedPacketsCount, numConnections)
    {
      hide RequiredAcks;
      ghost var bound := (ackedPacketsCount + 1) * (9 * numConnections * numConnections);
      ghost var start := estimatedTCPcongestionWindow;
      var requiredAckCount := RequiredAcks(estimatedTCPcongestionWindow, numConnections);
      while ackedPacketsCount >= requiredAckCount
        invariant requiredAckCount == RequiredAcks(estimatedTCPcongestionWindow, numConnections)
        invariant ackedPacketsCount <= old(ackedPacketsCount) && start <= estimatedTCPcongestionWindow
        invariant old(ackedPacketsCount)
                  == ackedPacketsCount + RequiredSum(start, estimatedTCPcongestionWindow, numConnections)
        decreases bound - estimatedTCPcongestionWindow
      {
        RequiredBound(estimatedTCPcongestionWindow, ackedPacketsCount, numConnections);
        BoundMonotone(ackedPacketsCount, old(ackedPacketsCount), 9 * numConnections * numConnections);
        ackedPacketsCount := ackedPacketsCount - requiredAckCount;
        estimatedTCPcongestionWindow := estimatedTCPcongestionWindow + 1;
        requiredAckCount := RequiredAcks(estimatedTCPcongestionWindow, numConnections);
      }
    }

    method CongestionWindowAfterAck(window: nat, delayMin: nat, now: int) returns (window': nat)
      requires numConnections > 0
      modifies this
      ensures AckSpec(old(View()), window, delayMin, now, View()) && window' == WindowOf(View())
    {
      hide Target, Elapsed, Stored, TimeToOrigin, Origin, RequiredAcks, IsEstimate;
      ackedPacketsCount := ackedPacketsCount + 1;
      if lastCongestionWindow == window && lastUpdateTime.Some?
         && now - lastUpdateTime.value <= MAX_CUBIC_TIME_INTERVAL {
        window' := Max(lastTargetCongestionWindow, estimatedTCPcongestionWindow);
        return;
      }
      UpdateEpoch(window, now);
      lastCongestionWindow := window;
      lastUpdateTime := Some(now);
      var elapsedTime := Elapsed(now + delayMin - epoch.value);
      var targetCongestionWindow := Stored(Target(originPointCongestionWindow, timeToOriginPoint, elapsedTime));
      UpdateEstimate();
      lastTargetCongestionWindow := targetCongestionWindow;
      window' := Max(targetCongestionWindow, estimatedTCPcongestionWindow);
    }
  }

  lemma NoGrowth(acked: nat, w: nat, a: nat)
    requires acked <= 2 && IsEstimate(10, acked, w, a, 2)
    ensures w == 10 && a == acked
  {
    EstimateUnique(10, acked, w, a, 10, acked, 2);
  }

  lemma TimeToOriginZero(lastMax: nat, window: nat)
    requires lastMax <= window
    ensures TimeToOrigin(lastMax, window) == 0 && Origin(lastMax, window) == window
  {
  }

  lemma Wraps()
    ensures Stored(Target(10, 0, Elapsed(-4_000_000_000))) == UINT64 - 15
  {
    assert Elapsed(-4_000_000_000) == -4096;
    assert Delta(4096) == 25;
  }

  // A pause of the application that began before the epoch is added to the epoch all the same: the epoch
  // then starts after the current time, and the target wraps around.
  method PauseBeforeEpoch() returns (window: nat)
    ensures window == UINT64 - 15
  {
    hide Stored, Target, Elapsed, Delta, RequiredAcks, RequiredSum, IsEstimate, TimeToOrigin, CurveFits;
    var c := new Cubic();
    c.OnApplicationLimited(0);
    window := c.CongestionWindowAfterAck(10, 0, 4_000_000_000);
    NoGrowth(1, c.estimatedTCPcongestionWindow, c.ackedPacketsCount);
    TimeToOriginZero(0, 10);
    window := c.CongestionWindowAfterAck(10, 0, 8_000_000_000);
    NoGrowth(2, c.estimatedTCPcongestionWindow, c.ackedPacketsCount);
    Wraps();
  }
}
