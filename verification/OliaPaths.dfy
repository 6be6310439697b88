/**
 The state machine of congestion/olia_sender.go: one sender for every path, whose windows are coupled with
 those of the senders that shared-bottleneck detection puts in the same group, or in none.
 */
module OliaPaths {
  import opened MinMax
  import opened Olia
  import opened NewReno

  const GROUP_HISTORY_SIZE: nat := 20

  datatype GroupItem = GroupItem(group: nat, epoch: nat)

  // The group that the history gives for an epoch; -1 if it has none.
  function GroupOf(history: seq<GroupItem>, epoch: nat): int {
    if history == [] then -1
    else if history[0].epoch == epoch then history[0].group
    else GroupOf(history[1..], epoch)
  }

  // Is a flow of this group coupled with the flows of the other one? Group 0 is not congested.
  predicate Coupled(mine: int, group: nat) {
    mine == 0 || mine == group
  }

  // uint8(group), as the caller converts it.
  function AsByte(group: int): nat {
    group % 256
  }

  ghost predicate AreBytes(history: seq<GroupItem>) {
    forall i | 0 <= i < |history| :: history[i].group <= 255
  }

  lemma {:induction false} GroupRange(history: seq<GroupItem>, epoch: nat)
    requires AreBytes(history)
    ensures -1 <= GroupOf(history, epoch) <= 255
    ensures GroupOf(history, epoch) == -1 <==> forall i | 0 <= i < |history| :: history[i].epoch != epoch
  {
    if history != [] {
      GroupRange(history[1..], epoch);
      assert forall i | 0 < i < |history| :: history[i] == history[1..][i - 1];
      assert forall i | 0 <= i < |history| - 1 :: history[1..][i] == history[i + 1];
    }
  }

  // A sender couples with itself unless its history has lost the epoch.
  lemma CouplesWithItself(history: seq<GroupItem>, epoch: nat)
    requires AreBytes(history)
    ensures var group := GroupOf(history, epoch);
            Coupled(group, AsByte(group)) <==> exists i :: 0 <= i < |history| && history[i].epoch == epoch
  {
    GroupRange(history, epoch);
  }

  // All fields of a sender.
  datatype Path = Path(
    reno: State,
    olia: OliaState,
    history: seq<GroupItem>,
    historyNext: nat,
    rtt: nat,
    numConnections: nat,
    initialWindow: nat,
    initialMax: nat)
  {
    function GroupAt(epoch: nat): int {
      GroupOf(history, epoch)
    }

    // The epoch of the item written last.
    function LatestItem(): nat {
      if |history| == GROUP_HISTORY_SIZE then history[(historyNext + GROUP_HISTORY_SIZE - 1) % GROUP_HISTORY_SIZE].epoch
      else 0
    }

    function AsFlow(): Flow {
      Flow(reno.window, if olia.loss1 <= olia.loss2 <= olia.loss3 then olia.Smoothed() else 0, rtt)
    }

    function WithWindow(window: nat): Path {
      this.(reno := reno.(window := window))
    }

    // A new epoch takes the place of the oldest one; a known epoch keeps its group.
    function WithGroup(group: nat, epoch: nat): Path {
      if |history| <= historyNext || exists i :: 0 <= i < |history| && history[i].epoch == epoch then this
      else this.(history := history[historyNext := GroupItem(group, epoch)],
                 historyNext := (historyNext + 1) % GROUP_HISTORY_SIZE)
    }

    function WithEpsilon(e: (int, nat)): Path {
      this.(olia := olia.(epsilonNum := e.0, epsilonDen := e.1))
    }
  }

  type Paths = map<nat, Path>

  function NewPath(window: nat, maxWindow: nat): Path {
    Path(Initial(window, maxWindow), NewOlia(0), seq(GROUP_HISTORY_SIZE, _ => GroupItem(0, 0)), 0, 0, 2,
         window, maxWindow)
  }

  ghost predicate PathInv(p: Path, least: nat) {
    && OliaInv(p.olia) && Inv(p.reno, least) && p.reno.largestSentAtLastCutback <= p.reno.largestSent
    && p.numConnections > 0 && MIN_CONGESTION_WINDOW <= p.initialWindow <= p.initialMax == p.reno.maxWindow
    && |p.history| == GROUP_HISTORY_SIZE && p.historyNext < GROUP_HISTORY_SIZE && AreBytes(p.history)
  }

  ghost predicate PathsInv(paths: Paths, least: nat) {
    forall k | k in paths :: PathInv(paths[k], least)
  }

  // ---- the epoch to look at ----

  ghost predicate IsLatest(paths: Paths, latest: nat) {
    && (forall k | k in paths :: paths[k].LatestItem() <= latest)
    && (latest == 0 || exists k :: k in paths && paths[k].LatestItem() == latest)
  }

  // No sender that has seen an epoch has group 0 in this one.
  ghost predicate NoneUncongested(paths: Paths, epoch: nat) {
    forall k | k in paths :: paths[k].LatestItem() > 0 ==> paths[k].GroupAt(epoch) != 0
  }

  // The latest of the last 20 epochs with that property, or 0.
  ghost predicate IsEpoch(paths: Paths, latest: nat, epoch: nat) {
    && IsLatest(paths, latest)
    && (forall e: nat | latest < e + GROUP_HISTORY_SIZE && epoch < e <= latest :: !NoneUncongested(paths, e))
    && (epoch > 0 ==> latest < epoch + GROUP_HISTORY_SIZE && epoch <= latest && NoneUncongested(paths, epoch))
  }

  // It does not depend on the order of the map.
  lemma EpochUnique(paths: Paths, latest: nat, epoch: nat, latest': nat, epoch': nat)
    requires IsEpoch(paths, latest, epoch) && IsEpoch(paths, latest', epoch')
    ensures latest == latest' && epoch == epoch'
  {
    hide NoneUncongested;
  }

  // ---- one coupled step ----

  // The flows that the coupling looks at.
  ghost function FlowsOf(paths: Paths, group: nat, epoch: nat): Flows {
    map k | k in paths && Coupled(paths[k].GroupAt(epoch), group) :: paths[k].AsFlow()
  }

  predicate AllMeasured(flows: Flows) {
    forall k | k in flows :: flows[k].rtt > 0
  }

  // What one step chooses: the epoch, the largest window, the flows that are to grow, the rate.
  datatype Coupling = Coupling(latest: nat, epoch: nat, max: nat, plus: set<nat>, rate: nat)

  ghost function FlowsFor(paths: Paths, k: nat, epoch: nat): Flows
    requires k in paths
  {
    FlowsOf(paths, AsByte(paths[k].GroupAt(epoch)), epoch)
  }

  // If all RTTs have been measured, exactly the flows with the most bytes per squared RTT among those
  // below the largest window grow.
  ghost predicate Grows(flows: Flows, max: nat, plus: set<nat>) {
    MayGrow(flows, max, plus) && (AllMeasured(flows) ==> plus == Leaders(flows, max))
  }

  ghost predicate IsCoupling(paths: Paths, k: nat, c: Coupling)
    requires k in paths
  {
    var flows := FlowsFor(paths, k, c.epoch);
    IsEpoch(paths, c.latest, c.epoch) && Grows(flows, c.max, c.plus) && IsRate(flows, paths[k].rtt, c.rate)
  }

  // New epsilons for all flows.
  ghost function WithEpsilons(paths: Paths, flows: Flows, max: nat, plus: set<nat>): Paths {
    map k | k in paths :: if k in flows then paths[k].WithEpsilon(EpsilonAt(flows, max, plus, k)) else paths[k]
  }

  // The step of one window, with the epsilon that its sender has then.
  ghost function Stepped(p: Path, rate: nat): Path {
    p.(olia := p.olia.(sndCwndCnt := CountAfterAck(p.olia, p.reno.window, rate)))
     .WithWindow(Min(WindowAfterAck(p.olia, p.reno.window, rate), p.reno.maxWindow))
  }

  ghost function AfterCoupling(paths: Paths, k: nat, c: Coupling): (paths': Paths)
    requires k in paths
    ensures paths'.Keys == paths.Keys
  {
    var mid := WithEpsilons(paths, FlowsFor(paths, k, c.epoch), c.max, c.plus);
    mid[k := Stepped(mid[k], c.rate)]
  }

  // ---- events ----

  // What can happen to the senders. `SlowStartExited` stands for the decision of hybrid slow start.
  datatype Event =
    | Sent(path: nat, number: nat, isRetransmittable: bool)
    | Acked(path: nat, number: nat, ackedBytes: nat, bytesInFlight: nat, c: Coupling)
    | Lost(path: nat, number: nat, bytes: nat)
    | TimedOut(path: nat, retransmitted: bool)
    | Migrated(path: nat)
    | SlowStartExited(path: nat)
    | LargeReductionSet(path: nat, enabled: bool)
    | ConnectionsSet(path: nat, n: int)
    | GroupUpdated(path: nat, group: nat, epoch: nat)
    | RttUpdated(path: nat, rtt: nat)
    | PathAdded(path: nat, window: nat, maxWindow: nat)

  // An ack outside of recovery counts the bytes and may let the window grow.
  function AfterCount(p: Path, number: nat, ackedBytes: nat): Path {
    var acked := p.(reno := AfterAcked(p.reno, number));
    if InRecovery(acked.reno.largestAcked, acked.reno.largestSentAtLastCutback) then acked
    else acked.(olia := acked.olia.(loss3 := acked.olia.loss3 + ackedBytes))
  }

  predicate StaysAsItIs(p: Path, bytesInFlight: nat) {
    || InRecovery(p.reno.largestAcked, p.reno.largestSentAtLastCutback)
    || !IsWindowLimited(p.reno.window, p.reno.threshold, bytesInFlight)
    || p.reno.window >= p.reno.maxWindow
  }

  // In congestion avoidance, the windows are coupled.
  predicate IsCoupled(p: Path, bytesInFlight: nat) {
    !StaysAsItIs(p, bytesInFlight) && !InSlowStart(p.reno.window, p.reno.threshold)
  }

  // The window grows, or takes part in a coupled step, only if the sender is close to using it.
  ghost predicate MaybeGrown(paths: Paths, k: nat, bytesInFlight: nat, c: Coupling, paths': Paths)
    requires k in paths
  {
    var p := paths[k];
    if StaysAsItIs(p, bytesInFlight) then paths' == paths
    else if InSlowStart(p.reno.window, p.reno.threshold) then paths' == paths[k := p.WithWindow(p.reno.window + 1)]
    else IsCoupling(paths, k, c) && paths' == AfterCoupling(paths, k, c)
  }

  ghost predicate AckedStep(paths: Paths, k: nat, number: nat, ackedBytes: nat, bytesInFlight: nat, c: Coupling,
                            paths': Paths)
    requires k in paths
  {
    MaybeGrown(paths[k := AfterCount(paths[k], number, ackedBytes)], k, bytesInFlight, c, paths')
  }

  // A cutback moves the loss counters on.
  function AfterPathLost(p: Path, number: nat, bytes: nat): Path
    requires p.numConnections > 0
  {
    p.(reno := AfterLost(p.reno, number, bytes, Reduced(p.reno.window, p.numConnections)),
       olia := if IsCutback(p.reno, number) then p.olia.(loss1 := p.olia.loss2, loss2 := p.olia.loss3) else p.olia)
  }

  function AfterPathTimeout(p: Path, retransmitted: bool): Path {
    p.(reno := AfterTimeout(p.reno, retransmitted), olia := if retransmitted then NewOlia(0) else p.olia)
  }

  function AfterPathMigration(p: Path): Path {
    p.(reno := AfterMigration(p.reno, p.initialWindow, p.initialMax), olia := NewOlia(0))
  }

  // An event that concerns one sender only.
  function AfterOwn(p: Path, e: Event): Path
    requires !e.Acked? && !e.PathAdded? && p.numConnections > 0
  {
    match e
    case Sent(_, number, isRetransmittable) => if isRetransmittable then p.(reno := AfterSent(p.reno, number)) else p
    case Lost(_, number, bytes) => AfterPathLost(p, number, bytes)
    case TimedOut(_, retransmitted) => AfterPathTimeout(p, retransmitted)
    case Migrated(_) => AfterPathMigration(p)
    case SlowStartExited(_) => p.(reno := AfterExit(p.reno))
    case LargeReductionSet(_, enabled) => p.(reno := p.reno.(slowStartLargeReduction := enabled))
    case ConnectionsSet(_, n) => p.(numConnections := if n > 1 then n else 1)
    case GroupUpdated(_, group, epoch) => p.WithGroup(group, epoch)
    case RttUpdated(_, rtt) => p.(rtt := rtt)
  }

  // One call of a method; packet numbers go up and groups are bytes.
  ghost predicate Step(paths: Paths, e: Event, paths': Paths) {
    if e.PathAdded? then
      && e.path !in paths && MIN_CONGESTION_WINDOW <= e.window <= e.maxWindow
      && paths' == paths[e.path := NewPath(e.window, e.maxWindow)]
    else
      && e.path in paths && paths[e.path].numConnections > 0
      && if e.Acked? then AckedStep(paths, e.path, e.number, e.ackedBytes, e.bytesInFlight, e.c, paths')
         else
           && (e.Sent? ==> e.number > paths[e.path].reno.largestSent)
           && (e.GroupUpdated? ==> e.group <= 255)
           && paths' == paths[e.path := AfterOwn(paths[e.path], e)]
  }

  // ---- what a coupled step does to the window ----

  // After a coupled step, the epsilons of the coupled flows add up to exactly zero.
  lemma StepCancels(paths: Paths, k: nat, c: Coupling)
    requires k in paths && IsCoupling(paths, k, c)
    ensures var flows := FlowsFor(paths, k, c.epoch);
            (forall j | j in flows :: j in paths && AfterCoupling(paths, k, c)[j].olia.epsilonDen > 0)
            && Sum(map j | j in flows :: Fraction(AfterCoupling(paths, k, c)[j].olia.epsilonNum,
                                                  AfterCoupling(paths, k, c)[j].olia.epsilonDen), flows.Keys) == 0.0
  {
    hide EpsilonAt, Sum, Fraction, IsEpoch, IsRate, CountAfterAck, WindowAfterAck;
    var flows := FlowsFor(paths, k, c.epoch);
    EpsilonsCancel(flows, c.max, c.plus);
    var after := AfterCoupling(paths, k, c);
    assert (map j | j in flows :: Fraction(after[j].olia.epsilonNum, after[j].olia.epsilonDen))
           == Epsilons(flows, c.max, c.plus);
  }

  // A window cannot shrink while its epsilon is not -1.
  lemma OnlyMinusOne(p: Path, rate: nat)
    requires OliaInv(p.olia) && p.reno.window <= p.reno.maxWindow
    ensures p.olia.epsilonNum != -1 ==> Stepped(p, rate).reno.window >= p.reno.window
    ensures Stepped(p, rate).reno.window >= p.reno.window - 1
    ensures p.olia.epsilonNum == -1 && p.reno.window > 1 ==>
              (Stepped(p, rate).reno.window < p.reno.window <==>
                 p.olia.sndCwndCnt - Decrease(p.olia.epsilonDen, p.reno.window, rate) <= -SCALE + 1)
  {
    hide Increase, Decrease;
    IncreaseSign(p.olia, p.reno.window, rate);
  }

  // A flow that is to shrink has a window larger than some other.
  lemma MinusOneIsLarger(flows: Flows, max: nat, plus: set<nat>, k: nat)
    requires MayGrow(flows, max, plus) && k in flows && EpsilonAt(flows, max, plus, k).0 == -1
    ensures exists j :: j in flows && flows[j].cwnd < flows[k].cwnd
  {
    var j :| j in plus;
    assert flows[j].cwnd < max;
  }

  // A coupled step leaves less than the minimum of two packets exactly if the sender does not couple with
  // itself, because its history has lost the epoch, if the epsilon -1 that it got at an earlier step is
  // still there, and if one more step with it adds up to a whole packet taken away.
  lemma ShrinksToOne(paths: Paths, k: nat, c: Coupling)
    requires k in paths && IsCoupling(paths, k, c) && PathsInv(paths, MIN_CONGESTION_WINDOW)
    ensures var p := paths[k];
            AfterCoupling(paths, k, c)[k].reno.window < MIN_CONGESTION_WINDOW <==>
              && p.reno.window == MIN_CONGESTION_WINDOW && p.GroupAt(c.epoch) == -1 && p.olia.epsilonNum == -1
              && p.olia.sndCwndCnt - Decrease(p.olia.epsilonDen, p.reno.window, c.rate) <= -SCALE + 1
  {
    hide EpsilonAt, IsEpoch, IsRate, Inv, Decrease, Stepped, MayGrow;
    var flows, p := FlowsFor(paths, k, c.epoch), paths[k];
    InvBounds(p.reno, MIN_CONGESTION_WINDOW);
    GroupRange(p.history, c.epoch);
    if p.GroupAt(c.epoch) == -1 {
      OnlyMinusOne(p, c.rate);
    } else {
      SelfCoupled(paths, k, c);
    }
  }

  lemma SelfCoupled(paths: Paths, k: nat, c: Coupling)
    requires k in paths && IsCoupling(paths, k, c) && PathsInv(paths, MIN_CONGESTION_WINDOW)
    requires k in FlowsFor(paths, k, c.epoch)
    ensures AfterCoupling(paths, k, c)[k].reno.window >= MIN_CONGESTION_WINDOW
  {
    hide EpsilonAt, IsEpoch, IsRate, Inv, Decrease, Stepped, MayGrow;
    var flows := FlowsFor(paths, k, c.epoch);
    var e := EpsilonAt(flows, c.max, c.plus, k);
    EpsilonRange(flows, c.max, c.plus, k);
    InvBounds(paths[k].reno, MIN_CONGESTION_WINDOW);
    OnlyMinusOne(paths[k].WithEpsilon(e), c.rate);
    if e.0 == -1 {
      MinusOneIsLarger(flows, c.max, c.plus, k);
      var j :| j in flows && flows[j].cwnd < flows[k].cwnd;
      InvBounds(paths[j].reno, MIN_CONGESTION_WINDOW);
    }
  }

  lemma EpsilonRange(flows: Flows, max: nat, plus: set<nat>, k: nat)
    requires MayGrow(flows, max, plus) && k in flows
    ensures var e := EpsilonAt(flows, max, plus, k); -1 <= e.0 <= 1 && e.1 > 0
  {
    DenominatorPositive(flows, max, plus, k);
  }

  // The sender has its epoch, or couples with nobody.
  ghost predicate Anchored(paths: Paths, k: nat, epoch: nat)
    requires k in paths
  {
    paths[k].GroupAt(epoch) != -1 || FlowsFor(paths, k, epoch).Keys == {}
  }

  // As long as the sender has its epoch, or couples with nobody, a coupled step keeps the minimum.
  lemma AnchoredKeepsMinimum(paths: Paths, k: nat, c: Coupling)
    requires k in paths && IsCoupling(paths, k, c) && PathsInv(paths, MIN_CONGESTION_WINDOW)
    requires Anchored(paths, k, c.epoch)
    ensures AfterCoupling(paths, k, c)[k].reno.window >= MIN_CONGESTION_WINDOW
  {
    hide IsEpoch, IsRate, Inv, Grows, AfterCoupling;
    ShrinksToOne(paths, k, c);
    if FlowsFor(paths, k, c.epoch).Keys == {} {
      RatePositive(FlowsFor(paths, k, c.epoch), paths[k].rtt, c.rate);
      InvBounds(paths[k].reno, MIN_CONGESTION_WINDOW);
      WeightPositive(paths[k].olia.epsilonDen, paths[k].reno.window);
    }
  }

  lemma WeightPositive(den: nat, window: nat)
    requires den > 0 && window > 0
    ensures Weight(den, window) >= 1
  {
    assert den * (window * SCALE) >= 1;
  }

  // Only epoch 0 can be lost with an effect: for a later epoch to be looked at, no sender that has seen an
  // epoch may have group 0 in it, and the group of a sender that has lost it stands for 255.
  lemma LaterEpochAnchored(paths: Paths, k: nat, c: Coupling)
    requires k in paths && IsCoupling(paths, k, c) && c.epoch > 0
    requires forall j | j in paths :: paths[j].GroupAt(c.epoch) != 255
    requires forall j | j in paths && paths[j].LatestItem() == 0 :: paths[j].GroupAt(c.epoch) == -1
    ensures Anchored(paths, k, c.epoch)
  {
    hide IsRate, Grows;
    var flows := FlowsFor(paths, k, c.epoch);
    if paths[k].GroupAt(c.epoch) == -1 {
      forall j | j in paths ensures j !in flows {
        assert paths[j].LatestItem() > 0 ==> paths[j].GroupAt(c.epoch) != 0;
      }
    }
  }

  // ---- runs ----

  // An event at which the windows are coupled finds the sender with its epoch.
  ghost predicate KeepsEpoch(paths: Paths, e: Event) {
    e.Acked? && e.path in paths ==>
      var p := AfterCount(paths[e.path], e.number, e.ackedBytes);
      IsCoupled(p, e.bytesInFlight) ==> Anchored(paths[e.path := p], e.path, e.c.epoch)
  }

  lemma EpsilonKeeps(p: Path, e: (int, nat), least: nat)
    requires PathInv(p, least) && -1 <= e.0 <= 1 && e.1 > 0
    ensures PathInv(p.WithEpsilon(e), least)
  {
    hide Inv;
  }

  lemma WindowKeeps(p: Path, window: nat, least: nat)
    requires PathInv(p, least) && least <= window <= p.reno.maxWindow
    ensures PathInv(p.WithWindow(window), least)
  {
    hide Inv;
    InvWindow(p.reno, least, window);
  }

  lemma SteppedKeeps(p: Path, rate: nat, least: nat)
    requires PathInv(p, least) && (least == MIN_CONGESTION_WINDOW ==> Stepped(p, rate).reno.window >= least)
    ensures PathInv(Stepped(p, rate), least)
  {
    hide Inv, CountAfterAck, WindowAfterAck;
    InvBounds(p.reno, least);
    LeastIsOneOrTwo(p.reno, least);
    var counted := p.(olia := p.olia.(sndCwndCnt := CountAfterAck(p.olia, p.reno.window, rate)));
    WindowKeeps(counted, Min(WindowAfterAck(p.olia, p.reno.window, rate), p.reno.maxWindow), least);
  }

  lemma LeastIsOneOrTwo(st: State, least: nat)
    requires Inv(st, least)
    ensures least == 1 || least == MIN_CONGESTION_WINDOW
  {
  }

  lemma CouplingKeeps(paths: Paths, k: nat, c: Coupling, least: nat)
    requires k in paths && IsCoupling(paths, k, c) && PathsInv(paths, least)
    requires least == MIN_CONGESTION_WINDOW ==> Anchored(paths, k, c.epoch)
    ensures PathsInv(AfterCoupling(paths, k, c), least)
  {
    hide EpsilonAt, IsEpoch, IsRate, PathInv, MayGrow, Anchored, Stepped, FlowsFor;
    var flows := FlowsFor(paths, k, c.epoch);
    if least == MIN_CONGESTION_WINDOW {
      AnchoredKeepsMinimum(paths, k, c);
    }
    var mid := WithEpsilons(paths, flows, c.max, c.plus);
    forall j | j in paths ensures PathInv(mid[j], least) {
      if j in flows {
        EpsilonRange(flows, c.max, c.plus, j);
        EpsilonKeeps(paths[j], EpsilonAt(flows, c.max, c.plus, j), least);
      }
    }
    SteppedKeeps(mid[k], c.rate, least);
  }

  lemma AckedKeeps(paths: Paths, k: nat, number: nat, ackedBytes: nat, bytesInFlight: nat, c: Coupling, paths': Paths,
                   least: nat)
    requires k in paths && AckedStep(paths, k, number, ackedBytes, bytesInFlight, c, paths') && PathsInv(paths, least)
    requires least == MIN_CONGESTION_WINDOW ==> KeepsEpoch(paths, Acked(k, number, ackedBytes, bytesInFlight, c))
    ensures PathsInv(paths', least)
  {
    hide PathInv, IsCoupling, AfterCoupling, AfterCount, IsWindowLimited, InSlowStart;
    var p := AfterCount(paths[k], number, ackedBytes);
    CountKeeps(paths[k], number, ackedBytes, least);
    assert paths[k := p][k := p.WithWindow(p.reno.window + 1)] == paths[k := p.WithWindow(p.reno.window + 1)];
    if !StaysAsItIs(p, bytesInFlight) {
      if InSlowStart(p.reno.window, p.reno.threshold) {
        WindowGrows(p, least);
      } else {
        CouplingKeeps(paths[k := p], k, c, least);
      }
    }
  }

  lemma CountKeeps(p: Path, number: nat, ackedBytes: nat, least: nat)
    requires PathInv(p, least)
    ensures PathInv(AfterCount(p, number, ackedBytes), least)
  {
  }

  lemma WindowGrows(p: Path, least: nat)
    requires PathInv(p, least) && p.reno.window < p.reno.maxWindow
    ensures PathInv(p.WithWindow(p.reno.window + 1), least)
  {
    InvBounds(p.reno, least);
    WindowKeeps(p, p.reno.window + 1, least);
  }

  lemma OwnKeeps(p: Path, e: Event, least: nat)
    requires PathInv(p, least) && !e.Acked? && !e.PathAdded?
    requires e.Sent? ==> e.number > p.reno.largestSent
    requires e.GroupUpdated? ==> e.group <= 255
    ensures PathInv(AfterOwn(p, e), least)
  {
    hide Reduced;
    match e
    case Lost(_, number, bytes) => LostInv(p.reno, least, number, bytes, Reduced(p.reno.window, p.numConnections));
    case TimedOut(_, retransmitted) => TimeoutInv(p.reno, least, retransmitted);
    case _ =>
  }

  lemma StepKeeps(paths: Paths, e: Event, paths': Paths, least: nat)
    requires PathsInv(paths, least) && Step(paths, e, paths') && 1 <= least <= MIN_CONGESTION_WINDOW
    requires least == MIN_CONGESTION_WINDOW ==> KeepsEpoch(paths, e)
    ensures PathsInv(paths', least)
  {
    hide PathInv, AckedStep, AfterOwn, KeepsEpoch;
    if e.PathAdded? {
      NewKeeps(e.window, e.maxWindow, least);
    } else if e.Acked? {
      AckedKeeps(paths, e.path, e.number, e.ackedBytes, e.bytesInFlight, e.c, paths', least);
    } else {
      OwnKeeps(paths[e.path], e, least);
    }
  }

  lemma NewKeeps(window: nat, maxWindow: nat, least: nat)
    requires MIN_CONGESTION_WINDOW <= window <= maxWindow && 1 <= least <= MIN_CONGESTION_WINDOW
    ensures PathInv(NewPath(window, maxWindow), least)
  {
  }

  // Runs start without senders.
  ghost predicate IsRun(run: seq<Paths>, events: seq<Event>) {
    && |run| == |events| + 1
    && run[0] == map[]
    && (forall i :: 0 <= i < |events| ==> Step(run[i], events[i], run[i + 1]))
  }

  lemma {:induction false} RunInv(run: seq<Paths>, events: seq<Event>, n: nat, least: nat)
    requires IsRun(run, events) && n < |run| && 1 <= least <= MIN_CONGESTION_WINDOW
    requires least == MIN_CONGESTION_WINDOW ==> forall i | 0 <= i < n :: KeepsEpoch(run[i], events[i])
    ensures PathsInv(run[n], least)
  {
    hide KeepsEpoch;
    if n > 0 {
      RunInv(run, events, n - 1, least);
      StepKeeps(run[n - 1], events[n - 1], run[n], least);
    }
  }

  // Over all runs, every window has at least one packet and at most its maximum; it has at least the minimum
  // of two packets as long as the senders whose windows are coupled have their epochs.
  lemma WindowsBounded(run: seq<Paths>, events: seq<Event>, n: nat, k: nat)
    requires IsRun(run, events) && n < |run| && k in run[n]
    ensures 1 <= run[n][k].reno.window <= run[n][k].initialMax
    ensures (forall i | 0 <= i < n :: KeepsEpoch(run[i], events[i])) ==> run[n][k].reno.window >= MIN_CONGESTION_WINDOW
  {
    hide KeepsEpoch;
    RunInv(run, events, n, 1);
    InvBounds(run[n][k].reno, 1);
    if forall i | 0 <= i < n :: KeepsEpoch(run[i], events[i]) {
      RunInv(run, events, n, MIN_CONGESTION_WINDOW);
      InvBounds(run[n][k].reno, MIN_CONGESTION_WINDOW);
    }
  }

  // An event that forgets the last cutback of a path.
  predicate Forgets(e: Event, k: nat) {
    e.path == k && (e.TimedOut? || e.Migrated?)
  }

  lemma SinceStep(paths: Paths, e: Event, paths': Paths, k: nat, p: nat)
    requires k in paths && PathsInv(paths, 1) && Step(paths, e, paths') && !Forgets(e, k)
    requires k in paths' && p in paths'[k].reno.sinceCutback && p !in paths[k].reno.sinceCutback
    ensures e == Sent(k, p, true)
  {
    hide Reduced, IsCoupling, EpsilonAt, CountAfterAck, WindowAfterAck, Inv, FlowsFor;
  }

  lemma PathStays(paths: Paths, e: Event, paths': Paths, k: nat)
    requires k in paths && Step(paths, e, paths')
    ensures k in paths'
  {
    hide AfterOwn, AfterCount, AfterCoupling, IsCoupling;
  }

  lemma {:induction false} SentSince(run: seq<Paths>, events: seq<Event>, i: nat, j: nat, k: nat, p: nat)
    requires IsRun(run, events) && i <= j <= |events| && k in run[i] && run[i][k].reno.sinceCutback == {}
    requires forall m | i <= m < j :: !Forgets(events[m], k)
    ensures k in run[j]
    ensures p in run[j][k].reno.sinceCutback ==> exists m :: i <= m < j && events[m] == Sent(k, p, true)
  {
    hide Step, PathsInv;
    if i < j {
      SentSince(run, events, i, j - 1, k, p);
      RunInv(run, events, j - 1, 1);
      PathStays(run[j - 1], events[j - 1], run[j], k);
      if p in run[j][k].reno.sinceCutback && p !in run[j - 1][k].reno.sinceCutback {
        SinceStep(run[j - 1], events[j - 1], run[j], k, p);
      }
    }
  }

  // Between two cutbacks of a path with neither a timeout nor a migration, the packet whose loss causes
  // the second one was sent.
  lemma CutbacksSeparated(run: seq<Paths>, events: seq<Event>, i: nat, j: nat, k: nat)
    requires IsRun(run, events) && i < j < |events| && events[i].Lost? && events[j].Lost?
    requires events[i].path == events[j].path == k && k in run[i] && IsCutback(run[i][k].reno, events[i].number)
    requires k in run[j] && IsCutback(run[j][k].reno, events[j].number) && events[j].number in run[j][k].reno.sent
    requires forall m | i < m < j :: !Forgets(events[m], k)
    ensures exists m :: i < m < j && events[m] == Sent(k, events[j].number, true)
  {
    RunInv(run, events, j, 1);
    CutbacksApart(run[j][k].reno, 1, events[j].number);
    CutbackEmpties(run[i], events[i], run[i + 1]);
    SentSince(run, events, i + 1, j, k, events[j].number);
  }

  lemma CutbackEmpties(paths: Paths, e: Event, paths': Paths)
    requires e.Lost? && Step(paths, e, paths') && IsCutback(paths[e.path].reno, e.number)
    ensures e.path in paths' && paths'[e.path].reno.sinceCutback == {}
  {
  }

  // ---- what the methods need ----

  lemma CouplingIs(paths: Paths, k: nat, c: Coupling, flows: Flows, mid: Paths)
    requires k in paths && flows == FlowsFor(paths, k, c.epoch)
    requires IsEpoch(paths, c.latest, c.epoch) && Grows(flows, c.max, c.plus) && IsRate(flows, paths[k].rtt, c.rate)
    requires mid == WithEpsilons(paths, flows, c.max, c.plus)
    ensures IsCoupling(paths, k, c) && k in mid && AfterCoupling(paths, k, c) == mid[k := Stepped(mid[k], c.rate)]
  {
    hide IsEpoch, Grows, IsRate, FlowsFor, Stepped, EpsilonAt, Path.WithEpsilon;
  }

  lemma AckedIs(paths: Paths, k: nat, number: nat, ackedBytes: nat, bytesInFlight: nat, c: Coupling, paths': Paths)
    requires k in paths && paths[k].numConnections > 0
    requires var counted := paths[k := AfterCount(paths[k], number, ackedBytes)];
             || (StaysAsItIs(counted[k], bytesInFlight) && paths' == counted)
             || MaybeGrown(counted, k, bytesInFlight, c, paths')
    ensures Step(paths, Acked(k, number, ackedBytes, bytesInFlight, c), paths')
  {
    hide AfterCount, IsCoupling, AfterCoupling, InSlowStart, StaysAsItIs;
  }

  lemma EpsilonsKeepFlows(paths: Paths, flows: Flows, max: nat, plus: set<nat>, group: nat, epoch: nat)
    ensures FlowsOf(WithEpsilons(paths, flows, max, plus), group, epoch) == FlowsOf(paths, group, epoch)
  {
    hide EpsilonAt, GroupOf;
  }
}
