/**
 congestion/olia_sender.go: one sender for every path. Those that the shared-bottleneck detection puts in
 one group, or in none, couple their windows.
 */
module OliaSender {
  import opened Olia
  import opened NewReno
  import opened OliaPaths
  import opened Partitions

  class Sender {
    const olia: Olia
    const initialCongestionWindow: nat
    const initialMaxCongestionWindow: nat
    var groupHistory: seq<GroupItem>
    var groupHistoryNext: nat
    var smoothedRTT: nat
    var numConnections: nat
    var congestionWindow: nat
    var slowstartThreshold: nat
    var maxTCPCongestionWindow: nat
    var largestSentPacketNumber: nat
    var largestAckedPacketNumber: nat
    var largestSentAtLastCutback: nat
    var lastCutbackExitedSlowstart: bool
    var slowStartLargeReduction: bool
    var slowstartPacketsLost: nat
    var slowstartBytesLost: nat
    ghost var sent: set<nat>
    ghost var sinceCutback: set<nat>

    ghost function Reno(): State
      reads this
    {
      State(congestionWindow, slowstartThreshold, maxTCPCongestionWindow, largestSentPacketNumber,
            largestAckedPacketNumber, largestSentAtLastCutback, lastCutbackExitedSlowstart,
            slowStartLargeReduction, slowstartPacketsLost, slowstartBytesLost, sent, sinceCutback)
    }

    ghost function View(): Path
      reads this, olia
    {
      Path(Reno(), olia.View(), groupHistory, groupHistoryNext, smoothedRTT, numConnections,
           initialCongestionWindow, initialMaxCongestionWindow)
    }

    // What the methods rely on.
    ghost predicate Fits()
      reads this, olia
    {
      && OliaInv(olia.View()) && congestionWindow >= 1 && numConnections > 0
      && |groupHistory| == GROUP_HISTORY_SIZE && groupHistoryNext < GROUP_HISTORY_SIZE && AreBytes(groupHistory)
    }

    constructor (initialCongestionWindow: nat, initialMaxCongestionWindow: nat)
      requires MIN_CONGESTION_WINDOW <= initialCongestionWindow <= initialMaxCongestionWindow
      ensures View() == NewPath(initialCongestionWindow, initialMaxCongestionWindow) && Fits() && fresh(olia)
    {
      olia := new Olia(0);
      this.initialCongestionWindow, this.initialMaxCongestionWindow :=
        initialCongestionWindow, initialMaxCongestionWindow;
      groupHistory := seq(GROUP_HISTORY_SIZE, _ => GroupItem(0, 0));
      groupHistoryNext, smoothedRTT, numConnections := 0, 0, 2;
      congestionWindow, slowstartThreshold, maxTCPCongestionWindow :=
        initialCongestionWindow, initialMaxCongestionWindow, initialMaxCongestionWindow;
      largestSentPacketNumber, largestAckedPacketNumber, largestSentAtLastCutback := 0, 0, 0;
      lastCutbackExitedSlowstart, slowStartLargeReduction := false, false;
      slowstartPacketsLost, slowstartBytesLost := 0, 0;
      sent, sinceCutback := {}, {};
    }

    // ---- the ring of groups ----

    function GetGroup(epoch: nat): int
      reads this
    {
      GroupOf(groupHistory, epoch)
    }

    predicate CanBeSent(group: nat, epoch: nat)
      reads this
    {
      Coupled(GetGroup(epoch), group)
    }

    function LatestEpoch(): nat
      requires |groupHistory| == GROUP_HISTORY_SIZE
      reads this
    {
      groupHistory[(groupHistoryNext + GROUP_HISTORY_SIZE - 1) % GROUP_HISTORY_SIZE].epoch
    }

    method UpdateGroupEpoch(group: nat, epoch: nat)
      requires Fits() && group <= 255
      modifies this`groupHistory, this`groupHistoryNext
      ensures Fits() && View() == AfterOwn(old(View()), GroupUpdated(0, group, epoch))
    {
      hide OliaInv;
      var i := 0;
      while i < GROUP_HISTORY_SIZE
        invariant 0 <= i <= GROUP_HISTORY_SIZE
        invariant forall j | 0 <= j < i :: groupHistory[j].epoch != epoch
      {
        if groupHistory[i].epoch == epoch {
          return;
        }
        i := i + 1;
      }
      groupHistory := groupHistory[groupHistoryNext := GroupItem(group, epoch)];
      groupHistoryNext := (groupHistoryNext + 1) % GROUP_HISTORY_SIZE;
    }

    // ---- events ----

    method OnPacketSent(number: nat, isRetransmittable: bool) returns (counts: bool)
      requires number > largestSentPacketNumber && numConnections > 0
      modifies this
      ensures View() == AfterOwn(old(View()), Sent(0, number, isRetransmittable)) && counts == isRetransmittable
    {
      if !isRetransmittable {
        return false;
      }
      largestSentPacketNumber := number;
      sent, sinceCutback := sent + {number}, sinceCutback + {number};
      counts := true;
    }

    method OnPacketLost(number: nat, lostBytes: nat)
      requires congestionWindow > 0 && numConnections > 0
      modifies this, olia
      ensures View() == AfterOwn(old(View()), Lost(0, number, lostBytes))
    {
      hide CutBack, LostAgain, Reduced;
      if number <= largestSentAtLastCutback {
        CountLoss(lostBytes);
      } else {
        olia.OnPacketLost();
        ReduceWindow();
      }
    }

    // The cutback.
    method ReduceWindow()
      requires congestionWindow > 0 && numConnections > 0
      modifies this`congestionWindow, this`slowstartThreshold, this`largestSentAtLastCutback,
               this`lastCutbackExitedSlowstart, this`slowstartPacketsLost, this`sinceCutback
      ensures Reno() == CutBack(old(Reno()), Reduced(old(congestionWindow), numConnections))
    {
      hide Reduced;
      var slow := InSlowStart(congestionWindow, slowstartThreshold);
      var window: nat;
      if slowStartLargeReduction && slow {
        window := congestionWindow - 1;
      } else {
        window := Reduced(congestionWindow, numConnections);
      }
      if window < MIN_CONGESTION_WINDOW {
        window := MIN_CONGESTION_WINDOW;
      }
      SetReduced(slow, window);
    }

    method SetReduced(slow: bool, window: nat)
      modifies this`congestionWindow, this`slowstartThreshold, this`largestSentAtLastCutback,
               this`lastCutbackExitedSlowstart, this`slowstartPacketsLost, this`sinceCutback
      ensures congestionWindow == slowstartThreshold == window && largestSentAtLastCutback == largestSentPacketNumber
      ensures lastCutbackExitedSlowstart == slow && sinceCutback == {}
      ensures slowstartPacketsLost == old(slowstartPacketsLost) + if slow then 1 else 0
    {
      lastCutbackExitedSlowstart := slow;
      if slow {
        slowstartPacketsLost := slowstartPacketsLost + 1;
      }
      congestionWindow := window;
      slowstartThreshold := window;
      largestSentAtLastCutback := largestSentPacketNumber;
      sinceCutback := {};
    }

    // A loss that belongs to an earlier cutback.
    method CountLoss(lostBytes: nat)
      requires congestionWindow > 0
      modifies this`slowstartPacketsLost, this`slowstartBytesLost, this`congestionWindow, this`slowstartThreshold
      ensures Reno() == LostAgain(old(Reno()), lostBytes)
    {
      if lastCutbackExitedSlowstart {
        slowstartPacketsLost := slowstartPacketsLost + 1;
        slowstartBytesLost := slowstartBytesLost + lostBytes;
        if slowStartLargeReduction {
          if slowstartPacketsLost == 1
             || slowstartBytesLost / DEFAULT_TCP_MSS > (slowstartBytesLost - lostBytes) / DEFAULT_TCP_MSS {
            congestionWindow := AtLeastMin(congestionWindow - 1);
          }
          slowstartThreshold := congestionWindow;
        }
      }
    }

    method OnRetransmissionTimeout(packetsRetransmitted: bool)
      requires numConnections > 0
      modifies this, olia
      ensures View() == AfterOwn(old(View()), TimedOut(0, packetsRetransmitted))
    {
      largestSentAtLastCutback := 0;
      sinceCutback := sent;
      if !packetsRetransmitted {
        return;
      }
      olia.Reset();
      slowstartThreshold := congestionWindow / 2;
      congestionWindow := MIN_CONGESTION_WINDOW;
    }

    method OnConnectionMigration()
      requires numConnections > 0
      modifies this, olia
      ensures View() == AfterOwn(old(View()), Migrated(0))
    {
      olia.Reset();
      StartAgain();
    }

    method StartAgain()
      modifies this`largestSentPacketNumber, this`largestAckedPacketNumber, this`largestSentAtLastCutback,
               this`lastCutbackExitedSlowstart, this`congestionWindow, this`slowstartThreshold,
               this`maxTCPCongestionWindow, this`sent, this`sinceCutback
      ensures congestionWindow == initialCongestionWindow
      ensures slowstartThreshold == maxTCPCongestionWindow == initialMaxCongestionWindow
      ensures largestSentPacketNumber == largestAckedPacketNumber == largestSentAtLastCutback == 0
      ensures !lastCutbackExitedSlowstart && sent == sinceCutback == {}
    {
      largestSentPacketNumber, largestAckedPacketNumber, largestSentAtLastCutback := 0, 0, 0;
      lastCutbackExitedSlowstart := false;
      congestionWindow, slowstartThreshold := initialCongestionWindow, initialMaxCongestionWindow;
      maxTCPCongestionWindow := initialMaxCongestionWindow;
      sent, sinceCutback := {}, {};
    }

    method ExitSlowstart()
      requires numConnections > 0
      modifies this`slowstartThreshold
      ensures View() == AfterOwn(old(View()), SlowStartExited(0))
    {
      slowstartThreshold := congestionWindow;
    }

    method SetSlowStartLargeReduction(enabled: bool)
      requires numConnections > 0
      modifies this`slowStartLargeReduction
      ensures View() == AfterOwn(old(View()), LargeReductionSet(0, enabled))
    {
      slowStartLargeReduction := enabled;
    }

    method SetNumEmulatedConnections(n: int)
      requires numConnections > 0
      modifies this`numConnections
      ensures View() == AfterOwn(old(View()), ConnectionsSet(0, n))
    {
      numConnections := if n > 1 then n else 1;
    }

    // An ack: whether and how the windows are coupled is read off the map of all senders; `k` is the own path.
    method OnPacketAcked(number: nat, ackedBytes: nat, bytesInFlight: nat, senders: map<nat, Sender>, ghost k: nat)
      returns (ghost c: Coupling)
      requires Ready(senders) && k in senders && senders[k] == this
      modifies this, Olias(senders)
      ensures Ready(senders)
              && Step(old(Views(senders)), Acked(k, number, ackedBytes, bytesInFlight, c), Views(senders))
    {
      hide View, Views, Ready, Fits, Apart, AllFit, MaybeGrown, Step, AfterCount;
      c := Coupling(0, 0, 0, {}, 0);
      ReadyParts(senders, k);
      ghost var before := Views(senders);
      ViewsFit(senders);
      CountAcked(number, ackedBytes);
      OneChanged(senders, before, k);
      CountedStays(this, bytesInFlight);
      if InRecovery(largestAckedPacketNumber, largestSentAtLastCutback) {
        AckedIs(before, k, number, ackedBytes, bytesInFlight, c, Views(senders));
        return;
      }
      c := MaybeIncreaseCwnd(bytesInFlight, senders, k);
      AckedIs(before, k, number, ackedBytes, bytesInFlight, c, Views(senders));
    }

    // The counters that an ack moves.
    method CountAcked(number: nat, ackedBytes: nat)
      requires Fits()
      modifies this`largestAckedPacketNumber, olia`loss3
      ensures Fits() && View() == AfterCount(old(View()), number, ackedBytes)
    {
      hide AreBytes;
      largestAckedPacketNumber := if number > largestAckedPacketNumber then number else largestAckedPacketNumber;
      if !InRecovery(largestAckedPacketNumber, largestSentAtLastCutback) {
        olia.UpdateAckedSinceLastLoss(ackedBytes);
      }
    }

    method MaybeIncreaseCwnd(bytesInFlight: nat, senders: map<nat, Sender>, ghost k: nat) returns (ghost c: Coupling)
      requires Ready(senders) && k in senders && senders[k] == this
      requires !InRecovery(largestAckedPacketNumber, largestSentAtLastCutback)
      modifies this`congestionWindow, Olias(senders)
      ensures Ready(senders)
      ensures MaybeGrown(old(Views(senders)), k, bytesInFlight, c, Views(senders))
    {
      hide View, Views, Ready, Fits, Apart, AllFit, IsWindowLimited, InSlowStart, IsCoupling, AfterCoupling,
           Path.WithWindow;
      c := Coupling(0, 0, 0, {}, 0);
      ReadyParts(senders, k);
      StaysRead(this, bytesInFlight);
      if !IsWindowLimited(congestionWindow, slowstartThreshold, bytesInFlight) {
        return;
      }
      if congestionWindow >= maxTCPCongestionWindow {
        return;
      }
      if InSlowStart(congestionWindow, slowstartThreshold) {
        ghost var before := Views(senders);
        ViewsFit(senders);
        Grow();
        OneChanged(senders, before, k);
        return;
      }
      c := CoupledIncrease(senders, k);
    }

    // Slow start.
    method Grow()
      requires Fits()
      modifies this`congestionWindow
      ensures Fits() && View() == old(View()).WithWindow(old(congestionWindow) + 1)
    {
      hide OliaInv, AreBytes;
      congestionWindow := congestionWindow + 1;
    }

    // Congestion avoidance: new epsilons for all that couple, then the step of this window.
    method CoupledIncrease(senders: map<nat, Sender>, ghost k: nat) returns (ghost c: Coupling)
      requires Ready(senders) && k in senders && senders[k] == this && congestionWindow <= maxTCPCongestionWindow
      modifies this`congestionWindow, Olias(senders)
      ensures Ready(senders) && IsCoupling(old(Views(senders)), k, c)
      ensures Views(senders) == AfterCoupling(old(Views(senders)), k, c)
    {
      hide View, Views, Ready, Fits, AllFit, GetGroup, AsByte, IsEpoch, IsRate, Selected, WithEpsilons, Stepped,
           FlowsFor, IsCoupling, AfterCoupling, Grows;
      ReadyParts(senders, k);
      ghost var before := Views(senders);
      var epoch, latest := GetEpoch(senders);
      var group := AsByte(GetGroup(epoch));
      SelectedFor(this, senders, k, epoch);
      var rate: nat;
      ghost var flows, maxCwnd, plus;
      rate, flows, maxCwnd, plus := Couple(senders, smoothedRTT, group, epoch);
      ghost var mid := Views(senders);
      c := Coupling(latest, epoch, maxCwnd, plus, rate);
      StepAmong(rate, senders, k);
      CouplingIs(before, k, c, flows, mid);
    }

    method StepAmong(rate: nat, senders: map<nat, Sender>, ghost k: nat)
      requires Ready(senders) && k in senders && senders[k] == this && congestionWindow <= maxTCPCongestionWindow
      modifies this`congestionWindow, olia`sndCwndCnt
      ensures Ready(senders) && k in old(Views(senders))
      ensures Views(senders) == old(Views(senders))[k := Stepped(old(Views(senders))[k], rate)]
    {
      hide View, Views, Ready, Fits, Apart, AllFit, Stepped;
      ReadyParts(senders, k);
      ghost var before := Views(senders);
      ViewsFit(senders);
      StepWindow(rate);
      OneChanged(senders, before, k);
    }

    method StepWindow(rate: nat)
      requires Fits() && congestionWindow <= maxTCPCongestionWindow
      modifies this`congestionWindow, olia`sndCwndCnt
      ensures Fits() && View() == Stepped(old(View()), rate)
    {
      hide AreBytes, WindowAfterAck, CountAfterAck;
      var scaled := congestionWindow * SCALE;
      var window := olia.CongestionWindowAfterAck(congestionWindow, rate, scaled);
      congestionWindow := if window < maxTCPCongestionWindow then window else maxTCPCongestionWindow;
    }
  }

  // ---- coupling ----

  // The map of all senders; each has a window algorithm of its own.
  ghost predicate Ready(senders: map<nat, Sender>)
    reads set k | k in senders :: senders[k], set k | k in senders :: senders[k].olia
  {
    Apart(senders) && AllFit(senders)
  }

  ghost predicate Apart(senders: map<nat, Sender>) {
    && |senders| <= 255
    && forall j, k | j in senders && k in senders && j != k ::
         senders[j] != senders[k] && senders[j].olia != senders[k].olia
  }

  ghost predicate AllFit(senders: map<nat, Sender>)
    reads set k | k in senders :: senders[k], set k | k in senders :: senders[k].olia
  {
    forall k | k in senders :: senders[k].Fits()
  }

  ghost function Views(senders: map<nat, Sender>): Paths
    reads set k | k in senders :: senders[k], set k | k in senders :: senders[k].olia
  {
    map k | k in senders :: senders[k].View()
  }

  // The flows of the senders that couple.
  ghost function Selected(senders: map<nat, Sender>, group: nat, epoch: nat): Flows
    reads set k | k in senders :: senders[k], set k | k in senders :: senders[k].olia
  {
    FlowsOf(Views(senders), group, epoch)
  }

  lemma ReadyParts(senders: map<nat, Sender>, k: nat)
    requires Ready(senders) && k in senders
    ensures AllFit(senders) && Apart(senders) && senders[k].Fits()
    ensures Views(senders).Keys == senders.Keys && Views(senders)[k] == senders[k].View()
  {
  }

  // Only the sender of one path has changed.
  lemma OneChanged(senders: map<nat, Sender>, before: Paths, k: nat)
    requires Apart(senders) && k in senders && before.Keys == senders.Keys && senders[k].Fits()
    requires forall j | j in senders && j != k :: senders[j].View() == before[j]
    requires forall j | j in before && j != k :: PathFits(before[j])
    ensures Ready(senders) && Views(senders) == before[k := senders[k].View()]
  {
    hide OliaInv, AreBytes;
    forall j | j in senders ensures senders[j].Fits() {
      if j != k {
        assert PathFits(senders[j].View());
      }
    }
  }

  lemma StaysRead(os: Sender, bytesInFlight: nat)
    ensures os.View().reno.window == os.congestionWindow && os.View().reno.threshold == os.slowstartThreshold
    ensures StaysAsItIs(os.View(), bytesInFlight) <==>
              || InRecovery(os.largestAckedPacketNumber, os.largestSentAtLastCutback)
              || !IsWindowLimited(os.congestionWindow, os.slowstartThreshold, bytesInFlight)
              || os.congestionWindow >= os.maxTCPCongestionWindow
  {
  }

  lemma CountedStays(os: Sender, bytesInFlight: nat)
    ensures os.View().reno.window == os.congestionWindow && os.View().reno.threshold == os.slowstartThreshold
    ensures os.View().numConnections == os.numConnections
    ensures InRecovery(os.largestAckedPacketNumber, os.largestSentAtLastCutback) ==>
              StaysAsItIs(os.View(), bytesInFlight)
  {
  }

  lemma SelectedFor(os: Sender, senders: map<nat, Sender>, k: nat, epoch: nat)
    requires k in senders && senders[k] == os
    ensures k in Views(senders) && Views(senders)[k].rtt == os.smoothedRTT
    ensures FlowsFor(Views(senders), k, epoch) == Selected(senders, AsByte(os.GetGroup(epoch)), epoch)
  {
    hide GroupOf, FlowsOf;
  }

  // `Fits`, read off the fields.
  ghost predicate PathFits(p: Path) {
    && OliaInv(p.olia) && p.reno.window >= 1 && p.numConnections > 0
    && |p.history| == GROUP_HISTORY_SIZE && p.historyNext < GROUP_HISTORY_SIZE && AreBytes(p.history)
  }

  lemma ViewsFit(senders: map<nat, Sender>)
    requires Ready(senders)
    ensures Views(senders).Keys == senders.Keys
    ensures forall k | k in senders :: Views(senders)[k] == senders[k].View() && PathFits(Views(senders)[k])
  {
    hide OliaInv, AreBytes;
  }

  lemma HistoriesRead(senders: map<nat, Sender>, epoch: nat)
    requires Ready(senders)
    ensures Views(senders).Keys == senders.Keys
    ensures forall k | k in senders ::
              && |senders[k].groupHistory| == GROUP_HISTORY_SIZE
              && Views(senders)[k].LatestItem() == senders[k].LatestEpoch()
              && Views(senders)[k].GroupAt(epoch) == senders[k].GetGroup(epoch)
  {
    hide Apart, OliaInv, AreBytes, GroupOf;
  }

  // The latest epoch that some sender has seen.
  method GetLatestEpoch(senders: map<nat, Sender>) returns (latest: nat)
    requires Ready(senders)
    ensures IsLatest(Views(senders), latest)
  {
    hide Ready, Views, Sender.View;
    latest := 0;
    var rest := senders.Keys;
    HistoriesRead(senders, 0);
    while rest != {}
      invariant rest <= senders.Keys
      invariant forall k | k in senders && k !in rest :: senders[k].LatestEpoch() <= latest
      invariant latest == 0 || exists k :: k in senders && senders[k].LatestEpoch() == latest
      decreases rest
    {
      var k :| k in rest;
      rest := rest - {k};
      var epoch := senders[k].LatestEpoch();
      if epoch > latest {
        latest := epoch;
      }
    }
  }

  // Has no sender with epochs group 0 in this one?
  method AllHaveEpoch(senders: map<nat, Sender>, epoch: nat) returns (all: bool)
    requires Ready(senders)
    ensures all <==> NoneUncongested(Views(senders), epoch)
  {
    hide Ready, Views, Sender.View, Sender.GetGroup, Path.GroupAt, Path.LatestItem;
    HistoriesRead(senders, epoch);
    var rest := senders.Keys;
    while rest != {}
      invariant rest <= senders.Keys
      invariant forall k | k in senders && k !in rest ::
                  senders[k].LatestEpoch() > 0 ==> senders[k].GetGroup(epoch) != 0
      decreases rest
    {
      var k :| k in rest;
      rest := rest - {k};
      if senders[k].LatestEpoch() > 0 && senders[k].GetGroup(epoch) == 0 {
        return false;
      }
    }
    all := true;
  }

  // The latest of the last epochs in which every sender is congested.
  method GetEpoch(senders: map<nat, Sender>) returns (epoch: nat, ghost latest: nat)
    requires Ready(senders)
    ensures IsEpoch(Views(senders), latest, epoch)
    ensures epoch > 0 ==> NoneUncongested(Views(senders), epoch)
  {
    hide Ready, IsLatest, NoneUncongested;
    var latestEpoch := GetLatestEpoch(senders);
    latest := latestEpoch;
    if latestEpoch == 0 {
      return 0, latest;
    }
    var i := 0;
    while i < GROUP_HISTORY_SIZE && i < latestEpoch
      invariant 0 <= i <= GROUP_HISTORY_SIZE && i <= latestEpoch
      invariant forall e: nat | latest - i < e <= latest :: !NoneUncongested(Views(senders), e)
    {
      var all := AllHaveEpoch(senders, latestEpoch - i);
      if all {
        return latestEpoch - i, latest;
      }
      i := i + 1;
    }
    epoch := 0;
  }

  method GetMaxCwnd(senders: map<nat, Sender>, group: nat, epoch: nat) returns (best: nat)
    requires Ready(senders)
    ensures IsMaxCwnd(Selected(senders, group, epoch), best)
    ensures Selected(senders, group, epoch).Keys == {} ==> best == 0
  {
    hide Selected, Ready, Sender.CanBeSent;
    best := 0;
    ghost var flows := Selected(senders, group, epoch);
    var rest := senders.Keys;
    SelectedFew(senders, group, epoch, {});
    while rest != {}
      invariant rest <= senders.Keys
      invariant forall k | k in flows && k !in rest :: flows[k].cwnd <= best
      invariant (best == 0 && forall k | k in flows && k !in rest :: flows[k].cwnd == 0)
                || exists k :: k in flows && flows[k].cwnd == best
      decreases rest
    {
      var k :| k in rest;
      rest := rest - {k};
      var os := senders[k];
      SelectedAt(senders, group, epoch, k);
      if os.CanBeSent(group, epoch) {
        best := if os.congestionWindow > best then os.congestionWindow else best;
      }
    }
  }

  lemma SelectedAt(senders: map<nat, Sender>, group: nat, epoch: nat, k: nat)
    requires Ready(senders) && k in senders
    ensures var flows := Selected(senders, group, epoch);
            && OliaInv(senders[k].olia.View()) && (k in flows <==> senders[k].CanBeSent(group, epoch))
            && (k in flows ==> flows[k] == Flow(senders[k].congestionWindow,
                                                senders[k].olia.SmoothedBytesBetweenLosses(), senders[k].smoothedRTT))
  {
    hide AreBytes, GroupOf;
  }

  lemma SelectedFew(senders: map<nat, Sender>, group: nat, epoch: nat, part: set<nat>)
    requires Ready(senders) && part <= Selected(senders, group, epoch).Keys
    ensures Selected(senders, group, epoch).Keys <= senders.Keys && |part| <= 255
  {
    hide AreBytes, OliaInv, GroupOf;
    Monotone(part, senders.Keys);
    assert |senders.Keys| == |senders|;
  }

  // Incrementing a uint8.
  function Next(count: nat): (n: nat)
    ensures count < 255 ==> n == count + 1
  {
    (count + 1) % 256
  }

  ghost predicate BestIfMeasured(flows: Flows, met: set<nat>, bytes: nat, rttSquared: nat) {
    AllMeasured(flows) ==> IsBest(flows, met, bytes, rttSquared)
  }

  lemma MeetFlow(flows: Flows, met: set<nat>, bytes: nat, rttSquared: nat, k: nat)
    requires k in flows && k !in met && met <= flows.Keys && BestIfMeasured(flows, met, bytes, rttSquared)
    ensures if AsGood(flows[k].bytes, flows[k].RttSquared(), bytes, rttSquared)
            then BestIfMeasured(flows, met + {k}, flows[k].bytes, flows[k].RttSquared())
            else BestIfMeasured(flows, met + {k}, bytes, rttSquared)
    ensures |met + {k}| == |met| + 1
  {
    hide IsBest;
    if AllMeasured(flows) {
      BetterIsBest(flows, met, bytes, rttSquared, k);
    }
  }

  lemma NoneMet(flows: Flows)
    ensures BestIfMeasured(flows, {}, 0, 0)
  {
  }

  // The first loop of getEpsilon: how many senders couple, and the best of them.
  method FindBest(senders: map<nat, Sender>, group: nat, epoch: nat)
    returns (groupCnt: nat, bestBytes: nat, bestRTT: nat)
    requires Ready(senders)
    ensures var flows := Selected(senders, group, epoch);
            groupCnt == |flows.Keys| && BestIfMeasured(flows, flows.Keys, bestBytes, bestRTT)
  {
    hide BestIfMeasured, Selected, Ready, Next, AsGood, Sender.CanBeSent, Olia.SmoothedBytesBetweenLosses;
    groupCnt, bestBytes, bestRTT := 0, 0, 0;
    ghost var flows, met := Selected(senders, group, epoch), {};
    var rest := senders.Keys;
    NoneMet(flows);
    SelectedFew(senders, group, epoch, {});
    while rest != {}
      invariant rest <= senders.Keys && met <= flows.Keys && groupCnt == |met|
      invariant forall k | k in flows :: k in rest || k in met
      invariant forall k | k in met :: k !in rest
      invariant BestIfMeasured(flows, met, bestBytes, bestRTT)
      decreases rest
    {
      var k :| k in rest;
      rest := rest - {k};
      var os := senders[k];
      SelectedAt(senders, group, epoch, k);
      if os.CanBeSent(group, epoch) {
        MeetFlow(flows, met, bestBytes, bestRTT, k);
        met := met + {k};
        SelectedFew(senders, group, epoch, met);
        groupCnt := Next(groupCnt);
        var tmpRTT := os.smoothedRTT * os.smoothedRTT;
        var tmpBytes := os.olia.SmoothedBytesBetweenLosses();
        if AsGood(tmpBytes, tmpRTT, bestBytes, bestRTT) {
          bestRTT := tmpRTT;
          bestBytes := tmpBytes;
        }
      }
    }
    assert met == flows.Keys;
  }

  // The flows as good as the best one that was found, without those that have the largest window.
  ghost function Chosen(flows: Flows, max: nat, bytes: nat, rttSquared: nat): set<nat> {
    set k | k in flows && flows[k].cwnd < max && AsGood(flows[k].bytes, flows[k].RttSquared(), bytes, rttSquared)
  }

  lemma InSets(flows: Flows, max: nat, bytes: nat, rttSquared: nat, k: nat)
    requires IsMaxCwnd(flows, max)
    ensures k in flows ==>
              && (k in Largest(flows, max) <==> flows[k].cwnd == max)
              && (k in Chosen(flows, max, bytes, rttSquared) <==>
                    flows[k].cwnd != max && AsGood(flows[k].bytes, flows[k].RttSquared(), bytes, rttSquared))
  {
  }

  lemma SetsAmong(flows: Flows, max: nat, bytes: nat, rttSquared: nat)
    ensures Largest(flows, max) <= flows.Keys && Chosen(flows, max, bytes, rttSquared) <= flows.Keys
  {
  }

  // The second loop: the sizes of the two sets.
  method CountSets(senders: map<nat, Sender>, group: nat, epoch: nat, maxCwnd: nat, bestBytes: nat, bestRTT: nat)
    returns (m: nat, bNotM: nat)
    requires Ready(senders) && IsMaxCwnd(Selected(senders, group, epoch), maxCwnd)
    ensures var flows := Selected(senders, group, epoch);
            m == |Largest(flows, maxCwnd)| && bNotM == |Chosen(flows, maxCwnd, bestBytes, bestRTT)|
  {
    hide Selected, Ready, Next, AsGood, Largest, Chosen, IsMaxCwnd, Sender.CanBeSent, Olia.SmoothedBytesBetweenLosses;
    m, bNotM := 0, 0;
    ghost var flows := Selected(senders, group, epoch);
    ghost var top: set<nat>, plus: set<nat> := {}, {};
    ghost var allTop, allPlus := Largest(flows, maxCwnd), Chosen(flows, maxCwnd, bestBytes, bestRTT);
    var rest := senders.Keys;
    SelectedFew(senders, group, epoch, {});
    SetsAmong(flows, maxCwnd, bestBytes, bestRTT);
    while rest != {}
      invariant rest <= senders.Keys && m == |top| && bNotM == |plus|
      invariant top <= allTop && forall k | k in allTop :: k in top <==> k !in rest
      invariant plus <= allPlus && forall k | k in allPlus :: k in plus <==> k !in rest
      decreases rest
    {
      var k :| k in rest;
      rest := rest - {k};
      var os := senders[k];
      SelectedAt(senders, group, epoch, k);
      InSets(flows, maxCwnd, bestBytes, bestRTT, k);
      if os.CanBeSent(group, epoch) {
        if os.congestionWindow == maxCwnd {
          top := top + {k};
          SelectedFew(senders, group, epoch, top);
          m := Next(m);
        } else {
          var tmpRTT := os.smoothedRTT * os.smoothedRTT;
          var tmpBytes := os.olia.SmoothedBytesBetweenLosses();
          if AsGood(tmpBytes, tmpRTT, bestBytes, bestRTT) {
            plus := plus + {k};
            SelectedFew(senders, group, epoch, plus);
            bNotM := Next(bNotM);
          }
        }
      }
    }
    assert top == allTop && plus == allPlus;
  }

  ghost function Olias(senders: map<nat, Sender>): set<Olia> {
    set k | k in senders :: senders[k].olia
  }

  // The epsilon of one coupled flow, from the sizes that were counted.
  function EpsilonOf(isBest: bool, isLargest: bool, groupCnt: nat, m: nat, bNotM: nat): (int, nat) {
    if bNotM == 0 then (0, 1)
    else if !isLargest && isBest then (1, groupCnt * bNotM)
    else if isLargest then (-1, groupCnt * m)
    else (0, 1)
  }

  lemma EpsilonFits(flows: Flows, max: nat, bytes: nat, rttSquared: nat, k: nat)
    requires IsMaxCwnd(flows, max) && k in flows
    ensures EpsilonOf(AsGood(flows[k].bytes, flows[k].RttSquared(), bytes, rttSquared), flows[k].cwnd == max,
                      |flows.Keys|, |Largest(flows, max)|, |Chosen(flows, max, bytes, rttSquared)|)
            == EpsilonAt(flows, max, Chosen(flows, max, bytes, rttSquared), k)
  {
  }

  // The flows chosen are those that may grow, and the right ones if all RTTs have been measured.
  lemma ChosenGrow(flows: Flows, max: nat, bytes: nat, rttSquared: nat)
    requires IsMaxCwnd(flows, max) && BestIfMeasured(flows, flows.Keys, bytes, rttSquared)
    ensures Grows(flows, max, Chosen(flows, max, bytes, rttSquared))
  {
    hide IsBest, Leaders, AsGood;
    if AllMeasured(flows) {
      LeadersOfBest(flows, max, bytes, rttSquared, Chosen(flows, max, bytes, rttSquared));
    }
  }

  // What the third loop knows: the flows, and the sizes of the two sets.
  ghost predicate Measured(flows: Flows, groupCnt: nat, m: nat, bNotM: nat, maxCwnd: nat, bestBytes: nat,
                           bestRTT: nat) {
    && IsMaxCwnd(flows, maxCwnd) && groupCnt == |flows.Keys|
    && m == |Largest(flows, maxCwnd)| && bNotM == |Chosen(flows, maxCwnd, bestBytes, bestRTT)|
  }

  // One sender of the third loop.
  method SetOne(os: Sender, groupCnt: nat, m: nat, bNotM: nat, maxCwnd: nat, bestBytes: nat, bestRTT: nat,
                ghost flows: Flows, ghost k: nat, ghost plus: set<nat>)
    requires os.Fits() && k in flows && flows[k] == os.View().AsFlow()
             && plus == Chosen(flows, maxCwnd, bestBytes, bestRTT)
    requires Measured(flows, groupCnt, m, bNotM, maxCwnd, bestBytes, bestRTT) && MayGrow(flows, maxCwnd, plus)
    modifies os.olia`epsilonNum, os.olia`epsilonDen
    ensures os.Fits() && os.View() == old(os.View()).WithEpsilon(EpsilonAt(flows, maxCwnd, plus, k))
  {
    hide AsGood, EpsilonAt, Chosen, MayGrow, IsMaxCwnd, Largest, EpsilonOf, AreBytes;
    var tmpRTT := os.smoothedRTT * os.smoothedRTT;
    var tmpBytes := os.olia.SmoothedBytesBetweenLosses();
    var isBest := AsGood(tmpBytes, tmpRTT, bestBytes, bestRTT);
    var e := EpsilonOf(isBest, os.congestionWindow == maxCwnd, groupCnt, m, bNotM);
    EpsilonFits(flows, maxCwnd, bestBytes, bestRTT, k);
    EpsilonRange(flows, maxCwnd, plus, k);
    os.olia.SetEpsilon(e.0, e.1);
  }

  // The senders when some of those that couple are still to get their epsilon.
  ghost function Partly(before: Paths, flows: Flows, max: nat, plus: set<nat>, rest: set<nat>): Paths {
    map k | k in before ::
      if k in flows && k !in rest then before[k].WithEpsilon(EpsilonAt(flows, max, plus, k)) else before[k]
  }

  lemma PartlyNext(before: Paths, flows: Flows, max: nat, plus: set<nat>, rest: set<nat>, k: nat)
    requires k in rest && k in before
    ensures Partly(before, flows, max, plus, rest)[k] == before[k]
    ensures Partly(before, flows, max, plus, rest - {k})
              == if k in flows then
                   Partly(before, flows, max, plus, rest)[k := before[k].WithEpsilon(EpsilonAt(flows, max, plus, k))]
                 else Partly(before, flows, max, plus, rest)
  {
    hide EpsilonAt, Path.WithEpsilon;
  }

  lemma PartlyEnds(before: Paths, flows: Flows, max: nat, plus: set<nat>)
    ensures Partly(before, flows, max, plus, before.Keys) == before
    ensures Partly(before, flows, max, plus, {}) == WithEpsilons(before, flows, max, plus)
  {
    hide EpsilonAt, Path.WithEpsilon;
  }

  lemma PartlyFlows(before: Paths, flows: Flows, max: nat, plus: set<nat>, rest: set<nat>, group: nat, epoch: nat)
    requires flows == FlowsOf(before, group, epoch)
    ensures FlowsOf(Partly(before, flows, max, plus, rest), group, epoch) == flows
  {
    hide EpsilonAt, GroupOf;
  }

  // One turn of the third loop.
  method SetAt(senders: map<nat, Sender>, groupCnt: nat, m: nat, bNotM: nat, maxCwnd: nat, bestBytes: nat, bestRTT: nat,
               ghost flows: Flows, k: nat, ghost plus: set<nat>)
    requires Ready(senders) && k in senders && k in flows && flows[k] == senders[k].View().AsFlow()
    requires plus == Chosen(flows, maxCwnd, bestBytes, bestRTT)
    requires Measured(flows, groupCnt, m, bNotM, maxCwnd, bestBytes, bestRTT) && MayGrow(flows, maxCwnd, plus)
    modifies senders[k].olia`epsilonNum, senders[k].olia`epsilonDen
    ensures Ready(senders)
    ensures Views(senders)
            == old(Views(senders))[k := old(senders[k].View()).WithEpsilon(EpsilonAt(flows, maxCwnd, plus, k))]
  {
    hide Measured, EpsilonAt, Chosen, MayGrow, OliaInv, AreBytes, Path.WithEpsilon, Path.AsFlow;
    ghost var before := Views(senders);
    ViewsFit(senders);
    SetOne(senders[k], groupCnt, m, bNotM, maxCwnd, bestBytes, bestRTT, flows, k, plus);
    OneChanged(senders, before, k);
  }

  // The third loop: an epsilon for every sender that couples.
  method SetEpsilons(senders: map<nat, Sender>, group: nat, epoch: nat, groupCnt: nat, m: nat, bNotM: nat,
                     maxCwnd: nat, bestBytes: nat, bestRTT: nat, ghost flows: Flows, ghost plus: set<nat>)
    requires Ready(senders) && flows == Selected(senders, group, epoch)
             && plus == Chosen(flows, maxCwnd, bestBytes, bestRTT)
    requires Measured(flows, groupCnt, m, bNotM, maxCwnd, bestBytes, bestRTT) && MayGrow(flows, maxCwnd, plus)
    modifies Olias(senders)
    ensures Ready(senders) && Views(senders) == WithEpsilons(old(Views(senders)), flows, maxCwnd, plus)
  {
    hide Selected, Ready, Measured, EpsilonAt, Chosen, MayGrow, Partly, Views, WithEpsilons, Sender.CanBeSent,
         Path.WithEpsilon, Path.AsFlow;
    ghost var before := Views(senders);
    var rest := senders.Keys;
    ViewKeys(senders);
    PartlyEnds(before, flows, maxCwnd, plus);
    SelectedViews(senders, group, epoch);
    while rest != {}
      invariant rest <= senders.Keys && Ready(senders)
      invariant Views(senders) == Partly(before, flows, maxCwnd, plus, rest)
      decreases rest
    {
      var k :| k in rest;
      PartlyNext(before, flows, maxCwnd, plus, rest, k);
      PartlyFlows(before, flows, maxCwnd, plus, rest, group, epoch);
      SelectedViews(senders, group, epoch);
      CoupledAt(senders, group, epoch, flows, k);
      if senders[k].CanBeSent(group, epoch) {
        SetAt(senders, groupCnt, m, bNotM, maxCwnd, bestBytes, bestRTT, flows, k, plus);
      }
      rest := rest - {k};
    }
  }

  lemma ViewKeys(senders: map<nat, Sender>)
    ensures Views(senders).Keys == senders.Keys
  {
  }

  lemma SelectedViews(senders: map<nat, Sender>, group: nat, epoch: nat)
    ensures Selected(senders, group, epoch) == FlowsOf(Views(senders), group, epoch)
  {
  }

  lemma CoupledAt(senders: map<nat, Sender>, group: nat, epoch: nat, flows: Flows, k: nat)
    requires flows == Selected(senders, group, epoch) && k in senders
    ensures Views(senders).Keys == senders.Keys && Views(senders)[k] == senders[k].View()
    ensures senders[k].CanBeSent(group, epoch) <==> k in flows
    ensures k in flows ==> flows[k] == senders[k].View().AsFlow()
  {
    hide GroupOf, Path.AsFlow;
  }

  // Getting the epsilons: exactly the coupled senders get new ones, and those cancel out exactly.
  method GetEpsilon(senders: map<nat, Sender>, group: nat, epoch: nat)
    returns (ghost flows: Flows, ghost maxCwnd: nat, ghost plus: set<nat>)
    requires Ready(senders)
    modifies Olias(senders)
    ensures Ready(senders) && flows == old(Selected(senders, group, epoch)) && Grows(flows, maxCwnd, plus)
    ensures Views(senders) == WithEpsilons(old(Views(senders)), flows, maxCwnd, plus)
    ensures Sum(Epsilons(flows, maxCwnd, plus), flows.Keys) == 0.0
  {
    hide Selected, AsGood, EpsilonAt, IsMaxCwnd, Largest, Sum, Epsilons, Ready, Views, Chosen, BestIfMeasured, MayGrow,
         WithEpsilons, Leaders;
    flows := Selected(senders, group, epoch);
    SelectedFew(senders, group, epoch, {});
    var max := GetMaxCwnd(senders, group, epoch);
    maxCwnd := max;
    var groupCnt, bestBytes, bestRTT := FindBest(senders, group, epoch);
    var m, bNotM := CountSets(senders, group, epoch, max, bestBytes, bestRTT);
    plus := Chosen(flows, max, bestBytes, bestRTT);
    ChosenGrow(flows, max, bestBytes, bestRTT);
    SetEpsilons(senders, group, epoch, groupCnt, m, bNotM, max, bestBytes, bestRTT, flows, plus);
    EpsilonsCancel(flows, max, plus);
  }

  // The square of one more than the sum of the rates, in any order.
  method GetRate(senders: map<nat, Sender>, pathRTT: nat, group: nat, epoch: nat) returns (rate: nat)
    requires Ready(senders)
    ensures IsRate(Selected(senders, group, epoch), pathRTT, rate)
  {
    hide Selected, Ready, Sender.CanBeSent, IsPartRate, RateOf;
    rate := 1;
    ghost var flows := Selected(senders, group, epoch);
    var rest := senders.Keys;
    ghost var met: set<nat> := {};
    SelectedFew(senders, group, epoch, {});
    NoRate(flows, pathRTT);
    while rest != {}
      invariant rest <= senders.Keys && IsPartRate(flows, pathRTT, met, rate)
      invariant met <= flows.Keys && forall k | k in flows :: k in rest || k in met
      invariant forall k | k in met :: k !in rest
      decreases rest
    {
      var k :| k in rest;
      rest := rest - {k};
      var os := senders[k];
      SelectedAt(senders, group, epoch, k);
      if os.CanBeSent(group, epoch) {
        AddRate(flows, pathRTT, met, rate, k);
        met := met + {k};
        rate := rate + RateOf(os.congestionWindow, os.smoothedRTT, pathRTT);
      }
    }
    assert met == flows.Keys;
    rate := rate * rate;
  }

  // New epsilons, and then the rate.
  method Couple(senders: map<nat, Sender>, pathRTT: nat, group: nat, epoch: nat)
    returns (rate: nat, ghost flows: Flows, ghost maxCwnd: nat, ghost plus: set<nat>)
    requires Ready(senders)
    modifies Olias(senders)
    ensures Ready(senders) && flows == old(Selected(senders, group, epoch)) && Grows(flows, maxCwnd, plus)
    ensures Views(senders) == WithEpsilons(old(Views(senders)), flows, maxCwnd, plus) && IsRate(flows, pathRTT, rate)
  {
    hide Views, Ready, IsRate, Selected, WithEpsilons, Grows, FlowsOf, Sum;
    ghost var before := Views(senders);
    SelectedViews(senders, group, epoch);
    flows, maxCwnd, plus := GetEpsilon(senders, group, epoch);
    EpsilonsKeepFlows(before, flows, maxCwnd, plus, group, epoch);
    SelectedViews(senders, group, epoch);
    rate := GetRate(senders, pathRTT, group, epoch);
  }
}
