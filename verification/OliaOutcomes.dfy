/**
 What the events of OliaPaths do, said without the functions that they are made of: to windows, to the history of
 groups, and to the counters of acknowledged bytes over a run.
 */
module OliaOutcomes {
  import opened MinMax
  import opened Olia
  import opened NewReno
  import opened OliaPaths

  // ---- windows ----

  // One ack of a coupled step: the amount is counted, and 1023 of it make up a packet.
  lemma SteppedOutcome(p: Path, rate: nat, inc: int)
    requires IsAmount(inc, p.olia.epsilonNum, p.olia.epsilonDen, p.reno.window, rate)
    requires 1 <= p.reno.window < p.reno.maxWindow
    ensures var sum, window := p.olia.sndCwndCnt + inc, p.reno.window;
            Stepped(p, rate) ==
            p.(olia := p.olia.(sndCwndCnt := if -1023 < sum < 1023 then sum else 0))
             .WithWindow(if sum >= 1023 then window + 1
                         else if sum <= -1023 && window > 1 then window - 1
                         else window)
  {
    hide IsAmount, WindowAfterAck, CountAfterAck;
    CountOutcome(p.olia, p.reno.window, rate, inc);
  }

  // An ack outside of recovery counts its bytes. The window is left alone while it is not used, and below its
  // maximum only; in slow start it grows by one packet, and then it takes part in a coupled step.
  lemma AckedOutcome(paths: Paths, k: nat, number: nat, ackedBytes: nat, bytesInFlight: nat, c: Coupling, paths': Paths)
    requires k in paths && PathInv(paths[k], 1) && number in paths[k].reno.sent
    requires AckedStep(paths, k, number, ackedBytes, bytesInFlight, c, paths')
    ensures var reno := paths[k].reno;
            var acked := paths[k].(reno := reno.(largestAcked := Max(reno.largestAcked, number)));
            var counted := acked.(olia := acked.olia.(loss3 := acked.olia.loss3 + ackedBytes));
            if number !in reno.sinceCutback && reno.largestAcked <= reno.largestSentAtLastCutback then
              paths' == paths[k := acked]
            else if bytesInFlight + 3 * 1460 < reno.window * 1460
                    && (reno.window >= reno.threshold || 2 * bytesInFlight <= reno.window * 1460) then
              paths' == paths[k := counted]
            else if reno.window >= reno.maxWindow then paths' == paths[k := counted]
            else if reno.window < reno.threshold then paths' == paths[k := counted.WithWindow(reno.window + 1)]
            else IsCoupling(paths[k := counted], k, c) && paths' == AfterCoupling(paths[k := counted], k, c)
  {
    hide IsCoupling, AfterCoupling, IsWindowLimited, InSlowStart, OliaInv, AreBytes;
    var reno := paths[k].reno;
    WindowLimited(reno.window, reno.threshold, bytesInFlight);
    SlowStartIs(reno.window, reno.threshold);
    var counted := AfterCount(paths[k], number, ackedBytes);
    var grown := counted.WithWindow(reno.window + 1);
    assert paths[k := counted][k := grown] == paths[k := grown];
  }

  // A cutback leaves the share of the window that belongs to the emulated connections, or the minimum, and begins a
  // new interval between losses.
  lemma CutbackOutcome(p: Path, number: nat, bytes: nat)
    requires p.numConnections > 0 && number > p.reno.largestSentAtLastCutback
    ensures var p' := AfterPathLost(p, number, bytes);
            && (if p.reno.slowStartLargeReduction && p.reno.window < p.reno.threshold then
                  p'.reno.window == (if p.reno.window > 3 then p.reno.window - 1 else 2)
                else LeavesShare(p.reno.window, p.numConnections, p'.reno.window))
            && p'.reno.threshold == p'.reno.window && p'.reno.largestSentAtLastCutback == p.reno.largestSent
            && p'.olia == p.olia.(loss1 := p.olia.loss2, loss2 := p.olia.loss3)
  {
    hide Reduced, CutBack, LeavesShare;
    CutbackShare(p.reno, p.numConnections);
  }

  // After a timeout with something to send again, and after a migration, nothing is left of what was learned about
  // losses: epsilon is 0, so that no ack takes anything away, and no bytes count for the coupling.
  lemma RestartForgets(p: Path, rate: nat)
    requires p.reno.window <= p.reno.maxWindow && MIN_CONGESTION_WINDOW <= p.reno.maxWindow
    requires MIN_CONGESTION_WINDOW <= p.initialWindow <= p.initialMax
    ensures AfterPathTimeout(p, true).AsFlow().bytes == AfterPathMigration(p).AsFlow().bytes == 0
    ensures AfterPathTimeout(p, true).reno.window == 2 && AfterPathMigration(p).reno.window == p.initialWindow
    ensures Stepped(AfterPathTimeout(p, true), rate).reno.window >= 2
    ensures Stepped(AfterPathMigration(p), rate).reno.window >= p.initialWindow
    ensures AfterPathTimeout(p, false).olia == p.olia && AfterPathTimeout(p, false).reno.window == p.reno.window
  {
    hide WindowAfterAck, CountAfterAck;
    OnlyMinusOne(AfterPathTimeout(p, true), rate);
    OnlyMinusOne(AfterPathMigration(p), rate);
  }

  // The flows that a sender couples with: those without congestion, and those of its group; if its own history has
  // lost the epoch, its group stands for 255.
  lemma CouplesWith(paths: Paths, k: nat, epoch: nat, j: nat)
    requires k in paths && j in paths && AreBytes(paths[k].history) && AreBytes(paths[j].history)
    ensures j in FlowsFor(paths, k, epoch) <==>
              || GroupOf(paths[j].history, epoch) == 0
              || GroupOf(paths[j].history, epoch) == (if GroupOf(paths[k].history, epoch) == -1 then 255
                                                      else GroupOf(paths[k].history, epoch))
  {
    hide GroupOf;
    GroupRange(paths[k].history, epoch);
    GroupRange(paths[j].history, epoch);
  }

  // ---- the history of groups ----

  // A new epoch takes the place of one old item: its group can be looked up, and all others that were.
  lemma GroupStored(p: Path, group: nat, epoch: nat)
    requires p.historyNext < |p.history| == GROUP_HISTORY_SIZE && p.GroupAt(epoch) == -1
    ensures var p' := p.WithGroup(group, epoch);
            && p'.GroupAt(epoch) == group && p'.LatestItem() == epoch
            && (forall e | e != epoch && e != p.history[p.historyNext].epoch :: p'.GroupAt(e) == p.GroupAt(e))
            && p'.historyNext == (if p.historyNext == 19 then 0 else p.historyNext + 1)
  {
    hide GroupOf;
    LookedUp(p.history, epoch);
    ReplacedAt(p.history, p.historyNext, GroupItem(group, epoch));
  }

  // An epoch that is known keeps the group that it was given first.
  lemma GroupKept(p: Path, group: nat, epoch: nat)
    requires p.GroupAt(epoch) != -1
    ensures p.WithGroup(group, epoch) == p
  {
    hide GroupOf;
    LookedUp(p.history, epoch);
  }

  lemma {:induction false} LookedUp(history: seq<GroupItem>, epoch: nat)
    ensures GroupOf(history, epoch) == -1 <==> forall i | 0 <= i < |history| :: history[i].epoch != epoch
  {
    if history != [] {
      LookedUp(history[1..], epoch);
      assert forall i | 0 < i < |history| :: history[i] == history[1..][i - 1];
      assert forall i | 0 <= i < |history| - 1 :: history[1..][i] == history[i + 1];
    }
  }

  lemma {:induction false} ReplacedAt(history: seq<GroupItem>, i: nat, item: GroupItem)
    requires i < |history| && GroupOf(history, item.epoch) == -1
    ensures GroupOf(history[i := item], item.epoch) == item.group
    ensures forall e | e != item.epoch && e != history[i].epoch :: GroupOf(history[i := item], e) == GroupOf(history, e)
  {
    if i == 0 {
      assert history[i := item][1..] == history[1..];
    } else {
      assert history[i := item][1..] == history[1..][i - 1 := item];
      ReplacedAt(history[1..], i - 1, item);
    }
  }

  // ---- bytes between losses ----

  // The bytes that an event acknowledges on a path, outside of recovery.
  ghost function Counted(paths: Paths, e: Event, k: nat): nat {
    if e.Acked? && e.path == k && k in paths
       && !InRecovery(AfterAcked(paths[k].reno, e.number).largestAcked, paths[k].reno.largestSentAtLastCutback)
    then e.ackedBytes else 0
  }

  ghost function CountedBetween(run: seq<Paths>, events: seq<Event>, k: nat, i: nat, j: nat): nat
    requires i <= j <= |events| && |run| == |events| + 1
  {
    if i == j then 0 else CountedBetween(run, events, k, i, j - 1) + Counted(run[j - 1], events[j - 1], k)
  }

  ghost predicate CutsBack(paths: Paths, e: Event, k: nat) {
    e.Lost? && e.path == k && k in paths && IsCutback(paths[k].reno, e.number)
  }

  // Nothing but acks moves the counters of a path until the next cutback, timeout or migration.
  lemma StepCounts(paths: Paths, e: Event, paths': Paths, k: nat)
    requires k in paths && Step(paths, e, paths') && !CutsBack(paths, e, k) && !Forgets(e, k)
    ensures k in paths' && paths'[k].olia.loss1 == paths[k].olia.loss1 && paths'[k].olia.loss2 == paths[k].olia.loss2
    ensures paths'[k].olia.loss3 == paths[k].olia.loss3 + Counted(paths, e, k)
  {
    hide IsCoupling, EpsilonAt, CountAfterAck, WindowAfterAck, IsWindowLimited, InSlowStart, FlowsFor, Reduced;
  }

  lemma {:induction false} BytesSince(run: seq<Paths>, events: seq<Event>, k: nat, i: nat, j: nat)
    requires IsRun(run, events) && i <= j <= |events| && k in run[i]
    requires forall m | i <= m < j :: !CutsBack(run[m], events[m], k) && !Forgets(events[m], k)
    ensures k in run[j] && run[j][k].olia.loss1 == run[i][k].olia.loss1 && run[j][k].olia.loss2 == run[i][k].olia.loss2
    ensures run[j][k].olia.loss3 == run[i][k].olia.loss3 + CountedBetween(run, events, k, i, j)
  {
    hide Step, Counted;
    if i < j {
      BytesSince(run, events, k, i, j - 1);
      StepCounts(run[j - 1], events[j - 1], run[j], k);
    }
  }

  lemma CutbackCounts(paths: Paths, e: Event, paths': Paths, k: nat)
    requires k in paths && Step(paths, e, paths') && CutsBack(paths, e, k)
    ensures k in paths' && paths'[k].olia.loss1 == paths[k].olia.loss2
    ensures paths'[k].olia.loss2 == paths'[k].olia.loss3 == paths[k].olia.loss3
  {
    hide Reduced, AfterLost;
  }

  lemma BetweenCutbacks(run: seq<Paths>, events: seq<Event>, k: nat, i: nat, j: nat)
    requires IsRun(run, events) && i < j < |events| && k in run[i]
    requires CutsBack(run[i], events[i], k) && CutsBack(run[j], events[j], k)
    requires forall m | i < m < j :: !CutsBack(run[m], events[m], k) && !Forgets(events[m], k)
    ensures k in run[j + 1]
    ensures var o := run[j + 1][k].olia;
            o.loss2 - o.loss1 == CountedBetween(run, events, k, i + 1, j) && o.loss3 == o.loss2
  {
    hide Step, CutsBack, Forgets, CountedBetween;
    assert Step(run[i], events[i], run[i + 1]) && Step(run[j], events[j], run[j + 1]);
    CutbackCounts(run[i], events[i], run[i + 1], k);
    BytesSince(run, events, k, i + 1, j);
    CutbackCounts(run[j], events[j], run[j + 1], k);
  }

  // What the coupling compares by is the larger of two sums: the bytes acknowledged between the last two cutbacks,
  // and those acknowledged since.
  lemma SmoothedIsLarger(run: seq<Paths>, events: seq<Event>, k: nat, i: nat, j: nat, n: nat)
    requires IsRun(run, events) && i < j < n <= |events| && k in run[i]
    requires CutsBack(run[i], events[i], k) && CutsBack(run[j], events[j], k)
    requires forall m | i < m < n && m != j :: !CutsBack(run[m], events[m], k)
    requires forall m | i < m < n :: !Forgets(events[m], k)
    ensures k in run[n]
    ensures var between := CountedBetween(run, events, k, i + 1, j);
            var since := CountedBetween(run, events, k, j + 1, n);
            run[n][k].AsFlow().bytes == Max(between, since)
  {
    hide Step, CutsBack, Forgets, CountedBetween;
    BetweenCutbacks(run, events, k, i, j);
    BytesSince(run, events, k, j + 1, n);
    LargerOf(run[n][k], CountedBetween(run, events, k, i + 1, j), CountedBetween(run, events, k, j + 1, n));
  }

  lemma LargerOf(p: Path, between: nat, since: nat)
    requires p.olia.loss2 - p.olia.loss1 == between && p.olia.loss3 - p.olia.loss2 == since
    ensures p.AsFlow().bytes == Max(between, since)
  {
  }
}
