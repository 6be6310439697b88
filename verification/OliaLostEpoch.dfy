/**
 Two senders of congestion/olia_sender.go whose calls leave one of them with a window of a single packet: it has
 seen more epochs than its ring of groups holds, while the other one still has epoch 0.
 */
module OliaLostEpoch {
  import opened Modulo
  import opened Olia
  import opened NewReno
  import opened OliaPaths
  import opened OliaSender

  const FULL: nat := 2 * DEFAULT_TCP_MSS

  lemma {:induction false} GroupFound(history: seq<GroupItem>, epoch: nat, i: nat)
    requires i < |history| && history[i].epoch == epoch && forall j | 0 <= j < i :: history[j].epoch != epoch
    ensures GroupOf(history, epoch) == history[i].group
  {
    if i > 0 {
      assert forall j | 0 <= j < |history| - 1 :: history[1..][j] == history[j + 1];
      GroupFound(history[1..], epoch, i - 1);
    }
  }

  // The ring after the epochs 1 to n, all without congestion.
  function Ring(n: nat): seq<GroupItem> {
    seq(GROUP_HISTORY_SIZE, i requires 0 <= i => GroupItem(0, if i < n then i + 1 else 0))
  }

  lemma RingGroups(n: nat, epoch: nat)
    requires n <= GROUP_HISTORY_SIZE
    ensures GroupOf(Ring(n), epoch) == if 0 < epoch <= n || (epoch == 0 && n < GROUP_HISTORY_SIZE) then 0 else -1
  {
    if 0 < epoch <= n {
      GroupFound(Ring(n), epoch, epoch - 1);
    } else if epoch == 0 && n < GROUP_HISTORY_SIZE {
      GroupFound(Ring(n), epoch, n);
    } else {
      GroupRange(Ring(n), epoch);
    }
  }

  lemma RingNext(p: Path, n: nat)
    requires p.history == Ring(n) && p.historyNext == n < GROUP_HISTORY_SIZE
    ensures p.WithGroup(0, n + 1) == p.(history := Ring(n + 1), historyNext := (n + 1) % GROUP_HISTORY_SIZE)
  {
    assert Ring(n)[n := GroupItem(0, n + 1)] == Ring(n + 1);
  }

  // With such a ring in the map, no epoch but 0 is looked at.
  lemma EpochZero(paths: Paths, n: nat, latest: nat, epoch: nat)
    requires 0 in paths && paths[0].history == Ring(n) && paths[0].historyNext == n % GROUP_HISTORY_SIZE
             && 0 < n <= GROUP_HISTORY_SIZE
    requires (forall k | k in paths && k != 0 :: paths[k].LatestItem() <= n) && IsEpoch(paths, latest, epoch)
    ensures epoch == 0
  {
    assert paths[0].LatestItem() == n;
    if epoch > 0 {
      RingGroups(n, epoch);
    }
  }

  // The first sender, in slow start, and the second one after a timeout.
  function First(): Path {
    NewPath(4, 100).(rtt := 10, history := Ring(19), historyNext := 19, reno := AfterSent(Initial(4, 100), 1))
  }

  function Second(): Path {
    NewPath(2, 100).(rtt := 1, reno := AfterTimeout(AfterSent(Initial(2, 100), 1), true))
  }

  // What is known of the second sender.
  predicate IsSecond(p: Path, latest: nat) {
    && 2 <= p.reno.window <= 3 && p.rtt == 1 && p.GroupAt(0) == 0 && p.LatestItem() <= latest
  }

  // The second sender with its first ack counted.
  predicate IsAcked(p: Path) {
    && p.reno.window == 2 && p.reno.maxWindow == 100 && p.rtt == 1 && p.olia == NewOlia(0).(loss3 := 1000)
    && p.history == Second().history && p.historyNext == 0 && p.numConnections == 2
  }

  // Its ack gives the first sender, which has the larger window, the epsilon -1/2.
  lemma FirstStep(paths: Paths, c: Coupling, paths': Paths)
    requires paths == map[0 := First(), 1 := Second()] && AckedStep(paths, 1, 1, 1000, FULL, c, paths')
    ensures paths'.Keys == {0, 1} && paths'[0] == First().WithEpsilon((-1, 2)) && IsSecond(paths'[1], 0)
    ensures paths'[1].historyNext == 0 && paths'[1].history == Second().history
  {
    hide First, AfterCount, IsCoupling, AfterCoupling, IsWindowLimited, InSlowStart, InRecovery, Second;
    SecondCoupled();
    FirstCoupling(paths[1 := AfterCount(Second(), 1, 1000)], c);
  }

  lemma SecondCoupled()
    ensures var p := AfterCount(Second(), 1, 1000); IsCoupled(p, FULL) && IsAcked(p)
  {
  }

  lemma FirstCoupling(paths: Paths, c: Coupling)
    requires paths.Keys == {0, 1} && paths[0] == First() && IsAcked(paths[1]) && IsCoupling(paths, 1, c)
    ensures var after := AfterCoupling(paths, 1, c);
            && after[0] == First().WithEpsilon((-1, 2)) && IsSecond(after[1], 0)
            && after[1].historyNext == 0 && after[1].history == Second().history
  {
    hide IsEpoch, IsRate, WindowAfterAck, CountAfterAck, Ring, GroupOf, EpsilonAt;
    NewHistory();
    FirstHistory();
    EpochZero(paths, 19, c.latest, c.epoch);
    var flows := FlowsFor(paths, 1, 0);
    assert flows == map[0 := Flow(4, 0, 10), 1 := Flow(2, 1000, 1)];
    FirstEpsilons(flows, c.max, c.plus);
    OnlyMinusOne(paths[1].WithEpsilon((1, 2)), c.rate);
  }

  lemma NewHistory()
    ensures GroupOf(Second().history, 0) == 0 && Second().LatestItem() == 0
  {
  }

  lemma FirstHistory()
    ensures GroupOf(First().history, 0) == 0 && First().LatestItem() == 19
  {
    RingGroups(19, 0);
  }

  lemma FirstEpsilons(flows: Flows, max: nat, plus: set<nat>)
    requires flows == map[0 := Flow(4, 0, 10), 1 := Flow(2, 1000, 1)] && Grows(flows, max, plus)
    ensures max == 4 && EpsilonAt(flows, max, plus, 0) == (-1, 2) && EpsilonAt(flows, max, plus, 1) == (1, 2)
  {
    assert flows[0].cwnd == 4;
    assert Leaders(flows, 4) == {1} && Largest(flows, 4) == {0};
    assert flows.Keys == {0, 1};
  }

  // The first sender after two cutbacks and one more epoch, and some acks.
  predicate IsShrinking(p: Path, acks: nat) {
    && p.reno.window == p.reno.threshold == 2 && p.reno.maxWindow == 100 && p.reno.largestSentAtLastCutback == 2
    && p.rtt == 10 && p.history == Ring(GROUP_HISTORY_SIZE) && p.historyNext == 0
    && p.olia.epsilonNum == -1 && p.olia.epsilonDen == 2 && -255 * acks <= p.olia.sndCwndCnt <= -250 * acks
  }

  // Each ack of the first sender takes about a quarter of a packet away, as the second one has epoch 0.
  lemma ShrinkStep(paths: Paths, number: nat, c: Coupling, paths': Paths, acks: nat)
    requires paths.Keys == {0, 1} && IsShrinking(paths[0], acks) && IsSecond(paths[1], 20) && acks < 5 && number > 2
    requires AckedStep(paths, 0, number, 1000, FULL, c, paths')
    ensures paths'.Keys == {0, 1} && IsSecond(paths'[1], 20) && paths'[0].reno.largestSent == paths[0].reno.largestSent
    ensures if acks < 4 then IsShrinking(paths'[0], acks + 1) else paths'[0].reno.window == 1
  {
    hide IsEpoch, IsRate, Increase, Ring, GroupOf, EpsilonAt, Decrease;
    var p := AfterCount(paths[0], number, 1000);
    var counted := paths[0 := p];
    RingGroups(20, 0);
    assert !StaysAsItIs(p, FULL) && !InSlowStart(p.reno.window, p.reno.threshold);
    EpochZero(counted, 20, c.latest, c.epoch);
    var flows := FlowsFor(counted, 0, 0);
    assert flows.Keys == {1} && flows[1].cwnd == paths[1].reno.window && flows[1].rtt == 1;
    OneFlow(flows, c.rate);
    IncreaseSign(p.olia, 2, c.rate);
    DecreaseBounds(c.rate);
  }

  // The rate with the second sender alone.
  lemma OneFlow(flows: Flows, rate: nat)
    requires flows.Keys == {1} && 2 <= flows[1].cwnd <= 3 && flows[1].rtt == 1 && IsRate(flows, 10, rate)
    ensures rate >= 20_481 * 20_481
  {
    var root: nat :| IsPartRate(flows, 10, flows.Keys, root) && rate == root * root;
    SumTake(Rates(flows, 10), {1}, 1);
    SumNothing(Rates(flows, 10));
    assert {1} - {1} == {};
    assert root >= 20_481;
    assert root * root >= 20_481 * root;
  }

  lemma DecreaseBounds(rate: nat)
    requires rate >= 20_481 * 20_481
    ensures Weight(2, 2) < rate && 250 <= Decrease(2, 2, rate) <= 255
  {
    assert Weight(2, 2) == 8_388_608 && Divisor(2, 2, rate) == 4 * rate;
    Between(SCALE * (rate - 8_388_608), 4 * rate, 250, 256);
  }

  // The cutbacks of the first sender, and the epoch that pushes epoch 0 out of its ring.
  function Cut(): Path {
    AfterOwn(AfterOwn(AfterOwn(First().WithEpsilon((-1, 2)), Lost(0, 1, 1000)), Sent(0, 2, true)), Lost(0, 2, 1000))
  }

  lemma CutFacts()
    ensures IsShrinking(AfterOwn(Cut(), GroupUpdated(0, 0, 20)), 0)
    ensures AfterOwn(Cut(), GroupUpdated(0, 0, 20)).reno.largestSent == 2
    ensures PathFits(Cut()) && Cut().reno.window == 2
  {
    hide Ring;
    RingNext(Cut(), 19);
    RingBytes();
  }

  lemma RingBytes()
    ensures AreBytes(Ring(19)) && |Ring(19)| == GROUP_HISTORY_SIZE
  {
  }

  lemma SecondEpoch(p: Path)
    requires IsSecond(p, 0) && p.numConnections > 0 && p.historyNext == 0 && p.history == Second().history
    ensures IsSecond(AfterOwn(p, GroupUpdated(0, 0, 20)), 20)
  {
    var history := p.WithGroup(0, 20).history;
    assert history[0] == GroupItem(0, 20) && history[1] == GroupItem(0, 0);
    GroupFound(history, 0, 1);
  }

  lemma SentStays(p: Path, number: nat, acks: nat)
    requires IsShrinking(p, acks) && p.numConnections > 0
    ensures IsShrinking(AfterOwn(p, Sent(0, number, true)), acks)
    ensures AfterOwn(p, Sent(0, number, true)).reno.largestSent == number
    ensures PathFits(AfterOwn(p, Sent(0, number, true))) <==> PathFits(p)
  {
  }

  method FiveAcks(a: Sender, b: Sender, senders: map<nat, Sender>)
    requires senders == map[0 := a, 1 := b] && a != b && a.olia != b.olia && Ready(senders)
    requires IsShrinking(a.View(), 0) && IsSecond(b.View(), 20) && a.largestSentPacketNumber == 2
    modifies a, a.olia, b.olia
    ensures a.congestionWindow == 1
  {
    hide IsShrinking, IsSecond, Ready, Sender.View;
    var acks: nat := 0;
    while acks < 5
      invariant acks <= 5 && Ready(senders) && IsSecond(b.View(), 20) && a.largestSentPacketNumber == 2 + acks
      invariant if acks < 5 then IsShrinking(a.View(), acks) else a.congestionWindow == 1
    {
      SendAndAck(a, b, senders, acks);
      acks := acks + 1;
    }
  }

  method CutTwice(a: Sender)
    requires a.View() == First().WithEpsilon((-1, 2))
    modifies a, a.olia
    ensures a.View() == AfterOwn(Cut(), GroupUpdated(0, 0, 20)) && a.Fits()
    ensures IsShrinking(a.View(), 0) && a.largestSentPacketNumber == 2 && a.numConnections > 0
  {
    CutFacts();
    a.OnPacketLost(1, 1000);
    var _ := a.OnPacketSent(2, true);
    a.OnPacketLost(2, 1000);
    a.UpdateGroupEpoch(0, 20);
  }

  method LastEpoch(b: Sender)
    requires b.Fits() && IsSecond(b.View(), 0) && b.View().historyNext == 0 && b.View().history == Second().history
    modifies b, b.olia
    ensures b.Fits() && IsSecond(b.View(), 20)
  {
    SecondEpoch(b.View());
    b.UpdateGroupEpoch(0, 20);
  }

  method SendAndAck(a: Sender, b: Sender, senders: map<nat, Sender>, acks: nat)
    requires senders == map[0 := a, 1 := b] && a != b && a.olia != b.olia && Ready(senders) && acks < 5
    requires IsShrinking(a.View(), acks) && IsSecond(b.View(), 20) && a.largestSentPacketNumber == 2 + acks
    modifies a, a.olia, b.olia
    ensures Ready(senders) && IsSecond(b.View(), 20) && a.largestSentPacketNumber == 3 + acks
    ensures if acks < 4 then IsShrinking(a.View(), acks + 1) else a.congestionWindow == 1
  {
    hide IsShrinking, IsSecond, AckedStep, PathFits, AfterOwn, Ready, Views, Sender.View, Sender.Fits;
    TwoParts(a, b, senders);
    FitsRead(a);
    SentStays(a.View(), 3 + acks, acks);
    var _ := a.OnPacketSent(3 + acks, true);
    FitsRead(a);
    TwoReady(a, b, senders);
    ghost var before := Views(senders);
    ghost var c := a.OnPacketAcked(3 + acks, 1000, FULL, senders, 0);
    TwoParts(a, b, senders);
    ShrinkStep(before, 3 + acks, c, Views(senders), acks);
    FitsRead(a);
  }

  lemma TwoParts(a: Sender, b: Sender, senders: map<nat, Sender>)
    requires senders == map[0 := a, 1 := b] && a != b && Ready(senders)
    ensures Views(senders) == map[0 := a.View(), 1 := b.View()]
    ensures a.Fits() && b.Fits() && a.olia != b.olia
  {
    hide PathFits, Sender.Fits;
    assert 0 in senders && 1 in senders && senders[0] == a && senders[1] == b;
  }

  method NewFirst() returns (a: Sender)
    ensures fresh(a) && fresh(a.olia) && a.View() == First() && a.Fits()
  {
    hide Ring;
    a := new Sender(4, 100);
    a.smoothedRTT := 10;
    RingStarts();
    var e: nat := 0;
    while e < 19
      invariant e <= 19 && a.Fits() && a.View() == NewPath(4, 100).(rtt := 10, history := Ring(e), historyNext := e)
    {
      RingNext(a.View(), e);
      e := e + 1;
      a.UpdateGroupEpoch(0, e);
    }
    var _ := a.OnPacketSent(1, true);
  }

  lemma RingStarts()
    ensures Ring(0) == NewPath(4, 100).history
  {
  }

  method NewSecond() returns (b: Sender)
    ensures fresh(b) && fresh(b.olia) && b.View() == Second() && b.Fits()
  {
    b := new Sender(2, 100);
    b.smoothedRTT := 1;
    var _ := b.OnPacketSent(1, true);
    b.OnRetransmissionTimeout(true);
  }

  lemma FitsRead(os: Sender)
    ensures os.Fits() <==> PathFits(os.View())
    ensures os.View().reno.largestSent == os.largestSentPacketNumber && os.View().reno.window == os.congestionWindow
    ensures os.View().numConnections == os.numConnections && (os.Fits() ==> os.numConnections > 0)
  {
  }

  lemma TwoReady(a: Sender, b: Sender, senders: map<nat, Sender>)
    requires a != b && a.olia != b.olia && a.Fits() && b.Fits() && senders == map[0 := a, 1 := b]
    ensures Ready(senders) && Views(senders) == map[0 := a.View(), 1 := b.View()]
  {
    hide PathFits, Sender.View, Sender.Fits;
    assert senders.Keys == {0, 1} && |senders| == |senders.Keys|;
  }

  // The first sender sees 19 epochs before the second one starts; its epsilon is set by an ack of the second one.
  // Two cutbacks and one epoch later, five acks leave it with a window of one packet.
  method BelowMinimum() returns (window: nat)
    ensures window == 1
  {
    hide First, Second, AfterOwn, AckedStep, IsShrinking, Ready, Sender.Fits, Sender.View;
    var a := NewFirst();
    var b := NewSecond();
    var senders := map[0 := a, 1 := b];
    TwoReady(a, b, senders);
    ghost var before := Views(senders);
    ghost var c := b.OnPacketAcked(1, 1000, FULL, senders, 1);
    FirstStep(before, c, Views(senders));
    TwoParts(a, b, senders);
    CutTwice(a);
    LastEpoch(b);
    TwoReady(a, b, senders);
    FiveAcks(a, b, senders);
    window := a.congestionWindow;
  }
}
