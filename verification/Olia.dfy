/**
 congestion/olia.go and olia_sender.go: the coupled increase of the windows of several paths. The map of
 senders is read in any order; every loop takes its elements as they come.
 */
module Olia {
  import opened Modulo

  // Does the first have as many bytes per squared RTT as the second?
  predicate AsGood(bytes: nat, rttSquared: nat, bytes': nat, rttSquared': nat) {
    bytes * rttSquared' >= bytes' * rttSquared
  }

  // What the coupling looks at: window in packets, bytes between losses, smoothed RTT.
  datatype Flow = Flow(cwnd: nat, bytes: nat, rtt: nat)
  {
    function RttSquared(): nat {
      rtt * rtt
    }

    // At least as many bytes per squared RTT as the other.
    predicate AsGoodAs(other: Flow) {
      AsGood(bytes, RttSquared(), other.bytes, other.RttSquared())
    }
  }

  type Flows = map<nat, Flow>

  ghost predicate IsMaxCwnd(flows: Flows, max: nat) {
    && (forall k | k in flows :: flows[k].cwnd <= max)
    && (flows.Keys != {} ==> exists k :: k in flows && flows[k].cwnd == max)
  }

  ghost function Largest(flows: Flows, max: nat): set<nat> {
    set k | k in flows && flows[k].cwnd == max
  }

  // The flows that beat all others in bytes per squared RTT, but have not the largest window.
  ghost function Leaders(flows: Flows, max: nat): set<nat> {
    set k | k in flows && flows[k].cwnd < max && forall j | j in flows :: flows[k].AsGoodAs(flows[j])
  }

  // The numerator and denominator that getEpsilon gives to flow k.
  ghost function EpsilonAt(flows: Flows, max: nat, plus: set<nat>, k: nat): (int, nat)
    requires k in flows
  {
    if plus == {} then (0, 1)
    else if k in plus then (1, |flows.Keys| * |plus|)
    else if flows[k].cwnd == max then (-1, |flows.Keys| * |Largest(flows, max)|)
    else (0, 1)
  }

  ghost function Sum(f: map<nat, real>, s: set<nat>): real
    requires s <= f.Keys
  {
    if s == {} then 0.0
    else var k :| k in s; f[k] + Sum(f, s - {k})
  }

  // It does not matter which element is taken first.
  lemma {:induction false} SumTake(f: map<nat, real>, s: set<nat>, k: nat)
    requires s <= f.Keys && k in s
    ensures Sum(f, s) == f[k] + Sum(f, s - {k})
  {
    var j :| j in s && Sum(f, s) == f[j] + Sum(f, s - {j});
    if j != k {
      SumTake(f, s - {j}, k);
      SumTake(f, s - {k}, j);
      assert s - {j} - {k} == s - {k} - {j};
    }
  }

  // The sum of the weights of the members of two disjoint sets.
  ghost predicate Weighs(eps: map<nat, real>, plus: set<nat>, minus: set<nat>, a: real, b: real) {
    plus !! minus && forall k | k in eps :: eps[k] == if k in plus then a else if k in minus then -b else 0.0
  }

  lemma Multiples(n: nat, a: real)
    ensures (n + 1) as real * a == n as real * a + a
  {
  }

  lemma Intersect(s: set<nat>, t: set<nat>, k: nat)
    requires k in s
    ensures |s * t| == |(s - {k}) * t| + if k in t then 1 else 0
  {
    assert s * t == if k in t then (s - {k}) * t + {k} else (s - {k}) * t;
  }

  lemma {:induction false} SumWeighs(eps: map<nat, real>, plus: set<nat>, minus: set<nat>, a: real, b: real,
                                     s: set<nat>)
    requires s <= eps.Keys && Weighs(eps, plus, minus, a, b)
    ensures Sum(eps, s) == |s * plus| as real * a - |s * minus| as real * b
  {
    hide Sum;
    if s == {} {
      SumNothing(eps);
    } else {
      var k :| k in s;
      SumTake(eps, s, k);
      SumWeighs(eps, plus, minus, a, b, s - {k});
      Intersect(s, plus, k);
      Intersect(s, minus, k);
      Multiples(|(s - {k}) * plus|, a);
      Multiples(|(s - {k}) * minus|, b);
    }
  }

  lemma SumNothing(f: map<nat, real>)
    ensures Sum(f, {}) == 0.0
  {
  }

  // What each of m flows gets: together, they get one n-th.
  ghost function PartOf(n: nat, m: nat): (a: real)
    requires n > 0 && m > 0
    ensures n * m > 0 && a == 1.0 / (n * m) as real
    ensures m as real * a == 1.0 / n as real
  {
    var x, y := n as real, m as real;
    assert (n * m) as real == x * y;
    assert y * (1.0 / (x * y)) == 1.0 / x;
    1.0 / (n * m) as real
  }

  // Flows that grow are among those below the largest window.
  ghost predicate MayGrow(flows: Flows, max: nat, plus: set<nat>) {
    IsMaxCwnd(flows, max) && plus <= flows.Keys && forall k | k in plus :: flows[k].cwnd < max
  }

  // Every denominator can be divided by.
  lemma DenominatorPositive(flows: Flows, max: nat, plus: set<nat>, k: nat)
    requires MayGrow(flows, max, plus) && k in flows
    ensures EpsilonAt(flows, max, plus, k).1 > 0
    ensures plus != {} ==> |flows.Keys| > 0 && |plus| > 0 && |Largest(flows, max)| > 0
  {
    if plus != {} {
      var j :| j in flows && flows[j].cwnd == max;
      assert j in Largest(flows, max);
      var _, _ := PartOf(|flows.Keys|, |plus|), PartOf(|flows.Keys|, |Largest(flows, max)|);
    }
  }

  ghost function Fraction(num: int, den: nat): real {
    if den == 0 then 0.0 else num as real / den as real
  }

  ghost function Epsilons(flows: Flows, max: nat, plus: set<nat>): map<nat, real> {
    map k | k in flows :: Fraction(EpsilonAt(flows, max, plus, k).0, EpsilonAt(flows, max, plus, k).1)
  }

  // The increases and decreases of the coupled flows cancel out exactly.
  lemma EpsilonsCancel(flows: Flows, max: nat, plus: set<nat>)
    requires MayGrow(flows, max, plus)
    ensures (forall k | k in flows :: EpsilonAt(flows, max, plus, k).1 > 0)
            && Sum(Epsilons(flows, max, plus), flows.Keys) == 0.0
  {
    hide Sum, PartOf, Largest, Epsilons, Weighs, IsMaxCwnd, EpsilonAt;
    forall k | k in flows ensures EpsilonAt(flows, max, plus, k).1 > 0 {
      DenominatorPositive(flows, max, plus, k);
    }
    var all, top, eps := flows.Keys, Largest(flows, max), Epsilons(flows, max, plus);
    assert all * plus == plus && all * {} == {};
    LargestAmong(flows, max);
    if plus == {} {
      NoWeight(flows, max);
      SumWeighs(eps, {}, {}, 0.0, 0.0, all);
    } else {
      var k :| k in plus;
      DenominatorPositive(flows, max, plus, k);
      var a, b := PartOf(|all|, |plus|), PartOf(|all|, |top|);
      QuotientsWeigh(flows, max, plus, a, b);
      SumWeighs(eps, plus, top, a, b, all);
    }
  }

  // Together, the flows that grow get one n-th for n flows, and those with the largest window lose as much.
  lemma EpsilonsShare(flows: Flows, max: nat, plus: set<nat>)
    requires MayGrow(flows, max, plus) && plus != {}
    ensures plus <= flows.Keys && Largest(flows, max) <= flows.Keys && |flows.Keys| > 0
    ensures Sum(Epsilons(flows, max, plus), plus) == 1.0 / |flows.Keys| as real
    ensures Sum(Epsilons(flows, max, plus), Largest(flows, max)) == -(1.0 / |flows.Keys| as real)
  {
    hide Sum, PartOf, Largest, Epsilons, Weighs, IsMaxCwnd, EpsilonAt;
    var all, top, eps := flows.Keys, Largest(flows, max), Epsilons(flows, max, plus);
    LargestAmong(flows, max);
    var k :| k in plus;
    DenominatorPositive(flows, max, plus, k);
    var a, b := PartOf(|all|, |plus|), PartOf(|all|, |top|);
    QuotientsWeigh(flows, max, plus, a, b);
    WeighsApart(eps, plus, top, a, b);
    SumWeighs(eps, plus, top, a, b, plus);
    SumWeighs(eps, plus, top, a, b, top);
    assert plus * plus == plus && top * top == top && top * plus == plus * top == {};
  }

  lemma WeighsApart(eps: map<nat, real>, plus: set<nat>, minus: set<nat>, a: real, b: real)
    requires Weighs(eps, plus, minus, a, b)
    ensures plus * minus == {}
  {
  }

  lemma LargestAmong(flows: Flows, max: nat)
    ensures flows.Keys * Largest(flows, max) == Largest(flows, max) && Largest(flows, max) <= flows.Keys
  {
  }

  lemma NoWeight(flows: Flows, max: nat)
    ensures Weighs(Epsilons(flows, max, {}), {}, {}, 0.0, 0.0)
    ensures Epsilons(flows, max, {}).Keys == flows.Keys
  {
  }

  lemma QuotientsWeigh(flows: Flows, max: nat, plus: set<nat>, a: real, b: real)
    requires MayGrow(flows, max, plus) && plus != {}
    requires |flows.Keys| * |plus| > 0 && a == 1.0 / (|flows.Keys| * |plus|) as real
    requires |flows.Keys| * |Largest(flows, max)| > 0 && b == 1.0 / (|flows.Keys| * |Largest(flows, max)|) as real
    ensures Weighs(Epsilons(flows, max, plus), plus, Largest(flows, max), a, b)
    ensures Epsilons(flows, max, plus).Keys == flows.Keys
  {
    forall k | k in flows
      ensures Epsilons(flows, max, plus)[k] == if k in plus then a else if k in Largest(flows, max) then -b else 0.0
    {
      Negated(EpsilonAt(flows, max, plus, k).1);
    }
  }

  lemma Negated(d: nat)
    ensures d > 0 ==> (-1) as real / d as real == -(1.0 / d as real) && 0 as real / d as real == 0.0
  {
  }

  // ---- the best flow ----

  lemma Cancel(x: int, y: int, d: nat)
    requires d > 0 && x * d >= y * d
    ensures x >= y
  {
  }

  // With measured RTTs, comparing by cross-multiplication is transitive.
  lemma AsGoodTransitive(a: Flow, b: Flow, c: Flow)
    requires a.rtt > 0 && b.rtt > 0 && c.rtt > 0 && a.AsGoodAs(b) && b.AsGoodAs(c)
    ensures a.AsGoodAs(c)
  {
    var x, y, z := a.RttSquared(), b.RttSquared(), c.RttSquared();
    Product(a.bytes * y, b.bytes * x, z);
    Product(b.bytes * z, c.bytes * y, x);
    assert a.bytes * y * z == a.bytes * z * y;
    assert b.bytes * x * z == b.bytes * z * x;
    assert c.bytes * y * x == c.bytes * x * y;
    Cancel(a.bytes * z, c.bytes * x, y);
  }

  lemma Product(p: int, q: int, d: nat)
    requires p >= q
    ensures p * d >= q * d
  {
  }

  // The best flow met so far, or no flow yet.
  ghost predicate IsBest(flows: Flows, met: set<nat>, bytes: nat, rttSquared: nat) {
    if met == {} then bytes == 0 && rttSquared == 0
    else exists k :: k in met && k in flows && bytes == flows[k].bytes && rttSquared == flows[k].RttSquared()
                     && forall j | j in met && j in flows :: flows[k].AsGoodAs(flows[j])
  }

  lemma BetterIsBest(flows: Flows, met: set<nat>, bytes: nat, rttSquared: nat, k: nat)
    requires met <= flows.Keys && k in flows && forall j | j in flows :: flows[j].rtt > 0
    requires IsBest(flows, met, bytes, rttSquared)
    ensures AsGood(flows[k].bytes, flows[k].RttSquared(), bytes, rttSquared) ==>
              IsBest(flows, met + {k}, flows[k].bytes, flows[k].RttSquared())
    ensures !AsGood(flows[k].bytes, flows[k].RttSquared(), bytes, rttSquared) ==>
              IsBest(flows, met + {k}, bytes, rttSquared)
  {
    if met == {} {
      assert forall j | j in met + {k} :: j == k;
    } else {
      var i :| i in met && bytes == flows[i].bytes && rttSquared == flows[i].RttSquared()
               && forall j | j in met && j in flows :: flows[i].AsGoodAs(flows[j]);
      if flows[k].AsGoodAs(flows[i]) {
        forall j | j in met + {k} ensures flows[k].AsGoodAs(flows[j]) {
          if j in met {
            AsGoodTransitive(flows[k], flows[i], flows[j]);
          }
        }
      }
    }
  }

  // Being as good as the best flow means being as good as every flow.
  lemma LeadersOfBest(flows: Flows, max: nat, bytes: nat, rttSquared: nat, plus: set<nat>)
    requires IsBest(flows, flows.Keys, bytes, rttSquared) && forall j | j in flows :: flows[j].rtt > 0
    requires plus == set k | k in flows && flows[k].cwnd < max
                             && AsGood(flows[k].bytes, flows[k].RttSquared(), bytes, rttSquared)
    ensures plus == Leaders(flows, max)
  {
    if flows.Keys != {} {
      var b :| b in flows.Keys && b in flows && bytes == flows[b].bytes && rttSquared == flows[b].RttSquared()
               && forall j | j in flows.Keys && j in flows :: flows[b].AsGoodAs(flows[j]);
      forall k | k in plus ensures k in Leaders(flows, max) {
        forall j | j in flows ensures flows[k].AsGoodAs(flows[j]) {
          AsGoodTransitive(flows[k], flows[b], flows[j]);
        }
      }
    }
  }

  // ---- the rate ----

  const SCALE := 1024

  // What a coupled flow adds to the rate; one without a measured RTT adds nothing.
  function RateOf(cwnd: nat, rtt: nat, pathRTT: nat): nat {
    if rtt == 0 then 0 else cwnd * SCALE * pathRTT / rtt
  }

  ghost function Rates(flows: Flows, pathRTT: nat): map<nat, real> {
    map k | k in flows :: RateOf(flows[k].cwnd, flows[k].rtt, pathRTT) as real
  }

  // One more than the sum of the rates of some flows.
  ghost predicate IsPartRate(flows: Flows, pathRTT: nat, met: set<nat>, rate: nat) {
    met <= flows.Keys && rate >= 1 && rate as real == 1.0 + Sum(Rates(flows, pathRTT), met)
  }

  // The square of one more than the sum of all.
  ghost predicate IsRate(flows: Flows, pathRTT: nat, rate: nat) {
    exists root: nat :: IsPartRate(flows, pathRTT, flows.Keys, root) && rate == root * root
  }

  lemma NoRate(flows: Flows, pathRTT: nat)
    ensures IsPartRate(flows, pathRTT, {}, 1)
  {
    SumNothing(Rates(flows, pathRTT));
  }

  lemma AddRate(flows: Flows, pathRTT: nat, met: set<nat>, rate: nat, k: nat)
    requires IsPartRate(flows, pathRTT, met, rate) && k in flows && k !in met
    ensures IsPartRate(flows, pathRTT, met + {k}, rate + RateOf(flows[k].cwnd, flows[k].rtt, pathRTT))
  {
    hide Sum, RateOf;
    SumTake(Rates(flows, pathRTT), met + {k}, k);
    assert met + {k} - {k} == met;
  }

  // The rate is positive, and 1 if nothing is coupled.
  lemma RatePositive(flows: Flows, pathRTT: nat, rate: nat)
    requires IsRate(flows, pathRTT, rate)
    ensures rate >= 1 && (flows.Keys == {} ==> rate == 1)
  {
    hide Rates;
    var root: nat :| IsPartRate(flows, pathRTT, flows.Keys, root) && rate == root * root;
    SumNothing(Rates(flows, pathRTT));
    RootUnique(1, root);
  }

  lemma RootUnique(a: nat, b: nat)
    ensures b >= 1 ==> b * b >= 1
    ensures a as real == b as real ==> a * a == b * b
  {
  }

  // ---- olia.go ----

  // All fields.
  datatype OliaState = OliaState(loss1: nat, loss2: nat, loss3: nat, epsilonNum: int, epsilonDen: nat, sndCwndCnt: int)
  {
    // The larger of the bytes acked since the last loss and between the last two losses.
    function Smoothed(): nat
      requires loss1 <= loss2 <= loss3
    {
      if loss3 - loss2 > loss2 - loss1 then loss3 - loss2 else loss2 - loss1
    }
  }

  // Loss counters in order; less than a packet is counted.
  ghost predicate OliaInv(o: OliaState) {
    && o.loss1 <= o.loss2 <= o.loss3 && -1 <= o.epsilonNum <= 1 && o.epsilonDen > 0
    && -SCALE + 1 < o.sndCwndCnt < SCALE - 1
  }

  function NewOlia(ackedBytes: nat): OliaState {
    OliaState(ackedBytes, ackedBytes, ackedBytes, 0, 1, 0)
  }

  // The term that is added up: one formula for the three branches of the code.
  ghost function Increase(o: OliaState, window: nat, rate: nat): int {
    Truncated(SCALE * (o.epsilonNum * rate + Weight(o.epsilonDen, window)), Divisor(o.epsilonDen, window, rate))
  }

  function Weight(den: nat, window: nat): nat {
    den * (window * SCALE) * (window * SCALE)
  }

  function Divisor(den: nat, window: nat, rate: nat): (d: nat)
    ensures d > 0
  {
    var d := den * window * rate;
    if d == 0 then 1 else d
  }

  // The window moves by one packet at most, when a whole packet has been added up or taken away.
  ghost function WindowAfterAck(o: OliaState, window: nat, rate: nat): (window': nat)
    ensures window - 1 <= window' <= window + 1 && (window >= 1 ==> window' >= 1)
  {
    var sum := o.sndCwndCnt + Increase(o, window, rate);
    if sum >= SCALE - 1 then window + 1
    else if sum <= -SCALE + 1 && window > 1 then window - 1
    else window
  }

  ghost function CountAfterAck(o: OliaState, window: nat, rate: nat): (count: int)
    ensures -SCALE + 1 < count < SCALE - 1
  {
    var sum := o.sndCwndCnt + Increase(o, window, rate);
    if -SCALE + 1 < sum < SCALE - 1 then sum else 0
  }

  // What is taken away with epsilon -1/den, if anything.
  function Decrease(den: nat, window: nat, rate: nat): nat {
    if Weight(den, window) < rate then SCALE * (rate - Weight(den, window)) / Divisor(den, window, rate) else 0
  }

  // Only epsilon -1 can take anything away.
  lemma IncreaseSign(o: OliaState, window: nat, rate: nat)
    requires -1 <= o.epsilonNum <= 1
    ensures o.epsilonNum >= 0 ==> Increase(o, window, rate) >= 0
    ensures o.epsilonNum == -1 ==>
              if Weight(o.epsilonDen, window) < rate then
                Increase(o, window, rate) + Decrease(o.epsilonDen, window, rate) == 0
              else Increase(o, window, rate) >= 0 && Decrease(o.epsilonDen, window, rate) == 0
  {
    hide Truncated, Weight, Divisor;
    Branches(o.epsilonNum, rate, Weight(o.epsilonDen, window), Divisor(o.epsilonDen, window, rate));
  }

  // ---- what is added ----

  // The amount that an ack adds to the count, or takes away from it, with epsilon num/den: a fraction in 1024ths of
  // a packet, rounded towards zero.
  ghost predicate IsAmount(inc: int, num: int, den: nat, window: nat, rate: nat) {
    Rounds(inc, 1024 * (num * rate + den * (window * 1024) * (window * 1024)),
           if den * window * rate > 0 then den * window * rate else 1)
  }

  ghost predicate Rounds(q: int, n: int, d: nat) {
    if n >= 0 then IsFloor(q, n, d) else IsFloor(-q, -n, d)
  }

  ghost predicate IsFloor(q: int, n: int, d: nat) {
    q >= 0 && d * q <= n < d * (q + 1)
  }

  lemma FloorIs(n: nat, d: nat)
    requires d > 0
    ensures IsFloor(n / d, n, d)
  {
    QuotientIs(n, d);
    DivMonotone(0, n, d);
    IsFloorOf(n / d, n, d);
  }

  lemma IsFloorOf(q: int, n: int, d: nat)
    requires q >= 0 && d * q <= n < d * (q + 1)
    ensures IsFloor(q, n, d)
  {
  }

  lemma TruncatedRounds(n: int, d: nat)
    requires d > 0
    ensures Rounds(Truncated(n, d), n, d)
  {
    hide IsFloor;
    if n >= 0 {
      FloorIs(n, d);
    } else {
      FloorIs(-n, d);
      assert -Truncated(n, d) == -n / d;
    }
  }

  lemma IncreaseIsAmount(o: OliaState, window: nat, rate: nat)
    ensures IsAmount(Increase(o, window, rate), o.epsilonNum, o.epsilonDen, window, rate)
  {
    hide Truncated, Rounds;
    TruncatedRounds(SCALE * (o.epsilonNum * rate + Weight(o.epsilonDen, window)),
                    Divisor(o.epsilonDen, window, rate));
  }

  // There is only one such amount.
  lemma RoundsUnique(n: int, d: nat, q: int, q': int)
    requires d > 0 && Rounds(q, n, d) && Rounds(q', n, d)
    ensures q == q'
  {
    if n >= 0 {
      FloorUnique(n, d, q, q');
    } else {
      FloorUnique(-n, d, -q, -q');
    }
  }

  lemma FloorUnique(n: int, d: nat, q: int, q': int)
    requires d > 0 && IsFloor(q, n, d) && IsFloor(q', n, d)
    ensures q == q'
  {
    assert d * (q + 1) == d * q + d && d * (q' + 1) == d * q' + d;
    assert d * (q - q') == d * q - d * q' && d * (q' - q) == d * q' - d * q;
    if q > q' {
      Multiple(d, q - q');
    } else if q < q' {
      Multiple(d, q' - q);
    }
  }

  // One ack: the amount is counted, and 1023 of it make up a packet.
  lemma CountOutcome(o: OliaState, window: nat, rate: nat, inc: int)
    requires IsAmount(inc, o.epsilonNum, o.epsilonDen, window, rate)
    ensures var sum := o.sndCwndCnt + inc;
            if sum >= 1023 then WindowAfterAck(o, window, rate) == window + 1 && CountAfterAck(o, window, rate) == 0
            else if sum <= -1023 then
              && WindowAfterAck(o, window, rate) == (if window > 1 then window - 1 else window)
              && CountAfterAck(o, window, rate) == 0
            else WindowAfterAck(o, window, rate) == window && CountAfterAck(o, window, rate) == sum
  {
    hide Rounds, Increase;
    IncreaseIsAmount(o, window, rate);
    RoundsUnique(1024 * (o.epsilonNum * rate + o.epsilonDen * (window * 1024) * (window * 1024)),
                 if o.epsilonDen * window * rate > 0 then o.epsilonDen * window * rate else 1,
                 inc, Increase(o, window, rate));
  }

  // Some acks for one window, each with the epsilon and the rate at its time.
  ghost predicate Acks(os: seq<OliaState>, window: nat, rates: seq<nat>, incs: seq<nat>) {
    && |os| == |rates| + 1 == |incs| + 1 && -1023 < os[0].sndCwndCnt < 1023
    && forall i | 0 <= i < |rates| ::
         && IsAmount(incs[i], os[i].epsilonNum, os[i].epsilonDen, window, rates[i])
         && os[i + 1].sndCwndCnt == CountAfterAck(os[i], window, rates[i])
  }

  ghost function Total(incs: seq<nat>, n: nat): nat
    requires n <= |incs|
  {
    if n == 0 then 0 else Total(incs, n - 1) + incs[n - 1]
  }

  // The window grows exactly with the ack with which the amounts, none of them negative, reach a packet.
  lemma {:induction false} GrowsExactly(os: seq<OliaState>, window: nat, rates: seq<nat>, incs: seq<nat>, n: nat)
    requires Acks(os, window, rates, incs) && n <= |incs|
    requires n > 0 ==> os[0].sndCwndCnt + Total(incs, n - 1) < 1023
    ensures if os[0].sndCwndCnt + Total(incs, n) < 1023 then os[n].sndCwndCnt == os[0].sndCwndCnt + Total(incs, n)
            else WindowAfterAck(os[n - 1], window, rates[n - 1]) == window + 1 && os[n].sndCwndCnt == 0
  {
    hide IsAmount, WindowAfterAck, CountAfterAck;
    if n > 0 {
      if n > 1 {
        assert Total(incs, n - 2) <= Total(incs, n - 1);
      }
      GrowsExactly(os, window, rates, incs, n - 1);
      CountOutcome(os[n - 1], window, rates[n - 1], incs[n - 1]);
    }
  }

  // So with positive amounts, 2045 acks are enough, whatever was taken away before.
  lemma GrowsAtLast(os: seq<OliaState>, window: nat, rates: seq<nat>, incs: seq<nat>)
    requires Acks(os, window, rates, incs) && |incs| >= 2045 && forall i | 0 <= i < |incs| :: incs[i] > 0
    ensures exists i :: 0 <= i < |rates| && WindowAfterAck(os[i], window, rates[i]) == window + 1
  {
    hide IsAmount, WindowAfterAck, CountAfterAck;
    TotalPositive(incs, 2045);
    var n := FirstReached(os[0].sndCwndCnt, incs, 2045);
    GrowsExactly(os, window, rates, incs, n);
    assert WindowAfterAck(os[n - 1], window, rates[n - 1]) == window + 1;
  }

  lemma {:induction false} TotalPositive(incs: seq<nat>, n: nat)
    requires n <= |incs| && forall i | 0 <= i < |incs| :: incs[i] > 0
    ensures Total(incs, n) >= n
  {
    if n > 0 {
      TotalPositive(incs, n - 1);
    }
  }

  ghost function FirstReached(count: int, incs: seq<nat>, n: nat): (k: nat)
    requires n <= |incs| && count < 1023 <= count + Total(incs, n)
    ensures 0 < k <= n && count + Total(incs, k - 1) < 1023 <= count + Total(incs, k)
  {
    if count + Total(incs, n - 1) < 1023 then n else FirstReached(count, incs, n - 1)
  }

  // The amount is positive unless the rate is very large for the window.
  lemma AmountPositive(inc: int, num: int, den: nat, window: nat, rate: nat)
    requires IsAmount(inc, num, den, window, rate) && num >= 0 && den > 0 && window > 0
    requires rate <= 1024 * 1024 * 1024 * window
    ensures inc > 0
  {
    Positive(num, den, window, rate);
  }

  lemma Positive(num: int, den: nat, window: nat, rate: nat)
    requires num >= 0 && den > 0 && window > 0 && rate <= 1024 * 1024 * 1024 * window
    ensures 0 < den * (window * 1024) * (window * 1024)
    ensures den * window * rate <= 1024 * (num * rate + den * (window * 1024) * (window * 1024))
  {
    var dw := den * window;
    assert dw * rate <= dw * (1024 * 1024 * 1024 * window);
    assert dw * (1024 * 1024 * 1024 * window) == 1024 * (dw * 1024 * (window * 1024));
    assert den * (window * 1024) == dw * 1024;
    assert num * rate >= 0;
  }

  // A flow that is coupled with itself has its own share in the rate ...
  lemma OwnRate(flows: Flows, rate: nat, k: nat)
    requires k in flows && flows[k].rtt > 0 && IsRate(flows, flows[k].rtt, rate)
    ensures rate >= (1024 * flows[k].cwnd) * (1024 * flows[k].cwnd)
  {
    hide Sum, RateOf, Rates;
    var rtt := flows[k].rtt;
    var root: nat :| IsPartRate(flows, rtt, flows.Keys, root) && rate == root * root;
    RootAtLeast(flows, k, root);
    SquareGrows(1024 * flows[k].cwnd, root);
  }

  lemma RootAtLeast(flows: Flows, k: nat, root: nat)
    requires k in flows && flows[k].rtt > 0 && IsPartRate(flows, flows[k].rtt, flows.Keys, root)
    ensures root >= 1024 * flows[k].cwnd
  {
    hide Sum, RateOf;
    var rtt := flows[k].rtt;
    SumTake(Rates(flows, rtt), flows.Keys, k);
    SumNotNegative(flows, rtt, flows.Keys - {k});
    ShareOfOwn(flows[k].cwnd, rtt);
    RealOrder(1024 * flows[k].cwnd, root);
  }

  lemma RealOrder(a: nat, b: nat)
    ensures b as real >= a as real <==> b >= a
  {
  }

  lemma SquareGrows(a: nat, b: nat)
    requires a <= b
    ensures a * a <= b * b
  {
  }

  // That is its window in 1024ths of a packet times the RTT of the path, by its own RTT, rounded down.
  lemma RateBounds(cwnd: nat, rtt: nat, pathRTT: nat, n: nat)
    requires n == cwnd * 1024 * pathRTT
    ensures if rtt == 0 then RateOf(cwnd, rtt, pathRTT) == 0 else IsFloor(RateOf(cwnd, rtt, pathRTT), n, rtt)
  {
    if rtt > 0 {
      FloorIs(n, rtt);
    }
  }

  lemma ShareOfOwn(cwnd: nat, rtt: nat)
    requires rtt > 0
    ensures RateOf(cwnd, rtt, rtt) == 1024 * cwnd
  {
    hide RateOf;
    var n := cwnd * 1024 * rtt;
    RateBounds(cwnd, rtt, rtt, n);
    assert n == rtt * (1024 * cwnd);
    ExactFloor(n, rtt, 1024 * cwnd);
    FloorUnique(n, rtt, RateOf(cwnd, rtt, rtt), 1024 * cwnd);
  }

  lemma ExactFloor(n: int, d: nat, q: nat)
    requires d > 0 && n == d * q
    ensures IsFloor(q, n, d)
  {
    assert d * (q + 1) == d * q + d;
  }

  lemma {:induction false} SumNotNegative(flows: Flows, pathRTT: nat, s: set<nat>)
    requires s <= flows.Keys
    ensures Sum(Rates(flows, pathRTT), s) >= 0.0
  {
    hide RateOf;
    if s != {} {
      var k :| k in s && Sum(Rates(flows, pathRTT), s)
                         == Rates(flows, pathRTT)[k] + Sum(Rates(flows, pathRTT), s - {k});
      SumNotNegative(flows, pathRTT, s - {k});
    }
  }

  // ... so with epsilon 0 it grows no faster than Reno does: the acks of one window add one packet at most.
  lemma NoFasterThanReno(flows: Flows, rate: nat, k: nat, inc: int, den: nat)
    requires k in flows && flows[k].rtt > 0 && flows[k].cwnd > 0 && IsRate(flows, flows[k].rtt, rate)
    requires den > 0 && IsAmount(inc, 0, den, flows[k].cwnd, rate)
    ensures 0 <= inc && flows[k].cwnd * inc <= 1024
  {
    hide IsRate;
    OwnRate(flows, rate, k);
    RenoBound(flows[k].cwnd, rate, inc, den);
  }

  lemma RenoBound(window: nat, rate: nat, inc: int, den: nat)
    requires window > 0 && den > 0 && rate >= (1024 * window) * (1024 * window)
    requires IsAmount(inc, 0, den, window, rate)
    ensures 0 <= inc && window * inc <= 1024
  {
    hide Rounds;
    var square := (1024 * window) * (1024 * window);
    Positives(den, window, rate);
    Numerator(den, window, rate);
    FloorBelow(inc, 1024 * square * den, den * window * rate);
    Together(den, window, rate, inc);
    Cancel(1024 * square, window * inc * rate, den);
    Cancel(1024, window * inc, rate);
  }

  lemma Positives(den: nat, window: nat, rate: nat)
    requires window > 0 && den > 0 && rate >= (1024 * window) * (1024 * window)
    ensures rate > 0 && den * window * rate > 0
  {
    var square := (1024 * window) * (1024 * window);
    assert square > 0 && window * rate > 0;
    assert den * window * rate == den * (window * rate);
  }

  lemma Numerator(den: nat, window: nat, rate: nat)
    ensures 1024 * (0 * rate + den * (window * 1024) * (window * 1024)) ==
            1024 * ((1024 * window) * (1024 * window)) * den >= 0
  {
  }

  lemma Together(den: nat, window: nat, rate: nat, inc: int)
    ensures den * window * rate * inc == window * inc * rate * den
  {
  }

  lemma FloorBelow(q: int, n: nat, d: nat)
    requires Rounds(q, n, d)
    ensures 0 <= q && d * q <= n
  {
  }

  class Olia {
    var loss1: nat
    var loss2: nat
    var loss3: nat
    var epsilonNum: int
    var epsilonDen: nat
    var sndCwndCnt: int

    ghost function View(): OliaState
      reads this
    {
      OliaState(loss1, loss2, loss3, epsilonNum, epsilonDen, sndCwndCnt)
    }

    constructor (ackedBytes: nat)
      ensures View() == NewOlia(ackedBytes)
    {
      loss1, loss2, loss3 := ackedBytes, ackedBytes, ackedBytes;
      epsilonNum, epsilonDen, sndCwndCnt := 0, 1, 0;
    }

    method Reset()
      modifies this
      ensures View() == NewOlia(0)
    {
      loss1, loss2, loss3 := 0, 0, 0;
      epsilonNum, epsilonDen, sndCwndCnt := 0, 1, 0;
    }

    function SmoothedBytesBetweenLosses(): (bytes: nat)
      requires loss1 <= loss2 <= loss3
      reads this
      ensures bytes >= loss3 - loss2 && bytes >= loss2 - loss1
      ensures bytes == loss3 - loss2 || bytes == loss2 - loss1
      ensures bytes == View().Smoothed()
    {
      if loss3 - loss2 > loss2 - loss1 then loss3 - loss2 else loss2 - loss1
    }

    method SetEpsilon(num: int, den: nat)
      modifies this`epsilonNum, this`epsilonDen
      ensures View() == old(View()).(epsilonNum := num, epsilonDen := den)
    {
      epsilonNum, epsilonDen := num, den;
    }

    method UpdateAckedSinceLastLoss(ackedBytes: nat)
      modifies this`loss3
      ensures View() == old(View()).(loss3 := old(loss3) + ackedBytes)
    {
      loss3 := loss3 + ackedBytes;
    }

    method OnPacketLost()
      modifies this`loss1, this`loss2
      ensures View() == old(View()).(loss1 := old(loss2), loss2 := loss3)
    {
      loss1 := loss2;
      loss2 := loss3;
    }

    method AddIncrease(window: nat, rate: nat, scaled: nat)
      requires -1 <= epsilonNum <= 1 && scaled == window * SCALE
      modifies this`sndCwndCnt
      ensures sndCwndCnt == old(sndCwndCnt) + Increase(old(View()), window, rate)
    {
      hide Truncated;
      var incDen := epsilonDen * window * rate;
      if incDen == 0 {
        incDen := 1;
      }
      var weight := epsilonDen * scaled * scaled;
      Branches(epsilonNum, rate, weight, incDen);
      if epsilonNum == -1 {
        if weight < rate {
          var incNum := rate - weight;
          sndCwndCnt := sndCwndCnt - SCALE * incNum / incDen;
        } else {
          var incNum := weight - rate;
          sndCwndCnt := sndCwndCnt + SCALE * incNum / incDen;
        }
      } else {
        var incNum := epsilonNum * rate + weight;
        sndCwndCnt := sndCwndCnt + SCALE * incNum / incDen;
      }
    }

    method CongestionWindowAfterAck(window: nat, rate: nat, scaled: nat) returns (window': nat)
      requires -1 <= epsilonNum <= 1 && window >= 1 && scaled == window * SCALE
      modifies this`sndCwndCnt
      ensures window' == WindowAfterAck(old(View()), window, rate)
      ensures View() == old(View()).(sndCwndCnt := CountAfterAck(old(View()), window, rate))
    {
      hide Increase;
      window' := window;
      AddIncrease(window, rate, scaled);
      if sndCwndCnt >= SCALE - 1 {
        window' := window + 1;
        sndCwndCnt := 0;
      } else if sndCwndCnt <= -SCALE + 1 {
        window' := if window - 1 > 1 then window - 1 else 1;
        sndCwndCnt := 0;
      }
    }
  }

  lemma Branches(num: int, rate: nat, weight: nat, d: nat)
    requires d > 0 && -1 <= num <= 1
    ensures num == -1 && weight < rate ==> Truncated(SCALE * (num * rate + weight), d) == -(SCALE * (rate - weight) / d)
    ensures num == -1 && weight >= rate ==> Truncated(SCALE * (num * rate + weight), d) == SCALE * (weight - rate) / d
    ensures num >= 0 ==> Truncated(SCALE * (num * rate + weight), d) == SCALE * (num * rate + weight) / d
  {
    var r: int := rate;
    assert num == -1 ==> num * r == -r;
    assert num >= 0 ==> num * rate >= 0;
    assert -(SCALE * (weight - rate)) == SCALE * (rate - weight);
  }
}
