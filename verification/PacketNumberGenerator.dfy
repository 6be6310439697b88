/**
 packet_number_generator.go: the numbers a path's packets get, with a number left out now and then.
 The 16-bit random number is a parameter; None is a failed read of the random source.
 */
module PacketNumberGenerator {
  import opened Wrappers
  import opened Modulo

  const MAX_UINT16: nat := 65535

  datatype State = State(next: nat, nextToSkip: nat)

  const FRESH := State(1, 0)

  predicate IsRandom(random: Option<nat>) {
    random.Some? ==> random.value <= MAX_UINT16
  }

  // The state after one Pop: `period` is the average number of packets between two skips.
  function AfterPop(s: State, period: nat, random: Option<nat>): State
    requires period > 0
  {
    if s.next + 1 != s.nextToSkip then s.(next := s.next + 1)
    else if random.None? then s.(next := s.next + 2)
    else State(s.next + 2, s.next + 4 + random.value * (period - 1) / (MAX_UINT16 / 2))
  }

  // Numbers that go up by one or two, and never by two twice in a row.
  ghost predicate Spaced(numbers: seq<nat>) {
    && (forall i | 1 <= i < |numbers| :: numbers[i] == numbers[i - 1] + 1 || numbers[i] == numbers[i - 1] + 2)
    && (forall i | 2 <= i < |numbers| :: numbers[i] <= numbers[i - 2] + 3)
  }

  ghost predicate Inv(s: State, issued: seq<nat>) {
    && Spaced(issued + [s.next])
    && (issued != [] && s.next == issued[|issued| - 1] + 2 ==> s.nextToSkip != s.next + 1)
  }

  class Generator {
    const averagePeriod: nat
    var next: nat
    var nextToSkip: nat
    ghost var issued: seq<nat>

    ghost predicate Valid()
      reads this
    {
      averagePeriod > 0 && Inv(View(), issued)
    }

    ghost function View(): State
      reads this
    {
      State(next, nextToSkip)
    }

    constructor (averagePeriod: nat)
      requires averagePeriod > 0
      ensures Valid() && View() == FRESH && issued == [] && this.averagePeriod == averagePeriod
    {
      this.averagePeriod := averagePeriod;
      next, nextToSkip, issued := 1, 0, [];
    }

    method Peek() returns (number: nat)
      ensures number == next
    {
      number := next;
    }

    method Pop(random: Option<nat>) returns (number: nat)
      requires Valid() && IsRandom(random)
      modifies this
      ensures Valid() && number == old(next) < next
      ensures issued == old(issued) + [number]
      ensures View() == AfterPop(old(View()), averagePeriod, random)
    {
      PopSpaced(View(), averagePeriod, random, issued);
      number := next;
      issued := issued + [number];
      next := next + 1;
      if next == nextToSkip {
        next := next + 1;
        GenerateNewSkip(random);
      }
    }

    method GenerateNewSkip(random: Option<nat>)
      requires averagePeriod > 0
      modifies this`nextToSkip
      ensures random.None? ==> nextToSkip == old(nextToSkip)
      ensures random.Some? ==>
                nextToSkip == next + 2 + random.value * (averagePeriod - 1) / (MAX_UINT16 / 2)
    {
      if random.Some? {
        var skip := random.value * (averagePeriod - 1) / (MAX_UINT16 / 2);
        nextToSkip := next + 2 + skip;
      }
    }
  }

  // After the numbers issued so far and `next`, the number that follows keeps the spacing.
  lemma PopSpaced(s: State, period: nat, random: Option<nat>, issued: seq<nat>)
    requires period > 0 && Inv(s, issued)
    ensures Inv(AfterPop(s, period, random), issued + [s.next])
  {
    hide AfterPop;
    var s' := AfterPop(s, period, random);
    NextNumber(s, period, random);
    var before, after := issued + [s.next], issued + [s.next] + [s'.next];
    var n := |before|;
    assert forall i | 0 <= i < n :: after[i] == before[i];
    assert after[n] == s'.next && before[n - 1] == s.next;
    if n > 1 {
      assert before[n - 2] == issued[n - 2];
    }
  }

  lemma NextNumber(s: State, period: nat, random: Option<nat>)
    requires period > 0
    ensures var s' := AfterPop(s, period, random);
            if s.nextToSkip == s.next + 1 then s'.next == s.next + 2 && s'.nextToSkip != s'.next + 1
            else s'.next == s.next + 1
  {
  }

  // The state after n Pops; the i-th of them would draw random[i].
  ghost function AfterPops(s: State, period: nat, random: seq<Option<nat>>): State
    requires period > 0
  {
    if random == [] then s
    else AfterPop(AfterPops(s, period, random[..|random| - 1]), period, random[|random| - 1])
  }

  // No skip happens while the number to skip is behind, or still ahead.
  lemma {:induction false} CountsUp(s: State, period: nat, random: seq<Option<nat>>)
    requires period > 0
    requires s.nextToSkip <= s.next || s.next + |random| < s.nextToSkip
    ensures AfterPops(s, period, random) == s.(next := s.next + |random|)
  {
    if random != [] {
      CountsUp(s, period, random[..|random| - 1]);
    }
  }

  // A generator ever leaves out a number exactly if its number to skip is ahead of it.
  lemma SkipsIffAhead(s: State, period: nat, random: seq<Option<nat>>)
    requires period > 0
    ensures s.nextToSkip <= s.next ==> AfterPops(s, period, random).next == s.next + |random|
    ensures s.next < s.nextToSkip && |random| == s.nextToSkip - s.next ==>
              AfterPops(s, period, random).next == s.nextToSkip + 1
  {
    if s.nextToSkip <= s.next {
      CountsUp(s, period, random);
    } else if |random| == s.nextToSkip - s.next {
      CountsUp(s, period, random[..|random| - 1]);
    }
  }

  // The constructor draws no first number to skip, so a new generator never skips any.
  lemma FreshNeverSkips(period: nat, random: seq<Option<nat>>)
    requires period > 0
    ensures AfterPops(FRESH, period, random) == State(1 + |random|, 0)
  {
    CountsUp(FRESH, period, random);
  }

  // With a random number r, the next number left out comes after 2 + r * (period - 1) / 32767 others, rounded down.
  lemma SkipDistance(s: State, period: nat, r: nat, d: nat)
    requires period > 0 && s.nextToSkip == s.next + 1 && 32767 * d <= r * (period - 1) < 32767 * (d + 1)
    ensures AfterPop(s, period, Some(r)) == State(s.next + 2, s.next + 2 + 2 + d)
  {
    Between(r * (period - 1), 32767, d, d + 1);
  }

  // So on average, it is about the period: two opposite random numbers add up to twice that, within one, and one
  // more for every 32767 of the period.
  lemma SkipsOnAverage(s: State, period: nat, r: nat)
    requires period > 0 && r <= 65535 && s.nextToSkip == s.next + 1
    ensures var a, b := AfterPop(s, period, Some(r)), AfterPop(s, period, Some(65535 - r));
            var sum := (a.nextToSkip - a.next) + (b.nextToSkip - b.next);
            2 * period + 1 <= sum <= 2 * period + 2 + period / 32767
  {
    hide AfterPop;
    var m := period - 1;
    var x, y := r * m, (65535 - r) * m;
    Opposite(r, m);
    QuotientIs(x, 32767);
    QuotientIs(y, 32767);
    SkipDistance(s, period, r, x / 32767);
    SkipDistance(s, period, 65535 - r, y / 32767);
    BothRounded(x, y, x / 32767, y / 32767, m);
  }

  lemma Opposite(r: nat, m: nat)
    requires r <= 65535
    ensures r * m + (65535 - r) * m == 65535 * m
  {
  }

  lemma BothRounded(x: nat, y: nat, a: nat, b: nat, m: nat)
    requires x + y == 65535 * m
    requires 32767 * a <= x < 32767 * (a + 1) && 32767 * b <= y < 32767 * (b + 1)
    ensures 2 * m - 1 <= a + b <= 2 * m + m / 32767
  {
  }
}
