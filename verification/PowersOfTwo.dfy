// Rounding a capacity up to a power of two, in 32 bits.
module PowersOfTwo {

  predicate IsPowerOfTwo(n: nat) {
    n == 1 || (n > 1 && n % 2 == 0 && IsPowerOfTwo(n / 2))
  }

  // The smallest power of two that is not below capacity, from a power of two that is not
  // above it on.
  function RoundUpToPowerOfTwo(capacity: nat, power: nat): (n: nat)
    requires 0 < power
    ensures capacity <= n && power <= n && (n == power || n < 2 * capacity)
    ensures IsPowerOfTwo(power) ==> IsPowerOfTwo(n)
    decreases capacity - power
  {
    if power >= capacity then power else
      Twice(power);
      RoundUpToPowerOfTwo(capacity, 2 * power)
  }

  const WORD := 0x1_0000_0000
  const MOST_BUCKETS := 0x8000_0000

  // In 32 bits the result is 0 exactly for capacities above 2^31.
  lemma NoBuckets(capacity: nat)
    requires 0 < capacity < WORD
    ensures RoundUpToPowerOfTwo(capacity, 1) <= WORD
    ensures RoundUpToPowerOfTwo(capacity, 1) % WORD == 0 <==> capacity > MOST_BUCKETS
  {
    hide IsPowerOfTwo;
    IsOne();
    var n := RoundUpToPowerOfTwo(capacity, 1);
    GreatPowers();
    PowersApart(n, WORD);
    if n < WORD {
      PowersApart(n, MOST_BUCKETS);
    }
  }

  lemma FewBuckets(n: nat)
    requires IsPowerOfTwo(n) && n <= WORD && n % WORD != 0
    ensures n <= MOST_BUCKETS
  {
    hide IsPowerOfTwo;
    GreatPowers();
    PowersApart(n, MOST_BUCKETS);
  }

  lemma BelowMost(n: nat)
    requires IsPowerOfTwo(n) && n < MOST_BUCKETS
    ensures 2 * n <= MOST_BUCKETS
  {
    hide IsPowerOfTwo;
    GreatPowers();
    Twice(n);
    PowersApart(2 * n, MOST_BUCKETS);
  }

  lemma {:induction false} PowersApart(n: nat, p: nat)
    requires IsPowerOfTwo(n) && IsPowerOfTwo(p) && n < 2 * p
    ensures n <= p
  {
    if n > 1 && p > 1 {
      PowersApart(n / 2, p / 2);
    }
  }

  lemma GreatPowers()
    ensures IsPowerOfTwo(MOST_BUCKETS) && IsPowerOfTwo(WORD)
  {
    hide IsPowerOfTwo;
    IsOne();
    TimesSixteen(1);
    TimesSixteen(0x10);
    TimesSixteen(0x100);
    TimesSixteen(0x1000);
    TimesSixteen(0x1_0000);
    TimesSixteen(0x10_0000);
    TimesSixteen(0x100_0000);
    TimesSixteen(0x800_0000);
    TimesSixteen(0x1000_0000);
  }

  lemma IsOne()
    ensures IsPowerOfTwo(1)
  {}

  lemma TimesSixteen(n: nat)
    requires IsPowerOfTwo(n)
    ensures IsPowerOfTwo(8 * n) && IsPowerOfTwo(16 * n)
  {
    hide IsPowerOfTwo;
    Twice(n);
    Twice(2 * n);
    Twice(4 * n);
    Twice(8 * n);
  }

  lemma Twice(n: nat)
    ensures IsPowerOfTwo(n) ==> IsPowerOfTwo(2 * n)
  {
    assert n > 0 ==> 2 * n / 2 == n;
  }
}
