/**
 * FactorialOperator.apply: value starts at the argument a and is multiplied
 * by every int i from 2 while i < a. Doubles are modelled as exact reals.
 */
module FactorialOperator {
  const MaxInt32: int := 0x7fff_ffff

  /** The factorial n! */
  function Fact(n: nat): nat {
    if n == 0 then 1 else n * Fact(n - 1)
  }

  /** lo * (lo + 1) * ... * (hi - 1); 1 when the range is empty. */
  function Product(lo: int, hi: int): int
    decreases hi - lo
  {
    if lo >= hi then 1 else Product(lo, hi - 1) * (hi - 1)
  }

  /** The least integer at or above a. */
  function Ceil(a: real): (c: int)
    ensures a <= c as real < a + 1.0
  {
    if a.Floor as real == a then a.Floor else a.Floor + 1
  }

  /** The counter value at which `i < a` first fails, counting up from 2. */
  function LoopEnd(a: real): (e: int)
    ensures e >= 2 && a <= e as real
    ensures e == 2 || (e - 1) as real < a
  {
    if a <= 2.0 then 2 else Ceil(a)
  }

  /** What apply returns for the argument a: a times every integer in [2, LoopEnd(a)). */
  function LegacyFactorial(a: real): real {
    a * Product(2, LoopEnd(a)) as real
  }

  /**
   * apply with the counter as an unbounded integer. Up to Integer.MAX_VALUE
   * this is the source's loop, whose int counter never exceeds a there; above
   * it, this is the loop that was evidently intended (CounterStaysBelow shows
   * what the int counter does instead).
   */
  method Apply(a: real) returns (value: real)
    ensures value == LegacyFactorial(a)
  {
    value := a;
    var i := 2;
    while (i as real) < a
      invariant 2 <= i <= LoopEnd(a)
      invariant value == a * Product(2, i) as real
      decreases LoopEnd(a) - i
    {
      value := value * i as real;
      i := i + 1;
    }
  }

  const MinInt32: int := -0x8000_0000

  /** Java int addition: the exact sum wrapped into [Integer.MIN_VALUE, Integer.MAX_VALUE]. */
  function AddInt32(x: int, y: int): (r: int)
    ensures MinInt32 <= r <= MaxInt32
    ensures MinInt32 <= x + y <= MaxInt32 ==> r == x + y
  {
    (x + y - MinInt32) % 0x1_0000_0000 + MinInt32
  }

  /** The source's int counter after k increments from 2. */
  function Counter(k: nat): (i: int)
    ensures MinInt32 <= i <= MaxInt32
  {
    if k == 0 then 2 else AddInt32(Counter(k - 1), 1)
  }

  /** Until it reaches Integer.MAX_VALUE the counter counts up without wrapping. */
  lemma {:induction false} CounterCountsUp(k: nat)
    requires k <= MaxInt32 - 2
    ensures Counter(k) == 2 + k
  {
    if k > 0 {
      CounterCountsUp(k - 1);
    }
  }

  /**
   * The loop as written, for an argument above Integer.MAX_VALUE: the counter
   * reaches Integer.MAX_VALUE, wraps to Integer.MIN_VALUE on the next
   * increment, and at every iteration is still below the argument, so `i < a`
   * never fails and apply never returns.
   */
  lemma CounterStaysBelow(a: real)
    requires a > MaxInt32 as real
    ensures Counter(MaxInt32 - 2) == MaxInt32 && Counter(MaxInt32 - 1) == MinInt32
    ensures forall k: nat :: (Counter(k) as real) < a
  {
    CounterCountsUp(MaxInt32 - 2);
  }

  /** Arguments up to 2 (0, 1, negatives, fractions) come back unchanged: the loop never runs. */
  lemma PassThrough(a: real)
    requires a <= 2.0
    ensures LegacyFactorial(a) == a
  {
  }

  /** 2 * 3 * ... * (n - 1) is (n - 1)! */
  lemma {:induction false} ProductIsFactorial(n: nat)
    requires n >= 1
    ensures Product(2, n) == Fact(n - 1)
    decreases n
  {
    if n > 2 {
      ProductIsFactorial(n - 1);
    }
  }

  /** On an integer the loop stops at the integer itself, and never below 2. */
  lemma LoopEndOfInteger(n: int)
    ensures LoopEnd(n as real) == if n <= 2 then 2 else n
  {
    assert (n as real).Floor == n;
  }

  /** On a positive integer the operator is the factorial. */
  lemma IntegerFactorial(n: nat)
    requires n >= 1
    ensures LegacyFactorial(n as real) == Fact(n) as real
  {
    LoopEndOfInteger(n);
    var p := Product(2, LoopEnd(n as real));
    assert p == Fact(n - 1) by {
      if n <= 2 {
        assert Product(2, 2) == 1;
      } else {
        ProductIsFactorial(n);
      }
    }
    assert Fact(n) == n * p;
  }

  /** (n + 1)! = (n + 1) * n!, over the reals. */
  lemma FactStep(n: nat)
    ensures Fact(n + 1) as real == (n + 1) as real * Fact(n) as real
  {
    var f := Fact(n);
    assert Fact(n + 1) == (n + 1) * f;
  }

  lemma Recurrence(n: nat)
    requires n >= 1
    ensures LegacyFactorial((n + 1) as real) == (n + 1) as real * LegacyFactorial(n as real)
  {
    calc {
      LegacyFactorial((n + 1) as real);
      { IntegerFactorial(n + 1); }
      Fact(n + 1) as real;
      { FactStep(n); }
      (n + 1) as real * Fact(n) as real;
      { IntegerFactorial(n); }
      (n + 1) as real * LegacyFactorial(n as real);
    }
  }

  /** A fractional argument is multiplied by every integer from 2 up to its ceiling minus one: 3.5 gives 3.5 * 2 * 3. */
  lemma Fractional()
    ensures LegacyFactorial(3.5) == 21.0
  {
    assert LoopEnd(3.5) == 4;
    assert Product(2, 4) == 6;
  }
}
