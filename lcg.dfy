/**
 * The seeded pseudo-random stream `seedRandom(seed)` of the report generators:
 * a closure that advances `seed = (seed * 9301 + 49297) % 233280` and returns
 * `seed / 233280`. The pure functions thread the state explicitly; the class
 * is the closure object whose captured `seed` each call updates.
 */
module Lcg {

  const Modulus: int := 233280
  const Multiplier: int := 9301
  const Increment: int := 49297

  /** The fixed initial seeds of the daily, weekly and monthly generators. */
  const DailySeed: nat := 123
  const WeeklySeed: nat := 456

  function MonthlySeed(monthIndex: nat): nat { 789 + monthIndex }

  /** One step of the recurrence (all states are non-negative, so `%` agrees with JavaScript's). */
  function Step(s: nat): (t: nat)
    ensures t < Modulus
  {
    (s * Multiplier + Increment) % Modulus
  }

  /** The value `random()` returns once the state has become `t`. */
  function Fraction(t: nat): real {
    t as real / Modulus as real
  }

  /** `Math.floor(random() * n)`, with the state before and after the call. */
  function Below(s: nat, n: int): (r: (int, nat))
    ensures r.1 == Step(s)
  {
    var t := Step(s);
    ((t * n) / Modulus, t)
  }

  lemma BelowBounds(s: nat, n: int)
    ensures n > 0 ==> 0 <= Below(s, n).0 < n
    ensures n <= 0 ==> n <= Below(s, n).0 <= 0
  {
    ScaledFloorBounds(Step(s), n);
  }

  /** `random() > 0.7`, with the state after the call. */
  function Chance(s: nat): (r: (bool, nat))
    ensures r.1 == Step(s)
    ensures r.0 <==> Step(s) > 163296
  {
    var t := Step(s);
    (Fraction(t) > 0.7, t)
  }

  lemma ScaledFloorBounds(t: nat, n: int)
    requires t < Modulus
    ensures n > 0 ==> 0 <= (t * n) / Modulus < n
    ensures n <= 0 ==> n <= (t * n) / Modulus <= 0
  {
    var p := t * n;
    if n > 0 {
      ProductBounds(t, n);
      assert 0 <= p <= Modulus * n - n;
    } else {
      ProductBounds(t, -n);
      assert 0 <= -p <= Modulus * (-n) + n;
    }
  }

  lemma {:induction false} ProductBounds(t: nat, m: nat)
    requires t < Modulus
    ensures 0 <= t * m <= (Modulus - 1) * m
    decreases m
  {
    if m > 0 {
      ProductBounds(t, m - 1);
      assert t * m == t * (m - 1) + t;
      assert (Modulus - 1) * m == (Modulus - 1) * (m - 1) + (Modulus - 1);
    }
  }

  /** The real-valued `Math.floor(random() * n)` is the integer quotient `Below` uses. */
  lemma FloorOfScaled(t: nat, n: int)
    ensures (Fraction(t) * n as real).Floor == (t * n) / Modulus
  {
    var q, r := (t * n) / Modulus, (t * n) % Modulus;
    assert t * n == q * Modulus + r && 0 <= r < Modulus;
    calc {
      Fraction(t) * n as real;
      (t * n) as real / Modulus as real;
      (q * Modulus + r) as real / Modulus as real;
      q as real + r as real / Modulus as real;
    }
  }

  /** The first `k` values the stream returns from state `s`. */
  function Values(s: nat, k: nat): (vs: seq<real>)
    ensures |vs| == k
    decreases k
  {
    if k == 0 then [] else [Fraction(Step(s))] + Values(Step(s), k - 1)
  }

  /** Every value the stream returns lies in `[0, 1)`, whatever the seed. */
  lemma {:induction false} ValuesInUnitInterval(s: nat, k: nat)
    ensures forall i :: 0 <= i < k ==> 0.0 <= Values(s, k)[i] < 1.0
    decreases k
  {
    if k > 0 {
      ValuesInUnitInterval(Step(s), k - 1);
      assert Values(s, k) == [Fraction(Step(s))] + Values(Step(s), k - 1);
    }
  }

  /**
   * The outputs of `n` successive steps over `xs[0 .. n - 1]` that share one
   * stream: step `k` sees the state the steps before it left, and the state
   * after the last is returned.
   */
  function Thread<X, T>(s: nat, xs: seq<X>, n: nat, step: (nat, X, nat) -> (T, nat)): (r: (seq<T>, nat))
    requires n <= |xs|
    ensures |r.0| == n
  {
    if n == 0 then ([], s)
    else
      var (ts, s1) := Thread(s, xs, n - 1, step);
      var (t, s2) := step(s1, xs[n - 1], n - 1);
      (ts + [t], s2)
  }

  /** Output `k` is step `k` applied to the state the first `k` steps leave. */
  lemma ThreadAt<X, T>(s: nat, xs: seq<X>, n: nat, step: (nat, X, nat) -> (T, nat))
    requires n <= |xs|
    ensures forall k :: 0 <= k < n ==> Thread(s, xs, n, step).0[k] == step(Thread(s, xs, k, step).1, xs[k], k).0
  {
    forall k | 0 <= k < n
      ensures Thread(s, xs, n, step).0[k] == step(Thread(s, xs, k, step).1, xs[k], k).0
    {
      ThreadOne(s, xs, n, step, k);
    }
  }

  /** The `k`-th value is the step applied to the `k`-th item from the state the first `k` steps leave. */
  lemma {:induction false} ThreadOne<X, T>(s: nat, xs: seq<X>, n: nat, step: (nat, X, nat) -> (T, nat), k: nat)
    requires k < n <= |xs|
    ensures Thread(s, xs, n, step).0[k] == step(Thread(s, xs, k, step).1, xs[k], k).0
    decreases n
  {
    var before := Thread(s, xs, n - 1, step);
    var last := step(before.1, xs[n - 1], n - 1);
    assert Thread(s, xs, n, step).0 == before.0 + [last.0];
    if k < n - 1 {
      ThreadOne(s, xs, n - 1, step, k);
      assert Thread(s, xs, n, step).0[k] == before.0[k];
    }
  }

  /** The closure `random` returned by `seedRandom(seed)`. */
  class Generator {
    var seed: nat

    constructor (initial: nat)
      ensures seed == initial
    {
      seed := initial;
    }

    /** `random()`. */
    method Next() returns (v: real)
      modifies this
      ensures seed == Step(old(seed)) && v == Fraction(seed)
      ensures 0.0 <= v < 1.0
    {
      seed := (seed * Multiplier + Increment) % Modulus;
      v := seed as real / Modulus as real;
    }

    /** `Math.floor(random() * n)`. */
    method Floor(n: int) returns (k: int)
      modifies this
      ensures (k, seed) == Below(old(seed), n)
      ensures n > 0 ==> 0 <= k < n
    {
      BelowBounds(old(seed), n);
      var v := Next();
      k := (v * n as real).Floor;
      FloorOfScaled(seed, n);
    }

    /** `random() > 0.7`. */
    method Over() returns (b: bool)
      modifies this
      ensures (b, seed) == Chance(old(seed))
    {
      var v := Next();
      b := v > 0.7;
    }
  }
}
