/** The greatest note-head-assignable duration not greater than a prolated
    duration: keep the numerator, widen the denominator to a power of two,
    then count the numerator down until the candidate can be written with a
    single note head (possibly dotted). */
module ProlatedToWritten {
  import opened Common

  // ----------------------------------------------------------------------
  // Assignability

  /** The binary numeral of `m` is all ones: `m == 2^a - 1`. */
  predicate AllOnes(m: int)
    decreases if m > 0 then m else 0
  {
    m == 1 || (m > 1 && m % 2 == 1 && AllOnes(m / 2))
  }

  /** The binary numeral of `m` is ones followed by zeros: a note value with
      dots, `m == 2^a - 2^b`. */
  predicate IsAssignableInteger(m: int)
    decreases if m > 0 then m else 0
  {
    m >= 1 && (if m % 2 == 0 then IsAssignableInteger(m / 2) else AllOnes(m))
  }

  /** `is_assignable_duration` on a duration `p/q` whose denominator is a
      power of two: its numerator is assignable. Doubling numerator and
      denominator does not change the answer (`AssignableDouble`), so it does
      not matter whether `p/q` is in lowest terms. */
  predicate IsAssignable(p: int, q: int)
  {
    IsPowerOfTwo(q) && IsAssignableInteger(p)
  }

  /** `is_assignable_duration` on any rational `n/d`: in lowest terms its
      denominator is a power of two and its numerator is assignable. */
  predicate IsAssignableDuration(n: int, d: int)
    requires d >= 1
  {
    GcdPositive(Abs(n), d);
    var g := Gcd(Abs(n), d);
    IsAssignable(n / g, d / g)
  }

  lemma AssignableDouble(m: int)
    ensures IsAssignableInteger(2 * m) <==> IsAssignableInteger(m)
  {
    if m >= 1 {
      assert (2 * m) % 2 == 0 && (2 * m) / 2 == m;
    }
  }

  lemma {:induction false} AllOnesForm(a: nat)
    requires a >= 1
    ensures AllOnes(Pow2(a) - 1)
    decreases a
  {
    if a > 1 {
      AllOnesForm(a - 1);
      assert (Pow2(a) - 1) / 2 == Pow2(a - 1) - 1;
    }
  }

  /** Every `2^a - 2^b` with `a > b` is assignable. */
  lemma {:induction false} AssignableForm(a: nat, b: nat)
    requires a > b
    ensures IsAssignableInteger(Pow2(a) - Pow2(b))
    decreases b
  {
    if b == 0 {
      AllOnesAssignable(a);
    } else {
      AssignableForm(a - 1, b - 1);
      var x := Pow2(a - 1) - Pow2(b - 1);
      assert Pow2(a) == 2 * Pow2(a - 1) && Pow2(b) == 2 * Pow2(b - 1);
      assert Pow2(a) - Pow2(b) == 2 * x;
      AssignableDouble(x);
    }
  }

  /** `2^a - 1`, all ones in binary, is assignable. */
  lemma AllOnesAssignable(a: nat)
    requires a >= 1
    ensures IsAssignableInteger(Pow2(a) - 1)
  {
    AllOnesForm(a);
    var m := Pow2(a) - 1;
    assert Pow2(a) == 2 * Pow2(a - 1);
    assert m % 2 == 1;
  }

  lemma {:induction false} AllOnesIsForm(m: int) returns (a: nat)
    requires AllOnes(m)
    ensures a >= 1 && m == Pow2(a) - 1
    decreases if m > 0 then m else 0
  {
    if m == 1 {
      a := 1;
    } else {
      var a' := AllOnesIsForm(m / 2);
      a := a' + 1;
    }
  }

  /** Only the numbers `2^a - 2^b` with `a > b` are assignable. */
  lemma {:induction false} AssignableIsForm(m: int) returns (a: nat, b: nat)
    requires IsAssignableInteger(m)
    ensures a > b && m == Pow2(a) - Pow2(b)
    decreases if m > 0 then m else 0
  {
    if m % 2 == 0 {
      var a', b' := AssignableIsForm(m / 2);
      a, b := a' + 1, b' + 1;
    } else {
      a := AllOnesIsForm(m);
      b := 0;
    }
  }

  lemma {:induction false} Pow2Monotone(i: nat, j: nat)
    requires i <= j
    ensures Pow2(i) <= Pow2(j)
    decreases j
  {
    if i < j {
      Pow2Monotone(i, j - 1);
    }
  }

  /** Powers of two are ordered as their exponents. */
  lemma {:induction false} Pow2Below(i: nat, j: nat)
    requires Pow2(i) < Pow2(j)
    ensures i < j
    decreases i
  {
    if i > 0 {
      assert Pow2(j) > 1;
      Pow2Below(i - 1, j - 1);
    }
  }

  // ----------------------------------------------------------------------
  // The widened denominator

  function LeastPowerOfTwoFrom(p: int, d: int): (r: int)
    requires p >= 1 && IsPowerOfTwo(p)
    ensures IsPowerOfTwo(r) && r >= d && r >= p
    ensures r == p || r / 2 < d
    decreases d - p
  {
    if p >= d then p
    else
      assert IsPowerOfTwo(2 * p) by { assert (2 * p) / 2 == p; }
      LeastPowerOfTwoFrom(2 * p, d)
  }

  /** `mathtools.least_power_of_two_greater_equal`. */
  function LeastPowerOfTwoAtLeast(d: int): (r: int)
    ensures IsPowerOfTwo(r) && r >= d
    ensures r == 1 || r / 2 < d
  {
    LeastPowerOfTwoFrom(1, d)
  }

  /** No power of two at least `d` is smaller. */
  lemma LeastPowerOfTwoIsLeast(d: int, q: int)
    requires IsPowerOfTwo(q) && q >= d
    ensures LeastPowerOfTwoAtLeast(d) <= q
  {
    var r := LeastPowerOfTwoAtLeast(d);
    var i := PowerOfTwoIsPow2(r);
    var j := PowerOfTwoIsPow2(q);
    if i > 0 {
      assert r / 2 == Pow2(i - 1);
      Pow2Below(i - 1, j);
      Pow2Monotone(i, j);
    }
  }

  lemma PowerOfTwoIsItsOwnLeast(d: int)
    requires IsPowerOfTwo(d)
    ensures LeastPowerOfTwoAtLeast(d) == d
  {
    LeastPowerOfTwoIsLeast(d, d);
  }

  // ----------------------------------------------------------------------
  // The search

  /** The greatest assignable integer not greater than `k`. */
  function GreatestAssignableAtMost(k: int): (m: int)
    requires k >= 1
    ensures 1 <= m <= k && IsAssignableInteger(m)
    ensures forall j :: m < j <= k ==> !IsAssignableInteger(j)
    decreases k
  {
    if IsAssignableInteger(k) then k
    else
      assert k != 1;
      GreatestAssignableAtMost(k - 1)
  }

  lemma {:induction false} GreatestAssignableAtMostMonotone(k: int, l: int)
    requires 1 <= k <= l
    ensures GreatestAssignableAtMost(k) <= GreatestAssignableAtMost(l)
  {
  }

  lemma MulLe(a: int, b: int, c: int)
    requires a >= 0 && b <= c
    ensures a * b <= a * c
  {
  }

  /** Every `k` up to `x / d` has `k * d <= x`. */
  lemma FloorBelow(x: int, d: int, k: int)
    requires d >= 1 && k <= x / d
    ensures k * d <= x
  {
    MulLe(d, k, x / d);
  }

  /** Every `k` beyond `x / d` has `k * d > x`. */
  lemma FloorAbove(x: int, d: int, k: int)
    requires d >= 1 && k > x / d
    ensures k * d > x
  {
    MulLe(d, x / d + 1, k);
  }

  lemma MulCancelLe(a: int, b: int, d: int)
    requires d >= 1 && a * d <= b * d
    ensures a <= b
  {
  }

  lemma MulCancelLt(a: int, b: int, d: int)
    requires d >= 1 && a * d < b * d
    ensures a < b
  {
  }

  /** `k * d <= x` bounds `k` by the floor of `x / d`. */
  lemma FloorAtLeast(x: int, d: int, k: int)
    requires d >= 1 && k * d <= x
    ensures k <= x / d
  {
    var q := x / d;
    assert x == q * d + x % d;
    assert (q + 1) * d == q * d + d;
    MulCancelLt(k, q + 1, d);
  }

  /** A smaller numerator over a larger denominator is a smaller value. */
  lemma SmallerOverLarger(m: int, D: int, n: int, d: int)
    requires 1 <= m <= n && 1 <= d <= D
    ensures m as real / D as real <= n as real / d as real
  {
    MulLe(d, m, n);
    MulLe(n, d, D);
    CrossMultiply(m, D, n, d);
  }

  /** `a/b <= c/e` compared by cross-multiplying positive denominators. */
  lemma CrossMultiply(a: int, b: int, c: int, e: int)
    requires b >= 1 && e >= 1
    ensures a as real / b as real <= c as real / e as real <==> a * e <= c * b
  {
    var x, y := a as real / b as real, c as real / e as real;
    assert x * b as real == a as real;
    assert y * e as real == c as real;
    assert (a * e) as real == x * (b as real * e as real);
    assert (c * b) as real == y * (b as real * e as real);
  }

  /** The value the function returns for `n/d`, as the loop leaves it. */
  function WrittenValue(n: int, d: int): real
    requires n >= 1
  {
    GreatestAssignableAtMost(n) as real / LeastPowerOfTwoAtLeast(d) as real
  }

  /** The loop as written: the numerator counts down from the input's own
      numerator. */
  method ProlatedToWrittenNotGreaterThan(n: int, d: int) returns (m: int, D: int)
    requires n >= 1 && Reduced(n, d)
    ensures D == LeastPowerOfTwoAtLeast(d) && m == GreatestAssignableAtMost(n)
    ensures IsAssignable(m, D)
    ensures m as real / D as real <= n as real / d as real
    ensures forall k :: m < k <= n ==> !IsAssignable(k, D)
  {
    D := LeastPowerOfTwoAtLeast(d);
    m := n;
    while !IsAssignable(m, D)
      invariant 1 <= m <= n
      invariant GreatestAssignableAtMost(m) == GreatestAssignableAtMost(n)
      invariant forall k :: m < k <= n ==> !IsAssignable(k, D)
      decreases m
    {
      assert m != 1;
      m := m - 1;
    }
    SmallerOverLarger(m, D, n, d);
  }

  /** An assignable input whose denominator is already a power of two comes
      back unchanged. */
  lemma AssignableInputUnchanged(n: int, d: int)
    requires n >= 1 && IsAssignable(n, d)
    ensures LeastPowerOfTwoAtLeast(d) == d && GreatestAssignableAtMost(n) == n
    ensures WrittenValue(n, d) == n as real / d as real
  {
    PowerOfTwoIsItsOwnLeast(d);
  }

  /** The sixteen rows of the table in the function's documentation, for the
      inputs `1/16` to `16/16` in lowest terms. */
  lemma DocTable()
    ensures WrittenValue(1, 16) == 1.0 / 16.0
    ensures WrittenValue(1, 8) == 1.0 / 8.0
    ensures WrittenValue(3, 16) == 3.0 / 16.0
    ensures WrittenValue(1, 4) == 1.0 / 4.0
    ensures WrittenValue(5, 16) == 1.0 / 4.0
    ensures WrittenValue(3, 8) == 3.0 / 8.0
    ensures WrittenValue(7, 16) == 7.0 / 16.0
    ensures WrittenValue(1, 2) == 1.0 / 2.0
    ensures WrittenValue(9, 16) == 1.0 / 2.0
    ensures WrittenValue(5, 8) == 1.0 / 2.0
    ensures WrittenValue(11, 16) == 1.0 / 2.0
    ensures WrittenValue(3, 4) == 3.0 / 4.0
    ensures WrittenValue(13, 16) == 3.0 / 4.0
    ensures WrittenValue(7, 8) == 7.0 / 8.0
    ensures WrittenValue(15, 16) == 15.0 / 16.0
    ensures WrittenValue(1, 1) == 1.0
  {
    assert LeastPowerOfTwoAtLeast(16) == 16 by { PowerOfTwoIsItsOwnLeast(16); }
    assert LeastPowerOfTwoAtLeast(8) == 8 by { PowerOfTwoIsItsOwnLeast(8); }
    assert LeastPowerOfTwoAtLeast(4) == 4 by { PowerOfTwoIsItsOwnLeast(4); }
    assert LeastPowerOfTwoAtLeast(2) == 2 by { PowerOfTwoIsItsOwnLeast(2); }
    assert LeastPowerOfTwoAtLeast(1) == 1 by { PowerOfTwoIsItsOwnLeast(1); }
  }

  // ----------------------------------------------------------------------
  // Finding: the search starts too low

  /** For `5/12` the denominator widens to 16 but the search starts at
      `5/16`, so the assignable `6/16 = 3/8`, which does not exceed `5/12`,
      is never tried: the result is `1/4`. Since `3/8` itself maps to `3/8`,
      the output also drops while the input grows. */
  lemma AsWrittenSkipsCandidates()
    ensures Reduced(5, 12) && Reduced(3, 8)
    ensures WrittenValue(5, 12) == 1.0 / 4.0
    ensures IsAssignable(6, 16) && 6.0 / 16.0 <= 5.0 / 12.0 && 6.0 / 16.0 > WrittenValue(5, 12)
    ensures 3.0 / 8.0 <= 5.0 / 12.0 && WrittenValue(3, 8) > WrittenValue(5, 12)
  {
    assert LeastPowerOfTwoAtLeast(12) == 16 by {
      assert LeastPowerOfTwoFrom(16, 12) == 16;
    }
    PowerOfTwoIsItsOwnLeast(8);
  }

  /** The numerator the search should start from: the greatest multiple of
      `1/D` not above `n/d` has numerator `floor(n * D / d)`. */
  function CorrectedStart(n: int, d: int): (k: int)
    requires n >= 1 && d >= 1
    ensures k >= n && k >= 1
  {
    var D := LeastPowerOfTwoAtLeast(d);
    assert n * D >= n * d by { MulLe(n, d, D); }
    assert n <= (n * D) / d by { FloorAbove(n * D, d, n * D / d + 1); if n > (n * D) / d { FloorAbove(n * D, d, n); } }
    (n * D) / d
  }

  function CorrectedValue(n: int, d: int): real
    requires n >= 1 && d >= 1
  {
    GreatestAssignableAtMost(CorrectedStart(n, d)) as real / LeastPowerOfTwoAtLeast(d) as real
  }

  /** The corrected search: the result is the greatest assignable multiple of
      `1/D` that does not exceed `n/d`. */
  method CorrectedProlatedToWritten(n: int, d: int) returns (m: int, D: int)
    requires n >= 1 && Reduced(n, d)
    ensures D == LeastPowerOfTwoAtLeast(d) && m == GreatestAssignableAtMost(CorrectedStart(n, d))
    ensures IsAssignable(m, D)
    ensures m as real / D as real <= n as real / d as real
    ensures forall k :: m < k && IsAssignable(k, D) ==> k as real / D as real > n as real / d as real
  {
    D := LeastPowerOfTwoAtLeast(d);
    var start := CorrectedStart(n, d);
    m := start;
    while !IsAssignable(m, D)
      invariant 1 <= m <= start
      invariant GreatestAssignableAtMost(m) == GreatestAssignableAtMost(start)
      invariant forall k :: m < k <= start ==> !IsAssignable(k, D)
      decreases m
    {
      assert m != 1;
      m := m - 1;
    }
    FloorBelow(n * D, d, m);
    CrossMultiply(m, D, n, d);
    forall k | m < k && IsAssignable(k, D)
      ensures k as real / D as real > n as real / d as real
    {
      FloorAbove(n * D, d, k);
      CrossMultiply(k, D, n, d);
    }
  }

  /** The corrected result never exceeds the input and is assignable. */
  lemma CorrectedBounds(n: int, d: int)
    requires n >= 1 && d >= 1
    ensures CorrectedValue(n, d) <= n as real / d as real
    ensures IsAssignable(GreatestAssignableAtMost(CorrectedStart(n, d)), LeastPowerOfTwoAtLeast(d))
  {
    var D := LeastPowerOfTwoAtLeast(d);
    var m := GreatestAssignableAtMost(CorrectedStart(n, d));
    FloorBelow(n * D, d, m);
    CrossMultiply(m, D, n, d);
  }

  /** Among inputs that widen to the same denominator, the corrected result
      grows with the input. */
  lemma CorrectedMonotone(n1: int, d1: int, n2: int, d2: int)
    requires n1 >= 1 && d1 >= 1 && n2 >= 1 && d2 >= 1
    requires LeastPowerOfTwoAtLeast(d1) == LeastPowerOfTwoAtLeast(d2)
    requires n1 as real / d1 as real <= n2 as real / d2 as real
    ensures CorrectedValue(n1, d1) <= CorrectedValue(n2, d2)
  {
    var D := LeastPowerOfTwoAtLeast(d1);
    var s1, s2 := CorrectedStart(n1, d1), CorrectedStart(n2, d2);
    CorrectedStartMonotone(n1, d1, n2, d2, D);
    GreatestAssignableAtMostMonotone(s1, s2);
    var g1, g2 := GreatestAssignableAtMost(s1), GreatestAssignableAtMost(s2);
    MulLe(D, g1, g2);
    CrossMultiply(g1, D, g2, D);
  }

  lemma CorrectedStartMonotone(n1: int, d1: int, n2: int, d2: int, D: int)
    requires n1 >= 1 && d1 >= 1 && n2 >= 1 && d2 >= 1 && D >= 1
    requires n1 as real / d1 as real <= n2 as real / d2 as real
    ensures (n1 * D) / d1 <= (n2 * D) / d2
  {
    var s1 := (n1 * D) / d1;
    CrossMultiply(n1, d1, n2, d2);
    FloorBelow(n1 * D, d1, s1);
    MulLe(d2, s1 * d1, n1 * D);
    MulLe(D, n1 * d2, n2 * d1);
    Rearrange(s1, d1, d2, n1, n2, D);
    MulCancelLe(s1 * d2, n2 * D, d1);
    FloorAtLeast(n2 * D, d2, s1);
  }

  lemma Rearrange(s1: int, d1: int, d2: int, n1: int, n2: int, D: int)
    requires d2 * (s1 * d1) <= d2 * (n1 * D)
    requires D * (n1 * d2) <= D * (n2 * d1)
    ensures (s1 * d2) * d1 <= (n2 * D) * d1
  {
    assert d2 * (s1 * d1) == (s1 * d2) * d1;
    assert d2 * (n1 * D) == D * (n1 * d2);
    assert D * (n2 * d1) == (n2 * D) * d1;
  }

  /** With the corrected start, `5/12` gives `3/8`. */
  lemma CorrectedExample()
    ensures CorrectedValue(5, 12) == 3.0 / 8.0
  {
    assert LeastPowerOfTwoAtLeast(12) == 16 by {
      assert LeastPowerOfTwoFrom(16, 12) == 16;
    }
    assert CorrectedStart(5, 12) == 6;
  }

  /** Fixing the denominator first still costs monotonicity across
      denominators: `3/16 <= 1/5`, yet `1/5` widens only to eighths and gives
      `1/8`, below `3/16`. */
  lemma CorrectedNotMonotoneAcrossDenominators()
    ensures Reduced(3, 16) && Reduced(1, 5)
    ensures 3.0 / 16.0 <= 1.0 / 5.0
    ensures CorrectedValue(3, 16) == 3.0 / 16.0 && CorrectedValue(1, 5) == 1.0 / 8.0
  {
    PowerOfTwoIsItsOwnLeast(16);
    assert LeastPowerOfTwoAtLeast(5) == 8 by {
      assert LeastPowerOfTwoFrom(8, 5) == 8;
    }
    assert CorrectedStart(3, 16) == 3;
    assert CorrectedStart(1, 5) == 1;
    assert IsAssignableInteger(3) && IsAssignableInteger(1);
    assert GreatestAssignableAtMost(3) == 3;
    assert GreatestAssignableAtMost(1) == 1;
  }
}
