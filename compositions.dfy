/** All compositions of a positive integer `n`: every way of writing `n` as
    an ordered sum of positive parts.  They are enumerated as the run lengths
    of the `n`-digit binary numerals of `0 .. 2^(n-1) - 1` and listed in
    descending lexicographic order. */
module Compositions {
  import opened Common

  // ----------------------------------------------------------------------
  // Binary numerals

  /** The `n`-digit binary numeral of `x`, most significant digit first,
      `true` for a one: `integer_to_binary_string(x).zfill(n)` for
      `x < 2^n`. */
  function Bits(x: nat, n: nat): (s: seq<bool>)
    ensures |s| == n
  {
    if n == 0 then [] else Bits(x / 2, n - 1) + [x % 2 == 1]
  }

  /** The number a numeral stands for. */
  function FromBits(s: seq<bool>): nat
  {
    if |s| == 0 then 0 else 2 * FromBits(s[..|s| - 1]) + (if s[|s| - 1] then 1 else 0)
  }

  lemma {:induction false} FromBitsBound(s: seq<bool>)
    ensures FromBits(s) < Pow2(|s|)
    decreases |s|
  {
    if |s| > 0 {
      FromBitsBound(s[..|s| - 1]);
    }
  }

  /** Reading a numeral and writing it back with as many digits gives the
      same numeral. */
  lemma {:induction false} BitsFromBits(s: seq<bool>)
    ensures Bits(FromBits(s), |s|) == s
    decreases |s|
  {
    if |s| > 0 {
      var p := s[..|s| - 1];
      BitsFromBits(p);
      assert FromBits(s) / 2 == FromBits(p);
      assert s == p + [s[|s| - 1]];
    }
  }

  /** Writing a number below `2^n` with `n` digits and reading it back gives
      the number. */
  lemma {:induction false} FromBitsBits(x: nat, n: nat)
    requires x < Pow2(n)
    ensures FromBits(Bits(x, n)) == x
    decreases n
  {
    if n > 0 {
      FromBitsBits(x / 2, n - 1);
      assert Bits(x, n)[..n - 1] == Bits(x / 2, n - 1);
    }
  }

  /** The leading digit of an `n`-digit numeral is a zero exactly for the
      numbers below `2^(n-1)`. */
  lemma {:induction false} LeadingBit(x: nat, n: nat)
    requires 1 <= n && x < Pow2(n)
    ensures Bits(x, n)[0] <==> x >= Pow2(n - 1)
    decreases n
  {
    if n > 1 {
      LeadingBit(x / 2, n - 1);
      assert Bits(x, n)[0] == Bits(x / 2, n - 1)[0];
    }
  }

  // ----------------------------------------------------------------------
  // Runs

  /** The lengths of the maximal runs of equal digits, left to right:
      what `itertools.groupby` and `len` make of a numeral. */
  function Runs(s: seq<bool>): (r: seq<int>)
    ensures |r| > 0 <==> |s| > 0
    ensures |r| <= |s|
    decreases |s|
  {
    if |s| == 0 then []
    else
      var p := Runs(s[..|s| - 1]);
      if |s| > 1 && s[|s| - 2] == s[|s| - 1] then p[..|p| - 1] + [p[|p| - 1] + 1]
      else p + [1]
  }

  ghost predicate AllPositive(c: seq<int>)
  {
    forall i :: 0 <= i < |c| ==> c[i] >= 1
  }

  /** `c` is a composition of `n`: positive parts adding up to `n`. */
  ghost predicate IsComposition(c: seq<int>, n: int)
  {
    AllPositive(c) && SumInts(c) == n
  }

  /** Every run is at least one digit long and the runs add up to the
      numeral's length. */
  lemma {:induction false} RunsIsComposition(s: seq<bool>)
    ensures IsComposition(Runs(s), |s|)
    decreases |s|
  {
    if |s| > 0 {
      var p := Runs(s[..|s| - 1]);
      RunsIsComposition(s[..|s| - 1]);
      if |s| > 1 && s[|s| - 2] == s[|s| - 1] {
        var q := p[..|p| - 1];
        assert p == q + [p[|p| - 1]];
        SumIntsAppend(q, [p[|p| - 1]]);
        SumIntsAppend(q, [p[|p| - 1] + 1]);
        assert SumInts([p[|p| - 1]]) == p[|p| - 1];
        assert SumInts([p[|p| - 1] + 1]) == p[|p| - 1] + 1;
      } else {
        SumIntsAppend(p, [1]);
        assert SumInts([1]) == 1;
      }
    }
  }

  lemma {:induction false} RunsLastPositive(s: seq<bool>)
    requires |s| > 0
    ensures Runs(s)[|Runs(s)| - 1] >= 1
    decreases |s|
  {
    if |s| > 1 && s[|s| - 2] == s[|s| - 1] {
      RunsLastPositive(s[..|s| - 1]);
    }
  }

  /** `m` copies of `v`; none when `m` is not positive. */
  function Repeat(v: bool, m: int): (s: seq<bool>)
    ensures |s| == if m > 0 then m else 0
    ensures m > 0 ==> s[0] == v && s[m - 1] == v
    decreases m
  {
    if m <= 0 then [] else Repeat(v, m - 1) + [v]
  }

  /** The numeral whose runs are `c` and whose last run has digit `w`: the
      inverse of `Runs`. */
  ghost function Expand(c: seq<int>, w: bool): (s: seq<bool>)
    ensures |c| > 0 && c[|c| - 1] > 0 ==> |s| > 0 && s[|s| - 1] == w
  {
    if |c| == 0 then []
    else Expand(c[..|c| - 1], !w) + Repeat(w, c[|c| - 1])
  }

  lemma ExpandStep(c: seq<int>, w: bool)
    requires |c| > 0
    ensures Expand(c, w) == Expand(c[..|c| - 1], !w) + Repeat(w, c[|c| - 1])
  {
  }

  lemma {:induction false} ExpandLength(c: seq<int>, w: bool)
    requires AllPositive(c)
    ensures |Expand(c, w)| == SumInts(c)
    decreases |c|
  {
    if |c| > 0 {
      ExpandLength(c[..|c| - 1], !w);
    }
  }

  /** The digit of the first of `k` alternating runs whose last run has
      digit `w`. */
  function FirstDigit(k: nat, w: bool): bool
  {
    if k <= 1 then w else FirstDigit(k - 1, !w)
  }

  lemma {:induction false} FirstDigitFlip(k: nat, w: bool)
    ensures FirstDigit(k, !w) == !FirstDigit(k, w)
    decreases k
  {
    if k > 1 {
      FirstDigitFlip(k - 1, !w);
    }
  }

  lemma {:induction false} ExpandFirst(c: seq<int>, w: bool)
    requires AllPositive(c) && |c| > 0
    ensures |Expand(c, w)| > 0 && Expand(c, w)[0] == FirstDigit(|c|, w)
    decreases |c|
  {
    var p := c[..|c| - 1];
    ExpandStep(c, w);
    if |p| > 0 {
      ExpandFirst(p, !w);
    }
  }

  /** Appending one more element to a sequence and splitting it again. */
  lemma RunsAppendFirst(a: seq<bool>, w: bool)
    requires |a| == 0 || a[|a| - 1] != w
    ensures Runs(a + Repeat(w, 1)) == Runs(a) + [1]
  {
    var s := a + Repeat(w, 1);
    assert Repeat(w, 1) == [w];
    FrontOfAppend(a, w);
    RunsStartsNewRun(s);
  }

  lemma RunsAppendMore(a: seq<bool>, w: bool, m: nat)
    requires m >= 2
    requires Runs(a + Repeat(w, m - 1)) == Runs(a) + [m - 1]
    ensures Runs(a + Repeat(w, m)) == Runs(a) + [m]
  {
    var t := a + Repeat(w, m - 1);
    AppendAssoc(a, Repeat(w, m - 1), w);
    var s := t + [w];
    FrontOfAppend(t, w);
    RunsExtendsLastRun(s);
    FrontOfAppend(Runs(a), m - 1);
  }

  /** A run appended after a different digit becomes a run of its own. */
  lemma {:induction false} RunsAppendRun(a: seq<bool>, w: bool, m: nat)
    requires m >= 1
    requires |a| == 0 || a[|a| - 1] != w
    ensures Runs(a + Repeat(w, m)) == Runs(a) + [m]
    decreases m
  {
    if m == 1 {
      RunsAppendFirst(a, w);
    } else {
      RunsAppendRun(a, w, m - 1);
      RunsAppendMore(a, w, m);
    }
  }

  /** A first digit, or one that differs from its predecessor, starts a new
      run of length one. */
  lemma RunsStartsNewRun(s: seq<bool>)
    requires |s| > 0 && (|s| == 1 || s[|s| - 2] != s[|s| - 1])
    ensures Runs(s) == Runs(s[..|s| - 1]) + [1]
  {
  }

  /** A digit equal to its predecessor lengthens the last run by one. */
  lemma RunsExtendsLastRun(s: seq<bool>)
    requires |s| > 1 && s[|s| - 2] == s[|s| - 1]
    ensures var p := Runs(s[..|s| - 1]); Runs(s) == p[..|p| - 1] + [p[|p| - 1] + 1]
  {
  }

  /** `Runs` undoes `Expand`: run lengths come back unchanged. */
  lemma {:induction false} RunsExpand(c: seq<int>, w: bool)
    requires AllPositive(c)
    ensures Runs(Expand(c, w)) == c
    decreases |c|
  {
    if |c| > 0 {
      var p := c[..|c| - 1];
      RunsExpand(p, !w);
      RunsExpandStep(c, w);
    }
  }

  lemma RunsExpandStep(c: seq<int>, w: bool)
    requires AllPositive(c) && |c| > 0
    requires Runs(Expand(c[..|c| - 1], !w)) == c[..|c| - 1]
    ensures Runs(Expand(c, w)) == c
  {
    var p := c[..|c| - 1];
    var e := Expand(p, !w);
    var m := c[|c| - 1];
    assert m >= 1;
    ExpandStep(c, w);
    assert |p| > 0 ==> p[|p| - 1] > 0;
    RunsAppendRun(e, w, m);
    SplitLast(c);
  }

  /** `Expand` undoes `Runs`: a numeral is rebuilt from its run lengths and
      last digit. */
  lemma {:induction false} ExpandRuns(s: seq<bool>)
    requires |s| > 0
    ensures Expand(Runs(s), s[|s| - 1]) == s
    decreases |s|
  {
    var n := |s|;
    if n == 1 {
      ExpandRunsOne(s);
    } else {
      var front := s[..n - 1];
      ExpandRuns(front);
      assert front[|front| - 1] == s[n - 2];
      if s[n - 2] == s[n - 1] {
        ExpandRunsExtend(s);
      } else {
        ExpandRunsNew(s);
      }
    }
  }

  lemma ExpandRunsOne(s: seq<bool>)
    requires |s| == 1
    ensures Expand(Runs(s), s[0]) == s
  {
    var w := s[0];
    assert s[..0] == [];
    assert Runs(s) == [1];
    assert [1][..0] == [];
    assert Repeat(w, 1) == [w];
    assert Expand([1], w) == Expand([], !w) + Repeat(w, 1);
    assert s == [w];
  }

  /** `Expand` takes the last run off and repeats its digit. */
  lemma ExpandLast(q: seq<int>, m: int, w: bool)
    ensures Expand(q + [m], w) == Expand(q, !w) + Repeat(w, m)
  {
    FrontOfAppend(q, m);
    ExpandStep(q + [m], w);
  }

  lemma RepeatStep(w: bool, m: nat)
    ensures Repeat(w, m + 1) == Repeat(w, m) + [w]
  {
  }

  lemma ExpandRunsExtend(s: seq<bool>)
    requires |s| > 1 && s[|s| - 2] == s[|s| - 1]
    requires Expand(Runs(s[..|s| - 1]), s[|s| - 2]) == s[..|s| - 1]
    ensures Expand(Runs(s), s[|s| - 1]) == s
  {
    ExpandRunsExtendStep(s);
    SplitLast(s);
  }

  /** Lengthening the last run appends one more copy of its digit. */
  lemma ExpandRunsExtendStep(s: seq<bool>)
    requires |s| > 1 && s[|s| - 2] == s[|s| - 1]
    ensures Expand(Runs(s), s[|s| - 1]) == Expand(Runs(s[..|s| - 1]), s[|s| - 1]) + [s[|s| - 1]]
  {
    var b := s[|s| - 1];
    var p := Runs(s[..|s| - 1]);
    RunsLastPositive(s[..|s| - 1]);
    var q, top := p[..|p| - 1], p[|p| - 1];
    calc {
      Expand(Runs(s), b);
    == { RunsExtendsLastRun(s); }
      Expand(q + [top + 1], b);
    == { ExpandLast(q, top + 1, b); }
      Expand(q, !b) + Repeat(b, top + 1);
    == { RepeatStep(b, top); AppendAssoc(Expand(q, !b), Repeat(b, top), b); }
      (Expand(q, !b) + Repeat(b, top)) + [b];
    == { SplitLast(p); ExpandLast(q, top, b); }
      Expand(p, b) + [b];
    }
  }

  lemma ExpandRunsNew(s: seq<bool>)
    requires |s| > 1 && s[|s| - 2] != s[|s| - 1]
    requires Expand(Runs(s[..|s| - 1]), s[|s| - 2]) == s[..|s| - 1]
    ensures Expand(Runs(s), s[|s| - 1]) == s
  {
    ExpandRunsNewStep(s);
    SplitLast(s);
  }

  /** A new run of length one appends its digit after the runs before it,
      whose last digit is the other one. */
  lemma ExpandRunsNewStep(s: seq<bool>)
    requires |s| > 1 && s[|s| - 2] != s[|s| - 1]
    ensures Expand(Runs(s), s[|s| - 1]) == Expand(Runs(s[..|s| - 1]), !s[|s| - 1]) + [s[|s| - 1]]
  {
    var b := s[|s| - 1];
    var p := Runs(s[..|s| - 1]);
    RunsStartsNewRun(s);
    ExpandLast(p, 1, b);
    RepeatStep(b, 0);
  }

  // ----------------------------------------------------------------------
  // Enumeration

  /** The composition the loop builds for `x`. */
  function CompositionOf(x: nat, n: nat): seq<int>
  {
    Runs(Bits(x, n))
  }

  /** The compositions in the order the loop appends them. */
  function Enumerate(n: nat): (r: seq<seq<int>>)
    requires n >= 1
    ensures |r| == Pow2(n - 1)
  {
    seq(Pow2(n - 1), x requires 0 <= x < Pow2(n - 1) => CompositionOf(x, n))
  }

  /** Every enumerated sequence is a composition of `n`. */
  lemma EnumerateSound(n: nat, x: nat)
    requires n >= 1 && x < Pow2(n - 1)
    ensures IsComposition(Enumerate(n)[x], n)
  {
    RunsIsComposition(Bits(x, n));
  }

  /** Every composition of `n` is enumerated, at the number whose numeral
      starts with a zero and has its runs. */
  lemma EnumerateComplete(n: nat, c: seq<int>) returns (x: nat)
    requires n >= 1 && IsComposition(c, n)
    ensures x < Pow2(n - 1) && Enumerate(n)[x] == c
  {
    assert |c| > 0;
    var w := FirstDigit(|c|, false);
    FirstDigitFlip(|c|, false);
    var s := Expand(c, w);
    RunsExpand(c, w);
    ExpandFirst(c, w);
    ExpandLength(c, w);
    x := FromBits(s);
    FromBitsBound(s);
    BitsFromBits(s);
    LeadingBit(x, n);
    EnumerateAt(n, x);
  }

  lemma EnumerateAt(n: nat, x: nat)
    requires n >= 1 && x < Pow2(n - 1)
    ensures Enumerate(n)[x] == Runs(Bits(x, n))
  {
  }

  /** No composition is enumerated twice: equal run lengths come from the
      same number. */
  lemma EnumerateInjective(n: nat, x: nat, y: nat)
    requires n >= 1 && x < Pow2(n - 1) && y < Pow2(n - 1)
    requires Enumerate(n)[x] == Enumerate(n)[y]
    ensures x == y
  {
    var sx, sy := Bits(x, n), Bits(y, n);
    EnumerateAt(n, x);
    EnumerateAt(n, y);
    LeadingBit(x, n);
    LeadingBit(y, n);
    var c := Runs(sx);
    RunsIsComposition(sx);
    ExpandRuns(sx);
    ExpandRuns(sy);
    ExpandFirst(c, sx[n - 1]);
    ExpandFirst(c, sy[n - 1]);
    FirstDigitFlip(|c|, sx[n - 1]);
    assert sx == sy;
    FromBitsBits(x, n);
    FromBitsBits(y, n);
  }

  // ----------------------------------------------------------------------
  // Ordering

  /** Python's ordering of tuples: lexicographic, a proper prefix first. */
  predicate LexLe(a: seq<int>, b: seq<int>)
    decreases |a|
  {
    if |a| == 0 then true
    else if |b| == 0 then false
    else if a[0] != b[0] then a[0] < b[0]
    else LexLe(a[1..], b[1..])
  }

  lemma {:induction false} LexLeTotal(a: seq<int>, b: seq<int>)
    ensures LexLe(a, b) || LexLe(b, a)
    decreases |a|
  {
    if |a| > 0 && |b| > 0 && a[0] == b[0] {
      LexLeTotal(a[1..], b[1..]);
    }
  }

  lemma {:induction false} LexLeTrans(a: seq<int>, b: seq<int>, c: seq<int>)
    requires LexLe(a, b) && LexLe(b, c)
    ensures LexLe(a, c)
    decreases |a|
  {
    if |a| > 0 && |b| > 0 && |c| > 0 && a[0] == b[0] && b[0] == c[0] {
      LexLeTrans(a[1..], b[1..], c[1..]);
    }
  }

  lemma {:induction false} LexLeAntisymmetric(a: seq<int>, b: seq<int>)
    requires LexLe(a, b) && LexLe(b, a)
    ensures a == b
    decreases |a|
  {
    if |a| > 0 {
      LexLeAntisymmetric(a[1..], b[1..]);
      assert a == [a[0]] + a[1..] && b == [b[0]] + b[1..];
    }
  }

  function TupleLe(): (seq<int>, seq<int>) -> bool
  {
    (a: seq<int>, b: seq<int>) => LexLe(a, b)
  }

  lemma TupleLeIsTotalPreorder()
    ensures TotalPreorder(TupleLe())
  {
    forall a: seq<int>, b: seq<int>
      ensures LexLe(a, b) || LexLe(b, a)
    {
      LexLeTotal(a, b);
    }
    forall a: seq<int>, b: seq<int>, c: seq<int> | LexLe(a, b) && LexLe(b, c)
      ensures LexLe(a, c)
    {
      LexLeTrans(a, b, c);
    }
  }

  /** What the generator yields: the enumeration sorted and then reversed. */
  function Compositions(n: nat): (r: seq<seq<int>>)
    requires n >= 1
    ensures |r| == Pow2(n - 1)
  {
    TupleLeIsTotalPreorder();
    Reverse(SortBy(Enumerate(n), TupleLe()))
  }

  ghost predicate StrictlyDescending(r: seq<seq<int>>)
  {
    forall i, j :: 0 <= i < j < |r| ==> LexLe(r[j], r[i]) && r[i] != r[j]
  }

  lemma {:induction false} DistinctCountsAtMostOne(s: seq<seq<int>>)
    requires forall i, j :: 0 <= i < j < |s| ==> s[i] != s[j]
    ensures forall c :: multiset(s)[c] <= 1
    decreases |s|
  {
    if |s| > 0 {
      var p := s[..|s| - 1];
      DistinctCountsAtMostOne(p);
      assert s == p + [s[|s| - 1]];
      assert s[|s| - 1] !in p;
    }
  }

  lemma RepeatedCountsTwice(r: seq<seq<int>>, i: nat, j: nat)
    requires i < j < |r| && r[i] == r[j]
    ensures multiset(r)[r[i]] >= 2
  {
    assert r == r[..j] + r[j..];
    assert r[i] in r[..j];
    assert r[j] in r[j..];
  }

  /** The enumeration holds exactly the compositions of `n`. */
  lemma EnumerateMembers(n: nat)
    requires n >= 1
    ensures forall c :: c in Enumerate(n) <==> IsComposition(c, n)
  {
    var e := Enumerate(n);
    forall c
      ensures c in e <==> IsComposition(c, n)
    {
      if c in e {
        var x :| 0 <= x < |e| && e[x] == c;
        EnumerateSound(n, x);
      }
      if IsComposition(c, n) {
        var x := EnumerateComplete(n, c);
      }
    }
  }

  lemma EnumerateDistinct(n: nat)
    requires n >= 1
    ensures forall c :: multiset(Enumerate(n))[c] <= 1
  {
    var e := Enumerate(n);
    forall i, j | 0 <= i < j < |e|
      ensures e[i] != e[j]
    {
      if e[i] == e[j] {
        EnumerateInjective(n, i, j);
        assert false;
      }
    }
    DistinctCountsAtMostOne(e);
  }

  /** Reversing an ascending sort of a list without repetitions gives a
      strictly descending list. */
  lemma ReversedSortDescending(e: seq<seq<int>>)
    requires forall c :: multiset(e)[c] <= 1
    ensures TotalPreorder(TupleLe())
    ensures StrictlyDescending(Reverse(SortBy(e, TupleLe())))
  {
    TupleLeIsTotalPreorder();
    var sorted := SortBy(e, TupleLe());
    var r := Reverse(sorted);
    ReverseMultiset(sorted);
    assert multiset(r) == multiset(e);
    forall i, j | 0 <= i < j < |r|
      ensures LexLe(r[j], r[i]) && r[i] != r[j]
    {
      ReversedPair(sorted, i, j);
      if r[i] == r[j] {
        RepeatedCountsTwice(r, i, j);
        assert false;
      }
    }
  }

  /** In the reverse of an ascending list, later elements are not greater. */
  lemma ReversedPair(s: seq<seq<int>>, i: nat, j: nat)
    requires SortedBy(s, TupleLe())
    requires i < j < |s|
    ensures LexLe(Reverse(s)[j], Reverse(s)[i])
  {
    var a, b := |s| - 1 - j, |s| - 1 - i;
    assert TupleLe()(s[a], s[b]);
  }

  /** The yielded list is strictly descending, holds exactly the
      compositions of `n`, and has `2^(n-1)` of them. */
  lemma CompositionsCorrect(n: nat)
    requires n >= 1
    ensures |Compositions(n)| == Pow2(n - 1)
    ensures forall c :: c in Compositions(n) <==> IsComposition(c, n)
    ensures StrictlyDescending(Compositions(n))
  {
    TupleLeIsTotalPreorder();
    var e := Enumerate(n);
    var sorted := SortBy(e, TupleLe());
    var r := Compositions(n);
    ReverseMultiset(sorted);
    EnumerateMembers(n);
    forall c
      ensures c in r <==> IsComposition(c, n)
    {
      assert c in r <==> c in multiset(r);
      assert c in e <==> c in multiset(e);
    }
    EnumerateDistinct(n);
    ReversedSortDescending(e);
  }

  /** The lengths of the maximal runs of equal bits, counted bit by bit. */
  method RunLengths(l: seq<bool>) returns (sublengths: seq<int>)
    ensures sublengths == Runs(l)
  {
    sublengths := [];
    var i := 0;
    while i < |l|
      invariant 0 <= i <= |l|
      invariant sublengths == Runs(l[..i])
    {
      ghost var next := l[..i + 1];
      assert next[..i] == l[..i] && next[i] == l[i];
      if i > 0 && l[i - 1] == l[i] {
        RunsExtendsLastRun(next);
        sublengths := sublengths[..|sublengths| - 1] + [sublengths[|sublengths| - 1] + 1];
      } else {
        RunsStartsNewRun(next);
        sublengths := sublengths + [1];
      }
      i := i + 1;
    }
    assert l[..|l|] == l;
  }

  /** Yields every composition of `n` in descending lexicographic order. */
  method AllCompositions(n: nat) returns (r: seq<seq<int>>)
    requires n >= 1
    ensures r == Compositions(n)
    ensures |r| == Pow2(n - 1)
    ensures forall c :: c in r <==> IsComposition(c, n)
    ensures StrictlyDescending(r)
  {
    var compositions: seq<seq<int>> := [];
    var x := 0;
    while x < Pow2(n - 1)
      invariant 0 <= x <= Pow2(n - 1)
      invariant compositions == Enumerate(n)[..x]
    {
      var sublengths := RunLengths(Bits(x, n));
      EnumerateAt(n, x);
      PrefixStep(Enumerate(n), x);
      compositions := compositions + [sublengths];
      x := x + 1;
    }
    assert compositions == Enumerate(n);
    TupleLeIsTotalPreorder();
    r := Reverse(SortBy(compositions, TupleLe()));
    CompositionsCorrect(n);
  }
}
