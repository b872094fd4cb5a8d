/** The tie specifier of the rhythm makers: a value object holding four
    optional flags, and the call that ties across division boundaries, ties
    runs of equal consecutive notes, strips ties and switches ties to the
    Messiaen style, in that order. Leaves are abstract (a class and its
    pitches); the divisions are given by the index of the first leaf of
    each; a tie is the inclusive range of leaves it spans. */
module TieSpecifier {
  import opened Common

  // ----------------------------------------------------------------------
  // The specifier

  /** The `tie_across_divisions` argument: `None`, a boolean, a boolean
      vector, or a pattern, given here by the pair indices it matches. */
  datatype TieAcross =
    | NoTieAcross
    | TieAcrossFlag(flag: bool)
    | TieAcrossVector(vector: seq<bool>)
    | TieAcrossPattern(matched: set<nat>)

  datatype Specifier = Specifier(
    stripTies: Option<bool>,
    tieAcrossDivisions: TieAcross,
    tieConsecutiveNotes: Option<bool>,
    useMessiaenStyleTies: Option<bool>)

  /** `__init__`: flags other than `None` become booleans; tying
      consecutive notes and stripping ties together is refused. */
  function New(stripTies: PyValue, tieAcrossDivisions: TieAcross, tieConsecutiveNotes: PyValue,
               useMessiaenStyleTies: PyValue): (r: Result<Specifier>)
    ensures r.Err? <==> Truthy(stripTies) && Truthy(tieConsecutiveNotes)
    ensures r.Err? ==> r.error == PlainException
    ensures r.Ok? ==>
      && r.value.stripTies == CoerceFlag(stripTies)
      && r.value.tieAcrossDivisions == tieAcrossDivisions
      && r.value.tieConsecutiveNotes == CoerceFlag(tieConsecutiveNotes)
      && r.value.useMessiaenStyleTies == CoerceFlag(useMessiaenStyleTies)
      && !(IsSet(r.value.stripTies) && IsSet(r.value.tieConsecutiveNotes))
  {
    var strip := CoerceFlag(stripTies);
    var consecutive := CoerceFlag(tieConsecutiveNotes);
    if IsSet(consecutive) && IsSet(strip) then Err(PlainException)
    else Ok(Specifier(strip, tieAcrossDivisions, consecutive, CoerceFlag(useMessiaenStyleTies)))
  }

  /** The truth value of `tie_across_divisions`; a pattern object is
      true. */
  predicate TieAcrossTruthy(t: TieAcross)
  {
    match t
    case NoTieAcross => false
    case TieAcrossFlag(b) => b
    case TieAcrossVector(v) => |v| > 0
    case TieAcrossPattern(_) => true
  }

  /** Whether the pattern made from the argument matches pair `i`: a
      boolean is the vector of that one value, and a vector repeats with
      its own length as period. */
  predicate MatchesIndex(t: TieAcross, i: nat)
  {
    match t
    case NoTieAcross => false
    case TieAcrossFlag(b) => b
    case TieAcrossVector(v) => |v| > 0 && v[i % |v|]
    case TieAcrossPattern(m) => i in m
  }

  /** Tying across divisions is a no-op unless asked for, and also when
      ties are stripped or consecutive notes are tied. */
  predicate TieAcrossActive(spec: Specifier)
  {
    TieAcrossTruthy(spec.tieAcrossDivisions) && !IsSet(spec.stripTies) && !IsSet(spec.tieConsecutiveNotes)
  }

  // ----------------------------------------------------------------------
  // Leaves and ties

  datatype LeafClass = Note | Chord | Rest | MultimeasureRest | Skip

  /** A leaf: its class and its written pitches (one for a note). */
  datatype Leaf = Leaf(klass: LeafClass, pitches: seq<int>)

  predicate Pitched(x: Leaf)
  {
    x.klass == Note || x.klass == Chord
  }

  predicate IsRest(x: Leaf)
  {
    x.klass == Rest || x.klass == MultimeasureRest
  }

  /** Same class and same pitches: the two groupings of the consecutive
      tie. */
  predicate SameGroup(x: Leaf, y: Leaf)
  {
    x.klass == y.klass && x.pitches == y.pitches
  }

  /** A tie over leaves `start` to `stop`, inclusive. */
  datatype Span = Span(start: nat, stop: nat, messiaen: bool)

  predicate Covers(t: Span, x: int)
  {
    t.start <= x <= t.stop
  }

  /** The tie touches a leaf of the non-empty range `a..b`. */
  predicate Overlaps(t: Span, a: int, b: int)
  {
    a <= b && t.start <= b && a <= t.stop
  }

  predicate Disjoint(s: Span, t: Span)
  {
    s.stop < t.start || t.stop < s.start
  }

  /** The ties lie within the leaves, cover only notes and chords (the
      tie's attachment test), and no leaf is in two ties. */
  predicate ValidTies(leaves: seq<Leaf>, ties: seq<Span>)
  {
    && (forall t :: t in ties ==> t.start <= t.stop < |leaves|)
    && (forall t, x: nat :: t in ties && Covers(t, x) && x < |leaves| ==> Pitched(leaves[x]))
    && (forall s, t :: s in ties && t in ties && s != t ==> Disjoint(s, t))
  }

  /** Each division starts at its own leaf, in order, and is not
      empty. */
  predicate WellFormedDivisions(leaves: seq<Leaf>, starts: seq<nat>)
  {
    && (|starts| == 0 ==> |leaves| == 0)
    && (|starts| > 0 ==> starts[0] == 0)
    && (forall k :: 0 <= k < |starts| ==> starts[k] < |leaves|)
    && (forall k :: 0 < k < |starts| ==> starts[k - 1] < starts[k])
  }

  /** The number of adjacent division pairs. */
  function PairCount(starts: seq<nat>): nat
  {
    if |starts| == 0 then 0 else |starts| - 1
  }

  /** Two ties hold the same pair of leaves. */
  ghost predicate SameTie(ties: seq<Span>, x: nat, y: nat)
  {
    exists t :: t in ties && Covers(t, x) && Covers(t, y)
  }

  /** What detaching ties from the leaves `a..b` leaves. */
  function Detached(ts: seq<Span>, a: int, b: int): (r: seq<Span>)
    ensures |r| <= |ts|
  {
    if |ts| == 0 then []
    else (if Overlaps(ts[0], a, b) then [] else [ts[0]]) + Detached(ts[1..], a, b)
  }

  /** Detaching keeps exactly the ties that do not touch the range. */
  lemma {:induction false} DetachedMembers(ts: seq<Span>, a: int, b: int)
    ensures forall t :: t in Detached(ts, a, b) <==> t in ts && !Overlaps(t, a, b)
  {
    if |ts| > 0 {
      DetachedMembers(ts[1..], a, b);
      assert forall t :: t in ts <==> t == ts[0] || t in ts[1..];
    }
  }

  lemma {:induction false} DetachedEmptyRange(ts: seq<Span>, a: int, b: int)
    requires b < a
    ensures Detached(ts, a, b) == ts
  {
    if |ts| > 0 {
      DetachedEmptyRange(ts[1..], a, b);
      assert ts == [ts[0]] + ts[1..];
    }
  }

  /** Detaching one more leaf extends the detached range. */
  lemma {:induction false} DetachedStep(ts: seq<Span>, a: int, j: int)
    requires a <= j
    requires forall t :: t in ts ==> t.start <= t.stop
    ensures Detached(Detached(ts, a, j - 1), j, j) == Detached(ts, a, j)
  {
    if |ts| > 0 {
      var h, rest := ts[0], ts[1..];
      assert forall t :: t in rest ==> t in ts;
      DetachedStep(rest, a, j);
      assert Overlaps(h, a, j) <==> Overlaps(h, a, j - 1) || Overlaps(h, j, j);
      var d1 := Detached(ts, a, j - 1);
      var r1 := Detached(rest, a, j - 1);
      if Overlaps(h, a, j - 1) {
        assert d1 == r1;
      } else {
        assert d1 == [h] + r1;
        assert d1[0] == h && d1[1..] == r1;
      }
    }
  }

  /** Detaching a range that every tie touches leaves no tie. */
  lemma {:induction false} DetachedAllTouching(ts: seq<Span>, a: int, b: int)
    requires forall t :: t in ts ==> Overlaps(t, a, b)
    ensures Detached(ts, a, b) == []
  {
    if |ts| > 0 {
      assert ts[0] in ts;
      assert forall t :: t in ts[1..] ==> t in ts;
      DetachedAllTouching(ts[1..], a, b);
    }
  }

  /** The first tie holding leaf `x`, if any. */
  function TieOf(ts: seq<Span>, x: nat): (r: Option<Span>)
    ensures r.Some? ==> r.value in ts && Covers(r.value, x)
    ensures r.None? ==> forall t :: t in ts ==> !Covers(t, x)
  {
    if |ts| == 0 then None
    else if Covers(ts[0], x) then Some(ts[0])
    else TieOf(ts[1..], x)
  }

  datatype Range = Range(lo: nat, hi: nat)

  /** The logical tie of a leaf: the leaves of its tie, or the leaf
      alone. */
  function LogicalTie(ts: seq<Span>, x: nat): (r: Range)
    ensures r.lo <= x <= r.hi
  {
    match TieOf(ts, x)
    case Some(t) => Range(t.start, t.stop)
    case None => Range(x, x)
  }

  /** The attachment test of a tie: every leaf is a note or a chord. */
  predicate AllPitched(leaves: seq<Leaf>, a: nat, b: nat)
    requires b < |leaves|
  {
    forall x :: a <= x <= b ==> Pitched(leaves[x])
  }

  // ----------------------------------------------------------------------
  // Tying across divisions, as a function of the ties

  /** The pair step of `_do_tie_across_divisions` for the last leaf `one`
      of a division and the first leaf `two` of the next. */
  function AcrossStep(leaves: seq<Leaf>, ts: seq<Span>, one: nat, two: nat, messiaen: bool): (r: seq<Span>)
    requires ValidTies(leaves, ts) && two == one + 1 && two < |leaves|
  {
    if IsRest(leaves[one]) then ts
    else if IsRest(leaves[two]) then ts
    else if !(Pitched(leaves[one]) && Pitched(leaves[two])) then ts
    else
      var r1 := LogicalTie(ts, one);
      var r2 := LogicalTie(ts, two);
      if r1 == r2 then ts
      else
        // the two logical ties abut, so their leaves are `r1.lo..r2.hi`
        var cleared := Detached(ts, r1.lo, r2.hi);
        if r2.hi < |leaves| && AllPitched(leaves, r1.lo, r2.hi) then cleared + [Span(r1.lo, r2.hi, messiaen)]
        else cleared
  }

  /** Two different logical ties of neighbouring leaves end and start at
      those leaves. */
  lemma LogicalTiesAbut(leaves: seq<Leaf>, ts: seq<Span>, one: nat, two: nat)
    requires ValidTies(leaves, ts) && two == one + 1
    requires LogicalTie(ts, one) != LogicalTie(ts, two)
    ensures LogicalTie(ts, one).hi == one && LogicalTie(ts, two).lo == two
  {
  }

  /** The leaves of a logical tie of a pitched leaf are pitched. */
  lemma LogicalTiePitched(leaves: seq<Leaf>, ts: seq<Span>, x: nat)
    requires ValidTies(leaves, ts) && x < |leaves| && Pitched(leaves[x])
    ensures LogicalTie(ts, x).hi < |leaves| && AllPitched(leaves, LogicalTie(ts, x).lo, LogicalTie(ts, x).hi)
  {
    var r := LogicalTie(ts, x);
    forall y | r.lo <= y <= r.hi ensures Pitched(leaves[y]) {
      if TieOf(ts, x).Some? {
        assert Covers(TieOf(ts, x).value, y);
      }
    }
  }

  /** At a boundary between two pitched leaves the step always attaches
      the combined tie. */
  lemma AcrossStepAttaches(leaves: seq<Leaf>, ts: seq<Span>, one: nat, two: nat, messiaen: bool)
    requires ValidTies(leaves, ts) && two == one + 1 && two < |leaves|
    requires Pitched(leaves[one]) && Pitched(leaves[two])
    requires LogicalTie(ts, one) != LogicalTie(ts, two)
    ensures var r1 := LogicalTie(ts, one); var r2 := LogicalTie(ts, two);
      AcrossStep(leaves, ts, one, two, messiaen) == Detached(ts, r1.lo, r2.hi) + [Span(r1.lo, r2.hi, messiaen)]
  {
    var r1, r2 := LogicalTie(ts, one), LogicalTie(ts, two);
    LogicalTiesAbut(leaves, ts, one, two);
    LogicalTiePitched(leaves, ts, one);
    LogicalTiePitched(leaves, ts, two);
    assert AllPitched(leaves, r1.lo, r2.hi) by {
      forall y | r1.lo <= y <= r2.hi ensures Pitched(leaves[y]) {
        if y > one {
          assert r2.lo <= y;
        }
      }
    }
  }

  /** The step keeps the ties valid. */
  lemma AcrossStepValid(leaves: seq<Leaf>, ts: seq<Span>, one: nat, two: nat, messiaen: bool)
    requires ValidTies(leaves, ts) && two == one + 1 && two < |leaves|
    ensures ValidTies(leaves, AcrossStep(leaves, ts, one, two, messiaen))
  {
    if !IsRest(leaves[one]) && !IsRest(leaves[two]) && Pitched(leaves[one]) && Pitched(leaves[two])
       && LogicalTie(ts, one) != LogicalTie(ts, two) {
      var r1, r2 := LogicalTie(ts, one), LogicalTie(ts, two);
      AcrossStepAttaches(leaves, ts, one, two, messiaen);
      var n := Span(r1.lo, r2.hi, messiaen);
      DetachedMembers(ts, r1.lo, r2.hi);
      var r := Detached(ts, r1.lo, r2.hi) + [n];
      forall s, t | s in r && t in r && s != t ensures Disjoint(s, t) {
        if s != n && t != n {
          assert s in ts && t in ts;
        }
      }
      assert forall t, x: nat :: t in r && Covers(t, x) && x < |leaves| ==> Pitched(leaves[x]);
    }
  }

  /** After the step the two boundary leaves of a pitched boundary share a
      tie. */
  lemma AcrossStepJoins(leaves: seq<Leaf>, ts: seq<Span>, one: nat, two: nat, messiaen: bool)
    requires ValidTies(leaves, ts) && two == one + 1 && two < |leaves|
    requires Pitched(leaves[one]) && Pitched(leaves[two])
    ensures SameTie(AcrossStep(leaves, ts, one, two, messiaen), one, two)
  {
    var r1, r2 := LogicalTie(ts, one), LogicalTie(ts, two);
    if r1 == r2 {
      var t := TieOf(ts, one).value;
      assert t in ts && Covers(t, one) && Covers(t, two);
    } else {
      AcrossStepAttaches(leaves, ts, one, two, messiaen);
      var n := Span(r1.lo, r2.hi, messiaen);
      assert n in AcrossStep(leaves, ts, one, two, messiaen) && Covers(n, one) && Covers(n, two);
    }
  }

  /** A tie that touches a logical tie is the tie of that logical tie. */
  lemma TouchingTie(ts: seq<Span>, leaves: seq<Leaf>, x: nat, t: Span, y: nat)
    requires ValidTies(leaves, ts)
    requires t in ts && Covers(t, y) && LogicalTie(ts, x).lo <= y <= LogicalTie(ts, x).hi
    ensures TieOf(ts, x) == Some(t)
  {
    var u := TieOf(ts, x);
    assert u.Some? ==> Covers(u.value, y) && u.value in ts;
  }

  /** Leaves sharing a tie still share one after the step: the step only
      merges ties. */
  lemma AcrossStepKeepsJoined(leaves: seq<Leaf>, ts: seq<Span>, one: nat, two: nat, messiaen: bool, x: nat, y: nat)
    requires ValidTies(leaves, ts) && two == one + 1 && two < |leaves|
    requires SameTie(ts, x, y)
    ensures SameTie(AcrossStep(leaves, ts, one, two, messiaen), x, y)
  {
    var t :| t in ts && Covers(t, x) && Covers(t, y);
    if !IsRest(leaves[one]) && !IsRest(leaves[two]) && Pitched(leaves[one]) && Pitched(leaves[two])
       && LogicalTie(ts, one) != LogicalTie(ts, two) {
      var r1, r2 := LogicalTie(ts, one), LogicalTie(ts, two);
      AcrossStepAttaches(leaves, ts, one, two, messiaen);
      LogicalTiesAbut(leaves, ts, one, two);
      var n := Span(r1.lo, r2.hi, messiaen);
      var r := AcrossStep(leaves, ts, one, two, messiaen);
      DetachedMembers(ts, r1.lo, r2.hi);
      if Overlaps(t, r1.lo, r2.hi) {
        var z: nat := if t.start <= r1.lo then r1.lo else t.start;
        if z <= one {
          TouchingTie(ts, leaves, one, t, z);
        } else {
          TouchingTie(ts, leaves, two, t, z);
        }
        assert n in r && Covers(n, x) && Covers(n, y);
      } else {
        assert t in r;
      }
    }
  }

  /** The last leaf of division `k` and the first leaf of division
      `k + 1`. */
  function Boundary(leaves: seq<Leaf>, starts: seq<nat>, k: nat): (r: Range)
    requires WellFormedDivisions(leaves, starts) && k < PairCount(starts)
    ensures r.hi == r.lo + 1 && r.hi < |leaves| && r.hi == starts[k + 1]
  {
    assert starts[k] < starts[k + 1];
    Range(starts[k + 1] - 1, starts[k + 1])
  }

  /** Both leaves at boundary `k` are notes or chords. */
  predicate PitchedBoundary(leaves: seq<Leaf>, starts: seq<nat>, k: nat)
    requires WellFormedDivisions(leaves, starts) && k < PairCount(starts)
  {
    Pitched(leaves[Boundary(leaves, starts, k).lo]) && Pitched(leaves[Boundary(leaves, starts, k).hi])
  }

  /** The leaves at boundary `k` share a tie. */
  ghost predicate JoinedBoundary(leaves: seq<Leaf>, starts: seq<nat>, ties: seq<Span>, k: nat)
    requires WellFormedDivisions(leaves, starts) && k < PairCount(starts)
  {
    SameTie(ties, Boundary(leaves, starts, k).lo, Boundary(leaves, starts, k).hi)
  }

  /** Every boundary the pattern matches and whose leaves are pitched is
      tied over. */
  ghost predicate MatchedBoundariesJoined(leaves: seq<Leaf>, starts: seq<nat>, ties: seq<Span>, pattern: TieAcross)
    requires WellFormedDivisions(leaves, starts)
  {
    forall k: nat :: k < PairCount(starts) && MatchesIndex(pattern, k) && PitchedBoundary(leaves, starts, k)
      ==> JoinedBoundary(leaves, starts, ties, k)
  }

  /** `_do_tie_across_divisions` over the first `n` pairs. */
  function AcrossUpTo(leaves: seq<Leaf>, starts: seq<nat>, ts: seq<Span>, pattern: TieAcross, messiaen: bool, n: nat)
    : (r: seq<Span>)
    requires WellFormedDivisions(leaves, starts) && ValidTies(leaves, ts) && n <= PairCount(starts)
    ensures ValidTies(leaves, r)
  {
    if n == 0 then ts
    else
      var prev := AcrossUpTo(leaves, starts, ts, pattern, messiaen, n - 1);
      if MatchesIndex(pattern, n - 1) then
        var b := Boundary(leaves, starts, n - 1);
        AcrossStepValid(leaves, prev, b.lo, b.hi, messiaen);
        AcrossStep(leaves, prev, b.lo, b.hi, messiaen)
      else prev
  }

  /** Every matched boundary between two pitched leaves ends up inside one
      tie. */
  lemma {:induction false} AcrossJoinsMatchedBoundaries(leaves: seq<Leaf>, starts: seq<nat>, ts: seq<Span>,
                                                        pattern: TieAcross, messiaen: bool, n: nat, k: nat)
    requires WellFormedDivisions(leaves, starts) && ValidTies(leaves, ts) && n <= PairCount(starts)
    requires k < n && MatchesIndex(pattern, k) && PitchedBoundary(leaves, starts, k)
    ensures JoinedBoundary(leaves, starts, AcrossUpTo(leaves, starts, ts, pattern, messiaen, n), k)
  {
    var prev := AcrossUpTo(leaves, starts, ts, pattern, messiaen, n - 1);
    var b := Boundary(leaves, starts, n - 1);
    var c := Boundary(leaves, starts, k);
    if k == n - 1 {
      AcrossStepJoins(leaves, prev, b.lo, b.hi, messiaen);
    } else {
      AcrossJoinsMatchedBoundaries(leaves, starts, ts, pattern, messiaen, n - 1, k);
      if MatchesIndex(pattern, n - 1) {
        AcrossStepKeepsJoined(leaves, prev, b.lo, b.hi, messiaen, c.lo, c.hi);
      }
    }
  }

  // ----------------------------------------------------------------------
  // Tying consecutive notes

  /** `t` ties a maximal run of at least two leaves of one pitched group. */
  predicate IsRunTie(leaves: seq<Leaf>, t: Span)
  {
    && t.start < t.stop < |leaves|
    && Pitched(leaves[t.start])
    && (forall k :: t.start <= k <= t.stop ==> SameGroup(leaves[k], leaves[t.start]))
    && (t.start == 0 || !SameGroup(leaves[t.start - 1], leaves[t.start]))
    && (t.stop == |leaves| - 1 || !SameGroup(leaves[t.stop + 1], leaves[t.start]))
  }

  /** The ties of `_do_tie_consecutive_notes`: the maximal runs, in order,
      and every pair of equal neighbouring notes or chords tied. */
  ghost predicate RunTies(leaves: seq<Leaf>, ties: seq<Span>)
  {
    && (forall i :: 0 <= i < |ties| ==> IsRunTie(leaves, ties[i]))
    && (forall a, b :: 0 <= a < b < |ties| ==> ties[a].stop < ties[b].start)
    && (forall j: nat :: EqualNeighbours(leaves, j) ==> TiedToNext(ties, j))
  }

  /** Leaf `j` is a note or chord like leaf `j + 1`. */
  predicate EqualNeighbours(leaves: seq<Leaf>, j: nat)
  {
    j + 1 < |leaves| && Pitched(leaves[j]) && SameGroup(leaves[j], leaves[j + 1])
  }

  /** One tie holds leaf `j` and leaf `j + 1`. */
  ghost predicate TiedToNext(ties: seq<Span>, j: nat)
  {
    exists i :: 0 <= i < |ties| && Covers(ties[i], j) && Covers(ties[i], j + 1)
  }

  /** The loop invariant of the consecutive tie: the ties so far are run
      ties ending before `s`, in order, and hold every pair of equal
      neighbours before `s`. */
  ghost predicate RunsBefore(leaves: seq<Leaf>, ties: seq<Span>, s: nat)
  {
    && (forall a :: 0 <= a < |ties| ==> IsRunTie(leaves, ties[a]) && !ties[a].messiaen && ties[a].stop < s)
    && (forall a, b :: 0 <= a < b < |ties| ==> ties[a].stop < ties[b].start)
    && (forall j: nat :: j + 1 < s && EqualNeighbours(leaves, j) ==> TiedToNext(ties, j))
  }

  /** The leaves `s..i-1` (those that exist) group with leaf `s`. */
  predicate SameRun(leaves: seq<Leaf>, s: nat, i: nat)
    requires s < |leaves|
  {
    forall k :: s <= k < i && k < |leaves| ==> SameGroup(leaves[k], leaves[s])
  }

  /** Leaf `s` begins a group. */
  predicate RunStart(leaves: seq<Leaf>, s: nat)
    requires s < |leaves|
  {
    s == 0 || !SameGroup(leaves[s - 1], leaves[s])
  }

  /** The ties after closing the run `s..i-1`. */
  function Closed(leaves: seq<Leaf>, ties: seq<Span>, s: nat, i: nat): seq<Span>
    requires s < i <= |leaves|
  {
    if i - s >= 2 && Pitched(leaves[s]) then ties + [Span(s, i - 1, false)] else ties
  }

  /** Closing a maximal run keeps the loop invariant. */
  lemma CloseRun(leaves: seq<Leaf>, ties: seq<Span>, s: nat, i: nat)
    requires s < i <= |leaves|
    requires RunsBefore(leaves, ties, s)
    requires SameRun(leaves, s, i) && RunStart(leaves, s)
    requires i == |leaves| || !SameGroup(leaves[i], leaves[s])
    ensures RunsBefore(leaves, Closed(leaves, ties, s, i), i)
  {
    if i - s >= 2 && Pitched(leaves[s]) {
      CloseRunAppends(leaves, ties, s, i);
    } else {
      forall j: nat | s <= j && j + 1 < i ensures !EqualNeighbours(leaves, j) {
        assert SameGroup(leaves[j], leaves[s]);
      }
    }
  }

  /** The leaf that ends a run starts the next one. */
  lemma NextRun(leaves: seq<Leaf>, s: nat, i: nat)
    requires s < i < |leaves|
    requires SameRun(leaves, s, i) && !SameGroup(leaves[i], leaves[s])
    ensures RunStart(leaves, i) && SameRun(leaves, i, i + 1)
  {
    assert SameGroup(leaves[i - 1], leaves[s]);
  }

  /** A run of two or more notes or chords becomes a tie. */
  lemma CloseRunAppends(leaves: seq<Leaf>, ties: seq<Span>, s: nat, i: nat)
    requires s + 2 <= i <= |leaves| && Pitched(leaves[s])
    requires RunsBefore(leaves, ties, s)
    requires forall k :: s <= k < i ==> SameGroup(leaves[k], leaves[s])
    requires s == 0 || !SameGroup(leaves[s - 1], leaves[s])
    requires i == |leaves| || !SameGroup(leaves[i], leaves[s])
    ensures RunsBefore(leaves, ties + [Span(s, i - 1, false)], i)
  {
    var n := Span(s, i - 1, false);
    var r := ties + [n];
    assert IsRunTie(leaves, n);
    forall a | 0 <= a < |r| ensures IsRunTie(leaves, r[a]) && !r[a].messiaen && r[a].stop < i {
      if a < |ties| {
        assert r[a] == ties[a];
      }
    }
    forall a, b | 0 <= a < b < |r| ensures r[a].stop < r[b].start {
      assert r[a] == ties[a];
    }
    forall j: nat | j + 1 < i && EqualNeighbours(leaves, j) ensures TiedToNext(r, j) {
      if j + 1 < s {
        var a :| 0 <= a < |ties| && Covers(ties[a], j) && Covers(ties[a], j + 1);
        assert r[a] == ties[a];
      } else {
        assert r[|r| - 1] == n;
      }
    }
  }

  lemma RunsBeforeAll(leaves: seq<Leaf>, ties: seq<Span>)
    requires RunsBefore(leaves, ties, |leaves|)
    ensures RunTies(leaves, ties) && forall t :: t in ties ==> !t.messiaen
  {
  }

  /** Run ties are valid ties. */
  lemma RunTiesValid(leaves: seq<Leaf>, ties: seq<Span>)
    requires RunTies(leaves, ties)
    ensures ValidTies(leaves, ties)
  {
    forall t, x: nat | t in ties && Covers(t, x) && x < |leaves| ensures Pitched(leaves[x]) {
      var i :| 0 <= i < |ties| && ties[i] == t;
      assert SameGroup(leaves[x], leaves[t.start]);
    }
    forall s, t | s in ties && t in ties && s != t ensures Disjoint(s, t) {
      var a :| 0 <= a < |ties| && ties[a] == s;
      var b :| 0 <= b < |ties| && ties[b] == t;
      assert a != b;
    }
  }

  /** No leaf of a run tie is a rest, and a tie never joins leaves of
      different pitches. */
  lemma RunTiesArePure(leaves: seq<Leaf>, ties: seq<Span>, i: nat, x: nat)
    requires RunTies(leaves, ties) && i < |ties| && Covers(ties[i], x)
    ensures x < |leaves| && !IsRest(leaves[x]) && leaves[x].pitches == leaves[ties[i].start].pitches
  {
    assert SameGroup(leaves[x], leaves[ties[i].start]);
  }

  // ----------------------------------------------------------------------
  // The divisions the specifier is called on

  class Divisions {
    const leaves: seq<Leaf>
    const starts: seq<nat>
    var ties: seq<Span>

    ghost predicate Valid()
      reads this`ties
    {
      WellFormedDivisions(leaves, starts) && ValidTies(leaves, ties)
    }

    constructor(leaves: seq<Leaf>, starts: seq<nat>, ties: seq<Span>)
      requires WellFormedDivisions(leaves, starts) && ValidTies(leaves, ties)
      ensures Valid()
      ensures this.leaves == leaves && this.starts == starts && this.ties == ties
    {
      this.leaves := leaves;
      this.starts := starts;
      this.ties := ties;
    }

    /** `detach(Tie, leaf)`. */
    method DetachTie(x: nat)
      requires Valid()
      modifies this`ties
      ensures Valid()
      ensures ties == Detached(old(ties), x, x)
    {
      DetachedMembers(ties, x, x);
      ties := Detached(ties, x, x);
    }

    /** Detaches the ties of every leaf: none remains. */
    method DetachAll()
      requires Valid()
      modifies this`ties
      ensures Valid() && ties == []
    {
      ghost var before := ties;
      DetachedEmptyRange(before, 0, -1);
      for i := 0 to |leaves|
        invariant Valid()
        invariant ties == Detached(before, 0, i - 1)
      {
        DetachTie(i);
        DetachedStep(before, 0, i);
      }
      DetachedAllTouching(before, 0, |leaves| - 1);
    }

    /** `_do_strip_ties`. */
    method StripTies(spec: Specifier)
      requires Valid()
      modifies this`ties
      ensures Valid()
      ensures IsSet(spec.stripTies) ==> ties == []
      ensures !IsSet(spec.stripTies) ==> ties == old(ties)
    {
      if !IsSet(spec.stripTies) {
        return;
      }
      DetachAll();
    }

    /** Detaches the ties of the leaves `lo..hi`, one leaf at a time. */
    method DetachRange(lo: nat, hi: nat)
      requires Valid() && lo <= hi
      modifies this`ties
      ensures Valid()
      ensures ties == Detached(old(ties), lo, hi)
    {
      ghost var before := ties;
      DetachedEmptyRange(before, lo, lo - 1);
      for j := lo to hi + 1
        invariant Valid()
        invariant ties == Detached(before, lo, j - 1)
      {
        DetachTie(j);
        DetachedStep(before, lo, j);
      }
    }

    /** One pair of `_do_tie_across_divisions`: the last leaf `one` of a
        division and the first leaf `two` of the next. */
    method TieAcrossPair(one: nat, two: nat, messiaen: bool)
      requires Valid() && two == one + 1 && two < |leaves|
      modifies this`ties
      ensures Valid()
      ensures ties == AcrossStep(leaves, old(ties), one, two, messiaen)
    {
      if IsRest(leaves[one]) {
        return;
      }
      if IsRest(leaves[two]) {
        return;
      }
      if !(Pitched(leaves[one]) && Pitched(leaves[two])) {
        return;
      }
      var r1, r2 := LogicalTie(ties, one), LogicalTie(ties, two);
      if r1 == r2 {
        return;
      }
      LogicalTiesAbut(leaves, ties, one, two);
      AcrossStepValid(leaves, ties, one, two, messiaen);
      ghost var target := AcrossStep(leaves, ties, one, two, messiaen);
      DetachRange(r1.lo, r2.hi);
      if AllPitched(leaves, r1.lo, r2.hi) {
        ties := ties + [Span(r1.lo, r2.hi, messiaen)];
      }
      assert ties == target;
    }

    /** `_do_tie_across_divisions`. */
    method TieAcrossDivisions(spec: Specifier)
      requires Valid()
      modifies this`ties
      ensures Valid()
      ensures !TieAcrossActive(spec) ==> ties == old(ties)
      ensures TieAcrossActive(spec) ==>
        ties == AcrossUpTo(leaves, starts, old(ties), spec.tieAcrossDivisions,
                           IsSet(spec.useMessiaenStyleTies), PairCount(starts))
      ensures TieAcrossActive(spec) ==> MatchedBoundariesJoined(leaves, starts, ties, spec.tieAcrossDivisions)
    {
      if !TieAcrossTruthy(spec.tieAcrossDivisions) {
        return;
      }
      if IsSet(spec.stripTies) {
        return;
      }
      if IsSet(spec.tieConsecutiveNotes) {
        return;
      }
      var pattern := spec.tieAcrossDivisions;
      var messiaen := IsSet(spec.useMessiaenStyleTies);
      ghost var initial := ties;
      for i := 0 to PairCount(starts)
        invariant Valid()
        invariant ties == AcrossUpTo(leaves, starts, initial, pattern, messiaen, i)
      {
        if MatchesIndex(pattern, i) {
          var b := Boundary(leaves, starts, i);
          TieAcrossPair(b.lo, b.hi, messiaen);
        }
      }
      forall k: nat | k < PairCount(starts) && MatchesIndex(pattern, k) && PitchedBoundary(leaves, starts, k)
        ensures JoinedBoundary(leaves, starts, ties, k)
      {
        AcrossJoinsMatchedBoundaries(leaves, starts, initial, pattern, messiaen, PairCount(starts), k);
      }
    }

    /** `_do_tie_consecutive_notes`: detaches every tie, then ties each
        maximal run of two or more leaves of the same pitched class with
        the same pitches. */
    method TieConsecutiveNotes(spec: Specifier)
      requires Valid()
      modifies this`ties
      ensures Valid()
      ensures !IsSet(spec.tieConsecutiveNotes) ==> ties == old(ties)
      ensures IsSet(spec.tieConsecutiveNotes) ==> RunTies(leaves, ties) && forall t :: t in ties ==> !t.messiaen
    {
      if !IsSet(spec.tieConsecutiveNotes) {
        return;
      }
      DetachAll();
      var n := |leaves|;
      var s := 0;
      var i := 1;
      while i <= n
        invariant 1 <= i <= n + 1 && s < i && s <= n
        invariant i == n + 1 ==> s == n
        invariant s < n ==> SameRun(leaves, s, i)
        invariant s < n ==> RunStart(leaves, s)
        invariant RunsBefore(leaves, ties, s)
        decreases n + 1 - i
      {
        if i == n || !SameGroup(leaves[i], leaves[s]) {
          CloseRun(leaves, ties, s, i);
          if i < n {
            NextRun(leaves, s, i);
          }
          if i - s >= 2 && Pitched(leaves[s]) {
            ties := ties + [Span(s, i - 1, false)];
          }
          s := i;
        }
        i := i + 1;
      }
      RunsBeforeAll(leaves, ties);
      RunTiesValid(leaves, ties);
    }

    /** `_configure_messiaen_style_ties`: every tie becomes
        Messiaen-style. */
    method ConfigureMessiaenStyleTies(spec: Specifier)
      requires Valid()
      modifies this`ties
      ensures Valid()
      ensures !IsSet(spec.useMessiaenStyleTies) ==> ties == old(ties)
      ensures IsSet(spec.useMessiaenStyleTies) ==>
        |ties| == |old(ties)| && forall k :: 0 <= k < |ties| ==> ties[k] == Restyle(old(ties)[k])
      ensures Restyled(old(ties), ties, IsSet(spec.useMessiaenStyleTies))
    {
      if !IsSet(spec.useMessiaenStyleTies) {
        return;
      }
      ghost var before := ties;
      for k := 0 to |ties|
        invariant |ties| == |before|
        invariant forall m :: 0 <= m < k ==> ties[m] == Restyle(before[m])
        invariant forall m :: k <= m < |ties| ==> ties[m] == before[m]
      {
        ties := ties[k := Restyle(ties[k])];
      }
      MessiaenKeepsValid(leaves, before, ties);
    }

    /** `__call__`: the four steps in order. */
    method Call(spec: Specifier)
      requires Valid()
      requires !(IsSet(spec.stripTies) && IsSet(spec.tieConsecutiveNotes))
      modifies this`ties
      ensures Valid()
      ensures IsSet(spec.stripTies) ==> ties == []
      ensures IsSet(spec.tieConsecutiveNotes) ==> RunTies(leaves, ties)
      ensures IsSet(spec.useMessiaenStyleTies) ==> forall t :: t in ties ==> t.messiaen
      ensures TieAcrossActive(spec) ==> MatchedBoundariesJoined(leaves, starts, ties, spec.tieAcrossDivisions)
      ensures !IsSet(spec.stripTies) && !IsSet(spec.tieConsecutiveNotes) && !TieAcrossActive(spec)
        ==> Ranges(ties) == Ranges(old(ties))
      ensures TieAcrossActive(spec) ==>
        Restyled(AcrossUpTo(leaves, starts, old(ties), spec.tieAcrossDivisions,
                            IsSet(spec.useMessiaenStyleTies), PairCount(starts)),
                 ties, IsSet(spec.useMessiaenStyleTies))
      ensures !IsSet(spec.stripTies) && !IsSet(spec.tieConsecutiveNotes) && !TieAcrossActive(spec)
        ==> Restyled(old(ties), ties, IsSet(spec.useMessiaenStyleTies))
      ensures IsSet(spec.tieConsecutiveNotes) && !IsSet(spec.useMessiaenStyleTies)
        ==> forall t :: t in ties ==> !t.messiaen
    {
      TieAcrossDivisions(spec);
      ghost var afterAcross := ties;
      TieConsecutiveNotes(spec);
      ghost var afterConsecutive := ties;
      StripTies(spec);
      ghost var afterStrip := ties;
      ConfigureMessiaenStyleTies(spec);
      assert Restyled(afterStrip, ties, IsSet(spec.useMessiaenStyleTies));
      if IsSet(spec.tieConsecutiveNotes) {
        assert afterStrip == afterConsecutive;
        RunTiesKeptByStyle(leaves, afterConsecutive, ties, IsSet(spec.useMessiaenStyleTies));
      }
      if TieAcrossActive(spec) {
        assert afterStrip == afterAcross;
        forall k: nat | k < PairCount(starts) && MatchesIndex(spec.tieAcrossDivisions, k)
            && PitchedBoundary(leaves, starts, k)
          ensures JoinedBoundary(leaves, starts, ties, k)
        {
          var b := Boundary(leaves, starts, k);
          SameTieKeptByStyle(afterAcross, ties, IsSet(spec.useMessiaenStyleTies), b.lo, b.hi);
        }
      }
      RangesKeptByStyle(afterStrip, ties, IsSet(spec.useMessiaenStyleTies));
    }
  }

  // ----------------------------------------------------------------------
  // The Messiaen style changes no range

  /** The leaf ranges of the ties. */
  function Ranges(ts: seq<Span>): (r: seq<Range>)
    ensures |r| == |ts| && forall k :: 0 <= k < |ts| ==> r[k] == Range(ts[k].start, ts[k].stop)
  {
    if |ts| == 0 then [] else [Range(ts[0].start, ts[0].stop)] + Ranges(ts[1..])
  }

  /** The same tie, Messiaen-style. */
  function Restyle(t: Span): Span
  {
    Span(t.start, t.stop, true)
  }

  /** The ties after the Messiaen step: restyled, or unchanged. */
  predicate Restyled(before: seq<Span>, after: seq<Span>, messiaen: bool)
  {
    |after| == |before|
    && forall k :: 0 <= k < |after| ==> after[k] == (if messiaen then Restyle(before[k]) else before[k])
  }

  lemma MessiaenKeepsValid(leaves: seq<Leaf>, before: seq<Span>, after: seq<Span>)
    requires ValidTies(leaves, before) && Restyled(before, after, true)
    ensures ValidTies(leaves, after)
  {
    forall t | t in after ensures exists k :: 0 <= k < |before| && t == Restyle(before[k]) {
      var k :| 0 <= k < |after| && after[k] == t;
    }
    forall s, t | s in after && t in after && s != t ensures Disjoint(s, t) {
      var a :| 0 <= a < |after| && after[a] == s;
      var b :| 0 <= b < |after| && after[b] == t;
      assert before[a] in before && before[b] in before && before[a] != before[b];
    }
    forall t, x: nat | t in after && Covers(t, x) && x < |leaves| ensures Pitched(leaves[x]) {
      var a :| 0 <= a < |after| && after[a] == t;
      assert before[a] in before && Covers(before[a], x);
    }
  }

  lemma RangesKeptByStyle(before: seq<Span>, after: seq<Span>, messiaen: bool)
    requires Restyled(before, after, messiaen)
    ensures Ranges(after) == Ranges(before)
  {
  }

  lemma SameTieKeptByStyle(before: seq<Span>, after: seq<Span>, messiaen: bool, x: nat, y: nat)
    requires Restyled(before, after, messiaen)
    requires SameTie(before, x, y)
    ensures SameTie(after, x, y)
  {
    var t :| t in before && Covers(t, x) && Covers(t, y);
    var k :| 0 <= k < |before| && before[k] == t;
    assert after[k] in after && Covers(after[k], x) && Covers(after[k], y);
  }

  /** The run ties stay run ties whatever their style. */
  lemma RunTiesKeptByStyle(leaves: seq<Leaf>, before: seq<Span>, after: seq<Span>, messiaen: bool)
    requires RunTies(leaves, before) && Restyled(before, after, messiaen)
    ensures RunTies(leaves, after)
  {
    forall i | 0 <= i < |after| ensures after[i].start == before[i].start && after[i].stop == before[i].stop {
    }
    forall i | 0 <= i < |after| ensures IsRunTie(leaves, after[i]) {
      assert IsRunTie(leaves, before[i]);
    }
    forall j: nat | EqualNeighbours(leaves, j)
      ensures TiedToNext(after, j)
    {
      var i :| 0 <= i < |before| && Covers(before[i], j) && Covers(before[i], j + 1);
      assert Covers(after[i], j) && Covers(after[i], j + 1);
    }
  }
}
