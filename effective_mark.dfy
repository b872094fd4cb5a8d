/** The effective mark of a class for a component: among the qualifying
    marks attached to the component and its ancestors, the one that starts
    latest at or before the component. Two such marks starting together are
    an error. */
module EffectiveMark {
  import opened Common

  /** A mark as election sees it: its identity, the classes it is an
      instance of, whether it has an effective context, whether its start
      component is a measure, and the start offset of its start
      component. */
  datatype Mark = Mark(id: nat, classes: set<string>, hasEffectiveContext: bool, startsOnMeasure: bool, start: real)

  const TimeSignatureMarkClass := "TimeSignatureMark"

  /** A mark of the class counts if it has an effective context, or if it
      is a time signature mark starting on a measure. */
  predicate Qualifies(m: Mark, klass: string)
  {
    klass in m.classes
    && (m.hasEffectiveContext || (TimeSignatureMarkClass in m.classes && m.startsOnMeasure))
  }

  /** The candidate set gathered from the marks of each component of the
      improper parentage. */
  function Candidates(parentage: seq<seq<Mark>>, klass: string): (c: set<Mark>)
    ensures forall m :: m in c ==> Qualifies(m, klass)
  {
    if |parentage| == 0 then {}
    else
      Candidates(parentage[..|parentage| - 1], klass)
      + (set m | m in parentage[|parentage| - 1] && Qualifies(m, klass))
  }

  ghost predicate NoneEligible(c: set<Mark>, s: real)
  {
    forall m :: m in c ==> m.start > s
  }

  /** `w` starts at or before `s`, and every other candidate that does
      starts strictly earlier. */
  ghost predicate IsWinner(c: set<Mark>, s: real, w: Mark)
  {
    w in c && w.start <= s && forall m :: m in c && m != w && m.start <= s ==> m.start < w.start
  }

  /** Two different candidates share the latest start at or before `s`. */
  ghost predicate TiedAtTop(c: set<Mark>, s: real)
  {
    exists a, b :: a in c && b in c && a != b && a.start == b.start && a.start <= s
      && forall m :: m in c && m.start <= s ==> m.start <= a.start
  }

  predicate StartLe(a: Mark, b: Mark)
  {
    a.start <= b.start
  }

  lemma StartLeIsTotalPreorder()
    ensures TotalPreorder(StartLe)
  {
  }

  /** The gathering loops: each qualifying mark once, in parentage
      order. */
  method GatherCandidates(parentage: seq<seq<Mark>>, klass: string) returns (cands: seq<Mark>)
    ensures forall m :: m in cands <==> m in Candidates(parentage, klass)
    ensures forall m :: multiset(cands)[m] <= 1
  {
    cands := [];
    for i := 0 to |parentage|
      invariant forall m :: m in cands <==> m in Candidates(parentage[..i], klass)
      invariant forall m :: multiset(cands)[m] <= 1
    {
      assert parentage[..i + 1][..i] == parentage[..i];
      for j := 0 to |parentage[i]|
        invariant forall m :: m in cands <==>
          m in Candidates(parentage[..i], klass) || (m in parentage[i][..j] && Qualifies(m, klass))
        invariant forall m :: multiset(cands)[m] <= 1
      {
        var m := parentage[i][j];
        assert parentage[i][..j + 1] == parentage[i][..j] + [m];
        if Qualifies(m, klass) && m !in cands {
          cands := cands + [m];
        }
      }
      assert parentage[i][..|parentage[i]|] == parentage[i];
    }
    assert parentage[..|parentage|] == parentage;
  }

  /** Sorting keeps the candidates and their distinctness. */
  lemma SortedCandidates(cands: seq<Mark>, sorted: seq<Mark>)
    requires multiset(sorted) == multiset(cands)
    requires forall m :: multiset(cands)[m] <= 1
    ensures forall m :: m in sorted <==> m in cands
    ensures forall i, j :: 0 <= i < j < |sorted| ==> sorted[i] != sorted[j]
  {
    forall m ensures m in sorted <==> m in cands {
      assert m in sorted <==> m in multiset(sorted);
      assert m in cands <==> m in multiset(cands);
    }
    forall i, j | 0 <= i < j < |sorted| ensures sorted[i] != sorted[j] {
      if sorted[i] == sorted[j] {
        RepeatedCountsTwice(sorted, i, j);
      }
    }
  }

  /** The reversed scan over candidates sorted by start offset. */
  method Elect(sorted: seq<Mark>, s: real, ghost c: set<Mark>) returns (r: Result<Option<Mark>>)
    requires SortedBy(sorted, StartLe)
    requires forall i, j :: 0 <= i < j < |sorted| ==> sorted[i] != sorted[j]
    requires forall m :: m in sorted <==> m in c
    ensures r.Ok? && r.value.None? ==> NoneEligible(c, s)
    ensures r.Ok? && r.value.Some? ==> IsWinner(c, s, r.value.value)
    ensures r.Err? ==> r.error == ExtraMarkError && TiedAtTop(c, s)
  {
    var winner: Option<Mark> := None;
    ghost var wi := |sorted|;
    var k := |sorted|;
    var done := false;
    while k > 0 && !done
      invariant 0 <= k <= |sorted|
      invariant winner.None? ==> !done && forall i :: k <= i < |sorted| ==> sorted[i].start > s
      invariant winner.Some? ==> k <= wi < |sorted| && sorted[wi] == winner.value && winner.value.start <= s
      invariant winner.Some? && !done ==>
        forall i :: k <= i < |sorted| && i != wi ==> sorted[i].start > s
      invariant done ==> (winner.Some? &&
        forall i :: 0 <= i < |sorted| && i != wi && sorted[i].start <= s ==> sorted[i].start < winner.value.start)
      decreases k
    {
      k := k - 1;
      var candidate := sorted[k];
      if candidate.start <= s {
        if winner.None? {
          winner := Some(candidate);
          wi := k;
        } else if candidate.start == winner.value.start {
          TieAtTop(sorted, s, c, k, wi);
          return Err(ExtraMarkError);
        } else {
          forall i | 0 <= i < |sorted| && i != wi && sorted[i].start <= s
            ensures sorted[i].start < winner.value.start
          {
            if i < k {
              assert StartLe(sorted[i], sorted[k]);
            }
          }
          done := true;
        }
      }
    }
    if winner.Some? {
      var w := winner.value;
      forall m | m in c && m != w && m.start <= s ensures m.start < w.start {
        var i :| 0 <= i < |sorted| && sorted[i] == m;
        assert i != wi;
      }
    } else {
      forall m | m in c ensures m.start > s {
        var i :| 0 <= i < |sorted| && sorted[i] == m;
      }
    }
    r := Ok(winner);
  }

  /** Two distinct scanned candidates with the same start, and no later
      eligible one: a tie at the top. */
  lemma TieAtTop(sorted: seq<Mark>, s: real, c: set<Mark>, k: nat, wi: nat)
    requires SortedBy(sorted, StartLe)
    requires forall i, j :: 0 <= i < j < |sorted| ==> sorted[i] != sorted[j]
    requires forall m :: m in sorted <==> m in c
    requires k < wi < |sorted| && sorted[k].start == sorted[wi].start && sorted[k].start <= s
    requires forall i :: k < i < |sorted| && i != wi ==> sorted[i].start > s
    ensures TiedAtTop(c, s)
  {
    var a, b := sorted[k], sorted[wi];
    forall m | m in c && m.start <= s ensures m.start <= a.start {
      var i :| 0 <= i < |sorted| && sorted[i] == m;
      if i < k {
        assert StartLe(sorted[i], sorted[k]);
      }
    }
    assert a in c && b in c && a != b;
  }

  /** `get_effective_mark`: gathers the qualifying marks into a set, sorts
      them by start offset, and scans from the latest, keeping the first
      that starts at or before the component, raising on a second one with
      the same start and stopping at the first strictly earlier one. */
  method GetEffectiveMark(parentage: seq<seq<Mark>>, klass: string, componentStart: real)
    returns (r: Result<Option<Mark>>)
    ensures r.Ok? && r.value.None? ==> NoneEligible(Candidates(parentage, klass), componentStart)
    ensures r.Ok? && r.value.Some? ==> IsWinner(Candidates(parentage, klass), componentStart, r.value.value)
    ensures r.Err? ==> r.error == ExtraMarkError && TiedAtTop(Candidates(parentage, klass), componentStart)
  {
    var cands := GatherCandidates(parentage, klass);
    StartLeIsTotalPreorder();
    var sorted := SortBy(cands, StartLe);
    SortedCandidates(cands, sorted);
    r := Elect(sorted, componentStart, Candidates(parentage, klass));
  }

  /** A tie at the top leaves no candidate the winner, so the three outcomes
      above are exclusive and the result is determined by the candidates. */
  lemma TieDefeatsEveryone(c: set<Mark>, s: real, w: Mark)
    requires TiedAtTop(c, s)
    ensures !IsWinner(c, s, w)
    ensures !NoneEligible(c, s)
  {
    var a, b :| a in c && b in c && a != b && a.start == b.start && a.start <= s
      && forall m :: m in c && m.start <= s ==> m.start <= a.start;
    if w in c && w.start <= s {
      var m := if a != w then a else b;
      assert m in c && m != w && m.start <= s && m.start >= w.start;
    }
  }

  /** A winner is unique. */
  lemma WinnerUnique(c: set<Mark>, s: real, w: Mark, v: Mark)
    requires IsWinner(c, s, w) && v != w
    ensures !IsWinner(c, s, v)
  {
    if v in c && v.start <= s {
      assert v.start < w.start;
    }
  }
}
