/** Merging duration sequences: each sequence is read as a run of durations
    from offset 0, and the merged sequence has a boundary wherever any input
    has one. */
module MergeDurationSequences {
  import opened Common

  /** Running totals, without the leading 0: the offsets at which each
      duration ends. */
  function CumulativeSums(s: seq<real>): (r: seq<real>)
    ensures |r| == |s|
  {
    if |s| == 0 then [] else CumulativeSums(s[..|s| - 1]) + [Sum(s)]
  }

  /** Each running total is the sum of the durations up to and including
      its own. */
  lemma {:induction false} CumulativeSumsAt(s: seq<real>, i: nat)
    requires i < |s|
    ensures CumulativeSums(s)[i] == Sum(s[..i + 1])
    decreases |s|
  {
    if i < |s| - 1 {
      CumulativeSumsAt(s[..|s| - 1], i);
      assert s[..|s| - 1][..i + 1] == s[..i + 1];
    } else {
      assert s[..i + 1] == s;
    }
  }

  /** Successive differences. */
  function Differences(t: seq<real>): (r: seq<real>)
    ensures |r| == if |t| == 0 then 0 else |t| - 1
  {
    if |t| < 2 then [] else Differences(t[..|t| - 1]) + [t[|t| - 1] - t[|t| - 2]]
  }

  function JoinAll(seqs: seq<seq<real>>): seq<real>
  {
    if |seqs| == 0 then [] else JoinAll(seqs[..|seqs| - 1]) + seqs[|seqs| - 1]
  }

  function AllCumulativeSums(seqs: seq<seq<real>>): (r: seq<seq<real>>)
    ensures |r| == |seqs|
    ensures forall k :: 0 <= k < |seqs| ==> r[k] == CumulativeSums(seqs[k])
  {
    seq(|seqs|, k requires 0 <= k < |seqs| => CumulativeSums(seqs[k]))
  }

  /** Every cumulative offset of every input, in input order. */
  function AllOffsets(seqs: seq<seq<real>>): seq<real>
  {
    JoinAll(AllCumulativeSums(seqs))
  }

  ghost predicate StrictlyIncreasing(t: seq<real>)
  {
    forall i, j :: 0 <= i < j < |t| ==> t[i] < t[j]
  }

  function InsertDistinct(x: real, t: seq<real>): (r: seq<real>)
    requires StrictlyIncreasing(t)
    ensures StrictlyIncreasing(r)
    ensures forall y :: y in r <==> y in t || y == x
  {
    if |t| == 0 then [x]
    else if t[|t| - 1] < x then t + [x]
    else if t[|t| - 1] == x then t
    else
      var r' := InsertDistinct(x, t[..|t| - 1]);
      assert forall y :: y in t <==> y in t[..|t| - 1] || y == t[|t| - 1] by {
        assert t == t[..|t| - 1] + [t[|t| - 1]];
      }
      assert forall i :: 0 <= i < |r'| ==> r'[i] < t[|t| - 1] by {
        forall i | 0 <= i < |r'|
          ensures r'[i] < t[|t| - 1]
        {
          assert r'[i] in r';
        }
      }
      r' + [t[|t| - 1]]
  }

  /** Python's `sorted(set(s))`. */
  function SortedDistinct(s: seq<real>): (r: seq<real>)
    ensures StrictlyIncreasing(r)
    ensures forall y :: y in r <==> y in s
  {
    if |s| == 0 then []
    else
      assert forall y :: y in s <==> y in s[..|s| - 1] || y == s[|s| - 1] by {
        assert s == s[..|s| - 1] + [s[|s| - 1]];
      }
      InsertDistinct(s[|s| - 1], SortedDistinct(s[..|s| - 1]))
  }

  /** The merged durations: the differences between 0 and the sorted distinct
      offsets of all inputs. */
  function Merge(seqs: seq<seq<real>>): seq<real>
  {
    Differences([0.0] + SortedDistinct(AllOffsets(seqs)))
  }

  lemma {:induction false} JoinAllContains(seqs: seq<seq<real>>, k: nat, i: nat)
    requires k < |seqs| && i < |seqs[k]|
    ensures seqs[k][i] in JoinAll(seqs)
    decreases |seqs|
  {
    if k < |seqs| - 1 {
      JoinAllContains(seqs[..|seqs| - 1], k, i);
    }
  }

  lemma {:induction false} JoinAllMember(seqs: seq<seq<real>>, y: real)
    requires y in JoinAll(seqs)
    ensures exists k, i :: 0 <= k < |seqs| && 0 <= i < |seqs[k]| && seqs[k][i] == y
    decreases |seqs|
  {
    var n := |seqs|;
    if y in seqs[n - 1] {
      var i :| 0 <= i < |seqs[n - 1]| && seqs[n - 1][i] == y;
    } else {
      JoinAllMember(seqs[..n - 1], y);
      var k, i :| 0 <= k < n - 1 && 0 <= i < |seqs[..n - 1][k]| && seqs[..n - 1][k][i] == y;
      assert seqs[k][i] == y;
    }
  }

  /** Differences telescope: their sum is the last value less the first. */
  lemma {:induction false} SumDifferences(t: seq<real>)
    requires |t| > 0
    ensures Sum(Differences(t)) == t[|t| - 1] - t[0]
    decreases |t|
  {
    if |t| >= 2 {
      SumDifferences(t[..|t| - 1]);
      var d := Differences(t[..|t| - 1]);
      assert (d + [t[|t| - 1] - t[|t| - 2]])[..|d|] == d;
    }
  }

  /** A prefix of the differences is the differences of a prefix. */
  lemma DifferencesPrefix(t: seq<real>, m: nat)
    requires 1 <= m <= |t|
    ensures Differences(t)[..m - 1] == Differences(t[..m])
  {
    forall j | 0 <= j < m - 1
      ensures Differences(t)[j] == Differences(t[..m])[j]
    {
      DifferencesAt(t, j);
      DifferencesAt(t[..m], j);
    }
  }

  /** Running totals of the differences recover the values, less the first. */
  lemma CumulativeSumsOfDifferences(t: seq<real>)
    requires |t| > 0
    ensures |CumulativeSums(Differences(t))| == |t| - 1
    ensures forall i :: 0 <= i < |t| - 1 ==> CumulativeSums(Differences(t))[i] == t[i + 1] - t[0]
  {
    forall i | 0 <= i < |t| - 1
      ensures CumulativeSums(Differences(t))[i] == t[i + 1] - t[0]
    {
      CumulativeSumsOfDifferencesAt(t, i);
    }
  }

  lemma CumulativeSumsOfDifferencesAt(t: seq<real>, i: nat)
    requires i + 1 < |t|
    ensures CumulativeSums(Differences(t))[i] == t[i + 1] - t[0]
  {
    var d := Differences(t);
    var p := t[..i + 2];
    CumulativeSumsAt(d, i);
    DifferencesPrefix(t, i + 2);
    assert d[..i + 1] == Differences(p);
    SumDifferences(p);
    assert p[i + 1] == t[i + 1] && p[0] == t[0];
  }

  /** The merged sequence's own offsets are exactly the sorted distinct
      offsets of all inputs. */
  lemma MergeOffsets(seqs: seq<seq<real>>)
    ensures CumulativeSums(Merge(seqs)) == SortedDistinct(AllOffsets(seqs))
  {
    var sd := SortedDistinct(AllOffsets(seqs));
    CumulativeSumsOfDifferences([0.0] + sd);
  }

  /** The merge refines every input: each input's cumulative offsets are
      cumulative offsets of the result. */
  lemma MergeRefinesEachInput(seqs: seq<seq<real>>, k: nat, i: nat)
    requires k < |seqs| && i < |seqs[k]|
    ensures CumulativeSums(seqs[k])[i] in CumulativeSums(Merge(seqs))
  {
    MergeOffsets(seqs);
    JoinAllContains(AllCumulativeSums(seqs), k, i);
  }

  /** The merged durations add up to the largest cumulative total of any
      input (and to 0 when no input has an element). */
  lemma MergeSum(seqs: seq<seq<real>>)
    ensures |AllOffsets(seqs)| == 0 ==> Merge(seqs) == [] && Sum(Merge(seqs)) == 0.0
    ensures |AllOffsets(seqs)| > 0 ==>
      Sum(Merge(seqs)) in AllOffsets(seqs)
      && forall y :: y in AllOffsets(seqs) ==> y <= Sum(Merge(seqs))
  {
    var offs := AllOffsets(seqs);
    var sd := SortedDistinct(offs);
    var t := [0.0] + sd;
    assert Merge(seqs) == Differences(t);
    SumDifferences(t);
    if |offs| == 0 {
      assert offs == [];
    } else {
      assert offs[0] in offs;
      assert |sd| > 0;
      var top := sd[|sd| - 1];
      assert top in sd;
      assert Sum(Merge(seqs)) == top;
      forall y | y in offs
        ensures y <= top
      {
        LastIsMax(sd, y);
      }
    }
  }

  lemma LastIsMax(t: seq<real>, y: real)
    requires StrictlyIncreasing(t)
    requires y in t
    ensures y <= t[|t| - 1]
  {
    var i :| 0 <= i < |t| && t[i] == y;
    if i < |t| - 1 {
      assert t[i] < t[|t| - 1];
    }
  }

  lemma {:induction false} SumPositivePrefixes(s: seq<real>)
    requires forall i :: 0 <= i < |s| ==> s[i] > 0.0
    ensures forall i :: 0 <= i < |s| ==> CumulativeSums(s)[i] > 0.0
  {
    forall i | 0 <= i < |s|
      ensures CumulativeSums(s)[i] > 0.0
    {
      CumulativeSumsAt(s, i);
      SumPositive(s[..i + 1]);
    }
  }

  /** With strictly positive input durations every merged duration is
      strictly positive. */
  lemma MergePositive(seqs: seq<seq<real>>)
    requires forall k, i :: 0 <= k < |seqs| && 0 <= i < |seqs[k]| ==> seqs[k][i] > 0.0
    ensures forall j :: 0 <= j < |Merge(seqs)| ==> Merge(seqs)[j] > 0.0
  {
    var sd := SortedDistinct(AllOffsets(seqs));
    forall y | y in AllOffsets(seqs)
      ensures y > 0.0
    {
      var all := AllCumulativeSums(seqs);
      JoinAllMember(all, y);
      var k, i :| 0 <= k < |all| && 0 <= i < |all[k]| && all[k][i] == y;
      SumPositivePrefixes(seqs[k]);
    }
    assert forall i :: 0 <= i < |sd| ==> sd[i] in AllOffsets(seqs);
    var t := [0.0] + sd;
    forall j | 0 <= j < |Merge(seqs)|
      ensures Merge(seqs)[j] > 0.0
    {
      DifferencesAt(t, j);
    }
  }

  lemma {:induction false} DifferencesAt(t: seq<real>, j: nat)
    requires j + 1 < |t|
    ensures Differences(t)[j] == t[j + 1] - t[j]
    decreases |t|
  {
    if j + 2 < |t| {
      DifferencesAt(t[..|t| - 1], j);
    }
  }

  /** The merge is determined by the sorted distinct offsets: listing them
      in increasing order fixes the result. */
  lemma MergeFromOffsets(seqs: seq<seq<real>>, offsets: seq<real>, r: seq<real>)
    requires StrictlyIncreasing(offsets)
    requires forall y :: y in offsets <==> y in AllOffsets(seqs)
    requires |r| == |offsets|
    requires forall j :: 0 <= j < |r| ==> r[j] == ([0.0] + offsets)[j + 1] - ([0.0] + offsets)[j]
    ensures Merge(seqs) == r
  {
    SortedDistinctUnique(AllOffsets(seqs), offsets);
    DifferencesExample([0.0] + offsets, r);
  }

  /** `[10, 10, 10]` merged with `[7]` gives `[7, 3, 10, 10]`. */
  lemma DocExampleShortSecond()
    ensures Merge([[10.0, 10.0, 10.0], [7.0]]) == [7.0, 3.0, 10.0, 10.0]
  {
    var seqs := [[10.0, 10.0, 10.0], [7.0]];
    CumulativeSumsExample();
    OffsetsOfPair(seqs, [10.0, 20.0, 30.0], [7.0]);
    var offs := [10.0, 20.0, 30.0, 7.0];
    assert AllOffsets(seqs) == offs;
    assert forall y :: y in offs <==> y == 7.0 || y == 10.0 || y == 20.0 || y == 30.0;
    MergeFromOffsets(seqs, [7.0, 10.0, 20.0, 30.0], [7.0, 3.0, 10.0, 10.0]);
  }

  /** `[10, 10, 10]` merged with `[10, 10]` gives `[10, 10, 10]`. */
  lemma DocExampleSharedBoundaries()
    ensures Merge([[10.0, 10.0, 10.0], [10.0, 10.0]]) == [10.0, 10.0, 10.0]
  {
    var seqs := [[10.0, 10.0, 10.0], [10.0, 10.0]];
    CumulativeSumsExample();
    OffsetsOfPair(seqs, [10.0, 20.0, 30.0], [10.0, 20.0]);
    MergeFromOffsets(seqs, [10.0, 20.0, 30.0], [10.0, 10.0, 10.0]);
  }

  lemma OffsetsOfPair(seqs: seq<seq<real>>, c0: seq<real>, c1: seq<real>)
    requires |seqs| == 2
    requires CumulativeSums(seqs[0]) == c0 && CumulativeSums(seqs[1]) == c1
    ensures AllOffsets(seqs) == c0 + c1
  {
    var all := AllCumulativeSums(seqs);
    assert all == [c0, c1];
    assert all[..1][..0] == [];
    assert JoinAll(all[..1]) == c0;
  }

  lemma CumulativeSumsExample()
    ensures CumulativeSums([10.0, 10.0, 10.0]) == [10.0, 20.0, 30.0]
    ensures CumulativeSums([10.0, 10.0]) == [10.0, 20.0]
    ensures CumulativeSums([7.0]) == [7.0]
  {
    var s1, s2, s3 := [10.0], [10.0, 10.0], [10.0, 10.0, 10.0];
    assert s3[..2] == s2 && s2[..1] == s1 && s1[..0] == [];
    SumSingle(10.0);
    assert Sum(s2) == Sum(s1) + 10.0;
    assert Sum(s3) == Sum(s2) + 10.0;
    assert CumulativeSums(s1) == CumulativeSums([]) + [Sum(s1)];
    assert CumulativeSums(s2) == CumulativeSums(s1) + [Sum(s2)];
    assert CumulativeSums(s3) == CumulativeSums(s2) + [Sum(s3)];
    assert [7.0][..0] == [];
    assert CumulativeSums([7.0]) == CumulativeSums([]) + [Sum([7.0])];
    SumSingle(7.0);
  }

  /** A strictly increasing sequence is fixed by its elements. */
  lemma {:induction false} StrictlyIncreasingUnique(a: seq<real>, b: seq<real>)
    requires StrictlyIncreasing(a) && StrictlyIncreasing(b)
    requires forall y :: y in a <==> y in b
    ensures a == b
    decreases |a| + |b|, if |a| == 0 then 1 else 0
  {
    if |a| > 0 {
      var x := a[|a| - 1];
      assert x in a;
      assert x in b;
      var y := b[|b| - 1];
      assert y in b;
      assert y in a;
      assert x == y;
      var a', b' := a[..|a| - 1], b[..|b| - 1];
      assert a == a' + [x];
      assert b == b' + [y];
      forall z | z in a'
        ensures z in b'
      {
        assert z in a && z in b;
        var i :| 0 <= i < |a'| && a'[i] == z;
        assert z < x;
      }
      forall z | z in b'
        ensures z in a'
      {
        assert z in b && z in a;
        var i :| 0 <= i < |b'| && b'[i] == z;
        assert z < y;
      }
      StrictlyIncreasingUnique(a', b');
    } else if |b| > 0 {
      StrictlyIncreasingUnique(b, a);
    }
  }

  lemma SortedDistinctUnique(s: seq<real>, t: seq<real>)
    requires StrictlyIncreasing(t)
    requires forall y :: y in t <==> y in s
    ensures SortedDistinct(s) == t
  {
    StrictlyIncreasingUnique(SortedDistinct(s), t);
  }

  lemma DifferencesExample(t: seq<real>, d: seq<real>)
    requires |t| == |d| + 1
    requires forall j :: 0 <= j < |d| ==> d[j] == t[j + 1] - t[j]
    ensures Differences(t) == d
  {
    forall j | 0 <= j < |d|
      ensures Differences(t)[j] == d[j]
    {
      DifferencesAt(t, j);
    }
  }
}
