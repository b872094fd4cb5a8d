/** Selecting one part of a segment's time signatures partitioned by a
    ratio: the part's duration and its start and stop offsets within the
    segment. The partition of the time signatures is an input here. */
module CountRatioPartSelector {
  import opened Common

  /** The durations of the time signatures of each part. */
  type Partition = seq<seq<real>>

  /** Python's `parts[k]`: negative indices count from the end. */
  function PyIndex(k: int, n: nat): (r: Option<nat>)
    ensures r.Some? ==> r.value < n
    ensures r.Some? <==> -(n as int) <= k < n
  {
    if 0 <= k < n then Some(k) else if -(n as int) <= k < 0 then Some(n + k) else None
  }

  /** The end of Python's `parts[:k]`, clamped to the sequence. */
  function PySliceEnd(k: int, n: nat): (r: nat)
    ensures r <= n
  {
    if k >= 0 then (if k <= n then k else n) else if n + k >= 0 then n + k else 0
  }

  /** The duration of each part. */
  function PartDurations(parts: Partition): (r: seq<real>)
    ensures |r| == |parts|
    ensures forall i :: 0 <= i < |parts| ==> r[i] == Sum(parts[i])
  {
    seq(|parts|, i requires 0 <= i < |parts| => Sum(parts[i]))
  }

  /** `get_duration`: the sum of the part's time signature durations; an
      index out of range raises `IndexError`. */
  function GetDuration(parts: Partition, part: int): (r: Result<real>)
    ensures r.Err? <==> PyIndex(part, |parts|).None?
    ensures r.Err? ==> r.error == IndexError
  {
    match PyIndex(part, |parts|)
    case None => Err(IndexError)
    case Some(i) => Ok(Sum(parts[i]))
  }

  /** `get_segment_start_offset`: the total duration of the parts before
      the chosen one. Slicing never raises. */
  function GetSegmentStartOffset(parts: Partition, part: int): real
  {
    Sum(PartDurations(parts)[..PySliceEnd(part, |parts|)])
  }

  /** `get_segment_stop_offset`: start offset plus duration. */
  function GetSegmentStopOffset(parts: Partition, part: int): (r: Result<real>)
    ensures r.Err? <==> GetDuration(parts, part).Err?
  {
    match GetDuration(parts, part)
    case Err(e) => Err(e)
    case Ok(d) => Ok(GetSegmentStartOffset(parts, part) + d)
  }

  // ----------------------------------------------------------------------
  // Properties

  /** Part 0 starts at offset 0. */
  lemma FirstPartStartsAtZero(parts: Partition)
    ensures GetSegmentStartOffset(parts, 0) == 0.0
  {
  }

  /** The stop offset is the start offset plus the duration. */
  lemma StopIsStartPlusDuration(parts: Partition, part: int)
    requires GetDuration(parts, part).Ok?
    ensures GetSegmentStopOffset(parts, part).Ok?
    ensures GetSegmentStopOffset(parts, part).value
      == GetSegmentStartOffset(parts, part) + GetDuration(parts, part).value
  {
  }

  /** Consecutive parts abut: part k stops where part k + 1 starts. */
  lemma PartsAbut(parts: Partition, k: nat)
    requires k < |parts|
    ensures GetSegmentStopOffset(parts, k) == Ok(GetSegmentStartOffset(parts, k + 1))
  {
    var ds := PartDurations(parts);
    assert ds[..k + 1] == ds[..k] + [ds[k]];
    SumAppend(ds[..k], [ds[k]]);
    SumSingle(ds[k]);
  }

  /** A negative index names the same part as its non-negative
      counterpart, for the duration and for the start offset alike. */
  lemma NegativeIndexAgrees(parts: Partition, k: nat)
    requires k < |parts|
    ensures GetDuration(parts, k - |parts|) == GetDuration(parts, k)
    ensures GetSegmentStartOffset(parts, k - |parts|) == GetSegmentStartOffset(parts, k)
  {
  }

  /** With non-negative durations, later parts never start earlier. */
  lemma {:induction false} StartOffsetMonotone(parts: Partition, j: nat, k: nat)
    requires forall i, x :: 0 <= i < |parts| && 0 <= x < |parts[i]| ==> parts[i][x] >= 0.0
    requires j <= k <= |parts|
    ensures GetSegmentStartOffset(parts, j) <= GetSegmentStartOffset(parts, k)
    decreases k - j
  {
    if j < k {
      StartOffsetMonotone(parts, j, k - 1);
      PartsAbut(parts, k - 1);
      SumNonNegative(parts[k - 1]);
    }
  }

  lemma {:induction false} SumNonNegative(s: seq<real>)
    requires forall i :: 0 <= i < |s| ==> s[i] >= 0.0
    ensures Sum(s) >= 0.0
  {
    if |s| > 0 {
      SumNonNegative(s[..|s| - 1]);
    }
  }

  /** Partitioning `[3/8, 3/8, 2/8, 2/8]` as `[[3/8, 3/8], [2/8, 2/8]]`:
      part 0 is `[0, 3/4)` and part 1 is `[3/4, 5/4)`. */
  lemma Example()
    ensures GetDuration([[0.375, 0.375], [0.25, 0.25]], 0) == Ok(0.75)
    ensures GetSegmentStopOffset([[0.375, 0.375], [0.25, 0.25]], 1) == Ok(1.25)
    ensures GetSegmentStartOffset([[0.375, 0.375], [0.25, 0.25]], 1) == 0.75
  {
    var parts: Partition := [[0.375, 0.375], [0.25, 0.25]];
    assert Sum(parts[0]) == 0.75 by { assert parts[0][..1] == [0.375]; }
    assert Sum(parts[1]) == 0.5 by { assert parts[1][..1] == [0.25]; }
    var ds := PartDurations(parts);
    assert ds[..1] == [0.75];
    SumSingle(0.75);
  }
}
