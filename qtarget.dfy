/** The mold that quantized events are poured into: a target holds items
    (sorted by their offset in milliseconds) and a list of beats.  Calling it
    drops a terminal event after a silence, buckets the events into beats,
    dispatches one quantization job per beat, stores the grids each job found,
    lets a heuristic pick one grid per beat, and moves the proxies parked on a
    grid's "next downbeat" to the first leaf of the next beat's grid.  The
    helpers at the end turn annotated leaves of a voice into notes, chords and
    rests and tie unannotated successors to them.

    Beats are the subclass's own and are given to the constructor; grace
    handling, job creation, the job handler and the heuristic are parameters. */
module QTarget {
  import opened Common

  datatype QEvent =
    | PitchedQEvent(offset: real, pitches: seq<int>)
    | SilentQEvent(offset: real)
    | TerminalQEvent(offset: real)

  /** An event placed inside the unit span of a beat. */
  datatype Proxy = Proxy(event: QEvent, offset: real)

  datatype GridLeaf = GridLeaf(proxies: seq<Proxy>)

  datatype QGrid = QGrid(leaves: seq<GridLeaf>, nextDownbeat: GridLeaf)

  datatype Beat = Beat(offsetInMs: real, qEvents: seq<QEvent>, qGrids: seq<QGrid>, qGrid: QGrid)

  datatype Item = Item(offsetInMs: real, durationInMs: real)

  /** What a finished job hands back: its id and the grids it found. */
  datatype JobOut = JobOut(jobId: int, qGrids: seq<QGrid>)

  // ----------------------------------------------------------------------
  // Python indexing and bisection

  /** The element Python's `xs[i]` selects in a list of length `n`, if any. */
  function PyIndex(n: nat, i: int): (r: Option<nat>)
    ensures r.Some? <==> -(n as int) <= i < n
    ensures r.Some? ==> r.value < n && (r.value == i || r.value == n + i)
  {
    if 0 <= i < n then Some(i) else if -(n as int) <= i < 0 then Some(n + i) else None
  }

  /** `bisect.bisect` (bisect_right): the number of elements not greater than
      `x`, which on a sorted list is the insertion point after any equal ones. */
  function BisectRight(a: seq<real>, x: real): (k: nat)
    ensures k <= |a|
  {
    if |a| == 0 then 0 else BisectRight(a[..|a| - 1], x) + (if a[|a| - 1] <= x then 1 else 0)
  }

  ghost predicate Ascending(a: seq<real>)
  {
    forall i, j :: 0 <= i < j < |a| ==> a[i] <= a[j]
  }

  /** On a sorted list, the bisection point separates the elements `<= x`
      from the elements `> x`. */
  lemma {:induction false} BisectRightSplits(a: seq<real>, x: real)
    requires Ascending(a)
    ensures forall i :: 0 <= i < BisectRight(a, x) ==> a[i] <= x
    ensures forall i :: BisectRight(a, x) <= i < |a| ==> x < a[i]
    decreases |a|
  {
    if |a| > 0 {
      var p := a[..|a| - 1];
      BisectRightSplits(p, x);
      if a[|a| - 1] <= x {
        assert forall i :: 0 <= i < |p| ==> a[i] <= a[|a| - 1];
      }
    }
  }

  function RealLe(): (real, real) -> bool
  {
    (a: real, b: real) => a <= b
  }

  function ItemLe(): (Item, Item) -> bool
  {
    (a: Item, b: Item) => a.offsetInMs <= b.offsetInMs
  }

  function Offsets(beats: seq<Beat>): (r: seq<real>)
    ensures |r| == |beats|
    ensures forall i :: 0 <= i < |beats| ==> r[i] == beats[i].offsetInMs
  {
    seq(|beats|, i requires 0 <= i < |beats| => beats[i].offsetInMs)
  }

  /** The beat offsets in the sorted order the bucketing searches. */
  function SortedOffsets(beats: seq<Beat>): (r: seq<real>)
    ensures |r| == |beats|
    ensures Ascending(r)
    ensures multiset(r) == multiset(Offsets(beats))
  {
    SortBy(Offsets(beats), RealLe())
  }

  /** Index of the beat an event at `x` is appended to: one before the
      bisection point, where -1 (an event before every beat) selects the last
      beat as Python's negative indexing does. */
  function BeatIndex(offsets: seq<real>, x: real): (j: nat)
    requires |offsets| > 0
    ensures j < |offsets|
  {
    PyIndex(|offsets|, BisectRight(offsets, x) - 1).value
  }

  /** The bisect rule: an event at or after the first beat goes to the beat
      with the greatest offset not after it (one exactly on a beat offset goes
      to that beat); an event before every beat wraps to the last beat. */
  lemma BeatIndexRule(offsets: seq<real>, x: real)
    requires |offsets| > 0 && Ascending(offsets)
    ensures var j := BeatIndex(offsets, x);
      if offsets[0] <= x then
        offsets[j] <= x && (j + 1 < |offsets| ==> x < offsets[j + 1])
      else
        j == |offsets| - 1
  {
    BisectRightSplits(offsets, x);
  }

  /** When the beats are in offset order, the bisect rule picks, for an event
      at or after the first beat, the beat with the greatest offset not after
      the event. */
  lemma BucketRuleOnOrderedBeats(beats: seq<Beat>, x: real)
    requires |beats| > 0 && Ascending(Offsets(beats))
    ensures var j := BeatIndex(SortedOffsets(beats), x);
      if beats[0].offsetInMs <= x then
        beats[j].offsetInMs <= x && (j + 1 < |beats| ==> x < beats[j + 1].offsetInMs)
      else
        j == |beats| - 1
  {
    assert TotalPreorder(RealLe());
    SortBySorted(Offsets(beats), RealLe());
    BeatIndexRule(SortedOffsets(beats), x);
  }

  // ----------------------------------------------------------------------
  // The steps of a call

  /** The events the call buckets: the final (terminal) event is dropped when
      the one before it is silent.  Fewer than two events raise `IndexError`. */
  function EventsToBucket(events: seq<QEvent>): (r: Result<seq<QEvent>>)
    ensures |events| < 2 <==> r.Err?
    ensures r.Err? ==> r.error == IndexError
    ensures r.Ok? && events[|events| - 2].SilentQEvent? ==> r.value == events[..|events| - 1]
    ensures r.Ok? && !events[|events| - 2].SilentQEvent? ==> r.value == events
  {
    if |events| < 2 then Err(IndexError)
    else if events[|events| - 2].SilentQEvent? then Ok(events[..|events| - 1])
    else Ok(events)
  }

  function AppendEvent(b: Beat, e: QEvent): Beat
  {
    b.(qEvents := b.qEvents + [e])
  }

  /** The beats after each event has been appended, in order, to its beat. */
  function Bucketed(beats: seq<Beat>, offsets: seq<real>, events: seq<QEvent>): (r: seq<Beat>)
    requires |offsets| == |beats| > 0
    ensures |r| == |beats|
    decreases |events|
  {
    if |events| == 0 then beats
    else
      var prev := Bucketed(beats, offsets, events[..|events| - 1]);
      var e := events[|events| - 1];
      var j := BeatIndex(offsets, e.offset);
      prev[j := AppendEvent(prev[j], e)]
  }

  /** The events, in input order, whose beat index is `j`. */
  function EventsFor(offsets: seq<real>, events: seq<QEvent>, j: nat): seq<QEvent>
    requires |offsets| > 0
  {
    if |events| == 0 then []
    else
      var e := events[|events| - 1];
      EventsFor(offsets, events[..|events| - 1], j) + (if BeatIndex(offsets, e.offset) == j then [e] else [])
  }

  /** Bucketing appends to each beat exactly its own events, in input order,
      and changes nothing else about the beat. */
  lemma {:induction false} BucketedContents(beats: seq<Beat>, offsets: seq<real>, events: seq<QEvent>)
    requires |offsets| == |beats| > 0
    ensures forall j :: 0 <= j < |beats| ==>
      Bucketed(beats, offsets, events)[j] == beats[j].(qEvents := beats[j].qEvents + EventsFor(offsets, events, j))
    decreases |events|
  {
    if |events| > 0 {
      BucketedContents(beats, offsets, events[..|events| - 1]);
    }
  }

  /** Python's truthiness filter over the jobs the beats produced. */
  function TruthyJobs<J>(jobs: seq<Option<J>>): (r: seq<J>)
    ensures |r| <= |jobs|
    ensures forall i :: 0 <= i < |r| ==> Some(r[i]) in jobs
    ensures forall i :: 0 <= i < |jobs| && jobs[i].Some? ==> jobs[i].value in r
  {
    if |jobs| == 0 then []
    else
      var rest := TruthyJobs(jobs[1..]);
      assert forall i :: 1 <= i < |jobs| ==> jobs[i] == jobs[1..][i - 1];
      if jobs[0].Some? then [jobs[0].value] + rest else rest
  }

  function MakeJobs<J>(beats: seq<Beat>, makeJob: (Beat, nat) -> Option<J>): (r: seq<Option<J>>)
    ensures |r| == |beats|
    ensures forall i :: 0 <= i < |beats| ==> r[i] == makeJob(beats[i], i)
  {
    seq(|beats|, i requires 0 <= i < |beats| => makeJob(beats[i], i))
  }

  /** Whether every job's id indexes the beats (negative ids from the end). */
  predicate JobIdsInRange(n: nat, jobs: seq<JobOut>)
  {
    forall k :: 0 <= k < |jobs| ==> -(n as int) <= jobs[k].jobId < n
  }

  /** The beats after the grids of every job, in order, have been written to
      the beat its id selects; writing stops at the first id out of range,
      where Python raises `IndexError`. */
  function Stored(beats: seq<Beat>, jobs: seq<JobOut>): (r: seq<Beat>)
    ensures |r| == |beats|
    decreases |jobs|
  {
    if |jobs| == 0 then beats
    else match PyIndex(|beats|, jobs[0].jobId)
      case None => beats
      case Some(j) => Stored(beats[j := beats[j].(qGrids := jobs[0].qGrids)], jobs[1..])
  }

  /** The grids a beat holds after storing: those of the last in-range job
      that selected it, or its old grids when none did. */
  function LastGridsFor(n: nat, jobs: seq<JobOut>, j: nat, otherwise: seq<QGrid>): seq<QGrid>
    decreases |jobs|
  {
    if |jobs| == 0 then otherwise
    else match PyIndex(n, jobs[0].jobId)
      case None => otherwise
      case Some(k) => LastGridsFor(n, jobs[1..], j, if k == j then jobs[0].qGrids else otherwise)
  }

  /** Storing job results only replaces `qGrids`, and each beat ends up with
      the grids of the last job that named it. */
  lemma {:induction false} StoredContents(beats: seq<Beat>, jobs: seq<JobOut>)
    ensures forall j :: 0 <= j < |beats| ==>
      Stored(beats, jobs)[j] == beats[j].(qGrids := LastGridsFor(|beats|, jobs, j, beats[j].qGrids))
    decreases |jobs|
  {
    if |jobs| > 0 && PyIndex(|beats|, jobs[0].jobId).Some? {
      var k := PyIndex(|beats|, jobs[0].jobId).value;
      var next := beats[k := beats[k].(qGrids := jobs[0].qGrids)];
      StoredContents(next, jobs[1..]);
    }
  }

  /** Every grid after the first beat has a first leaf to receive proxies. */
  predicate HasFirstLeaves(beats: seq<Beat>)
  {
    forall i :: 1 <= i < |beats| ==> |beats[i].qGrid.leaves| > 0
  }

  /** Beat `i` after the downbeat shift: its first leaf has received the
      previous beat's next-downbeat proxies in reverse order, and its own
      next-downbeat list is empty unless it is the last beat. */
  function ShiftedBeat(beats: seq<Beat>, i: nat): Beat
    requires i < |beats| && HasFirstLeaves(beats)
  {
    var g := beats[i].qGrid;
    var leaves :=
      if i == 0 then g.leaves
      else g.leaves[0 := GridLeaf(g.leaves[0].proxies + Reverse(beats[i - 1].qGrid.nextDownbeat.proxies))];
    var next := if i + 1 < |beats| then GridLeaf([]) else g.nextDownbeat;
    beats[i].(qGrid := QGrid(leaves, next))
  }

  function Shifted(beats: seq<Beat>): (r: seq<Beat>)
    requires HasFirstLeaves(beats)
    ensures |r| == |beats|
  {
    seq(|beats|, i requires 0 <= i < |beats| => ShiftedBeat(beats, i))
  }

  /** The proxies beat `i` can give or receive: those on its first leaf
      (from the second beat on) and those on its next downbeat. */
  ghost function MovableAt(beats: seq<Beat>, i: nat): multiset<Proxy>
    requires i < |beats| && HasFirstLeaves(beats)
  {
    (if i > 0 then multiset(beats[i].qGrid.leaves[0].proxies) else multiset{})
      + multiset(beats[i].qGrid.nextDownbeat.proxies)
  }

  /** The movable proxies of the first `k` beats. */
  ghost function MovableProxies(beats: seq<Beat>, k: nat): multiset<Proxy>
    requires k <= |beats| && HasFirstLeaves(beats)
  {
    if k == 0 then multiset{} else MovableProxies(beats, k - 1) + MovableAt(beats, k - 1)
  }

  /** The downbeat shift moves proxies between grids and neither loses nor
      duplicates one. */
  lemma {:induction false} ShiftedKeepsProxies(beats: seq<Beat>)
    requires HasFirstLeaves(beats)
    ensures HasFirstLeaves(Shifted(beats))
    ensures MovableProxies(Shifted(beats), |beats|) == MovableProxies(beats, |beats|)
  {
    var n := |beats|;
    var s := Shifted(beats);
    assert HasFirstLeaves(s);
    if n == 1 {
      assert s[0] == beats[0];
    } else if n > 1 {
      ShiftedPrefixKeepsProxies(beats, n - 1);
      var moved := beats[n - 2].qGrid.nextDownbeat.proxies;
      ReverseMultiset(moved);
      var last := beats[n - 1].qGrid;
      assert s[n - 1].qGrid.leaves[0].proxies == last.leaves[0].proxies + Reverse(moved);
      assert s[n - 1].qGrid.nextDownbeat == last.nextDownbeat;
      assert MovableAt(s, n - 1) == MovableAt(beats, n - 1) + multiset(moved);
      assert MovableProxies(s, n) == MovableProxies(s, n - 1) + MovableAt(s, n - 1);
      assert MovableProxies(beats, n) == MovableProxies(beats, n - 1) + MovableAt(beats, n - 1);
    }
  }

  /** The first `k` shifted beats hold the movable proxies of the first `k`
      original beats, less the next-downbeat list of beat `k - 1`, which has
      moved on to beat `k`. */
  lemma {:induction false} ShiftedPrefixKeepsProxies(beats: seq<Beat>, k: nat)
    requires HasFirstLeaves(beats)
    requires 0 < k < |beats|
    ensures HasFirstLeaves(Shifted(beats))
    ensures MovableProxies(Shifted(beats), k) + multiset(beats[k - 1].qGrid.nextDownbeat.proxies)
         == MovableProxies(beats, k)
    decreases k
  {
    var s := Shifted(beats);
    assert HasFirstLeaves(s);
    ShiftedMovableAt(beats, k - 1);
    if k > 1 {
      ShiftedPrefixKeepsProxies(beats, k - 1);
      MultisetStep(MovableProxies(s, k - 1), MovableAt(s, k - 1),
        multiset(beats[k - 1].qGrid.nextDownbeat.proxies), multiset(beats[k - 2].qGrid.nextDownbeat.proxies),
        MovableAt(beats, k - 1), MovableProxies(beats, k - 1));
    }
  }

  /** Bookkeeping for one step of the shift: what the prefix lacked is what
      the next beat received. */
  lemma MultisetStep<T>(a: multiset<T>, x: multiset<T>, out: multiset<T>, into: multiset<T>,
                        y: multiset<T>, c: multiset<T>)
    requires a + into == c
    requires x + out == y + into
    ensures (a + x) + out == c + y
  {
    calc {
      (a + x) + out;
      a + (x + out);
      a + (y + into);
      (a + into) + y;
    }
  }

  /** A shifted beat before the last one has given away its next-downbeat
      proxies and received those of the beat before it. */
  lemma ShiftedMovableAt(beats: seq<Beat>, i: nat)
    requires HasFirstLeaves(beats)
    requires i + 1 < |beats|
    ensures HasFirstLeaves(Shifted(beats))
    ensures MovableAt(Shifted(beats), i) + multiset(beats[i].qGrid.nextDownbeat.proxies)
         == MovableAt(beats, i)
            + (if i > 0 then multiset(beats[i - 1].qGrid.nextDownbeat.proxies) else multiset{})
  {
    var s := Shifted(beats);
    assert s[i] == ShiftedBeat(beats, i);
    assert s[i].qGrid.nextDownbeat.proxies == [];
    if i > 0 {
      ReverseMultiset(beats[i - 1].qGrid.nextDownbeat.proxies);
      assert s[i].qGrid.leaves[0].proxies
          == beats[i].qGrid.leaves[0].proxies + Reverse(beats[i - 1].qGrid.nextDownbeat.proxies);
    }
  }

  /** Moves every proxy on `one`'s next downbeat, last first, to the end of
      `two`'s first leaf. */
  method MoveDownbeatProxies(one: QGrid, two: QGrid) returns (one': QGrid, two': QGrid)
    requires |two.leaves| > 0
    ensures one' == one.(nextDownbeat := GridLeaf([]))
    ensures two' == two.(leaves := two.leaves[0 := GridLeaf(two.leaves[0].proxies + Reverse(one.nextDownbeat.proxies))])
  {
    var src := one.nextDownbeat.proxies;
    var dst := two.leaves[0].proxies;
    while |src| > 0
      invariant src == one.nextDownbeat.proxies[..|src|]
      invariant dst == two.leaves[0].proxies + Reverse(one.nextDownbeat.proxies[|src|..])
      decreases |src|
    {
      var p := src[|src| - 1];
      ghost var all := one.nextDownbeat.proxies;
      assert all[|src| - 1..] == [p] + all[|src|..];
      src := src[..|src| - 1];
      dst := dst + [p];
    }
    one' := one.(nextDownbeat := GridLeaf(src));
    two' := two.(leaves := two.leaves[0 := GridLeaf(dst)]);
  }

  // ----------------------------------------------------------------------
  // The target

  class Target {
    var items: seq<Item>
    var beats: seq<Beat>

    ghost predicate Valid()
      reads this
    {
      |items| > 0 && |beats| > 0
    }

    /** `beats` stands for the beats the concrete target derives from its
        items. */
    constructor (items: seq<Item>, beats: seq<Beat>)
      requires |items| > 0
      requires |beats| > 0
      ensures Valid()
      ensures SortedBy(this.items, ItemLe())
      ensures multiset(this.items) == multiset(items)
      ensures this.beats == beats
    {
      this.items := SortBy(items, ItemLe());
      this.beats := beats;
    }

    /** The end of the last item: its offset plus its duration. */
    function DurationInMs(): real
      reads this
      requires |items| > 0
    {
      items[|items| - 1].offsetInMs + items[|items| - 1].durationInMs
    }

    /** Appends each event to the beat its offset bisects into. */
    method Bucket(events: seq<QEvent>)
      requires Valid()
      modifies this
      ensures Valid() && items == old(items)
      ensures beats == Bucketed(old(beats), SortedOffsets(old(beats)), events)
    {
      var offsets := SortedOffsets(beats);
      ghost var start := beats;
      var k := 0;
      while k < |events|
        invariant 0 <= k <= |events|
        invariant items == old(items) && Valid()
        invariant beats == Bucketed(start, offsets, events[..k])
      {
        var e := events[k];
        var j := BeatIndex(offsets, e.offset);
        assert events[..k + 1][..k] == events[..k];
        beats := beats[j := AppendEvent(beats[j], e)];
        k := k + 1;
      }
      assert events[..|events|] == events;
    }

    /** Writes every job's grids to the beat its id selects; `false` when an
        id is out of range (Python's `IndexError`), with the earlier writes
        kept. */
    method StoreJobResults(jobs: seq<JobOut>) returns (ok: bool)
      requires Valid()
      modifies this
      ensures Valid() && items == old(items)
      ensures beats == Stored(old(beats), jobs)
      ensures ok <==> JobIdsInRange(|old(beats)|, jobs)
    {
      var k := 0;
      ok := true;
      while k < |jobs|
        invariant 0 <= k <= |jobs|
        invariant items == old(items) && Valid() && |beats| == |old(beats)|
        invariant Stored(old(beats), jobs) == Stored(beats, jobs[k..])
        invariant JobIdsInRange(|beats|, jobs[..k])
      {
        var idx := PyIndex(|beats|, jobs[k].jobId);
        if idx.None? {
          ok := false;
          assert !JobIdsInRange(|beats|, jobs);
          return;
        }
        var j := idx.value;
        assert jobs[k..][1..] == jobs[k + 1..];
        beats := beats[j := beats[j].(qGrids := jobs[k].qGrids)];
        assert jobs[..k + 1] == jobs[..k] + [jobs[k]];
        k := k + 1;
      }
      assert jobs[..k] == jobs;
    }

    /** Hands every beat's next-downbeat proxies to the next beat's first
        leaf. */
    method ShiftDownbeatProxies()
      requires Valid() && HasFirstLeaves(beats)
      modifies this
      ensures Valid() && items == old(items)
      ensures beats == Shifted(old(beats))
    {
      ghost var start := beats;
      var i := 0;
      while i + 1 < |beats|
        invariant 0 <= i < |beats| && |beats| == |start|
        invariant items == old(items) && Valid()
        invariant forall k :: 0 <= k < i ==> beats[k] == ShiftedBeat(start, k)
        invariant beats[i] == ShiftedBeat(start, i).(qGrid := ShiftedBeat(start, i).qGrid.(nextDownbeat := start[i].qGrid.nextDownbeat))
        invariant forall k :: i < k < |beats| ==> beats[k] == start[k]
      {
        var one, two := MoveDownbeatProxies(beats[i].qGrid, beats[i + 1].qGrid);
        beats := beats[i := beats[i].(qGrid := one)][i + 1 := beats[i + 1].(qGrid := two)];
        i := i + 1;
      }
      assert forall k :: 0 <= k < |beats| ==> beats[k] == ShiftedBeat(start, k);
    }

    /** The call up to notation: bucket, dispatch the truthy jobs through the
        handler, store their grids, let the heuristic choose grids and shift
        the downbeat proxies.  A sequence of fewer than two events, or a job
        id out of range, stops it with `IndexError`; in the latter case the
        grids of the jobs before the bad id have been stored. */
    method Call<J>(events: seq<QEvent>, makeJob: (Beat, nat) -> Option<J>,
                   handler: seq<J> -> seq<JobOut>, heuristic: seq<Beat> -> seq<Beat>)
      returns (r: Result<()>)
      requires Valid()
      requires forall bs :: |heuristic(bs)| == |bs|
      requires forall bs :: HasFirstLeaves(heuristic(bs))
      modifies this
      ensures Valid() && items == old(items)
      ensures |events| < 2 ==> r == Err(IndexError) && beats == old(beats)
      ensures |events| >= 2 ==>
        var bucketed := Bucketed(old(beats), SortedOffsets(old(beats)), EventsToBucket(events).value);
        var jobs := handler(TruthyJobs(MakeJobs(bucketed, makeJob)));
        && (r.Ok? <==> JobIdsInRange(|old(beats)|, jobs))
        && (r.Err? ==> r.error == IndexError && beats == Stored(bucketed, jobs))
        && (r.Ok? ==> beats == Shifted(heuristic(Stored(bucketed, jobs))))
    {
      var toBucket := EventsToBucket(events);
      if toBucket.Err? {
        return Err(toBucket.error);
      }
      Bucket(toBucket.value);
      ghost var bucketed := beats;
      var jobs := handler(TruthyJobs(MakeJobs(beats, makeJob)));
      var ok := StoreJobResults(jobs);
      if !ok {
        return Err(IndexError);
      }
      beats := heuristic(beats);
      ShiftDownbeatProxies();
      r := Ok(());
    }
  }

  /** The target's duration reaches at least as far as every item's start
      when no item has a negative duration. */
  lemma DurationCoversItems(t: Target)
    requires |t.items| > 0 && SortedBy(t.items, ItemLe())
    requires forall i :: 0 <= i < |t.items| ==> t.items[i].durationInMs >= 0.0
    ensures forall i :: 0 <= i < |t.items| ==> t.items[i].offsetInMs <= t.DurationInMs()
  {
    var n := |t.items|;
    forall i | 0 <= i < n
      ensures t.items[i].offsetInMs <= t.DurationInMs()
    {
      if i < n - 1 {
        assert ItemLe()(t.items[i], t.items[n - 1]);
      }
    }
  }

  // ----------------------------------------------------------------------
  // Notation of a voice's leaves

  datatype LeafKind = Note(pitch: int) | Chord(pitches: seq<int>) | Rest

  datatype Tempo = Tempo(reference: real, unitsPerMinute: real)

  /** A leaf of the voice being notated.  `annotation` is the value of its
      first annotation mark (the quantized events), `tie` names the tie
      spanner it belongs to by the index of the leaf that created it, and
      `grace` is an attached grace container. */
  datatype NLeaf<A, Gr> = NLeaf(
    kind: LeafKind,
    writtenDuration: real,
    annotation: Option<A>,
    tempo: Option<Tempo>,
    tie: Option<nat>,
    grace: Option<Gr>)

  /** Notates leaf `i`: an annotated leaf is replaced by a rest, a chord or a
      note according to how many pitches the grace handler returns, keeps its
      written duration and tempo mark, receives the grace container and gets
      a tie spanner of its own; an unannotated leaf is returned unchanged. */
  function NotateOne<A, Gr>(leaf: NLeaf<A, Gr>, i: nat, graceHandler: A -> (seq<int>, Option<Gr>)): (r: NLeaf<A, Gr>)
    ensures r.writtenDuration == leaf.writtenDuration
    ensures r.tempo == leaf.tempo
    ensures leaf.annotation.None? ==> r == leaf
    ensures leaf.annotation.Some? ==>
      var pitches := graceHandler(leaf.annotation.value).0;
      && (r.kind.Rest? <==> |pitches| == 0)
      && (r.kind.Chord? <==> |pitches| > 1)
      && (r.kind.Note? <==> |pitches| == 1)
      && (r.kind.Chord? ==> r.kind.pitches == pitches)
      && (r.kind.Note? ==> r.kind.pitch == pitches[0])
      && r.tie == Some(i)
  {
    if leaf.annotation.None? then leaf
    else
      var (pitches, grace) := graceHandler(leaf.annotation.value);
      var kind := if |pitches| == 0 then Rest else if 1 < |pitches| then Chord(pitches) else Note(pitches[0]);
      leaf.(kind := kind, tie := Some(i), grace := grace)
  }

  /** The leaf that replaces `two`: of `one`'s kind and pitches, with `two`'s
      written duration and tempo mark, not yet in any tie. */
  function CopyLeafTypeAndPitches<A, Gr>(one: NLeaf<A, Gr>, two: NLeaf<A, Gr>): (r: NLeaf<A, Gr>)
    ensures r.kind == one.kind
    ensures r.writtenDuration == two.writtenDuration
    ensures r.tempo == two.tempo
    ensures r.annotation.None? && r.tie.None?
  {
    NLeaf(one.kind, two.writtenDuration, None, two.tempo, None, None)
  }

  /** What position `k` of the notated voice holds, given the notated leaf
      before it. */
  ghost predicate NotatedAt<A, Gr>(voice: seq<NLeaf<A, Gr>>, out: seq<NLeaf<A, Gr>>, k: nat,
                                   graceHandler: A -> (seq<int>, Option<Gr>))
    requires k < |voice| && |out| == |voice|
  {
    if voice[k].annotation.Some? || k == 0 then out[k] == NotateOne(voice[k], k, graceHandler)
    else out[k - 1].tie.Some? && out[k] == CopyLeafTypeAndPitches(out[k - 1], voice[k]).(tie := out[k - 1].tie)
  }

  lemma NotatedAtFrame<A, Gr>(voice: seq<NLeaf<A, Gr>>, out: seq<NLeaf<A, Gr>>, out': seq<NLeaf<A, Gr>>, k: nat,
                              graceHandler: A -> (seq<int>, Option<Gr>))
    requires k < |voice| && |out| == |voice| == |out'|
    requires NotatedAt(voice, out, k, graceHandler)
    requires out'[k] == out[k] && (k > 0 ==> out'[k - 1] == out[k - 1])
    ensures NotatedAt(voice, out', k, graceHandler)
  {
  }

  /** The only way notation fails: an empty voice, or a first leaf that is
      neither annotated nor tied, followed by an unannotated leaf (no tie to
      join: `IndexError`). */
  predicate PairwiseFails<A, Gr>(voice: seq<NLeaf<A, Gr>>)
  {
    |voice| == 0
    || (|voice| >= 2 && voice[0].annotation.None? && voice[0].tie.None? && voice[1].annotation.None?)
  }

  /** Notates the leaves first to last; every unannotated leaf after the first
      is replaced, at the same position, by a copy of its notated predecessor's
      kind and joins its tie. */
  method NotateLeavesPairwise<A, Gr>(voice: seq<NLeaf<A, Gr>>, graceHandler: A -> (seq<int>, Option<Gr>))
    returns (r: Result<seq<NLeaf<A, Gr>>>)
    ensures r.Err? <==> PairwiseFails(voice)
    ensures r.Err? ==> r.error == IndexError
    ensures r.Ok? ==> |r.value| == |voice|
    ensures r.Ok? ==> forall k :: 0 <= k < |voice| ==> NotatedAt(voice, r.value, k, graceHandler)
    ensures r.Ok? ==> forall k :: 0 <= k < |voice| ==> r.value[k].writtenDuration == voice[k].writtenDuration
  {
    if |voice| == 0 {
      return Err(IndexError);
    }
    var leaves := voice;
    var i := 0;
    while i < |leaves| - 1
      invariant 0 <= i < |voice| && |leaves| == |voice|
      invariant forall k :: 0 <= k < i ==> NotatedAt(voice, leaves, k, graceHandler)
      invariant i == 0 || voice[i].annotation.Some? ==> leaves[i] == voice[i]
      invariant i > 0 && voice[i].annotation.None? ==>
        leaves[i - 1].tie.Some? && leaves[i] == CopyLeafTypeAndPitches(leaves[i - 1], voice[i]).(tie := leaves[i - 1].tie)
      invariant forall k :: i < k < |voice| ==> leaves[k] == voice[k]
      invariant forall k :: 0 <= k < |voice| ==> leaves[k].writtenDuration == voice[k].writtenDuration
      invariant i > 0 ==> !PairwiseFails(voice)
    {
      var one := NotateOne(leaves[i], i, graceHandler);
      ghost var before := leaves;
      leaves := leaves[i := one];
      forall k | 0 <= k < i
        ensures NotatedAt(voice, leaves, k, graceHandler)
      {
        NotatedAtFrame(voice, before, leaves, k, graceHandler);
      }
      assert NotatedAt(voice, leaves, i, graceHandler);
      if leaves[i + 1].annotation.None? {
        if one.tie.None? {
          assert i == 0;
          return Err(IndexError);
        }
        var two := CopyLeafTypeAndPitches(one, leaves[i + 1]).(tie := one.tie);
        ghost var mid := leaves;
        leaves := leaves[i + 1 := two];
        forall k | 0 <= k <= i
          ensures NotatedAt(voice, leaves, k, graceHandler)
        {
          NotatedAtFrame(voice, mid, leaves, k, graceHandler);
        }
      }
      i := i + 1;
    }
    ghost var before := leaves;
    var last := |leaves| - 1;
    leaves := leaves[last := NotateOne(leaves[last], last, graceHandler)];
    forall k | 0 <= k < last
      ensures NotatedAt(voice, leaves, k, graceHandler)
    {
      NotatedAtFrame(voice, before, leaves, k, graceHandler);
    }
    assert NotatedAt(voice, leaves, last, graceHandler);
    r := Ok(leaves);
  }

  /** An unannotated stretch after a notated leaf is one tie of that leaf's
      kind: every leaf in it carries the leaf's tie and kind. */
  lemma {:induction false} UnannotatedRunJoinsTie<A, Gr>(voice: seq<NLeaf<A, Gr>>, out: seq<NLeaf<A, Gr>>,
                                                          graceHandler: A -> (seq<int>, Option<Gr>), j: nat, k: nat)
    requires |out| == |voice| && j <= k < |voice|
    requires forall m :: 0 <= m < |voice| ==> NotatedAt(voice, out, m, graceHandler)
    requires forall m :: j < m <= k ==> voice[m].annotation.None?
    ensures out[k].tie == out[j].tie && out[k].kind == out[j].kind
    decreases k - j
  {
    if j < k {
      UnannotatedRunJoinsTie(voice, out, graceHandler, j, k - 1);
      assert NotatedAt(voice, out, k, graceHandler);
    }
  }
}
