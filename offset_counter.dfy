/** A counter of offsets: every item with a start and a stop adds one at
    each, every other item is read as a single offset and adds one there. */
module OffsetCounter {
  import opened Common

  /** What the counter is built from: a timespan-like item with start and
      stop offsets, a component (counted through its timespan), or anything
      that converts to an offset. */
  datatype CountItem =
    | Span(startOffset: real, stopOffset: real)
    | Component(timespanStart: real, timespanStop: real)
    | Point(offset: real)

  /** The offsets an item contributes, one entry per increment. */
  function ItemOffsets(item: CountItem): seq<real>
  {
    match item
    case Span(start, stop) => [start, stop]
    case Component(start, stop) => [start, stop]
    case Point(x) => [x]
  }

  function Endpoints(items: seq<CountItem>): seq<real>
  {
    if |items| == 0 then [] else Endpoints(items[..|items| - 1]) + ItemOffsets(items[|items| - 1])
  }

  /** The counter after one `counter[x] += 1`. */
  function Increment(m: map<real, nat>, x: real): map<real, nat>
  {
    m[x := (if x in m then m[x] else 0) + 1]
  }

  function IncrementAll(m: map<real, nat>, xs: seq<real>): map<real, nat>
    decreases |xs|
  {
    if |xs| == 0 then m else IncrementAll(Increment(m, xs[0]), xs[1..])
  }

  /** The counter built from `items`, one increment per contributed offset,
      in order. */
  function Count(items: seq<CountItem>): map<real, nat>
  {
    if |items| == 0 then map[] else IncrementAll(Count(items[..|items| - 1]), ItemOffsets(items[|items| - 1]))
  }

  /** The number of items with a start and a stop. */
  function SpanItems(items: seq<CountItem>): nat
  {
    if |items| == 0 then 0
    else SpanItems(items[..|items| - 1]) + (if items[|items| - 1].Point? then 0 else 1)
  }

  function PointItems(items: seq<CountItem>): nat
  {
    if |items| == 0 then 0
    else PointItems(items[..|items| - 1]) + (if items[|items| - 1].Point? then 1 else 0)
  }

  ghost function Pick(m: map<real, nat>): real
    requires |m| > 0
  {
    assert exists k :: k in m.Keys by {
      if forall k :: k !in m.Keys {
        assert false;
      }
    }
    var k :| k in m; k
  }

  /** The sum of all counts. */
  ghost function Total(m: map<real, nat>): nat
    decreases |m|
  {
    if |m| == 0 then 0
    else
      var k := Pick(m);
      assert (m - {k}).Keys == m.Keys - {k};
      m[k] + Total(m - {k})
  }

  /** The total does not depend on which key is taken out first. */
  lemma {:induction false} TotalRemove(m: map<real, nat>, k: real)
    requires k in m
    ensures Total(m) == m[k] + Total(m - {k})
    decreases |m|
  {
    var j := Pick(m);
    if j != k {
      assert (m - {j}).Keys == m.Keys - {j};
      assert (m - {k}).Keys == m.Keys - {k};
      TotalRemove(m - {j}, k);
      TotalRemove(m - {k}, j);
      assert m - {j} - {k} == m - {k} - {j};
    }
  }

  /** One increment adds one to the total. */
  lemma TotalIncrement(m: map<real, nat>, x: real)
    ensures Total(Increment(m, x)) == Total(m) + 1
  {
    var m' := Increment(m, x);
    TotalRemove(m', x);
    if x in m {
      TotalRemove(m, x);
      assert m' - {x} == m - {x};
    } else {
      assert m' - {x} == m;
    }
  }

  lemma {:induction false} TotalIncrementAll(m: map<real, nat>, xs: seq<real>)
    ensures Total(IncrementAll(m, xs)) == Total(m) + |xs|
    decreases |xs|
  {
    if |xs| > 0 {
      TotalIncrement(m, xs[0]);
      TotalIncrementAll(Increment(m, xs[0]), xs[1..]);
    }
  }

  /** The counts add up to two per item with a start and a stop plus one per
      other item. */
  lemma {:induction false} CountTotal(items: seq<CountItem>)
    ensures Total(Count(items)) == 2 * SpanItems(items) + PointItems(items)
    decreases |items|
  {
    if |items| > 0 {
      CountTotal(items[..|items| - 1]);
      TotalIncrementAll(Count(items[..|items| - 1]), ItemOffsets(items[|items| - 1]));
    }
  }

  /** A counter is the multiset of the offsets it was incremented at. */
  ghost predicate Represents(m: map<real, nat>, bag: multiset<real>)
  {
    forall x :: (x in m <==> bag[x] > 0) && (x in m ==> m[x] == bag[x])
  }

  lemma {:induction false} IncrementAllRepresents(m: map<real, nat>, bag: multiset<real>, xs: seq<real>)
    requires Represents(m, bag)
    ensures Represents(IncrementAll(m, xs), bag + multiset(xs))
    decreases |xs|
  {
    if |xs| > 0 {
      assert Represents(Increment(m, xs[0]), bag + multiset{xs[0]});
      IncrementAllRepresents(Increment(m, xs[0]), bag + multiset{xs[0]}, xs[1..]);
      assert xs == [xs[0]] + xs[1..];
      assert multiset(xs) == multiset{xs[0]} + multiset(xs[1..]);
    }
  }

  /** Every offset is counted exactly as often as the items contribute it,
      and only contributed offsets are keys. */
  lemma {:induction false} CountIsEndpointMultiset(items: seq<CountItem>)
    ensures Represents(Count(items), multiset(Endpoints(items)))
    decreases |items|
  {
    if |items| > 0 {
      var p := items[..|items| - 1];
      CountIsEndpointMultiset(p);
      IncrementAllRepresents(Count(p), multiset(Endpoints(p)), ItemOffsets(items[|items| - 1]));
    }
  }

  lemma CountSpanStep(items: seq<CountItem>)
    requires |items| > 0 && items[|items| - 1].Span?
    ensures var last := items[|items| - 1];
      Count(items) == Increment(Increment(Count(items[..|items| - 1]), last.startOffset), last.stopOffset)
  {
    var last := items[|items| - 1];
    var xs := [last.startOffset, last.stopOffset];
    var m := Count(items[..|items| - 1]);
    assert xs[1..] == [last.stopOffset];
    assert xs[1..][1..] == [];
    assert Count(items) == IncrementAll(m, xs);
    assert IncrementAll(m, xs) == IncrementAll(Increment(m, xs[0]), [last.stopOffset]);
    assert IncrementAll(Increment(m, xs[0]), [last.stopOffset])
        == IncrementAll(Increment(Increment(m, xs[0]), last.stopOffset), []);
  }

  /** The counter of the doc example: the timespans [0, 16), [5, 12) and
      [-2, 8) less [6, 10), that is [0, 6), [10, 16), [5, 6), [10, 12) and
      [-2, 6). */
  lemma DocExample()
    ensures Count([Span(0.0, 6.0), Span(10.0, 16.0), Span(5.0, 6.0), Span(10.0, 12.0), Span(-2.0, 6.0)])
         == map[-2.0 := 1, 0.0 := 1, 5.0 := 1, 6.0 := 3, 10.0 := 2, 12.0 := 1, 16.0 := 1]
  {
    var items := [Span(0.0, 6.0), Span(10.0, 16.0), Span(5.0, 6.0), Span(10.0, 12.0), Span(-2.0, 6.0)];
    assert items[..0] == [];
    assert items[..1][..0] == [];
    CountSpanStep(items[..1]);
    assert Count(items[..1]) == map[0.0 := 1, 6.0 := 1];
    assert items[..2][..1] == items[..1];
    CountSpanStep(items[..2]);
    assert Count(items[..2]) == map[0.0 := 1, 6.0 := 1, 10.0 := 1, 16.0 := 1];
    assert items[..3][..2] == items[..2];
    CountSpanStep(items[..3]);
    assert Count(items[..3]) == map[0.0 := 1, 6.0 := 2, 10.0 := 1, 16.0 := 1, 5.0 := 1];
    assert items[..4][..3] == items[..3];
    CountSpanStep(items[..4]);
    assert Count(items[..4]) == map[0.0 := 1, 6.0 := 2, 10.0 := 2, 16.0 := 1, 5.0 := 1, 12.0 := 1];
    assert items[..5][..4] == items[..4];
    assert items[..5] == items;
    CountSpanStep(items);
  }

  class Counter {
    var counts: map<real, nat>

    /** Builds the counter; `None` (and an empty sequence) gives an empty one. */
    constructor (items: Option<seq<CountItem>>)
      ensures items.None? ==> counts == map[]
      ensures items.Some? ==> counts == Count(items.value)
      ensures items.Some? ==> Total(counts) == 2 * SpanItems(items.value) + PointItems(items.value)
    {
      counts := map[];
      new;
      if items.Some? {
        var xs := items.value;
        var k := 0;
        while k < |xs|
          invariant 0 <= k <= |xs|
          invariant counts == Count(xs[..k])
        {
          assert xs[..k + 1][..k] == xs[..k];
          var offs := ItemOffsets(xs[k]);
          var before := counts;
          var t := 0;
          while t < |offs|
            invariant 0 <= t <= |offs|
            invariant IncrementAll(counts, offs[t..]) == IncrementAll(before, offs)
          {
            assert offs[t..][1..] == offs[t + 1..];
            var x := offs[t];
            counts := counts[x := (if x in counts then counts[x] else 0) + 1];
            t := t + 1;
          }
          k := k + 1;
        }
        assert xs[..|xs|] == xs;
        CountTotal(xs);
      }
    }
  }
}
