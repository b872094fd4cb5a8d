/** A quantization job: given a search tree and a sequence of event proxies,
    it fits one grid to the proxies and then expands grids with the search
    tree until no new grid appears, recording every grid it visited.

    The grid type `G`, the proxy type `P` and the search-tree type `T` are left
    abstract.  Calling a search tree on a grid and fitting a fresh grid to the
    proxies are parameters of `Call`; `size` is a measure on grids that every
    child a search tree returns is smaller in, which is what makes the
    expansion finite. */
module QuantizationJob {
  import opened Common

  /** Every child a search tree returns is strictly smaller than its parent. */
  ghost predicate Shrinks<G(!new)>(expand: G -> seq<G>, size: G -> nat)
  {
    forall g, i :: 0 <= i < |expand(g)| ==> size(expand(g)[i]) < size(g)
  }

  /** Number of grids in the tree that repeated expansion grows below `g`,
      `g` included. */
  function TreeSize<G(!new)>(expand: G -> seq<G>, size: G -> nat, g: G): nat
    requires Shrinks(expand, size)
    decreases size(g)
  {
    var ch := expand(g);
    var sizes := seq(|ch|, i requires 0 <= i < |ch| => TreeSize(expand, size, ch[i]));
    SumIntsNonNeg(sizes);
    1 + SumInts(sizes)
  }

  lemma TreeSizeUnfold<G(!new)>(expand: G -> seq<G>, size: G -> nat, g: G)
    requires Shrinks(expand, size)
    ensures TreeSize(expand, size, g) == 1 + Weight(expand, size, expand(g))
  {
    var ch := expand(g);
    assert Sizes(expand, size, ch)
        == seq(|ch|, i requires 0 <= i < |ch| => TreeSize(expand, size, ch[i]));
  }

  function Sizes<G(!new)>(expand: G -> seq<G>, size: G -> nat, gs: seq<G>): seq<int>
    requires Shrinks(expand, size)
  {
    seq(|gs|, i requires 0 <= i < |gs| => TreeSize(expand, size, gs[i]))
  }

  /** Total tree size of a worklist; it drops by one at every step of the
      expansion loop. */
  function Weight<G(!new)>(expand: G -> seq<G>, size: G -> nat, gs: seq<G>): nat
    requires Shrinks(expand, size)
  {
    SumIntsNonNeg(Sizes(expand, size, gs));
    SumInts(Sizes(expand, size, gs))
  }

  lemma WeightAppend<G(!new)>(expand: G -> seq<G>, size: G -> nat, a: seq<G>, b: seq<G>)
    requires Shrinks(expand, size)
    ensures Weight(expand, size, a + b) == Weight(expand, size, a) + Weight(expand, size, b)
  {
    assert Sizes(expand, size, a + b) == Sizes(expand, size, a) + Sizes(expand, size, b);
    SumIntsAppend(Sizes(expand, size, a), Sizes(expand, size, b));
  }

  /** Popping the top of a non-empty worklist and pushing its children
      lowers the weight by exactly one. */
  lemma WeightStep<G(!new)>(expand: G -> seq<G>, size: G -> nat, stack: seq<G>)
    requires Shrinks(expand, size)
    requires |stack| > 0
    ensures Weight(expand, size, stack[..|stack| - 1] + expand(stack[|stack| - 1]))
         == Weight(expand, size, stack) - 1
  {
    var top := stack[|stack| - 1];
    var rest := stack[..|stack| - 1];
    assert stack == rest + [top];
    WeightAppend(expand, size, rest, [top]);
    WeightAppend(expand, size, rest, expand(top));
    assert Sizes(expand, size, [top]) == [TreeSize(expand, size, top)];
    var t := TreeSize(expand, size, top);
    assert [t][..|[t]| - 1] == [];
    assert SumInts([t]) == t;
    assert Weight(expand, size, [top]) == t;
    TreeSizeUnfold(expand, size, top);
  }

  /** The grids the expansion loop records, in the order it records them,
      starting from the worklist `stack`: the loop pops the LAST grid, pushes
      its children after the remaining ones and records the popped grid. */
  function Walk<G(!new)>(expand: G -> seq<G>, size: G -> nat, stack: seq<G>): seq<G>
    requires Shrinks(expand, size)
    decreases Weight(expand, size, stack)
  {
    if |stack| == 0 then []
    else
      WeightStep(expand, size, stack);
      [stack[|stack| - 1]] + Walk(expand, size, stack[..|stack| - 1] + expand(stack[|stack| - 1]))
  }

  /** Every child that the search tree returned for a grid in `gs`, in order. */
  function Children<G>(expand: G -> seq<G>, gs: seq<G>): seq<G>
  {
    if |gs| == 0 then [] else expand(gs[0]) + Children(expand, gs[1..])
  }

  /** Last in, first out: everything reachable from the grids pushed later is
      recorded before anything from the grids pushed earlier. */
  lemma {:induction false} WalkAppend<G(!new)>(expand: G -> seq<G>, size: G -> nat, s: seq<G>, t: seq<G>)
    requires Shrinks(expand, size)
    ensures Walk(expand, size, s + t) == Walk(expand, size, t) + Walk(expand, size, s)
    decreases Weight(expand, size, t)
  {
    if |t| == 0 {
      assert s + t == s;
    } else {
      var top := t[|t| - 1];
      var rest := t[..|t| - 1];
      assert (s + t)[..|s + t| - 1] + expand(top) == s + (rest + expand(top));
      WeightStep(expand, size, t);
      WalkAppend(expand, size, s, rest + expand(top));
    }
  }

  /** Depth first: a grid is recorded first, then the whole subtree of its
      last child, then that of the child before it, and so on. */
  lemma WalkPreorder<G(!new)>(expand: G -> seq<G>, size: G -> nat, g: G)
    requires Shrinks(expand, size)
    ensures Walk(expand, size, [g]) == [g] + Walk(expand, size, expand(g))
    ensures |expand(g)| > 0 ==>
      var ch := expand(g);
      Walk(expand, size, ch)
        == Walk(expand, size, [ch[|ch| - 1]]) + Walk(expand, size, ch[..|ch| - 1])
  {
    assert [g][..0] + expand(g) == expand(g);
    var ch := expand(g);
    if |ch| > 0 {
      assert ch == ch[..|ch| - 1] + [ch[|ch| - 1]];
      WalkAppend(expand, size, ch[..|ch| - 1], [ch[|ch| - 1]]);
    }
  }

  lemma ChildrenAppend<G>(expand: G -> seq<G>, a: seq<G>, b: seq<G>)
    ensures Children(expand, a + b) == Children(expand, a) + Children(expand, b)
  {
    if |a| > 0 {
      assert (a + b)[1..] == a[1..] + b;
      ChildrenAppend(expand, a[1..], b);
    } else {
      assert a + b == b;
    }
  }

  /** Every grid ever pushed on the worklist, the initial ones and every one
      the search tree returned, is recorded exactly once. */
  lemma {:induction false} WalkRecordsEveryPush<G(!new)>(expand: G -> seq<G>, size: G -> nat, stack: seq<G>)
    requires Shrinks(expand, size)
    ensures multiset(Walk(expand, size, stack))
         == multiset(stack) + multiset(Children(expand, Walk(expand, size, stack)))
    ensures |Walk(expand, size, stack)| == |stack| + |Children(expand, Walk(expand, size, stack))|
    decreases Weight(expand, size, stack)
  {
    if |stack| > 0 {
      var top := stack[|stack| - 1];
      var rest := stack[..|stack| - 1];
      var next := rest + expand(top);
      WeightStep(expand, size, stack);
      WalkRecordsEveryPush(expand, size, next);
      var w := Walk(expand, size, next);
      var cw := Children(expand, w);
      assert Walk(expand, size, stack) == [top] + w;
      assert ([top] + w)[1..] == w;
      assert Children(expand, [top] + w) == expand(top) + cw;
      assert stack == rest + [top];
      assert multiset(stack) == multiset(rest) + multiset{top};
      assert multiset(next) == multiset(rest) + multiset(expand(top));
      assert multiset([top] + w) == multiset{top} + multiset(w);
      assert multiset(expand(top) + cw) == multiset(expand(top)) + multiset(cw);
      MultisetRegroup(multiset{top}, multiset(w), multiset(next), multiset(cw), multiset(rest), multiset(expand(top)));
    }
  }

  /** Bookkeeping for one pop: the popped grid, the rest of the worklist,
      and its children regroup. */
  lemma MultisetRegroup<T>(top: multiset<T>, w: multiset<T>, next: multiset<T>, cw: multiset<T>,
                           rest: multiset<T>, children: multiset<T>)
    requires w == next + cw && next == rest + children
    ensures top + w == (rest + top) + (children + cw)
  {
    calc {
      top + w;
      top + ((rest + children) + cw);
      (rest + top) + (children + cw);
    }
  }

  /** The expansion records exactly as many grids as the tree below the
      worklist holds. */
  lemma {:induction false} WalkLength<G(!new)>(expand: G -> seq<G>, size: G -> nat, stack: seq<G>)
    requires Shrinks(expand, size)
    ensures |Walk(expand, size, stack)| == Weight(expand, size, stack)
    decreases Weight(expand, size, stack)
  {
    if |stack| > 0 {
      WeightStep(expand, size, stack);
      WalkLength(expand, size, stack[..|stack| - 1] + expand(stack[|stack| - 1]));
    } else {
      assert Sizes(expand, size, stack) == [];
    }
  }

  /** The search tree `tree` as a function from a grid to its children. */
  function Expander<T, G>(search: (T, G) -> seq<G>, tree: T): G -> seq<G>
  {
    g => search(tree, g)
  }

  class Job<T(==), P(==), G(==,!new)> {
    var jobId: int
    var searchTree: T
    var proxies: seq<P>
    var qGrids: seq<G>

    /** `searchTree` is `None` when the caller passed a false value, and
        `defaultTree` stands for the unweighted search tree built then;
        `qGrids` is `None` when the caller passed none. */
    constructor (jobId: int, searchTree: Option<T>, proxies: seq<P>, qGrids: Option<seq<G>>, defaultTree: T)
      ensures this.jobId == jobId
      ensures this.searchTree == (if searchTree.Some? then searchTree.value else defaultTree)
      ensures this.proxies == proxies
      ensures this.qGrids == (if qGrids.Some? then qGrids.value else [])
    {
      this.jobId := jobId;
      this.searchTree := if searchTree.Some? then searchTree.value else defaultTree;
      this.proxies := proxies;
      this.qGrids := if qGrids.Some? then qGrids.value else [];
    }

    /** Runs the job: `search(tree, g)` is the search tree's children of `g`,
        and `fit(proxies)` is a fresh grid fitted to the proxies. */
    method Call(search: (T, G) -> seq<G>, size: G -> nat, fit: seq<P> -> G)
      requires Shrinks(Expander(search, searchTree), size)
      modifies this
      ensures jobId == old(jobId) && searchTree == old(searchTree) && proxies == old(proxies)
      ensures qGrids == Walk(Expander(search, searchTree), size, [fit(proxies)])
      ensures |qGrids| > 0 && qGrids[0] == fit(proxies)
    {
      var tree := searchTree;
      var expand := Expander(search, tree);
      var first := fit(proxies);
      var oldGrids: seq<G> := [];
      var newGrids: seq<G> := [first];
      while |newGrids| > 0
        invariant oldGrids + Walk(expand, size, newGrids) == Walk(expand, size, [first])
        invariant |Walk(expand, size, [first])| > 0 && Walk(expand, size, [first])[0] == first
        invariant jobId == old(jobId) && searchTree == old(searchTree) && proxies == old(proxies)
        decreases Weight(expand, size, newGrids)
      {
        WeightStep(expand, size, newGrids);
        var g := newGrids[|newGrids| - 1];
        newGrids := newGrids[..|newGrids| - 1];
        var results := expand(g);
        newGrids := newGrids + results;
        oldGrids := oldGrids + [g];
      }
      qGrids := oldGrids;
    }

    /** Python `==`: another job (`null` stands for any other type) with equal
        id, search tree, proxies and grids. */
    predicate Equal(other: Job?<T, P, G>)
      reads this, other
      ensures Equal(other) ==> other != null && other.qGrids == qGrids && other.proxies == proxies
    {
      other != null
      && jobId == other.jobId
      && searchTree == other.searchTree
      && proxies == other.proxies
      && qGrids == other.qGrids
    }
  }
}
