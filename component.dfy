/** Score components: the parent and music links between them, sibling
    lookup, cycle checks, named-children bookkeeping up the parent chain,
    stale-offset flags, and the election of the effective indicator.
    Components are identified by numbers within one score, which holds
    every link. */
module Component {
  import opened Common

  type Comp = nat

  class Score {
    /** `_parent`; a component without an entry has no parent. */
    var parent: map<Comp, Comp>
    /** `_music` of each container. */
    var music: map<Comp, seq<Comp>>
    /** Containers whose music is simultaneous. */
    var simultaneous: set<Comp>
    /** `_name`; a component without an entry has no name. */
    var name: map<Comp, string>
    /** `_named_children` of each container. */
    var namedChildren: map<Comp, map<string, seq<Comp>>>
    /** Components whose `_offsets_are_current` flag is set. */
    var offsetsCurrent: set<Comp>
    /** Components whose `_offsets_in_seconds_are_current` flag is set. */
    var secondsCurrent: set<Comp>
    /** A parent is always shallower than its child, so parent chains end. */
    ghost var depth: map<Comp, nat>

    ghost predicate Ranked()
      reads this`parent, this`depth
    {
      forall c :: c in parent ==> c in depth && parent[c] in depth && depth[parent[c]] < depth[c]
    }

    /** The links agree: a child is in its parent's music exactly once, and
      everything in a container's music has that container as parent. */
    ghost predicate Valid()
      reads this`parent, this`depth, this`music
    {
      && Ranked()
      && (forall c :: c in parent ==> parent[c] in music && c in music[parent[c]])
      && (forall p :: p in music ==> Distinct(music[p]))
      && (forall p, i :: p in music && 0 <= i < |music[p]| ==> music[p][i] in parent && parent[music[p][i]] == p)
    }

    /** The improper parentage: the component, its parent, and so on up to
      the root. */
    function Parentage(c: Comp): (r: seq<Comp>)
      requires Ranked()
      reads this`parent, this`depth
      ensures |r| >= 1 && r[0] == c
      ensures c in parent ==> r == [c] + Parentage(parent[c])
      ensures c !in parent ==> r == [c]
      decreases if c in depth then depth[c] else 0
    {
      if c in parent then [c] + Parentage(parent[c]) else [c]
    }

    /** Every proper ancestor is shallower than the component. */
    lemma {:induction false} ParentageShallower(c: Comp)
      requires Ranked()
      ensures forall i :: 1 <= i < |Parentage(c)| ==> c in depth && Parentage(c)[i] in depth && depth[Parentage(c)[i]] < depth[c]
      decreases if c in depth then depth[c] else 0
    {
      if c in parent {
        var p := parent[c];
        ParentageShallower(p);
        var pc, pp := Parentage(c), Parentage(p);
        assert pc == [c] + pp;
        assert depth[p] < depth[c];
        forall i | 1 <= i < |pc|
          ensures pc[i] in depth && depth[pc[i]] < depth[c]
        {
          assert pc[i] == pp[i - 1];
          if i > 1 {
            assert depth[pp[i - 1]] < depth[p];
          }
        }
      } else {
        assert Parentage(c) == [c];
      }
    }

    /** A component occurs once in its parentage. */
    lemma {:induction false} ParentageDistinct(c: Comp)
      requires Ranked()
      ensures Distinct(Parentage(c))
      decreases if c in depth then depth[c] else 0
    {
      if c in parent {
        ParentageDistinct(parent[c]);
        ParentageShallower(c);
      }
    }

    /** `_get_sibling(n)`: the component itself for 0; otherwise the
      component `n` places away in the parent's music, if the parent exists,
      is not simultaneous and the place is in range. */
    function GetSibling(c: Comp, n: int): (r: Option<Comp>)
      requires Valid()
      reads this`parent, this`depth, this`music, this`simultaneous
      ensures n == 0 ==> r == Some(c)
      ensures n != 0 && r.Some? ==>
        c in parent && parent[c] !in simultaneous
        && 0 <= IndexOf(music[parent[c]], c) + n < |music[parent[c]]|
        && r.value == music[parent[c]][IndexOf(music[parent[c]], c) + n]
      ensures n != 0 && r.None? ==>
        c !in parent || parent[c] in simultaneous
        || !(0 <= IndexOf(music[parent[c]], c) + n < |music[parent[c]]|)
    {
      if n == 0 then Some(c)
      else if c !in parent then None
      else
        var p := parent[c];
        if p in simultaneous then None
        else
          var index := IndexOf(music[p], c);
          if 0 < n then
            if index + n < |music[p]| then Some(music[p][index + n]) else None
          else
            if 0 <= index + n then Some(music[p][index + n]) else None
    }

    /** Stepping back by the same amount returns to the start. */
    lemma SiblingInverse(c: Comp, n: int, d: Comp)
      requires Valid()
      requires n != 0 && GetSibling(c, n) == Some(d)
      ensures GetSibling(d, -n) == Some(c)
    {
      var p := parent[c];
      var i := IndexOf(music[p], c);
      assert music[p][i + n] == d;
      IndexOfDistinct(music[p], i + n);
      assert parent[d] == p;
    }

    /** `_check_for_cycles`: whether one of the components is the component
      or one of its ancestors. */
    function CheckForCycles(c: Comp, components: seq<Comp>): (r: bool)
      requires Ranked()
      reads this`parent, this`depth
    {
      if |components| == 0 then false
      else if components[0] in Parentage(c) then true
      else CheckForCycles(c, components[1..])
    }

    lemma {:induction false} CheckForCyclesFinds(c: Comp, components: seq<Comp>)
      requires Ranked()
      ensures CheckForCycles(c, components) <==> exists x :: x in components && x in Parentage(c)
    {
      if |components| > 0 {
        CheckForCyclesFinds(c, components[1..]);
        if components[0] in Parentage(c) {
          assert components[0] in components;
        } else if CheckForCycles(c, components[1..]) {
          var x :| x in components[1..] && x in Parentage(c);
          assert x in components;
        } else {
          forall x | x in components ensures x !in Parentage(c) {
            if x != components[0] {
              assert x in components[1..];
            }
          }
        }
      }
    }

    /** A component is in a cycle with itself; whatever is in a cycle with a
      parent is in one with its child; a root is in a cycle only with
      itself. */
    lemma CycleProperties(c: Comp, components: seq<Comp>)
      requires Ranked()
      ensures CheckForCycles(c, [c])
      ensures c in parent && CheckForCycles(parent[c], components) ==> CheckForCycles(c, components)
      ensures c !in parent ==> (CheckForCycles(c, components) <==> c in components)
    {
      CheckForCyclesFinds(c, components);
      if c in parent {
        CheckForCyclesFinds(parent[c], components);
      }
    }

    /** The `name` setter: in every proper ancestor, the component moves
      from its old name's list to the new name's list. */
    method SetName(c: Comp, newName: Option<string>)
      requires Ranked()
      requires forall p :: p in Parentage(c)[1..] ==> p in namedChildren
      requires c in name ==> forall p :: p in Parentage(c)[1..] ==>
        name[c] in namedChildren[p] && c in namedChildren[p][name[c]]
      modifies this`namedChildren, this`name
      ensures name == if newName.Some? then old(name)[c := newName.value] else old(name) - {c}
      ensures namedChildren.Keys == old(namedChildren).Keys
      ensures forall p :: p in namedChildren ==>
        namedChildren[p] == if p in old(Parentage(c))[1..]
          then Rename(old(namedChildren)[p], c, if c in old(name) then Some(old(name)[c]) else None, newName)
          else old(namedChildren)[p]
    {
      var oldName := if c in name then Some(name[c]) else None;
      var anc := Parentage(c);
      ParentageDistinct(c);
      forall j | 1 <= j < |anc| ensures anc[j] in namedChildren && Renamable(namedChildren[anc[j]], c, oldName) {
        assert anc[j] in anc[1..];
      }
      RenameInAncestors(anc, c, oldName, newName);
      if newName.Some? {
        name := name[c := newName.value];
      } else {
        name := name - {c};
      }
    }

    /** The loop of the `name` setter over the proper ancestors `anc[1..]`. */
    method RenameInAncestors(anc: seq<Comp>, c: Comp, oldName: Option<string>, newName: Option<string>)
      requires |anc| >= 1 && Distinct(anc)
      requires forall j :: 1 <= j < |anc| ==> anc[j] in namedChildren && Renamable(namedChildren[anc[j]], c, oldName)
      modifies this`namedChildren
      ensures namedChildren.Keys == old(namedChildren).Keys
      ensures forall p :: p in namedChildren && p in anc[1..] ==> Renamable(old(namedChildren)[p], c, oldName)
      ensures forall p :: p in namedChildren ==>
        namedChildren[p] == (if p in anc[1..] then Rename(old(namedChildren)[p], c, oldName, newName) else old(namedChildren)[p])
    {
      ghost var before := namedChildren;
      for i := 1 to |anc|
        invariant namedChildren.Keys == before.Keys
        invariant forall j :: 1 <= j < i ==> namedChildren[anc[j]] == Rename(before[anc[j]], c, oldName, newName)
        invariant forall j :: i <= j < |anc| ==> namedChildren[anc[j]] == before[anc[j]]
        invariant forall p :: p in namedChildren && p !in anc[1..] ==> namedChildren[p] == before[p]
      {
        var p := anc[i];
        assert p in anc[1..];
        assert namedChildren[p] == before[p];
        ghost var prev := namedChildren;
        namedChildren := namedChildren[p := Rename(namedChildren[p], c, oldName, newName)];
        forall j | 1 <= j < |anc| && j != i
          ensures namedChildren[anc[j]] == prev[anc[j]]
        {
          if j < i { assert anc[j] != anc[i]; } else { assert anc[i] != anc[j]; }
        }
      }
      RenamedAlongChain(anc, before, namedChildren, c, oldName, newName);
    }

    /** `_update_later`: clears the offsets flag of the component and every
      ancestor, or, when only seconds are asked for, the seconds flag. */
    method UpdateLater(c: Comp, offsets: bool, offsetsInSeconds: bool)
      requires Ranked()
      requires offsets || offsetsInSeconds
      modifies this`offsetsCurrent, this`secondsCurrent
      ensures offsets ==> offsetsCurrent == old(offsetsCurrent) - Elements(Parentage(c))
      ensures offsets ==> secondsCurrent == old(secondsCurrent)
      ensures !offsets ==> secondsCurrent == old(secondsCurrent) - Elements(Parentage(c))
      ensures !offsets ==> offsetsCurrent == old(offsetsCurrent)
    {
      var anc := Parentage(c);
      for i := 0 to |anc|
        invariant offsets ==> offsetsCurrent == old(offsetsCurrent) - Elements(anc[..i])
        invariant offsets ==> secondsCurrent == old(secondsCurrent)
        invariant !offsets ==> secondsCurrent == old(secondsCurrent) - Elements(anc[..i])
        invariant !offsets ==> offsetsCurrent == old(offsetsCurrent)
      {
        ElementsStep(anc, i);
        if offsets {
          ClearStep(old(offsetsCurrent), Elements(anc[..i]), anc[i]);
          offsetsCurrent := offsetsCurrent - {anc[i]};
        } else if offsetsInSeconds {
          ClearStep(old(secondsCurrent), Elements(anc[..i]), anc[i]);
          secondsCurrent := secondsCurrent - {anc[i]};
        }
      }
      assert anc[..|anc|] == anc;
    }

    /** `_remove_from_parent`: marks offsets stale up the old parentage,
      removes the component from its parent's music and clears its
      parent. The links stay consistent. */
    method RemoveFromParent(c: Comp)
      requires Valid()
      modifies this`offsetsCurrent, this`secondsCurrent, this`parent, this`music
      ensures Valid()
      ensures parent == old(parent) - {c}
      ensures c in old(parent) ==>
        music == old(music)[old(parent)[c] := RemoveFirst(old(music)[old(parent)[c]], c)]
      ensures c !in old(parent) ==> music == old(music)
      ensures offsetsCurrent == old(offsetsCurrent) - Elements(old(Parentage(c)))
      ensures secondsCurrent == old(secondsCurrent)
      ensures Parentage(c) == [c]
    {
      UpdateLater(c, true, false);
      if c in parent {
        var p := parent[c];
        RemoveFirstDistinct(music[p], c);
        music := music[p := RemoveFirst(music[p], c)];
      }
      parent := parent - {c};
      ghost var m := music;
      assert forall q, i :: q in m && 0 <= i < |m[q]| ==> m[q][i] in old(music)[q];
    }
  }

  /** The set of a sequence's elements. */
  function Elements(s: seq<Comp>): (r: set<Comp>)
    ensures forall x :: x in r <==> x in s
  {
    set x | x in s
  }

  /** Clearing one more flag. */
  lemma ClearStep(flags: set<Comp>, cleared: set<Comp>, c: Comp)
    ensures (flags - cleared) - {c} == flags - (cleared + {c})
  {
  }

  lemma ElementsStep(s: seq<Comp>, i: nat)
    requires i < |s|
    ensures Elements(s[..i + 1]) == Elements(s[..i]) + {s[i]}
  {
    assert s[..i + 1] == s[..i] + [s[i]];
  }

  // ----------------------------------------------------------------------
  // Named children

  /** The component is listed under its old name, if it has one. */
  predicate Renamable(nc: map<string, seq<Comp>>, c: Comp, oldName: Option<string>)
  {
    oldName.Some? ==> oldName.value in nc && c in nc[oldName.value]
  }

  /** One container's named children after `c` is renamed: removed from the
      old name's list (the key deleted if the list empties), appended to the
      new name's list. */
  function Rename(nc: map<string, seq<Comp>>, c: Comp, oldName: Option<string>, newName: Option<string>): map<string, seq<Comp>>
    requires Renamable(nc, c, oldName)
  {
    var removed :=
      if oldName.None? then nc
      else
        var rest := RemoveFirst(nc[oldName.value], c);
        if |rest| == 0 then nc - {oldName.value} else nc[oldName.value := rest];
    if newName.None? then removed
    else removed[newName.value := (if newName.value in removed then removed[newName.value] else []) + [c]]
  }

  /** After the loop over the proper ancestors: every map of an ancestor is
      renamed, every other one is unchanged. */
  lemma RenamedAlongChain(anc: seq<Comp>, before: map<Comp, map<string, seq<Comp>>>, after: map<Comp, map<string, seq<Comp>>>,
                          c: Comp, oldName: Option<string>, newName: Option<string>)
    requires |anc| >= 1 && after.Keys == before.Keys
    requires forall j :: 1 <= j < |anc| ==> anc[j] in before && Renamable(before[anc[j]], c, oldName)
    requires forall j :: 1 <= j < |anc| ==> after[anc[j]] == Rename(before[anc[j]], c, oldName, newName)
    requires forall p :: p in after && p !in anc[1..] ==> after[p] == before[p]
    ensures forall p :: p in after && p in anc[1..] ==> Renamable(before[p], c, oldName)
    ensures forall p :: p in after ==>
      after[p] == (if p in anc[1..] then Rename(before[p], c, oldName, newName) else before[p])
  {
    forall p | p in after && p in anc[1..]
      ensures Renamable(before[p], c, oldName) && after[p] == Rename(before[p], c, oldName, newName)
    {
      var j :| 0 <= j < |anc[1..]| && anc[1..][j] == p;
      assert anc[j + 1] == p;
    }
  }

  /** No name maps to an empty list. */
  predicate NoEmptyLists(nc: map<string, seq<Comp>>)
  {
    forall k :: k in nc ==> |nc[k]| > 0
  }

  /** After renaming, the component is last under its new name. */
  lemma RenameRegisters(nc: map<string, seq<Comp>>, c: Comp, oldName: Option<string>, newName: Option<string>)
    requires Renamable(nc, c, oldName)
    requires newName.Some?
    ensures var r := Rename(nc, c, oldName, newName);
      newName.value in r && |r[newName.value]| > 0 && r[newName.value][|r[newName.value]| - 1] == c
  {
  }

  /** A name the component was listed under once, and is renamed away from,
      no longer lists it. */
  lemma RenameUnregisters(nc: map<string, seq<Comp>>, c: Comp, oldName: Option<string>, newName: Option<string>)
    requires oldName.Some? && oldName.value in nc && c in nc[oldName.value]
    requires oldName != newName && multiset(nc[oldName.value])[c] == 1
    ensures var r := Rename(nc, c, oldName, newName);
      oldName.value !in r || c !in r[oldName.value]
  {
    var rest := RemoveFirst(nc[oldName.value], c);
    assert multiset(rest)[c] == 0;
  }

  /** Renaming leaves no name with an empty list. */
  lemma RenameKeepsListsNonEmpty(nc: map<string, seq<Comp>>, c: Comp, oldName: Option<string>, newName: Option<string>)
    requires Renamable(nc, c, oldName)
    requires NoEmptyLists(nc)
    ensures NoEmptyLists(Rename(nc, c, oldName, newName))
  {
  }

  /** Names other than the old and the new one are untouched. */
  lemma RenameKeepsOtherNames(nc: map<string, seq<Comp>>, c: Comp, oldName: Option<string>, newName: Option<string>, k: string)
    requires Renamable(nc, c, oldName)
    requires Some(k) != oldName && Some(k) != newName
    ensures var r := Rename(nc, c, oldName, newName);
      (k in r <==> k in nc) && (k in r ==> r[k] == nc[k])
  {
  }

  // ----------------------------------------------------------------------
  // Indicators

  datatype Direction = Up | Down

  /** An attached indicator: the classes it is an instance of and, for
      markup, its direction. */
  datatype Indicator = Indicator(classes: set<string>, direction: Option<Direction>)

  function Matching(indicators: seq<Indicator>, prototype: set<string>): (r: seq<Indicator>)
    ensures |r| <= |indicators|
    ensures forall x :: x in r <==> x in indicators && x.classes * prototype != {}
  {
    if |indicators| == 0 then []
    else
      var rest := Matching(indicators[..|indicators| - 1], prototype);
      var x := indicators[|indicators| - 1];
      assert forall y :: y in indicators <==> y in indicators[..|indicators| - 1] || y == x;
      if x.classes * prototype != {} then rest + [x] else rest
  }

  /** `_get_indicator`: the single attached indicator matching the
      prototype; none, or more than one, raise `ValueError`. */
  function GetIndicator(indicators: seq<Indicator>, prototype: set<string>): (r: Result<Indicator>)
    ensures r.Err? ==> r.error == ValueError
  {
    var found := Matching(indicators, prototype);
    if |found| == 0 then Err(ValueError)
    else if 1 < |found| then Err(ValueError)
    else Ok(found[0])
  }

  /** The result is the match when there is exactly one; with none there is
      an error. */
  lemma GetIndicatorProperties(indicators: seq<Indicator>, prototype: set<string>)
    ensures GetIndicator(indicators, prototype).Ok? ==>
      var x := GetIndicator(indicators, prototype).value;
      x in indicators && x.classes * prototype != {}
      && Matching(indicators, prototype) == [x]
    ensures (forall x :: x in indicators ==> x.classes * prototype == {}) ==> GetIndicator(indicators, prototype).Err?
  {
    var found := Matching(indicators, prototype);
    if |found| == 1 {
      assert found == [found[0]];
      assert found[0] in found;
    }
    if |found| > 0 {
      assert found[0] in found;
    }
  }

  /** The markup of one direction, in attachment order. */
  function WithDirection(markup: seq<Indicator>, d: Direction): (r: seq<Indicator>)
    ensures forall x :: x in r <==> x in markup && x.direction == Some(d)
  {
    if |markup| == 0 then []
    else
      var rest := WithDirection(markup[..|markup| - 1], d);
      var x := markup[|markup| - 1];
      assert forall y :: y in markup <==> y in markup[..|markup| - 1] || y == x;
      if x.direction == Some(d) then rest + [x] else rest
  }

  const MarkupClass := "Markup"

  /** `_get_markup`: the attached markup, or, given `Up` or `Down`, exactly
      the attached markup with that direction. */
  function GetMarkup(indicators: seq<Indicator>, direction: Option<Direction>): (r: seq<Indicator>)
    ensures direction.Some? ==>
      forall x :: x in r <==> x in indicators && MarkupClass in x.classes && x.direction == direction
    ensures direction.None? ==> forall x :: x in r <==> x in indicators && MarkupClass in x.classes
  {
    var markup := Matching(indicators, {MarkupClass});
    assert forall x: Indicator :: x.classes * {MarkupClass} != {} <==> MarkupClass in x.classes by {
      forall x: Indicator ensures x.classes * {MarkupClass} != {} <==> MarkupClass in x.classes {
        if MarkupClass in x.classes {
          assert MarkupClass in x.classes * {MarkupClass};
        }
      }
    }
    if direction.Some? then WithDirection(markup, direction.value) else markup
  }

  // ----------------------------------------------------------------------
  // Effective indicator

  /** A candidate wrapper with the start offset it was gathered under, in
      gathering order. */
  datatype Candidate = Candidate(offset: real, wrapper: nat)

  function OffsetsOf(cands: seq<Candidate>): (r: seq<real>)
    ensures |r| == |cands|
    ensures forall i :: 0 <= i < |cands| ==> r[i] == cands[i].offset
  {
    seq(|cands|, i requires 0 <= i < |cands| => cands[i].offset)
  }

  /** The keys of the offset-to-wrappers dictionary, each once. */
  function DistinctOffsets(offsets: seq<real>): (r: seq<real>)
    ensures forall x :: multiset(r)[x] <= 1
    ensures forall x :: x in r <==> x in offsets
  {
    if |offsets| == 0 then []
    else
      var rest := DistinctOffsets(offsets[..|offsets| - 1]);
      var x := offsets[|offsets| - 1];
      assert forall y :: y in offsets <==> y in offsets[..|offsets| - 1] || y == x;
      if x in rest then rest else rest + [x]
  }

  predicate RealLe(a: real, b: real)
  {
    a <= b
  }

  /** `sorted(candidate_wrappers)`: the distinct offsets in increasing
      order. */
  function SortedOffsets(cands: seq<Candidate>): (r: seq<real>)
    ensures forall i, j :: 0 <= i < j < |r| ==> r[i] < r[j]
    ensures forall x :: x in r <==> x in OffsetsOf(cands)
  {
    assert TotalPreorder(RealLe);
    var keys := DistinctOffsets(OffsetsOf(cands));
    var r := SortBy(keys, RealLe);
    SortedDistinct(keys, r);
    r
  }

  /** Sorting offsets that occur once each gives a strictly increasing list
      of the same offsets. */
  lemma SortedDistinct(keys: seq<real>, r: seq<real>)
    requires forall x :: multiset(keys)[x] <= 1
    requires multiset(r) == multiset(keys) && SortedBy(r, RealLe)
    ensures forall i, j :: 0 <= i < j < |r| ==> r[i] < r[j]
    ensures forall x :: x in r <==> x in keys
  {
    DistinctByMultiset(r, keys);
    forall x ensures x in r <==> x in keys {
      assert x in r <==> x in multiset(r);
      assert x in keys <==> x in multiset(keys);
    }
    forall i, j | 0 <= i < j < |r| ensures r[i] < r[j] {
      assert RealLe(r[i], r[j]);
    }
  }

  /** `bisect.bisect`: the insertion point after every element not above
      `x`. */
  function BisectRight(a: seq<real>, x: real): (r: nat)
    requires forall i, j :: 0 <= i < j < |a| ==> a[i] <= a[j]
    ensures r <= |a|
    ensures forall i :: 0 <= i < r ==> a[i] <= x
    ensures forall i :: r <= i < |a| ==> a[i] > x
  {
    if |a| == 0 then 0
    else if a[|a| - 1] <= x then |a|
    else BisectRight(a[..|a| - 1], x)
  }

  /** The offset the election picks: `n` places after the latest offset at
      or before `start`. */
  function ElectedOffset(cands: seq<Candidate>, start: real, n: int): (r: Option<real>)
  {
    var offsets := SortedOffsets(cands);
    var index := BisectRight(offsets, start) - 1 + n;
    if index < 0 then None
    else if |offsets| <= index then None
    else Some(offsets[index])
  }

  /** `k` is the first candidate gathered under `offset`. */
  predicate FirstAt(cands: seq<Candidate>, k: nat, offset: real)
  {
    k < |cands| && cands[k].offset == offset && forall j :: 0 <= j < k ==> cands[j].offset != offset
  }

  /** The first wrapper gathered under an offset. */
  function FirstWithOffset(cands: seq<Candidate>, offset: real): (r: nat)
    requires offset in OffsetsOf(cands)
    ensures exists k: nat :: FirstAt(cands, k, offset) && cands[k].wrapper == r
  {
    if cands[0].offset == offset then
      assert FirstAt(cands, 0, offset);
      cands[0].wrapper
    else
      assert offset in OffsetsOf(cands[1..]) by {
        var k :| 0 <= k < |cands| && OffsetsOf(cands)[k] == offset;
        assert OffsetsOf(cands[1..])[k - 1] == offset;
      }
      var w := FirstWithOffset(cands[1..], offset);
      var k: nat :| FirstAt(cands[1..], k, offset) && cands[1..][k].wrapper == w;
      assert FirstAt(cands, k + 1, offset) && cands[k + 1].wrapper == w;
      w
  }

  /** `_get_effective` after the candidates are gathered: no candidates give
      `None`, as does an index outside the sorted offsets; otherwise the
      first wrapper at the elected offset. */
  function GetEffective(cands: seq<Candidate>, start: real, n: int): (r: Option<nat>)
  {
    if |cands| == 0 then None
    else
      match ElectedOffset(cands, start, n)
      case None => None
      case Some(o) => Some(FirstWithOffset(cands, o))
  }

  const TimeSignatureClass := "TimeSignature"

  /** What `_get_effective` finds: a time signature attached to the
      measure itself, or the wrapper elected among the candidates. */
  datatype Effective = FromMeasure(indicator: Indicator) | FromWrapper(wrapper: nat)

  /** `_get_effective` in full: asked for a time signature, a measure
      answers with its own attached time signature, or `None`, whatever the
      candidates are; every other query elects among the candidates. */
  function GetEffectiveIndicator(isMeasure: bool, prototypeIsTimeSignature: bool, attached: seq<Indicator>,
                                 cands: seq<Candidate>, start: real, n: int): (r: Result<Option<Effective>>)
    ensures isMeasure && prototypeIsTimeSignature ==>
      var own := Matching(attached, {TimeSignatureClass});
      && (r == Ok(None) <==> |own| == 0)
      && (r.Err? <==> |own| > 1)
      && (r.Err? ==> r.error == ValueError)
      && (r.Ok? && r.value.Some? ==>
            r.value.value.FromMeasure? && r.value.value.indicator in attached
            && TimeSignatureClass in r.value.value.indicator.classes)
    ensures !(isMeasure && prototypeIsTimeSignature) ==>
      r.Ok? && (r.value.None? <==> GetEffective(cands, start, n).None?)
      && (r.value.Some? ==> r.value.value == FromWrapper(GetEffective(cands, start, n).value))
  {
    if prototypeIsTimeSignature && isMeasure then
      if |Matching(attached, {TimeSignatureClass})| == 0 then Ok(None)
      else
        var found := GetIndicator(attached, {TimeSignatureClass});
        if found.Err? then Err(found.error)
        else
          var x := found.value;
          assert x.classes * {TimeSignatureClass} != {};
          assert TimeSignatureClass in x.classes by {
            var y :| y in x.classes * {TimeSignatureClass};
          }
          Ok(Some(FromMeasure(x)))
    else
      match GetEffective(cands, start, n)
      case None => Ok(None)
      case Some(w) => Ok(Some(FromWrapper(w)))
  }

  /** A measure asked for its time signature ignores the candidates and the
      offset. */
  lemma MeasureIgnoresCandidates(attached: seq<Indicator>, cands: seq<Candidate>, start: real, n: int,
                                 cands2: seq<Candidate>, start2: real, n2: int)
    ensures GetEffectiveIndicator(true, true, attached, cands, start, n)
      == GetEffectiveIndicator(true, true, attached, cands2, start2, n2)
  {
  }

  /** With `n = 0` the election picks the latest candidate offset at or
      before `start`, and gives `None` exactly when every candidate starts
      later. */
  lemma MostRecent(cands: seq<Candidate>, start: real)
    ensures ElectedOffset(cands, start, 0).None? <==> forall i :: 0 <= i < |cands| ==> cands[i].offset > start
    ensures ElectedOffset(cands, start, 0).Some? ==>
      var o := ElectedOffset(cands, start, 0).value;
      o <= start && o in OffsetsOf(cands)
      && forall i :: 0 <= i < |cands| && cands[i].offset <= start ==> cands[i].offset <= o
  {
    var offsets := SortedOffsets(cands);
    var b := BisectRight(offsets, start);
    forall i | 0 <= i < |cands| && cands[i].offset <= start
      ensures b > 0 && cands[i].offset <= offsets[b - 1]
    {
      BelowLatest(cands, offsets, start, b, i);
    }
    if b > 0 {
      assert offsets[b - 1] in OffsetsOf(cands);
      var k :| 0 <= k < |cands| && OffsetsOf(cands)[k] == offsets[b - 1];
      assert cands[k].offset <= start;
    }
  }

  /** A candidate at or before `start` is at or before the last sorted
      offset the bisection keeps. */
  lemma BelowLatest(cands: seq<Candidate>, offsets: seq<real>, start: real, b: nat, i: nat)
    requires offsets == SortedOffsets(cands)
    requires b == BisectRight(offsets, start)
    requires i < |cands| && cands[i].offset <= start
    ensures b > 0 && cands[i].offset <= offsets[b - 1]
  {
    assert OffsetsOf(cands)[i] == cands[i].offset;
    assert cands[i].offset in offsets;
    var j :| 0 <= j < |offsets| && offsets[j] == cands[i].offset;
    assert j < b;
    if j < b - 1 {
      assert offsets[j] < offsets[b - 1];
    }
  }

  /** Asking for the next indicator (`n + 1`) gives a strictly later offset
      than `n`, when both exist. */
  lemma LaterStepsForward(cands: seq<Candidate>, start: real, n: int)
    requires ElectedOffset(cands, start, n).Some? && ElectedOffset(cands, start, n + 1).Some?
    ensures ElectedOffset(cands, start, n).value < ElectedOffset(cands, start, n + 1).value
  {
  }

  /** The wrapper returned is the first one gathered at the elected
      offset. */
  lemma EffectiveIsFirstAtOffset(cands: seq<Candidate>, start: real, n: int)
    requires GetEffective(cands, start, n).Some?
    ensures var o := ElectedOffset(cands, start, n);
      o.Some? && exists k: nat :: FirstAt(cands, k, o.value) && cands[k].wrapper == GetEffective(cands, start, n).value
  {
  }
}
