/** A performer in a score: a name and the list of instruments the
    performer plays, with lookups by instrument name and, from the
    catalogue of instrument classes, the instruments a performer of a given
    name is likely to play. */
module Performer {
  import opened Common

  /** An instrument as the lookups see it: its name and short name. */
  datatype Instrument = Instrument(instrumentName: string, shortInstrumentName: string)

  /** An instrument class of the catalogue: its class name, the performer
      names its instruments list, and whether it is a primary instrument.
      The catalogue itself is an input. */
  datatype InstrumentClass = InstrumentClass(className: string, performerNames: seq<string>, isPrimary: bool)

  /** The `name` argument: a string or `None`; anything else is refused by
      assertion. */
  datatype NameArg = NameNone | NameString(s: string) | NameOther

  /** The `instruments` argument: `None`, a list of instruments, or any
      other object. */
  datatype InstrumentsArg = InstrumentsNone | InstrumentsList(items: seq<Instrument>) | InstrumentsOther

  /** An instrument answers to a name when its name or its short name is
      the same up to ASCII case. */
  predicate AnswersTo(x: Instrument, key: string)
  {
    Lower(x.instrumentName) == Lower(key) || Lower(x.shortInstrumentName) == Lower(key)
  }

  /** `xs[i]` is the first instrument that answers to the name. */
  predicate FirstAnswering(xs: seq<Instrument>, key: string, i: nat)
    requires i < |xs|
  {
    AnswersTo(xs[i], key) && forall j :: 0 <= j < i ==> !AnswersTo(xs[j], key)
  }

  /** The scan of `get_instrument`: the first instrument that answers to
      the name. */
  function FindInstrument(xs: seq<Instrument>, key: string): (r: Option<Instrument>)
    ensures r.None? <==> forall i :: 0 <= i < |xs| ==> !AnswersTo(xs[i], key)
    ensures r.Some? ==> r.value in xs && AnswersTo(r.value, key)
  {
    if |xs| == 0 then None
    else if AnswersTo(xs[0], key) then Some(xs[0])
    else FindInstrument(xs[1..], key)
  }

  /** The instrument found is the first one that answers: no earlier one
      does. */
  lemma {:induction false} FindInstrumentIsFirst(xs: seq<Instrument>, key: string)
    requires FindInstrument(xs, key).Some?
    ensures exists i :: 0 <= i < |xs| && xs[i] == FindInstrument(xs, key).value && FirstAnswering(xs, key, i)
  {
    if !AnswersTo(xs[0], key) {
      FindInstrumentIsFirst(xs[1..], key);
      var i :| 0 <= i < |xs[1..]| && xs[1..][i] == FindInstrument(xs[1..], key).value && FirstAnswering(xs[1..], key, i);
      assert FirstAnswering(xs, key, i + 1);
    } else {
      assert FirstAnswering(xs, key, 0);
    }
  }

  class Performer {
    var name: Option<string>
    var instruments: seq<Instrument>

    /** An unnamed performer with no instruments, which `__init__` then
        hands to the two setters. */
    constructor()
      ensures name == None && instruments == []
    {
      name := None;
      instruments := [];
    }

    /** `get_instrument`. */
    function GetInstrument(instrumentName: string): (r: Option<Instrument>)
      reads this
      ensures r.Some? ==> r.value in instruments && AnswersTo(r.value, instrumentName)
      ensures r.None? ==> forall x :: x in instruments ==> !AnswersTo(x, instrumentName)
    {
      FindInstrument(instruments, instrumentName)
    }

    /** `instrument_count`. */
    function InstrumentCount(): nat
      reads this
    {
      |instruments|
    }

    /** `is_doubling`: the performer plays two instruments or more. */
    predicate IsDoubling()
      reads this
    {
      1 < InstrumentCount()
    }

    /** The `name` setter. */
    method SetName(arg: NameArg)
      requires !arg.NameOther?
      modifies this`name
      ensures name == (if arg.NameString? then Some(arg.s) else None)
    {
      if arg.NameString? {
        name := Some(arg.s);
      } else {
        name := None;
      }
    }

    /** The `instruments` setter: `None` empties the list, a list replaces
        its contents, anything else raises `TypeError` and changes
        nothing. */
    method SetInstruments(arg: InstrumentsArg) returns (r: Result<()>)
      modifies this`instruments
      ensures arg.InstrumentsNone? ==> r.Ok? && instruments == []
      ensures arg.InstrumentsList? ==> r.Ok? && instruments == arg.items
      ensures arg.InstrumentsOther? ==> r == Err(TypeError) && instruments == old(instruments)
    {
      match arg
      case InstrumentsNone =>
        instruments := [];
        r := Ok(());
      case InstrumentsList(items) =>
        instruments := items;
        r := Ok(());
      case InstrumentsOther =>
        r := Err(TypeError);
    }

    /** `likely_instruments_based_on_performer_name`: the catalogue's
        instrument classes for this performer's name, or none. */
    function LikelyInstruments(catalogue: seq<InstrumentClass>): (r: seq<InstrumentClass>)
      reads this
      ensures name.None? ==> r == []
      ensures forall c :: c in r ==> c in catalogue && name.Some? && name.value in c.performerNames
      ensures name.Some? ==> forall c :: c in catalogue && name.value in c.performerNames ==> c in r
    {
      var d := PerformerDictionary(catalogue);
      PerformerDictionaryContents(catalogue);
      if name.Some? && name.value in d.values then d.values[name.value] else []
    }

    /** `most_likely_instrument_based_on_performer_name`: the first primary
        one among the likely instruments. */
    function MostLikelyInstrument(catalogue: seq<InstrumentClass>): (r: Option<InstrumentClass>)
      reads this
      ensures r.Some? ==> r.value.isPrimary && r.value in LikelyInstruments(catalogue)
      ensures r.Some? ==> var likely := LikelyInstruments(catalogue);
        exists i :: 0 <= i < |likely| && likely[i] == r.value && forall j :: 0 <= j < i ==> !likely[j].isPrimary
      ensures r.None? ==> forall c :: c in LikelyInstruments(catalogue) ==> !c.isPrimary
    {
      FirstPrimary(LikelyInstruments(catalogue))
    }
  }

  /** `__init__`: a fresh performer given to the two setters; a bad
      `instruments` argument raises `TypeError`. */
  method NewPerformer(nameArg: NameArg, instrumentsArg: InstrumentsArg) returns (r: Result<Performer>)
    requires !nameArg.NameOther?
    ensures instrumentsArg.InstrumentsOther? <==> r.Err?
    ensures r.Err? ==> r.error == TypeError
    ensures r.Ok? ==> fresh(r.value)
    ensures r.Ok? ==> r.value.name == (if nameArg.NameString? then Some(nameArg.s) else None)
    ensures r.Ok? ==> r.value.instruments == (if instrumentsArg.InstrumentsList? then instrumentsArg.items else [])
  {
    var p := new Performer();
    p.SetName(nameArg);
    var outcome := p.SetInstruments(instrumentsArg);
    if outcome.Err? {
      return Err(outcome.error);
    }
    r := Ok(p);
  }

  /** The first primary instrument class of `cs`, if any. */
  function FirstPrimary(cs: seq<InstrumentClass>): (r: Option<InstrumentClass>)
    ensures r.Some? ==> r.value.isPrimary && r.value in cs
    ensures r.Some? ==> exists i :: 0 <= i < |cs| && cs[i] == r.value && forall j :: 0 <= j < i ==> !cs[j].isPrimary
    ensures r.None? ==> forall c :: c in cs ==> !c.isPrimary
  {
    if |cs| == 0 then None
    else if cs[0].isPrimary then Some(cs[0])
    else
      var r := FirstPrimary(cs[1..]);
      if r.Some? then
        var i :| 0 <= i < |cs[1..]| && cs[1..][i] == r.value && forall j :: 0 <= j < i ==> !cs[1..][j].isPrimary;
        assert cs[i + 1] == r.value && forall j :: 0 <= j < i + 1 ==> !cs[j].isPrimary;
        r
      else r
  }

  // ----------------------------------------------------------------------
  // The performer name / instrument dictionary

  /** An ordered dictionary: the keys in insertion order and the values. */
  datatype OrderedDict = OrderedDict(keys: seq<string>, values: map<string, seq<InstrumentClass>>)

  ghost predicate WellKeyed(d: OrderedDict)
  {
    && (forall i, j :: 0 <= i < j < |d.keys| ==> d.keys[i] != d.keys[j])
    && (forall k :: k in d.keys <==> k in d.values)
  }

  /** One step of the gathering loop: file the class under one of its
      performer names. */
  function AddName(d: OrderedDict, c: InstrumentClass, performerName: string): OrderedDict
  {
    if performerName in d.values then OrderedDict(d.keys, d.values[performerName := d.values[performerName] + [c]])
    else OrderedDict(d.keys + [performerName], d.values[performerName := [c]])
  }

  /** The class filed under the first `n` of its performer names. */
  function AddClass(d: OrderedDict, c: InstrumentClass, n: nat): OrderedDict
    requires n <= |c.performerNames|
  {
    if n == 0 then d else AddName(AddClass(d, c, n - 1), c, c.performerNames[n - 1])
  }

  /** The gathering loops over the first `n` classes of the catalogue. */
  function Gather(catalogue: seq<InstrumentClass>, n: nat): OrderedDict
    requires n <= |catalogue|
  {
    if n == 0 then OrderedDict([], map[])
    else AddClass(Gather(catalogue, n - 1), catalogue[n - 1], |catalogue[n - 1].performerNames|)
  }

  /** Class names compared lower-cased, the sort key of the dictionary's
      lists. */
  predicate ClassNameLe(a: InstrumentClass, b: InstrumentClass)
  {
    StrLe(Lower(a.className), Lower(b.className))
  }

  lemma ClassNameLeIsTotalPreorder()
    ensures TotalPreorder(ClassNameLe)
  {
    forall a: InstrumentClass, b: InstrumentClass ensures ClassNameLe(a, b) || ClassNameLe(b, a) {
      StrLeTotal(Lower(a.className), Lower(b.className));
    }
    forall a: InstrumentClass, b: InstrumentClass, c: InstrumentClass | ClassNameLe(a, b) && ClassNameLe(b, c)
      ensures ClassNameLe(a, c)
    {
      StrLeTrans(Lower(a.className), Lower(b.className), Lower(c.className));
    }
  }

  /** `sort(key=lambda x: x.__name__.lower())`. */
  function SortByClassName(cs: seq<InstrumentClass>): (r: seq<InstrumentClass>)
    ensures SortedBy(r, ClassNameLe)
    ensures multiset(r) == multiset(cs)
  {
    ClassNameLeIsTotalPreorder();
    SortBy(cs, ClassNameLe)
  }

  /** `make_performer_name_instrument_dictionary` on a catalogue. */
  function PerformerDictionary(catalogue: seq<InstrumentClass>): OrderedDict
  {
    SortLists(Gather(catalogue, |catalogue|))
  }

  /** The classes filed under a name by the first `n` classes: each class
      once for every time it lists the name. */
  function Filed(catalogue: seq<InstrumentClass>, n: nat, performerName: string): seq<InstrumentClass>
    requires n <= |catalogue|
  {
    if n == 0 then [] else Filed(catalogue, n - 1, performerName) + FiledBy(catalogue[n - 1], |catalogue[n - 1].performerNames|, performerName)
  }

  function FiledBy(c: InstrumentClass, n: nat, performerName: string): seq<InstrumentClass>
    requires n <= |c.performerNames|
  {
    if n == 0 then [] else FiledBy(c, n - 1, performerName) + (if c.performerNames[n - 1] == performerName then [c] else [])
  }

  lemma {:induction false} FiledByMembers(c: InstrumentClass, n: nat, performerName: string)
    requires n <= |c.performerNames|
    ensures forall x :: x in FiledBy(c, n, performerName) <==> x == c && performerName in c.performerNames[..n]
  {
    if n > 0 {
      FiledByMembers(c, n - 1, performerName);
      assert c.performerNames[..n] == c.performerNames[..n - 1] + [c.performerNames[n - 1]];
    }
  }

  lemma {:induction false} FiledMembers(catalogue: seq<InstrumentClass>, n: nat, performerName: string)
    requires n <= |catalogue|
    ensures forall x :: x in Filed(catalogue, n, performerName) <==> x in catalogue[..n] && performerName in x.performerNames
  {
    if n > 0 {
      FiledMembers(catalogue, n - 1, performerName);
      var c := catalogue[n - 1];
      FiledByMembers(c, |c.performerNames|, performerName);
      assert c.performerNames[..|c.performerNames|] == c.performerNames;
      assert catalogue[..n] == catalogue[..n - 1] + [c];
    }
  }

  /** After one filing, key `k` is present if it was or if it is the
      filed name, and its list grows by the class only if it is that name. */
  ghost predicate NameFiled(d: OrderedDict, c: InstrumentClass, performerName: string, k: string)
  {
    var e := AddName(d, c, performerName);
    && (k in e.values <==> k in d.values || k == performerName)
    && (k in e.values ==> e.values[k] == (if k in d.values then d.values[k] else []) + (if k == performerName then [c] else []))
  }

  /** After filing a class under its first `n` names, key `k` is present if
      it was or if the class lists it among those names, and its list grows
      by the class's filings under it. */
  ghost predicate ClassFiled(d: OrderedDict, c: InstrumentClass, n: nat, k: string)
    requires n <= |c.performerNames|
  {
    var e := AddClass(d, c, n);
    && (k in e.values <==> k in d.values || k in c.performerNames[..n])
    && (k in e.values ==> e.values[k] == (if k in d.values then d.values[k] else []) + FiledBy(c, n, k))
  }

  /** One filing keeps the keys distinct, adds the name as a key if it was
      not one, and appends the class to that name's list only. */
  lemma AddNameContents(d: OrderedDict, c: InstrumentClass, performerName: string)
    requires WellKeyed(d)
    ensures WellKeyed(AddName(d, c, performerName))
    ensures forall k :: NameFiled(d, c, performerName, k)
  {
    if performerName !in d.values {
      var keys := d.keys + [performerName];
      forall i, j | 0 <= i < j < |keys| ensures keys[i] != keys[j] {
        if j == |d.keys| {
          assert keys[i] in d.keys;
        }
      }
    }
  }

  /** A class is filed under a name only if it lists it. */
  lemma {:induction false} FiledByEmpty(c: InstrumentClass, n: nat, performerName: string)
    requires n <= |c.performerNames|
    requires performerName !in c.performerNames[..n]
    ensures FiledBy(c, n, performerName) == []
  {
    if n > 0 {
      assert c.performerNames[..n] == c.performerNames[..n - 1] + [c.performerNames[n - 1]];
      FiledByEmpty(c, n - 1, performerName);
    }
  }

  /** The inductive step of `AddClassContents` for one key. */
  lemma ClassFiledStep(d: OrderedDict, c: InstrumentClass, n: nat, k: string)
    requires 0 < n <= |c.performerNames|
    requires ClassFiled(d, c, n - 1, k)
    requires NameFiled(AddClass(d, c, n - 1), c, c.performerNames[n - 1], k)
    ensures ClassFiled(d, c, n, k)
  {
    var prev := AddClass(d, c, n - 1);
    var nm := c.performerNames[n - 1];
    var cur := AddClass(d, c, n);
    assert cur == AddName(prev, c, nm);
    var before := c.performerNames[..n - 1];
    assert c.performerNames[..n] == before + [nm];
    assert k in c.performerNames[..n] <==> k in before || k == nm;
    if k in cur.values {
      var old_ := if k in d.values then d.values[k] else [];
      var step := if k == nm then [c] else [];
      var earlier := FiledBy(c, n - 1, k);
      assert FiledBy(c, n, k) == earlier + step;
      if k in prev.values {
        assert cur.values[k] == old_ + earlier + step;
      } else {
        FiledByEmpty(c, n - 1, k);
        assert cur.values[k] == old_ + earlier + step;
      }
      assert old_ + earlier + step == old_ + (earlier + step);
    }
  }

  /** Filing a class under its first `n` names keeps the keys distinct and
      extends each list by the class's filings. */
  lemma {:induction false} AddClassContents(d: OrderedDict, c: InstrumentClass, n: nat)
    requires n <= |c.performerNames|
    requires WellKeyed(d)
    ensures WellKeyed(AddClass(d, c, n))
    ensures forall k :: ClassFiled(d, c, n, k)
  {
    if n > 0 {
      AddClassContents(d, c, n - 1);
      AddNameContents(AddClass(d, c, n - 1), c, c.performerNames[n - 1]);
      forall k ensures ClassFiled(d, c, n, k) {
        ClassFiledStep(d, c, n, k);
      }
    } else {
      forall k ensures ClassFiled(d, c, n, k) {
        assert c.performerNames[..0] == [];
      }
    }
  }

  /** The gathered dictionary files every class under each name it lists,
      in catalogue order, and under no other name. */
  lemma {:induction false} GatherContents(catalogue: seq<InstrumentClass>, n: nat)
    requires n <= |catalogue|
    ensures WellKeyed(Gather(catalogue, n))
    ensures forall k :: k in Gather(catalogue, n).values <==> |Filed(catalogue, n, k)| > 0
    ensures forall k :: k in Gather(catalogue, n).values ==> Gather(catalogue, n).values[k] == Filed(catalogue, n, k)
  {
    if n > 0 {
      GatherContents(catalogue, n - 1);
      var c := catalogue[n - 1];
      var m := |c.performerNames|;
      var g := Gather(catalogue, n - 1);
      AddClassContents(g, c, m);
      assert c.performerNames[..m] == c.performerNames;
      forall k ensures k in AddClass(g, c, m).values <==> k in g.values || k in c.performerNames
      {
        assert ClassFiled(g, c, m, k);
      }
      forall k | k in AddClass(g, c, m).values
        ensures AddClass(g, c, m).values[k] == (if k in g.values then g.values[k] else []) + FiledBy(c, m, k)
      {
        assert ClassFiled(g, c, m, k);
      }
      forall k ensures |FiledBy(c, m, k)| > 0 <==> k in c.performerNames {
        FiledByMembers(c, m, k);
        var f := FiledBy(c, m, k);
        assert |f| > 0 ==> f[0] in f;
        if k in c.performerNames {
          assert c in f;
        }
      }
    }
  }

  /** The dictionary lists, under each performer name, exactly the
      catalogue's classes that name that performer, sorted by lower-cased
      class name; and a name that no class lists is not a key. */
  lemma PerformerDictionaryContents(catalogue: seq<InstrumentClass>)
    ensures forall k :: k in PerformerDictionary(catalogue).values <==> exists c :: c in catalogue && k in c.performerNames
    ensures forall k :: k in PerformerDictionary(catalogue).values ==>
      SortedBy(PerformerDictionary(catalogue).values[k], ClassNameLe)
      && (forall c :: c in PerformerDictionary(catalogue).values[k] <==> c in catalogue && k in c.performerNames)
    ensures WellKeyed(PerformerDictionary(catalogue))
  {
    var n := |catalogue|;
    GatherContents(catalogue, n);
    assert catalogue[..n] == catalogue;
    forall k ensures |Filed(catalogue, n, k)| > 0 <==> exists c :: c in catalogue && k in c.performerNames {
      FiledMembers(catalogue, n, k);
      var f := Filed(catalogue, n, k);
      assert |f| > 0 ==> f[0] in f;
      if exists c :: c in catalogue && k in c.performerNames {
        var c :| c in catalogue && k in c.performerNames;
        assert c in Filed(catalogue, n, k);
      }
    }
    forall k | k in PerformerDictionary(catalogue).values
      ensures forall c :: c in PerformerDictionary(catalogue).values[k] <==> c in catalogue && k in c.performerNames
    {
      FiledMembers(catalogue, n, k);
      var v := Gather(catalogue, n).values[k];
      forall c ensures c in SortByClassName(v) <==> c in v {
        assert c in SortByClassName(v) <==> c in multiset(SortByClassName(v));
      }
    }
  }

  /** The sorted lists of a gathered dictionary. */
  function SortLists(g: OrderedDict): OrderedDict
  {
    OrderedDict(g.keys, map k | k in g.values :: SortByClassName(g.values[k]))
  }

  /** `make_performer_name_instrument_dictionary`: the gathering loops,
      then each list sorted in place. */
  method MakePerformerNameInstrumentDictionary(catalogue: seq<InstrumentClass>) returns (d: OrderedDict)
    ensures d == PerformerDictionary(catalogue)
  {
    d := OrderedDict([], map[]);
    for i := 0 to |catalogue|
      invariant d == Gather(catalogue, i)
    {
      d := FileClass(d, catalogue[i]);
    }
    GatherContents(catalogue, |catalogue|);
    d := SortEachList(d);
  }

  /** The inner gathering loop: files one class under each of its
      performer names. */
  method FileClass(d0: OrderedDict, c: InstrumentClass) returns (d: OrderedDict)
    ensures d == AddClass(d0, c, |c.performerNames|)
  {
    d := d0;
    for j := 0 to |c.performerNames|
      invariant d == AddClass(d0, c, j)
    {
      var performerName := c.performerNames[j];
      if performerName in d.values {
        d := OrderedDict(d.keys, d.values[performerName := d.values[performerName] + [c]]);
      } else {
        d := OrderedDict(d.keys + [performerName], d.values[performerName := [c]]);
      }
    }
  }

  /** The lists under the first `k` keys are sorted and the rest untouched. */
  ghost predicate SortedUpTo(d: OrderedDict, g: OrderedDict, k: nat)
    requires k <= |g.keys|
  {
    && WellKeyed(g) && d.keys == g.keys && d.values.Keys == g.values.Keys
    && (forall m :: 0 <= m < |g.keys| ==> g.keys[m] in g.values)
    && (forall m :: 0 <= m < k ==> d.values[g.keys[m]] == SortByClassName(g.values[g.keys[m]]))
    && (forall m :: k <= m < |g.keys| ==> d.values[g.keys[m]] == g.values[g.keys[m]])
  }

  lemma SortedUpToStep(d: OrderedDict, g: OrderedDict, k: nat)
    requires k < |g.keys|
    requires SortedUpTo(d, g, k)
    ensures var key := g.keys[k];
      SortedUpTo(OrderedDict(d.keys, d.values[key := SortByClassName(d.values[key])]), g, k + 1)
  {
    var key := g.keys[k];
    var e := OrderedDict(d.keys, d.values[key := SortByClassName(d.values[key])]);
    forall m | 0 <= m < |g.keys| && m != k ensures e.values[g.keys[m]] == d.values[g.keys[m]] {
      assert g.keys[m] != key;
    }
  }

  lemma SortedUpToAll(d: OrderedDict, g: OrderedDict)
    requires SortedUpTo(d, g, |g.keys|)
    ensures d == SortLists(g)
  {
    forall key | key in d.values ensures d.values[key] == SortLists(g).values[key] {
      var m :| 0 <= m < |g.keys| && g.keys[m] == key;
    }
  }

  /** The sorting loop over the dictionary's values. */
  method SortEachList(g: OrderedDict) returns (d: OrderedDict)
    requires WellKeyed(g)
    ensures d == SortLists(g)
  {
    d := g;
    assert SortedUpTo(d, g, 0) by {
      forall m | 0 <= m < |g.keys| ensures g.keys[m] in g.values {
        assert g.keys[m] in g.keys;
      }
    }
    for k := 0 to |d.keys|
      invariant SortedUpTo(d, g, k)
    {
      SortedUpToStep(d, g, k);
      var key := d.keys[k];
      d := OrderedDict(d.keys, d.values[key := SortByClassName(d.values[key])]);
    }
    SortedUpToAll(d, g);
  }

  // ----------------------------------------------------------------------
  // Examples

  /** A flutist doubling on piccolo: `get_instrument('PICCOLO')` finds the
      piccolo, `get_instrument('fl.')` the flute, `'xyl.'` nothing; the
      flutist is doubling. */
  lemma FlutistExample(p: Performer)
    requires p.instruments == [Instrument("flute", "fl."), Instrument("piccolo", "picc.")]
    ensures p.GetInstrument("PICCOLO") == Some(Instrument("piccolo", "picc."))
    ensures p.GetInstrument("fl.") == Some(Instrument("flute", "fl."))
    ensures p.GetInstrument("xyl.") == None
    ensures p.IsDoubling() && p.InstrumentCount() == 2
  {
    var flute, piccolo := Instrument("flute", "fl."), Instrument("piccolo", "picc.");
    assert Lower("PICCOLO") == "piccolo";
    assert Lower("piccolo") == "piccolo" && Lower("picc.") == "picc.";
    assert Lower("flute") == "flute" && Lower("fl.") == "fl.";
    assert Lower("xyl.") == "xyl.";
    assert !AnswersTo(flute, "PICCOLO") && AnswersTo(piccolo, "PICCOLO");
    assert p.instruments[1..] == [piccolo];
    assert AnswersTo(flute, "fl.");
    assert !AnswersTo(flute, "xyl.") && !AnswersTo(piccolo, "xyl.");
  }
}
