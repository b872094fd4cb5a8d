/** Time relations between timespans and offsets. A relation holds a
    compound inequality over the start and stop offsets of its operands;
    when every operand is present and the relation is not held, building it
    evaluates it to a boolean. */
module TimespanRelations {
  import opened Common

  datatype Timespan = Timespan(start: real, stop: real)

  /** The offsets an inequality can mention. */
  datatype Term = Start1 | Stop1 | Start2 | Stop2 | TheOffset | TimespanStart

  datatype Operator = LessEqual | Equal

  datatype Inequality = Inequality(lhs: Term, op: Operator, rhs: Term)

  /** Inequalities joined by a logical operator; the builders here always
      use `and`. */
  datatype CompoundInequality = Compound(inequalities: seq<Inequality>, logicalOperator: string)

  datatype TimeRelation =
    | TimespanTimespanTimeRelation(inequality: CompoundInequality, timespan1: Option<Timespan>, timespan2: Option<Timespan>)
    | OffsetTimespanTimeRelation(inequality: CompoundInequality, timespan: Option<Timespan>, offset: Option<real>)

  /** What a builder returns: the relation's value, or the relation. */
  datatype RelationOrBool = Evaluated(value: bool) | Unevaluated(relation: TimeRelation)

  /** The offsets bound to the terms, once every operand is present. */
  datatype Bindings = Bindings(start1: real, stop1: real, start2: real, stop2: real, offset: real, timespanStart: real)

  function Lookup(b: Bindings, t: Term): real
  {
    match t
    case Start1 => b.start1
    case Stop1 => b.stop1
    case Start2 => b.start2
    case Stop2 => b.stop2
    case TheOffset => b.offset
    case TimespanStart => b.timespanStart
  }

  function EvaluateOne(q: Inequality, b: Bindings): bool
  {
    var x, y := Lookup(b, q.lhs), Lookup(b, q.rhs);
    match q.op
    case LessEqual => x <= y
    case Equal => x == y
  }

  /** An `and` of inequalities holds when each of them does. */
  function EvaluateAll(qs: seq<Inequality>, b: Bindings): (r: bool)
    ensures r <==> forall i :: 0 <= i < |qs| ==> EvaluateOne(qs[i], b)
  {
    if |qs| == 0 then true else EvaluateOne(qs[0], b) && EvaluateAll(qs[1..], b)
  }

  predicate FullyLoaded(r: TimeRelation)
  {
    match r
    case TimespanTimespanTimeRelation(_, t1, t2) => t1.Some? && t2.Some?
    case OffsetTimespanTimeRelation(_, t, o) => t.Some? && o.Some?
  }

  function BindingsOf(r: TimeRelation): Bindings
    requires FullyLoaded(r)
  {
    match r
    case TimespanTimespanTimeRelation(_, t1, t2) =>
      Bindings(t1.value.start, t1.value.stop, t2.value.start, t2.value.stop, 0.0, 0.0)
    case OffsetTimespanTimeRelation(_, t, o) =>
      Bindings(0.0, 0.0, 0.0, 0.0, o.value, t.value.start)
  }

  /** Calling a fully loaded relation. */
  function Call(r: TimeRelation): bool
    requires FullyLoaded(r)
  {
    EvaluateAll(r.inequality.inequalities, BindingsOf(r))
  }

  /** The common tail of the builders. */
  function EvaluateUnlessHeld(r: TimeRelation, hold: bool): RelationOrBool
  {
    if FullyLoaded(r) && !hold then Evaluated(Call(r)) else Unevaluated(r)
  }

  const HappensDuring := Compound([Inequality(Start1, LessEqual, Start2), Inequality(Stop2, LessEqual, Stop1)], "and")
  const StopsWhenStarts := Compound([Inequality(Stop2, Equal, Start1)], "and")
  const OffsetWhenStarts := Compound([Inequality(TheOffset, Equal, TimespanStart)], "and")

  function Timespan2HappensDuringTimespan1(t1: Option<Timespan>, t2: Option<Timespan>, hold: bool): RelationOrBool
  {
    EvaluateUnlessHeld(TimespanTimespanTimeRelation(HappensDuring, t1, t2), hold)
  }

  function Timespan2StopsWhenTimespan1Starts(t1: Option<Timespan>, t2: Option<Timespan>, hold: bool): RelationOrBool
  {
    EvaluateUnlessHeld(TimespanTimespanTimeRelation(StopsWhenStarts, t1, t2), hold)
  }

  function OffsetHappensWhenTimespanStarts(t: Option<Timespan>, offset: Option<real>, hold: bool): RelationOrBool
  {
    EvaluateUnlessHeld(OffsetTimespanTimeRelation(OffsetWhenStarts, t, offset), hold)
  }

  // ----------------------------------------------------------------------
  // Properties

  /** With both timespans given and no hold, "happens during" is
      `start1 <= start2 && stop2 <= stop1`; otherwise the relation itself,
      holding the two inequalities joined by `and`, is returned. */
  lemma HappensDuringIsContainment(t1: Option<Timespan>, t2: Option<Timespan>, hold: bool)
    ensures var r := Timespan2HappensDuringTimespan1(t1, t2, hold);
      if t1.Some? && t2.Some? && !hold then
        r.Evaluated? && (r.value <==> t1.value.start <= t2.value.start && t2.value.stop <= t1.value.stop)
      else
        r.Unevaluated? && r.relation.timespan1 == t1 && r.relation.timespan2 == t2
        && |r.relation.inequality.inequalities| == 2 && r.relation.inequality.logicalOperator == "and"
  {
    if t1.Some? && t2.Some? && !hold {
      var qs := HappensDuring.inequalities;
      var b := BindingsOf(TimespanTimespanTimeRelation(HappensDuring, t1, t2));
      assert EvaluateAll(qs, b) <==> EvaluateOne(qs[0], b) && EvaluateOne(qs[1], b);
    }
  }

  /** `[7/8, 8/8)` happens during `[1/2, 3/2)`, and not the other way
      round. */
  lemma HappensDuringExample()
    ensures Timespan2HappensDuringTimespan1(Some(Timespan(0.5, 1.5)), Some(Timespan(0.875, 1.0)), false) == Evaluated(true)
    ensures Timespan2HappensDuringTimespan1(Some(Timespan(0.875, 1.0)), Some(Timespan(0.5, 1.5)), false) == Evaluated(false)
  {
    HappensDuringIsContainment(Some(Timespan(0.5, 1.5)), Some(Timespan(0.875, 1.0)), false);
    HappensDuringIsContainment(Some(Timespan(0.875, 1.0)), Some(Timespan(0.5, 1.5)), false);
  }

  /** Every timespan happens during itself. */
  lemma HappensDuringReflexive(t: Timespan)
    ensures Timespan2HappensDuringTimespan1(Some(t), Some(t), false) == Evaluated(true)
  {
    HappensDuringIsContainment(Some(t), Some(t), false);
  }

  /** If `b` happens during `a` and `c` during `b`, then `c` happens during
      `a`. */
  lemma HappensDuringTransitive(a: Timespan, b: Timespan, c: Timespan)
    requires Timespan2HappensDuringTimespan1(Some(a), Some(b), false) == Evaluated(true)
    requires Timespan2HappensDuringTimespan1(Some(b), Some(c), false) == Evaluated(true)
    ensures Timespan2HappensDuringTimespan1(Some(a), Some(c), false) == Evaluated(true)
  {
    HappensDuringIsContainment(Some(a), Some(b), false);
    HappensDuringIsContainment(Some(b), Some(c), false);
    HappensDuringIsContainment(Some(a), Some(c), false);
  }

  /** With both timespans given and no hold, "stops when starts" is
      `stop2 == start1`; otherwise the relation, holding one inequality, is
      returned. */
  lemma StopsWhenStartsIsAbutment(t1: Option<Timespan>, t2: Option<Timespan>, hold: bool)
    ensures var r := Timespan2StopsWhenTimespan1Starts(t1, t2, hold);
      if t1.Some? && t2.Some? && !hold then
        r.Evaluated? && (r.value <==> t2.value.stop == t1.value.start)
      else
        r.Unevaluated? && r.relation.timespan1 == t1 && r.relation.timespan2 == t2
        && |r.relation.inequality.inequalities| == 1 && r.relation.inequality.logicalOperator == "and"
  {
  }

  /** With both operands given and no hold, the relation is
      `offset == start`, so exactly one offset satisfies it for a given
      timespan; otherwise the relation is returned. */
  lemma OffsetWhenStartsIsEquality(t: Option<Timespan>, offset: Option<real>, hold: bool)
    ensures var r := OffsetHappensWhenTimespanStarts(t, offset, hold);
      if t.Some? && offset.Some? && !hold then
        r.Evaluated? && (r.value <==> offset.value == t.value.start)
      else
        r.Unevaluated? && r.relation.timespan == t && r.relation.offset == offset
        && |r.relation.inequality.inequalities| == 1 && r.relation.inequality.logicalOperator == "and"
  {
  }

  lemma OffsetWhenStartsUnique(t: Timespan, x: real, y: real)
    requires OffsetHappensWhenTimespanStarts(Some(t), Some(x), false) == Evaluated(true)
    requires OffsetHappensWhenTimespanStarts(Some(t), Some(y), false) == Evaluated(true)
    ensures x == y
  {
    OffsetWhenStartsIsEquality(Some(t), Some(x), false);
    OffsetWhenStartsIsEquality(Some(t), Some(y), false);
  }

  /** The start offset itself satisfies the offset relation. */
  lemma OffsetWhenStartsExists(t: Timespan)
    ensures OffsetHappensWhenTimespanStarts(Some(t), Some(t.start), false) == Evaluated(true)
  {
    OffsetWhenStartsIsEquality(Some(t), Some(t.start), false);
  }
}
