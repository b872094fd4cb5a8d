/** A time signature mark: numerator and denominator, an optional partial
    measure pick-up and a suppression flag, with comparison by duration,
    literal equality, and its LilyPond format. */
module TimeSignatureMark {
  import opened Common

  /** The positional arguments of the constructor: another mark, a
      duration, a tuple whose first two items are `n` and `d`, a tuple of
      fewer than two items, two integers, or anything else. */
  datatype InitArgs =
    | MarkArg(n: int, d: int)
    | DurationArg(n: int, d: int)
    | TupleArg(n: int, d: int)
    | ShortTupleArg
    | IntPairArg(n: int, d: int)
    | InvalidArgs

  /** The `partial` keyword: absent or `None`, a duration, or something
      else. */
  datatype PartialArg = NoPartial | PartialDuration(value: real) | BadPartial

  /** A stored partial: a `Duration`, or another number, which only the
      setter accepts. */
  datatype Partial = DurationPartial(value: real) | NumberPartial(value: real)

  /** The `suppress` keyword: absent or `None`, a bool, or something else. */
  datatype SuppressArg = NoSuppress | SuppressFlag(flag: bool) | BadSuppress

  /** The other operand of a comparison: a mark, a tuple, or anything
      else. */
  datatype Operand = MarkOperand(n: int, d: int) | TupleOperand(first: int, second: int) | OtherOperand

  datatype Comparison = Lt | Le | Gt | Ge

  /** The `format` property: an empty list, one string, or a list. */
  datatype Format = Lines(lines: seq<string>) | Line(line: string)

  /** The numerator and denominator the arguments give, if they are valid;
      a short tuple has no second item to give. */
  function InitPair(args: InitArgs): (r: Option<(int, int)>)
    ensures r.None? <==> args.InvalidArgs? || args.ShortTupleArg?
  {
    if args.InvalidArgs? || args.ShortTupleArg? then None else Some((args.n, args.d))
  }

  /** The exception the constructor raises, checking the positional
      arguments, then `partial`, then `suppress`: indexing a short tuple
      raises `IndexError`, every other check `TypeError`. */
  function InitError(args: InitArgs, partial: PartialArg, suppress: SuppressArg): Option<PyError>
  {
    if args.ShortTupleArg? then Some(IndexError)
    else if args.InvalidArgs? || partial.BadPartial? || suppress.BadSuppress? then Some(TypeError)
    else None
  }

  /** The `partial` keyword that passes a stored partial back to the
      constructor: a number that is not a `Duration` is one it refuses. */
  function PartialArgOf(p: Option<Partial>): PartialArg
  {
    match p
    case None => NoPartial
    case Some(DurationPartial(v)) => PartialDuration(v)
    case Some(NumberPartial(_)) => BadPartial
  }

  /** The value of a stored partial, as the formatter sees it. */
  function PartialValue(p: Option<Partial>): Option<real>
  {
    if p.None? then None else Some(p.value.value)
  }

  /** `Duration(n, d)`; a zero denominator raises. */
  function DurationOf(n: int, d: int): (r: Result<real>)
    ensures r.Ok? <==> d != 0
    ensures r.Ok? ==> r.value * d as real == n as real
  {
    if d == 0 then Err(ZeroDivisionError) else Ok(n as real / d as real)
  }

  /** `==`: numerator and denominator compared literally against a mark or
      a tuple; anything else is unequal. */
  function Equals(n: int, d: int, arg: Operand): bool
  {
    match arg
    case MarkOperand(n2, d2) => n == n2 && d == d2
    case TupleOperand(a, b) => n == a && d == b
    case OtherOperand => false
  }

  /** `<`, `<=`, `>` and `>=`: durations compared; only marks are
      accepted. */
  function Compare(op: Comparison, n: int, d: int, arg: Operand): (r: Result<bool>)
    ensures !arg.MarkOperand? ==> r == Err(TypeError)
  {
    if !arg.MarkOperand? then Err(TypeError)
    else
      var x, y := DurationOf(n, d), DurationOf(arg.n, arg.d);
      if x.Err? then Err(x.error)
      else if y.Err? then Err(y.error)
      else
        match op
        case Lt => Ok(x.value < y.value)
        case Le => Ok(x.value <= y.value)
        case Gt => Ok(x.value > y.value)
        case Ge => Ok(x.value >= y.value)
  }

  /** `str`: `"n/d"`. */
  function Str(n: int, d: int): string
  {
    IntToString(n) + "/" + IntToString(d)
  }

  function TimeCommand(n: int, d: int): string
  {
    "\\time " + Str(n, d)
  }

  /** The `format` property; the duration string of the partial comes from
      a formatter that is not part of this model. */
  function FormatOf(n: int, d: int, partial: Option<real>, suppress: Option<bool>,
                    durationString: real -> string): Format
  {
    if suppress == Some(true) then Lines([])
    else if partial.None? then Line(TimeCommand(n, d))
    else Lines([TimeCommand(n, d), "\\partial " + durationString(partial.value)])
  }

  class Mark {
    var numerator: int
    var denominator: int
    var partial: Option<Partial>
    var suppress: Option<bool>
    /** Computed once, when the mark is made. */
    var isNonbinary: bool

    /** `is_nonbinary` agrees with the denominator. */
    predicate Valid()
      reads this
    {
      isNonbinary == !IsPowerOfTwo(denominator)
    }

    constructor (n: int, d: int, partial: Option<Partial>, suppress: Option<bool>)
      ensures numerator == n && denominator == d
      ensures this.partial == partial && this.suppress == suppress
      ensures Valid()
    {
      numerator := n;
      denominator := d;
      this.partial := partial;
      this.suppress := suppress;
      isNonbinary := !IsPowerOfTwo(d);
    }

    /** The constructor with its argument checks: an `IndexError` for a
      tuple of fewer than two items; a `TypeError` for other invalid
      positional arguments, a `partial` that is not a duration or a
      `suppress` that is not a bool; otherwise a mark holding the given
      numerator, denominator, partial and flag. */
    static method New(args: InitArgs, partial: PartialArg, suppress: SuppressArg) returns (r: Result<Mark>)
      ensures r.Err? <==> InitError(args, partial, suppress).Some?
      ensures args.ShortTupleArg? ==> r.Err? && r.error == IndexError
      ensures !args.ShortTupleArg? && r.Err? ==> r.error == TypeError
      ensures r.Ok? ==> fresh(r.value) && r.value.Valid()
      ensures r.Ok? ==> InitPair(args) == Some((r.value.numerator, r.value.denominator))
      ensures r.Ok? ==> r.value.partial == (if partial.PartialDuration? then Some(DurationPartial(partial.value)) else None)
      ensures r.Ok? ==> r.value.suppress == (if suppress.SuppressFlag? then Some(suppress.flag) else None)
    {
      if args.ShortTupleArg? {
        return Err(IndexError);
      }
      if args.InvalidArgs? {
        return Err(TypeError);
      }
      if partial.BadPartial? {
        return Err(TypeError);
      }
      if suppress.BadSuppress? {
        return Err(TypeError);
      }
      var p := if partial.PartialDuration? then Some(DurationPartial(partial.value)) else None;
      var s := if suppress.SuppressFlag? then Some(suppress.flag) else None;
      var m := new Mark(args.n, args.d, p, s);
      r := Ok(m);
    }

    function Duration(): Result<real>
      reads this
    {
      DurationOf(numerator, denominator)
    }

    function ToString(): string
      reads this
    {
      Str(numerator, denominator)
    }

    function FormatWith(durationString: real -> string): Format
      reads this
    {
      FormatOf(numerator, denominator, PartialValue(partial), suppress, durationString)
    }

    /** The numerator setter; `is_nonbinary` does not depend on it. */
    method SetNumerator(n: int)
      modifies this
      ensures numerator == n && denominator == old(denominator)
      ensures partial == old(partial) && suppress == old(suppress) && isNonbinary == old(isNonbinary)
      ensures old(Valid()) ==> Valid()
    {
      numerator := n;
    }

    /** The denominator setter as written: `is_nonbinary` keeps the value
      it had. */
    method SetDenominator(d: int)
      modifies this
      ensures denominator == d && numerator == old(numerator)
      ensures partial == old(partial) && suppress == old(suppress) && isNonbinary == old(isNonbinary)
    {
      denominator := d;
    }

    /** The denominator setter refreshing `is_nonbinary`, as the flag's
      meaning requires. */
    method SetDenominatorRefreshing(d: int)
      modifies this
      ensures denominator == d && numerator == old(numerator)
      ensures partial == old(partial) && suppress == old(suppress)
      ensures Valid()
    {
      denominator := d;
      isNonbinary := !IsPowerOfTwo(d);
    }

    /** The partial setter: `None`, a `Duration` or any other number. */
    method SetPartial(p: Option<Partial>)
      modifies this
      ensures partial == p && numerator == old(numerator) && denominator == old(denominator)
      ensures suppress == old(suppress) && isNonbinary == old(isNonbinary)
      ensures old(Valid()) ==> Valid()
    {
      partial := p;
    }

    /** `copy`: the constructor called with the numerator, the denominator
      and the partial, so a partial the setter let be a number other than a
      `Duration` makes it raise `TypeError`. Otherwise the copy is a new mark
      with the same numerator, denominator and partial; the suppression flag
      is not carried over, and `is_nonbinary` is computed afresh, so copying
      repairs a flag the denominator setter left stale. */
    method Copy() returns (r: Result<Mark>)
      ensures r.Err? <==> InitError(IntPairArg(numerator, denominator), PartialArgOf(partial), NoSuppress).Some?
      ensures r.Err? <==> partial.Some? && partial.value.NumberPartial?
      ensures r.Err? ==> r.error == TypeError
      ensures r.Ok? ==> fresh(r.value) && r.value.Valid()
      ensures r.Ok? ==> r.value.isNonbinary == !IsPowerOfTwo(denominator)
      ensures r.Ok? ==> r.value.numerator == numerator && r.value.denominator == denominator
      ensures r.Ok? ==> r.value.partial == partial && r.value.suppress == None
    {
      if partial.Some? && partial.value.NumberPartial? {
        return Err(TypeError);
      }
      var c := new Mark(numerator, denominator, partial, None);
      r := Ok(c);
    }
  }

  /** Setting the denominator of `3/8` to 12 leaves `is_nonbinary` false,
      though 12 is not a power of two; the refreshing setter gives true. */
  method StaleNonbinaryExample() returns (asWritten: bool, refreshed: bool)
    ensures !asWritten && refreshed
  {
    var m := new Mark(3, 8, None, None);
    assert IsPowerOfTwo(8) by { assert IsPowerOfTwo(4) && IsPowerOfTwo(2); }
    m.SetDenominator(12);
    asWritten := m.isNonbinary;
    var k := new Mark(3, 8, None, None);
    k.SetDenominatorRefreshing(12);
    assert !IsPowerOfTwo(12) by { assert !IsPowerOfTwo(3) && !IsPowerOfTwo(6); }
    refreshed := k.isNonbinary;
  }

  /** The partial setter takes any number, so `meter.partial = 1/4` given
      as a plain number makes a later copy raise `TypeError`, while a
      `Duration(1, 4)` copies. */
  method NumberPartialCopyExample() returns (plain: Result<Mark>, duration: Result<Mark>)
    ensures plain.Err? && plain.error == TypeError
    ensures duration.Ok? && duration.value.partial == Some(DurationPartial(0.25))
  {
    var m := new Mark(3, 8, None, None);
    m.SetPartial(Some(NumberPartial(0.25)));
    plain := m.Copy();
    m.SetPartial(Some(DurationPartial(0.25)));
    duration := m.Copy();
  }

  // ----------------------------------------------------------------------
  // Properties

  /** Equality is literal: `4/8` and `2/4` have the same duration but are
      not equal. */
  lemma EqualityIsLiteral()
    ensures DurationOf(4, 8) == DurationOf(2, 4)
    ensures !Equals(4, 8, MarkOperand(2, 4))
    ensures Equals(4, 8, TupleOperand(4, 8))
  {
  }

  /** Equality between marks is an equivalence: reflexive and symmetric, and
      a mark equals a tuple exactly when it equals the mark with the same
      pair. */
  lemma EqualsProperties(n: int, d: int, n2: int, d2: int)
    ensures Equals(n, d, MarkOperand(n, d))
    ensures Equals(n, d, MarkOperand(n2, d2)) == Equals(n2, d2, MarkOperand(n, d))
    ensures Equals(n, d, TupleOperand(n2, d2)) == Equals(n, d, MarkOperand(n2, d2))
    ensures !Equals(n, d, OtherOperand)
  {
  }

  /** Between marks with non-zero denominators the four comparisons are the
      order of their durations: `<` is `>` reversed, `<=` is `<` or equal
      duration, and exactly one of `<`, equal duration, `>` holds. */
  lemma CompareIsDurationOrder(n: int, d: int, n2: int, d2: int)
    requires d != 0 && d2 != 0
    ensures var a, b := MarkOperand(n, d), MarkOperand(n2, d2);
      && Compare(Lt, n, d, b).Ok? && Compare(Gt, n2, d2, a).Ok?
      && Compare(Lt, n, d, b).value == Compare(Gt, n2, d2, a).value
      && Compare(Le, n, d, b).value == (Compare(Lt, n, d, b).value || DurationOf(n, d) == DurationOf(n2, d2))
      && Compare(Ge, n, d, b).value == !Compare(Lt, n, d, b).value
      && (Compare(Lt, n, d, b).value || DurationOf(n, d) == DurationOf(n2, d2) || Compare(Gt, n, d, b).value)
  {
  }

  /** Comparing against anything but a mark raises `TypeError`. */
  lemma CompareRejectsOthers(op: Comparison, n: int, d: int, first: int, second: int)
    ensures Compare(op, n, d, TupleOperand(first, second)) == Err(TypeError)
    ensures Compare(op, n, d, OtherOperand) == Err(TypeError)
  {
  }

  /** Suppressed marks format to nothing, marks without a partial to the
      `\time` command alone, and marks with one to the command and the
      `\partial` directive. */
  lemma FormatCases(n: int, d: int, partial: Option<real>, suppress: Option<bool>, durationString: real -> string)
    ensures suppress == Some(true) ==> FormatOf(n, d, partial, suppress, durationString) == Lines([])
    ensures suppress != Some(true) && partial.None? ==>
      FormatOf(n, d, partial, suppress, durationString) == Line("\\time " + Str(n, d))
    ensures suppress != Some(true) && partial.Some? ==>
      var f := FormatOf(n, d, partial, suppress, durationString);
      f.Lines? && |f.lines| == 2 && f.lines[0] == "\\time " + Str(n, d)
      && f.lines[1] == "\\partial " + durationString(partial.value)
  {
  }

  /** `str` of `3/8` and its format. */
  lemma StrExample(durationString: real -> string)
    ensures Str(3, 8) == "3/8"
    ensures FormatOf(3, 8, None, None, durationString) == Line("\\time 3/8")
  {
    assert NatToString(3) == "3" && NatToString(8) == "8";
  }

  /** The text of `str` has the numerator's digits, a slash and the
      denominator's digits, so different pairs print differently. */
  lemma StrInjective(n: int, d: int, n2: int, d2: int)
    requires n >= 0 && d >= 0 && n2 >= 0 && d2 >= 0
    requires Str(n, d) == Str(n2, d2)
    ensures n == n2 && d == d2
  {
    var a, b := NatToString(n), NatToString(n2);
    SlashSplit(a, NatToString(d), b, NatToString(d2));
    NatToStringInjective(n, n2);
    NatToStringInjective(d, d2);
  }

  /** A slash between two runs of digits is found at the same place. */
  lemma SlashSplit(a: string, b: string, c: string, e: string)
    requires forall i :: 0 <= i < |a| ==> '0' <= a[i] <= '9'
    requires forall i :: 0 <= i < |c| ==> '0' <= c[i] <= '9'
    requires a + "/" + b == c + "/" + e
    ensures a == c && b == e
  {
    var s := a + "/" + b;
    assert s[|a|] == '/' && forall i :: 0 <= i < |a| ==> s[i] == a[i];
    assert s[|c|] == '/' && forall i :: 0 <= i < |c| ==> s[i] == c[i];
    assert |a| == |c|;
    assert a == s[..|a|] && c == s[..|c|];
    assert b == s[|a| + 1..] && e == s[|c| + 1..];
  }
}
