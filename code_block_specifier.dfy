/** The options of one code block in a document processed by abjad-book:
    whether exceptions are allowed, whether the block is hidden, whether the
    interpreter prompt is stripped, and the text width. The constructor
    normalizes its arguments once into an immutable value. */
module CodeBlockSpecifier {
  import opened Common

  /** The `text_width` argument: `None`, a boolean, an integer, a float, a
      string, or any other object. */
  datatype WidthArg =
    | WidthNone
    | WidthBool(b: bool)
    | WidthInt(i: int)
    | WidthFloat(x: real)
    | WidthString(s: string)
    | WidthOther

  /** The stored options. Each flag is `True` or `None`; the width is a
      positive integer or `None`. */
  datatype CodeBlockSpecifier = CodeBlockSpecifier(
    allowExceptions: Option<bool>,
    hide: Option<bool>,
    stripPrompt: Option<bool>,
    textWidth: Option<nat>)

  /** `bool(value) or None`. */
  function FlagOrNone(v: PyValue): (r: Option<bool>)
    ensures r == Some(true) <==> Truthy(v)
    ensures r != Some(false)
  {
    if Truthy(v) then Some(true) else None
  }

  // ----------------------------------------------------------------------
  // Python's `int` on the argument kinds

  /** `int` of a float: truncation toward zero. */
  function Trunc(x: real): int
  {
    if x >= 0.0 then x.Floor else -((-x).Floor)
  }

  predicate IsDigit(c: char)
  {
    '0' <= c <= '9'
  }

  function DigitValue(c: char): nat
    requires IsDigit(c)
  {
    c as int - '0' as int
  }

  predicate AllDigits(s: string)
  {
    forall i :: 0 <= i < |s| ==> IsDigit(s[i])
  }

  /** The value of a string of decimal digits. */
  function DigitsValue(s: string): nat
    requires AllDigits(s)
  {
    if |s| == 0 then 0 else DigitsValue(s[..|s| - 1]) * 10 + DigitValue(s[|s| - 1])
  }

  /** `int` of a string: an optional sign followed by decimal digits, else
      `ValueError`. */
  function ParseInt(s: string): (r: Result<int>)
    ensures r.Err? ==> r.error == ValueError
    ensures r.Ok? ==> |s| > 0
  {
    var signed := |s| > 0 && (s[0] == '-' || s[0] == '+');
    var digits := if signed then s[1..] else s;
    if |digits| == 0 || !AllDigits(digits) then Err(ValueError)
    else
      var magnitude: int := DigitsValue(digits);
      if signed && s[0] == '-' then Ok(-magnitude) else Ok(magnitude)
  }

  /** `int(text_width)` after `True` has become 80; `int(None)` raises
      `TypeError`, though the constructor never asks for it. */
  function IntOf(w: WidthArg): (r: Result<int>)
  {
    match w
    case WidthNone => Err(TypeError)
    case WidthBool(b) => Ok(if b then 1 else 0)
    case WidthInt(i) => Ok(i)
    case WidthFloat(x) => Ok(Trunc(x))
    case WidthString(s) => ParseInt(s)
    case WidthOther => Err(TypeError)
  }

  /** The `text_width` branch of `__init__`. */
  function NormalizeWidth(w: WidthArg): (r: Result<Option<nat>>)
    ensures w == WidthNone ==> r == Ok(None)
    ensures w == WidthBool(true) ==> r == Ok(Some(80))
    ensures w == WidthBool(false) ==> r == Ok(None)
    ensures r.Ok? && r.value.Some? ==> r.value.value >= 1
    ensures w.WidthInt? ==> r.Ok? && (r.value.Some? <==> w.i != 0)
    ensures w.WidthInt? && w.i != 0 ==> r.value.value == w.i || r.value.value == -w.i
    ensures w == WidthOther ==> r == Err(TypeError)
  {
    if w == WidthNone then Ok(None)
    else
      var v := if w == WidthBool(true) then WidthInt(80) else w;
      match IntOf(v)
      case Err(e) => Err(e)
      case Ok(i) => Ok(if Abs(i) < 1 then None else Some(Abs(i)))
  }

  /** `__init__`. Only `int` of an unparseable string or of an object that
      is not a number raises. */
  function New(allowExceptions: PyValue, hideArg: PyValue, stripPrompt: PyValue, textWidth: WidthArg)
    : (r: Result<CodeBlockSpecifier>)
    ensures r.Err? <==> NormalizeWidth(textWidth).Err?
    ensures r.Ok? ==> r.value.allowExceptions == FlagOrNone(allowExceptions)
    ensures r.Ok? ==> r.value.hide == FlagOrNone(hideArg)
    ensures r.Ok? ==> r.value.stripPrompt == FlagOrNone(stripPrompt)
    ensures r.Ok? ==> r.value.textWidth == NormalizeWidth(textWidth).value
  {
    match NormalizeWidth(textWidth)
    case Err(e) => Err(e)
    case Ok(width) => Ok(CodeBlockSpecifier(FlagOrNone(allowExceptions), FlagOrNone(hideArg),
                                            FlagOrNone(stripPrompt), width))
  }

  // ----------------------------------------------------------------------
  // Properties

  /** Truncation moves toward zero by less than one, and keeps integers. */
  lemma TruncTowardZero(x: real)
    ensures Abs(Trunc(x)) as real <= (if x < 0.0 then -x else x)
    ensures (if x < 0.0 then -x else x) < Abs(Trunc(x)) as real + 1.0
    ensures x == x.Floor as real ==> Trunc(x) as real == x
  {
    if x >= 0.0 {
      assert x.Floor >= 0;
      assert Abs(Trunc(x)) == x.Floor;
    } else {
      var y := -x;
      assert y.Floor >= 0;
      assert Abs(Trunc(x)) == y.Floor;
      if x == x.Floor as real {
        assert y == (-x.Floor) as real;
        assert y.Floor == -x.Floor;
      }
    }
  }

  /** A float width is stored as the absolute value of its integer part,
      when that is at least one. */
  lemma FloatWidth(x: real)
    ensures NormalizeWidth(WidthFloat(x)).Ok?
    ensures x >= 1.0 ==> NormalizeWidth(WidthFloat(x)) == Ok(Some(x.Floor))
    ensures -1.0 < x < 1.0 ==> NormalizeWidth(WidthFloat(x)) == Ok(None)
    ensures x <= -1.0 ==> NormalizeWidth(WidthFloat(x)) == Ok(Some((-x).Floor))
  {
  }

  /** Normalizing is idempotent: a specifier rebuilt from its own stored
      values is the same specifier. */
  lemma NormalizeIdempotent(c: CodeBlockSpecifier)
    requires c.allowExceptions != Some(false) && c.hide != Some(false) && c.stripPrompt != Some(false)
    requires c.textWidth.Some? ==> c.textWidth.value >= 1
    ensures New(FlagArg(c.allowExceptions), FlagArg(c.hide), FlagArg(c.stripPrompt), WidthArgOf(c.textWidth))
      == Ok(c)
  {
  }

  /** The argument that a stored flag was built from, in its own type. */
  function FlagArg(f: Option<bool>): PyValue
  {
    match f
    case None => PyNone
    case Some(b) => PyBool(b)
  }

  function WidthArgOf(w: Option<nat>): WidthArg
  {
    match w
    case None => WidthNone
    case Some(n) => WidthInt(n)
  }

  lemma {:induction false} DigitCharValue(d: nat)
    requires d < 10
    ensures IsDigit(DigitChar(d)) && DigitValue(DigitChar(d)) == d
  {
    assert "0123456789"[0] == '0' && "0123456789"[1] == '1' && "0123456789"[2] == '2';
    assert "0123456789"[3] == '3' && "0123456789"[4] == '4' && "0123456789"[5] == '5';
    assert "0123456789"[6] == '6' && "0123456789"[7] == '7' && "0123456789"[8] == '8';
    assert "0123456789"[9] == '9';
  }

  /** Reading back the digits of a natural gives the natural. */
  lemma {:induction false} DigitsRoundTrip(n: nat)
    ensures AllDigits(NatToString(n))
    ensures DigitsValue(NatToString(n)) == n
    decreases n
  {
    var s := NatToString(n);
    if n < 10 {
      DigitCharValue(n);
      assert s[..0] == [];
    } else {
      DigitsRoundTrip(n / 10);
      DigitCharValue(n % 10);
      assert s[..|s| - 1] == NatToString(n / 10);
    }
  }

  /** A width given as the string Python prints for an integer is read back
      as that integer: `int(str(i)) == i`. */
  lemma ParseIntRoundTrip(i: int)
    ensures ParseInt(IntToString(i)) == Ok(i)
  {
    if i < 0 {
      ParseNegative(-i);
    } else {
      ParseNatural(i);
    }
  }

  lemma ParseNatural(n: nat)
    ensures ParseInt(IntToString(n)) == Ok(n)
  {
    DigitsRoundTrip(n);
    ParseDigits(IntToString(n), n);
  }

  lemma ParseNegative(n: nat)
    requires n >= 1
    ensures ParseInt(IntToString(-(n as int))) == Ok(-(n as int))
  {
    DigitsRoundTrip(n);
    ParseMinusDigits(IntToString(-(n as int)), NatToString(n), n);
  }

  /** Unsigned digits are read as their value. */
  lemma ParseDigits(s: string, v: nat)
    requires |s| > 0 && AllDigits(s) && DigitsValue(s) == v
    ensures ParseInt(s) == Ok(v)
  {
    assert IsDigit(s[0]);
  }

  /** A minus sign followed by digits is read as the negated value. */
  lemma ParseMinusDigits(s: string, d: string, v: nat)
    requires s == "-" + d && |d| > 0 && AllDigits(d) && DigitsValue(d) == v
    ensures ParseInt(s) == Ok(-(v as int))
  {
    assert s[0] == '-' && s[1..] == d;
  }

  /** `CodeBlockSpecifier(text_width=True)` has width 80 and no flags;
      truthy flags become `True`, false ones `None`, and a negative width
      its absolute value. */
  lemma Example()
    ensures New(PyNone, PyNone, PyNone, WidthBool(true)) == Ok(CodeBlockSpecifier(None, None, None, Some(80)))
    ensures New(PyInt(1), PyStr(""), PyBool(true), WidthInt(-3))
      == Ok(CodeBlockSpecifier(Some(true), None, Some(true), Some(3)))
  {
  }

  /** A width string that is not a number raises `ValueError`. */
  lemma ExampleBadString()
    ensures New(PyNone, PyNone, PyNone, WidthString("wide")) == Err(ValueError)
  {
    var s := "wide";
    assert s[0] == 'w' && !(s[0] == '-' || s[0] == '+');
    assert !AllDigits(s) by {
      assert !IsDigit(s[0]);
    }
  }
}
