/** Harmonic chromatic interval-classes: an interval folded to a number of
    semitones from 0 to 12, where 12 stands for every non-zero multiple of
    an octave. */
module IntervalClass {
  import opened Common

  /** The constructor's argument: an integer, an interval given by its
      semitones, or anything else. */
  datatype Token = NumberToken(n: int) | IntervalToken(semitones: int) | OtherToken

  datatype HarmonicChromaticIntervalClass = IntervalClass(number: int)

  /** Twelve for a non-zero multiple of twelve, otherwise the absolute value
      reduced modulo twelve. */
  function Normalize(n: int): (r: int)
    ensures 0 <= r <= 12
    ensures r == 0 <==> n == 0
    ensures (Abs(n) - r) % 12 == 0
  {
    TwelveDivides(n);
    if n % 12 == 0 && 12 <= Abs(n) then 12 else Abs(n) % 12
  }

  lemma TwelveDivides(n: int)
    ensures n % 12 == 0 <==> Abs(n) % 12 == 0
    ensures (Abs(n) - Abs(n) % 12) % 12 == 0
    ensures Abs(n) % 12 == 0 ==> (Abs(n) - 12) % 12 == 0
  {
    var q, r := n / 12, n % 12;
    assert n == 12 * q + r;
    if n < 0 {
      assert -n == 12 * (-q) - r;
      if r != 0 {
        assert -n == 12 * (-q - 1) + (12 - r);
      }
    }
    var a: int := Abs(n);
    assert a == 12 * (a / 12) + a % 12;
    assert a - a % 12 == 12 * (a / 12);
    assert a - 12 == 12 * (a / 12 - 1) + a % 12;
  }

  /** The normalized number is the only value in 1..12 (or 0, for 0) that
      agrees with |n| modulo twelve. */
  lemma NormalizeUnique(n: int, r: int)
    requires 0 <= r <= 12 && (r == 0 <==> n == 0) && (Abs(n) - r) % 12 == 0
    ensures r == Normalize(n)
  {
    var q := Normalize(n);
    var k1, k2 := (Abs(n) - r) / 12, (Abs(n) - q) / 12;
    assert Abs(n) - r == 12 * k1;
    assert Abs(n) - q == 12 * k2;
    assert q - r == 12 * (k1 - k2);
    if n == 0 {
      assert q == 0 && r == 0;
    } else {
      assert 1 <= q && 1 <= r;
      assert -12 < 12 * (k1 - k2) < 12;
    }
  }

  /** The constructor: numbers and intervals are normalized; anything else
      raises `TypeError`. */
  function Make(token: Token): (r: Result<HarmonicChromaticIntervalClass>)
    ensures r.Err? <==> token.OtherToken?
    ensures r.Err? ==> r.error == TypeError
    ensures token.NumberToken? ==> r == Ok(IntervalClass(Normalize(token.n)))
    ensures token.IntervalToken? ==> r == Ok(IntervalClass(Normalize(token.semitones)))
  {
    match token
    case NumberToken(n) => Ok(IntervalClass(Normalize(n)))
    case IntervalToken(s) => Ok(IntervalClass(Normalize(s)))
    case OtherToken => Err(TypeError)
  }

  /** `abs`: a new class from the absolute value of the number. */
  function AbsOf(c: HarmonicChromaticIntervalClass): HarmonicChromaticIntervalClass
  {
    IntervalClass(Normalize(Abs(c.number)))
  }

  /** `int`: the stored number. */
  function ToInt(c: HarmonicChromaticIntervalClass): int
  {
    c.number
  }

  /** The other operand of `==`. */
  datatype Operand = ClassOperand(c: HarmonicChromaticIntervalClass) | OtherOperand

  /** `==`: another interval-class with the same number. */
  predicate Equals(c: HarmonicChromaticIntervalClass, arg: Operand)
  {
    arg.ClassOperand? && c.number == arg.c.number
  }

  /** A class holds a normalized number. */
  predicate Normalized(c: HarmonicChromaticIntervalClass)
  {
    0 <= c.number <= 12
  }

  /** `-14` normalizes to 2, `24` to 12 and `0` to 0. */
  lemma Examples()
    ensures Make(NumberToken(-14)) == Ok(IntervalClass(2))
    ensures Make(NumberToken(24)) == Ok(IntervalClass(12))
    ensures Make(NumberToken(-12)) == Ok(IntervalClass(12))
    ensures Make(NumberToken(0)) == Ok(IntervalClass(0))
  {
  }

  /** Normalizing is idempotent, and `abs` of a class is an equal class. */
  lemma AbsIdempotent(token: Token)
    requires !token.OtherToken?
    ensures Normalized(Make(token).value)
    ensures AbsOf(Make(token).value) == Make(token).value
    ensures Equals(AbsOf(Make(token).value), ClassOperand(Make(token).value))
  {
    var c := Make(token).value;
    NormalizeIdempotent(c.number);
  }

  lemma NormalizeIdempotent(r: int)
    requires 0 <= r <= 12
    ensures Normalize(r) == r
  {
  }

  /** A number and its negation give the same class, and shifting by an
      octave keeps the class of a number that is not a multiple of twelve. */
  lemma NormalizeSymmetries(n: int)
    ensures Normalize(-n) == Normalize(n)
    ensures n > 0 && n % 12 != 0 ==> Normalize(n + 12) == Normalize(n)
  {
  }

  /** Equality holds exactly for classes with the same number; `int` gives
      that number back. */
  lemma EqualsIsSameNumber(c: HarmonicChromaticIntervalClass, d: HarmonicChromaticIntervalClass)
    ensures Equals(c, ClassOperand(d)) <==> c == d
    ensures Equals(c, ClassOperand(d)) <==> ToInt(c) == ToInt(d)
    ensures !Equals(c, OtherOperand)
  {
  }
}
