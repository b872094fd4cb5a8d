/** Whether an argument has the form of a pair of integers that initialise a
    positive rational. */
module IsDurationPair {
  import opened Common

  /** What can be unpacked into `Fraction(*arg)`: an integer or anything
      else. */
  datatype Value = Integer(i: int) | NonInteger

  /** The argument: a list or tuple of values, or some other object. */
  datatype Arg = Sequence(items: seq<Value>) | Other

  /** `Fraction(*items)` for zero, one or two items: a rational `n/d` or the
      exception it raises. */
  function MakeFraction(items: seq<Value>): (r: Result<(int, int)>)
    ensures r.Ok? ==> r.value.1 != 0
  {
    if |items| == 0 then Ok((0, 1))
    else if |items| == 1 then
      if items[0].Integer? then Ok((items[0].i, 1)) else Err(TypeError)
    else if |items| == 2 then
      if !items[0].Integer? || !items[1].Integer? then Err(TypeError)
      else if items[1].i == 0 then Err(ZeroDivisionError)
      else Ok((items[0].i, items[1].i))
    else Err(TypeError)
  }

  /** `0 < n/d` for a non-zero denominator. */
  predicate Positive(n: int, d: int)
    requires d != 0
  {
    (n > 0 && d > 0) || (n < 0 && d < 0)
  }

  /** The wrong-length check, the `Fraction` construction whose exception
      means `False`, then the sign test. */
  function IsDurationPair(arg: Arg): bool
  {
    if arg.Sequence? && |arg.items| != 2 then false
    else if arg.Other? then false
    else
      var f := MakeFraction(arg.items);
      if f.Err? then false
      else Positive(f.value.0, f.value.1)
  }

  /** A duration pair is exactly two integers whose quotient is positive. */
  lemma IsDurationPairIff(arg: Arg)
    ensures IsDurationPair(arg) <==>
      arg.Sequence? && |arg.items| == 2 && arg.items[0].Integer? && arg.items[1].Integer?
      && arg.items[0].i * arg.items[1].i > 0
  {
    if arg.Sequence? && |arg.items| == 2 && arg.items[0].Integer? && arg.items[1].Integer? {
      var n, d := arg.items[0].i, arg.items[1].i;
      SignOfProduct(n, d);
    }
  }

  lemma SignOfProduct(n: int, d: int)
    ensures n * d > 0 <==> (n > 0 && d > 0) || (n < 0 && d < 0)
  {
    if n > 0 && d < 0 {
      assert n * d == -(n * -d);
    } else if n < 0 && d > 0 {
      assert n * d == -(-n * d);
    } else if n < 0 && d < 0 {
      assert n * d == -n * -d;
    }
  }

  /** Any sequence whose length is not two is rejected, whatever it holds. */
  lemma WrongLengthRejected(items: seq<Value>)
    requires |items| != 2
    ensures !IsDurationPair(Sequence(items))
  {
  }

  /** Arguments `Fraction` cannot take give `False` instead of an exception:
      a zero denominator or a non-integer. */
  lemma UnbuildableRejected(items: seq<Value>)
    requires MakeFraction(items).Err?
    ensures !IsDurationPair(Sequence(items))
  {
  }

  /** `(5, 16)` is a duration pair and `(-5, 16)` is not; neither is a zero
      ratio. */
  lemma DocExamples()
    ensures IsDurationPair(Sequence([Integer(5), Integer(16)]))
    ensures !IsDurationPair(Sequence([Integer(-5), Integer(16)]))
    ensures !IsDurationPair(Sequence([Integer(0), Integer(16)]))
  {
  }
}
