/** Whether a list of components can be rescaled by a multiplier without ad
    hoc tuplets: every leaf's written duration times the multiplier must stay
    assignable. */
module AreScalable {
  import opened Common
  import opened ProlatedToWritten

  /** A leaf with its written duration `n/d`, or any other component. */
  datatype Component =
    | Leaf(writtenNumerator: int, writtenDenominator: int)
    | Container

  predicate WellFormed(c: Component)
  {
    c.Leaf? ==> c.writtenDenominator >= 1
  }

  /** `multiplier * leaf.duration.written` is assignable; `a/b` is the
      multiplier. */
  predicate Scales(c: Component, a: int, b: int)
    requires WellFormed(c) && b >= 1
  {
    if c.Leaf? then
      MulPositive(b, c.writtenDenominator);
      IsAssignableDuration(a * c.writtenNumerator, b * c.writtenDenominator)
    else true
  }

  /** The loop over `components` with its early `return False`. */
  function AreScalable(cs: seq<Component>, a: int, b: int): (r: bool)
    requires forall i :: 0 <= i < |cs| ==> WellFormed(cs[i])
    requires b >= 1
    ensures |cs| == 0 ==> r
    decreases |cs|
  {
    if |cs| == 0 then true
    else if cs[0].Leaf? && !Scales(cs[0], a, b) then false
    else AreScalable(cs[1..], a, b)
  }

  /** The list is scalable exactly when every leaf in it scales. */
  lemma {:induction false} AreScalableIffAllScale(cs: seq<Component>, a: int, b: int)
    requires forall i :: 0 <= i < |cs| ==> WellFormed(cs[i])
    requires b >= 1
    ensures AreScalable(cs, a, b) <==> forall i :: 0 <= i < |cs| ==> Scales(cs[i], a, b)
    decreases |cs|
  {
    if |cs| > 0 {
      AreScalableIffAllScale(cs[1..], a, b);
      assert forall i :: 1 <= i < |cs| ==> cs[i] == cs[1..][i - 1];
    }
  }

  /** A container never makes the answer false: inserting one anywhere does
      not change it. */
  lemma ContainersNeverFail(cs: seq<Component>, k: nat, a: int, b: int)
    requires forall i :: 0 <= i < |cs| ==> WellFormed(cs[i])
    requires b >= 1 && k <= |cs|
    ensures forall i :: 0 <= i < |cs| + 1 ==> WellFormed((cs[..k] + [Container] + cs[k..])[i])
    ensures AreScalable(cs[..k] + [Container] + cs[k..], a, b) == AreScalable(cs, a, b)
  {
    var t := cs[..k] + [Container] + cs[k..];
    assert forall i :: 0 <= i < k ==> t[i] == cs[i];
    assert forall i :: k < i < |t| ==> t[i] == cs[i - 1];
    AreScalableIffAllScale(cs, a, b);
    AreScalableIffAllScale(t, a, b);
    if AreScalable(cs, a, b) {
      forall i | 0 <= i < |t|
        ensures Scales(t[i], a, b)
      {
        if i > k {
          assert Scales(cs[i - 1], a, b);
        } else if i < k {
          assert Scales(cs[i], a, b);
        }
      }
    }
    if AreScalable(t, a, b) {
      forall i | 0 <= i < |cs|
        ensures Scales(cs[i], a, b)
      {
        if i < k {
          assert Scales(t[i], a, b);
        } else {
          assert Scales(t[i + 1], a, b);
        }
      }
    }
  }

  /** An eighth note scales by `1/2` and by `3/2` but not by `2/3`. */
  lemma DocExampleHalf()
    ensures AreScalable([Leaf(1, 8)], 1, 2)
  {
    assert [Leaf(1, 8)][1..] == [];
    assert Gcd(1, 16) == 1;
    assert IsPowerOfTwo(16);
  }

  lemma DocExampleThreeHalves()
    ensures AreScalable([Leaf(1, 8)], 3, 2)
  {
    assert [Leaf(1, 8)][1..] == [];
    assert Gcd(3, 16) == 1;
    assert IsPowerOfTwo(16);
  }

  lemma DocExampleTwoThirds()
    ensures !AreScalable([Leaf(1, 8)], 2, 3)
  {
    assert !IsPowerOfTwo(12) by {
      assert !IsPowerOfTwo(3);
      assert !IsPowerOfTwo(6);
    }
    assert !IsAssignableDuration(2, 24) by {
      assert Gcd(2, 24) == 2;
    }
    assert !Scales(Leaf(1, 8), 2, 3);
  }
}
