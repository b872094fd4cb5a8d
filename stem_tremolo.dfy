/** A stem tremolo mark: a number of tremolo flags that must be a power of
    two, formatted as `:flags` in the right-hand format slot. */
module StemTremolo {
  import opened Common

  /** The positional arguments of the constructor. */
  datatype InitArg =
    | TremoloArg(flags: int)      // another stem tremolo, given by its flags
    | FlagsArg(value: int)        // a single integer
    | NonIntegerArg               // a single argument of another type

  /** The flags setter's check; non-integers always fail it. */
  predicate FlagsAccepted(arg: InitArg)
  {
    match arg
    case TremoloArg(f) => IsPowerOfTwo(f)
    case FlagsArg(v) => IsPowerOfTwo(v)
    case NonIntegerArg => false
  }

  /** `str` and `lilypond_format`: a colon followed by the flags. */
  function Str(flags: int): (r: string)
    ensures |r| >= 2 && r[0] == ':'
  {
    ":" + IntToString(flags)
  }

  class Tremolo {
    var tremoloFlags: int
    var formatSlot: string

    predicate Valid()
      reads this
    {
      IsPowerOfTwo(tremoloFlags)
    }

    constructor (flags: int)
      requires IsPowerOfTwo(flags)
      ensures tremoloFlags == flags && formatSlot == "right"
      ensures Valid()
    {
      tremoloFlags := flags;
      formatSlot := "right";
    }

    /** The constructor: exactly one argument, a stem tremolo whose flags
      are copied or a value that becomes the flags; any other arity, or
      flags that are not a power of two, raise `ValueError`. */
    static method New(args: seq<InitArg>) returns (r: Result<Tremolo>)
      ensures r.Err? <==> |args| != 1 || !FlagsAccepted(args[0])
      ensures r.Err? ==> r.error == ValueError
      ensures r.Ok? ==> fresh(r.value) && r.value.Valid() && r.value.formatSlot == "right"
      ensures r.Ok? && args[0].TremoloArg? ==> r.value.tremoloFlags == args[0].flags
      ensures r.Ok? && args[0].FlagsArg? ==> r.value.tremoloFlags == args[0].value
    {
      if |args| != 1 || !FlagsAccepted(args[0]) {
        return Err(ValueError);
      }
      var f := if args[0].TremoloArg? then args[0].flags else args[0].value;
      var t := new Tremolo(f);
      r := Ok(t);
    }

    /** The flags setter: a value that is not a power of two raises
      `ValueError` and leaves the flags as they were. */
    method SetTremoloFlags(flags: int) returns (err: Option<PyError>)
      modifies this
      ensures err.Some? <==> !IsPowerOfTwo(flags)
      ensures err.Some? ==> err.value == ValueError
      ensures tremoloFlags == (if err.None? then flags else old(tremoloFlags))
      ensures formatSlot == old(formatSlot)
      ensures old(Valid()) ==> Valid()
    {
      if !IsPowerOfTwo(flags) {
        return Some(ValueError);
      }
      tremoloFlags := flags;
      err := None;
    }

    /** `==`, defined only between stem tremolos: equal flags. */
    predicate Equals(other: Tremolo)
      reads this, other
    {
      tremoloFlags == other.tremoloFlags
    }

    function LilypondFormat(): string
      reads this
    {
      Str(tremoloFlags)
    }

    /** `copy`: a new tremolo with the same flags and format slot. */
    method Copy() returns (c: Tremolo)
      requires Valid()
      ensures fresh(c) && c.Valid()
      ensures c.tremoloFlags == tremoloFlags && c.formatSlot == formatSlot
      ensures c.Equals(this) && c.LilypondFormat() == LilypondFormat()
    {
      c := new Tremolo(tremoloFlags);
      c.formatSlot := formatSlot;
    }
  }

  /** `StemTremolo(16)` formats as `:16`. */
  lemma StrExample()
    ensures Str(16) == ":16"
    ensures Str(32) == ":32"
  {
    assert NatToString(16) == "16" && NatToString(32) == "32";
  }

  /** The format determines the flags, so two tremolos format alike exactly
      when they are equal. */
  lemma StrInjective(a: int, b: int)
    requires a >= 0 && b >= 0
    ensures Str(a) == Str(b) <==> a == b
  {
    if Str(a) == Str(b) {
      assert NatToString(a) == Str(a)[1..];
      assert NatToString(b) == Str(b)[1..];
      NatToStringInjective(a, b);
    }
  }

  /** Accepted flags are positive, so their format has no minus sign. */
  lemma AcceptedFlagsPositive(arg: InitArg)
    requires FlagsAccepted(arg)
    ensures arg.TremoloArg? ==> arg.flags >= 1
    ensures arg.FlagsArg? ==> arg.value >= 1
  {
    if arg.TremoloArg? {
      var k := PowerOfTwoIsPow2(arg.flags);
    } else if arg.FlagsArg? {
      var k := PowerOfTwoIsPow2(arg.value);
    }
  }
}
