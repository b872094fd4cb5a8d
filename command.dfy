/** An interpreter command: a request that applies over a stretch of time
    starting in some segment, whose stop offset minus start offset is its
    duration. Commands are immutable records. */
module Command {
  import opened Common

  /** The request a command carries; requests are compared by value. */
  datatype Request = Request(description: string)

  datatype Command = Command(
    payload: Request,
    startSegmentIdentifier: string,
    contextName: Option<string>,
    segmentStartOffset: real,
    segmentStopOffset: real,
    duration: real,
    isFresh: bool)

  /** The constructor's invariant. */
  predicate Valid(c: Command)
  {
    c.segmentStopOffset - c.segmentStartOffset == c.duration
  }

  /** The constructor. The types of the arguments are checked by Dafny's
      types; the offsets must span the duration. */
  function MakeCommand(payload: Request, startSegmentIdentifier: string, contextName: Option<string>,
                       segmentStartOffset: real, segmentStopOffset: real, duration: real, isFresh: bool): (c: Command)
    requires segmentStopOffset - segmentStartOffset == duration
    ensures Valid(c)
    ensures c.payload == payload && c.startSegmentIdentifier == startSegmentIdentifier
    ensures c.contextName == contextName && c.isFresh == isFresh
    ensures c.segmentStartOffset == segmentStartOffset && c.segmentStopOffset == segmentStopOffset
    ensures c.duration == duration
  {
    Command(payload, startSegmentIdentifier, contextName, segmentStartOffset, segmentStopOffset, duration, isFresh)
  }

  /** One mandatory argument value, as `__eq__` compares them. */
  datatype ArgumentValue =
    | RequestValue(request: Request)
    | StringValue(s: string)
    | OptionalStringValue(o: Option<string>)
    | RationalValue(x: real)
    | BoolValue(b: bool)

  /** The mandatory argument values, in constructor order. */
  function Vector(c: Command): (v: seq<ArgumentValue>)
    ensures |v| == 7
  {
    [RequestValue(c.payload), StringValue(c.startSegmentIdentifier), OptionalStringValue(c.contextName),
     RationalValue(c.segmentStartOffset), RationalValue(c.segmentStopOffset), RationalValue(c.duration),
     BoolValue(c.isFresh)]
  }

  /** The loop over the zipped values: false at the first unequal pair. */
  function ZipEqual(xs: seq<ArgumentValue>, ys: seq<ArgumentValue>): (r: bool)
    ensures r <==> forall i :: 0 <= i < |xs| && i < |ys| ==> xs[i] == ys[i]
  {
    if |xs| == 0 || |ys| == 0 then true
    else if xs[0] != ys[0] then false
    else ZipEqual(xs[1..], ys[1..])
  }

  /** The other operand of `==`. */
  datatype Operand = CommandOperand(c: Command) | OtherOperand

  function Equals(c: Command, arg: Operand): bool
  {
    arg.CommandOperand? && ZipEqual(Vector(c), Vector(arg.c))
  }

  // ----------------------------------------------------------------------
  // Properties

  /** Two commands are equal exactly when every stored value is equal;
      anything that is not a command is unequal. */
  lemma EqualsIsFieldwise(c: Command, d: Command)
    ensures Equals(c, CommandOperand(d)) <==> c == d
    ensures !Equals(c, OtherOperand)
  {
    if Equals(c, CommandOperand(d)) {
      var u, v := Vector(c), Vector(d);
      assert u[0] == v[0] && u[1] == v[1] && u[2] == v[2] && u[3] == v[3];
      assert u[4] == v[4] && u[5] == v[5] && u[6] == v[6];
    }
  }

  /** A command starting at 1 and stopping at 5/2 lasts 3/2. */
  lemma Example()
    ensures var c := MakeCommand(Request("staccato"), "red", None, 1.0, 2.5, 1.5, true);
      c.duration == 1.5 && Valid(c) && Equals(c, CommandOperand(c))
  {
    var c := MakeCommand(Request("staccato"), "red", None, 1.0, 2.5, 1.5, true);
    EqualsIsFieldwise(c, c);
  }

  /** The duration is determined by the offsets: two valid commands with the
      same offsets have the same duration. */
  lemma DurationDeterminedByOffsets(c: Command, d: Command)
    requires Valid(c) && Valid(d)
    requires c.segmentStartOffset == d.segmentStartOffset && c.segmentStopOffset == d.segmentStopOffset
    ensures c.duration == d.duration
  {
  }
}
