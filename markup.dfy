/** LilyPond markup as an immutable value: a non-empty sequence of contents
    (strings and markup commands), a direction and a stack priority, with
    concatenation, comparison, the wrapping commands, the list commands
    and improper-fraction markup. */
module Markup {
  import opened Common

  /** The three directions a markup may be attached in. */
  datatype Direction = Up | Down | Center

  /** A markup command: its name and its arguments, in order. */
  datatype MarkupCommand = MarkupCommand(name: string, args: seq<Argument>)

  /** One content of a markup: a string or a command. */
  datatype Content = TextContent(s: string) | CommandContent(command: MarkupCommand)

  /** A command argument: one content, the contents of a markup with
      several, a list of parsed arguments, or a Scheme value written out. */
  datatype Argument =
    | Single(content: Content)
    | ContentList(contents: seq<Content>)
    | ArgumentList(items: seq<Argument>)
    | Scheme(text: string)

  datatype Markup = Markup(contents: seq<Content>, direction: Option<Direction>, stackPriority: int)

  /** What every constructed markup satisfies: it has a content. */
  predicate Valid(m: Markup)
  {
    |m.contents| > 0
  }

  /** An element of a sequence given to the constructor or to a list
      command: a string, a command, a markup, or any other object, held as
      its `str`. */
  datatype Item = ItemText(s: string) | ItemCommand(c: MarkupCommand) | ItemMarkup(m: Markup) | ItemOther(display: string)

  /** The `contents` argument of the constructor, other than a string
      (which goes to the LilyPond parser): `None`, a command, a markup, a
      sequence (with its `str` for when it is empty) or any other object. */
  datatype ContentsArg =
    | ContentsNone
    | ContentsCommand(c: MarkupCommand)
    | ContentsMarkup(m: Markup)
    | ContentsSequence(items: seq<Item>, display: string)
    | ContentsOther(display: string)

  /** What one item of a sequence contributes to the contents. */
  function ItemContent(item: Item): (r: seq<Content>)
  {
    match item
    case ItemText(s) => [TextContent(s)]
    case ItemCommand(c) => [CommandContent(c)]
    case ItemMarkup(m) => m.contents
    case ItemOther(display) => [TextContent(display)]
  }

  /** The contents gathered from a sequence, item by item. */
  function ItemContents(items: seq<Item>): seq<Content>
  {
    if |items| == 0 then [] else ItemContents(items[..|items| - 1]) + ItemContent(items[|items| - 1])
  }

  /** The constructor's gathering loop over a non-empty sequence. */
  method GatherItems(items: seq<Item>) returns (contents: seq<Content>)
    ensures contents == ItemContents(items)
  {
    contents := [];
    for i := 0 to |items|
      invariant contents == ItemContents(items[..i])
    {
      assert items[..i + 1][..i] == items[..i];
      match items[i]
      case ItemText(s) =>
        contents := contents + [TextContent(s)];
      case ItemCommand(c) =>
        contents := contents + [CommandContent(c)];
      case ItemMarkup(m) =>
        contents := contents + m.contents;
      case ItemOther(display) =>
        contents := contents + [TextContent(display)];
    }
    assert items[..|items|] == items;
  }

  /** The items a list of contents is passed as. */
  function AsItems(cs: seq<Content>): (r: seq<Item>)
    ensures |r| == |cs|
  {
    seq(|cs|, i requires 0 <= i < |cs| => if cs[i].TextContent? then ItemText(cs[i].s) else ItemCommand(cs[i].command))
  }

  /** `__init__` for every `contents` argument but a string: `None` gives
      the empty string, a command itself, a markup its contents and (when
      no direction is given) its direction, a non-empty sequence its items'
      contents, and anything else its `str`. */
  function New(contents: ContentsArg, direction: Option<Direction>, stackPriority: int): (r: Markup)
  {
    match contents
    case ContentsNone => Markup([TextContent("")], direction, stackPriority)
    case ContentsCommand(c) => Markup([CommandContent(c)], direction, stackPriority)
    case ContentsMarkup(m) =>
      Markup(m.contents, if direction.Some? then direction else m.direction, stackPriority)
    case ContentsSequence(items, display) =>
      if 0 < |items| then Markup(ItemContents(items), direction, stackPriority)
      else Markup([TextContent(display)], direction, stackPriority)
    case ContentsOther(display) => Markup([TextContent(display)], direction, stackPriority)
  }

  // ----------------------------------------------------------------------
  // Properties of the constructor

  lemma {:induction false} ItemContentsAppend(xs: seq<Item>, ys: seq<Item>)
    ensures ItemContents(xs + ys) == ItemContents(xs) + ItemContents(ys)
    decreases |ys|
  {
    if |ys| > 0 {
      var zs := xs + ys;
      assert zs[..|zs| - 1] == xs + ys[..|ys| - 1];
      ItemContentsAppend(xs, ys[..|ys| - 1]);
    } else {
      assert xs + ys == xs;
    }
  }

  /** Passing a markup's contents back as a list rebuilds exactly those
      contents. */
  lemma {:induction false} ItemContentsOfContents(cs: seq<Content>)
    ensures ItemContents(AsItems(cs)) == cs
  {
    if |cs| > 0 {
      var front := cs[..|cs| - 1];
      assert AsItems(cs)[..|cs| - 1] == AsItems(front);
      ItemContentsOfContents(front);
      assert cs == front + [cs[|cs| - 1]];
    }
  }

  /** Every markup the constructor builds from markups has a content. */
  lemma {:induction false} ItemContentsNonEmpty(items: seq<Item>)
    requires |items| > 0
    requires forall i :: 0 <= i < |items| && items[i].ItemMarkup? ==> Valid(items[i].m)
    ensures |ItemContents(items)| > 0
  {
    var last := items[|items| - 1];
    assert |ItemContent(last)| > 0;
  }

  /** The constructor keeps `Valid` whenever the markups it is given are
      valid; `None` gives the single empty string; a markup is copied with
      its direction as the fallback. */
  lemma NewIsValid(contents: ContentsArg, direction: Option<Direction>, stackPriority: int)
    requires contents.ContentsMarkup? ==> Valid(contents.m)
    requires contents.ContentsSequence? ==>
      forall i :: 0 <= i < |contents.items| && contents.items[i].ItemMarkup? ==> Valid(contents.items[i].m)
    ensures Valid(New(contents, direction, stackPriority))
    ensures contents.ContentsNone? ==> New(contents, direction, stackPriority).contents == [TextContent("")]
    ensures contents.ContentsMarkup? ==>
      New(contents, direction, stackPriority).contents == contents.m.contents
      && New(contents, direction, stackPriority).direction
        == (if direction.None? then contents.m.direction else direction)
  {
    if contents.ContentsSequence? && 0 < |contents.items| {
      ItemContentsNonEmpty(contents.items);
    }
  }

  // ----------------------------------------------------------------------
  // Addition and comparison

  /** The other operand of `+` and `<`. */
  datatype Operand = OperandMarkup(m: Markup) | OperandCommand(c: MarkupCommand) | OperandOther

  /** `a + argument`: a new markup whose contents are a's followed by the
      argument's (or the argument command), in a's direction; anything else
      raises `TypeError`. */
  function Add(a: Markup, argument: Operand): (r: Result<Markup>)
    ensures argument.OperandOther? <==> r.Err?
    ensures r.Err? ==> r.error == TypeError
    ensures argument.OperandMarkup? && Valid(a) ==> r == Ok(Markup(a.contents + argument.m.contents, a.direction, 0))
    ensures argument.OperandCommand? ==> r == Ok(Markup(a.contents + [CommandContent(argument.c)], a.direction, 0))
  {
    var commands :=
      match argument
      case OperandMarkup(m) => Some(a.contents + m.contents)
      case OperandCommand(c) => Some(a.contents + [CommandContent(c)])
      case OperandOther => None;
    if commands.None? then Err(TypeError)
    else
      ItemContentsOfContents(commands.value);
      ConstructFromContents(commands.value, a.direction)
  }

  /** `Markup(contents=commands, direction=...)` on a list of contents. */
  function ConstructFromContents(cs: seq<Content>, direction: Option<Direction>): (r: Result<Markup>)
    requires ItemContents(AsItems(cs)) == cs
    ensures 0 < |cs| ==> r == Ok(Markup(cs, direction, 0))
    ensures |cs| == 0 ==> r == Ok(Markup([TextContent("[]")], direction, 0))
  {
    Ok(New(ContentsSequence(AsItems(cs), "[]"), direction, 0))
  }

  /** `self.__radd__(argument)`: the argument's contents (or the argument
      command) followed by self's, in self's direction. */
  function RAdd(self: Markup, argument: Operand): (r: Result<Markup>)
    ensures argument.OperandOther? <==> r.Err?
    ensures r.Err? ==> r.error == TypeError
    ensures argument.OperandMarkup? && Valid(self) ==> r == Ok(Markup(argument.m.contents + self.contents, self.direction, 0))
    ensures argument.OperandCommand? ==> r == Ok(Markup([CommandContent(argument.c)] + self.contents, self.direction, 0))
  {
    var commands :=
      match argument
      case OperandMarkup(m) => Some(m.contents + self.contents)
      case OperandCommand(c) => Some([CommandContent(c)] + self.contents)
      case OperandOther => None;
    if commands.None? then Err(TypeError)
    else
      ItemContentsOfContents(commands.value);
      ConstructFromContents(commands.value, self.direction)
  }

  /** Adding markups is associative, and the result is valid and in the
      leftmost markup's direction. */
  lemma AddAssociative(a: Markup, b: Markup, c: Markup)
    requires Valid(a) && Valid(b) && Valid(c)
    ensures Add(a, OperandMarkup(b)).Ok? && Add(b, OperandMarkup(c)).Ok?
    ensures Add(Add(a, OperandMarkup(b)).value, OperandMarkup(c))
      == Add(a, OperandMarkup(Add(b, OperandMarkup(c)).value))
    ensures Valid(Add(a, OperandMarkup(b)).value) && Add(a, OperandMarkup(b)).value.direction == a.direction
  {
    assert (a.contents + b.contents) + c.contents == a.contents + (b.contents + c.contents);
  }

  /** `b.__radd__(a)` has the contents of `a + b` but keeps b's
      direction. */
  lemma RAddMirrorsAdd(a: Markup, b: Markup)
    requires Valid(a) && Valid(b)
    ensures RAdd(b, OperandMarkup(a)).Ok? && Add(a, OperandMarkup(b)).Ok?
    ensures RAdd(b, OperandMarkup(a)).value.contents == Add(a, OperandMarkup(b)).value.contents
    ensures RAdd(b, OperandMarkup(a)).value.direction == b.direction
    ensures Add(a, OperandMarkup(b)).value.direction == a.direction
  {
  }

  /** Python's `<` on strings: code-point lexicographic, strict. */
  predicate StrLt(a: string, b: string)
  {
    StrLe(a, b) && a != b
  }

  /** Python's `<` on two lists of contents: the first unequal pair
      decides, and then only two strings can be compared; a list that is a
      proper prefix of the other is smaller. */
  function ContentsLt(xs: seq<Content>, ys: seq<Content>): (r: Result<bool>)
  {
    if |xs| == 0 then Ok(|ys| > 0)
    else if |ys| == 0 then Ok(false)
    else if xs[0] == ys[0] then ContentsLt(xs[1..], ys[1..])
    else if xs[0].TextContent? && ys[0].TextContent? then Ok(StrLt(xs[0].s, ys[0].s))
    else Err(TypeError)
  }

  /** `a < argument`: compares contents; anything but a markup raises
      `TypeError`. */
  function Lt(a: Markup, argument: Operand): (r: Result<bool>)
    ensures !argument.OperandMarkup? ==> r == Err(TypeError)
  {
    if !argument.OperandMarkup? then Err(TypeError) else ContentsLt(a.contents, argument.m.contents)
  }

  /** All contents are strings. */
  predicate AllText(cs: seq<Content>)
  {
    forall i :: 0 <= i < |cs| ==> cs[i].TextContent?
  }

  lemma {:induction false} StrLtTrichotomy(s: string, t: string)
    ensures s == t || StrLt(s, t) || StrLt(t, s)
    ensures !(StrLt(s, t) && StrLt(t, s))
  {
    StrLeTotal(s, t);
    if StrLe(s, t) && StrLe(t, s) {
      StrLeAntisymmetric(s, t);
    }
  }

  lemma {:induction false} StrLeAntisymmetric(s: string, t: string)
    requires StrLe(s, t) && StrLe(t, s)
    ensures s == t
  {
    if |s| > 0 && |t| > 0 {
      StrLeAntisymmetric(s[1..], t[1..]);
      assert s == [s[0]] + s[1..] && t == [t[0]] + t[1..];
    }
  }

  /** On markups made of strings, `<` never raises and is a strict total
      order on contents: exactly one of `a < b`, `b < a` and equal contents
      holds. */
  lemma {:induction false} LtTotalOnText(xs: seq<Content>, ys: seq<Content>)
    requires AllText(xs) && AllText(ys)
    ensures ContentsLt(xs, ys).Ok? && ContentsLt(ys, xs).Ok?
    ensures xs == ys || ContentsLt(xs, ys).value || ContentsLt(ys, xs).value
    ensures !(ContentsLt(xs, ys).value && ContentsLt(ys, xs).value)
    ensures xs == ys ==> !ContentsLt(xs, ys).value
  {
    if |xs| > 0 && |ys| > 0 {
      assert AllText(xs[1..]) && AllText(ys[1..]);
      if xs[0] == ys[0] {
        LtTotalOnText(xs[1..], ys[1..]);
        if xs[1..] == ys[1..] {
          assert xs == [xs[0]] + xs[1..] && ys == [ys[0]] + ys[1..];
        }
      } else {
        StrLtTrichotomy(xs[0].s, ys[0].s);
      }
    }
  }

  /** No markup is less than itself, whatever it contains. */
  lemma {:induction false} LtIrreflexive(xs: seq<Content>)
    ensures ContentsLt(xs, xs) == Ok(false)
  {
    if |xs| > 0 {
      LtIrreflexive(xs[1..]);
    }
  }

  /** `Allegro < assai` by code point (upper case sorts first), and a
      command against a string raises. */
  lemma LtExample()
    ensures Lt(Markup([TextContent("Allegro")], None, 0), OperandMarkup(Markup([TextContent("assai")], None, 0))) == Ok(true)
    ensures Lt(Markup([TextContent("b")], None, 0), OperandMarkup(Markup([TextContent("a")], None, 0))) == Ok(false)
    ensures Lt(Markup([TextContent("a")], None, 0), OperandMarkup(Markup([CommandContent(MarkupCommand("flat", []))], None, 0)))
      == Err(TypeError)
  {
    assert StrLe("Allegro", "assai");
    assert !StrLe("b", "a");
  }

  // ----------------------------------------------------------------------
  // Wrapping commands

  /** `_parse_markup_command_argument`: a markup of one content passes
      that content, a markup of several passes the list; a string or a
      command passes itself; anything else raises `TypeError`. */
  function ParseArgument(item: Item): (r: Result<Argument>)
    ensures item.ItemOther? <==> r.Err?
    ensures r.Err? ==> r.error == TypeError
  {
    match item
    case ItemMarkup(m) => if |m.contents| == 1 then Ok(Single(m.contents[0])) else Ok(ContentList(m.contents))
    case ItemText(s) => Ok(Single(TextContent(s)))
    case ItemCommand(c) => Ok(Single(CommandContent(c)))
    case ItemOther(_) => Err(TypeError)
  }

  /** The contents an argument parsed from a markup stands for. */
  function ArgumentContents(a: Argument): seq<Content>
  {
    match a
    case Single(c) => [c]
    case ContentList(cs) => cs
    case ArgumentList(_) => []
    case Scheme(_) => []
  }

  /** Parsing a markup loses nothing: its contents can be read back from
      the argument. */
  lemma ParseArgumentRoundTrip(m: Markup)
    requires Valid(m)
    ensures ParseArgument(ItemMarkup(m)).Ok?
    ensures ArgumentContents(ParseArgument(ItemMarkup(m)).value) == m.contents
  {
    if |m.contents| == 1 {
      assert m.contents == [m.contents[0]];
    }
  }

  /** `bold`, `box`, `italic`, `tiny` and the other one-argument wrappers,
      and with leading arguments `fontsize`, `override`, `raise` and the
      like: a copy of the markup whose only content is the named command
      applied to the leading arguments and then to the markup itself. */
  function Wrap(m: Markup, name: string, leading: seq<Argument>): (r: Markup)
    ensures |r.contents| == 1 && r.contents[0].CommandContent?
    ensures r.contents[0].command.name == name
    ensures |r.contents[0].command.args| == |leading| + 1
    ensures r.contents[0].command.args[..|leading|] == leading
    ensures r.direction == m.direction && r.stackPriority == m.stackPriority
  {
    var contents := ParseArgument(ItemMarkup(m)).value;
    var command := MarkupCommand(name, leading + [contents]);
    New(ContentsCommand(command), m.direction, m.stackPriority)
  }

  /** The wrapped markup can be read back from the command's last
      argument. */
  lemma WrapRoundTrip(m: Markup, name: string, leading: seq<Argument>)
    requires Valid(m)
    ensures Valid(Wrap(m, name, leading))
    ensures ArgumentContents(Wrap(m, name, leading).contents[0].command.args[|leading|]) == m.contents
  {
    ParseArgumentRoundTrip(m);
  }

  /** The names of the wrappers that take only the markup. */
  const SimpleWrappers: set<string> := {
    "bold", "box", "bracket", "caps", "center-align", "circle", "dynamic", "finger", "huge",
    "italic", "larger", "parenthesize", "sans", "small", "smaller", "sub", "super", "tiny",
    "upright", "vcenter", "whiteout" }

  /** `Allegro assai` in bold is one `\bold` command around the string. */
  lemma BoldExample()
    ensures Wrap(Markup([TextContent("Allegro assai")], Some(Up), 0), "bold", [])
      == Markup([CommandContent(MarkupCommand("bold", [Single(TextContent("Allegro assai"))]))], Some(Up), 0)
  {
  }

  /** The `direction` argument of `general_align`. */
  datatype AlignDirection = AlignUp | AlignDown | AlignCenter | AlignNumber(text: string) | AlignOther

  /** `general_align`: the direction becomes a Scheme symbol or number;
      anything else raises `ValueError`. */
  function GeneralAlign(m: Markup, axis: string, direction: AlignDirection): (r: Result<Markup>)
    ensures r.Err? <==> direction.AlignOther?
    ensures r.Err? ==> r.error == ValueError
    ensures r.Ok? ==> r.value.direction == m.direction && |r.value.contents| == 1
  {
    var scheme :=
      match direction
      case AlignUp => Some(Scheme("UP"))
      case AlignDown => Some(Scheme("DOWN"))
      case AlignCenter => Some(Scheme("CENTER"))
      case AlignNumber(text) => Some(Scheme(text))
      case AlignOther => None;
    if scheme.None? then Err(ValueError) else Ok(Wrap(m, "general-align", [Scheme(axis), scheme.value]))
  }

  // ----------------------------------------------------------------------
  // List commands

  /** The contents of a list of markups, one after another. */
  function Flatten(markups: seq<Markup>): seq<Content>
  {
    if |markups| == 0 then [] else Flatten(markups[..|markups| - 1]) + markups[|markups| - 1].contents
  }

  /** The loop of `column` and `line`: every markup's contents, extended
      in order. */
  method ExtendContents(markups: seq<Markup>) returns (contents: seq<Content>)
    ensures contents == Flatten(markups)
  {
    contents := [];
    for i := 0 to |markups|
      invariant contents == Flatten(markups[..i])
    {
      assert markups[..i + 1][..i] == markups[..i];
      contents := contents + markups[i].contents;
    }
    assert markups[..|markups|] == markups;
  }

  /** The single command a list command builds. */
  function ListCommandMarkup(name: string, arg: Argument, direction: Option<Direction>): Markup
  {
    New(ContentsCommand(MarkupCommand(name, [arg])), direction, 0)
  }

  /** `column`: one `\column` command around all the contents in order. */
  method Column(markups: seq<Markup>, direction: Option<Direction>) returns (r: Markup)
    ensures r == ListCommandMarkup("column", ContentList(Flatten(markups)), direction)
  {
    var contents := ExtendContents(markups);
    r := New(ContentsCommand(MarkupCommand("column", [ContentList(contents)])), direction, 0);
  }

  /** `line`: one `\line` command around all the contents in order. */
  method Line(markups: seq<Markup>, direction: Option<Direction>) returns (r: Markup)
    ensures r == ListCommandMarkup("line", ContentList(Flatten(markups)), direction)
  {
    var contents := ExtendContents(markups);
    r := New(ContentsCommand(MarkupCommand("line", [ContentList(contents)])), direction, 0);
  }

  lemma {:induction false} FlattenAppend(xs: seq<Markup>, ys: seq<Markup>)
    ensures Flatten(xs + ys) == Flatten(xs) + Flatten(ys)
    decreases |ys|
  {
    if |ys| > 0 {
      var zs := xs + ys;
      assert zs[..|zs| - 1] == xs + ys[..|ys| - 1];
      FlattenAppend(xs, ys[..|ys| - 1]);
    } else {
      assert xs + ys == xs;
    }
  }

  /** Splitting the list of markups anywhere splits a column's contents
      there. */
  lemma FlattenSplit(markups: seq<Markup>, k: nat)
    requires k <= |markups|
    ensures Flatten(markups) == Flatten(markups[..k]) + Flatten(markups[k..])
  {
    assert markups == markups[..k] + markups[k..];
    FlattenAppend(markups[..k], markups[k..]);
  }

  /** The column of `[a, b]` holds exactly the contents of `a + b`. */
  lemma ColumnOfTwo(a: Markup, b: Markup)
    requires Valid(a)
    ensures Flatten([a, b]) == Add(a, OperandMarkup(b)).value.contents
  {
    assert [a, b][..1] == [a];
    assert [a][..0] == [];
    assert Flatten([a]) == a.contents;
    assert Flatten([a, b]) == Flatten([a]) + b.contents;
  }

  /** Every item parsed as a command argument, or the first error. */
  function ParseAll(items: seq<Item>): (r: Result<seq<Argument>>)
    ensures r.Err? <==> exists i :: 0 <= i < |items| && items[i].ItemOther?
    ensures r.Err? ==> r.error == TypeError
    ensures r.Ok? ==> |r.value| == |items| && forall i :: 0 <= i < |items| ==> Ok(r.value[i]) == ParseArgument(items[i])
  {
    if |items| == 0 then Ok([])
    else
      var front := items[..|items| - 1];
      assert forall i :: 0 <= i < |front| ==> front[i] == items[i];
      match ParseAll(front)
      case Err(e) => Err(e)
      case Ok(args) =>
        match ParseArgument(items[|items| - 1])
        case Err(e) => Err(e)
        case Ok(a) => Ok(args + [a])
  }

  /** The loop of `concat`, `overlay` and the `*-column` commands: each
      item parsed as a command argument, appended in order. */
  method ParseEach(items: seq<Item>) returns (r: Result<seq<Argument>>)
    ensures r == ParseAll(items)
  {
    var args: seq<Argument> := [];
    for i := 0 to |items|
      invariant ParseAll(items[..i]) == Ok(args)
    {
      assert items[..i + 1][..i] == items[..i];
      var a := ParseArgument(items[i]);
      if a.Err? {
        PrefixError(items, i + 1);
        return Err(a.error);
      }
      args := args + [a.value];
    }
    assert items[..|items|] == items;
    r := Ok(args);
  }

  /** An error in a prefix is the error of the whole. */
  lemma {:induction false} PrefixError(items: seq<Item>, k: nat)
    requires k <= |items|
    requires ParseAll(items[..k]).Err?
    ensures ParseAll(items) == Err(TypeError)
    decreases |items| - k
  {
    if k < |items| {
      assert items[..k + 1][..k] == items[..k];
      PrefixError(items, k + 1);
    } else {
      assert items[..k] == items;
    }
  }

  /** `concat`, `overlay`, `center_column`, `left_column` and
      `right_column`: one command holding the parsed items as a list. */
  method ParsedListCommand(name: string, items: seq<Item>, direction: Option<Direction>) returns (r: Result<Markup>)
    ensures r.Err? <==> ParseAll(items).Err?
    ensures r.Err? ==> r.error == TypeError
    ensures r.Ok? ==> r.value == ListCommandMarkup(name, ArgumentList(ParseAll(items).value), direction)
  {
    var args := ParseEach(items);
    if args.Err? {
      return Err(args.error);
    }
    r := Ok(New(ContentsCommand(MarkupCommand(name, [ArgumentList(args.value)])), direction, 0));
  }

  /** `combine`: exactly two items, each parsed, as the two arguments of
      one command; another length raises `Exception`. */
  function Combine(items: seq<Item>, direction: Option<Direction>): (r: Result<Markup>)
    ensures |items| != 2 ==> r == Err(PlainException)
    ensures |items| == 2 && (items[0].ItemOther? || items[1].ItemOther?) ==> r == Err(TypeError)
    ensures r.Ok? ==> |items| == 2 && r.value.direction == direction && |r.value.contents| == 1
  {
    if |items| != 2 then Err(PlainException)
    else
      match ParseArgument(items[0])
      case Err(e) => Err(e)
      case Ok(first) =>
        match ParseArgument(items[1])
        case Err(e) => Err(e)
        case Ok(second) => Ok(New(ContentsCommand(MarkupCommand("combine", [first, second])), direction, 0))
  }

  /** Two markups combine into one command whose two arguments read back
      as their contents. */
  lemma CombineRoundTrip(a: Markup, b: Markup, direction: Option<Direction>)
    requires Valid(a) && Valid(b)
    ensures Combine([ItemMarkup(a), ItemMarkup(b)], direction).Ok?
    ensures var args := Combine([ItemMarkup(a), ItemMarkup(b)], direction).value.contents[0].command.args;
      |args| == 2 && ArgumentContents(args[0]) == a.contents && ArgumentContents(args[1]) == b.contents
  {
    ParseArgumentRoundTrip(a);
    ParseArgumentRoundTrip(b);
  }

  // ----------------------------------------------------------------------
  // Improper fractions

  /** Python's `int()` of a fraction `n/d`: truncation toward zero. */
  function TruncDiv(n: int, d: int): (q: int)
    requires d >= 1
    ensures Abs(n - q * d) < d
    ensures n >= 0 ==> 0 <= n - q * d
    ensures n < 0 ==> n - q * d <= 0
  {
    if n >= 0 then n / d else -((-n) / d)
  }

  /** `make_improper_fraction_markup` on the fraction `n/d` (in lowest
      terms, as Python's `Fraction` keeps it): an integer value gives one
      markup of its digits; otherwise the integer part followed by the
      fractional part as a tiny `\fraction`. */
  function ImproperFraction(n: int, d: int, direction: Option<Direction>): (r: Markup)
    requires Reduced(n, d)
    ensures r.direction == direction
  {
    var rational := New(ContentsOther(IntToString(n)), direction, 0);
    if d == 1 then rational
    else
      var integerPart := TruncDiv(n, d);
      var integerMarkup := New(ContentsOther(IntToString(integerPart)), direction, 0);
      var fractionMarkup := New(ContentsCommand(MarkupCommand("fraction",
        [Single(TextContent(IntToString(n - integerPart * d))), Single(TextContent(IntToString(d)))])), None, 0);
      Add(integerMarkup, OperandMarkup(Wrap(fractionMarkup, "tiny", []))).value
  }

  /** The tiny fraction that follows the integer part. */
  function TinyFraction(numerator: int, denominator: int): Content
  {
    CommandContent(MarkupCommand("tiny", [Single(CommandContent(MarkupCommand("fraction",
      [Single(TextContent(IntToString(numerator))), Single(TextContent(IntToString(denominator)))])))]))
  }

  /** A non-integer fraction prints as its integer part `q` and a proper
      fraction `p/d` in lowest terms with `q + p/d == n/d`, `p` non-zero,
      smaller than `d` in size and of the sign of `n`; an integer prints as
      itself alone. */
  lemma ImproperFractionParts(n: int, d: int, direction: Option<Direction>)
    requires Reduced(n, d)
    ensures d == 1 ==> ImproperFraction(n, d, direction).contents == [TextContent(IntToString(n))]
    ensures d > 1 ==> exists q, p ::
      && ImproperFraction(n, d, direction).contents == [TextContent(IntToString(q)), TinyFraction(p, d)]
      && q * d + p == n && 0 < Abs(p) < d && (n < 0 <==> p < 0) && Reduced(p, d)
  {
    if d > 1 {
      var q := TruncDiv(n, d);
      var p := n - q * d;
      FractionPartReduced(n, d, q);
      assert ImproperFraction(n, d, direction).contents == [TextContent(IntToString(q)), TinyFraction(p, d)];
    }
  }

  /** The remainder left by truncation has the size of `|n| mod d`. */
  lemma TruncRemainder(n: int, d: int)
    requires d >= 1
    ensures Abs(n - TruncDiv(n, d) * d) == Abs(n) % d
  {
    if n >= 0 {
      assert n == (n / d) * d + n % d;
    } else {
      var m := -n;
      assert m == (m / d) * d + m % d;
      assert n - TruncDiv(n, d) * d == -(m - (m / d) * d);
    }
  }

  /** One step of Euclid's algorithm. */
  lemma GcdStep(a: nat, d: nat)
    requires d >= 1
    ensures Gcd(a, d) == Gcd(d, a % d)
  {
  }

  lemma SmallRemainder(r: nat, d: nat)
    requires d >= 1 && r < d
    ensures r % d == r
  {
  }

  /** Subtracting the truncated integer part keeps the fraction in lowest
      terms, and leaves a non-zero remainder when `d > 1`. */
  lemma FractionPartReduced(n: int, d: int, q: int)
    requires Reduced(n, d) && d > 1 && q == TruncDiv(n, d)
    ensures Reduced(n - q * d, d)
    ensures n - q * d != 0
  {
    var r := Abs(n - q * d);
    TruncRemainder(n, d);
    GcdStep(Abs(n), d);
    GcdStep(r, d);
    SmallRemainder(r, d);
    assert Gcd(d, 0) == d;
  }

  /** `7/3` gives `2` and a tiny `1/3`; `-7/3` gives `-2` and `-1/3`;
      `4/1` gives `4`. */
  lemma ImproperFractionExample()
    ensures ImproperFraction(7, 3, Some(Up)).contents == [TextContent("2"), TinyFraction(1, 3)]
    ensures ImproperFraction(-7, 3, None).contents == [TextContent("-2"), TinyFraction(-1, 3)]
    ensures ImproperFraction(4, 1, None).contents == [TextContent("4")]
  {
    assert Gcd(7, 3) == 1 && Gcd(4, 1) == 1;
    assert IntToString(2) == "2" && IntToString(-2) == "-2" && IntToString(4) == "4";
  }
}
