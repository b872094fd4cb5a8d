/** A LilyPond input file: comments, includes, the date-time, version and
    language tokens, the paper and staff size settings and a list of
    items (usually the header, layout, paper and score blocks), with the
    block accessors, lookup by name or class, and the assembly of the
    file's text piece by piece. */
module LilyPondFile {
  import opened Common

  /** A block of the file (`\header`, `\layout`, `\paper`, `\score`): its
      name and the music appended to it. */
  class Block {
    const name: string
    var items: seq<Music>

    constructor(name: string)
      ensures this.name == name && items == []
    {
      this.name := name;
      items := [];
    }

    /** `block.items.append(music)`. */
    method Append(music: Music)
      modifies this`items
      ensures items == old(items) + [music]
    {
      items := items + [music];
    }
  }

  /** A context inside a score, as lookup sees it: its name and the
      classes it is an instance of. */
  datatype Context = Context(name: Option<string>, classes: set<string>)

  /** A piece of music (usually a score): its name, its classes, and the
      contexts inside it in iteration order. */
  datatype Music = Music(name: Option<string>, classes: set<string>, contexts: seq<Context>)

  /** An item of the file. `OtherItem` is any other object: its `name`
      attribute if it has one, its classes, and whether it has a LilyPond
      format (otherwise its `str` is used). */
  datatype FileItem =
    | BlockItem(block: Block)
    | MusicItem(music: Music)
    | TextItem(s: string)
    | OtherItem(name: Option<string>, classes: set<string>, formattable: bool)

  const BlockClass := "Block"
  const StrClass := "str"

  /** `getattr(item, 'name', None)`. */
  function ItemName(item: FileItem): Option<string>
  {
    match item
    case BlockItem(b) => Some(b.name)
    case MusicItem(m) => m.name
    case TextItem(_) => None
    case OtherItem(name, _, _) => name
  }

  /** `isinstance(item, klass)`. */
  predicate IsInstance(item: FileItem, klass: string)
  {
    match item
    case BlockItem(_) => klass == BlockClass
    case MusicItem(m) => klass in m.classes
    case TextItem(_) => klass == StrClass
    case OtherItem(_, classes, _) => klass in classes
  }

  /** A comment: a string, an object with a LilyPond format (held as that
      format), or any other object (held as its `str`). */
  datatype Comment = StrComment(s: string) | FormattableComment(format: string) | OtherComment(display: string)

  /** An include: a path, or an object held as its format. */
  datatype Include = PathInclude(path: string) | FormattedInclude(format: string)

  /** The `date_time_token`, `lilypond_language_token` and
      `lilypond_version_token` arguments: a token is made unless the
      argument is `False` itself. */
  predicate MakesToken(arg: PyValue)
  {
    arg != PyBool(false)
  }

  /** What the tokens print, supplied from outside: the clock, the
      installed LilyPond version and the language. */
  datatype Environment = Environment(dateTime: string, version: string, language: string)

  /** The lookup key of `lilypond_file[...]`: a name or a class. */
  datatype Key = KeyName(name: string) | KeyClass(klass: string)

  /** What a lookup finds: an item, the score, or a context in it. */
  datatype Found = FoundItem(item: FileItem) | FoundScore(score: Music) | FoundContext(context: Context)

  /** The first block of the items with the given name. */
  function FirstBlockNamed(items: seq<FileItem>, name: string): (r: Option<Block>)
    ensures r.None? <==> forall i :: 0 <= i < |items| ==> !(items[i].BlockItem? && items[i].block.name == name)
    ensures r.Some? ==> exists i :: 0 <= i < |items| && items[i] == BlockItem(r.value) && FirstNamedAt(items, name, i)
  {
    if |items| == 0 then None
    else if items[0].BlockItem? && items[0].block.name == name then
      assert FirstNamedAt(items, name, 0);
      Some(items[0].block)
    else
      var r := FirstBlockNamed(items[1..], name);
      if r.Some? then
        var i :| 0 <= i < |items[1..]| && items[1..][i] == BlockItem(r.value) && FirstNamedAt(items[1..], name, i);
        assert FirstNamedAt(items, name, i + 1);
        r
      else r
  }

  /** `items[i]` is the first block with the given name. */
  predicate FirstNamedAt(items: seq<FileItem>, name: string, i: nat)
    requires i < |items|
  {
    items[i].BlockItem? && items[i].block.name == name
    && forall j :: 0 <= j < i ==> !(items[j].BlockItem? && items[j].block.name == name)
  }

  /** `items[i]` is the first item that matches the key. */
  predicate FirstItemAt(items: seq<FileItem>, key: Key, i: nat)
    requires i < |items|
  {
    ItemMatches(items[i], key) && forall j :: 0 <= j < i ==> !ItemMatches(items[j], key)
  }

  /** `contexts[i]` is the first context that matches the key. */
  predicate FirstContextAt(contexts: seq<Context>, key: Key, i: nat)
    requires i < |contexts|
  {
    ContextMatches(contexts[i], key) && forall j :: 0 <= j < i ==> !ContextMatches(contexts[j], key)
  }

  /** The first item whose `name` attribute equals the key. */
  function FirstItemNamed(items: seq<FileItem>, name: string): (r: Option<FileItem>)
    ensures r.None? <==> forall i :: 0 <= i < |items| ==> ItemName(items[i]) != Some(name)
    ensures r.Some? ==> exists i :: 0 <= i < |items| && items[i] == r.value && FirstItemAt(items, KeyName(name), i)
  {
    if |items| == 0 then None
    else if ItemName(items[0]) == Some(name) then
      assert FirstItemAt(items, KeyName(name), 0);
      Some(items[0])
    else
      var r := FirstItemNamed(items[1..], name);
      if r.Some? then
        var i :| 0 <= i < |items[1..]| && items[1..][i] == r.value && FirstItemAt(items[1..], KeyName(name), i);
        assert FirstItemAt(items, KeyName(name), i + 1);
        r
      else r
  }

  /** The first item that is an instance of the class. */
  function FirstItemOfClass(items: seq<FileItem>, klass: string): (r: Option<FileItem>)
    ensures r.None? <==> forall i :: 0 <= i < |items| ==> !IsInstance(items[i], klass)
    ensures r.Some? ==> exists i :: 0 <= i < |items| && items[i] == r.value && FirstItemAt(items, KeyClass(klass), i)
  {
    if |items| == 0 then None
    else if IsInstance(items[0], klass) then
      assert FirstItemAt(items, KeyClass(klass), 0);
      Some(items[0])
    else
      var r := FirstItemOfClass(items[1..], klass);
      if r.Some? then
        var i :| 0 <= i < |items[1..]| && items[1..][i] == r.value && FirstItemAt(items[1..], KeyClass(klass), i);
        assert FirstItemAt(items, KeyClass(klass), i + 1);
        r
      else r
  }

  /** The first context of the score that satisfies the key. */
  function FirstContext(contexts: seq<Context>, key: Key): (r: Option<Context>)
    ensures r.None? <==> forall i :: 0 <= i < |contexts| ==> !ContextMatches(contexts[i], key)
    ensures r.Some? ==> exists i :: 0 <= i < |contexts| && contexts[i] == r.value && FirstContextAt(contexts, key, i)
  {
    if |contexts| == 0 then None
    else if ContextMatches(contexts[0], key) then
      assert FirstContextAt(contexts, key, 0);
      Some(contexts[0])
    else
      var r := FirstContext(contexts[1..], key);
      if r.Some? then
        var i :| 0 <= i < |contexts[1..]| && contexts[1..][i] == r.value && FirstContextAt(contexts[1..], key, i);
        assert FirstContextAt(contexts, key, i + 1);
        r
      else r
  }

  predicate ContextMatches(c: Context, key: Key)
  {
    match key
    case KeyName(name) => c.name == Some(name)
    case KeyClass(klass) => klass in c.classes
  }

  predicate MusicMatches(m: Music, key: Key)
  {
    match key
    case KeyName(name) => m.name == Some(name)
    case KeyClass(klass) => klass in m.classes
  }

  predicate ItemMatches(item: FileItem, key: Key)
  {
    match key
    case KeyName(name) => ItemName(item) == Some(name)
    case KeyClass(klass) => IsInstance(item, klass)
  }

  class LilyPondFile {
    const comments: seq<Comment>
    const dateTimeToken: Option<string>
    const defaultPaperSize: Option<(string, string)>
    const globalStaffSize: Option<int>
    const includes: seq<Include>
    var items: seq<FileItem>
    const lilypondLanguageToken: Option<string>
    const lilypondVersionToken: Option<string>
    const useRelativeIncludes: bool

    /** `__init__`: absent comments and includes are empty, absent items
        an empty list, and each token is made unless passed `False`. */
    constructor(comments: seq<Comment>, dateTimeToken: PyValue, defaultPaperSize: Option<(string, string)>,
                globalStaffSize: Option<int>, includes: seq<Include>, items: seq<FileItem>,
                lilypondLanguageToken: PyValue, lilypondVersionToken: PyValue, useRelativeIncludes: bool,
                environment: Environment)
      ensures this.comments == comments && this.includes == includes && this.items == items
      ensures this.dateTimeToken == (if MakesToken(dateTimeToken) then Some(environment.dateTime) else None)
      ensures this.lilypondLanguageToken == (if MakesToken(lilypondLanguageToken) then Some(environment.language) else None)
      ensures this.lilypondVersionToken == (if MakesToken(lilypondVersionToken) then Some(environment.version) else None)
      ensures this.defaultPaperSize == defaultPaperSize && this.globalStaffSize == globalStaffSize
      ensures this.useRelativeIncludes == useRelativeIncludes
    {
      this.comments := comments;
      this.dateTimeToken := if MakesToken(dateTimeToken) then Some(environment.dateTime) else None;
      this.defaultPaperSize := defaultPaperSize;
      this.globalStaffSize := globalStaffSize;
      this.includes := includes;
      this.items := items;
      this.lilypondLanguageToken := if MakesToken(lilypondLanguageToken) then Some(environment.language) else None;
      this.lilypondVersionToken := if MakesToken(lilypondVersionToken) then Some(environment.version) else None;
      this.useRelativeIncludes := useRelativeIncludes;
    }

    /** `header_block`. */
    function HeaderBlock(): (r: Option<Block>)
      reads this
      ensures r == FirstBlockNamed(items, "header")
    {
      FirstBlockNamed(items, "header")
    }

    /** `layout_block`. */
    function LayoutBlock(): (r: Option<Block>)
      reads this
      ensures r == FirstBlockNamed(items, "layout")
    {
      FirstBlockNamed(items, "layout")
    }

    /** `paper_block`. */
    function PaperBlock(): (r: Option<Block>)
      reads this
      ensures r == FirstBlockNamed(items, "paper")
    {
      FirstBlockNamed(items, "paper")
    }

    /** `score_block`. */
    function ScoreBlock(): (r: Option<Block>)
      reads this
      ensures r == FirstBlockNamed(items, "score")
    {
      FirstBlockNamed(items, "score")
    }

    /** The score: the first music of the score block, if any. */
    function Score(): (r: Option<Music>)
      reads this, if ScoreBlock().Some? then {ScoreBlock().value} else {}
    {
      var b := ScoreBlock();
      if b.Some? && |b.value.items| > 0 then Some(b.value.items[0]) else None
    }

    /** `__getitem__`: the first item that matches the key, else the score
        if it matches, else the first matching context inside it; raises
        `KeyError` when nothing matches. */
    function GetItem(key: Key): (r: Result<Found>)
      reads this, if ScoreBlock().Some? then {ScoreBlock().value} else {}
      ensures r.Err? ==> r.error == KeyError
      ensures r.Err? <==>
        (forall i :: 0 <= i < |items| ==> !ItemMatches(items[i], key))
        && (Score().None? || (!MusicMatches(Score().value, key)
            && forall i :: 0 <= i < |Score().value.contexts| ==> !ContextMatches(Score().value.contexts[i], key)))
      ensures (exists i :: 0 <= i < |items| && ItemMatches(items[i], key)) ==> r.Ok? && r.value.FoundItem?
      ensures r.Ok? && r.value.FoundItem? ==>
        exists i :: 0 <= i < |items| && items[i] == r.value.item && FirstItemAt(items, key, i)
      ensures r.Ok? && !r.value.FoundItem? ==> forall i :: 0 <= i < |items| ==> !ItemMatches(items[i], key)
      ensures r.Ok? && r.value.FoundScore? ==> Score() == Some(r.value.score) && MusicMatches(r.value.score, key)
      ensures r.Ok? && r.value.FoundContext? ==>
        Score().Some? && !MusicMatches(Score().value, key)
        && (exists i :: 0 <= i < |Score().value.contexts| && Score().value.contexts[i] == r.value.context
              && FirstContextAt(Score().value.contexts, key, i))
    {
      var found := match key
        case KeyName(name) => FirstItemNamed(items, name)
        case KeyClass(klass) => FirstItemOfClass(items, klass);
      if found.Some? then Ok(FoundItem(found.value))
      else
        var score := Score();
        if score.None? then Err(KeyError)
        else if MusicMatches(score.value, key) then Ok(FoundScore(score.value))
        else
          var context := FirstContext(score.value.contexts, key);
          if context.Some? then Ok(FoundContext(context.value)) else Err(KeyError)
    }

    // --------------------------------------------------------------------
    // Format

    /** `_get_formatted_comments`. */
    method FormattedComments() returns (result: seq<string>)
      ensures result == CommentsPiece(comments)
    {
      var lines: seq<string> := [];
      for i := 0 to |comments|
        invariant lines == CommentLines(comments[..i])
      {
        assert comments[..i + 1][..i] == comments[..i];
        match comments[i]
        case StrComment(s) =>
          lines := lines + ["% " + s];
        case FormattableComment(format) =>
          if format != "" {
            lines := lines + ["% " + format];
          }
        case OtherComment(display) =>
          lines := lines + ["% " + display];
      }
      assert comments[..|comments|] == comments;
      result := if |lines| > 0 then [Join(lines, "\n")] else [];
    }

    /** `_get_formatted_includes`. */
    method FormattedIncludes() returns (result: seq<string>)
      ensures result == IncludesPiece(includes)
    {
      var lines: seq<string> := [];
      for i := 0 to |includes|
        invariant lines == IncludeLines(includes[..i])
      {
        assert includes[..i + 1][..i] == includes[..i];
        match includes[i]
        case PathInclude(path) =>
          lines := lines + ["\\include \"" + path + "\""];
        case FormattedInclude(format) =>
          lines := lines + [format];
      }
      assert includes[..|includes|] == includes;
      result := if |lines| > 0 then [Join(lines, "\n")] else [];
    }

    /** `_get_formatted_scheme_settings`. */
    method FormattedSchemeSettings() returns (result: seq<string>)
      ensures result == SchemePiece(defaultPaperSize, globalStaffSize)
    {
      var lines: seq<string> := [];
      if defaultPaperSize.Some? {
        var (dimension, orientation) := defaultPaperSize.value;
        lines := lines + [PaperSizeLine(dimension, orientation)];
      }
      if globalStaffSize.Some? {
        lines := lines + [StaffSizeLine(globalStaffSize.value)];
      }
      assert lines == (if defaultPaperSize.Some? then [PaperSizeLine(defaultPaperSize.value.0, defaultPaperSize.value.1)] else [])
        + (if globalStaffSize.Some? then [StaffSizeLine(globalStaffSize.value)] else []);
      result := OnePiece(lines);
    }

    /** `_get_formatted_blocks`: each item's format (given as `formats`,
        one per item: the LilyPond format, or the `str` of an object that
        has none) when it is non-empty, and a string item or an object
        without a LilyPond format as its `str`. */
    method FormattedBlocks(formats: seq<string>) returns (result: seq<string>)
      requires |formats| == |items|
      ensures result == BlockLines(items, formats)
    {
      result := [];
      for i := 0 to |items|
        invariant result == BlockLines(items[..i], formats[..i])
      {
        assert items[..i + 1][..i] == items[..i] && formats[..i + 1][..i] == formats[..i];
        if items[i].TextItem? {
          result := result + [items[i].s];
        } else if items[i].OtherItem? && !items[i].formattable {
          result := result + [formats[i]];
        } else if formats[i] != "" {
          result := result + [formats[i]];
        }
      }
      assert items[..|items|] == items && formats[..|formats|] == formats;
    }

    /** `_get_format_pieces`: the date-time comment, the comments, the
        version and language tokens, the relative-include option, the
        includes, the Scheme settings and the blocks, in that order, each
        only when there is something to print. */
    method FormatPieces(formats: seq<string>) returns (result: seq<string>)
      requires |formats| == |items|
      ensures result == Pieces(formats)
    {
      var datePieces: seq<string> := [];
      if dateTimeToken.Some? {
        datePieces := ["% " + dateTimeToken.value];
      }
      var commentPieces := FormattedComments();
      var tokenPieces := FormattedTokens();
      var relativePieces: seq<string> := [];
      if useRelativeIncludes {
        relativePieces := [RelativeIncludesLine];
      }
      var includePieces := FormattedIncludes();
      var schemePieces := FormattedSchemeSettings();
      var blockPieces := FormattedBlocks(formats);
      result := datePieces + commentPieces + tokenPieces + relativePieces + includePieces + schemePieces + blockPieces;
    }

    /** The version and language tokens, joined by a newline. */
    method FormattedTokens() returns (result: seq<string>)
      ensures result == TokensPiece(lilypondVersionToken, lilypondLanguageToken)
    {
      var tokens: seq<string> := [];
      if lilypondVersionToken.Some? {
        tokens := tokens + [lilypondVersionToken.value];
      }
      if lilypondLanguageToken.Some? {
        tokens := tokens + [lilypondLanguageToken.value];
      }
      assert tokens == (if lilypondVersionToken.Some? then [lilypondVersionToken.value] else [])
        + (if lilypondLanguageToken.Some? then [lilypondLanguageToken.value] else []);
      var joined := Join(tokens, "\n");
      result := if joined != "" then [joined] else [];
    }

    /** The pieces of the file, in order. */
    function Pieces(formats: seq<string>): seq<string>
      reads this
      requires |formats| == |items|
    {
      (if dateTimeToken.Some? then ["% " + dateTimeToken.value] else [])
      + CommentsPiece(comments)
      + TokensPiece(lilypondVersionToken, lilypondLanguageToken)
      + (if useRelativeIncludes then [RelativeIncludesLine] else [])
      + IncludesPiece(includes)
      + SchemePiece(defaultPaperSize, globalStaffSize)
      + BlockLines(items, formats)
    }

    /** `_get_lilypond_format`: the pieces separated by blank lines. */
    function LilyPondFormat(formats: seq<string>): string
      reads this
      requires |formats| == |items|
    {
      Join(Pieces(formats), "\n\n")
    }
  }

  const RelativeIncludesLine := "#(ly:set-option 'relative-includes #t)"

  function PaperSizeLine(dimension: string, orientation: string): string
  {
    "#(set-default-paper-size \"" + dimension + "\" '" + orientation + ")"
  }

  function StaffSizeLine(size: int): string
  {
    "#(set-global-staff-size " + IntToString(size) + ")"
  }

  /** The comment lines: `% ` before each, a formattable one only when its
      format is not empty. */
  function CommentLines(cs: seq<Comment>): seq<string>
  {
    if |cs| == 0 then []
    else
      var last := cs[|cs| - 1];
      CommentLines(cs[..|cs| - 1])
      + match last
        case StrComment(s) => ["% " + s]
        case FormattableComment(format) => if format != "" then ["% " + format] else []
        case OtherComment(display) => ["% " + display]
  }

  /** A list of lines becomes one piece, and no lines no piece. */
  function OnePiece(lines: seq<string>): (r: seq<string>)
    ensures |r| <= 1 && (r == [] <==> lines == [])
  {
    if |lines| > 0 then [Join(lines, "\n")] else []
  }

  function CommentsPiece(cs: seq<Comment>): seq<string>
  {
    OnePiece(CommentLines(cs))
  }

  function IncludeLines(incs: seq<Include>): (r: seq<string>)
    ensures |r| == |incs|
  {
    if |incs| == 0 then []
    else
      var last := incs[|incs| - 1];
      IncludeLines(incs[..|incs| - 1])
      + match last
        case PathInclude(path) => ["\\include \"" + path + "\""]
        case FormattedInclude(format) => [format]
  }

  function IncludesPiece(incs: seq<Include>): seq<string>
  {
    OnePiece(IncludeLines(incs))
  }

  function SchemePiece(paperSize: Option<(string, string)>, staffSize: Option<int>): seq<string>
  {
    OnePiece((if paperSize.Some? then [PaperSizeLine(paperSize.value.0, paperSize.value.1)] else [])
      + (if staffSize.Some? then [StaffSizeLine(staffSize.value)] else []))
  }

  /** The version and language tokens joined into one piece, when the
      result is not empty. */
  function TokensPiece(version: Option<string>, language: Option<string>): seq<string>
  {
    var joined := Join((if version.Some? then [version.value] else []) + (if language.Some? then [language.value] else []), "\n");
    if joined != "" then [joined] else []
  }

  /** The pieces of `_get_formatted_blocks`: `formats[i]` is the LilyPond
      format of item `i` when it has one, and its `str` otherwise. A
      formatted item contributes only a non-empty format; a string, or an
      object without a LilyPond format, contributes its `str`, even an empty
      one. */
  function BlockLines(items: seq<FileItem>, formats: seq<string>): seq<string>
    requires |formats| == |items|
  {
    if |items| == 0 then []
    else
      var n := |items| - 1;
      BlockLines(items[..n], formats[..n])
      + (if items[n].TextItem? then [items[n].s]
         else if items[n].OtherItem? && !items[n].formattable then [formats[n]]
         else if formats[n] != "" then [formats[n]] else [])
  }

  // ----------------------------------------------------------------------
  // new

  /** The `music` argument of `new`: nothing, an existing file, or
      music. */
  datatype MusicArg = NoMusic | FileArg(file: LilyPondFile) | MusicValue(music: Music)

  /** `new`: an existing file is returned as it is; otherwise a file with
      header, layout, paper and score blocks in that order, the music (if
      any) appended to the score block. */
  method New(music: MusicArg, dateTimeToken: PyValue, defaultPaperSize: Option<(string, string)>,
             comments: seq<Comment>, includes: seq<Include>, globalStaffSize: Option<int>,
             lilypondLanguageToken: PyValue, lilypondVersionToken: PyValue, useRelativeIncludes: bool,
             environment: Environment)
    returns (r: LilyPondFile)
    ensures music.FileArg? ==> r == music.file
    ensures !music.FileArg? ==> fresh(r) && NewLayout(r)
    ensures !music.FileArg? ==> r.ScoreBlock().value.items == (if music.MusicValue? then [music.music] else [])
    ensures !music.FileArg? ==> (
      && r.comments == comments && r.includes == includes
      && r.defaultPaperSize == defaultPaperSize && r.globalStaffSize == globalStaffSize
      && r.useRelativeIncludes == useRelativeIncludes
      && r.dateTimeToken == (if MakesToken(dateTimeToken) then Some(environment.dateTime) else None)
      && r.lilypondLanguageToken == (if MakesToken(lilypondLanguageToken) then Some(environment.language) else None)
      && r.lilypondVersionToken == (if MakesToken(lilypondVersionToken) then Some(environment.version) else None))
  {
    if music.FileArg? {
      return music.file;
    }
    r := MakeBlocks(dateTimeToken, defaultPaperSize, comments, includes, globalStaffSize,
      lilypondLanguageToken, lilypondVersionToken, useRelativeIncludes, environment);
    if music.MusicValue? {
      var b := r.ScoreBlock().value;
      b.Append(music.music);
    }
  }

  /** The file `new` builds before any music is appended: four fresh,
      empty blocks. */
  method MakeBlocks(dateTimeToken: PyValue, defaultPaperSize: Option<(string, string)>,
                    comments: seq<Comment>, includes: seq<Include>, globalStaffSize: Option<int>,
                    lilypondLanguageToken: PyValue, lilypondVersionToken: PyValue, useRelativeIncludes: bool,
                    environment: Environment)
    returns (r: LilyPondFile)
    ensures fresh(r) && NewLayout(r) && fresh(r.ScoreBlock().value) && r.ScoreBlock().value.items == []
    ensures r.comments == comments && r.includes == includes
    ensures r.defaultPaperSize == defaultPaperSize && r.globalStaffSize == globalStaffSize
    ensures r.useRelativeIncludes == useRelativeIncludes
    ensures r.dateTimeToken == (if MakesToken(dateTimeToken) then Some(environment.dateTime) else None)
    ensures r.lilypondLanguageToken == (if MakesToken(lilypondLanguageToken) then Some(environment.language) else None)
    ensures r.lilypondVersionToken == (if MakesToken(lilypondVersionToken) then Some(environment.version) else None)
  {
    var header := new Block("header");
    var layout := new Block("layout");
    var paper := new Block("paper");
    var score := new Block("score");
    r := new LilyPondFile(comments, dateTimeToken, defaultPaperSize, globalStaffSize, includes,
      [BlockItem(header), BlockItem(layout), BlockItem(paper), BlockItem(score)],
      lilypondLanguageToken, lilypondVersionToken, useRelativeIncludes, environment);
    LaidOut(r, header, layout, paper, score);
  }

  lemma LaidOut(f: LilyPondFile, header: Block, layout: Block, paper: Block, score: Block)
    requires header.name == "header" && layout.name == "layout" && paper.name == "paper" && score.name == "score"
    requires f.items == [BlockItem(header), BlockItem(layout), BlockItem(paper), BlockItem(score)]
    ensures NewLayout(f) && f.ScoreBlock() == Some(score)
  {
    var items := f.items;
    FourBlocks(items, header, layout, paper, score);
    assert items[0].block == header && items[1].block == layout;
    assert items[2].block == paper && items[3].block == score;
    assert f.HeaderBlock() == Some(header) && f.LayoutBlock() == Some(layout);
    assert f.PaperBlock() == Some(paper) && f.ScoreBlock() == Some(score);
  }

  /** Each accessor finds the first block with its name. */
  lemma {:induction false} FirstBlockNamedAt(items: seq<FileItem>, name: string, i: nat)
    requires i < |items| && FirstNamedAt(items, name, i)
    ensures FirstBlockNamed(items, name) == Some(items[i].block)
  {
    if i > 0 {
      assert FirstNamedAt(items[1..], name, i - 1);
      FirstBlockNamedAt(items[1..], name, i - 1);
    }
  }

  lemma FourBlocks(items: seq<FileItem>, header: Block, layout: Block, paper: Block, score: Block)
    requires header.name == "header" && layout.name == "layout" && paper.name == "paper" && score.name == "score"
    requires items == [BlockItem(header), BlockItem(layout), BlockItem(paper), BlockItem(score)]
    ensures FirstBlockNamed(items, "header") == Some(header)
    ensures FirstBlockNamed(items, "layout") == Some(layout)
    ensures FirstBlockNamed(items, "paper") == Some(paper)
    ensures FirstBlockNamed(items, "score") == Some(score)
  {
    assert FirstNamedAt(items, "header", 0);
    FirstBlockNamedAt(items, "header", 0);
    assert FirstNamedAt(items, "layout", 1);
    FirstBlockNamedAt(items, "layout", 1);
    assert FirstNamedAt(items, "paper", 2);
    FirstBlockNamedAt(items, "paper", 2);
    assert FirstNamedAt(items, "score", 3);
    FirstBlockNamedAt(items, "score", 3);
  }

  /** The four blocks of a new file, in order, each found by its
      accessor. */
  ghost predicate NewLayout(f: LilyPondFile)
    reads f
  {
    && |f.items| == 4
    && (forall i :: 0 <= i < 4 ==> f.items[i].BlockItem?)
    && f.items[0].block.name == "header" && f.items[1].block.name == "layout"
    && f.items[2].block.name == "paper" && f.items[3].block.name == "score"
    && f.HeaderBlock() == Some(f.items[0].block) && f.LayoutBlock() == Some(f.items[1].block)
    && f.PaperBlock() == Some(f.items[2].block) && f.ScoreBlock() == Some(f.items[3].block)
  }

  // ----------------------------------------------------------------------
  // Properties

  /** The number of times a character occurs in a string. */
  function Occurrences(s: string, c: char): nat
  {
    if |s| == 0 then 0 else Occurrences(s[..|s| - 1], c) + (if s[|s| - 1] == c then 1 else 0)
  }

  lemma {:induction false} OccurrencesAppend(a: string, b: string, c: char)
    ensures Occurrences(a + b, c) == Occurrences(a, c) + Occurrences(b, c)
    decreases |b|
  {
    if |b| > 0 {
      var ab := a + b;
      assert ab[..|ab| - 1] == a + b[..|b| - 1];
      OccurrencesAppend(a, b[..|b| - 1], c);
    } else {
      assert a + b == a;
    }
  }

  /** Lines joined into one piece stay apart: when no line holds a
      newline, the piece holds exactly one newline between each two lines,
      so it splits back into as many lines. */
  lemma {:induction false} JoinedLines(lines: seq<string>)
    requires |lines| > 0
    requires forall i :: 0 <= i < |lines| ==> Occurrences(lines[i], '\n') == 0
    ensures Occurrences(Join(lines, "\n"), '\n') == |lines| - 1
  {
    if |lines| > 1 {
      var front := lines[..|lines| - 1];
      JoinedLines(front);
      OccurrencesAppend(Join(front, "\n"), "\n", '\n');
      OccurrencesAppend(Join(front, "\n") + "\n", lines[|lines| - 1], '\n');
      assert Occurrences("\n", '\n') == 1 by {
        assert "\n"[..0] == "";
      }
    }
  }

  /** Includes make one piece of one line each, and no includes no
      piece. */
  lemma IncludesPieceShape(incs: seq<Include>)
    ensures IncludesPiece(incs) == [] <==> incs == []
    ensures incs != [] ==> IncludesPiece(incs) == [Join(IncludeLines(incs), "\n")]
    ensures |IncludeLines(incs)| == |incs|
  {
  }

  /** A single path include is one `\include` line. */
  lemma OneInclude(path: string)
    ensures IncludesPiece([PathInclude(path)]) == ["\\include \"" + path + "\""]
  {
    assert [PathInclude(path)][..0] == [];
  }

  /** The settings piece is present exactly when a paper size or a staff
      size is set, and holds both lines when both are. */
  lemma SchemePieceShape(paperSize: Option<(string, string)>, staffSize: Option<int>)
    ensures SchemePiece(paperSize, staffSize) == [] <==> paperSize.None? && staffSize.None?
    ensures paperSize.Some? && staffSize.Some? ==> (SchemePiece(paperSize, staffSize)
      == [PaperSizeLine(paperSize.value.0, paperSize.value.1) + "\n" + StaffSizeLine(staffSize.value)])
  {
    if paperSize.Some? && staffSize.Some? {
      var lines := [PaperSizeLine(paperSize.value.0, paperSize.value.1), StaffSizeLine(staffSize.value)];
      assert lines[..1] == [lines[0]];
      assert Join(lines, "\n") == lines[0] + "\n" + lines[1];
      assert ([] + [lines[0]]) + [lines[1]] == lines;
    }
  }

  /** At most one piece comes from each setting, and at most one from each
      item. */
  lemma {:induction false} BlockLinesBound(items: seq<FileItem>, formats: seq<string>)
    requires |formats| == |items|
    ensures |BlockLines(items, formats)| <= |items|
  {
    if |items| > 0 {
      BlockLinesBound(items[..|items| - 1], formats[..|items| - 1]);
    }
  }

  /** The file's text for a new file whose blocks all print: the date-time
      comment, the version and language tokens, then the four blocks. */
  lemma DefaultPieces(f: LilyPondFile, formats: seq<string>)
    requires NewLayout(f) && |formats| == 4
    requires forall i :: 0 <= i < 4 ==> formats[i] != ""
    requires f.comments == [] && f.includes == [] && !f.useRelativeIncludes
    requires f.defaultPaperSize.None? && f.globalStaffSize.None?
    requires f.dateTimeToken.Some? && f.lilypondVersionToken.Some? && f.lilypondLanguageToken.Some?
    ensures f.Pieces(formats) == ["% " + f.dateTimeToken.value,
      f.lilypondVersionToken.value + "\n" + f.lilypondLanguageToken.value] + formats
  {
    var tokens := [f.lilypondVersionToken.value, f.lilypondLanguageToken.value];
    assert tokens[..1] == [tokens[0]];
    assert CommentLines([]) == [] && IncludeLines([]) == [];
    assert Join(tokens, "\n") == tokens[0] + "\n" + tokens[1];
    BlockLinesAllPrinted(f.items, formats);
  }

  /** When no item is a string and every format is non-empty, each item
      gives its format as one piece. */
  lemma {:induction false} BlockLinesAllPrinted(items: seq<FileItem>, formats: seq<string>)
    requires |formats| == |items|
    requires forall i :: 0 <= i < |items| ==> !items[i].TextItem? && formats[i] != ""
    ensures BlockLines(items, formats) == formats
  {
    if |items| > 0 {
      var n := |items| - 1;
      BlockLinesAllPrinted(items[..n], formats[..n]);
      assert formats == formats[..n] + [formats[n]];
    }
  }

  /** Objects without a LilyPond format are printed by their `str`, each
      as one piece, even when that text is empty. */
  lemma {:induction false} BlockLinesUnformatted(items: seq<FileItem>, formats: seq<string>)
    requires |formats| == |items|
    requires forall i :: 0 <= i < |items| ==> items[i].OtherItem? && !items[i].formattable
    ensures BlockLines(items, formats) == formats
  {
    if |items| > 0 {
      var n := |items| - 1;
      BlockLinesUnformatted(items[..n], formats[..n]);
      assert formats == formats[..n] + [formats[n]];
    }
  }

  /** In a new file, looking up a block's name finds the block itself
      (blocks are named), and a score whose name is not a block name is
      found after the blocks. */
  lemma GetItemOfNewFile(f: LilyPondFile, score: Music)
    requires NewLayout(f)
    requires f.items[3].block.items == [score]
    requires score.name == Some("Score")
    ensures f.GetItem(KeyName("header")) == Ok(FoundItem(f.items[0]))
    ensures f.GetItem(KeyName("Score")) == Ok(FoundScore(score))
    ensures f.GetItem(KeyClass(BlockClass)) == Ok(FoundItem(f.items[0]))
  {
    var its := f.items;
    assert ItemName(its[0]) == Some("header");
    assert its[1..][1..][1..][1..] == [];
    assert FirstItemNamed(its, "Score") == None by {
      forall i | 0 <= i < |its| ensures ItemName(its[i]) != Some("Score") {
        assert ItemName(its[i]) == Some(its[i].block.name);
      }
    }
  }
}
