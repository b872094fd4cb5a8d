/** The format contributions one component makes to one slot of its
    LilyPond output: ten parallel lists of format strings, one per kind of
    contribution. The lists grow by `update`, one list is sorted by
    `alphabetize`, and `make_immutable` turns every list into a tuple, after
    which the list operations fail. */
module SlotContributions {
  import opened Common

  /** The ten kinds of contribution. */
  datatype Slot =
    | Articulations | Commands | Comments | Indicators | Markup
    | Spanners | SpannerStarts | SpannerStops | StemTremolos | TrillPitches

  /** The attribute name of each kind. */
  function SlotName(s: Slot): string
  {
    match s
    case Articulations => "articulations"
    case Commands => "commands"
    case Comments => "comments"
    case Indicators => "indicators"
    case Markup => "markup"
    case Spanners => "spanners"
    case SpannerStarts => "spanner_starts"
    case SpannerStops => "spanner_stops"
    case StemTremolos => "stem_tremolos"
    case TrillPitches => "trill_pitches"
  }

  /** The kind an attribute name names, if any. */
  function SlotNamed(name: string): (r: Option<Slot>)
    ensures r.Some? ==> SlotName(r.value) == name
    ensures r.None? ==> forall s: Slot :: SlotName(s) != name
  {
    if name == "articulations" then Some(Articulations)
    else if name == "commands" then Some(Commands)
    else if name == "comments" then Some(Comments)
    else if name == "indicators" then Some(Indicators)
    else if name == "markup" then Some(Markup)
    else if name == "spanners" then Some(Spanners)
    else if name == "spanner_starts" then Some(SpannerStarts)
    else if name == "spanner_stops" then Some(SpannerStops)
    else if name == "stem_tremolos" then Some(StemTremolos)
    else if name == "trill_pitches" then Some(TrillPitches)
    else None
  }

  /** Different kinds have different names, so a name finds its kind. */
  lemma SlotNamedInverse(s: Slot)
    ensures SlotNamed(SlotName(s)) == Some(s)
  {
    var r := SlotNamed(SlotName(s));
    assert SlotName(r.value) == SlotName(s);
  }

  /** Python's `sorted` on format strings: in code point order. */
  function Sorted(xs: seq<string>): (r: seq<string>)
    ensures SortedBy(r, StrLe)
    ensures multiset(r) == multiset(xs)
  {
    StrLeIsTotalPreorder();
    SortBy(xs, StrLe)
  }

  class SlotContributions {
    var articulations: seq<string>
    var commands: seq<string>
    var comments: seq<string>
    var indicators: seq<string>
    var markup: seq<string>
    var spanners: seq<string>
    var spannerStarts: seq<string>
    var spannerStops: seq<string>
    var stemTremolos: seq<string>
    var trillPitches: seq<string>
    /** Set by `make_immutable`: the lists have become tuples. */
    var frozen: bool

    /** The list of one kind. */
    function Field(s: Slot): seq<string>
      reads this
    {
      match s
      case Articulations => articulations
      case Commands => commands
      case Comments => comments
      case Indicators => indicators
      case Markup => markup
      case Spanners => spanners
      case SpannerStarts => spannerStarts
      case SpannerStops => spannerStops
      case StemTremolos => stemTremolos
      case TrillPitches => trillPitches
    }

    /** `__init__`: ten empty lists. */
    constructor()
      ensures forall s: Slot :: Field(s) == []
      ensures !frozen
    {
      articulations, commands, comments, indicators, markup := [], [], [], [], [];
      spanners, spannerStarts, spannerStops, stemTremolos, trillPitches := [], [], [], [], [];
      frozen := false;
    }

    /** `has_contributions`. */
    function HasContributions(): bool
      reads this
    {
      |articulations| > 0 || |commands| > 0 || |comments| > 0 || |indicators| > 0 || |markup| > 0
      || |spanners| > 0 || |spannerStarts| > 0 || |spannerStops| > 0 || |stemTremolos| > 0
      || |trillPitches| > 0
    }

    /** `get`: the list an attribute name names. A name that names none of
        the ten raises `AttributeError`. */
    function Get(identifier: string): (r: Result<seq<string>>)
      reads this
      ensures r.Ok? <==> exists s: Slot :: SlotName(s) == identifier
      ensures r.Ok? ==> exists s: Slot :: SlotName(s) == identifier && r.value == Field(s)
      ensures r.Err? ==> r.error == AttributeError
    {
      match SlotNamed(identifier)
      case None => Err(AttributeError)
      case Some(s) => Ok(Field(s))
    }

    /** `alphabetize`: sorts the indicators in place. Tuples have no `sort`,
        so after `make_immutable` it raises `AttributeError`. */
    method Alphabetize() returns (r: Result<()>)
      modifies this`indicators
      ensures frozen ==> r == Err(AttributeError) && indicators == old(indicators)
      ensures !frozen ==> r.Ok? && indicators == Sorted(old(indicators))
    {
      if frozen {
        return Err(AttributeError);
      }
      indicators := Sorted(indicators);
      r := Ok(());
    }

    /** `make_immutable`: the articulations sorted, every other list kept
        in order, all of them now tuples. */
    method MakeImmutable()
      modifies this`articulations, this`frozen
      ensures frozen
      ensures articulations == Sorted(old(articulations))
    {
      articulations := Sorted(articulations);
      frozen := true;
    }

    /** `update`: appends the other object's lists to the matching lists,
        in order. Tuples have no `extend`, so a frozen object raises
        `AttributeError` at the first list and changes nothing. The other
        object may be this one, in which case every list is doubled. */
    method Update(other: SlotContributions) returns (r: Result<()>)
      modifies this`articulations, this`commands, this`comments, this`indicators, this`markup
      modifies this`spanners, this`spannerStarts, this`spannerStops, this`stemTremolos, this`trillPitches
      ensures frozen ==> r == Err(AttributeError) && unchanged(this)
      ensures !frozen ==> r.Ok?
      ensures !frozen ==> articulations == old(articulations) + old(other.articulations)
      ensures !frozen ==> commands == old(commands) + old(other.commands)
      ensures !frozen ==> comments == old(comments) + old(other.comments)
      ensures !frozen ==> indicators == old(indicators) + old(other.indicators)
      ensures !frozen ==> markup == old(markup) + old(other.markup)
      ensures !frozen ==> spanners == old(spanners) + old(other.spanners)
      ensures !frozen ==> spannerStarts == old(spannerStarts) + old(other.spannerStarts)
      ensures !frozen ==> spannerStops == old(spannerStops) + old(other.spannerStops)
      ensures !frozen ==> stemTremolos == old(stemTremolos) + old(other.stemTremolos)
      ensures !frozen ==> trillPitches == old(trillPitches) + old(other.trillPitches)
    {
      if frozen {
        return Err(AttributeError);
      }
      ExtendMarks(other);
      ExtendSpanners(other);
      r := Ok(());
    }

    /** The first five `extend` calls of `update`. */
    method ExtendMarks(other: SlotContributions)
      modifies this`articulations, this`commands, this`comments, this`indicators, this`markup
      ensures articulations == old(articulations) + old(other.articulations)
      ensures commands == old(commands) + old(other.commands)
      ensures comments == old(comments) + old(other.comments)
      ensures indicators == old(indicators) + old(other.indicators)
      ensures markup == old(markup) + old(other.markup)
    {
      articulations := articulations + other.articulations;
      commands := commands + other.commands;
      comments := comments + other.comments;
      indicators := indicators + other.indicators;
      markup := markup + other.markup;
    }

    /** The last five `extend` calls of `update`. */
    method ExtendSpanners(other: SlotContributions)
      modifies this`spanners, this`spannerStarts, this`spannerStops, this`stemTremolos, this`trillPitches
      ensures spanners == old(spanners) + old(other.spanners)
      ensures spannerStarts == old(spannerStarts) + old(other.spannerStarts)
      ensures spannerStops == old(spannerStops) + old(other.spannerStops)
      ensures stemTremolos == old(stemTremolos) + old(other.stemTremolos)
      ensures trillPitches == old(trillPitches) + old(other.trillPitches)
    {
      spanners := spanners + other.spanners;
      spannerStarts := spannerStarts + other.spannerStarts;
      spannerStops := spannerStops + other.spannerStops;
      stemTremolos := stemTremolos + other.stemTremolos;
      trillPitches := trillPitches + other.trillPitches;
    }
  }

  // ----------------------------------------------------------------------
  // Properties of the list operations

  /** `has_contributions` holds exactly when some list is not empty. */
  lemma HasContributionsIff(c: SlotContributions)
    ensures c.HasContributions() <==> exists s: Slot :: |c.Field(s)| > 0
  {
    if c.HasContributions() {
      var s :| s in [Articulations, Commands, Comments, Indicators, Markup,
                     Spanners, SpannerStarts, SpannerStops, StemTremolos, TrillPitches]
        && |c.Field(s)| > 0;
    }
  }

  /** `make_immutable` twice is `make_immutable` once, and `alphabetize`
      twice is `alphabetize` once: sorting sorted strings changes
      nothing. */
  lemma SortedIdempotent(xs: seq<string>)
    ensures Sorted(Sorted(xs)) == Sorted(xs)
  {
    StrLeIsTotalPreorder();
    SortBySorted(Sorted(xs), StrLe);
  }
}
