# abjad core, modelled in Dafny

Abjad is a Python library for building musical scores. It represents rhythm with exact rational durations and offsets, and it formats scores as LilyPond input. This project models the exact-rational time arithmetic, the small sequential algorithms built on it, and the value objects whose invariants are enforced by their constructors. Each module proves properties of its model. Durations and offsets are Dafny `real`s, which are exact rationals; Python's `raise` becomes an `Err` result, and Python's `assert` on arguments becomes a precondition.

There is one module per source file, plus `Common`, which holds `Option`/`Result`, sums, an insertion sort, integer-to-string conversion, ASCII lower-casing and powers of two:

- Rhythm quantization:
  - `QuantizationJob`: the worklist expansion of a job's search tree.
  - `QTarget`: dropping the terminal event, bucketing events into beats, writing back job results, shifting next-downbeat proxies and notating leaves.
- Duration and sequence arithmetic:
  - `MergeDurationSequences`, `Compositions` and `ProlatedToWritten`.
  - `AreScalable`, `IsDurationPair` and `MakePercussionNote`.
  - `OffsetCounter`, `CountRatioPartSelector` and `Command`.
- Validated value objects:
  - `TimeSignatureMark`, `StemTremolo` and `IntervalClass` (harmonic chromatic interval classes).
  - `CodeBlockSpecifier`, and `Performer`'s instrument lookup and bookkeeping.
- `TimespanRelations`: the three time-relation builders.
- "Most recent indicator" election: `EffectiveMark` (`get_effective_mark`) and `Component`. `Component` also covers:
  - sibling lookup;
  - named-children bookkeeping up the parent chain;
  - invalidation of stale offsets;
  - cycle checks;
  - removal from the parent.
- Records and text assembly:
  - `Markup` combinators.
  - `LilyPondFile` block layout and its header text.
  - `SlotContributions`' ten parallel lists.
  - `TieSpecifier`'s configuration rule and its tie steps over an abstract leaf sequence.

Where the source changes objects in place, the model is a Dafny class whose methods state the whole new state. Examples are `QTarget.Target`, `OffsetCounter.Counter`, `TimeSignatureMark.Mark`, `StemTremolo.Tremolo`, `SlotContributions.SlotContributions`, `TieSpecifier.Divisions`, `Component.Score`, `LilyPondFile.LilyPondFile` and `Performer.Performer`. Loops in the source are methods with loop invariants, proved against a specification function whose properties are lemmas.

`is_assignable_duration` and `is_nonnegative_integer_power_of_two` are not part of this model's sources. They are defined here as follows:
- A power of two is `2^k` with `k >= 0`.
- A duration is assignable when, in lowest terms, its denominator is a power of two and its numerator is `2^a - 2^b` in binary, i.e. ones followed by zeros (a note value with dots).

With these definitions, `ProlatedToWritten.DocTable` reproduces the table in the docstring of `prolated_to_written_not_greater_than`.

## Model

| member | source | states |
|---|---|---|
| AreScalable.AreScalable | trunk/abjad/tools/durtools/are_scalable.py:28-34 | an empty list of components is always scalable |
| AreScalable.AreScalableIffAllScale | trunk/abjad/tools/durtools/are_scalable.py:28-34 | the answer is true exactly when every leaf's written duration times the multiplier is assignable |
| AreScalable.ContainersNeverFail | trunk/abjad/tools/durtools/are_scalable.py:29-32 | inserting a non-leaf anywhere in the list never changes the answer |
| AreScalable.DocExampleHalf | trunk/abjad/tools/durtools/are_scalable.py:8-10 | an eighth note scales by 1/2 |
| AreScalable.DocExampleThreeHalves | trunk/abjad/tools/durtools/are_scalable.py:14-16 | an eighth note scales by 3/2 (a dotted eighth) |
| AreScalable.DocExampleTwoThirds | trunk/abjad/tools/durtools/are_scalable.py:20-22 | an eighth note does not scale by 2/3 |
| CodeBlockSpecifier.FlagOrNone | abjad/tools/abjadbooktools/CodeBlockSpecifier.py:27-29 | a flag is stored as True exactly when the argument is truthy, and never as False |
| CodeBlockSpecifier.ParseInt | abjad/tools/abjadbooktools/CodeBlockSpecifier.py:33 | `int` of a string either fails with ValueError or succeeds on a non-empty string |
| CodeBlockSpecifier.NormalizeWidth | abjad/tools/abjadbooktools/CodeBlockSpecifier.py:30-36 | None and False give no width, True gives 80, a stored width is at least 1, a non-zero integer is stored as its absolute value, zero gives None, an object that is not a number raises TypeError |
| CodeBlockSpecifier.New | abjad/tools/abjadbooktools/CodeBlockSpecifier.py:20-36 | construction fails exactly when the width fails to normalize; otherwise each flag and the width are stored normalized |
| CodeBlockSpecifier.TruncTowardZero | abjad/tools/abjadbooktools/CodeBlockSpecifier.py:33 | `int` of a float moves toward zero by less than one and keeps integral values |
| CodeBlockSpecifier.FloatWidth | abjad/tools/abjadbooktools/CodeBlockSpecifier.py:33-35 | a float width is stored as the floor of its absolute value when that is at least 1, and as None when it is between -1 and 1 |
| CodeBlockSpecifier.NormalizeIdempotent | abjad/tools/abjadbooktools/CodeBlockSpecifier.py:20-36 | rebuilding a specifier from its own stored options gives the same specifier |
| CodeBlockSpecifier.DigitsRoundTrip | abjad/tools/abjadbooktools/CodeBlockSpecifier.py:33 | reading back the decimal digits of a natural gives that natural |
| CodeBlockSpecifier.ParseIntRoundTrip | abjad/tools/abjadbooktools/CodeBlockSpecifier.py:33 | `int(str(i)) == i` for every integer, so a width given as a numeric string is read as that integer |
| CodeBlockSpecifier.ParseDigits | abjad/tools/abjadbooktools/CodeBlockSpecifier.py:33 | an unsigned digit string is read as its value |
| CodeBlockSpecifier.ParseMinusDigits | abjad/tools/abjadbooktools/CodeBlockSpecifier.py:33 | a minus sign followed by digits is read as the negated value |
| CodeBlockSpecifier.Example | abjad/tools/abjadbooktools/CodeBlockSpecifier.py:27-36 | `text_width=True` gives width 80; truthy flags become True, falsy ones None, and width -3 is stored as 3 |
| CodeBlockSpecifier.ExampleBadString | abjad/tools/abjadbooktools/CodeBlockSpecifier.py:33 | a width string that is not a number raises ValueError |
| Command.MakeCommand | experimental/interpretertools/Command/Command.py:21-37 | a command can be built only when stop offset minus start offset equals the duration; the result keeps every argument and satisfies that invariant |
| Command.Vector | experimental/interpretertools/Command/Command.py:41-44 | the mandatory argument values are the seven constructor arguments |
| Command.ZipEqual | experimental/interpretertools/Command/Command.py:43-48 | the zipped comparison is true exactly when the values agree on every position both sequences have |
| Command.EqualsIsFieldwise | experimental/interpretertools/Command/Command.py:41-49 | a command equals another command exactly when all stored values agree, and never equals anything else |
| Command.Example | experimental/interpretertools/Command/Command.py:21-37 | a command from offset 1 to 5/2 has duration 3/2 and equals itself |
| Command.DurationDeterminedByOffsets | experimental/interpretertools/Command/Command.py:26-29 | two commands with the same offsets have the same duration |
| Component.Score.Parentage | abjad/tools/scoretools/Component.py:552-557 | the improper parentage starts with the component and continues with the parent's parentage; a root's parentage is itself alone |
| Component.Score.ParentageShallower | abjad/tools/scoretools/Component.py:552-557 | every proper ancestor is strictly shallower than the component, so parent chains end |
| Component.Score.ParentageDistinct | abjad/tools/scoretools/Component.py:552-557 | no component occurs twice in its parentage |
| Component.Score.GetSibling | abjad/tools/scoretools/Component.py:588-602 | offset 0 gives the component itself; otherwise the component `n` places away in a non-simultaneous parent, and None exactly when there is no parent, the parent is simultaneous or the place is out of range |
| Component.Score.SiblingInverse | abjad/tools/scoretools/Component.py:588-602 | if the sibling `n` away is `d`, then the sibling `-n` away from `d` is the component |
| Component.Score.CheckForCyclesFinds | abjad/tools/scoretools/Component.py:185-190 | the check is true exactly when some given component is in the parentage |
| Component.Score.CycleProperties | abjad/tools/scoretools/Component.py:185-190 | a component is in a cycle with itself; what is in a cycle with the parent is in one with the child; for a root the check is list membership |
| Component.Score.SetName | abjad/tools/scoretools/Component.py:921-936 | the name map takes the new name (or drops the old one for None); each proper ancestor's named children are renamed and every other container's are unchanged |
| Component.Score.RenameInAncestors | abjad/tools/scoretools/Component.py:925-935 | the loop renames the named-children map of exactly the proper ancestors and leaves the other maps unchanged |
| Component.Score.UpdateLater | abjad/tools/scoretools/Component.py:883-889 | with `offsets` the offsets flag of the component and all its ancestors is cleared; otherwise the seconds flag is; the other flag set is unchanged |
| Component.Score.RemoveFromParent | abjad/tools/scoretools/Component.py:777-781 | the offsets flags of the old parentage are cleared, the component's first occurrence leaves the parent's music, it has no parent afterwards, and the parent and music links stay consistent |
| Component.RenamedAlongChain | abjad/tools/scoretools/Component.py:925-935 | a map changed exactly at the proper ancestors by renaming is the result the loop promises |
| Component.RenameRegisters | abjad/tools/scoretools/Component.py:931-935 | after renaming to a name, the component is the last entry of that name's list |
| Component.RenameUnregisters | abjad/tools/scoretools/Component.py:927-930 | a component listed once under its old name is no longer listed there after renaming, and an emptied key is deleted |
| Component.RenameKeepsListsNonEmpty | abjad/tools/scoretools/Component.py:929-930 | renaming never leaves a name mapped to an empty list |
| Component.RenameKeepsOtherNames | abjad/tools/scoretools/Component.py:925-935 | names other than the old and the new one keep their lists |
| Component.GetIndicator | abjad/tools/scoretools/Component.py:444-454 | the only error is ValueError |
| Component.GetIndicatorProperties | abjad/tools/scoretools/Component.py:444-454 | a result is the single attached indicator matching the prototype; no match raises |
| Component.GetMarkup | abjad/tools/scoretools/Component.py:494-501 | without a direction, exactly the attached markup; with Up or Down, exactly the attached markup of that direction |
| Component.SortedOffsets | abjad/tools/scoretools/Component.py:357 | the sorted dictionary keys are strictly increasing and are exactly the candidate offsets |
| Component.SortedDistinct | abjad/tools/scoretools/Component.py:357 | sorting offsets that occur once each gives a strictly increasing list of the same offsets |
| Component.BisectRight | abjad/tools/scoretools/Component.py:359 | `bisect.bisect` returns the split point: everything before it is at most `x`, everything after is above `x` |
| Component.GetEffectiveIndicator | abjad/tools/scoretools/Component.py:317-367 | a measure asked for a time signature gives its own single time signature, None without one, ValueError with several; otherwise the result is the candidate election |
| Component.MeasureIgnoresCandidates | abjad/tools/scoretools/Component.py:321-331 | for a measure asked for a time signature, candidates and offsets do not matter |
| Component.MostRecent | abjad/tools/scoretools/Component.py:354-363 | with `n = 0` the elected offset is the latest candidate offset at or before the start, and there is none exactly when every candidate starts later |
| Component.BelowLatest | abjad/tools/scoretools/Component.py:357-359 | every candidate at or before the start lies at or before the last offset the bisection keeps |
| Component.LaterStepsForward | abjad/tools/scoretools/Component.py:359-364 | asking for `n + 1` gives a strictly later offset than `n` |
| Component.EffectiveIsFirstAtOffset | abjad/tools/scoretools/Component.py:364 | the returned wrapper is the first one gathered at the elected offset |
| Compositions.BitsFromBits | abjad/tools/mathtools/yield_all_compositions_of_integer.py:51-52 | writing back a numeral's value with as many digits gives the same numeral |
| Compositions.FromBitsBits | abjad/tools/mathtools/yield_all_compositions_of_integer.py:51-52 | a number below `2^n` written with `n` digits reads back as that number |
| Compositions.LeadingBit | abjad/tools/mathtools/yield_all_compositions_of_integer.py:50-52 | the leading digit of an `n`-digit numeral is zero exactly for the numbers the loop visits, those below `2^(n-1)` |
| Compositions.Runs | abjad/tools/mathtools/yield_all_compositions_of_integer.py:55-58 | a numeral has at least one run exactly when it is non-empty, and never more runs than digits |
| Compositions.RunsIsComposition | abjad/tools/mathtools/yield_all_compositions_of_integer.py:38 | the run lengths are positive and add up to the numeral's length, so each yielded tuple sums to `n` |
| Compositions.RunsExpand | abjad/tools/mathtools/yield_all_compositions_of_integer.py:55-58 | taking the runs of the numeral rebuilt from positive run lengths gives those lengths back |
| Compositions.ExpandRuns | abjad/tools/mathtools/yield_all_compositions_of_integer.py:55-58 | a numeral is rebuilt from its run lengths and its last digit |
| Compositions.Enumerate | abjad/tools/mathtools/yield_all_compositions_of_integer.py:47-61 | the loop collects `2^(n-1)` tuples |
| Compositions.EnumerateSound | abjad/tools/mathtools/yield_all_compositions_of_integer.py:38 | every collected tuple is a composition of `n`: positive parts summing to `n` |
| Compositions.EnumerateComplete | abjad/tools/mathtools/yield_all_compositions_of_integer.py:6 | every composition of `n` is collected, at the number whose numeral starts with zero and has those runs |
| Compositions.EnumerateInjective | abjad/tools/mathtools/yield_all_compositions_of_integer.py:47-61 | no composition is collected twice |
| Compositions.LexLeTotal | abjad/tools/mathtools/yield_all_compositions_of_integer.py:62 | Python's tuple ordering is total |
| Compositions.LexLeTrans | abjad/tools/mathtools/yield_all_compositions_of_integer.py:62 | Python's tuple ordering is transitive |
| Compositions.LexLeAntisymmetric | abjad/tools/mathtools/yield_all_compositions_of_integer.py:62 | tuples ordered both ways are equal |
| Compositions.Compositions | abjad/tools/mathtools/yield_all_compositions_of_integer.py:62-63 | the generator yields `2^(n-1)` tuples |
| Compositions.EnumerateMembers | abjad/tools/mathtools/yield_all_compositions_of_integer.py:6 | the collected tuples are exactly the compositions of `n` |
| Compositions.ReversedSortDescending | abjad/tools/mathtools/yield_all_compositions_of_integer.py:62 | reversing the sort of a list without repetitions gives a strictly descending list |
| Compositions.CompositionsCorrect | abjad/tools/mathtools/yield_all_compositions_of_integer.py:6-38 | the yielded tuples are exactly the compositions of `n`, `2^(n-1)` of them, in strictly descending lexicographic order |
| Compositions.RunLengths | abjad/tools/mathtools/yield_all_compositions_of_integer.py:54-58 | the grouping loop returns the run lengths of the numeral |
| Compositions.AllCompositions | abjad/tools/mathtools/yield_all_compositions_of_integer.py:46-63 | the generator's loop returns exactly the compositions of `n`, `2^(n-1)` of them, strictly descending |
| CountRatioPartSelector.PartDurations | experimental/selectortools/CountRatioPartSelector/CountRatioPartSelector.py:61-62 | one duration per part, each the sum of that part's time signature durations |
| CountRatioPartSelector.GetDuration | experimental/selectortools/CountRatioPartSelector/CountRatioPartSelector.py:56-63 | `parts[part]` raises IndexError exactly when the index is outside `-len(parts) .. len(parts) - 1` |
| CountRatioPartSelector.GetSegmentStopOffset | experimental/selectortools/CountRatioPartSelector/CountRatioPartSelector.py:75-88 | the stop offset fails exactly when the duration does |
| CountRatioPartSelector.FirstPartStartsAtZero | experimental/selectortools/CountRatioPartSelector/CountRatioPartSelector.py:69-73 | part 0 starts at offset 0 |
| CountRatioPartSelector.StopIsStartPlusDuration | experimental/selectortools/CountRatioPartSelector/CountRatioPartSelector.py:75-88 | the stop offset is the start offset plus the duration |
| CountRatioPartSelector.PartsAbut | experimental/selectortools/CountRatioPartSelector/CountRatioPartSelector.py:65-88 | part `k` stops where part `k + 1` starts |
| CountRatioPartSelector.NegativeIndexAgrees | experimental/selectortools/CountRatioPartSelector/CountRatioPartSelector.py:60-69 | a negative part index names the same part as its non-negative counterpart for the duration and for the start offset |
| CountRatioPartSelector.StartOffsetMonotone | experimental/selectortools/CountRatioPartSelector/CountRatioPartSelector.py:65-73 | with non-negative durations, later parts never start earlier |
| CountRatioPartSelector.Example | experimental/selectortools/CountRatioPartSelector/CountRatioPartSelector.py:56-88 | parts `[3/8, 3/8]` and `[2/8, 2/8]` give part 0 duration 3/4 and part 1 the span from 3/4 to 5/4 |
| EffectiveMark.Candidates | trunk/abjad/tools/marktools/get_effective_mark.py:17-26 | every gathered candidate is of the class and has an effective context or is a time signature mark starting on a measure |
| EffectiveMark.GatherCandidates | trunk/abjad/tools/marktools/get_effective_mark.py:17-26 | the gathering loops yield exactly the candidate set, each mark once |
| EffectiveMark.SortedCandidates | trunk/abjad/tools/marktools/get_effective_mark.py:27-28 | sorting keeps exactly the candidates, with no repetition |
| EffectiveMark.Elect | trunk/abjad/tools/marktools/get_effective_mark.py:32-44 | the reversed scan returns None only when no candidate starts at or before the component, else the unique latest such candidate, and raises ExtraMarkError only when two candidates share that latest start |
| EffectiveMark.TieAtTop | trunk/abjad/tools/marktools/get_effective_mark.py:37-40 | two distinct scanned candidates with the same eligible start and no later eligible one form a tie at the top |
| EffectiveMark.GetEffectiveMark | trunk/abjad/tools/marktools/get_effective_mark.py:4-44 | None exactly when nothing qualifies by start, otherwise the candidate starting latest at or before the component, and ExtraMarkError when two candidates share that start |
| EffectiveMark.TieDefeatsEveryone | trunk/abjad/tools/marktools/get_effective_mark.py:37-40 | a tie at the top rules out both a winner and "none eligible", so the three outcomes are exclusive |
| EffectiveMark.WinnerUnique | trunk/abjad/tools/marktools/get_effective_mark.py:32-42 | at most one candidate is the winner |
| IntervalClass.Normalize | trunk/abjad/tools/pitchtools/HarmonicChromaticIntervalClass/HarmonicChromaticIntervalClass.py:27-30 | the class number lies in 0..12, is 0 only for the unison, and agrees with the interval's absolute size modulo twelve |
| IntervalClass.TwelveDivides | trunk/abjad/tools/pitchtools/HarmonicChromaticIntervalClass/HarmonicChromaticIntervalClass.py:27 | a number is a multiple of twelve exactly when its absolute value is |
| IntervalClass.NormalizeUnique | trunk/abjad/tools/pitchtools/HarmonicChromaticIntervalClass/HarmonicChromaticIntervalClass.py:27-30 | the normalized number is the only value in 0..12 with those three properties |
| IntervalClass.Make | trunk/abjad/tools/pitchtools/HarmonicChromaticIntervalClass/HarmonicChromaticIntervalClass.py:19-31 | numbers and intervals are normalized; anything else raises TypeError, and only that |
| IntervalClass.Examples | trunk/abjad/tools/pitchtools/HarmonicChromaticIntervalClass/HarmonicChromaticIntervalClass.py:11-12 | -14 gives class 2, 24 and -12 give 12, and 0 gives 0 |
| IntervalClass.AbsIdempotent | trunk/abjad/tools/pitchtools/HarmonicChromaticIntervalClass/HarmonicChromaticIntervalClass.py:35-42 | a constructed class holds a normalized number, and `abs` of it is the same, equal class |
| IntervalClass.NormalizeIdempotent | trunk/abjad/tools/pitchtools/HarmonicChromaticIntervalClass/HarmonicChromaticIntervalClass.py:27-30 | normalizing a number already in 0..12 keeps it |
| IntervalClass.NormalizeSymmetries | trunk/abjad/tools/pitchtools/HarmonicChromaticIntervalClass/HarmonicChromaticIntervalClass.py:27-30 | an interval and its inversion in direction have the same class, and adding an octave keeps the class of a number that is not a multiple of twelve |
| IntervalClass.EqualsIsSameNumber | trunk/abjad/tools/pitchtools/HarmonicChromaticIntervalClass/HarmonicChromaticIntervalClass.py:38-48 | classes are equal exactly when their numbers, as returned by `int`, agree, and never equal anything else |
| IsDurationPair.MakeFraction | trunk/abjad/tools/durtools/is_duration_pair.py:24-27 | a fraction that can be built has a non-zero denominator |
| IsDurationPair.IsDurationPairIff | trunk/abjad/tools/durtools/is_duration_pair.py:21-32 | the answer is true exactly for a list or tuple of two integers whose quotient is positive |
| IsDurationPair.WrongLengthRejected | trunk/abjad/tools/durtools/is_duration_pair.py:21-22 | a list or tuple whose length is not two is rejected whatever it holds |
| IsDurationPair.UnbuildableRejected | trunk/abjad/tools/durtools/is_duration_pair.py:24-27 | items `Fraction` cannot take (a zero denominator, a non-integer) give False rather than an exception |
| IsDurationPair.DocExamples | trunk/abjad/tools/durtools/is_duration_pair.py:7-13 | `(5, 16)` is a duration pair; `(-5, 16)` and `(0, 16)` are not |
| LilyPondFile.Block.constructor | abjad/tools/lilypondfiletools/LilyPondFile.py:1090-1093 | a new block has the given name and no items |
| LilyPondFile.Block.Append | abjad/tools/lilypondfiletools/LilyPondFile.py:1101 | appending music adds it at the end of the block's items and changes nothing else |
| LilyPondFile.FirstBlockNamed | abjad/tools/lilypondfiletools/LilyPondFile.py:598-602 | None exactly when no item is a block with the name; otherwise the first such block |
| LilyPondFile.FirstItemNamed | abjad/tools/lilypondfiletools/LilyPondFile.py:304-306 | None exactly when no item's `name` attribute equals the key; otherwise the first item whose name does |
| LilyPondFile.FirstItemOfClass | abjad/tools/lilypondfiletools/LilyPondFile.py:316-318 | None exactly when no item is an instance of the class; otherwise the first item that is |
| LilyPondFile.FirstContext | abjad/tools/lilypondfiletools/LilyPondFile.py:310-311 | None exactly when no context of the score matches the key; otherwise the first matching context of the score |
| LilyPondFile.LilyPondFile.constructor | abjad/tools/lilypondfiletools/LilyPondFile.py:100-133 | the arguments are stored, absent comments, includes and items as empty lists, and each token is made unless its argument is `False` |
| LilyPondFile.LilyPondFile.HeaderBlock | abjad/tools/lilypondfiletools/LilyPondFile.py:598-602 | the header block is the first block named `header` |
| LilyPondFile.LilyPondFile.LayoutBlock | abjad/tools/lilypondfiletools/LilyPondFile.py:677-681 | the layout block is the first block named `layout` |
| LilyPondFile.LilyPondFile.PaperBlock | abjad/tools/lilypondfiletools/LilyPondFile.py:744-748 | the paper block is the first block named `paper` |
| LilyPondFile.LilyPondFile.ScoreBlock | abjad/tools/lilypondfiletools/LilyPondFile.py:769-773 | the score block is the first block named `score` |
| LilyPondFile.LilyPondFile.GetItem | abjad/tools/lilypondfiletools/LilyPondFile.py:298-328 | KeyError exactly when no item, not the score and no context in it matches; a matching item wins and is the first one; only when no item matches is the result the matching score, and only when the score does not match either is it the first matching context of the score |
| LilyPondFile.LilyPondFile.FormattedComments | abjad/tools/lilypondfiletools/LilyPondFile.py:400-414 | the loop returns the comment piece: `% ` before each printable comment, all joined into one piece, none without comments |
| LilyPondFile.LilyPondFile.FormattedIncludes | abjad/tools/lilypondfiletools/LilyPondFile.py:416-426 | the loop returns the include piece: an `\include` line per path or the format of an object, joined into one piece |
| LilyPondFile.LilyPondFile.FormattedSchemeSettings | abjad/tools/lilypondfiletools/LilyPondFile.py:428-443 | the paper size and staff size settings as one piece, none when neither is set |
| LilyPondFile.LilyPondFile.FormattedBlocks | abjad/tools/lilypondfiletools/LilyPondFile.py:389-398 | the loop returns, item by item, a string item as itself, the text of an object without a LilyPond format even when it is empty, and any other item's format when it is non-empty |
| LilyPondFile.LilyPondFile.FormatPieces | abjad/tools/lilypondfiletools/LilyPondFile.py:363-385 | the pieces in order: date-time comment, comments, tokens, relative-include option, includes, Scheme settings, blocks |
| LilyPondFile.LilyPondFile.FormattedTokens | abjad/tools/lilypondfiletools/LilyPondFile.py:369-378 | the version and language tokens joined by a newline, as one piece when not empty |
| LilyPondFile.New | abjad/tools/lilypondfiletools/LilyPondFile.py:1081-1102 | an existing file is returned as it is; otherwise a fresh file with header, layout, paper and score blocks in order, the music (if any) the only item of the score block, the language and version tokens present exactly when their arguments ask for them, and the other arguments stored |
| LilyPondFile.MakeBlocks | abjad/tools/lilypondfiletools/LilyPondFile.py:1084-1099 | a fresh file with four fresh blocks in order, an empty score block, and the language and version tokens present exactly when their arguments ask for them |
| LilyPondFile.LaidOut | abjad/tools/lilypondfiletools/LilyPondFile.py:1089-1094 | a file whose items are the four named blocks has the layout of a new file and its score block is the fourth |
| LilyPondFile.FirstBlockNamedAt | abjad/tools/lilypondfiletools/LilyPondFile.py:599-602 | the accessor returns the block at the first position where a block has its name |
| LilyPondFile.FourBlocks | abjad/tools/lilypondfiletools/LilyPondFile.py:598-602 | in the four-block list each accessor finds its own block |
| LilyPondFile.JoinedLines | abjad/tools/lilypondfiletools/LilyPondFile.py:412-413 | lines without newlines joined by newlines contain one fewer newline than there are lines, so they split back into as many lines |
| LilyPondFile.IncludesPieceShape | abjad/tools/lilypondfiletools/LilyPondFile.py:416-426 | includes give one piece of one line each, and no includes no piece |
| LilyPondFile.OneInclude | abjad/tools/lilypondfiletools/LilyPondFile.py:419-421 | a single path is printed as one `\include "path"` line |
| LilyPondFile.SchemePieceShape | abjad/tools/lilypondfiletools/LilyPondFile.py:428-443 | the settings piece is present exactly when a paper size or a staff size is set, and holds both lines, paper size first, when both are |
| LilyPondFile.BlockLinesBound | abjad/tools/lilypondfiletools/LilyPondFile.py:389-398 | at most one piece comes from each item |
| LilyPondFile.DefaultPieces | abjad/tools/lilypondfiletools/LilyPondFile.py:363-385 | a new file without comments, includes or settings prints the date-time comment, the joined tokens, then the four block formats |
| LilyPondFile.BlockLinesAllPrinted | abjad/tools/lilypondfiletools/LilyPondFile.py:391-395 | when no item is a string and every format is non-empty, the block pieces are exactly the formats |
| LilyPondFile.BlockLinesUnformatted | abjad/tools/lilypondfiletools/LilyPondFile.py:396-397 | when every item is an object without a LilyPond format, the block pieces are exactly their texts, empty ones included |
| LilyPondFile.GetItemOfNewFile | abjad/tools/lilypondfiletools/LilyPondFile.py:298-318 | in a new file, `header` finds the header block, `Block` finds the first block, and a score named `Score` is found after the blocks |
| MakePercussionNote.MakePercussionNote | trunk/abjad/tools/notetools/make_percussion_note.py:46-61 | the method returns the specified percussion note: tied notes of the maximum duration and tied rests for the remainder when the total is longer, otherwise the tied leaf with every piece after the first turned into a rest |
| MakePercussionNote.PercussionNoteSum | trunk/abjad/tools/notetools/make_percussion_note.py:33 | the durations of the returned leaves add up to the total duration |
| MakePercussionNote.PercussionNoteShape | trunk/abjad/tools/notetools/make_percussion_note.py:31-37 | at least one note of the pitch comes first, then only rests; the notes last no longer than the maximum note duration and the rests fill the rest of the total |
| MakePercussionNote.ShapeWhenSplit | trunk/abjad/tools/notetools/make_percussion_note.py:49-52 | the same shape when the total exceeds the maximum note duration |
| MakePercussionNote.ShapeWhenShort | trunk/abjad/tools/notetools/make_percussion_note.py:53-60 | the same shape when the total fits in the maximum note duration |
| MakePercussionNote.SumOfPositivesBoundsEach | trunk/abjad/tools/notetools/make_percussion_note.py:55-59 | each positive piece of a split is at most the whole |
| MakePercussionNote.DocExampleFiveSixtyFourths | trunk/abjad/tools/notetools/make_percussion_note.py:23-24 | 5/64 with maximum 1/8 gives a sixteenth note and a sixty-fourth rest |
| MakePercussionNote.DocExampleFiveQuarters | trunk/abjad/tools/notetools/make_percussion_note.py:28-29 | 5/4 with maximum 1/8 gives an eighth note, a whole rest and an eighth rest |
| Markup.GatherItems | abjad/tools/markuptools/Markup.py:149-158 | the constructor's loop gathers each string or command as itself, each markup's contents in order, and anything else as its `str` |
| Markup.ItemContentsOfContents | abjad/tools/markuptools/Markup.py:149-158 | passing a markup's contents back to the constructor as a list rebuilds exactly those contents |
| Markup.ItemContentsNonEmpty | abjad/tools/markuptools/Markup.py:149-158 | a non-empty list of valid items gathers at least one content |
| Markup.NewIsValid | abjad/tools/markuptools/Markup.py:127-161 | every markup the constructor builds (other than from a string) has a content; None gives the single empty string; a markup is copied with its direction as the fallback |
| Markup.Add | abjad/tools/markuptools/Markup.py:218-228 | `a + b` has a's contents followed by b's (or the command), in a's direction; anything other than a markup or a command raises TypeError |
| Markup.ConstructFromContents | abjad/tools/markuptools/Markup.py:149-160 | the constructor on a non-empty list of contents keeps them; on an empty list it holds the list's `str` |
| Markup.RAdd | abjad/tools/markuptools/Markup.py:534-545 | `b.__radd__(a)` has a's contents (or the command) followed by b's, in b's direction; anything else raises TypeError |
| Markup.AddAssociative | abjad/tools/markuptools/Markup.py:218-228 | adding markups is associative, and the sum is valid and in the leftmost markup's direction |
| Markup.RAddMirrorsAdd | abjad/tools/markuptools/Markup.py:534-545 | `b.__radd__(a)` has the contents of `a + b` but b's direction |
| Markup.Lt | abjad/tools/markuptools/Markup.py:482-486 | comparing a markup with anything but a markup raises TypeError |
| Markup.StrLtTrichotomy | abjad/tools/markuptools/Markup.py:486 | Python's string `<` is a strict total order |
| Markup.StrLeAntisymmetric | abjad/tools/markuptools/Markup.py:486 | strings each at most the other are equal |
| Markup.LtTotalOnText | abjad/tools/markuptools/Markup.py:486 | on string contents `<` never raises and exactly one of less, greater and equal holds |
| Markup.LtIrreflexive | abjad/tools/markuptools/Markup.py:486 | no markup is less than itself, whatever its contents |
| Markup.LtExample | abjad/tools/markuptools/Markup.py:482-486 | "Allegro" < "assai" by code point, "b" < "a" is false, and a string against a command raises TypeError |
| Markup.ParseArgument | abjad/tools/markuptools/Markup.py:626-638 | a markup of one content passes that content, a markup of several the list, a string or a command itself; anything else, and only that, raises TypeError |
| Markup.ParseArgumentRoundTrip | abjad/tools/markuptools/Markup.py:626-638 | the contents of a markup can be read back from the parsed argument |
| Markup.Wrap | abjad/tools/markuptools/Markup.py:809-814 | a wrapper such as `bold`, `box` or `tiny` gives one command of that name with the leading arguments followed by the markup, keeping direction and stack priority |
| Markup.WrapRoundTrip | abjad/tools/markuptools/Markup.py:809-814 | the wrapped markup is valid and the original contents read back from the command's last argument |
| Markup.BoldExample | abjad/tools/markuptools/Markup.py:809-814 | "Allegro assai" in bold is one `bold` command around the string |
| Markup.GeneralAlign | abjad/tools/markuptools/Markup.py:1431-1447 | Up, Down, Center and numbers are accepted and give one command in the markup's direction; any other direction raises ValueError |
| Markup.ExtendContents | abjad/tools/markuptools/Markup.py:1068-1070 | the loop of `column` and `line` extends every markup's contents in order |
| Markup.Column | abjad/tools/markuptools/Markup.py:1068-1072 | `column` is one `column` command around all the contents in order |
| Markup.Line | abjad/tools/markuptools/Markup.py:1669-1673 | `line` is one `line` command around all the contents in order |
| Markup.FlattenAppend | abjad/tools/markuptools/Markup.py:1068-1070 | the contents of two lists of markups, one after the other, are the contents of the joined list |
| Markup.FlattenSplit | abjad/tools/markuptools/Markup.py:1068-1070 | splitting the list of markups anywhere splits a column's contents there |
| Markup.ColumnOfTwo | abjad/tools/markuptools/Markup.py:1068-1072 | the column of two markups holds exactly the contents of their sum |
| Markup.ParseAll | abjad/tools/markuptools/Markup.py:1144-1147 | parsing a list fails with TypeError exactly when some item is not a markup, command or string; otherwise each argument is that item parsed |
| Markup.ParseEach | abjad/tools/markuptools/Markup.py:1144-1147 | the loop of `concat`, `overlay` and the column commands returns every item parsed, or the first error |
| Markup.PrefixError | abjad/tools/markuptools/Markup.py:1144-1147 | an error on a prefix of the list is the error of the whole list |
| Markup.ParsedListCommand | abjad/tools/markuptools/Markup.py:1144-1149 | `concat`, `overlay`, `center_column`, `left_column` and `right_column` give one command holding the parsed items, or TypeError exactly when an item cannot be parsed |
| Markup.Combine | abjad/tools/markuptools/Markup.py:1100-1108 | a list whose length is not two raises Exception; an unparseable item raises TypeError; a result is one command in the given direction |
| Markup.CombineRoundTrip | abjad/tools/markuptools/Markup.py:1104-1108 | two markups combine into one command whose two arguments read back as their contents |
| Markup.TruncDiv | abjad/tools/markuptools/Markup.py:1725 | `int` of a fraction truncates toward zero: the remainder is smaller than the denominator and has the sign of the numerator |
| Markup.ImproperFraction | abjad/tools/markuptools/Markup.py:1719-1736 | the markup is in the requested direction |
| Markup.ImproperFractionParts | abjad/tools/markuptools/Markup.py:1719-1736 | an integer prints as itself alone; otherwise as the integer part `q` and a tiny fraction `p/d` in lowest terms with `q + p/d` the input, `p` non-zero, smaller than `d` in size and of the input's sign |
| Markup.TruncRemainder | abjad/tools/markuptools/Markup.py:1725-1726 | the remainder left by truncation has the size of `abs(n) mod d` |
| Markup.GcdStep | abjad/tools/markuptools/Markup.py:1726-1729 | one step of Euclid's algorithm keeps the greatest common divisor |
| Markup.FractionPartReduced | abjad/tools/markuptools/Markup.py:1726-1729 | the fractional part of a reduced non-integer fraction is non-zero and still in lowest terms |
| Markup.ImproperFractionExample | abjad/tools/markuptools/Markup.py:1719-1736 | 7/3 gives 2 and a tiny 1/3, -7/3 gives -2 and -1/3, and 4 gives 4 |
| MergeDurationSequences.CumulativeSums | trunk/abjad/tools/sequencetools/merge_duration_sequences.py:23 | one running total per duration |
| MergeDurationSequences.CumulativeSumsAt | trunk/abjad/tools/sequencetools/merge_duration_sequences.py:23 | each running total is the sum of the durations up to and including its own |
| MergeDurationSequences.Differences | trunk/abjad/tools/sequencetools/merge_duration_sequences.py:29 | one difference fewer than values |
| MergeDurationSequences.SortedDistinct | trunk/abjad/tools/sequencetools/merge_duration_sequences.py:27 | `sorted(set(s))` is strictly increasing and holds exactly the values of `s` |
| MergeDurationSequences.SumDifferences | trunk/abjad/tools/sequencetools/merge_duration_sequences.py:29 | the differences telescope to the last value less the first |
| MergeDurationSequences.CumulativeSumsOfDifferences | trunk/abjad/tools/sequencetools/merge_duration_sequences.py:29 | the running totals of the differences recover the values less the first |
| MergeDurationSequences.MergeOffsets | trunk/abjad/tools/sequencetools/merge_duration_sequences.py:21-31 | the merged sequence's own offsets are exactly the sorted distinct offsets of all inputs |
| MergeDurationSequences.MergeRefinesEachInput | trunk/abjad/tools/sequencetools/merge_duration_sequences.py:22-29 | every offset of every input is an offset of the result, so the merge refines each input |
| MergeDurationSequences.MergeSum | trunk/abjad/tools/sequencetools/merge_duration_sequences.py:22-29 | the merged durations add up to the largest offset of any input, and to 0 with no offsets |
| MergeDurationSequences.MergePositive | trunk/abjad/tools/sequencetools/merge_duration_sequences.py:27-29 | with positive input durations every merged duration is positive |
| MergeDurationSequences.MergeFromOffsets | trunk/abjad/tools/sequencetools/merge_duration_sequences.py:26-29 | the merge is the sequence of gaps between 0 and the increasing list of all offsets |
| MergeDurationSequences.DocExampleShortSecond | trunk/abjad/tools/sequencetools/merge_duration_sequences.py:6-7 | `[10, 10, 10]` and `[7]` merge to `[7, 3, 10, 10]` |
| MergeDurationSequences.DocExampleSharedBoundaries | trunk/abjad/tools/sequencetools/merge_duration_sequences.py:11-12 | `[10, 10, 10]` and `[10, 10]` merge to `[10, 10, 10]` |
| MergeDurationSequences.CumulativeSumsExample | trunk/abjad/tools/sequencetools/merge_duration_sequences.py:23 | the running totals of `[10, 10, 10]`, `[10, 10]` and `[7]` |
| MergeDurationSequences.StrictlyIncreasingUnique | trunk/abjad/tools/sequencetools/merge_duration_sequences.py:27 | a strictly increasing sequence is determined by its elements |
| MergeDurationSequences.SortedDistinctUnique | trunk/abjad/tools/sequencetools/merge_duration_sequences.py:27 | `sorted(set(s))` is the only strictly increasing list of the values of `s` |
| OffsetCounter.TotalRemove | abjad/tools/metertools/OffsetCounter.py:50-63 | the total of a counter is any one count plus the total of the rest |
| OffsetCounter.TotalIncrement | abjad/tools/metertools/OffsetCounter.py:56 | one `counter[x] += 1` adds one to the total |
| OffsetCounter.TotalIncrementAll | abjad/tools/metertools/OffsetCounter.py:53-63 | a run of increments adds its length to the total |
| OffsetCounter.CountTotal | abjad/tools/metertools/OffsetCounter.py:53-63 | the counts add up to two per item with a start and a stop (timespans and components) plus one per other item |
| OffsetCounter.IncrementAllRepresents | abjad/tools/metertools/OffsetCounter.py:53-63 | incrementing a counter at a list of offsets adds that list to the multiset it stands for |
| OffsetCounter.CountIsEndpointMultiset | abjad/tools/metertools/OffsetCounter.py:53-63 | every offset is counted exactly as often as the items contribute it, and only contributed offsets are keys |
| OffsetCounter.CountSpanStep | abjad/tools/metertools/OffsetCounter.py:54-57 | an item with a start and a stop increments its start offset and then its stop offset |
| OffsetCounter.DocExample | abjad/tools/metertools/OffsetCounter.py:14-36 | the timespans of the class documentation give the counts shown there |
| OffsetCounter.Counter.constructor | abjad/tools/metertools/OffsetCounter.py:50-63 | `None` gives an empty counter; otherwise the counter holds exactly the counts of the items' offsets, totalling two per span and one per point |
| Performer.FindInstrument | abjad/tools/instrumenttools/Performer.py:174-179 | None exactly when no instrument's name or short name matches up to case; otherwise a listed instrument that matches |
| Performer.FindInstrumentIsFirst | abjad/tools/instrumenttools/Performer.py:174-179 | the instrument found is the first one that matches |
| Performer.Performer.constructor | abjad/tools/instrumenttools/Performer.py:87 | a new performer starts unnamed with an empty instrument list |
| Performer.Performer.GetInstrument | abjad/tools/instrumenttools/Performer.py:174-179 | a listed instrument whose name or short name matches up to case, or None when no listed instrument matches |
| Performer.Performer.SetName | abjad/tools/instrumenttools/Performer.py:702-704 | the name becomes the given string, or None |
| Performer.Performer.SetInstruments | abjad/tools/instrumenttools/Performer.py:585-596 | None empties the list, a list replaces its contents, and anything else raises TypeError and leaves the list unchanged |
| Performer.Performer.LikelyInstruments | abjad/tools/instrumenttools/Performer.py:647-652 | exactly the catalogue classes that list the performer's name, and none for an unnamed performer or a name no class lists |
| Performer.Performer.MostLikelyInstrument | abjad/tools/instrumenttools/Performer.py:674-678 | the result is the first primary instrument among the likely ones, and None exactly when none of them is primary |
| Performer.NewPerformer | abjad/tools/instrumenttools/Performer.py:85-89 | a fresh performer with the given name and instruments (none for None); a bad instruments argument raises TypeError, and only that |
| Performer.FirstPrimary | abjad/tools/instrumenttools/Performer.py:674-678 | the first primary class of a list: every class before it is not primary; None exactly when none is primary |
| Performer.SortByClassName | abjad/tools/instrumenttools/Performer.py:534 | the sort by lower-cased class name is ordered and a permutation of its input |
| Performer.FiledMembers | abjad/tools/instrumenttools/Performer.py:526-532 | the classes filed under a name are exactly the catalogue classes that list it |
| Performer.AddNameContents | abjad/tools/instrumenttools/Performer.py:529-532 | one filing keeps the keys distinct, adds the name as a new key if needed, and appends the class to that name's list only |
| Performer.AddClassContents | abjad/tools/instrumenttools/Performer.py:528-532 | filing a class under all its names keeps the keys distinct and extends each name's list by the class |
| Performer.GatherContents | abjad/tools/instrumenttools/Performer.py:525-532 | the gathered dictionary files every class under each name it lists, in catalogue order, and has no other keys |
| Performer.PerformerDictionaryContents | abjad/tools/instrumenttools/Performer.py:524-535 | the dictionary's keys are exactly the performer names some class lists, and each list holds exactly the classes that list that name, sorted by lower-cased class name |
| Performer.MakePerformerNameInstrumentDictionary | abjad/tools/instrumenttools/Performer.py:524-535 | the gathering loops and the sorting loop build the dictionary specified above |
| Performer.FileClass | abjad/tools/instrumenttools/Performer.py:528-532 | the inner loop files one class under each of its performer names |
| Performer.SortEachList | abjad/tools/instrumenttools/Performer.py:533-534 | the sorting loop sorts every list of the dictionary and changes nothing else |
| Performer.FlutistExample | abjad/tools/instrumenttools/Performer.py:174-179 | a flutist doubling on piccolo: `PICCOLO` finds the piccolo, `fl.` the flute, `xyl.` nothing; two instruments make a doubling performer |
| ProlatedToWritten.AssignableDouble | trunk/abjad/tools/durtools/prolated_to_written_not_greater_than.py:56 | doubling a numerator does not change whether it can be written with one note head |
| ProlatedToWritten.AssignableForm | trunk/abjad/tools/durtools/prolated_to_written_not_greater_than.py:56 | every `2^a - 2^b` with `a > b` (a note value with dots) is assignable |
| ProlatedToWritten.AllOnesAssignable | trunk/abjad/tools/durtools/prolated_to_written_not_greater_than.py:56 | `2^a - 1` is assignable |
| ProlatedToWritten.AssignableIsForm | trunk/abjad/tools/durtools/prolated_to_written_not_greater_than.py:56 | only the numbers `2^a - 2^b` with `a > b` are assignable |
| ProlatedToWritten.LeastPowerOfTwoAtLeast | trunk/abjad/tools/durtools/prolated_to_written_not_greater_than.py:50-51 | the widened denominator is a power of two at least the input's denominator, and half of it is below it |
| ProlatedToWritten.LeastPowerOfTwoIsLeast | trunk/abjad/tools/durtools/prolated_to_written_not_greater_than.py:50-51 | no power of two at least the denominator is smaller than the widened denominator |
| ProlatedToWritten.GreatestAssignableAtMost | trunk/abjad/tools/durtools/prolated_to_written_not_greater_than.py:53-58 | counting down from `k` stops at an assignable numerator between 1 and `k`, and no larger one up to `k` is assignable |
| ProlatedToWritten.ProlatedToWrittenNotGreaterThan | trunk/abjad/tools/durtools/prolated_to_written_not_greater_than.py:50-60 | the loop as written returns an assignable duration over the widened denominator that is not greater than the input, and no larger numerator up to the input's own is assignable |
| ProlatedToWritten.AssignableInputUnchanged | trunk/abjad/tools/durtools/prolated_to_written_not_greater_than.py:50-60 | an assignable input over a power-of-two denominator comes back unchanged |
| ProlatedToWritten.DocTable | trunk/abjad/tools/durtools/prolated_to_written_not_greater_than.py:14-34 | the sixteen rows of the documentation's table, from 1/16 to 16/16 |
| ProlatedToWritten.AsWrittenSkipsCandidates | trunk/abjad/tools/durtools/prolated_to_written_not_greater_than.py:39-41 | 5/12 gives 1/4 although the assignable 3/8 is not greater than 5/12, and 3/8 itself gives 3/8, so a larger input gives a smaller output |
| ProlatedToWritten.CorrectedStart | trunk/abjad/tools/durtools/prolated_to_written_not_greater_than.py:53 | the corrected search starts at a numerator at least the input's own |
| ProlatedToWritten.CorrectedProlatedToWritten | trunk/abjad/tools/durtools/prolated_to_written_not_greater_than.py:50-60 | the corrected loop returns the greatest assignable multiple of one over the widened denominator that does not exceed the input |
| ProlatedToWritten.CorrectedBounds | trunk/abjad/tools/durtools/prolated_to_written_not_greater_than.py:10-12 | the corrected result is assignable and never greater than the input |
| ProlatedToWritten.CorrectedMonotone | trunk/abjad/tools/durtools/prolated_to_written_not_greater_than.py:39-41 | among inputs that widen to the same denominator, the corrected result grows with the input |
| ProlatedToWritten.CorrectedExample | trunk/abjad/tools/durtools/prolated_to_written_not_greater_than.py:50-60 | with the corrected start, 5/12 gives 3/8 |
| ProlatedToWritten.CorrectedNotMonotoneAcrossDenominators | trunk/abjad/tools/durtools/prolated_to_written_not_greater_than.py:39-41 | even corrected, 3/16 gives 3/16 while the larger 1/5 gives 1/8, so monotonicity holds only within one widened denominator |
| QTarget.PyIndex | trunk/abjad/tools/quantizationtools/QTarget/QTarget.py:83 | Python's `xs[i]` selects an element exactly for `-n <= i < n`, counting negative indices from the end |
| QTarget.BisectRightSplits | trunk/abjad/tools/quantizationtools/QTarget/QTarget.py:82 | on a sorted list the bisection point separates the elements not above `x` from those above it |
| QTarget.SortedOffsets | trunk/abjad/tools/quantizationtools/QTarget/QTarget.py:80 | the sorted beat offsets are ascending and a permutation of the beats' offsets |
| QTarget.BeatIndex | trunk/abjad/tools/quantizationtools/QTarget/QTarget.py:82-83 | the bucket index always selects a beat |
| QTarget.BeatIndexRule | trunk/abjad/tools/quantizationtools/QTarget/QTarget.py:82-83 | an event at or after the first beat goes to the beat with the greatest offset not after it; an event before every beat wraps to the last beat |
| QTarget.BucketRuleOnOrderedBeats | trunk/abjad/tools/quantizationtools/QTarget/QTarget.py:80-83 | the same rule stated on the beats themselves when they are in offset order |
| QTarget.EventsToBucket | trunk/abjad/tools/quantizationtools/QTarget/QTarget.py:72-76 | the terminal event is dropped exactly when the one before it is silent; fewer than two events raise IndexError |
| QTarget.Bucketed | trunk/abjad/tools/quantizationtools/QTarget/QTarget.py:81-84 | bucketing keeps the number of beats |
| QTarget.BucketedContents | trunk/abjad/tools/quantizationtools/QTarget/QTarget.py:78-84 | each beat receives exactly its own events, in input order, and nothing else about it changes |
| QTarget.TruthyJobs | trunk/abjad/tools/quantizationtools/QTarget/QTarget.py:88 | the filter keeps every job that exists and only those |
| QTarget.MakeJobs | trunk/abjad/tools/quantizationtools/QTarget/QTarget.py:87 | one job per beat, made from the beat and its index |
| QTarget.Stored | trunk/abjad/tools/quantizationtools/QTarget/QTarget.py:90-91 | storing keeps the number of beats |
| QTarget.StoredContents | trunk/abjad/tools/quantizationtools/QTarget/QTarget.py:90-91 | storing replaces only the grids of each beat, with those of the last job that named it |
| QTarget.Shifted | trunk/abjad/tools/quantizationtools/QTarget/QTarget.py:200-206 | the shift keeps the number of beats |
| QTarget.ShiftedKeepsProxies | trunk/abjad/tools/quantizationtools/QTarget/QTarget.py:200-206 | the downbeat shift moves proxies between grids and neither loses nor duplicates one |
| QTarget.ShiftedPrefixKeepsProxies | trunk/abjad/tools/quantizationtools/QTarget/QTarget.py:201-206 | the first `k` shifted beats hold the proxies of the first `k` original beats, less those that moved on to beat `k` |
| QTarget.ShiftedMovableAt | trunk/abjad/tools/quantizationtools/QTarget/QTarget.py:203-206 | a shifted beat has given away its next-downbeat proxies and received those of the beat before it |
| QTarget.MoveDownbeatProxies | trunk/abjad/tools/quantizationtools/QTarget/QTarget.py:203-206 | the pop-and-append loop empties the first grid's next downbeat and appends its proxies, last first, to the second grid's first leaf |
| QTarget.Target.constructor | trunk/abjad/tools/quantizationtools/QTarget/QTarget.py:35-38 | the items are stored sorted by offset and as a permutation of the given ones |
| QTarget.Target.Bucket | trunk/abjad/tools/quantizationtools/QTarget/QTarget.py:78-84 | the beats become the bucketed beats; the items are unchanged |
| QTarget.Target.StoreJobResults | trunk/abjad/tools/quantizationtools/QTarget/QTarget.py:90-91 | the beats become the stored beats, and the call fails exactly when some job id is out of range |
| QTarget.Target.ShiftDownbeatProxies | trunk/abjad/tools/quantizationtools/QTarget/QTarget.py:200-206 | the beats become the shifted beats |
| QTarget.Target.Call | trunk/abjad/tools/quantizationtools/QTarget/QTarget.py:72-103 | fewer than two events raise IndexError with the beats unchanged; otherwise the call fails exactly when a handled job's id is not a beat index, and then the beats hold the grids stored before that job; a successful call leaves the beats bucketed, stored from the handled jobs, chosen by the heuristic and shifted |
| QTarget.DurationCoversItems | trunk/abjad/tools/quantizationtools/QTarget/QTarget.py:119-122 | with non-negative item durations the target's duration reaches at least every item's offset |
| QTarget.NotateOne | trunk/abjad/tools/quantizationtools/QTarget/QTarget.py:176-198 | an annotated leaf becomes a rest, a chord or a note by the number of pitches the grace handler gives, keeps its written duration and tempo mark and gets a tie of its own; an unannotated leaf is unchanged |
| QTarget.CopyLeafTypeAndPitches | trunk/abjad/tools/quantizationtools/QTarget/QTarget.py:134-148 | the replacement leaf has the first leaf's kind and pitches and the second leaf's written duration and tempo mark |
| QTarget.NotateLeavesPairwise | trunk/abjad/tools/quantizationtools/QTarget/QTarget.py:155-174 | IndexError exactly for an empty voice or an untied first leaf followed by an unannotated one; otherwise every leaf is notated in place, keeping its written duration, and each unannotated leaf copies its predecessor and joins its tie |
| QTarget.UnannotatedRunJoinsTie | trunk/abjad/tools/quantizationtools/QTarget/QTarget.py:164-172 | an unannotated stretch after a notated leaf is one tie of that leaf's kind |
| QuantizationJob.TreeSizeUnfold | abjad/tools/quantizationtools/QuantizationJob.py:120-127 | the tree grown below a grid is the grid plus the trees below its children |
| QuantizationJob.WeightStep | abjad/tools/quantizationtools/QuantizationJob.py:120-127 | each pass of the loop lowers the size of what remains to be recorded by exactly one, so the loop ends |
| QuantizationJob.WalkAppend | abjad/tools/quantizationtools/QuantizationJob.py:120-127 | last in, first out: everything reachable from later pushes is recorded before anything from earlier ones |
| QuantizationJob.WalkPreorder | abjad/tools/quantizationtools/QuantizationJob.py:120-127 | depth first: a grid is recorded first, then the subtree of its last child, then that of the child before it |
| QuantizationJob.WalkRecordsEveryPush | abjad/tools/quantizationtools/QuantizationJob.py:117-127 | every grid pushed on the worklist, initial or returned by the search tree, is recorded exactly once |
| QuantizationJob.WalkLength | abjad/tools/quantizationtools/QuantizationJob.py:117-127 | the loop records exactly as many grids as the tree below the worklist holds |
| QuantizationJob.Job.constructor | abjad/tools/quantizationtools/QuantizationJob.py:70-99 | the id and proxies are stored; a false search tree becomes the default one and absent grids an empty list |
| QuantizationJob.Job.Call | abjad/tools/quantizationtools/QuantizationJob.py:103-133 | the grids become the depth-first record of the expansion starting from the grid fitted to the proxies, which comes first; id, search tree and proxies are unchanged |
| QuantizationJob.Job.Equal | abjad/tools/quantizationtools/QuantizationJob.py:135-148 | equal jobs have equal proxies and grids, and nothing that is not a job is equal to one |
| SlotContributions.SlotNamed | abjad/tools/systemtools/SlotContributions.py:11-22 | a name maps to a kind exactly when that kind's attribute has the name; a name matching none of the ten attributes yields nothing |
| SlotContributions.SlotNamedInverse | abjad/tools/systemtools/SlotContributions.py:11-22 | the ten attribute names are distinct, so each kind is found again from its own name |
| SlotContributions.Sorted | abjad/tools/systemtools/SlotContributions.py:156 | Python's `sorted` on format strings returns the same strings (as a multiset) in code point order |
| SlotContributions.SlotContributions.constructor | abjad/tools/systemtools/SlotContributions.py:26-36 | a new object holds ten empty lists and is not yet immutable |
| SlotContributions.SlotContributions.Get | abjad/tools/systemtools/SlotContributions.py:148-151 | `get` succeeds exactly for the ten attribute names and returns that kind's list; any other name raises AttributeError |
| SlotContributions.SlotContributions.Alphabetize | abjad/tools/systemtools/SlotContributions.py:143-146 | the indicators become their sorted permutation; after make_immutable the tuple has no `sort`, so AttributeError and nothing changes |
| SlotContributions.SlotContributions.MakeImmutable | abjad/tools/systemtools/SlotContributions.py:153-165 | the articulations are sorted, every other list keeps its order, and the object becomes immutable |
| SlotContributions.SlotContributions.Update | abjad/tools/systemtools/SlotContributions.py:167-180 | each of the ten lists becomes itself followed by the other object's list of the same kind (both read before the call, so self-update doubles); a frozen object raises AttributeError and is unchanged |
| SlotContributions.SlotContributions.ExtendMarks | abjad/tools/systemtools/SlotContributions.py:171-175 | the first five lists are extended by the other object's matching lists as they were before the call |
| SlotContributions.SlotContributions.ExtendSpanners | abjad/tools/systemtools/SlotContributions.py:176-180 | the last five lists are extended by the other object's matching lists as they were before the call |
| SlotContributions.HasContributionsIff | abjad/tools/systemtools/SlotContributions.py:80-97 | `has_contributions` holds exactly when at least one of the ten lists is non-empty |
| SlotContributions.SortedIdempotent | abjad/tools/systemtools/SlotContributions.py:143-146 | sorting an already sorted list changes nothing, so alphabetize twice equals alphabetize once |
| StemTremolo.Str | trunk/abjad/tools/marktools/StemTremolo/StemTremolo.py:54-55 | the format is a colon followed by at least one digit of the flags |
| StemTremolo.Tremolo.constructor | trunk/abjad/tools/marktools/StemTremolo/StemTremolo.py:28-34 | a tremolo built from power-of-two flags holds those flags in the right format slot |
| StemTremolo.Tremolo.New | trunk/abjad/tools/marktools/StemTremolo/StemTremolo.py:28-36 | construction fails with ValueError exactly when there is not exactly one argument or its flags are not a nonnegative power of two; otherwise a tremolo argument's flags are copied, and any other argument becomes the flags |
| StemTremolo.Tremolo.SetTremoloFlags | trunk/abjad/tools/marktools/StemTremolo/StemTremolo.py:95-98 | the setter raises ValueError exactly for values that are not powers of two, and then leaves the flags as they were; the slot is untouched and validity is kept |
| StemTremolo.Tremolo.Copy | trunk/abjad/tools/marktools/StemTremolo/StemTremolo.py:40-44 | a copy is a new tremolo with the same flags and format slot; it compares equal and formats alike |
| StemTremolo.StrExample | trunk/abjad/tools/marktools/StemTremolo/StemTremolo.py:66-75 | `StemTremolo(16)` formats as `:16`, and 32 flags as `:32` |
| StemTremolo.StrInjective | trunk/abjad/tools/marktools/StemTremolo/StemTremolo.py:48-55 | two nonnegative flag counts format alike exactly when they are equal, so format equality agrees with `==` |
| StemTremolo.AcceptedFlagsPositive | trunk/abjad/tools/marktools/StemTremolo/StemTremolo.py:95-98 | every value the setter accepts is at least 1 |
| TieSpecifier.New | abjad/tools/rhythmmakertools/TieSpecifier.py:39-66 | each flag other than None becomes its truth value, the tie-across argument is kept as given, and construction raises exactly when both strip_ties and tie_consecutive_notes are true |
| TieSpecifier.Detached | abjad/tools/rhythmmakertools/TieSpecifier.py:138-139 | detaching ties from a range of leaves never adds a tie |
| TieSpecifier.DetachedMembers | abjad/tools/rhythmmakertools/TieSpecifier.py:138-139 | after detaching, a tie remains exactly when it was there and touches no leaf of the range |
| TieSpecifier.TieOf | abjad/tools/rhythmmakertools/TieSpecifier.py:133-134 | the tie found for a leaf is one of the ties and holds the leaf; none is found only when no tie holds it |
| TieSpecifier.LogicalTie | abjad/tools/rhythmmakertools/TieSpecifier.py:133-134 | a leaf's logical tie is a range of leaves containing that leaf |
| TieSpecifier.AcrossStepAttaches | abjad/tools/rhythmmakertools/TieSpecifier.py:126-146 | at a boundary between two pitched leaves in different logical ties, the step detaches every tie of the combined logical tie and attaches one tie over all of it, in the specifier's style |
| TieSpecifier.AcrossStepValid | abjad/tools/rhythmmakertools/TieSpecifier.py:119-149 | one pair step keeps the ties inside the leaves, on notes and chords only, and disjoint |
| TieSpecifier.AcrossStepJoins | abjad/tools/rhythmmakertools/TieSpecifier.py:126-146 | after the pair step the last leaf of one division and the first of the next share a tie whenever both are notes or chords |
| TieSpecifier.AcrossStepKeepsJoined | abjad/tools/rhythmmakertools/TieSpecifier.py:133-146 | leaves that shared a tie before a pair step still share one after it: the step only merges ties |
| TieSpecifier.AcrossUpTo | abjad/tools/rhythmmakertools/TieSpecifier.py:117-149 | tying across the first n division pairs keeps the ties valid |
| TieSpecifier.AcrossJoinsMatchedBoundaries | abjad/tools/rhythmmakertools/TieSpecifier.py:117-149 | after the pairs are processed, every boundary the pattern matches whose two leaves are pitched is held by one tie |
| TieSpecifier.CloseRun | abjad/tools/rhythmmakertools/TieSpecifier.py:166-177 | closing a maximal run of one pitched class and pitches keeps the invariant that the ties so far are exactly the run ties before that point |
| TieSpecifier.CloseRunAppends | abjad/tools/rhythmmakertools/TieSpecifier.py:171-177 | a run of two or more equal notes or chords becomes one non-Messiaen tie appended after the earlier runs |
| TieSpecifier.RunTiesValid | abjad/tools/rhythmmakertools/TieSpecifier.py:166-177 | the ties of the consecutive-note step are valid: inside the leaves, on notes and chords, and disjoint |
| TieSpecifier.RunTiesArePure | abjad/tools/rhythmmakertools/TieSpecifier.py:166-177 | no leaf of a consecutive-note tie is a rest, and every leaf of it has the pitches of its first leaf |
| TieSpecifier.Divisions.constructor | abjad/tools/rhythmmakertools/TieSpecifier.py:70-73 | the divisions hold the given leaves, division starts and ties, and the ties are valid |
| TieSpecifier.Divisions.DetachTie | abjad/tools/rhythmmakertools/TieSpecifier.py:100 | detaching from one leaf removes exactly the ties that hold it, and the ties stay valid |
| TieSpecifier.Divisions.DetachAll | abjad/tools/rhythmmakertools/TieSpecifier.py:98-100 | detaching from every leaf leaves no tie at all |
| TieSpecifier.Divisions.StripTies | abjad/tools/rhythmmakertools/TieSpecifier.py:95-100 | with strip_ties set every tie is gone; otherwise nothing changes |
| TieSpecifier.Divisions.TieAcrossDivisions | abjad/tools/rhythmmakertools/TieSpecifier.py:102-149 | nothing changes when tie_across_divisions is false, or strip_ties or tie_consecutive_notes is set; otherwise the ties are those of processing every division pair in order, and every matched pitched boundary is tied over |
| TieSpecifier.Divisions.TieConsecutiveNotes | abjad/tools/rhythmmakertools/TieSpecifier.py:151-177 | with tie_consecutive_notes set the ties become exactly the maximal runs of two or more leaves of one pitched class and the same pitches, none Messiaen-style; otherwise nothing changes |
| TieSpecifier.Divisions.ConfigureMessiaenStyleTies | abjad/tools/rhythmmakertools/TieSpecifier.py:82-93 | with use_messiaen_style_ties set every tie keeps its leaves and becomes Messiaen-style; otherwise nothing changes |
| TieSpecifier.Divisions.Call | abjad/tools/rhythmmakertools/TieSpecifier.py:70-78 | the four steps in source order: stripping leaves no tie, tying consecutive notes leaves exactly the run ties and without the Messiaen flag none is Messiaen-style, the Messiaen flag restyles every tie, an active tie-across step leaves exactly the restyled ties of tying every matched pitched boundary, and with none of the first three active the ties are unchanged up to their style |
| TieSpecifier.MessiaenKeepsValid | abjad/tools/rhythmmakertools/TieSpecifier.py:82-93 | restyling ties keeps them valid |
| TieSpecifier.RangesKeptByStyle | abjad/tools/rhythmmakertools/TieSpecifier.py:92-93 | restyling changes no tie's leaves |
| TieSpecifier.SameTieKeptByStyle | abjad/tools/rhythmmakertools/TieSpecifier.py:92-93 | leaves that share a tie still share one after restyling |
| TieSpecifier.RunTiesKeptByStyle | abjad/tools/rhythmmakertools/TieSpecifier.py:92-93 | restyled run ties are still exactly the run ties |
| TieSpecifier.Divisions.DetachRange | abjad/tools/rhythmmakertools/TieSpecifier.py:138-139 | detaching leaf by leaf over a range leaves exactly the ties that touch none of its leaves, and the ties stay valid |
| TieSpecifier.Divisions.TieAcrossPair | abjad/tools/rhythmmakertools/TieSpecifier.py:122-149 | one pair of the loop leaves the ties the pair step describes, and they stay valid |
| TimeSignatureMark.InitPair | trunk/abjad/tools/contexttools/TimeSignatureMark/TimeSignatureMark.py:58-68 | the positional arguments give a numerator and denominator exactly when they are another mark, a duration, a tuple of at least two items or two integers; a shorter tuple gives none |
| TimeSignatureMark.DurationOf | trunk/abjad/tools/contexttools/TimeSignatureMark/TimeSignatureMark.py:202-212 | the duration exists exactly when the denominator is non-zero, and then it times the denominator is the numerator |
| TimeSignatureMark.Compare | trunk/abjad/tools/contexttools/TimeSignatureMark/TimeSignatureMark.py:128-150 | the comparisons raise TypeError for any operand that is not a time signature mark |
| TimeSignatureMark.Mark.constructor | trunk/abjad/tools/contexttools/TimeSignatureMark/TimeSignatureMark.py:71-98 | a mark holds the given numerator, denominator, partial and suppression flag, and its is_nonbinary flag agrees with the denominator |
| TimeSignatureMark.Mark.New | trunk/abjad/tools/contexttools/TimeSignatureMark/TimeSignatureMark.py:58-98 | construction raises IndexError for a tuple of fewer than two items, and otherwise TypeError exactly for invalid positional arguments, a partial that is not a duration, or a suppress that is not a bool; a built mark holds the numerator and denominator the arguments give, the partial as a duration and the flag |
| TimeSignatureMark.Mark.SetNumerator | trunk/abjad/tools/contexttools/TimeSignatureMark/TimeSignatureMark.py:266-268 | the numerator setter changes only the numerator, and is_nonbinary stays correct since it depends on the denominator only |
| TimeSignatureMark.Mark.SetDenominator | trunk/abjad/tools/contexttools/TimeSignatureMark/TimeSignatureMark.py:197-199 | the denominator setter as written changes only the denominator; is_nonbinary keeps its old value |
| TimeSignatureMark.Mark.SetDenominatorRefreshing | trunk/abjad/tools/contexttools/TimeSignatureMark/TimeSignatureMark.py:197-199 | the corrected setter changes the denominator and recomputes is_nonbinary, so the flag agrees with the new denominator |
| TimeSignatureMark.Mark.SetPartial | trunk/abjad/tools/contexttools/TimeSignatureMark/TimeSignatureMark.py:301-303 | the partial setter stores a duration, another number or None, and changes nothing else |
| TimeSignatureMark.Mark.Copy | trunk/abjad/tools/contexttools/TimeSignatureMark/TimeSignatureMark.py:113-115 | copying re-runs the constructor: it raises TypeError exactly when the stored partial is a number other than a duration; otherwise a new mark with the same numerator, denominator and partial, its nonbinary flag recomputed even when the original's is stale, and the suppression flag not carried over |
| TimeSignatureMark.NumberPartialCopyExample | trunk/abjad/tools/contexttools/TimeSignatureMark/TimeSignatureMark.py:301-303 | a mark whose partial was set to a plain number fails to copy with TypeError, while one whose partial is a duration copies with that partial |
| TimeSignatureMark.StaleNonbinaryExample | trunk/abjad/tools/contexttools/TimeSignatureMark/TimeSignatureMark.py:197-199 | setting the denominator of 3/8 to 12 leaves is_nonbinary false though 12 is not a power of two; the corrected setter gives true |
| TimeSignatureMark.EqualityIsLiteral | trunk/abjad/tools/contexttools/TimeSignatureMark/TimeSignatureMark.py:120-126 | equality compares numerator and denominator literally: 4/8 and 2/4 have the same duration but are not equal, and a mark equals its own tuple |
| TimeSignatureMark.EqualsProperties | trunk/abjad/tools/contexttools/TimeSignatureMark/TimeSignatureMark.py:120-126 | equality is reflexive and symmetric, comparing with a tuple is comparing with the mark of the same pair, and anything else is unequal |
| TimeSignatureMark.CompareIsDurationOrder | trunk/abjad/tools/contexttools/TimeSignatureMark/TimeSignatureMark.py:128-150 | between marks with non-zero denominators the four comparisons are the total order of their durations: less is greater reversed, less-or-equal is less or equal duration, greater-or-equal is not less, and trichotomy holds |
| TimeSignatureMark.CompareRejectsOthers | trunk/abjad/tools/contexttools/TimeSignatureMark/TimeSignatureMark.py:128-150 | comparing with a tuple or any other non-mark raises TypeError |
| TimeSignatureMark.FormatCases | trunk/abjad/tools/contexttools/TimeSignatureMark/TimeSignatureMark.py:214-234 | a suppressed mark formats to an empty list, one without a partial to the time command alone, and one with a partial to the time command followed by the partial directive |
| TimeSignatureMark.StrExample | trunk/abjad/tools/contexttools/TimeSignatureMark/TimeSignatureMark.py:166-167 | `str` of 3/8 is `3/8` and its format is `\time 3/8` |
| TimeSignatureMark.StrInjective | trunk/abjad/tools/contexttools/TimeSignatureMark/TimeSignatureMark.py:166-167 | two marks with nonnegative terms print alike only when numerator and denominator are both equal |
| TimespanRelations.EvaluateAll | abjad/tools/timespantools/timespan_2_happens_during_timespan_1.py:51-54 | a compound inequality joined by `and` holds exactly when each of its inequalities holds |
| TimespanRelations.HappensDuringIsContainment | abjad/tools/timespantools/timespan_2_happens_during_timespan_1.py:51-65 | with both timespans given and no hold the result is the boolean start1 <= start2 and stop2 <= stop1; otherwise it is the relation itself, holding the given timespans and the two inequalities joined by `and` |
| TimespanRelations.HappensDuringExample | abjad/tools/timespantools/timespan_2_happens_during_timespan_1.py:39-45 | [7/8, 8/8) happens during [1/2, 3/2), and not the other way round |
| TimespanRelations.HappensDuringReflexive | abjad/tools/timespantools/timespan_2_happens_during_timespan_1.py:51-54 | every timespan happens during itself |
| TimespanRelations.HappensDuringTransitive | abjad/tools/timespantools/timespan_2_happens_during_timespan_1.py:51-54 | happening during is transitive |
| TimespanRelations.StopsWhenStartsIsAbutment | abjad/tools/timespantools/timespan_2_stops_when_timespan_1_starts.py:35-48 | with both timespans given and no hold the result is the boolean stop2 == start1; otherwise the relation, holding the given timespans and its one inequality, is returned |
| TimespanRelations.OffsetWhenStartsIsEquality | abjad/tools/timespantools/offset_happens_when_timespan_starts.py:35-47 | with both operands given and no hold the result is the boolean offset == start; otherwise the relation, holding the given timespan and offset and its one inequality, is returned |
| TimespanRelations.OffsetWhenStartsUnique | abjad/tools/timespantools/offset_happens_when_timespan_starts.py:35-37 | at most one offset happens when a given timespan starts |
| TimespanRelations.OffsetWhenStartsExists | abjad/tools/timespantools/offset_happens_when_timespan_starts.py:35-37 | the timespan's own start offset happens when it starts |

## Left out

- I/O, the clock and other unseen collaborators are parameters of the model: the date-time and version token text of `LilyPondFile`, the formats of blocks and items, the Scheme formatter, and the duration-string formatter of `TimeSignatureMark.format`.
- `QTarget`:
  - `_notate` is abstract in the source and is left out, as are the attack-point optimizer and `attach_tempo_marks`.
  - The subclass's beats are a constructor input.
  - The grace handler, the job handler (and its parallelism), job creation and the heuristic are parameters.
  - The downbeat shift works on the heuristic's result; the source shifts `self.beats`, which the heuristic rewrites in place.
  - A bisect index of -1 wraps to the last beat, as Python's negative index does.
- `QuantizationJob`:
  - The search tree and `QGrid.fit_q_events` are parameters.
  - The grid is abstract, with a size measure that the search tree's children decrease.
  - The proxy type assertions are Dafny types.
- QuantizationJob.Job.Equal: its contract states only that an equal job exists and has the same proxies and grids; the id and search tree comparisons are in its body only.
- `MakePercussionNote`:
  - The tied-leaf constructors are a `split` parameter that preserves the sum of durations.
  - `duration_token_to_duration_pair` is not part of this model.
  - The docstring examples `(1, 4)` and `(1, 64)` are not stated as lemmas.
- `Component`:
  - Candidate gathering for `_get_effective` is an input list. This covers `_dependent_wrappers`, scope, `_update_now` and `with_grace_notes`.
  - Indicators are reduced to their classes.
  - The score tree is an arena keyed by component ids, with a ghost depth that makes parentage terminate.
  - `_splice` and `_remove_and_shrink_durated_parent_containers` are not modelled.
- `Markup`:
  - The string branch of the constructor (the LilyPond parser) is left out.
  - The normalisation of direction strings is left out.
  - Scheme conversions, formatting, `__str__`, `__illustrate__` and copying are left out.
  - `fontsize`, `filled_box`, `hspace` and `vspace` are left out, since they are float arithmetic.
  - Command equality is value equality, and ordering two commands gives `TypeError`.
- `LilyPondFile`:
  - The global staff size is an integer only.
  - `use_relative_includes` is a boolean.
  - The aliasing of `items or []` is not modelled.
  - `score[name]` returns the first context with that name, else `KeyError`.
  - `floating`, `rhythm`, `__format__`, `__repr__` and `__illustrate__` are left out, since they depend on unseen score makers and the wall clock.
- `CodeBlockSpecifier`: Python's `int()` on strings with whitespace or underscores is not modelled, nor are float `inf` and `nan`.
- `Performer`:
  - The catalogue that `_list_instruments` returns is an input.
  - Lower-casing is ASCII only.
  - Slice assignment of the instrument list is modelled as replacing the sequence, so the list keeps no identity.
  - `list_performer_names` is not modelled.
- `SlotContributions`: `get` knows only the ten contribution names; other attributes of the object are not modelled, and asking for one gives `AttributeError`.
- `TieSpecifier`:
  - `Pattern` and the `Tie` spanner are not part of this model's sources. A vector pattern matches pair `i` when entry `i % |v|` is true, and a boolean matches every pair.
  - The attachment test of a tie is "every leaf is a note or a chord".
  - `detach(Tie, leaf)` removes the whole tie that holds the leaf.
  - Empty divisions are excluded.
- `TimeSignatureMark`: `multiplier` (implied prolation) and `target_context` are left out, and so are `__call__`'s measure bookkeeping and `__repr__`.
- `Command`: `__lt__` is left out, since it uses timespan inequality tools that are not part of this model. The argument type assertions are Dafny types.
- `CountRatioPartSelector`:
  - The assertion on `SliceSelector` is not modelled.
  - The score specification lookup is not modelled.
  - `partition_sequence_by_ratio_of_lengths` is not part of this model; its partition is an input.
- `IntervalClass`: only integer interval numbers are modelled (no floats), and `from_pitch_carriers` is left out.
- `IsDurationPair`: any argument that is not a list or a tuple gives `False`, whereas another iterable of two could unpack in Python.
- `TimespanRelations`: the relation classes and `CompoundInequality` parsing are not part of this model. Each builder's inequality is given as data over named offsets, and the term `timespan.start` is read as the timespan's start offset.
- `OffsetCounter`: `__illustrate__` is left out (PostScript rendering).
- ProlatedToWritten.ProlatedToWrittenNotGreaterThan: requires a positive numerator. For a zero or negative duration the countdown at prolated_to_written_not_greater_than.py:55-57 never ends, because no numerator at or below zero is assignable, so those inputs are excluded rather than modelled as a loop that never ends; `ProlatedToWritten.CorrectedProlatedToWritten` has the same requirement.
- IsDurationPair.IsDurationPairIff: `Fraction(*arg)` is modelled only for integer items. A `Fraction` item (which `Fraction(Fraction(1, 2), 1)` accepts from Python 2.7 on), a float, a `Decimal` or a string is a `NonInteger` value and gives `False`.
- MakePercussionNote.MakePercussionNote: `max_note_duration` has no default here (the source defaults it to `(1, 8)`), and both the total and the maximum must be positive, because the tied-leaf construction is only described for positive durations.
- Common.SortBy: the stability of Python's sort (equal keys keep their input order) is not stated; the result is only proved ordered and a permutation of the input. This affects `Performer.SortByClassName`, the sorted candidates of `EffectiveMark` and `Component`, and the composition orderings.
- Command.EqualsIsFieldwise: there is one command class, so the asymmetry of `isinstance(expr, type(self))` at Command.py:42 is not modelled: a base command compared with a subclass instance compares values, while the subclass compared with the base command is unequal.

## Findings

| source | as written | input that shows it | evidently intended | confidence | as-written member | corrected member |
|---|---|---|---|---|---|---|
| trunk/abjad/tools/durtools/prolated_to_written_not_greater_than.py:53-58 | the search starts at the input's own numerator over the widened power-of-two denominator, so it skips larger candidates that are still not greater than the input | `5/12` gives `1/4`, although `3/8 <= 5/12` is assignable; `3/8` gives `3/8`, so a larger input gets a smaller result | the greatest assignable duration not greater than the input, monotone in the input (docstring lines 11 and 39-41); the search starts at the floor of the input times the widened denominator | not executed | ProlatedToWritten.AsWrittenSkipsCandidates | ProlatedToWritten.CorrectedProlatedToWritten |
| trunk/abjad/tools/contexttools/TimeSignatureMark/TimeSignatureMark.py:197-199 | the denominator setter does not recompute `_is_nonbinary`, which the constructor computes once (line 98) | `TimeSignatureMark(3, 8)` with its denominator set to `12` still reports `is_nonbinary == False` | `is_nonbinary` follows the current denominator | not executed | TimeSignatureMark.StaleNonbinaryExample | TimeSignatureMark.Mark.SetDenominatorRefreshing |

Even the corrected search is monotone only among inputs that widen to the same denominator: `3/16` gives `3/16`, while the larger `1/5` gives `1/8` (`ProlatedToWritten.CorrectedNotMonotoneAcrossDenominators`).
