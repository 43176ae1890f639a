# A verified model of the GEDCOM text pipeline of gedcom-parser

This project models the core of the Go repository `jochenboesmans/gedcom-parser`. The core is
the pipeline that reads GEDCOM files in the line notation, interprets them into a document of
individuals and families, repairs that document's cross references, and writes it back out in
the line notation. Each Go source file has its own Dafny module:

| Go file | Dafny module (file) |
|---|---|
| gedcom/line.go | `GedcomLine` (line.dfy): the tokenizer, as pure functions and as the memoising class `Line` |
| gedcom/date.go | `DateStructure` (date.dfy) |
| gedcom/name.go | `NameStructure` (name.dfy) |
| gedcom/event.go | `EventStructure` (event.dfy) |
| gedcom/sex.go | `SexStructure` (sex.dfy) |
| gedcom/interpret.go | `Interpret` (interpret.dfy), over the child-line scan of `ChildScan` (scope.dfy) |
| gedcom/gedcom.go | `Gedcom` (gedcom.dfy): the class `ConcurrencySafeGedcom`, its record interpreters, the whole-family integrity pass and the name decoding |
| gedcom/validate.go | `Validate` (validate.dfy) |
| gedcom/build.go | `Build` (build.dfy) |
| gedcom/serialize.go | `Serialize` (serialize.dfy) |
| parse/parse.go | `Parse` (parse.dfy): the record grouping of `ParseGedcom` and `WritableGedcom` |
| main.go | `MainWriter` (mainwriter.dfy): `writableGedcom` |
| util/util.go | `Util` (util.dfy) |
| util/stack.go | `StringStack` (stack.dfy) |

The document types (`Gedcom_Individual`, `Gedcom_Family` and the rest) are in `Document`
(document.dfy). The Go library calls the core relies on are modelled concretely:
`strconv.Atoi`, `%d` formatting, `strconv.QuoteToASCII` and `strconv.Unquote` are in `StrConv`
(strconv.dfy), and `strings.SplitN`, `Split`, `TrimSpace`, `ToUpper` and `TrimPrefix` are in
`Strings` (strings.dfy). `Wrappers` (wrappers.dfy) holds `Option` and `Result`, and `Seqs`
(seqs.dfy) holds small sequence lemmas.

The model follows the code as written, panics included, apart from the gaps listed under
"## Left out" (chiefly the panic of gedcom/line.go:49 on an empty second token). Several of the
code's behaviours differ from what the repository's tests expect, and the model proves what the
code does:

- The tokenizer returns every value wrapped by `QuoteToASCII`, with its surrounding quotes
  (gedcom/line.go:84,114). Every interpreter sees that quoted text. As a result a SEX value is
  never "M" or "F", a `_PRIM` value is never "Y" or "N", and a DATE value never yields a year or
  a day (`SexStructure.SexOfLineValueIsError`, `DateStructure.DateOfLineValue`,
  `Gedcom.IndividualOfFromText`).
- A date's year is read from the first piece of the value and its day from the third
  (gedcom/date.go:18-32). The tests expect the reverse.
- gedcom/interpret.go hands a position in `recordLines[1:]` to sub-scans that index
  `recordLines` (lines 29, 44, 48). Each name and event scan therefore starts at the NAME, BIRT
  or DEAT line itself and ends at once. Every event is empty and every name comes from its
  inline value alone (`Interpret.EventOfLevelOneLineIsEmpty`,
  `Interpret.NameOfLevelOneLineIsInline`).
- The family loop of gedcom/interpret.go starts at the record's first line and stops at a
  level below 1 (lines 165-172). A family record that opens with a level-0 line becomes a
  family with only its id (`Interpret.FamilyOfLevelZeroIsBare`).
- `ParseGedcom` never dispatches the record it is still collecting when the input ends
  (parse/parse.go:76-96). That is the TRLR record in a well-formed file.
- gedcom/build.go computes the DATE line of an event and then writes a second BIRT or DEAT line
  in its place (lines 44-46). No DATE line is ever written.
- gedcom/interpret.go and gedcom/gedcom.go both define `InterpretRecord`,
  `interpretIndividualRecord`, `interpretName` and the other record interpreters, against two
  different `Line` APIs. gedcom/gedcom.go dereferences the pointers that gedcom/line.go returns.
  gedcom/interpret.go expects a value and an error from `Level()` and `Tag()`, as
  parse/parse.go:84 does. The two cannot compile together. `Interpret` models the
  gedcom/interpret.go version and `Gedcom` the gedcom/gedcom.go one. `Parse.ParseGedcom` uses
  `Interpret`, as parse/parse.go does.
- The version in gedcom/gedcom.go dereferences nil accessor results, which makes Go panic. Its
  functions return `None` where Go panics: on a nil result, a NAME value without '/' and an
  unreadable line in a sub-scan. The line.go:49 panic is the exception. A panic in the writers
  (an event without a date) is an `ok` result of false.
- Both versions read `nameParts[1]` of a NAME value split at '/' (gedcom/gedcom.go:95,
  gedcom/interpret.go:102). A value without '/' panics. Since every value is quoted, that
  happens for every raw NAME value without '/' (`Gedcom.NameOf`,
  `Interpret.SlashlessNamePanics`).
- `InterpretRecord` of gedcom/interpret.go returns before `waitGroup.Done` when the record's
  first tag cannot be read (lines 11-14). The `waitGroup.Wait` of parse/parse.go:96 then never
  returns (`Interpret.SignalsDone`, `Parse.Outcome`).
- `removeFamiliesAt` removes the collected positions in increasing order from a list that
  shrinks at each removal (gedcom/gedcom.go:233-244). It panics once a position is past the
  end. In a file whose records open at level 0, every family dangles. So `ParseGedcom` panics
  on every such file with two FAM records or more (`Parse.TwoFamiliesPanic`).

## Model

| member | source | states |
|---|---|---|
| `GedcomLine.ToUint8` | gedcom/line.go:34 | the `uint8` conversion keeps values below 256 and is congruent to its input modulo 256 |
| `GedcomLine.LevelOf` | gedcom/line.go:28-35 | a level is present only when the first token starts like an integer (sign or digit) |
| `GedcomLine.XRefIdOf` | gedcom/line.go:47-51 | a cross-reference id is a single token that starts with '@' |
| `GedcomLine.TagOf` | gedcom/line.go:60-68 | a tag is one token, and it is not '@'-led when the line has no cross-reference id |
| `GedcomLine.ValueOf` | gedcom/line.go:84-116 | the value is always present, at least two characters, quoted at both ends and pure ASCII |
| `GedcomLine.ValueOfUnquotes` | gedcom/line.go:93-116 | unquoting the value gives back exactly the text after the tag ("" when nothing follows) |
| `GedcomLine.LevelOfComposed` | gedcom/line.go:28-35 | a line that opens with a decimal level n and a space reads back level n mod 256 |
| `GedcomLine.TokenizeCompose` | gedcom/line.go:24-116 | a line composed of level, optional '@' id, tag and optional value tokenizes back to those parts (level mod 256, value "" when absent) |
| `GedcomLine.FieldsWithXRefAndValue` | gedcom/line.go:60-79 | on an '@' line the tag is the third token and the value is the fourth SplitN part |
| `GedcomLine.FieldsWithValue` | gedcom/line.go:60-79 | on a plain line the tag is the second token and the value is everything after it, rejoined with its spaces |
| `GedcomLine.NoTagWithoutTagToken` | gedcom/line.go:60-68 | a one-token line, or an '@' line with no third token, has no tag and an empty value |
| `GedcomLine.SecondPartIndexPanicsOnBlankToken` | gedcom/line.go:49 | "1 " and "0  HEAD" have an empty second token, whose first byte the source indexes unguarded |
| `GedcomLine.Line.constructor` | gedcom/line.go:18-22 | a new line holds the text and no memo |
| `GedcomLine.Line.Level` | gedcom/line.go:24-42 | returns `LevelOf` of the text, through the memo, and leaves that result in the memo |
| `GedcomLine.Line.XRefID` | gedcom/line.go:43-54 | returns `XRefIdOf` of the text and memoises it |
| `GedcomLine.Line.Tag` | gedcom/line.go:56-87 | returns `TagOf`; on a first call it fills both the tag and the value memo, otherwise it changes neither |
| `GedcomLine.Line.Value` | gedcom/line.go:89-117 | returns `ValueOf`; on a first call it fills both memos with the same results `Tag` would, so the order of the calls does not matter |
| `DateStructure.ToUint32` | gedcom/date.go:20 | the `uint32` conversion keeps values below 2^32 and is congruent modulo 2^32 |
| `DateStructure.NumberOrZero` | gedcom/date.go:19-21 | a piece's number when `Atoi` reads one (cut to 32 bits), 0 otherwise |
| `DateStructure.MonthOrZero` | gedcom/date.go:23-27 | the month is in 0..12, nonzero iff the upper-cased piece is one of the twelve abbreviations, and then that month's abbreviation is the piece |
| `DateStructure.InterpretDateStructure` | gedcom/date.go:15-34 | never fails, and the month is at most 12 |
| `DateStructure.ToGedcomIndividualDate` | gedcom/date.go:36-42 | copies year, month and day unchanged |
| `DateStructure.YearIsFirstPiece` | gedcom/date.go:16-22 | the year is read from the first piece, whatever follows |
| `DateStructure.OnePieceHasNoMonthOrDay` | gedcom/date.go:23-32 | one piece gives month 0 and day 0 |
| `DateStructure.TwoPiecesHaveNoDay` | gedcom/date.go:23-32 | two pieces give day 0 |
| `DateStructure.ThreePieces` | gedcom/date.go:16-32 | the third piece is the whole remainder, and the day is read from it |
| `DateStructure.MonthPieceOnlyAffectsMonth` | gedcom/date.go:23-27 | replacing the month piece changes neither year nor day |
| `DateStructure.AbbreviationsAreUpperCase` | util/util.go:3-16 | every abbreviation is three upper-case letters and its own upper case |
| `DateStructure.NoMonthWithoutLetters` | gedcom/date.go:24 | a piece that does not begin and end with a letter is never a month |
| `DateStructure.DayMonthYearIsReadLeftAnchored` | gedcom/date.go:18-32 | "D MON Y" is read with year D and day Y |
| `DateStructure.MonthYearIsLost` | gedcom/date.go:18-27 | "MON Y" is read as year 0 and month 0 |
| `DateStructure.YearOnlyIsRead` | gedcom/date.go:18-22 | a bare year is read as that year |
| `DateStructure.DateOfQuotedValue` | gedcom/date.go:16-32 | a quoted value gives year 0 and day 0, and a month only when it has three pieces |
| `DateStructure.DateOfLineValue` | gedcom/date.go:15-34 | the same holds for every value the tokenizer returns |
| `SexStructure.InterpretSexStructure` | gedcom/sex.go:8-14 | succeeds exactly for "M" and "F", with "MALE" or "FEMALE"; otherwise "" and the error naming the value |
| `SexStructure.SexLetterRoundTrip` | gedcom/sex.go:9 | the letter of MALE or FEMALE reads back as that gender |
| `SexStructure.SexIsCaseSensitive` | gedcom/sex.go:9 | "m" and "f" are errors |
| `SexStructure.SexOfLineValueIsError` | gedcom/sex.go:9-12 | every value the tokenizer returns is an error, since it is quoted |
| `NameStructure.InlineName` | gedcom/name.go:21-27 | the inline name is never primary |
| `NameStructure.NameOf` | gedcom/name.go:15-51 | an error, with the root-level message, exactly when the first line's level is unreadable |
| `NameStructure.InterpretNameStructure` | gedcom/name.go:15-51 | the loop with its break and continue returns `NameOf` |
| `NameStructure.NameStepIgnoresFollowing` | gedcom/name.go:41-48 | a child line's effect depends on that line alone |
| `NameStructure.InlineGivenAndSurname` | gedcom/name.go:22-27 | "given/surname/..." gives both trimmed parts |
| `NameStructure.InlineSurnameOnly` | gedcom/name.go:22-27 | "/surname/..." gives just the trimmed surname |
| `NameStructure.InlineGivenOnly` | gedcom/name.go:22-27 | a value without '/' is the trimmed given name and an empty surname |
| `NameStructure.InlineNeither` | gedcom/name.go:22-27 | "" and "//..." give an empty name |
| `NameStructure.NameScopeEnds` | gedcom/name.go:33-35 | nothing after the first readable line at or below the root level counts |
| `NameStructure.NameSkipsUnreadable` | gedcom/name.go:29-40 | a line with an unreadable level or tag is passed over and does not end the scan |
| `NameStructure.LastGivenNameWins` | gedcom/name.go:42-43 | the last GIVN child sets the given name |
| `NameStructure.LastSurnameWins` | gedcom/name.go:44-45 | the last SURN child sets the surname |
| `NameStructure.OtherTagsKeepParts` | gedcom/name.go:41-48 | without GIVN or SURN children the inline parts stay |
| `NameStructure.PrimaryStepKeepsFalse` | gedcom/name.go:46-47 | a child line never sets the flag, because quoted values are never "Y" |
| `NameStructure.PrimaryStaysFalse` | gedcom/name.go:28-49 | the whole scan keeps an unset flag unset |
| `NameStructure.NameIsNeverPrimary` | gedcom/name.go:15-51 | a name read from text is never primary |
| `EventStructure.EventOf` | gedcom/event.go:14-46 | an error exactly when the root level is unreadable |
| `EventStructure.InterpretEventStructure` | gedcom/event.go:14-46 | the loop returns `EventOf` |
| `EventStructure.ApplyEventLine` | gedcom/event.go:34-43 | one child line's switch is the step `EventOf` uses |
| `EventStructure.ToGedcomIndividualEvent` | gedcom/event.go:48-56 | copies place and flag, and the converted date, which is always set |
| `EventStructure.EventStepIgnoresFollowing` | gedcom/event.go:34-43 | a child line's effect depends on that line alone |
| `EventStructure.EventScopeEnds` | gedcom/event.go:26-28 | nothing after the first readable line at or below the root level counts |
| `EventStructure.EventSkipsUnreadable` | gedcom/event.go:22-33 | unreadable levels and tags are passed over |
| `EventStructure.LastDateWins` | gedcom/event.go:35-36 | the last DATE child sets the date, read by `InterpretDateStructure` |
| `EventStructure.LastPlaceWins` | gedcom/event.go:37-38 | the last PLAC child sets the place to its value verbatim |
| `EventStructure.PrimaryOnlyForExactValues` | gedcom/event.go:39-42 | a value other than "Y" or "N" leaves the flag as it was |
| `EventStructure.EventPrimaryStays` | gedcom/event.go:20-44 | over any child lines the flag never changes, since every value is quoted |
| `EventStructure.EventIsNeverPrimary` | gedcom/event.go:14-46 | an event read from text is never primary |
| `EventStructure.OtherTagsKeepEvent` | gedcom/event.go:20-45 | without DATE, PLAC or _PRIM children the event stays empty |
| `ChildScan.ScanEndsAt` | gedcom/name.go:33-35 | a scan ends at the first line that ends the scope |
| `ChildScan.ScanSkips` | gedcom/name.go:29-40 | a line that neither ends the scope nor is visited has no effect |
| `ChildScan.ScanSplits` | gedcom/event.go:21-33 | before the end of the scope, scanning two runs is scanning one after the other |
| `Interpret.EventLineStep` | gedcom/interpret.go:78-89 | only DATE, PLAC and _PRIM lines change the event |
| `Interpret.InterpretIndividualEvent` | gedcom/interpret.go:59-98 | adds the event read from `recordLines[i+1:]` to the births or the deaths by kind |
| `Interpret.NameLineStep` | gedcom/interpret.go:119-126 | GIVN and SURN set their parts to the value, and no other tag but _PRIM changes the name |
| `Interpret.InterpretName` | gedcom/interpret.go:100-133 | panics (`ok` false) exactly when the NAME value has no '/'; otherwise adds the name read from the inline value and the scan, unless both parts are empty |
| `Interpret.InterpretSexLine` | gedcom/interpret.go:135-139 | sets the gender only for "M" or "F" and otherwise keeps it |
| `Interpret.SlashlessNamePanics` | gedcom/interpret.go:102-104 | a visited NAME line of the record whose raw value has no '/' makes the record panic |
| `Interpret.InterpretIndividualRecord` | gedcom/interpret.go:24-57 | panics without change exactly when a NAME line of the record has no '/' in its value; otherwise appends exactly one individual, the one read from the record |
| `Interpret.InterpretFamilyRecord` | gedcom/interpret.go:162-190 | appends exactly one family, the one read from the record |
| `Interpret.RecordOf` | gedcom/interpret.go:10-22 | panics exactly for an INDI record with a NAME value without '/'; otherwise an INDI record adds an individual, a FAM record a family, and any other record nothing |
| `Interpret.InterpretRecord` | gedcom/interpret.go:10-22 | panics as `RecordOf` says and then changes nothing; otherwise changes the document's lists exactly by what `RecordOf` adds; signals the wait group exactly when the first tag is readable |
| `Interpret.EventOfLevelOneLineIsEmpty` | gedcom/interpret.go:65-72 | a scan from the dispatching level-1 line stops at once and yields the empty event |
| `Interpret.NameOfLevelOneLineIsInline` | gedcom/interpret.go:100-113 | a name scan from the dispatching line yields only the inline parts, not primary |
| `Interpret.IndividualLineStepCounts` | gedcom/interpret.go:42-51 | each BIRT (DEAT) line appends one birth (death) event and keeps the id |
| `Interpret.EventsCounted` | gedcom/interpret.go:29-52 | the events grow by exactly the number of visited BIRT and DEAT lines, in order |
| `Interpret.IndividualOfCounts` | gedcom/interpret.go:24-55 | the individual's id is the first line's id ("" when absent), and its events count the BIRT and DEAT lines |
| `Interpret.LevelOneEventsStayEmpty` | gedcom/interpret.go:44-50 | when every BIRT and DEAT line is at level 1, every event is empty |
| `Interpret.IndividualEndsAtLevelZero` | gedcom/interpret.go:34-35 | nothing after the first level-0 line counts |
| `Interpret.SubScansEndAtLevelZero` | gedcom/interpret.go:65-72 | event and name sub-scans also end at that line |
| `Interpret.IndividualOfFromText` | gedcom/interpret.go:24-57 | an individual read from text has no gender, no primary name and only events without year or day |
| `Interpret.IndividualScanFromText` | gedcom/interpret.go:29-52 | scanning text keeps an individual read from text |
| `Interpret.EventScanFromText` | gedcom/interpret.go:65-90 | an event scan over text yields no year, no day and no primary flag |
| `Interpret.NamePrimaryStaysFalse` | gedcom/interpret.go:106-127 | the name scan never sets the primary flag |
| `Document.NewIndividual` | gedcom/interpret.go:26-28 | a new individual has the id and nothing else |
| `Document.EmptyEvent` | gedcom/interpret.go:60-64 | a new event has no date, no place and no primary flag |
| `Interpret.FamilyOfLevelZeroIsBare` | gedcom/interpret.go:165-172 | a family whose first line reads as level 0 has only its id |
| `Interpret.FamilyScanAppendsChildren` | gedcom/interpret.go:178-185 | each CHIL line appends one child in order, and without HUSB or WIFE lines the parents stay |
| `Gedcom.ParseDate` | gedcom/gedcom.go:141-160 | the same date as `interpretDateStructure` followed by `toGedcomIndividualDate` |
| `Gedcom.InlineParts` | gedcom/gedcom.go:95-98 | a value without '/' is the given name and an empty surname (the guarded reading) |
| `Gedcom.NameWithoutSlashPanics` | gedcom/gedcom.go:95-97 | every NAME line whose text has no '/' reaches the unguarded `nameParts[1]` |
| `Gedcom.NameOf` | gedcom/gedcom.go:92-128 | a value without '/' panics; a name read has the first two pieces of the split as given name and surname |
| `Gedcom.NamePrimaryOfValue` | gedcom/gedcom.go:121 | the value of a line never sets a name's flag |
| `Gedcom.WithName` | gedcom/gedcom.go:124-126 | a name is appended exactly when one of its parts is non-empty |
| `Gedcom.WithEvent` | gedcom/gedcom.go:84-89 | the event is appended to the births or deaths by kind, and nothing else changes |
| `Gedcom.SexStep` | gedcom/gedcom.go:130-139 | "M" and "F" set the gender, anything else keeps it |
| `Gedcom.FamilyStep` | gedcom/gedcom.go:169-185 | HUSB and WIFE overwrite (last wins), CHIL appends, other tags keep the family |
| `Gedcom.EventScanFromText` | gedcom/gedcom.go:66-82 | an event read from text is not primary and has no year or day |
| `Gedcom.EventStepFromText` | gedcom/gedcom.go:70-81 | one child line keeps an event read from text |
| `Gedcom.IndividualStepFromText` | gedcom/gedcom.go:41-52 | one record line keeps the id and an individual read from text |
| `Gedcom.FamilyStepFromText` | gedcom/gedcom.go:169-185 | one record line keeps the id, the earlier children and references read from text |
| `Gedcom.PrimaryScanStaysFalse` | gedcom/gedcom.go:116-123 | the _PRIM scan over text never sets the flag |
| `Gedcom.IndividualScanFromText` | gedcom/gedcom.go:37-53 | the individual scan keeps the id and yields an individual read from text |
| `Gedcom.IndividualOfFromText` | gedcom/gedcom.go:32-58 | a successful individual has the first line's id and is read from text |
| `Gedcom.FamilyScanFromText` | gedcom/gedcom.go:165-186 | the family scan keeps the id and the earlier children, and every reference is quoted or empty |
| `Gedcom.FamilyOfFromText` | gedcom/gedcom.go:162-190 | a successful family has the first line's id and references read from text |
| `Gedcom.FamilyFromTextNeverResolves` | gedcom/gedcom.go:208-228 | a family read from text never resolves against individuals whose ids start with '@' |
| `Gedcom.IndexById` | gedcom/gedcom.go:200-206 | the keys are exactly the individuals' ids, each mapped to an individual with that id |
| `Gedcom.IndexByIdLastWins` | gedcom/gedcom.go:202-204 | an id maps to the last individual that carries it |
| `Gedcom.InvalidFamilyIndices` | gedcom/gedcom.go:211-228 | the collected positions are in range and strictly increasing |
| `Gedcom.InvalidFamilyIndicesStep` | gedcom/gedcom.go:213-227 | each family adds its own position, at most once, exactly when it does not resolve |
| `Gedcom.InvalidFamilyIndicesExact` | gedcom/gedcom.go:211-228 | a position is collected iff its mother, father or some child is not a key |
| `Gedcom.WithoutFamily` | gedcom/gedcom.go:241-244 | one family shorter, the last family moved into the position, the other positions unchanged and the removed family the only one gone |
| `Gedcom.Picked` | gedcom/gedcom.go:233-239 | the families at the given positions, in order |
| `Gedcom.RemoveFamiliesInOrderTakesPicked` | gedcom/gedcom.go:233-239 | when the unadjusted removal stays in bounds, it removes exactly the picked families |
| `Gedcom.Kept` | gedcom/gedcom.go:208-228 | only resolving families are kept |
| `Gedcom.InvalidAndKeptPartition` | gedcom/gedcom.go:208-228 | the collected families and the kept families together are all the families |
| `Gedcom.RemoveInvalidFamiliesKeepsResolving` | gedcom/gedcom.go:208-239 | when the removal as written does not panic, the families left are exactly the resolving ones |
| `Gedcom.TwoDanglingFamiliesPanic` | gedcom/gedcom.go:233-244 | two dangling families collect positions 0 and 1, and removing position 1 from the shrunken list is out of range |
| `Gedcom.Positions` | gedcom/gedcom.go:213-228 | n consecutive positions from a start |
| `Gedcom.ConsecutiveRemoval` | gedcom/gedcom.go:233-244 | removing as many consecutive positions as there are families gets through only for no family, or one at position 0 |
| `Gedcom.AllDanglingCollected` | gedcom/gedcom.go:213-228 | when no family resolves, every position is collected |
| `Gedcom.AllDanglingRemovable` | gedcom/gedcom.go:208-244 | when no family resolves, the pass as written gets through exactly when there is at most one family |
| `Gedcom.RemoveFamiliesFromTheEnd` | gedcom/gedcom.go:233-239 | removing the increasing positions from the highest down shortens the list by their number |
| `Gedcom.RemoveFamiliesFromTheEndTakesPicked` | gedcom/gedcom.go:233-244 | that removal takes out exactly the picked families |
| `Gedcom.EarlierPositionsUntouched` | gedcom/gedcom.go:241-244 | removing the highest position leaves every lower collected position holding its family |
| `Gedcom.RemoveFromTheEndKeepsResolving` | gedcom/gedcom.go:208-239 | the families left are exactly the resolving ones, as a multiset |
| `Gedcom.DecodeName` | gedcom/gedcom.go:250-260 | keeps the flag, and the only error is the unquote error |
| `Gedcom.DecodeNameMeaning` | gedcom/gedcom.go:250-260 | succeeds iff both parts unquote, and then both are replaced by their unquoting; a failing given name leaves the name as it was; once the given name unquotes it is replaced, and the surname is its original or its unquoting |
| `Gedcom.DecodeNames` | gedcom/gedcom.go:249-261 | keeps the number of names |
| `Gedcom.DecodeIndividuals` | gedcom/gedcom.go:247-264 | keeps the number of individuals |
| `Gedcom.DecodeIndividualsKeepsAllButNames` | gedcom/gedcom.go:247-264 | only names change, and their number stays |
| `Gedcom.DecodeQuotedNames` | gedcom/gedcom.go:250-260 | names quoted by `QuoteToASCII` decode back to the originals without error |
| `Gedcom.DecodeNamesSucceeds` | gedcom/gedcom.go:249-261 | without error every part is replaced by its unquoting |
| `Gedcom.DecodeNamesStopsAtFirstFailure` | gedcom/gedcom.go:250-253 | after the first failing given name nothing more is decoded, and earlier names stay decoded |
| `Gedcom.DecodeIndividualsAfterFailure` | gedcom/gedcom.go:247-264 | after the first failure the later individuals are untouched |
| `Gedcom.DecodeNamesAfterFailure` | gedcom/gedcom.go:251-258 | once a prefix of the names has failed, the rest are left as they were and the error stays |
| `Gedcom.DecodeQuotedName` | gedcom/gedcom.go:250-260 | one quoted name decodes back to the original without error |
| `Gedcom.WithAdded` | gedcom/gedcom.go:22-30 | an added individual or family is appended to its own list, and nothing else changes |
| `Gedcom.ConcurrencySafeGedcom.New` | gedcom/gedcom.go:15-20 | a new document is empty |
| `Gedcom.ConcurrencySafeGedcom.InterpretRecord` | gedcom/gedcom.go:22-30 | succeeds unless Go panics, and then adds what the record reads as; on a panic nothing changes |
| `Gedcom.ConcurrencySafeGedcom.InterpretIndividualRecord` | gedcom/gedcom.go:32-58 | appends the individual read from the record, or panics without change |
| `Gedcom.ConcurrencySafeGedcom.InterpretIndividualEvent` | gedcom/gedcom.go:60-90 | adds the event scanned from the following lines, by kind |
| `Gedcom.ConcurrencySafeGedcom.InterpretName` | gedcom/gedcom.go:92-128 | panics (`ok` false) exactly when `NameOf` does, on a value without '/' or an unreadable line below; otherwise adds that name |
| `Gedcom.ConcurrencySafeGedcom.InterpretSexLine` | gedcom/gedcom.go:130-139 | applies `SexStep` to the line's value |
| `Gedcom.ConcurrencySafeGedcom.InterpretFamilyRecord` | gedcom/gedcom.go:162-190 | appends the family read from the record, or panics without change |
| `Gedcom.ConcurrencySafeGedcom.IndividualsByIds` | gedcom/gedcom.go:200-206 | the loop builds `IndexById` of the individuals |
| `Gedcom.ConcurrencySafeGedcom.FamilyIndicesToRemove` | gedcom/gedcom.go:211-228 | the labelled loop collects `InvalidFamilyIndices` |
| `Gedcom.ConcurrencySafeGedcom.RemoveFamiliesAt` | gedcom/gedcom.go:233-244 | removes the positions in the order given, each by `withoutFamily` on the shrunken list, and panics (`ok` false) exactly when the removal as written reaches a position past the end |
| `Gedcom.ConcurrencySafeGedcom.RemoveFamiliesHighestFirst` | gedcom/gedcom.go:233-244 | the corrected removal: the positions from the highest down, each by `withoutFamily` |
| `Gedcom.ConcurrencySafeGedcom.RemoveInvalidFamilies` | gedcom/gedcom.go:208-231 | removes the collected positions as written; unless that panics, the families left are, as a multiset, exactly those whose references all resolve |
| `Gedcom.ConcurrencySafeGedcom.RemoveInvalidFamiliesHighestFirst` | gedcom/gedcom.go:208-239 | the corrected pass never panics and leaves, as a multiset, exactly the families whose references all resolve |
| `Gedcom.ConcurrencySafeGedcom.DecodeNameOf` | gedcom/gedcom.go:250-260 | decodes one name as `DecodeName` says |
| `Gedcom.ConcurrencySafeGedcom.DecodeNamesOf` | gedcom/gedcom.go:249-261 | decodes one individual's names in order, stopping at the first error |
| `Gedcom.ConcurrencySafeGedcom.DecodeUnicodeFields` | gedcom/gedcom.go:247-264 | rewrites the individuals as `DecodeIndividuals` says and returns its error |
| `Validate.Contains` | gedcom/validate.go:5-12 | true iff some submitter has the id |
| `Validate.ValidateHeaderXRefIntegrity` | gedcom/validate.go:14-28 | fails (Go's nil dereference) exactly when there is no header; otherwise returns the message `HeaderMessage` chooses; changes nothing |
| `Validate.HeaderMessageExact` | gedcom/validate.go:15-27 | a message is logged iff the reference is non-empty and no submitter has it |
| `Validate.Cleared` | gedcom/validate.go:35-44 | the result is the reference or "", and the reference itself when it is an id |
| `Validate.ClearedChildren` | gedcom/validate.go:45-51 | each child reference is cleared on its own, and the number of children stays |
| `Validate.ClearedFamilies` | gedcom/validate.go:31-53 | one cleared family per family, in order |
| `Validate.ValidateFamilyRecordXRefIdIntegrity` | gedcom/validate.go:30-53 | the in-place loop leaves exactly the cleared families and touches nothing else |
| `Validate.ClearChildren` | gedcom/validate.go:45-51 | the inner loop leaves exactly the cleared children |
| `Validate.Validate` | gedcom/validate.go:55-58 | with a header: its message, and the families cleared against the individuals' ids; without one the header check fails and the families stay |
| `Validate.ClearedFamiliesKeepShape` | gedcom/validate.go:31-53 | count, order, ids and child counts stay; every reference is its original or "", and its original when it was an id |
| `Validate.ClearedFamily` | gedcom/validate.go:34-51 | the family keeps its id and its number of children |
| `Validate.ClearedFamilyIdempotent` | gedcom/validate.go:35-51 | clearing a cleared family changes nothing |
| `Validate.ResolvingFamilyUnchanged` | gedcom/validate.go:35-51 | a family that resolves is left exactly as it was |
| `Validate.ClearedFamilyResolves` | gedcom/validate.go:35-51 | once "" is an id, every cleared family resolves |
| `Validate.ClearedFamiliesIdempotent` | gedcom/validate.go:31-53 | a second pass changes nothing |
| `Build.MonthAbbr` | gedcom/build.go:38 | the table's abbreviation for 1..12 and "" otherwise |
| `Build.DateLine` | gedcom/build.go:36-43 | a DATE line is chosen exactly when the year is nonzero |
| `Build.NamesLines` | gedcom/build.go:24-30 | two lines per name |
| `Build.EventLines` | gedcom/build.go:32-55 | an event opens with its BIRT/DEAT line and closes with its _PRIM line |
| `Build.SexLines` | gedcom/build.go:84-87 | a SEX line only for MALE or FEMALE, with its letter |
| `Build.ChildLines` | gedcom/build.go:103-106 | one CHIL line per child id, in order, empty ids included |
| `Build.FamilyLines` | gedcom/build.go:90-106 | a family opens with its FAM line |
| `Build.WriteNames` | gedcom/build.go:24-30 | writes the NAME and _PRIM lines of every name |
| `Build.WriteEvents` | gedcom/build.go:32-82 | succeeds iff every event has a date, and then writes their lines |
| `Build.WriteEvent` | gedcom/build.go:32-55 | writes one event's lines, doubling its first line when a DATE line was chosen |
| `Build.WriteIndividual` | gedcom/build.go:20-87 | succeeds iff every event of the individual has a date, and then writes its INDI, NAME, event and SEX lines |
| `Build.WriteFamily` | gedcom/build.go:90-106 | writes one family's lines |
| `Build.WriteFamilies` | gedcom/build.go:90-107 | writes every family's lines, in order |
| `Build.WriteIndividuals` | gedcom/build.go:20-88 | writes every individual's lines in order, unless an event has no date |
| `Build.WritableGedcom` | gedcom/build.go:10-113 | decodes the names first, ignoring the error, and writes exactly the document's lines unless an event has no date |
| `Build.EventLinesHaveNoDate` | gedcom/build.go:44-46 | an event's lines never include a DATE line |
| `Build.IndividualsLinesHaveNoDate` | gedcom/build.go:20-88 | no individual's lines include a DATE line |
| `Build.FamiliesLinesHaveNoDate` | gedcom/build.go:90-107 | no family's lines include a DATE line |
| `Build.GedcomLinesShape` | gedcom/build.go:17-110 | the output opens with "0 HEAD", closes with "0 TRLR" and has no DATE line |
| `Build.EventsLinesHaveNoDate` | gedcom/build.go:32-82 | no event list's lines include a DATE line |
| `Build.NamesLinesHaveNoDate` | gedcom/build.go:24-30 | no name's lines include a DATE line |
| `Build.IndividualLinesHaveNoDate` | gedcom/build.go:20-87 | no line of one individual is a DATE line |
| `Build.SexLinesHaveNoDate` | gedcom/build.go:84-87 | the SEX line is not a DATE line |
| `Build.FamilyLinesHaveNoDate` | gedcom/build.go:90-106 | no line of one family is a DATE line |
| `Build.YearCount` | gedcom/build.go:36-46 | counts the events whose DATE line would be chosen |
| `Build.TagLinesCounted` | gedcom/build.go:32-55 | the BIRT (DEAT) line appears once per event plus once per event with a nonzero year |
| `Build.EventTagCounted` | gedcom/build.go:44-46 | one event writes its tag line once, twice when a DATE line was chosen |
| `Build.InlinePartsOfWrittenName` | gedcom/build.go:25 | the written "given/surname/" reads back to its two parts |
| `Build.NameLineReadsBack` | gedcom/build.go:25 | a written NAME line tokenizes to level 1, tag NAME and the same two parts |
| `Build.ReadBackOfDayMonthYear` | gedcom/build.go:38 | the "D MON Y" text is read back with day and year swapped |
| `Build.DateLineReadBackSwapsDayAndYear` | gedcom/build.go:37-38 | a full date's DATE text reads back with day and year swapped |
| `Serialize.Put` | gedcom/serialize.go:28-36 | a rendered line is appended and counted once; a failed rendering changes nothing |
| `Serialize.PutError` | gedcom/serialize.go:29-32 | an error exactly when the rendering fails |
| `Serialize.LineWriter.constructor` | gedcom/serialize.go:40-41 | a new writer has an empty buffer and a zero counter |
| `Serialize.LineWriter.WriteLine` | gedcom/serialize.go:28-36 | the writer's state moves as `Put` says |
| `Serialize.LineWriter.WriteString` | gedcom/serialize.go:114 | appends the string to the buffer |
| `Serialize.NameOut` | gedcom/serialize.go:65-110 | only appends, and a NAME line that fails to render skips the whole name |
| `Serialize.NamesOut` | gedcom/serialize.go:65-110 | only appends |
| `Serialize.IndividualOut` | gedcom/serialize.go:53-167 | panics exactly when the INDI line renders and some event has no date; a failed INDI line skips the individual |
| `Serialize.IndividualsOut` | gedcom/serialize.go:53-168 | only appends |
| `Serialize.WriteName` | gedcom/serialize.go:65-110 | writes one name as `NameOut` says |
| `Serialize.WriteNames` | gedcom/serialize.go:65-110 | writes the names as `NamesOut` says |
| `Serialize.WriteEvent` | gedcom/serialize.go:112-135 | writes the same event lines as gedcom/build.go |
| `Serialize.WriteEvents` | gedcom/serialize.go:112-162 | succeeds iff every event has a date |
| `Serialize.WriteDirect` | gedcom/serialize.go:112-167 | writes events and SEX straight into the buffer |
| `Serialize.WriteIndividual` | gedcom/serialize.go:53-167 | writes one individual as `IndividualOut` says |
| `Serialize.ToSerializedGedcom` | gedcom/serialize.go:38-193 | returns the outcome of writing header, individuals, families and trailer |
| `Serialize.IndividualsOutPanics` | gedcom/serialize.go:53-168 | panics iff some individual's INDI line renders and one of its events has no date |
| `Serialize.OnlyTheHeaderFails` | gedcom/serialize.go:48-51 | the result is an error iff the header fails to render, with the line-0 message |
| `Serialize.IndividualOutRendered` | gedcom/serialize.go:59-167 | once the INDI line renders, the individual writes its names and then its event and SEX lines, or panics when undated |
| `Serialize.NilDateStops` | gedcom/serialize.go:112-162 | once an individual panics, the whole write panics |
| `Serialize.NamesLineCount` | gedcom/serialize.go:65-110 | the names write between two and four lines each |
| `Serialize.NameCounted` | gedcom/serialize.go:34 | when every line renders, a name counts exactly the lines it writes |
| `Serialize.SerializePanicsExactly` | gedcom/serialize.go:53-168 | a panic iff the header renders and some individual panics |
| `Serialize.WrittenShape` | gedcom/serialize.go:170-192 | the output opens with the rendered header and closes with the families' lines and TRLR |
| `Serialize.NameLineCount` | gedcom/serialize.go:77-109 | a name writes between two and four lines |
| `Serialize.NamesCounted` | gedcom/serialize.go:34 | when every line renders, the counter grows by exactly the lines the names write |
| `Serialize.IndividualCounted` | gedcom/serialize.go:34 | when every line renders, an individual counts its INDI line and its name lines |
| `Serialize.UnrenderedIndividualSkipped` | gedcom/serialize.go:59-63 | an individual whose INDI line fails leaves the output as it was |
| `Serialize.EventsLinesHaveNoDate` | gedcom/serialize.go:116-126 | no DATE line is written here either |
| `Parse.Cleaned` | parse/parse.go:77-82 | only the first line loses a leading byte order mark, and the others are kept |
| `Parse.Grouped` | parse/parse.go:76-94 | the records collected are non-empty, and something is pending once a line was read |
| `Parse.GroupedIsGrouping` | parse/parse.go:76-94 | the records and then the pending lines rejoin to the input, no line inside a piece opens a record, and every record after the first, and the pending one after any record, opens with an opening line |
| `Parse.GroupingIsUnique` | parse/parse.go:85-92 | only one split of the lines has that shape |
| `Parse.RecordsAreTheGrouping` | parse/parse.go:76-94 | a split has that shape iff it is the split the loop makes |
| `Parse.Ext` | parse/parse.go:100 | the extension is "" or a final '.'-led part of the path with no '/' or further '.' |
| `Parse.OutputFor` | parse/parse.go:100-107 | JSON iff ".json", protobuf iff ".protobuf", and the error message otherwise |
| `Parse.InterpretedSnoc` | parse/parse.go:87-91 | dispatching one more record adds what that record reads as, or panics when it or an earlier one does; every record signals the wait group when the earlier ones and the new one do |
| `Parse.InterpretedPanics` | parse/parse.go:83-96 | the interpretation panics exactly when the interpreter of some record panics |
| `Parse.InterpretedLast` | parse/parse.go:83-96 | the records up to the last panic, or the last one does |
| `Parse.SomeRecordPanicsLast` | parse/parse.go:83-96 | some record panics iff one before the last does or the last one does |
| `Parse.InterpretLine` | parse/parse.go:83-92 | a line whose level reads as 0 closes a non-empty pending record and dispatches it, starting a new one; any other line joins the pending record; the document stays what the dispatched records read as, and the panic and wait-group flags follow them |
| `Parse.InterpretLines` | parse/parse.go:76-94 | panics exactly when a dispatched record's interpreter does; otherwise the document holds what the dispatched records read as, and the wait group is fully signalled exactly when each record signals it |
| `Parse.ParseGedcom` | parse/parse.go:66-108 | ends as `ParseOutcome` says: a panic of an interpreter or of the removal, a wait that never returns, or the output format chosen by extension; when it finishes, the individuals of the dispatched records and the families left by the removal as written, which are exactly the resolving ones as a multiset |
| `Parse.WritableGedcom` | parse/parse.go:156-259 | writes exactly what gedcom/build.go writes |
| `Parse.TrailerIsPending` | parse/parse.go:92-96 | the closing TRLR line is never dispatched |
| `Parse.InterpretedFamiliesBare` | parse/parse.go:87-91 | families from records that open at level 0 carry no references |
| `Parse.NoFamilyResolves` | parse/parse.go:87-98 | in a file whose first line reads as level 0, no family resolves unless some individual has id "" |
| `Parse.NoFamilySurvives` | parse/parse.go:96-98 | unless some individual has id "", no family is kept |
| `Parse.TwoFamiliesPanic` | parse/parse.go:96-98 | such a file, once past its interpreters, ends in a panic exactly when it holds two families or more |
| `MainWriter.GenderLetter` | main.go:122-126 | "M" for MALE, "F" for FEMALE, "" for any other gender |
| `MainWriter.NameLines` | main.go:117-120 | one NAME line per name, in order |
| `MainWriter.WritableGedcom` | main.go:107-156 | the string is the document's lines joined in order |
| `MainWriter.WriteIndividual` | main.go:113-128 | appends the INDI line, the NAME lines and the SEX line |
| `MainWriter.WriteNames` | main.go:117-120 | appends one NAME line per name |
| `MainWriter.WriteFamily` | main.go:130-147 | appends the family's lines as gedcom/build.go writes them |
| `MainWriter.WriteParents` | main.go:131-141 | appends the FAM line and HUSB and WIFE when set |
| `MainWriter.WriteChildren` | main.go:143-146 | appends one CHIL line per child |
| `MainWriter.ConcatAppend` | main.go:108-150 | joining two runs of lines joins their strings |
| `MainWriter.TextFrame` | main.go:110-150 | the text opens with "0 HEAD" and closes with "0 TRLR" |
| `MainWriter.OnlyLevelsZeroAndOne` | main.go:107-156 | every line is at level 0 or 1, so no _PRIM, DATE or PLAC line is written |
| `MainWriter.FamilyLineShape` | main.go:130-147 | a family's first line is at level 0 and every later one is a HUSB, WIFE or CHIL line |
| `MainWriter.LinesCounted` | main.go:107-156 | exactly one SEX line per individual and one NAME line per name |
| `MainWriter.CountedInside` | main.go:110-150 | the HEAD and TRLR lines add no SEX or NAME line |
| `MainWriter.IndividualsCounted` | main.go:113-128 | the individuals write one SEX line each and one NAME line per name |
| `MainWriter.IndividualCounted` | main.go:113-128 | one individual writes one SEX line and one NAME line per name |
| `MainWriter.NameLinesCounted` | main.go:117-120 | the NAME lines are one per name and none is a SEX line |
| `MainWriter.FamiliesUncounted` | main.go:130-147 | the families write no SEX or NAME line |
| `MainWriter.SexLineTagged` | main.go:126 | the SEX line is tagged SEX and not NAME |
| `MainWriter.IndividualsAtLevelZeroOrOne` | main.go:113-128 | every individual line is at level 0 or 1 |
| `MainWriter.FamiliesAtLevelZeroOrOne` | main.go:130-147 | every family line is at level 0 or 1 |
| `MainWriter.UnknownGenderBlankSex` | main.go:126 | any other gender writes "1 SEX " with no letter |
| `MainWriter.AgreesWithBuildOnBareIndividual` | main.go:113-128 | an individual with no names or events and a known gender is written as gedcom/build.go writes it |
| `Util.Invert` | util/util.go:34-54 | every value becomes a key and maps to a key carrying it; for an injective map the result has the same size and is its inverse |
| `Util.InverseUnique` | util/util.go:34-54 | the inverse of a map is unique, so the iteration order does not matter |
| `Util.MonthTableShape` | util/util.go:3-16 | the keys are exactly 1..12, with distinct values |
| `Util.MonthTablesInverse` | util/util.go:18 | the abbreviation table is the inverse of the month table |
| `Util.MonthsRoundTrip` | util/util.go:18 | a month's abbreviation maps back to the month |
| `Util.AbbreviationsRoundTrip` | util/util.go:18 | an abbreviation's month maps back to the abbreviation |
| `Util.InitMonthIntByAbbr` | util/util.go:18 | inverting the month table builds the abbreviation table |
| `Util.InitPrimaryBoolByValue` | util/util.go:25 | the primary table is exactly {"Y": true, "N": false} |
| `Util.InitGenderFullByLetter` | util/util.go:32 | the gender table is exactly {"M": "MALE", "F": "FEMALE"} |
| `Util.LongKeysNotPrimary` | util/util.go:20-25 | no key of two characters or more is in the primary table |
| `StringStack.Stack.New` | util/stack.go:13-15 | a new stack is empty |
| `StringStack.Stack.Push` | util/stack.go:17-22 | the value goes on top, and the elements below stay |
| `StringStack.Stack.Pop` | util/stack.go:24-36 | on an empty stack "" and the error, with no change; otherwise the top element, removed alone |
| `StringStack.PushThenPop` | util/stack.go:17-36 | push then pop returns the value and restores the stack |
| `StrConv.Atoi` | gedcom/line.go:29 | a number is read only from text that starts with a sign or a digit and ends with a digit, and fits 64 bits |
| `StrConv.AtoiOfFormatNat` | gedcom/build.go:42 | decimal text written by `%d` reads back as its number |
| `StrConv.QuoteToASCII` | gedcom/line.go:84 | the quoted text opens and closes with '"' and is printable ASCII |
| `StrConv.FormatNat` | gedcom/build.go:38 | `%d` of a natural number is all decimal digits |
| `StrConv.DecimalValueOfFormatNat` | gedcom/build.go:38 | those digits denote the number |
| `StrConv.Hex` | gedcom/line.go:84 | a hexadecimal escape has exactly its width of lower-case hex digits |
| `StrConv.ParseHexOfHex` | gedcom/line.go:84 | reading the hex digits back gives the value |
| `StrConv.EscapeRune` | gedcom/line.go:84 | each character escapes to non-empty printable ASCII |
| `StrConv.Escape` | gedcom/line.go:84 | the escaped text is printable ASCII |
| `StrConv.EscapeAddsNoSlash` | gedcom/line.go:84 | escaping adds no '/' |
| `StrConv.UnquoteChar` | gedcom/gedcom.go:250 | a decoded character consumes a non-empty prefix and leaves the rest of the text |
| `StrConv.UnquoteCharOfEscapeRune` | gedcom/gedcom.go:250 | an escaped character decodes back to that character |
| `StrConv.UnquoteAllOfEscape` | gedcom/gedcom.go:250 | escaped text decodes back to the text |
| `StrConv.QuoteAddsNoSlash` | gedcom/line.go:114 | quoting adds no '/' |
| `StrConv.UnquoteOfQuoteToASCII` | gedcom/gedcom.go:250 | unquoting quoted text gives back the text |
| `Strings.SplitN` | gedcom/line.go:28 | at least one and at most n pieces |
| `Strings.SplitNJoin` | gedcom/line.go:47 | the pieces joined by the separator are the text |
| `Strings.SplitJoin` | gedcom/name.go:22 | the pieces of `Split` joined by the separator are the text |
| `Strings.Split` | gedcom/name.go:22 | at least one piece |
| `Strings.IndexOf` | gedcom/name.go:22 | the first position of the character, or none iff it does not occur |
| `Strings.SplitNAtFirst` | gedcom/line.go:47 | the first piece ends at the first separator and the rest is split with one piece fewer |
| `Strings.SplitAtFirst` | gedcom/name.go:22 | the first piece ends at the first separator and the rest is split again |
| `Strings.TrimLeft` | gedcom/name.go:23 | removes exactly the leading white space |
| `Strings.TrimRight` | gedcom/name.go:23 | removes exactly the trailing white space |
| `Strings.TrimSpaceKeepsTrimmed` | gedcom/name.go:23 | already trimmed text is unchanged |
| `Strings.TrimSpace` | gedcom/name.go:23 | the result neither starts nor ends with white space |
| `Strings.ToUpper` | gedcom/date.go:24 | the upper-cased text has the same length, each character upper-cased (ASCII letters, dotless i and long s) |
| `Strings.TrimPrefix` | parse/parse.go:79 | the prefix is removed when present, and the text is kept otherwise |

## Left out

- Goroutines, `sync.WaitGroup` and the `RWMutex` lock and unlock are left out. Records are interpreted one after another, in dispatch order. The model therefore says nothing about the order in which concurrent appends would land. Of the wait group only this is kept: whether every record signals it.
- Parse.InterpretLine: once a record's interpreter has panicked, no further record is interpreted. In Go the scanning loop may dispatch a few more goroutines before the panic ends the program.
- GedcomLine.XRefIdOf: on a line whose second token is empty ("1 " or "0  HEAD"), gedcom/line.go:49 indexes `parts[1][0]` and panics. The model reads such a token as no cross-reference id and does not panic: it is the corrected half of the first finding.
- GedcomLine.TagOf: the same empty-token panic (gedcom/line.go:63-69) is not modelled.
- GedcomLine.ValueOf: the same empty-token panic (gedcom/line.go:63-75 and 97-106) is not modelled.
- GedcomLine.Line.XRefID: does not panic on an empty second token (see `GedcomLine.XRefIdOf`).
- GedcomLine.Line.Tag: does not panic on an empty second token (see `GedcomLine.XRefIdOf`).
- GedcomLine.Line.Value: does not panic on an empty second token (see `GedcomLine.XRefIdOf`).
- Parse.ParseGedcom: a line with an empty second token makes Go panic in the tokenizer. The outcome does not report that panic. The same holds for `Interpret.InterpretRecord`, `Gedcom.ConcurrencySafeGedcom.InterpretRecord` and every interpreter built on the accessors.
- Strings.ToUpper: the ASCII letters, U+0131 and U+017F are upper-cased as Go's `strings.ToUpper` does. Every other non-ASCII character is kept as it is, where Go maps some of them to other non-ASCII characters. The upper case is only looked up in tables with ASCII keys (gedcom/date.go:24, gedcom/gedcom.go:121, gedcom/interpret.go:125, gedcom/name.go:47), so no lookup result differs. Every caller but `DateStructure.InterpretDateStructure` passes a `QuoteToASCII` value, which is pure ASCII.
- EventStructure.EventOf: the error message ends before the `: %s` of gedcom/event.go:17. The error it wraps comes from a `Level()` that returns an error, and that `Line` variant is not part of this model. `EventStructure.InterpretEventStructure` returns the same message.
- The `sync.Mutex` of util/stack.go is left out. The stack is modelled for one thread.
- The input is the sequence of lines the `bufio.Scanner` yields. File reading, the scanner's token-size limit and the `[]byte` conversions are not modelled.
- `fmt.Printf`, `log.Println` and `log.Printf` output is dropped. The header check returns its message as a value instead of logging it.
- `ToJson`, `ToProto`, `GedcomToJSON` and `GedcomToProto` are left out. They are `json.Marshal` and `proto.Marshal` calls. `Parse.ParseGedcom` returns the chosen output format in their place.
- `Parse`, `ParseJSON` and `ParseProtobuf` in parse/parse.go are file and encoding plumbing and are left out. So are the CLI, the server and the S3 code.
- main.go apart from `writableGedcom` is left out.
- MainWriter.WritableGedcom: main.go:107-156 reads `gedcom.Individuals`, `gedcom.Families` and string ids such as `FatherId` on a `*model.Gedcom`. model/gedcom.go:7-8 declares `Persons` and `Familys`, and model/family.go:7 types `FatherId` as `uint32`, so the function does not type-check. The model writes its lines over the `Document` individuals and families instead.
- util/hash.go and the model/ constructors are left out, since they only call `hash/fnv`.
- Serialize.ToSerializedGedcom: `Line.ToString` and the string-typed date are not part of this model. The rendering is a function parameter that may fail, so the contract holds for every rendering.
- Serialize.WriteEvent: gedcom/serialize.go looks up `MonthAbbrByInt` with a string key, which does not type-check against util/util.go. Only the choice of the DATE line (fields non-empty) is modelled, and that line is never written.
- References through Go `*` types are modelled as values. Aliasing between the `*Line` values, the individuals and their names is not modelled. `DecodeUnicodeFields` rewrites names that are shared with nothing else.
- Gedcom.ConcurrencySafeGedcom.InterpretName: the GIVN/SURN branch of gedcom/gedcom.go:99-115 runs only when `Value()` returns nil. `Value()` never does, as `GedcomLine.ValueOf` shows, so that branch is not modelled.
- Interpret.IndividualOfCounts: gedcom/interpret.go:25-27 assigns `XRefID()` to the id directly. The `Line` variant whose `XRefID` it calls is not part of this model. The model uses `XRefIdOf`, and "" when the first line has no cross-reference id.
- StrConv.UnquoteChar: Dafny strings hold Unicode scalar values, not bytes. A `\x` or octal escape of a byte value from 0x80 up is rejected rather than producing a raw byte.
- Interpret.InterpretSexLine takes the line's value instead of the line. Gedcom.ConcurrencySafeGedcom.InterpretSexLine takes the line itself.
- `gedcom/interpret.go` `parseDate` is the same code as `gedcom/gedcom.go` `parseDate` and is modelled once, as `Gedcom.ParseDate`.

## Findings

| source | as written | input that shows it | evidently intended | confidence | as-written member | corrected member |
|---|---|---|---|---|---|---|
| gedcom/line.go:49 | `XRefID`, `Tag` and `Value` read `parts[1][0]` without checking that the second token is non-empty | the line "1 " or "0  HEAD" (two spaces) panics with an index out of range | an empty second token is not a cross-reference id, and such a line tokenizes without a panic | not executed | `GedcomLine.SecondPartIndexPanicsOnBlankToken` | `GedcomLine.TokenizeCompose` |
| gedcom/gedcom.go:95 | `interpretName` reads `nameParts[1]` of the NAME value split at '/' even when there is no '/' (gedcom/interpret.go:102 does the same) | "1 NAME William_Lee": the quoted value has no '/' and the split has one piece | a value without '/' is the given name with an empty surname, as gedcom/name.go:24-26 guards | not executed | `Gedcom.NameWithoutSlashPanics` | `Gedcom.InlineParts` |
| gedcom/gedcom.go:235 | `removeFamiliesAt` removes the collected positions in increasing order from the shrinking list, without adjusting them | two families that both dangle: positions [0, 1], and after the first removal position 1 is out of range | every family with a dangling reference removed and every other family kept | not executed | `Gedcom.TwoDanglingFamiliesPanic` | `Gedcom.RemoveFromTheEndKeepsResolving` |
