/** gedcom/gedcom.go: the document object, its record interpreters in the version that
    dereferences every accessor result, and the whole-family integrity pass.

    The accessors of gedcom/line.go return nil for an unreadable level, tag or (for
    a record's first line) cross-reference id, and this version dereferences those
    results without a check, which makes Go panic, and it indexes the second piece of
    every NAME value split at '/'. The spec functions here return `None` exactly when
    the Go code would panic, except for the accessors' own panic on an empty second
    token (see `GedcomLine.SecondPartIndexPanicsOnBlankToken`), which is not modelled. */
module Gedcom {
  import opened Wrappers
  import Strings
  import StrConv
  import Util
  import GedcomLine
  import DateStructure
  import Document
  import Seqs

  type Date = Document.IndividualDate
  type Event = Document.Event<Date>
  type Individual = Document.Individual<Date>
  type Family = Document.Family

  // ------------------------------------------------------------ shared pieces

  /** `parseDate` (also written out in gedcom/interpret.go): the value split into at most
      three pieces, year from the first, month from the second, day from the third. */
  function ParseDate(value: string): (r: Date)
    ensures r == DateStructure.ToGedcomIndividualDate(DateStructure.InterpretDateStructure(value))
  {
    var dateParts := Strings.SplitN(value, ' ', 3);
    Document.IndividualDate(
      DateStructure.NumberOrZero(dateParts[0]),
      if |dateParts| > 1 then DateStructure.MonthOrZero(dateParts[1]) else 0,
      if |dateParts| > 2 then DateStructure.NumberOrZero(dateParts[2]) else 0)
  }

  /** As written, the record interpreters read `nameParts[1]` of the NAME value split at
      '/' whether or not there is a second piece: Go panics when the value has no '/'. */
  predicate NamePartsIndexPanics(value: string)
  {
    |Strings.Split(value, '/')| == 1
  }

  /** The inline name pieces as evidently intended: the first piece and the second, ""
      when there is none; neither is set when both are empty. */
  function InlineParts(value: string): (r: (string, string))
    ensures '/' !in value ==> r == (value, "")
  {
    var nameParts := Strings.Split(value, '/');
    if nameParts[0] != "" || (|nameParts| > 1 && nameParts[1] != "") then
      (nameParts[0], if |nameParts| > 1 then nameParts[1] else "")
    else ("", "")
  }

  /** Every NAME line whose text after the tag has no '/' (such as "1 NAME William_Lee")
      reaches the unguarded index: escaping adds no '/'. */
  lemma NameWithoutSlashPanics(raw: string)
    requires '/' !in GedcomLine.RawValueOf(raw)
    ensures NamePartsIndexPanics(GedcomLine.ValueOf(raw))
  {
    StrConv.QuoteAddsNoSlash(GedcomLine.RawValueOf(raw));
  }

  /** The `_PRIM` step of a name: the table entry of the upper-cased value, false when
      the table has none. */
  function NamePrimary(value: string): bool
  {
    var key := Strings.ToUpper(value);
    if key in Util.PrimaryBoolByValue then Util.PrimaryBoolByValue[key] else false
  }

  /** A line's value, wrapped in quotes, never sets a name's flag. */
  lemma NamePrimaryOfValue(raw: string)
    ensures !NamePrimary(GedcomLine.ValueOf(raw))
  {
    Util.LongKeysNotPrimary(Strings.ToUpper(GedcomLine.ValueOf(raw)));
  }

  /** Adds a name to an individual unless both of its parts are empty. */
  function WithName(ind: Individual, name: Document.IndividualName): (r: Individual)
    ensures name.givenName != "" || name.surname != "" ==> r == ind.(names := ind.names + [name])
    ensures name.givenName == "" && name.surname == "" ==> r == ind
  {
    if name.givenName != "" || name.surname != "" then ind.(names := ind.names + [name]) else ind
  }

  /** Adds an event to the births for "BIRT", to the deaths for "DEAT". */
  function WithEvent(ind: Individual, e: Event, kind: string): (r: Individual)
    ensures kind == "BIRT" ==> r == ind.(birthEvents := ind.birthEvents + [e])
    ensures kind == "DEAT" ==> r == ind.(deathEvents := ind.deathEvents + [e])
    ensures kind != "BIRT" && kind != "DEAT" ==> r == ind
  {
    if kind == "BIRT" then ind.(birthEvents := ind.birthEvents + [e])
    else if kind == "DEAT" then ind.(deathEvents := ind.deathEvents + [e])
    else ind
  }

  // ------------------------------------------------------------ event (lines 60-90)

  function EventStep(e: Event, tag: string, raw: string): (r: Event)
  {
    var value := GedcomLine.ValueOf(raw);
    var e1 := if tag == "DATE" then e.(date := Some(ParseDate(value))) else e;
    var e2 := if tag == "PLAC" then e1.(place := value) else e1;
    if tag == "_PRIM" && value in Util.PrimaryBoolByValue then e2.(primary := Util.PrimaryBoolByValue[value])
    else e2
  }

  /** The event read from the lines after its BIRT/DEAT line, up to the first level
      below 2; `None` when a level or tag is absent before that. */
  function EventScan(e: Event, lines: seq<string>): Option<Event>
    decreases |lines|
  {
    if lines == [] then Some(e)
    else if GedcomLine.LevelOf(lines[0]).None? then None
    else if GedcomLine.LevelOf(lines[0]).value < 2 then Some(e)
    else if GedcomLine.TagOf(lines[0]).None? then None
    else EventScan(EventStep(e, GedcomLine.TagOf(lines[0]).value, lines[0]), lines[1..])
  }

  // ------------------------------------------------------------ name (lines 92-128)

  /** The `_PRIM` scan of the lines after the NAME line. */
  function PrimaryScan(primary: bool, lines: seq<string>): Option<bool>
    decreases |lines|
  {
    if lines == [] then Some(primary)
    else if GedcomLine.LevelOf(lines[0]).None? then None
    else if GedcomLine.LevelOf(lines[0]).value < 2 then Some(primary)
    else if GedcomLine.TagOf(lines[0]).None? then None
    else PrimaryScan(
      if GedcomLine.TagOf(lines[0]).value == "_PRIM" then NamePrimary(GedcomLine.ValueOf(lines[0])) else primary,
      lines[1..])
  }

  /** The name of a NAME line and the lines after it. The value is never nil, so only
      the inline pieces are used and the GIVN/SURN branch is never taken. `None` when
      the value has no '/' (the split yields one piece and `nameParts[1]` panics) or
      when the `_PRIM` scan panics. */
  function NameOf(raw: string, following: seq<string>): (r: Option<Document.IndividualName>)
    ensures NamePartsIndexPanics(GedcomLine.ValueOf(raw)) ==> r.None?
    ensures r.Some? ==> var nameParts := Strings.Split(GedcomLine.ValueOf(raw), '/');
              |nameParts| >= 2 && r.value.givenName == nameParts[0] && r.value.surname == nameParts[1]
  {
    var parts := InlineParts(GedcomLine.ValueOf(raw));
    if NamePartsIndexPanics(GedcomLine.ValueOf(raw)) then None
    else match PrimaryScan(false, following)
    case None => None
    case Some(primary) => Some(Document.IndividualName(parts.0, parts.1, primary))
  }

  // ------------------------------------------------------------ sex (lines 130-139)

  function SexStep(ind: Individual, value: string): (r: Individual)
    ensures value == "M" ==> r == ind.(gender := "MALE")
    ensures value == "F" ==> r == ind.(gender := "FEMALE")
    ensures value != "M" && value != "F" ==> r == ind
  {
    if value == "M" then ind.(gender := "MALE")
    else if value == "F" then ind.(gender := "FEMALE")
    else ind
  }

  // ------------------------------------------------------------ individual (lines 32-58)

  /** One level-1 line of an individual, dispatched on its tag; `None` on a panic in a
      sub-scan. */
  function IndividualStep(ind: Individual, tag: string, lines: seq<string>, i: nat): Option<Individual>
    requires i < |lines|
  {
    if tag == "NAME" then
      match NameOf(lines[i], lines[i + 1..])
      case None => None
      case Some(name) => Some(WithName(ind, name))
    else if tag == "SEX" then Some(SexStep(ind, GedcomLine.ValueOf(lines[i])))
    else if tag == "BIRT" || tag == "DEAT" then
      match EventScan(Document.EmptyEvent(), lines[i + 1..])
      case None => None
      case Some(e) => Some(WithEvent(ind, e, tag))
    else Some(ind)
  }

  /** The individual after the lines from index `i` on: every level must be readable,
      a level-0 line after the first ends the record, and tags are read (and must be
      readable) on level-1 lines only. */
  function IndividualScan(ind: Individual, lines: seq<string>, i: nat): Option<Individual>
    requires i <= |lines|
    decreases |lines| - i
  {
    if i == |lines| then Some(ind)
    else if GedcomLine.LevelOf(lines[i]).None? then None
    else if i != 0 && GedcomLine.LevelOf(lines[i]).value == 0 then Some(ind)
    else if GedcomLine.LevelOf(lines[i]).value != 1 then IndividualScan(ind, lines, i + 1)
    else if GedcomLine.TagOf(lines[i]).None? then None
    else match IndividualStep(ind, GedcomLine.TagOf(lines[i]).value, lines, i)
      case None => None
      case Some(next) => IndividualScan(next, lines, i + 1)
  }

  function IndividualOf(recordLines: seq<string>): Option<Individual>
    requires |recordLines| > 0
  {
    match GedcomLine.XRefIdOf(recordLines[0])
    case None => None
    case Some(id) => IndividualScan(Document.NewIndividual(id), recordLines, 0)
  }

  // ------------------------------------------------------------ family (lines 162-190)

  function FamilyStep(f: Family, tag: string, value: string): (r: Family)
    ensures tag == "HUSB" ==> r == f.(fatherId := value)
    ensures tag == "WIFE" ==> r == f.(motherId := value)
    ensures tag == "CHIL" ==> r == f.(childIds := f.childIds + [value])
    ensures tag != "HUSB" && tag != "WIFE" && tag != "CHIL" ==> r == f
  {
    if tag == "HUSB" then f.(fatherId := value)
    else if tag == "WIFE" then f.(motherId := value)
    else if tag == "CHIL" then f.(childIds := f.childIds + [value])
    else f
  }

  /** The family after the lines from index `i` on: a level-0 line after the first
      ends it, and the tag of every line before that, the first included, is read. */
  function FamilyScan(f: Family, lines: seq<string>, i: nat): Option<Family>
    requires i <= |lines|
    decreases |lines| - i
  {
    if i == |lines| then Some(f)
    else if i != 0 && GedcomLine.LevelOf(lines[i]).None? then None
    else if i != 0 && GedcomLine.LevelOf(lines[i]).value == 0 then Some(f)
    else if GedcomLine.TagOf(lines[i]).None? then None
    else FamilyScan(FamilyStep(f, GedcomLine.TagOf(lines[i]).value, GedcomLine.ValueOf(lines[i])), lines, i + 1)
  }

  function FamilyOf(recordLines: seq<string>): Option<Family>
    requires |recordLines| > 0
  {
    match GedcomLine.XRefIdOf(recordLines[0])
    case None => None
    case Some(id) => FamilyScan(Document.Family(id, "", "", []), recordLines, 0)
  }

  /** What a record adds: one individual, one family, or nothing; `None` on a panic. */
  datatype Added = AddedIndividual(individual: Individual) | AddedFamily(family: Family) | AddedNothing

  function RecordOf(recordLines: seq<string>): Option<Added>
    requires |recordLines| > 0
  {
    match GedcomLine.TagOf(recordLines[0])
    case None => None
    case Some(tag) =>
      if tag == "INDI" then
        match IndividualOf(recordLines)
        case None => None
        case Some(ind) => Some(AddedIndividual(ind))
      else if tag == "FAM" then
        match FamilyOf(recordLines)
        case None => None
        case Some(f) => Some(AddedFamily(f))
      else Some(AddedNothing)
  }

  // ------------------------------------------------------------ what the interpreters produce

  /** An event read from text: never marked primary (a quoted value is never "Y" or
      "N"), and a date, when there is one, with year and day 0 (a quoted piece is
      never a number). */
  predicate EventFromText(e: Event)
  {
    !e.primary && (e.date.Some? ==> e.date.value.year == 0 && e.date.value.day == 0)
  }

  /** An individual read from text: no gender (a quoted value is never "M" or "F"),
      no primary name, and only events read from text. */
  predicate IndividualFromText(ind: Individual)
  {
    && ind.gender == ""
    && (forall k :: 0 <= k < |ind.names| ==> !ind.names[k].primary)
    && (forall k :: 0 <= k < |ind.birthEvents| ==> EventFromText(ind.birthEvents[k]))
    && (forall k :: 0 <= k < |ind.deathEvents| ==> EventFromText(ind.deathEvents[k]))
  }

  /** A reference read from text: empty, or a quoted value. */
  predicate QuotedOrEmpty(s: string)
  {
    s == "" || (|s| >= 2 && s[0] == '"')
  }

  predicate FamilyReferencesFromText(f: Family)
  {
    && QuotedOrEmpty(f.fatherId) && QuotedOrEmpty(f.motherId)
    && forall k :: 0 <= k < |f.childIds| ==> QuotedOrEmpty(f.childIds[k])
  }

  lemma EventStepFromText(e: Event, tag: string, raw: string)
    requires EventFromText(e)
    ensures EventFromText(EventStep(e, tag, raw))
  {
    var value := GedcomLine.ValueOf(raw);
    Util.LongKeysNotPrimary(value);
    if tag == "DATE" {
      DateStructure.DateOfLineValue(raw);
    }
  }

  lemma {:induction false} EventScanFromText(e: Event, lines: seq<string>)
    requires EventFromText(e)
    ensures EventScan(e, lines).Some? ==> EventFromText(EventScan(e, lines).value)
    decreases |lines|
  {
    if lines != [] && GedcomLine.LevelOf(lines[0]).Some? && GedcomLine.LevelOf(lines[0]).value >= 2
       && GedcomLine.TagOf(lines[0]).Some? {
      var tag := GedcomLine.TagOf(lines[0]).value;
      EventStepFromText(e, tag, lines[0]);
      EventScanFromText(EventStep(e, tag, lines[0]), lines[1..]);
    }
  }

  /** The `_PRIM` line of a name never sets it: the upper-cased quoted value is not a
      table key. */
  lemma {:induction false} PrimaryScanStaysFalse(lines: seq<string>)
    ensures PrimaryScan(false, lines).Some? ==> !PrimaryScan(false, lines).value
    decreases |lines|
  {
    if lines != [] && GedcomLine.LevelOf(lines[0]).Some? && GedcomLine.LevelOf(lines[0]).value >= 2
       && GedcomLine.TagOf(lines[0]).Some? {
      var value := GedcomLine.ValueOf(lines[0]);
      assert |Strings.ToUpper(value)| >= 2;
      assert !NamePrimary(value);
      PrimaryScanStaysFalse(lines[1..]);
    }
  }

  lemma IndividualStepFromText(ind: Individual, tag: string, lines: seq<string>, i: nat)
    requires i < |lines| && IndividualFromText(ind)
    ensures var r := IndividualStep(ind, tag, lines, i);
            r.Some? ==> IndividualFromText(r.value) && r.value.id == ind.id
  {
    if tag == "NAME" {
      PrimaryScanStaysFalse(lines[i + 1..]);
    } else if tag == "SEX" {
      assert GedcomLine.ValueOf(lines[i]) != "M" && GedcomLine.ValueOf(lines[i]) != "F";
    } else if tag == "BIRT" || tag == "DEAT" {
      EventScanFromText(Document.EmptyEvent(), lines[i + 1..]);
    }
  }

  lemma {:induction false} IndividualScanFromText(ind: Individual, lines: seq<string>, i: nat)
    requires i <= |lines| && IndividualFromText(ind)
    ensures var r := IndividualScan(ind, lines, i);
            r.Some? ==> IndividualFromText(r.value) && r.value.id == ind.id
    decreases |lines| - i
  {
    if i < |lines| && GedcomLine.LevelOf(lines[i]).Some? && !(i != 0 && GedcomLine.LevelOf(lines[i]).value == 0) {
      if GedcomLine.LevelOf(lines[i]).value != 1 {
        IndividualScanFromText(ind, lines, i + 1);
      } else if GedcomLine.TagOf(lines[i]).Some? {
        var tag := GedcomLine.TagOf(lines[i]).value;
        IndividualStepFromText(ind, tag, lines, i);
        if IndividualStep(ind, tag, lines, i).Some? {
          IndividualScanFromText(IndividualStep(ind, tag, lines, i).value, lines, i + 1);
        }
      }
    }
  }

  /** An interpreted individual has the id of its first line, and carries the marks of
      values that are always quoted. */
  lemma IndividualOfFromText(recordLines: seq<string>)
    requires |recordLines| > 0
    ensures var r := IndividualOf(recordLines);
            r.Some? ==> && GedcomLine.XRefIdOf(recordLines[0]).Some?
                        && r.value.id == GedcomLine.XRefIdOf(recordLines[0]).value
                        && IndividualFromText(r.value)
  {
    if GedcomLine.XRefIdOf(recordLines[0]).Some? {
      IndividualScanFromText(Document.NewIndividual(GedcomLine.XRefIdOf(recordLines[0]).value), recordLines, 0);
    }
  }

  lemma FamilyStepFromText(f: Family, tag: string, raw: string)
    requires FamilyReferencesFromText(f)
    ensures var r := FamilyStep(f, tag, GedcomLine.ValueOf(raw));
            FamilyReferencesFromText(r) && r.id == f.id && f.childIds <= r.childIds
  {
    var value := GedcomLine.ValueOf(raw);
    assert QuotedOrEmpty(value);
    if tag == "CHIL" {
      var r := FamilyStep(f, tag, value);
      assert r.childIds == f.childIds + [value];
      assert forall k :: 0 <= k < |r.childIds| ==> r.childIds[k] == (if k < |f.childIds| then f.childIds[k] else value);
    }
  }

  lemma {:induction false} FamilyScanFromText(f: Family, lines: seq<string>, i: nat)
    requires i <= |lines| && FamilyReferencesFromText(f)
    ensures var r := FamilyScan(f, lines, i);
            r.Some? ==> && FamilyReferencesFromText(r.value) && r.value.id == f.id
                        && f.childIds <= r.value.childIds
    decreases |lines| - i
  {
    if i < |lines| && !(i != 0 && GedcomLine.LevelOf(lines[i]).None?)
       && !(i != 0 && GedcomLine.LevelOf(lines[i]).value == 0) && GedcomLine.TagOf(lines[i]).Some? {
      var next := FamilyStep(f, GedcomLine.TagOf(lines[i]).value, GedcomLine.ValueOf(lines[i]));
      FamilyStepFromText(f, GedcomLine.TagOf(lines[i]).value, lines[i]);
      FamilyScanFromText(next, lines, i + 1);
      assert FamilyScan(f, lines, i) == FamilyScan(next, lines, i + 1);
    }
  }

  /** An interpreted family has the id of its first line and only references read from
      text. */
  lemma FamilyOfFromText(recordLines: seq<string>)
    requires |recordLines| > 0
    ensures var r := FamilyOf(recordLines);
            r.Some? ==> && GedcomLine.XRefIdOf(recordLines[0]).Some?
                        && r.value.id == GedcomLine.XRefIdOf(recordLines[0]).value
                        && FamilyReferencesFromText(r.value)
  {
    if GedcomLine.XRefIdOf(recordLines[0]).Some? {
      FamilyScanFromText(Document.Family(GedcomLine.XRefIdOf(recordLines[0]).value, "", "", []), recordLines, 0);
    }
  }

  /** Individual ids open with '@' and a family's references never do, so no family
      read from text resolves: its mother is "" or a quoted value. */
  lemma FamilyFromTextNeverResolves(f: Family, inds: seq<Individual>)
    requires FamilyReferencesFromText(f)
    requires forall k :: 0 <= k < |inds| ==> GedcomLine.StartsWithAt(inds[k].id)
    ensures !Resolves(f, IndexById(inds).Keys)
  {
    if f.motherId in IndexById(inds).Keys {
      var k :| 0 <= k < |inds| && inds[k].id == f.motherId;
    }
  }

  // ------------------------------------------------------------ the integrity pass

  /** `IndividualsByIds`: each id mapped to the last individual that carries it. */
  function IndexById(inds: seq<Individual>): (r: map<string, Individual>)
    ensures forall id :: id in r <==> exists k :: 0 <= k < |inds| && inds[k].id == id
    ensures forall id :: id in r ==> r[id].id == id
    decreases |inds|
  {
    if inds == [] then map[]
    else
      var last := inds[|inds| - 1];
      var r := IndexById(inds[..|inds| - 1])[last.id := last];
      assert forall k :: 0 <= k < |inds| - 1 ==> inds[..|inds| - 1][k] == inds[k];
      r
  }

  /** The individual an id maps to is the last one that carries it. */
  lemma {:induction false} IndexByIdLastWins(inds: seq<Individual>, k: nat)
    requires k < |inds|
    requires forall j :: k < j < |inds| ==> inds[j].id != inds[k].id
    ensures IndexById(inds)[inds[k].id] == inds[k]
    decreases |inds|
  {
    var n := |inds| - 1;
    if k < n {
      IndexByIdLastWins(inds[..n], k);
    }
  }

  /** The family's mother, father and every child are ids of individuals. */
  predicate Resolves(f: Family, ids: set<string>)
  {
    f.motherId in ids && f.fatherId in ids && forall c :: c in f.childIds ==> c in ids
  }

  /** The indices `RemoveInvalidFamilies` collects: in increasing order, each family
      with a reference that is not an id. */
  function InvalidFamilyIndices(families: seq<Family>, ids: set<string>): (r: seq<nat>)
    ensures forall k :: 0 <= k < |r| ==> r[k] < |families|
    ensures Increasing(r)
    decreases |families|
  {
    if families == [] then []
    else
      var n := |families| - 1;
      InvalidFamilyIndices(families[..n], ids) + (if Resolves(families[n], ids) then [] else [n])
  }

  /** One family more: its position is collected unless it resolves. */
  lemma InvalidFamilyIndicesStep(families: seq<Family>, i: nat, ids: set<string>)
    requires i < |families|
    ensures InvalidFamilyIndices(families[..i + 1], ids)
      == InvalidFamilyIndices(families[..i], ids) + (if Resolves(families[i], ids) then [] else [i])
  {
    assert families[..i + 1][..i] == families[..i];
  }

  /** Exactly the families with a reference that is not an id are collected. */
  lemma {:induction false} InvalidFamilyIndicesExact(families: seq<Family>, ids: set<string>)
    ensures var r := InvalidFamilyIndices(families, ids);
            forall i :: 0 <= i < |families| ==> (i in r <==> !Resolves(families[i], ids))
    decreases |families|
  {
    if families != [] {
      var n := |families| - 1;
      InvalidFamilyIndicesExact(families[..n], ids);
      assert forall i :: 0 <= i < n ==> families[..n][i] == families[i];
    }
  }

  /** `withoutFamily`: the last family moved into position `index`, then the slice cut
      by one. */
  function WithoutFamily(families: seq<Family>, index: nat): (r: seq<Family>)
    requires index < |families|
    ensures |r| == |families| - 1
    ensures index < |r| ==> r[index] == families[|families| - 1]
    ensures forall k :: 0 <= k < |r| && k != index ==> r[k] == families[k]
    ensures multiset(r) + multiset{families[index]} == multiset(families)
  {
    var last := |families| - 1;
    var swapped := families[index := families[last]][last := families[index]];
    assert multiset(swapped) == multiset(families) by {
      if index != last {
        assert swapped == families[index := families[last]][last := families[index]];
      }
    }
    assert swapped == swapped[..last] + [families[index]];
    swapped[..last]
  }

  /** `removeFamiliesAt`: `withoutFamily` for each index in turn, against the shrinking
      slice; `None` when an index is out of range and Go panics. */
  function RemoveFamiliesInOrder(families: seq<Family>, indices: seq<nat>): Option<seq<Family>>
    decreases |indices|
  {
    if indices == [] then Some(families)
    else if indices[0] >= |families| then None
    else RemoveFamiliesInOrder(WithoutFamily(families, indices[0]), indices[1..])
  }

  /** The families at the given positions, in that order. */
  function Picked(families: seq<Family>, indices: seq<nat>): (r: seq<Family>)
    requires forall k :: 0 <= k < |indices| ==> indices[k] < |families|
    ensures |r| == |indices|
    ensures forall k :: 0 <= k < |r| ==> r[k] == families[indices[k]]
  {
    seq(|indices|, k requires 0 <= k < |indices| => families[indices[k]])
  }

  predicate Increasing(indices: seq<nat>)
  {
    forall k, l :: 0 <= k < l < |indices| ==> indices[k] < indices[l]
  }

  /** Removal in increasing order takes out exactly the families first found at those
      positions, as long as it does not panic: a later position is never the target of
      an earlier swap. */
  lemma {:induction false} RemoveFamiliesInOrderTakesPicked(orig: seq<Family>, cur: seq<Family>, indices: seq<nat>)
    requires Increasing(indices)
    requires forall k :: 0 <= k < |indices| ==> indices[k] < |orig|
    requires forall k :: 0 <= k < |indices| && indices[k] < |cur| ==> cur[indices[k]] == orig[indices[k]]
    ensures RemoveFamiliesInOrder(cur, indices).Some? ==>
      multiset(RemoveFamiliesInOrder(cur, indices).value) + multiset(Picked(orig, indices)) == multiset(cur)
    decreases |indices|
  {
    if indices != [] && indices[0] < |cur| {
      var i := indices[0];
      var next := WithoutFamily(cur, i);
      var rest := indices[1..];
      forall k | 0 <= k < |rest| && rest[k] < |next|
        ensures next[rest[k]] == orig[rest[k]]
      {
        assert rest[k] == indices[k + 1] && indices[0] < indices[k + 1];
      }
      RemoveFamiliesInOrderTakesPicked(orig, next, rest);
      assert Picked(orig, indices) == [orig[i]] + Picked(orig, rest);
    }
  }

  /** The families that `RemoveInvalidFamilies` keeps, in their original order. */
  function Kept(families: seq<Family>, ids: set<string>): (r: seq<Family>)
    ensures forall f :: f in r ==> Resolves(f, ids)
    decreases |families|
  {
    if families == [] then []
    else
      var n := |families| - 1;
      Kept(families[..n], ids) + (if Resolves(families[n], ids) then [families[n]] else [])
  }

  lemma PickedOfPrefix(families: seq<Family>, n: nat, indices: seq<nat>)
    requires n <= |families|
    requires forall k :: 0 <= k < |indices| ==> indices[k] < n
    ensures Picked(families[..n], indices) == Picked(families, indices)
  {
  }

  /** The collected families and the kept ones together are all the families. */
  lemma {:induction false} InvalidAndKeptPartition(families: seq<Family>, ids: set<string>)
    ensures multiset(Picked(families, InvalidFamilyIndices(families, ids))) + multiset(Kept(families, ids))
      == multiset(families)
    decreases |families|
  {
    if families != [] {
      var n := |families| - 1;
      var prefix := families[..n];
      InvalidAndKeptPartition(prefix, ids);
      PartitionStep(families, ids);
    }
  }

  /** One family more: it joins either the collected or the kept ones. */
  lemma PartitionStep(families: seq<Family>, ids: set<string>)
    requires families != []
    requires var prefix := families[..|families| - 1];
      multiset(Picked(prefix, InvalidFamilyIndices(prefix, ids))) + multiset(Kept(prefix, ids)) == multiset(prefix)
    ensures multiset(Picked(families, InvalidFamilyIndices(families, ids))) + multiset(Kept(families, ids))
      == multiset(families)
  {
    var n := |families| - 1;
    var prefix := families[..n];
    var before := InvalidFamilyIndices(prefix, ids);
    var f := families[n];
    PickedOfPrefix(families, n, before);
    assert families == prefix + [f];
    if Resolves(f, ids) {
      PartitionStepKept(families, ids, prefix, before, f);
    } else {
      PartitionStepCollected(families, ids, prefix, before, f);
    }
  }

  lemma PartitionStepKept(families: seq<Family>, ids: set<string>, prefix: seq<Family>, before: seq<nat>, f: Family)
    requires families == prefix + [f] && before == InvalidFamilyIndices(prefix, ids) && Resolves(f, ids)
    requires Picked(prefix, before) == Picked(families, before)
    requires multiset(Picked(prefix, before)) + multiset(Kept(prefix, ids)) == multiset(prefix)
    ensures multiset(Picked(families, InvalidFamilyIndices(families, ids))) + multiset(Kept(families, ids))
      == multiset(families)
  {
    assert families[..|families| - 1] == prefix;
    assert InvalidFamilyIndices(families, ids) == before;
    assert Kept(families, ids) == Kept(prefix, ids) + [f];
    assert multiset(families) == multiset(prefix) + multiset{f};
  }

  lemma PartitionStepCollected(families: seq<Family>, ids: set<string>, prefix: seq<Family>, before: seq<nat>, f: Family)
    requires families == prefix + [f] && before == InvalidFamilyIndices(prefix, ids) && !Resolves(f, ids)
    requires Picked(prefix, before) == Picked(families, before)
    requires multiset(Picked(prefix, before)) + multiset(Kept(prefix, ids)) == multiset(prefix)
    ensures multiset(Picked(families, InvalidFamilyIndices(families, ids))) + multiset(Kept(families, ids))
      == multiset(families)
  {
    var n := |prefix|;
    assert families[..|families| - 1] == prefix;
    assert InvalidFamilyIndices(families, ids) == before + [n];
    assert Picked(families, before + [n]) == Picked(families, before) + [f];
    assert Kept(families, ids) == Kept(prefix, ids);
    assert multiset(families) == multiset(prefix) + multiset{f};
  }

  /** The pass as written: when it does not panic, what remains is exactly the families
      whose references all resolve (in a different order). */
  lemma RemoveInvalidFamiliesKeepsResolving(families: seq<Family>, ids: set<string>)
    ensures var r := RemoveFamiliesInOrder(families, InvalidFamilyIndices(families, ids));
            r.Some? ==> multiset(r.value) == multiset(Kept(families, ids))
  {
    var indices := InvalidFamilyIndices(families, ids);
    var r := RemoveFamiliesInOrder(families, indices);
    RemoveFamiliesInOrderTakesPicked(families, families, indices);
    InvalidAndKeptPartition(families, ids);
    if r.Some? {
      var picked := multiset(Picked(families, indices));
      assert multiset(r.value) == multiset(families) - picked;
      assert multiset(Kept(families, ids)) == multiset(families) - picked;
    }
  }

  /** Two families that both refer to nobody: the collected indices are 0 and 1, and
      after the first removal only one family is left, so position 1 is out of range. */
  lemma TwoDanglingFamiliesPanic()
    ensures var families := [Document.Family("@F1@", "@I1@", "@I2@", []), Document.Family("@F2@", "@I1@", "@I2@", [])];
            InvalidFamilyIndices(families, {}) == [0, 1]
            && RemoveFamiliesInOrder(families, InvalidFamilyIndices(families, {})).None?
  {
    var families := [Document.Family("@F1@", "@I1@", "@I2@", []), Document.Family("@F2@", "@I1@", "@I2@", [])];
    assert families[..1][..0] == [] && families[..1] == [families[0]];
    assert !Resolves(families[0], {}) && !Resolves(families[1], {});
    assert InvalidFamilyIndices(families[..1][..0], {}) == [];
    assert InvalidFamilyIndices(families[..1], {}) == [0];
    assert InvalidFamilyIndices(families, {}) == [0, 1];
    assert |WithoutFamily(families, 0)| == 1;
  }

  /** The `n` consecutive positions from `lo`. */
  function Positions(lo: nat, n: nat): (r: seq<nat>)
    ensures |r| == n && forall k :: 0 <= k < n ==> r[k] == lo + k
  {
    seq(n, k => lo + k)
  }

  /** The positions `k`, `k + 1`, ... of a list as long as they are many, removed in
      increasing order: each removal shortens the list and moves the next position up,
      so only the empty list and a single family at position 0 get through. */
  lemma {:induction false} ConsecutiveRemoval(cur: seq<Family>, k: nat)
    ensures RemoveFamiliesInOrder(cur, Positions(k, |cur|)).Some? <==> |cur| == 0 || (|cur| == 1 && k == 0)
    decreases |cur|
  {
    var idx := Positions(k, |cur|);
    if |cur| > 0 && k < |cur| {
      var next := WithoutFamily(cur, k);
      assert idx[1..] == Positions(k + 1, |next|);
      ConsecutiveRemoval(next, k + 1);
    }
  }

  /** When no family resolves, every position is collected. */
  lemma {:induction false} AllDanglingCollected(families: seq<Family>, ids: set<string>)
    requires forall k :: 0 <= k < |families| ==> !Resolves(families[k], ids)
    ensures InvalidFamilyIndices(families, ids) == Positions(0, |families|)
    decreases |families|
  {
    if families != [] {
      var n := |families| - 1;
      AllDanglingCollected(families[..n], ids);
      assert Positions(0, n) + [n] == Positions(0, n + 1);
    }
  }

  /** The pass as written over families none of which resolves: it gets through exactly
      when there is at most one family, and panics on every list of two or more. */
  lemma AllDanglingRemovable(families: seq<Family>, ids: set<string>)
    requires forall k :: 0 <= k < |families| ==> !Resolves(families[k], ids)
    ensures RemoveFamiliesInOrder(families, InvalidFamilyIndices(families, ids)).Some? <==> |families| <= 1
  {
    AllDanglingCollected(families, ids);
    ConsecutiveRemoval(families, 0);
  }

  /** The removal as evidently intended: the collected positions taken from the highest
      down, so that every swap only moves a family that stays. */
  function RemoveFamiliesFromTheEnd(families: seq<Family>, indices: seq<nat>): (r: seq<Family>)
    requires Increasing(indices)
    requires forall k :: 0 <= k < |indices| ==> indices[k] < |families|
    ensures |r| == |families| - |indices|
    decreases |indices|
  {
    if indices == [] then families
    else
      var last := |indices| - 1;
      RemoveFamiliesFromTheEnd(WithoutFamily(families, indices[last]), indices[..last])
  }

  lemma {:induction false} RemoveFamiliesFromTheEndTakesPicked(orig: seq<Family>, cur: seq<Family>, indices: seq<nat>)
    requires Increasing(indices)
    requires forall k :: 0 <= k < |indices| ==> indices[k] < |orig| && indices[k] < |cur|
    requires forall k :: 0 <= k < |indices| ==> cur[indices[k]] == orig[indices[k]]
    ensures multiset(RemoveFamiliesFromTheEnd(cur, indices)) + multiset(Picked(orig, indices)) == multiset(cur)
    decreases |indices|
  {
    if indices != [] {
      var last := |indices| - 1;
      var j := indices[last];
      var next := WithoutFamily(cur, j);
      var init := indices[..last];
      EarlierPositionsUntouched(orig, cur, indices);
      RemoveFamiliesFromTheEndTakesPicked(orig, next, init);
      var rest := RemoveFamiliesFromTheEnd(next, init);
      assert RemoveFamiliesFromTheEnd(cur, indices) == rest;
      PickedSnoc(orig, indices);
      assert multiset(next) + multiset{cur[j]} == multiset(cur);
    }
  }

  /** Taking out the highest position moves only the last family, which no lower
      position of the list refers to. */
  lemma EarlierPositionsUntouched(orig: seq<Family>, cur: seq<Family>, indices: seq<nat>)
    requires indices != [] && Increasing(indices)
    requires forall k :: 0 <= k < |indices| ==> indices[k] < |orig| && indices[k] < |cur|
    requires forall k :: 0 <= k < |indices| ==> cur[indices[k]] == orig[indices[k]]
    ensures var next := WithoutFamily(cur, indices[|indices| - 1]);
            var init := indices[..|indices| - 1];
            forall k :: 0 <= k < |init| ==> init[k] < |next| && next[init[k]] == orig[init[k]]
  {
    var last := |indices| - 1;
    var next := WithoutFamily(cur, indices[last]);
    var init := indices[..last];
    forall k | 0 <= k < |init|
      ensures init[k] < |next| && next[init[k]] == orig[init[k]]
    {
      assert init[k] == indices[k] && indices[k] < indices[last];
    }
  }

  lemma PickedSnoc(orig: seq<Family>, indices: seq<nat>)
    requires indices != []
    requires forall k :: 0 <= k < |indices| ==> indices[k] < |orig|
    ensures Picked(orig, indices) == Picked(orig, indices[..|indices| - 1]) + [orig[indices[|indices| - 1]]]
  {
  }

  /** The corrected pass never panics and keeps exactly the resolving families. */
  lemma RemoveFromTheEndKeepsResolving(families: seq<Family>, ids: set<string>)
    ensures var indices := InvalidFamilyIndices(families, ids);
            multiset(RemoveFamiliesFromTheEnd(families, indices)) == multiset(Kept(families, ids))
  {
    var indices := InvalidFamilyIndices(families, ids);
    RemoveFamiliesFromTheEndTakesPicked(families, families, indices);
    InvalidAndKeptPartition(families, ids);
    var picked := multiset(Picked(families, indices));
    assert multiset(RemoveFamiliesFromTheEnd(families, indices)) == multiset(families) - picked;
    assert multiset(Kept(families, ids)) == multiset(families) - picked;
  }

  // ------------------------------------------------------------ decoding (lines 246-264)

  const UnquoteError := "invalid syntax"

  /** One name decoded: the given name replaced by its unquoted form, then the surname;
      an error at the first part that does not unquote, the parts before it replaced. */
  function DecodeName(n: Document.IndividualName, unquote: string -> Option<string>): (r: (Document.IndividualName, Option<string>))
    ensures r.0.primary == n.primary
    ensures r.1.Some? ==> r.1 == Some(UnquoteError)
  {
    match unquote(n.givenName)
    case None => (n, Some(UnquoteError))
    case Some(given) =>
      match unquote(n.surname)
      case None => (n.(givenName := given), Some(UnquoteError))
      case Some(surname) => (n.(givenName := given, surname := surname), None)
  }

  /** A name decodes without error exactly when both parts unquote, and then both are
      replaced by their unquoted forms; otherwise the given name is left as it was when
      it does not unquote, and replaced when only the surname does not. */
  lemma DecodeNameMeaning(n: Document.IndividualName, unquote: string -> Option<string>)
    ensures var r := DecodeName(n, unquote);
      && (r.1.None? <==> unquote(n.givenName).Some? && unquote(n.surname).Some?)
      && (r.1.None? ==> r.0 == n.(givenName := unquote(n.givenName).value, surname := unquote(n.surname).value))
      && (unquote(n.givenName).None? ==> r.0 == n)
      && (unquote(n.givenName).Some? ==> r.0.givenName == unquote(n.givenName).value && r.0.surname in {n.surname, unquote(n.surname).GetOr(n.surname)})
  {
  }

  /** The names after `DecodeUnicodeFields` has run over them, in order, until the
      first that does not decode; the ones after it are left as they were. */
  function DecodeNames(names: seq<Document.IndividualName>, unquote: string -> Option<string>): (r: (seq<Document.IndividualName>, Option<string>))
    ensures |r.0| == |names|
    ensures r.1.Some? ==> r.1 == Some(UnquoteError)
    decreases |names|
  {
    if names == [] then ([], None)
    else
      var n := |names| - 1;
      var before := DecodeNames(names[..n], unquote);
      if before.1.Some? then (before.0 + [names[n]], before.1)
      else
        var d := DecodeName(names[n], unquote);
        (before.0 + [d.0], d.1)
  }

  /** The individuals after `DecodeUnicodeFields`, and its error. */
  function DecodeIndividuals(inds: seq<Individual>, unquote: string -> Option<string>): (r: (seq<Individual>, Option<string>))
    ensures |r.0| == |inds|
    decreases |inds|
  {
    if inds == [] then ([], None)
    else
      var n := |inds| - 1;
      var before := DecodeIndividuals(inds[..n], unquote);
      if before.1.Some? then (before.0 + [inds[n]], before.1)
      else
        var d := DecodeNames(inds[n].names, unquote);
        (before.0 + [inds[n].(names := d.0)], d.1)
  }

  /** Decoding changes names only: ids, genders, events and the number of names stay. */
  lemma {:induction false} DecodeIndividualsKeepsAllButNames(inds: seq<Individual>, unquote: string -> Option<string>)
    ensures var r := DecodeIndividuals(inds, unquote).0;
            forall k :: 0 <= k < |inds| ==>
              r[k] == inds[k].(names := r[k].names) && |r[k].names| == |inds[k].names|
    decreases |inds|
  {
    if inds != [] {
      var n := |inds| - 1;
      DecodeIndividualsKeepsAllButNames(inds[..n], unquote);
    }
  }

  /** Names with both parts quoted as line values are. */
  function QuotedNames(names: seq<Document.IndividualName>): (r: seq<Document.IndividualName>)
    ensures |r| == |names|
    decreases |names|
  {
    if names == [] then []
    else
      var n := |names| - 1;
      QuotedNames(names[..n]) + [QuotedName(names[n])]
  }

  /** Decoding undoes the quoting of every line value: names whose parts were quoted
      decode, without error, to the parts before quoting. */
  lemma {:induction false} DecodeQuotedNames(names: seq<Document.IndividualName>)
    ensures DecodeNames(QuotedNames(names), StrConv.Unquote) == (names, None)
    decreases |names|
  {
    if names != [] {
      var n := |names| - 1;
      var front := QuotedNames(names[..n]);
      var last := QuotedName(names[n]);
      assert QuotedNames(names) == front + [last];
      DecodeQuotedNames(names[..n]);
      DecodeNamesSnoc(front, last, StrConv.Unquote);
      DecodeQuotedName(names[n]);
      Seqs.FrontAndLast(names);
    }
  }

  function QuotedName(n: Document.IndividualName): Document.IndividualName
  {
    n.(givenName := StrConv.QuoteToASCII(n.givenName), surname := StrConv.QuoteToASCII(n.surname))
  }

  lemma DecodeQuotedName(n: Document.IndividualName)
    ensures DecodeName(QuotedName(n), StrConv.Unquote) == (n, None)
  {
    StrConv.UnquoteOfQuoteToASCII(n.givenName);
    StrConv.UnquoteOfQuoteToASCII(n.surname);
  }

  /** One more name decoded after the ones before it. */
  lemma DecodeNamesSnoc(names: seq<Document.IndividualName>, last: Document.IndividualName, unquote: string -> Option<string>)
    ensures DecodeNames(names + [last], unquote)
         == if DecodeNames(names, unquote).1.Some? then (DecodeNames(names, unquote).0 + [last], DecodeNames(names, unquote).1)
            else (DecodeNames(names, unquote).0 + [DecodeName(last, unquote).0], DecodeName(last, unquote).1)
  {
    assert (names + [last])[..|names|] == names;
  }

  /** On success every part is replaced by its unquoted form and nothing else changes. */
  lemma {:induction false} DecodeNamesSucceeds(names: seq<Document.IndividualName>, unquote: string -> Option<string>)
    requires DecodeNames(names, unquote).1.None?
    ensures var r := DecodeNames(names, unquote).0;
      forall k :: 0 <= k < |names| ==>
        && unquote(names[k].givenName) == Some(r[k].givenName)
        && unquote(names[k].surname) == Some(r[k].surname)
        && r[k].primary == names[k].primary
    decreases |names|
  {
    if names != [] {
      var n := |names| - 1;
      DecodeNamesSucceeds(names[..n], unquote);
      var r := DecodeNames(names, unquote).0;
      assert r[..n] == DecodeNames(names[..n], unquote).0;
      forall k | 0 <= k < n
        ensures unquote(names[k].givenName) == Some(r[k].givenName)
        ensures unquote(names[k].surname) == Some(r[k].surname) && r[k].primary == names[k].primary
      {
        assert names[k] == names[..n][k] && r[k] == r[..n][k];
      }
    }
  }

  /** Once a name has failed, the names after it are left as they were. */
  lemma {:induction false} DecodeNamesAfterFailure(names: seq<Document.IndividualName>, k: nat, unquote: string -> Option<string>)
    requires k <= |names| && DecodeNames(names[..k], unquote).1.Some?
    ensures DecodeNames(names, unquote) == (DecodeNames(names[..k], unquote).0 + names[k..], DecodeNames(names[..k], unquote).1)
    decreases |names| - k
  {
    if k < |names| {
      var n := |names| - 1;
      assert names[..n][..k] == names[..k];
      DecodeNamesAfterFailure(names[..n], k, unquote);
      var a := DecodeNames(names[..k], unquote).0;
      assert DecodeNames(names, unquote) == (a + names[..n][k..] + [names[n]], DecodeNames(names[..k], unquote).1);
      assert a + names[..n][k..] + [names[n]] == a + names[k..];
    } else {
      assert names[..k] == names && names[k..] == [];
      assert DecodeNames(names[..k], unquote).0 + names[k..] == DecodeNames(names, unquote).0;
    }
  }

  /** Replacing element `j` of a sequence that agrees with `orig` from `j` on. */
  lemma UpdateAt<T>(s: seq<T>, orig: seq<T>, j: nat, x: T)
    requires j < |s| == |orig| && s[j..] == orig[j..]
    ensures s[j] == orig[j]
    ensures var t := s[j := x];
      t[..j + 1] == s[..j] + [x] && t[j + 1..] == orig[j + 1..] && t == t[..j + 1] + orig[j + 1..]
  {
    assert s[j..][0] == orig[j..][0];
  }

  /** A name whose given name does not unquote, after names that decode. */
  lemma DecodeNamesFailsAtLast(names: seq<Document.IndividualName>, unquote: string -> Option<string>)
    requires names != [] && DecodeNames(names[..|names| - 1], unquote).1.None?
    requires unquote(names[|names| - 1].givenName).None?
    ensures DecodeNames(names, unquote) == (DecodeNames(names[..|names| - 1], unquote).0 + [names[|names| - 1]], Some(UnquoteError))
  {
    var n := |names| - 1;
    assert DecodeName(names[n], unquote).0 == names[n];
  }

  /** One name more, after names that decode. */
  lemma DecodeNamesStep(names: seq<Document.IndividualName>, j: nat, unquote: string -> Option<string>)
    requires j < |names| && DecodeNames(names[..j], unquote).1.None?
    ensures DecodeNames(names[..j + 1], unquote)
      == (DecodeNames(names[..j], unquote).0 + [DecodeName(names[j], unquote).0], DecodeName(names[j], unquote).1)
  {
    assert names[..j + 1][..j] == names[..j];
  }

  /** At the first given name that does not unquote, the pass stops: the names before
      it are decoded, it and the ones after it are untouched. */
  lemma DecodeNamesStopsAtFirstFailure(
    before: seq<Document.IndividualName>, n: Document.IndividualName, after: seq<Document.IndividualName>,
    unquote: string -> Option<string>)
    requires DecodeNames(before, unquote).1.None? && unquote(n.givenName).None?
    ensures DecodeNames(before + [n] + after, unquote) == (DecodeNames(before, unquote).0 + [n] + after, Some(UnquoteError))
  {
    var names := before + [n] + after;
    var k := |before|;
    assert names[..k + 1] == before + [n] && names[k + 1..] == after;
    assert (before + [n])[..k] == before;
    DecodeNamesFailsAtLast(before + [n], unquote);
    DecodeNamesAfterFailure(names, k + 1, unquote);
  }

  /** Once an individual has failed, the individuals after it are left as they were. */
  lemma {:induction false} DecodeIndividualsAfterFailure(inds: seq<Individual>, k: nat, unquote: string -> Option<string>)
    requires k <= |inds| && DecodeIndividuals(inds[..k], unquote).1.Some?
    ensures DecodeIndividuals(inds, unquote) == (DecodeIndividuals(inds[..k], unquote).0 + inds[k..], DecodeIndividuals(inds[..k], unquote).1)
    decreases |inds| - k
  {
    if k < |inds| {
      var n := |inds| - 1;
      assert inds[..n][..k] == inds[..k];
      DecodeIndividualsAfterFailure(inds[..n], k, unquote);
      var a := DecodeIndividuals(inds[..k], unquote).0;
      assert DecodeIndividuals(inds, unquote) == (a + inds[..n][k..] + [inds[n]], DecodeIndividuals(inds[..k], unquote).1);
      assert a + inds[..n][k..] + [inds[n]] == a + inds[k..];
    } else {
      assert inds[..k] == inds && inds[k..] == [];
      assert DecodeIndividuals(inds[..k], unquote).0 + inds[k..] == DecodeIndividuals(inds, unquote).0;
    }
  }

  // ------------------------------------------------------------ the document object

  /** What the document holds after a record has been added. */
  function WithAdded(inds: seq<Individual>, fams: seq<Family>, a: Added): (r: (seq<Individual>, seq<Family>))
    ensures a.AddedIndividual? ==> r == (inds + [a.individual], fams)
    ensures a.AddedFamily? ==> r == (inds, fams + [a.family])
    ensures a.AddedNothing? ==> r == (inds, fams)
  {
    match a
    case AddedIndividual(ind) => (inds + [ind], fams)
    case AddedFamily(f) => (inds, fams + [f])
    case AddedNothing => (inds, fams)
  }

  /** `ConcurrencySafeGedcom`: the document the record interpreters append to. The
      lock that guards the appends is not modelled; records are interpreted one after
      another. */
  class ConcurrencySafeGedcom {
    var header: Option<Document.Header>
    var submitters: seq<Document.Submitter>
    var individuals: seq<Individual>
    var families: seq<Family>

    /** `NewConcurrencySafeGedcom`: an empty document. */
    constructor New()
      ensures header.None? && submitters == [] && individuals == [] && families == []
    {
      header := None;
      submitters := [];
      individuals := [];
      families := [];
    }

    /** `InterpretRecord`: INDI and FAM records are interpreted, others are ignored;
        `ok` is false where Go panics, and then nothing has been appended. */
    method InterpretRecord(recordLines: seq<string>) returns (ok: bool)
      requires |recordLines| > 0
      modifies this`individuals, this`families
      ensures ok <==> RecordOf(recordLines).Some?
      ensures ok ==> (individuals, families) == WithAdded(old(individuals), old(families), RecordOf(recordLines).value)
      ensures !ok ==> individuals == old(individuals) && families == old(families)
    {
      var tag := GedcomLine.TagOf(recordLines[0]);
      if tag.None? {
        return false;
      }
      if tag.value == "INDI" {
        ok := InterpretIndividualRecord(recordLines);
      } else if tag.value == "FAM" {
        ok := InterpretFamilyRecord(recordLines);
      } else {
        ok := true;
      }
    }

    /** `interpretIndividualRecord`: the individual of the record appended once, unless
        Go panics on its way. */
    method InterpretIndividualRecord(recordLines: seq<string>) returns (ok: bool)
      requires |recordLines| > 0
      modifies this`individuals
      ensures ok <==> IndividualOf(recordLines).Some?
      ensures ok ==> individuals == old(individuals) + [IndividualOf(recordLines).value]
      ensures !ok ==> individuals == old(individuals)
    {
      var id := GedcomLine.XRefIdOf(recordLines[0]);
      if id.None? {
        return false;
      }
      var ind: Individual := Document.NewIndividual(id.value);
      var i := 0;
      while i < |recordLines|
        invariant 0 <= i <= |recordLines|
        invariant individuals == old(individuals)
        invariant IndividualScan(ind, recordLines, i) == IndividualOf(recordLines)
      {
        var level := GedcomLine.LevelOf(recordLines[i]);
        if level.None? {
          return false;
        }
        if i != 0 && level.value == 0 {
          assert IndividualScan(ind, recordLines, i) == Some(ind);
          break;
        }
        if level.value == 1 {
          var tag := GedcomLine.TagOf(recordLines[i]);
          if tag.None? {
            return false;
          }
          if tag.value == "NAME" {
            ok, ind := InterpretName(recordLines, i, ind);
          } else if tag.value == "SEX" {
            ind := InterpretSexLine(recordLines[i], ind);
            ok := true;
          } else if tag.value == "BIRT" || tag.value == "DEAT" {
            ok, ind := InterpretIndividualEvent(recordLines, i, ind, tag.value);
          } else {
            ok := true;
          }
          if !ok {
            return false;
          }
        }
        i := i + 1;
      }
      individuals := individuals + [ind];
      ok := true;
    }

    /** `interpretIndividualEvent`: the event read from the lines after line `i` up to
        the first level below 2, added as a birth or a death. */
    method InterpretIndividualEvent(recordLines: seq<string>, i: nat, ind: Individual, kind: string)
      returns (ok: bool, r: Individual)
      requires i < |recordLines|
      ensures ok <==> EventScan(Document.EmptyEvent(), recordLines[i + 1..]).Some?
      ensures ok ==> r == WithEvent(ind, EventScan(Document.EmptyEvent(), recordLines[i + 1..]).value, kind)
    {
      var e: Event := Document.EmptyEvent();
      var eventLines := recordLines[i + 1..];
      while eventLines != []
        invariant EventScan(e, eventLines) == EventScan(Document.EmptyEvent(), recordLines[i + 1..])
        decreases |eventLines|
      {
        var eventLine := eventLines[0];
        var level := GedcomLine.LevelOf(eventLine);
        if level.None? {
          return false, ind;
        }
        if level.value < 2 {
          break;
        }
        var tag := GedcomLine.TagOf(eventLine);
        if tag.None? {
          return false, ind;
        }
        e := EventStep(e, tag.value, eventLine);
        eventLines := eventLines[1..];
      }
      ok, r := true, WithEvent(ind, e, kind);
    }

    /** `interpretName`: the inline pieces of the NAME value, the primary flag from the
        `_PRIM` lines below it, added unless both pieces are empty; `ok` is false where
        Go panics, on a value without '/' or on an unreadable line below. */
    method InterpretName(recordLines: seq<string>, i: nat, ind: Individual) returns (ok: bool, r: Individual)
      requires i < |recordLines|
      ensures ok <==> NameOf(recordLines[i], recordLines[i + 1..]).Some?
      ensures ok ==> r == WithName(ind, NameOf(recordLines[i], recordLines[i + 1..]).value)
    {
      var nameParts := Strings.Split(GedcomLine.ValueOf(recordLines[i]), '/');
      if |nameParts| < 2 {
        // `nameParts[1]` is out of range.
        return false, ind;
      }
      var parts := InlineParts(GedcomLine.ValueOf(recordLines[i]));
      var name := Document.IndividualName(parts.0, parts.1, false);
      var nameLines := recordLines[i + 1..];
      while nameLines != []
        invariant name.givenName == parts.0 && name.surname == parts.1
        invariant PrimaryScan(name.primary, nameLines) == PrimaryScan(false, recordLines[i + 1..])
        decreases |nameLines|
      {
        var nameLine := nameLines[0];
        var level := GedcomLine.LevelOf(nameLine);
        if level.None? {
          return false, ind;
        }
        if level.value < 2 {
          break;
        }
        var tag := GedcomLine.TagOf(nameLine);
        if tag.None? {
          return false, ind;
        }
        if tag.value == "_PRIM" {
          name := name.(primary := NamePrimary(GedcomLine.ValueOf(nameLine)));
        }
        nameLines := nameLines[1..];
      }
      ok, r := true, WithName(ind, name);
    }

    /** `interpretSexLine`: the gender set for the values "M" and "F" only. */
    method InterpretSexLine(line: string, ind: Individual) returns (r: Individual)
      ensures r == SexStep(ind, GedcomLine.ValueOf(line))
    {
      r := ind;
      var value := GedcomLine.ValueOf(line);
      if value == "M" {
        r := r.(gender := "MALE");
      } else if value == "F" {
        r := r.(gender := "FEMALE");
      }
    }

    /** `interpretFamilyRecord`: the family of the record appended once, unless Go
        panics on its way. */
    method InterpretFamilyRecord(recordLines: seq<string>) returns (ok: bool)
      requires |recordLines| > 0
      modifies this`families
      ensures ok <==> FamilyOf(recordLines).Some?
      ensures ok ==> families == old(families) + [FamilyOf(recordLines).value]
      ensures !ok ==> families == old(families)
    {
      var id := GedcomLine.XRefIdOf(recordLines[0]);
      if id.None? {
        return false;
      }
      var f := Document.Family(id.value, "", "", []);
      var i := 0;
      while i < |recordLines|
        invariant 0 <= i <= |recordLines|
        invariant families == old(families)
        invariant FamilyScan(f, recordLines, i) == FamilyOf(recordLines)
      {
        if i != 0 {
          var level := GedcomLine.LevelOf(recordLines[i]);
          if level.None? {
            return false;
          }
          if level.value == 0 {
            assert FamilyScan(f, recordLines, i) == Some(f);
            break;
          }
        }
        var tag := GedcomLine.TagOf(recordLines[i]);
        if tag.None? {
          return false;
        }
        var value := GedcomLine.ValueOf(recordLines[i]);
        if tag.value == "HUSB" {
          f := f.(fatherId := value);
        } else if tag.value == "WIFE" {
          f := f.(motherId := value);
        } else if tag.value == "CHIL" {
          f := f.(childIds := f.childIds + [value]);
        }
        i := i + 1;
      }
      families := families + [f];
      ok := true;
    }

    /** `IndividualsByIds`. */
    method IndividualsByIds() returns (r: map<string, Individual>)
      ensures r == IndexById(individuals)
    {
      r := map[];
      for k := 0 to |individuals|
        invariant r == IndexById(individuals[..k])
      {
        assert individuals[..k + 1][..k] == individuals[..k];
        r := r[individuals[k].id := individuals[k]];
      }
      assert individuals[..|individuals|] == individuals;
    }

    /** `RemoveInvalidFamilies`: the positions of the families with a mother, father or
        child that is not an individual's id are collected and removed in increasing
        order (see `RemoveFamiliesAt`). `ok` is false where Go panics; otherwise the
        families left are exactly those whose references all resolve. */
    method RemoveInvalidFamilies() returns (ok: bool)
      modifies this`families
      ensures var r := RemoveFamiliesInOrder(old(families), InvalidFamilyIndices(old(families), IndexById(individuals).Keys));
              && (ok <==> r.Some?)
              && (ok ==> families == r.value)
      ensures ok ==> multiset(families) == multiset(Kept(old(families), IndexById(individuals).Keys))
    {
      var indexedIndividuals := IndividualsByIds();
      var familyIndicesToRemove := FamilyIndicesToRemove(indexedIndividuals);
      RemoveInvalidFamiliesKeepsResolving(families, indexedIndividuals.Keys);
      ok := RemoveFamiliesAt(familyIndicesToRemove);
    }

    /** The pass as evidently intended: the same positions removed from the highest
        down (see `RemoveFamiliesHighestFirst`), which never panics. */
    method RemoveInvalidFamiliesHighestFirst()
      modifies this`families
      ensures families == RemoveFamiliesFromTheEnd(old(families), InvalidFamilyIndices(old(families), IndexById(individuals).Keys))
      ensures multiset(families) == multiset(Kept(old(families), IndexById(individuals).Keys))
    {
      var indexedIndividuals := IndividualsByIds();
      var familyIndicesToRemove := FamilyIndicesToRemove(indexedIndividuals);
      RemoveFromTheEndKeepsResolving(families, indexedIndividuals.Keys);
      RemoveFamiliesHighestFirst(familyIndicesToRemove);
    }

    /** The loop of `RemoveInvalidFamilies` that collects, in order, the position of
        each family with a reference that is not a key of the index. */
    method FamilyIndicesToRemove(indexedIndividuals: map<string, Individual>) returns (familyIndicesToRemove: seq<nat>)
      ensures familyIndicesToRemove == InvalidFamilyIndices(families, indexedIndividuals.Keys)
    {
      ghost var ids := indexedIndividuals.Keys;
      familyIndicesToRemove := [];
      label familiesLoop:
      for i := 0 to |families|
        invariant familyIndicesToRemove == InvalidFamilyIndices(families[..i], ids)
      {
        InvalidFamilyIndicesStep(families, i, ids);
        var f := families[i];
        if f.motherId !in indexedIndividuals {
          familyIndicesToRemove := familyIndicesToRemove + [i];
          continue;
        }
        if f.fatherId !in indexedIndividuals {
          familyIndicesToRemove := familyIndicesToRemove + [i];
          continue;
        }
        for c := 0 to |f.childIds|
          invariant familyIndicesToRemove == InvalidFamilyIndices(families[..i], ids)
          invariant forall k :: 0 <= k < c ==> f.childIds[k] in ids
        {
          if f.childIds[c] !in indexedIndividuals {
            familyIndicesToRemove := familyIndicesToRemove + [i];
            continue familiesLoop;
          }
        }
        assert Resolves(f, ids);
      }
      assert families[..|families|] == families;
    }

    /** `removeFamiliesAt`: `withoutFamily` for each position in the order given, against
        the shrinking list; `ok` is false when a position is out of range, where Go
        panics. */
    method RemoveFamiliesAt(indices: seq<nat>) returns (ok: bool)
      modifies this`families
      ensures ok <==> RemoveFamiliesInOrder(old(families), indices).Some?
      ensures ok ==> families == RemoveFamiliesInOrder(old(families), indices).value
    {
      var k := 0;
      while k < |indices|
        invariant 0 <= k <= |indices|
        invariant RemoveFamiliesInOrder(families, indices[k..]) == RemoveFamiliesInOrder(old(families), indices)
      {
        assert indices[k..][1..] == indices[k + 1..];
        if indices[k] >= |families| {
          return false;
        }
        families := WithoutFamily(families, indices[k]);
        k := k + 1;
      }
      ok := true;
    }

    /** `removeFamiliesAt` as evidently intended: `withoutFamily` for each position,
        the highest first, so that every position still holds the family found there. */
    method RemoveFamiliesHighestFirst(indices: seq<nat>)
      requires Increasing(indices)
      requires forall k :: 0 <= k < |indices| ==> indices[k] < |families|
      modifies this`families
      ensures families == RemoveFamiliesFromTheEnd(old(families), indices)
    {
      var k := |indices|;
      assert indices[..k] == indices;
      while k > 0
        invariant 0 <= k <= |indices|
        invariant forall j :: 0 <= j < k ==> indices[j] < |families|
        invariant RemoveFamiliesFromTheEnd(families, indices[..k]) == RemoveFamiliesFromTheEnd(old(families), indices)
      {
        assert indices[..k][..k - 1] == indices[..k - 1];
        families := WithoutFamily(families, indices[k - 1]);
        k := k - 1;
      }
    }

    /** `DecodeUnicodeFields`: every given name and surname unquoted in place, stopping
        with the error at the first that does not unquote. */
    method DecodeUnicodeFields() returns (err: Option<string>)
      modifies this`individuals
      ensures (individuals, err) == DecodeIndividuals(old(individuals), StrConv.Unquote)
    {
      ghost var inds := individuals;
      var i := 0;
      while i < |individuals|
        invariant 0 <= i <= |individuals| == |inds|
        invariant individuals[i..] == inds[i..]
        invariant DecodeIndividuals(inds[..i], StrConv.Unquote) == (individuals[..i], None)
      {
        UpdateAt(individuals, inds, i, individuals[i]);
        assert inds[..i + 1][..i] == inds[..i];
        var names, namesErr := DecodeNamesOf(individuals[i].names);
        UpdateAt(individuals, inds, i, individuals[i].(names := names));
        individuals := individuals[i := individuals[i].(names := names)];
        if namesErr.Some? {
          DecodeIndividualsAfterFailure(inds, i + 1, StrConv.Unquote);
          return namesErr;
        }
        i := i + 1;
      }
      assert individuals[..i] == individuals && inds[..i] == inds;
      return None;
    }

    /** The body of the inner loop of `DecodeUnicodeFields`: the given name replaced
        by its unquoted form, then the surname, stopping at the first error. */
    method DecodeNameOf(n: Document.IndividualName) returns (r: Document.IndividualName, err: Option<string>)
      ensures (r, err) == DecodeName(n, StrConv.Unquote)
    {
      r := n;
      var decodedGivenName := StrConv.Unquote(r.givenName);
      if decodedGivenName.None? {
        return r, Some(UnquoteError);
      }
      r := r.(givenName := decodedGivenName.value);
      var decodedSurname := StrConv.Unquote(r.surname);
      if decodedSurname.None? {
        return r, Some(UnquoteError);
      }
      r := r.(surname := decodedSurname.value);
      err := None;
    }

    /** The inner loop of `DecodeUnicodeFields`, over the names of one individual. */
    method DecodeNamesOf(names0: seq<Document.IndividualName>) returns (names: seq<Document.IndividualName>, err: Option<string>)
      ensures (names, err) == DecodeNames(names0, StrConv.Unquote)
    {
      names := names0;
      var j := 0;
      while j < |names|
        invariant 0 <= j <= |names| == |names0|
        invariant names[j..] == names0[j..]
        invariant DecodeNames(names0[..j], StrConv.Unquote) == (names[..j], None)
      {
        UpdateAt(names, names0, j, names[j]);
        DecodeNamesStep(names0, j, StrConv.Unquote);
        var decoded, nameErr := DecodeNameOf(names[j]);
        UpdateAt(names, names0, j, decoded);
        names := names[j := decoded];
        if nameErr.Some? {
          DecodeNamesAfterFailure(names0, j + 1, StrConv.Unquote);
          return names, nameErr;
        }
        j := j + 1;
      }
      assert names[..j] == names && names0[..j] == names0;
      err := None;
    }
  }
}

