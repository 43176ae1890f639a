/** gedcom/interpret.go: the record interpreters in the version whose accessors return
    plain values. Every scan passes over lines whose level or tag cannot be read. The
    one panic modelled is the name split: a NAME value without '/' splits into one
    piece and `nameParts[1]` is out of range (the tokenizer's panic on an empty second
    token is not modelled). The loop over an individual's lines counts positions in
    `recordLines[1:]` but hands that count to the name and event interpreters as a
    position in `recordLines`. Their scans therefore start at the dispatching line
    itself, not at the line after it. The record is appended to the document's lists;
    the lock around the append is left out. */
module Interpret {
  import opened Wrappers
  import Strings
  import Util
  import GedcomLine
  import ChildScan
  import Document
  import Gedcom

  type Event = Gedcom.Event
  type Individual = Gedcom.Individual
  type Family = Gedcom.Family

  // ------------------------------------------------------------ events (lines 59-98)

  /** One line of an event: DATE, PLAC and exact-valued _PRIM, as in gedcom/gedcom.go. */
  function EventLineStep(e: Event, tag: string, raw: string, following: seq<string>): (r: Event)
    ensures tag != "DATE" && tag != "PLAC" && tag != "_PRIM" ==> r == e
  {
    Gedcom.EventStep(e, tag, raw)
  }

  /** The event read from `scanLines`: every line up to the first of level 1 or less. */
  function EventFrom(scanLines: seq<string>): Event
  {
    ChildScan.Scan(Document.EmptyEvent(), 1, scanLines, EventLineStep)
  }

  /** `interpretIndividualEvent`: the event read from `recordLines[i+1:]`, added to the
      births or the deaths by `kind`. */
  method InterpretIndividualEvent(recordLines: seq<string>, i: nat, ind: Individual, kind: string)
    returns (r: Individual)
    requires i + 1 <= |recordLines|
    ensures r == Gedcom.WithEvent(ind, EventFrom(recordLines[i + 1..]), kind)
  {
    var e := Document.EmptyEvent();
    var rest := recordLines[i + 1..];
    while rest != []
      invariant ChildScan.Scan(e, 1, rest, EventLineStep) == EventFrom(recordLines[i + 1..])
      decreases |rest|
    {
      var eventLine := rest[0];
      var level := GedcomLine.LevelOf(eventLine);
      if level.None? {
        rest := rest[1..];
        continue;
      }
      if level.value < 2 {
        break;
      }
      var tag := GedcomLine.TagOf(eventLine);
      if tag.None? {
        rest := rest[1..];
        continue;
      }
      if tag.value == "DATE" {
        e := e.(date := Some(Gedcom.ParseDate(GedcomLine.ValueOf(eventLine))));
      }
      if tag.value == "PLAC" {
        e := e.(place := GedcomLine.ValueOf(eventLine));
      }
      if tag.value == "_PRIM" {
        var value := GedcomLine.ValueOf(eventLine);
        if value in Util.PrimaryBoolByValue {
          e := e.(primary := Util.PrimaryBoolByValue[value]);
        }
      }
      rest := rest[1..];
    }
    r := Gedcom.WithEvent(ind, e, kind);
  }

  // ------------------------------------------------------------ names (lines 100-133)

  /** One line of a name: GIVN and SURN set their part to the value, _PRIM sets the
      flag to the table entry of the upper-cased value (false when it has none). */
  function NameLineStep(name: Document.IndividualName, tag: string, raw: string, following: seq<string>)
    : (r: Document.IndividualName)
    ensures tag == "GIVN" ==> r == name.(givenName := GedcomLine.ValueOf(raw))
    ensures tag == "SURN" ==> r == name.(surname := GedcomLine.ValueOf(raw))
    ensures tag != "GIVN" && tag != "SURN" && tag != "_PRIM" ==> r == name
  {
    var value := GedcomLine.ValueOf(raw);
    if tag == "GIVN" then name.(givenName := value)
    else if tag == "SURN" then name.(surname := value)
    else if tag == "_PRIM" then name.(primary := Gedcom.NamePrimary(value))
    else name
  }

  /** The name of the NAME line `line`: its inline pieces (read as evidently intended,
      see `Gedcom.InlineParts`), then the children read from `scanLines`. */
  function NameFrom(line: string, scanLines: seq<string>): Document.IndividualName
  {
    var parts := Gedcom.InlineParts(GedcomLine.ValueOf(line));
    ChildScan.Scan(Document.IndividualName(parts.0, parts.1, false), 1, scanLines, NameLineStep)
  }

  /** `interpretName`: the name read from `line` and `recordLines[i+1:]`, added when
      one of its parts is non-empty; `ok` is false where Go panics, on a value without
      '/'. */
  method InterpretName(line: string, recordLines: seq<string>, i: nat, ind: Individual)
    returns (ok: bool, r: Individual)
    requires i + 1 <= |recordLines|
    ensures ok <==> !Gedcom.NamePartsIndexPanics(GedcomLine.ValueOf(line))
    ensures ok ==> r == Gedcom.WithName(ind, NameFrom(line, recordLines[i + 1..]))
  {
    var nameParts := Strings.Split(GedcomLine.ValueOf(line), '/');
    if |nameParts| < 2 {
      // `nameParts[1]` is out of range.
      return false, ind;
    }
    var parts := Gedcom.InlineParts(GedcomLine.ValueOf(line));
    var name := Document.IndividualName(parts.0, parts.1, false);
    var rest := recordLines[i + 1..];
    while rest != []
      invariant ChildScan.Scan(name, 1, rest, NameLineStep) == NameFrom(line, recordLines[i + 1..])
      decreases |rest|
    {
      var nameLine := rest[0];
      var level := GedcomLine.LevelOf(nameLine);
      if level.None? {
        rest := rest[1..];
        continue;
      }
      if level.value < 2 {
        break;
      }
      var tag := GedcomLine.TagOf(nameLine);
      if tag.None? {
        rest := rest[1..];
        continue;
      }
      name := NameLineStep(name, tag.value, nameLine, rest[1..]);
      rest := rest[1..];
    }
    ok := true;
    if name.givenName != "" || name.surname != "" {
      r := ind.(names := ind.names + [name]);
    } else {
      r := ind;
    }
  }

  // ------------------------------------------------------------ sex (lines 135-139)

  /** `interpretSexLine`, given the line's value: the gender set when the value is a
      letter of the table. */
  method InterpretSexLine(value: string, ind: Individual) returns (r: Individual)
    ensures r == Gedcom.SexStep(ind, value)
  {
    if value in Util.GenderFullByLetter {
      r := ind.(gender := Util.GenderFullByLetter[value]);
    } else {
      r := ind;
    }
  }

  // ------------------------------------------------------------ individuals (lines 24-57)

  /** One line of an individual's record, with the lines after it. The name and event
      scans are handed the line itself followed by those lines. */
  function IndividualLineStep(ind: Individual, tag: string, raw: string, following: seq<string>): (r: Individual)
  {
    if tag == "NAME" then Gedcom.WithName(ind, NameFrom(raw, [raw] + following))
    else if tag == "SEX" then Gedcom.SexStep(ind, GedcomLine.ValueOf(raw))
    else if tag == "BIRT" || tag == "DEAT" then Gedcom.WithEvent(ind, EventFrom([raw] + following), tag)
    else ind
  }

  /** The individual of a record: the id of its first line ("" when it has none), then
      the lines after the first, up to the first line of level 0. */
  function IndividualOf(recordLines: seq<string>): Individual
    requires |recordLines| > 0
  {
    ChildScan.Scan(Document.NewIndividual(GedcomLine.XRefIdOf(recordLines[0]).GetOr("")), 0,
                   recordLines[1..], IndividualLineStep)
  }

  /** Whether the scan of an individual's lines reaches a NAME line whose value has no
      '/', where `interpretName` panics. */
  predicate NamePanics(lines: seq<string>)
    decreases |lines|
  {
    if lines == [] || ChildScan.EndsScope(0, lines[0]) then false
    else if ChildScan.Visited(0, lines[0]) && GedcomLine.TagOf(lines[0]).value == "NAME"
            && Gedcom.NamePartsIndexPanics(GedcomLine.ValueOf(lines[0])) then true
    else NamePanics(lines[1..])
  }

  /** Every NAME line of the record, before the next record, whose text after the tag
      has no '/' makes the interpretation panic. */
  lemma {:induction false} SlashlessNamePanics(lines: seq<string>, k: nat)
    requires k < |lines| && ChildScan.NoEnd(0, lines[..k])
    requires ChildScan.Visited(0, lines[k]) && GedcomLine.TagOf(lines[k]) == Some("NAME")
    requires '/' !in GedcomLine.RawValueOf(lines[k])
    ensures NamePanics(lines)
    decreases k
  {
    Gedcom.NameWithoutSlashPanics(lines[k]);
    if k > 0 {
      assert lines[..k][0] == lines[0];
      assert lines[1..][..k - 1] == lines[..k][1..];
      SlashlessNamePanics(lines[1..], k - 1);
    }
  }

  /** `interpretIndividualRecord`: exactly one individual is appended, unless Go panics
      on a name first; then nothing is. */
  method InterpretIndividualRecord(g: Gedcom.ConcurrencySafeGedcom, recordLines: seq<string>) returns (ok: bool)
    requires |recordLines| > 0
    modifies g`individuals
    ensures ok <==> !NamePanics(recordLines[1..])
    ensures ok ==> g.individuals == old(g.individuals) + [IndividualOf(recordLines)]
    ensures !ok ==> g.individuals == old(g.individuals)
  {
    var ind := Document.NewIndividual(GedcomLine.XRefIdOf(recordLines[0]).GetOr(""));
    var rest := recordLines[1..];
    var i := 0;
    while rest != []
      invariant g.individuals == old(g.individuals)
      invariant i + 1 <= |recordLines| && rest == recordLines[i + 1..]
      invariant ChildScan.Scan(ind, 0, rest, IndividualLineStep) == IndividualOf(recordLines)
      invariant NamePanics(rest) == NamePanics(recordLines[1..])
      decreases |rest|
    {
      var line := rest[0];
      assert recordLines[i + 1..] == [line] + rest[1..];
      var level := GedcomLine.LevelOf(line);
      if level.None? {
        rest, i := rest[1..], i + 1;
        continue;
      }
      if level.value < 1 {
        break;
      }
      var tag := GedcomLine.TagOf(line);
      if tag.None? {
        rest, i := rest[1..], i + 1;
        continue;
      }
      ghost var next := IndividualLineStep(ind, tag.value, line, rest[1..]);
      if tag.value == "NAME" {
        ok, ind := InterpretName(line, recordLines, i, ind);
        if !ok {
          return false;
        }
      } else if tag.value == "SEX" {
        ind := InterpretSexLine(GedcomLine.ValueOf(line), ind);
      } else if tag.value == "BIRT" {
        ind := InterpretIndividualEvent(recordLines, i, ind, "BIRT");
      } else if tag.value == "DEAT" {
        ind := InterpretIndividualEvent(recordLines, i, ind, "DEAT");
      }
      assert ind == next;
      rest, i := rest[1..], i + 1;
    }
    g.individuals := g.individuals + [ind];
    ok := true;
  }

  // ------------------------------------------------------------ families (lines 162-190)

  function FamilyLineStep(f: Family, tag: string, raw: string, following: seq<string>): (r: Family)
  {
    Gedcom.FamilyStep(f, tag, GedcomLine.ValueOf(raw))
  }

  /** The family of a record: the id of its first line ("" when it has none), then every
      line from the first on, up to the first line of level 0 — which is usually the
      first line itself. */
  function FamilyOf(recordLines: seq<string>): Family
    requires |recordLines| > 0
  {
    ChildScan.Scan(Document.Family(GedcomLine.XRefIdOf(recordLines[0]).GetOr(""), "", "", []), 0,
                   recordLines, FamilyLineStep)
  }

  /** `interpretFamilyRecord`: exactly one family is appended. */
  method InterpretFamilyRecord(g: Gedcom.ConcurrencySafeGedcom, recordLines: seq<string>)
    requires |recordLines| > 0
    modifies g`families
    ensures g.families == old(g.families) + [FamilyOf(recordLines)]
  {
    var f := Document.Family(GedcomLine.XRefIdOf(recordLines[0]).GetOr(""), "", "", []);
    var rest := recordLines;
    while rest != []
      invariant g.families == old(g.families)
      invariant ChildScan.Scan(f, 0, rest, FamilyLineStep) == FamilyOf(recordLines)
      decreases |rest|
    {
      var line := rest[0];
      var level := GedcomLine.LevelOf(line);
      if level.None? {
        rest := rest[1..];
        continue;
      }
      if level.value < 1 {
        break;
      }
      var tag := GedcomLine.TagOf(line);
      if tag.None? {
        rest := rest[1..];
        continue;
      }
      if tag.value == "HUSB" {
        f := f.(fatherId := GedcomLine.ValueOf(line));
      } else if tag.value == "WIFE" {
        f := f.(motherId := GedcomLine.ValueOf(line));
      } else if tag.value == "CHIL" {
        f := f.(childIds := f.childIds + [GedcomLine.ValueOf(line)]);
      }
      rest := rest[1..];
    }
    g.families := g.families + [f];
  }

  // ------------------------------------------------------------ records (lines 10-22)

  /** What a record adds: an individual for INDI, a family for FAM, nothing for any
      other tag and nothing when the first line's tag cannot be read; `None` when an
      individual's name panics. */
  function RecordOf(recordLines: seq<string>): (r: Option<Gedcom.Added>)
    requires |recordLines| > 0
    ensures r.None? <==> GedcomLine.TagOf(recordLines[0]) == Some("INDI") && NamePanics(recordLines[1..])
    ensures r.Some? ==> (r.value.AddedIndividual? <==> GedcomLine.TagOf(recordLines[0]) == Some("INDI"))
    ensures r.Some? ==> (r.value.AddedFamily? <==> GedcomLine.TagOf(recordLines[0]) == Some("FAM"))
  {
    match GedcomLine.TagOf(recordLines[0])
    case None => Some(Gedcom.AddedNothing)
    case Some(tag) =>
      if tag == "INDI" then
        if NamePanics(recordLines[1..]) then None else Some(Gedcom.AddedIndividual(IndividualOf(recordLines)))
      else if tag == "FAM" then Some(Gedcom.AddedFamily(FamilyOf(recordLines)))
      else Some(Gedcom.AddedNothing)
  }

  /** Whether `InterpretRecord` reaches `waitGroup.Done`: it returns before it when the
      first line's tag cannot be read. */
  predicate SignalsDone(recordLines: seq<string>)
    requires |recordLines| > 0
  {
    GedcomLine.TagOf(recordLines[0]).Some?
  }

  /** `InterpretRecord`: the record's individual or family appended, or nothing; `ok` is
      false where Go panics, and `done` says whether the wait group is signalled. */
  method InterpretRecord(g: Gedcom.ConcurrencySafeGedcom, recordLines: seq<string>) returns (ok: bool, done: bool)
    requires |recordLines| > 0
    modifies g`individuals, g`families
    ensures ok <==> RecordOf(recordLines).Some?
    ensures done <==> SignalsDone(recordLines)
    ensures ok ==> (g.individuals, g.families) == Gedcom.WithAdded(old(g.individuals), old(g.families), RecordOf(recordLines).value)
    ensures !ok ==> g.individuals == old(g.individuals) && g.families == old(g.families)
  {
    var tag := GedcomLine.TagOf(recordLines[0]);
    if tag.None? {
      return true, false;
    }
    ok := true;
    if tag.value == "INDI" {
      ok := InterpretIndividualRecord(g, recordLines);
    } else if tag.value == "FAM" {
      InterpretFamilyRecord(g, recordLines);
    }
    done := true;
  }

  // ------------------------------------------------------------ properties

  /** A scan handed a first line of level 1 or less reads nothing: the event of a
      level-1 BIRT or DEAT line is always empty. */
  lemma EventOfLevelOneLineIsEmpty(raw: string, following: seq<string>)
    requires ChildScan.EndsScope(1, raw)
    ensures EventFrom([raw] + following) == Document.EmptyEvent()
  {
    assert ([raw] + following)[0] == raw;
  }

  /** Likewise the name of a level-1 NAME line is its inline pieces alone: GIVN, SURN
      and _PRIM children are never read, and the name is never primary. */
  lemma NameOfLevelOneLineIsInline(raw: string, following: seq<string>)
    requires ChildScan.EndsScope(1, raw)
    ensures var parts := Gedcom.InlineParts(GedcomLine.ValueOf(raw));
            NameFrom(raw, [raw] + following) == Document.IndividualName(parts.0, parts.1, false)
  {
    assert ([raw] + following)[0] == raw;
  }

  /** The number of lines of `lines` the scan at level `root` hands to its step with
      tag `tag`. */
  function CountVisited(root: int, lines: seq<string>, tag: string): (n: nat)
    ensures n <= |lines|
    decreases |lines|
  {
    if lines == [] || ChildScan.EndsScope(root, lines[0]) then 0
    else if ChildScan.Visited(root, lines[0]) && GedcomLine.TagOf(lines[0]).value == tag then
      1 + CountVisited(root, lines[1..], tag)
    else CountVisited(root, lines[1..], tag)
  }

  lemma IndividualLineStepCounts(ind: Individual, tag: string, raw: string, following: seq<string>)
    ensures var r := IndividualLineStep(ind, tag, raw, following);
            && r.birthEvents == ind.birthEvents + (if tag == "BIRT" then [EventFrom([raw] + following)] else [])
            && r.deathEvents == ind.deathEvents + (if tag == "DEAT" then [EventFrom([raw] + following)] else [])
            && r.id == ind.id
  {
  }

  /** Each BIRT line of the record adds one birth event and each DEAT line one death
      event, and the events already there stay in front. */
  lemma {:induction false} EventsCounted(ind: Individual, lines: seq<string>)
    ensures var r := ChildScan.Scan(ind, 0, lines, IndividualLineStep);
            && |r.birthEvents| == |ind.birthEvents| + CountVisited(0, lines, "BIRT")
            && |r.deathEvents| == |ind.deathEvents| + CountVisited(0, lines, "DEAT")
            && ind.birthEvents <= r.birthEvents && ind.deathEvents <= r.deathEvents
            && r.id == ind.id
    decreases |lines|
  {
    if lines != [] && !ChildScan.EndsScope(0, lines[0]) {
      if ChildScan.Visited(0, lines[0]) {
        var next := IndividualLineStep(ind, GedcomLine.TagOf(lines[0]).value, lines[0], lines[1..]);
        IndividualLineStepCounts(ind, GedcomLine.TagOf(lines[0]).value, lines[0], lines[1..]);
        EventsCounted(next, lines[1..]);
      } else {
        EventsCounted(ind, lines[1..]);
      }
    }
  }

  /** The individual appended has the id of the record's first line and one event per
      BIRT or DEAT line before the next record. */
  lemma IndividualOfCounts(recordLines: seq<string>)
    requires |recordLines| > 0
    ensures var r := IndividualOf(recordLines);
            && r.id == GedcomLine.XRefIdOf(recordLines[0]).GetOr("")
            && |r.birthEvents| == CountVisited(0, recordLines[1..], "BIRT")
            && |r.deathEvents| == CountVisited(0, recordLines[1..], "DEAT")
  {
    EventsCounted(Document.NewIndividual(GedcomLine.XRefIdOf(recordLines[0]).GetOr("")), recordLines[1..]);
  }

  /** All events of the individual are empty. */
  predicate EventsEmpty(ind: Individual)
  {
    && (forall k :: 0 <= k < |ind.birthEvents| ==> ind.birthEvents[k] == Document.EmptyEvent())
    && (forall k :: 0 <= k < |ind.deathEvents| ==> ind.deathEvents[k] == Document.EmptyEvent())
  }

  /** Where every BIRT and DEAT line sits at level 1, as the record format places them,
      every event read is empty: no date, no place, not primary. */
  lemma {:induction false} LevelOneEventsStayEmpty(ind: Individual, lines: seq<string>)
    requires EventsEmpty(ind)
    requires forall k :: 0 <= k < |lines| && (GedcomLine.TagOf(lines[k]) == Some("BIRT") || GedcomLine.TagOf(lines[k]) == Some("DEAT"))
               ==> GedcomLine.LevelOf(lines[k]) == Some(1)
    ensures EventsEmpty(ChildScan.Scan(ind, 0, lines, IndividualLineStep))
    decreases |lines|
  {
    if lines != [] && !ChildScan.EndsScope(0, lines[0]) {
      var rest := lines[1..];
      assert forall k :: 0 <= k < |rest| ==> rest[k] == lines[k + 1];
      if ChildScan.Visited(0, lines[0]) {
        var tag := GedcomLine.TagOf(lines[0]).value;
        if tag == "BIRT" || tag == "DEAT" {
          EventOfLevelOneLineIsEmpty(lines[0], rest);
        }
        LevelOneEventsStayEmpty(IndividualLineStep(ind, tag, lines[0], rest), rest);
      } else {
        LevelOneEventsStayEmpty(ind, rest);
      }
    }
  }

  /** The record ends at its first line of level 0: nothing after it changes the
      individual, although the name and event scans are handed the following lines. */
  lemma {:induction false} IndividualEndsAtLevelZero(ind: Individual, a: seq<string>, stop: string, b: seq<string>)
    requires ChildScan.EndsScope(0, stop)
    ensures ChildScan.Scan(ind, 0, a + [stop] + b, IndividualLineStep)
         == ChildScan.Scan(ind, 0, a + [stop], IndividualLineStep)
    decreases |a|
  {
    var long := a + [stop] + b;
    var short := a + [stop];
    if a == [] {
      assert long[0] == stop && short[0] == stop;
    } else {
      var x := a[0];
      assert long == [x] + (a[1..] + [stop] + b);
      assert short == [x] + (a[1..] + [stop]);
      ChildScan.ScanCons(ind, 0, x, a[1..] + [stop] + b, IndividualLineStep);
      ChildScan.ScanCons(ind, 0, x, a[1..] + [stop], IndividualLineStep);
      if ChildScan.Visited(0, x) && !ChildScan.EndsScope(0, x) {
        var tag := GedcomLine.TagOf(x).value;
        StepEndsAtLevelZero(ind, tag, x, a[1..], stop, b);
        IndividualEndsAtLevelZero(IndividualLineStep(ind, tag, x, a[1..] + [stop]), a[1..], stop, b);
      } else {
        IndividualEndsAtLevelZero(ind, a[1..], stop, b);
      }
    }
  }

  /** The step of a line in the record does not see past a line of level 0. */
  lemma StepEndsAtLevelZero(ind: Individual, tag: string, raw: string, a: seq<string>, stop: string, b: seq<string>)
    requires ChildScan.EndsScope(0, stop)
    ensures IndividualLineStep(ind, tag, raw, a + [stop] + b) == IndividualLineStep(ind, tag, raw, a + [stop])
  {
    SubScansEndAtLevelZero(raw, a, stop, b);
  }

  /** A line of level 0 closes the name and event scans as well. */
  lemma SubScansEndAtLevelZero(raw: string, a: seq<string>, stop: string, b: seq<string>)
    requires ChildScan.EndsScope(0, stop)
    ensures EventFrom([raw] + (a + [stop] + b)) == EventFrom([raw] + (a + [stop]))
    ensures NameFrom(raw, [raw] + (a + [stop] + b)) == NameFrom(raw, [raw] + (a + [stop]))
  {
    assert ChildScan.EndsScope(1, stop);
    var c := [raw] + a;
    assert [raw] + (a + [stop] + b) == c + [stop] + b;
    assert [raw] + (a + [stop]) == c + [stop] + [];
    assert forall t, tag, r0, rest1, rest2 :: EventLineStep(t, tag, r0, rest1) == EventLineStep(t, tag, r0, rest2);
    assert forall t, tag, r0, rest1, rest2 :: NameLineStep(t, tag, r0, rest1) == NameLineStep(t, tag, r0, rest2);
    ChildScan.ScanEndsAt(Document.EmptyEvent(), 1, c, stop, b, EventLineStep);
    ChildScan.ScanEndsAt(Document.EmptyEvent(), 1, c, stop, [], EventLineStep);
    var parts := Gedcom.InlineParts(GedcomLine.ValueOf(raw));
    var n := Document.IndividualName(parts.0, parts.1, false);
    ChildScan.ScanEndsAt(n, 1, c, stop, b, NameLineStep);
    ChildScan.ScanEndsAt(n, 1, c, stop, [], NameLineStep);
  }

  /** The interpreted individual carries the marks of values that are always quoted: no
      gender, no primary name, no primary event, and dates with year and day 0. */
  lemma {:induction false} IndividualScanFromText(ind: Individual, lines: seq<string>)
    requires Gedcom.IndividualFromText(ind)
    ensures Gedcom.IndividualFromText(ChildScan.Scan(ind, 0, lines, IndividualLineStep))
    decreases |lines|
  {
    if lines != [] && !ChildScan.EndsScope(0, lines[0]) {
      if ChildScan.Visited(0, lines[0]) {
        var tag := GedcomLine.TagOf(lines[0]).value;
        IndividualStepFromText(ind, tag, lines[0], lines[1..]);
        IndividualScanFromText(IndividualLineStep(ind, tag, lines[0], lines[1..]), lines[1..]);
      } else {
        IndividualScanFromText(ind, lines[1..]);
      }
    }
  }

  /** One line of the record keeps the marks of quoted values. */
  lemma IndividualStepFromText(ind: Individual, tag: string, raw: string, following: seq<string>)
    requires Gedcom.IndividualFromText(ind)
    ensures Gedcom.IndividualFromText(IndividualLineStep(ind, tag, raw, following))
  {
    var scanLines := [raw] + following;
    if tag == "NAME" {
      var parts := Gedcom.InlineParts(GedcomLine.ValueOf(raw));
      NamePrimaryStaysFalse(Document.IndividualName(parts.0, parts.1, false), scanLines);
    } else if tag == "SEX" {
      assert GedcomLine.ValueOf(raw) != "M" && GedcomLine.ValueOf(raw) != "F";
    } else if tag == "BIRT" || tag == "DEAT" {
      EventScanFromText(Document.EmptyEvent(), scanLines);
    }
  }

  lemma {:induction false} NamePrimaryStaysFalse(name: Document.IndividualName, lines: seq<string>)
    requires !name.primary
    ensures !ChildScan.Scan(name, 1, lines, NameLineStep).primary
    decreases |lines|
  {
    if lines != [] && !ChildScan.EndsScope(1, lines[0]) {
      if ChildScan.Visited(1, lines[0]) {
        Gedcom.NamePrimaryOfValue(lines[0]);
        var next := NameLineStep(name, GedcomLine.TagOf(lines[0]).value, lines[0], lines[1..]);
        NamePrimaryStaysFalse(next, lines[1..]);
      } else {
        NamePrimaryStaysFalse(name, lines[1..]);
      }
    }
  }

  lemma {:induction false} EventScanFromText(e: Event, lines: seq<string>)
    requires Gedcom.EventFromText(e)
    ensures Gedcom.EventFromText(ChildScan.Scan(e, 1, lines, EventLineStep))
    decreases |lines|
  {
    if lines != [] && !ChildScan.EndsScope(1, lines[0]) {
      if ChildScan.Visited(1, lines[0]) {
        var tag := GedcomLine.TagOf(lines[0]).value;
        Gedcom.EventStepFromText(e, tag, lines[0]);
        EventScanFromText(EventLineStep(e, tag, lines[0], lines[1..]), lines[1..]);
      } else {
        EventScanFromText(e, lines[1..]);
      }
    }
  }

  lemma IndividualOfFromText(recordLines: seq<string>)
    requires |recordLines| > 0
    ensures Gedcom.IndividualFromText(IndividualOf(recordLines))
  {
    IndividualScanFromText(Document.NewIndividual(GedcomLine.XRefIdOf(recordLines[0]).GetOr("")), recordLines[1..]);
  }

  /** A family record opened by a line of level 0 — every well-formed one — ends at that
      line: the family appended has its id and nothing else. */
  lemma FamilyOfLevelZeroIsBare(recordLines: seq<string>)
    requires |recordLines| > 0 && GedcomLine.LevelOf(recordLines[0]) == Some(0)
    ensures FamilyOf(recordLines) == Document.Family(GedcomLine.XRefIdOf(recordLines[0]).GetOr(""), "", "", [])
  {
  }

  /** When the first line's level cannot be read, the lines up to the next of level 0
      are read: HUSB and WIFE set their reference (the last one wins), and each CHIL
      appends one child, in order. */
  lemma {:induction false} FamilyScanAppendsChildren(f: Family, lines: seq<string>)
    ensures var r := ChildScan.Scan(f, 0, lines, FamilyLineStep);
            && r.id == f.id
            && |r.childIds| == |f.childIds| + CountVisited(0, lines, "CHIL")
            && f.childIds <= r.childIds
            && (CountVisited(0, lines, "HUSB") == 0 ==> r.fatherId == f.fatherId)
            && (CountVisited(0, lines, "WIFE") == 0 ==> r.motherId == f.motherId)
    decreases |lines|
  {
    if lines != [] && !ChildScan.EndsScope(0, lines[0]) {
      if ChildScan.Visited(0, lines[0]) {
        FamilyScanAppendsChildren(FamilyLineStep(f, GedcomLine.TagOf(lines[0]).value, lines[0], lines[1..]), lines[1..]);
      } else {
        FamilyScanAppendsChildren(f, lines[1..]);
      }
    }
  }
}
