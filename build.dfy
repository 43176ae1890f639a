/** gedcom/build.go: the document written back in the record format. The buffer is
    modelled as the sequence of the strings written into it, in order; its bytes are
    their concatenation. Each string written is one line with its line break.

    The DATE line of an event is chosen but never written: where one was chosen, the
    event's BIRT or DEAT line is written a second time instead. */
module Build {
  import opened Wrappers
  import Strings
  import StrConv
  import Util
  import GedcomLine
  import DateStructure
  import Document
  import Gedcom

  type Date = Document.IndividualDate
  type Event = Gedcom.Event
  type Individual = Gedcom.Individual
  type Family = Gedcom.Family

  // ------------------------------------------------------------ the lines written

  /** A read of the month table: Go's zero value "" for a month it has no entry for. */
  function MonthAbbr(month: int): (r: string)
    ensures 1 <= month <= 12 ==> r == Util.MonthAbbrByInt[month]
    ensures !(1 <= month <= 12) ==> r == ""
  {
    Util.MonthTableShape();
    if month in Util.MonthAbbrByInt then Util.MonthAbbrByInt[month] else ""
  }

  /** The DATE line chosen for a date (`secondLine`): "D MON Y" when year, month and
      day are all set, "MON Y" when the day is not, "Y" when only the year is, and
      nothing when the year is 0. */
  function DateLine(d: Date): (r: string)
    ensures r != "" <==> d.year != 0
  {
    if d.year != 0 && d.month != 0 && d.day != 0 then
      "2 DATE " + DayMonthYear(d.day, d.month, d.year) + "\n"
    else if d.year != 0 && d.month != 0 then
      "2 DATE " + MonthAbbr(d.month) + " " + StrConv.FormatNat(d.year) + "\n"
    else if d.year != 0 then
      "2 DATE " + StrConv.FormatNat(d.year) + "\n"
    else ""
  }

  /** The value of the full DATE form: day, month abbreviation and year. */
  function DayMonthYear(day: nat, month: int, year: nat): string
  {
    StrConv.FormatNat(day) + " " + MonthAbbr(month) + " " + StrConv.FormatNat(year)
  }

  /** The table entry of a primary flag; the table has both. */
  function PrimaryValue(b: bool): string
  {
    Util.PrimaryValueByBool[b]
  }

  /** The NAME line of a name, both parts in the inline form, without its newline. */
  function NameText(n: Document.IndividualName): string
  {
    "1 NAME " + n.givenName + "/" + n.surname + "/"
  }

  /** One name: the NAME line with both parts, then its _PRIM line. */
  function NameLines(n: Document.IndividualName): seq<string>
  {
    [NameText(n) + "\n", "2 _PRIM " + PrimaryValue(n.primary) + "\n"]
  }

  function NamesLines(names: seq<Document.IndividualName>): (r: seq<string>)
    ensures |r| == 2 * |names|
    decreases |names|
  {
    if names == [] then []
    else NamesLines(names[..|names| - 1]) + NameLines(names[|names| - 1])
  }

  /** One event: its tag line, the tag line again where a DATE line was chosen, the
      place when there is one, and the _PRIM line. */
  function EventLines<D>(e: Document.Event<D>, tag: string, dateChosen: bool): (r: seq<string>)
    ensures |r| >= 2 && r[0] == "1 " + tag + "\n" && r[|r| - 1] == "2 _PRIM " + PrimaryValue(e.primary) + "\n"
  {
    ["1 " + tag + "\n"]
    + (if dateChosen then ["1 " + tag + "\n"] else [])
    + (if e.place != "" then ["2 PLAC " + e.place + "\n"] else [])
    + ["2 _PRIM " + PrimaryValue(e.primary) + "\n"]
  }

  /** Every event has a date: the writer reads the date's fields without a check. */
  predicate Dated<D>(events: seq<Document.Event<D>>)
  {
    forall k :: 0 <= k < |events| ==> events[k].date.Some?
  }

  predicate IndividualDated<D>(ind: Document.Individual<D>)
  {
    Dated(ind.birthEvents) && Dated(ind.deathEvents)
  }

  predicate AllDated<D>(inds: seq<Document.Individual<D>>)
  {
    forall k :: 0 <= k < |inds| ==> IndividualDated(inds[k])
  }

  function EventsLines(events: seq<Event>, tag: string): seq<string>
    requires Dated(events)
    decreases |events|
  {
    if events == [] then []
    else
      var e := events[|events| - 1];
      EventsLines(events[..|events| - 1], tag) + EventLines(e, tag, DateLine(e.date.value) != "")
  }

  /** The SEX line, written only for a gender the table has a letter for. */
  function SexLines(gender: string): (r: seq<string>)
    ensures r != [] <==> gender == "MALE" || gender == "FEMALE"
    ensures gender == "MALE" ==> r == ["1 SEX " + "M" + "\n"]
    ensures gender == "FEMALE" ==> r == ["1 SEX " + "F" + "\n"]
  {
    if gender in Util.GenderLetterByFull then ["1 SEX " + Util.GenderLetterByFull[gender] + "\n"] else []
  }

  function IndividualLines(ind: Individual): seq<string>
    requires IndividualDated(ind)
  {
    ["0 " + ind.id + " INDI\n"] + NamesLines(ind.names)
    + EventsLines(ind.birthEvents, "BIRT") + EventsLines(ind.deathEvents, "DEAT")
    + SexLines(ind.gender)
  }

  function IndividualsLines(inds: seq<Individual>): seq<string>
    requires AllDated(inds)
    decreases |inds|
  {
    if inds == [] then []
    else IndividualsLines(inds[..|inds| - 1]) + IndividualLines(inds[|inds| - 1])
  }

  /** One CHIL line per child, in order, "" included. */
  function ChildLines(childIds: seq<string>): (r: seq<string>)
    ensures |r| == |childIds|
    ensures forall j :: 0 <= j < |r| ==> r[j] == "1 CHIL " + childIds[j] + "\n"
    decreases |childIds|
  {
    if childIds == [] then []
    else ChildLines(childIds[..|childIds| - 1]) + ["1 CHIL " + childIds[|childIds| - 1] + "\n"]
  }

  /** One family: its FAM line, HUSB and WIFE when set, and the children. This part is
      the same in every writer. */
  function FamilyLines(f: Family): (r: seq<string>)
    ensures |r| >= 1 && r[0] == "0 " + f.id + " FAM\n"
  {
    ["0 " + f.id + " FAM\n"]
    + (if f.fatherId != "" then ["1 HUSB " + f.fatherId + "\n"] else [])
    + (if f.motherId != "" then ["1 WIFE " + f.motherId + "\n"] else [])
    + ChildLines(f.childIds)
  }

  function FamiliesLines(fams: seq<Family>): seq<string>
    decreases |fams|
  {
    if fams == [] then []
    else FamiliesLines(fams[..|fams| - 1]) + FamilyLines(fams[|fams| - 1])
  }

  /** The whole output: HEAD, the individuals, the families, TRLR. */
  function GedcomLines(inds: seq<Individual>, fams: seq<Family>): seq<string>
    requires AllDated(inds)
  {
    ["0 HEAD\n"] + IndividualsLines(inds) + FamiliesLines(fams) + ["0 TRLR\n"]
  }

  // ------------------------------------------------------------ the writer

  method WriteNames(names: seq<Document.IndividualName>) returns (out: seq<string>)
    ensures out == NamesLines(names)
  {
    out := [];
    for k := 0 to |names|
      invariant out == NamesLines(names[..k])
    {
      assert names[..k + 1][..k] == names[..k];
      var n := names[k];
      var nameLine := NameText(n) + "\n";
      out := out + [nameLine];
      var primaryLine := "2 _PRIM " + PrimaryValue(n.primary) + "\n";
      out := out + [primaryLine];
    }
    assert names[..|names|] == names;
  }

  /** The births or the deaths. `ok` is false at the first event without a date, where
      Go dereferences nil. (The death loop writes its _PRIM line when the table has an
      entry for the flag, which it always has.) */
  method WriteEvents(events: seq<Event>, tag: string) returns (ok: bool, out: seq<string>)
    ensures ok <==> Dated(events)
    ensures ok ==> out == EventsLines(events, tag)
  {
    out := [];
    for k := 0 to |events|
      invariant Dated(events[..k])
      invariant out == EventsLines(events[..k], tag)
    {
      var e := events[k];
      if e.date.None? {
        assert !Dated(events);
        return false, out;
      }
      assert events[..k + 1][..k] == events[..k];
      var lines := WriteEvent(e, tag);
      out := out + lines;
    }
    assert events[..|events|] == events;
    ok := true;
  }

  /** One event, its date present. */
  method WriteEvent(e: Event, tag: string) returns (out: seq<string>)
    requires e.date.Some?
    ensures out == EventLines(e, tag, DateLine(e.date.value) != "")
  {
    var firstLine := "1 " + tag + "\n";
    out := [firstLine];
    var secondLine := DateLine(e.date.value);
    if secondLine != "" {
      out := out + [firstLine];
    }
    if e.place != "" {
      out := out + ["2 PLAC " + e.place + "\n"];
    }
    out := out + ["2 _PRIM " + PrimaryValue(e.primary) + "\n"];
  }

  method WriteIndividual(ind: Individual) returns (ok: bool, out: seq<string>)
    ensures ok <==> IndividualDated(ind)
    ensures ok ==> out == IndividualLines(ind)
  {
    var names := WriteNames(ind.names);
    var birthsOk, births := WriteEvents(ind.birthEvents, "BIRT");
    if !birthsOk {
      return false, [];
    }
    var deathsOk, deaths := WriteEvents(ind.deathEvents, "DEAT");
    if !deathsOk {
      return false, [];
    }
    out := ["0 " + ind.id + " INDI\n"] + names + births + deaths;
    if ind.gender in Util.GenderLetterByFull {
      out := out + ["1 SEX " + Util.GenderLetterByFull[ind.gender] + "\n"];
    }
    ok := true;
  }

  method WriteFamily(f: Family) returns (out: seq<string>)
    ensures out == FamilyLines(f)
  {
    out := ["0 " + f.id + " FAM\n"];
    if f.fatherId != "" {
      out := out + ["1 HUSB " + f.fatherId + "\n"];
    }
    if f.motherId != "" {
      out := out + ["1 WIFE " + f.motherId + "\n"];
    }
    ghost var head := out;
    for j := 0 to |f.childIds|
      invariant out == head + ChildLines(f.childIds[..j])
    {
      assert f.childIds[..j + 1][..j] == f.childIds[..j];
      out := out + ["1 CHIL " + f.childIds[j] + "\n"];
    }
    assert f.childIds[..|f.childIds|] == f.childIds;
  }

  method WriteFamilies(fams: seq<Family>) returns (out: seq<string>)
    ensures out == FamiliesLines(fams)
  {
    out := [];
    for k := 0 to |fams|
      invariant out == FamiliesLines(fams[..k])
    {
      assert fams[..k + 1][..k] == fams[..k];
      var lines := WriteFamily(fams[k]);
      out := out + lines;
    }
    assert fams[..|fams|] == fams;
  }

  method WriteIndividuals(inds: seq<Individual>) returns (ok: bool, out: seq<string>)
    ensures ok <==> AllDated(inds)
    ensures ok ==> out == IndividualsLines(inds)
  {
    out := [];
    for k := 0 to |inds|
      invariant AllDated(inds[..k])
      invariant out == IndividualsLines(inds[..k])
    {
      var indOk, lines := WriteIndividual(inds[k]);
      if !indOk {
        assert !IndividualDated(inds[k]);
        return false, out;
      }
      IndividualsSnoc(inds, k);
      out := out + lines;
    }
    assert inds[..|inds|] == inds;
    ok := true;
  }

  /** One more individual, its events dated, after the ones before it. */
  lemma IndividualsSnoc(inds: seq<Individual>, k: nat)
    requires k < |inds| && AllDated(inds[..k]) && IndividualDated(inds[k])
    ensures AllDated(inds[..k + 1])
    ensures IndividualsLines(inds[..k + 1]) == IndividualsLines(inds[..k]) + IndividualLines(inds[k])
  {
    assert inds[..k + 1][..k] == inds[..k];
  }

  /** `WritableGedcom`: the names are decoded first, and the error of that pass is
      ignored; then the document is written. `ok` is false where Go panics on an event
      without a date. */
  method WritableGedcom(g: Gedcom.ConcurrencySafeGedcom) returns (ok: bool, buf: seq<string>)
    modifies g`individuals
    ensures g.individuals == Gedcom.DecodeIndividuals(old(g.individuals), StrConv.Unquote).0
    ensures ok <==> AllDated(g.individuals)
    ensures ok ==> buf == GedcomLines(g.individuals, g.families)
  {
    var _ := g.DecodeUnicodeFields();
    var individuals;
    ok, individuals := WriteIndividuals(g.individuals);
    if !ok {
      return false, [];
    }
    var families := WriteFamilies(g.families);
    buf := ["0 HEAD\n"] + individuals + families + ["0 TRLR\n"];
    ok := true;
  }

  // ------------------------------------------------------------ properties

  /** No line written is a DATE line. */
  predicate NoDateLine(lines: seq<string>)
  {
    forall l :: l in lines ==> !Strings.HasPrefix(l, "2 DATE")
  }

  lemma EventLinesHaveNoDate<D>(e: Document.Event<D>, tag: string, dateChosen: bool)
    requires tag == "BIRT" || tag == "DEAT"
    ensures NoDateLine(EventLines(e, tag, dateChosen))
  {
    var place := "2 PLAC " + e.place + "\n";
    var prim := "2 _PRIM " + PrimaryValue(e.primary) + "\n";
    assert place[2] == 'P' && prim[2] == '_';
    assert ("1 " + tag + "\n")[0] == '1';
  }

  lemma {:induction false} EventsLinesHaveNoDate(events: seq<Event>, tag: string)
    requires Dated(events) && (tag == "BIRT" || tag == "DEAT")
    ensures NoDateLine(EventsLines(events, tag))
    decreases |events|
  {
    if events != [] {
      var e := events[|events| - 1];
      EventsLinesHaveNoDate(events[..|events| - 1], tag);
      EventLinesHaveNoDate(e, tag, DateLine(e.date.value) != "");
    }
  }

  lemma {:induction false} NamesLinesHaveNoDate(names: seq<Document.IndividualName>)
    ensures NoDateLine(NamesLines(names))
    decreases |names|
  {
    if names != [] {
      var n := names[|names| - 1];
      NamesLinesHaveNoDate(names[..|names| - 1]);
      assert (NameText(n) + "\n")[0] == '1';
      assert ("2 _PRIM " + PrimaryValue(n.primary) + "\n")[2] == '_';
    }
  }

  lemma IndividualLinesHaveNoDate(ind: Individual)
    requires IndividualDated(ind)
    ensures NoDateLine(IndividualLines(ind))
  {
    var indi := ["0 " + ind.id + " INDI\n"];
    var names := NamesLines(ind.names);
    var births := EventsLines(ind.birthEvents, "BIRT");
    var deaths := EventsLines(ind.deathEvents, "DEAT");
    NamesLinesHaveNoDate(ind.names);
    EventsLinesHaveNoDate(ind.birthEvents, "BIRT");
    EventsLinesHaveNoDate(ind.deathEvents, "DEAT");
    NotLevelTwo(indi[0]);
    SexLinesHaveNoDate(ind.gender);
    NoDateJoined(indi, names);
    NoDateJoined(indi + names, births);
    NoDateJoined(indi + names + births, deaths);
    NoDateJoined(indi + names + births + deaths, SexLines(ind.gender));
  }

  lemma NoDateJoined(a: seq<string>, b: seq<string>)
    requires NoDateLine(a) && NoDateLine(b)
    ensures NoDateLine(a + b)
  {
  }

  /** A line whose level is not 2 is no DATE line. */
  lemma NotLevelTwo(l: string)
    requires |l| > 0 && l[0] != '2'
    ensures NoDateLine([l])
  {
    assert !Strings.HasPrefix(l, "2 DATE") by { assert "2 DATE"[0] == '2'; }
  }

  lemma SexLinesHaveNoDate(gender: string)
    ensures NoDateLine(SexLines(gender))
  {
    if gender in Util.GenderLetterByFull {
      NotLevelTwo(SexLines(gender)[0]);
    }
  }

  lemma {:induction false} IndividualsLinesHaveNoDate(inds: seq<Individual>)
    requires AllDated(inds)
    ensures NoDateLine(IndividualsLines(inds))
    decreases |inds|
  {
    if inds != [] {
      IndividualsLinesHaveNoDate(inds[..|inds| - 1]);
      IndividualLinesHaveNoDate(inds[|inds| - 1]);
    }
  }

  lemma {:induction false} FamiliesLinesHaveNoDate(fams: seq<Family>)
    ensures NoDateLine(FamiliesLines(fams))
    decreases |fams|
  {
    if fams != [] {
      var f := fams[|fams| - 1];
      FamiliesLinesHaveNoDate(fams[..|fams| - 1]);
      FamilyLinesHaveNoDate(f);
      NoDateJoined(FamiliesLines(fams[..|fams| - 1]), FamilyLines(f));
    }
  }

  lemma FamilyLinesHaveNoDate(f: Family)
    ensures NoDateLine(FamilyLines(f))
  {
    var head := ["0 " + f.id + " FAM\n"];
    var husb := if f.fatherId != "" then ["1 HUSB " + f.fatherId + "\n"] else [];
    var wife := if f.motherId != "" then ["1 WIFE " + f.motherId + "\n"] else [];
    var children := ChildLines(f.childIds);
    assert FamilyLines(f) == head + husb + wife + children;
    NotLevelTwo(head[0]);
    if husb != [] {
      NotLevelTwo(husb[0]);
    }
    if wife != [] {
      NotLevelTwo(wife[0]);
    }
    forall l | l in children ensures !Strings.HasPrefix(l, "2 DATE") {
      var c :| 0 <= c < |children| && children[c] == l;
      NotLevelTwo(l);
    }
    NoDateJoined(head, husb);
    NoDateJoined(head + husb, wife);
    NoDateJoined(head + husb + wife, children);
  }

  /** The output is framed by HEAD and TRLR and holds no DATE line, whatever the dates. */
  lemma GedcomLinesShape(inds: seq<Individual>, fams: seq<Family>)
    requires AllDated(inds)
    ensures var lines := GedcomLines(inds, fams);
            && |lines| >= 2 && lines[0] == "0 HEAD\n" && lines[|lines| - 1] == "0 TRLR\n"
            && NoDateLine(lines)
  {
    var head, trailer := "0 HEAD\n", "0 TRLR\n";
    var inner := IndividualsLines(inds) + FamiliesLines(fams);
    assert GedcomLines(inds, fams) == [head] + inner + [trailer];
    IndividualsLinesHaveNoDate(inds);
    FamiliesLinesHaveNoDate(fams);
    NoDateJoined(IndividualsLines(inds), FamiliesLines(fams));
    NotLevelTwo(head);
    NotLevelTwo(trailer);
    NoDateJoined([head], inner);
    NoDateJoined([head] + inner, [trailer]);
  }

  /** The number of events whose DATE line is chosen: those with a year. */
  function YearCount(events: seq<Event>): (n: nat)
    requires Dated(events)
    ensures n <= |events|
    decreases |events|
  {
    if events == [] then 0
    else YearCount(events[..|events| - 1]) + (if events[|events| - 1].date.value.year != 0 then 1 else 0)
  }

  /** Each event writes its tag line once, and once more when it has a year. */
  lemma {:induction false} TagLinesCounted(events: seq<Event>, tag: string)
    requires Dated(events) && ' ' !in tag
    ensures multiset(EventsLines(events, tag))["1 " + tag + "\n"] == |events| + YearCount(events)
    decreases |events|
  {
    if events != [] {
      var e := events[|events| - 1];
      TagLinesCounted(events[..|events| - 1], tag);
      EventTagCounted(e, tag, DateLine(e.date.value) != "");
    }
  }

  /** One event writes its tag line once, and once more when a DATE line was chosen. */
  lemma EventTagCounted(e: Event, tag: string, dateChosen: bool)
    ensures multiset(EventLines(e, tag, dateChosen))["1 " + tag + "\n"] == 1 + (if dateChosen then 1 else 0)
  {
    var t := "1 " + tag + "\n";
    var place := "2 PLAC " + e.place + "\n";
    var prim := "2 _PRIM " + PrimaryValue(e.primary) + "\n";
    assert place != t by { assert place[0] != t[0]; }
    assert prim != t by { assert prim[0] != t[0]; }
  }

  /** The inline split of "given/surname/" gives back both parts. */
  lemma InlinePartsOfWrittenName(given: string, surname: string)
    requires '/' !in given && '/' !in surname && (given != "" || surname != "")
    ensures Gedcom.InlineParts(given + "/" + surname + "/") == (given, surname)
  {
    var tail := surname + "/";
    assert tail == surname + ['/'] + "";
    Strings.SplitAtFirst(surname, '/', "");
    assert Strings.Split("", '/') == [""];
    assert Strings.Split(tail, '/') == [surname, ""];
    assert given + "/" + surname + "/" == given + ['/'] + tail;
    Strings.SplitAtFirst(given, '/', tail);
    assert Strings.Split(given + "/" + surname + "/", '/') == [given, surname, ""];
  }

  /** The NAME line written reads back, through the tokenizer and the inline split,
      as the name's two parts, when neither holds a '/' and one is not empty. */
  lemma NameLineReadsBack(n: Document.IndividualName)
    requires '/' !in n.givenName && '/' !in n.surname && (n.givenName != "" || n.surname != "")
    ensures var line := NameText(n);
            && NameLines(n)[0] == line + "\n"
            && GedcomLine.LevelOf(line) == Some(1)
            && GedcomLine.TagOf(line) == Some("NAME")
            && Gedcom.InlineParts(GedcomLine.RawValueOf(line)) == (n.givenName, n.surname)
  {
    var v := n.givenName + "/" + n.surname + "/";
    var line := NameText(n);
    assert StrConv.FormatNat(1) == "1";
    assert line == GedcomLine.Compose(1, None, "NAME", Some(v));
    GedcomLine.TokenizeCompose(1, None, "NAME", Some(v));
    InlinePartsOfWrittenName(n.givenName, n.surname);
  }

  /** The three pieces of the full DATE form are read back as they were written: the
      day's digits as the date's year, the month, and the year's digits as its day. */
  lemma ReadBackOfDayMonthYear(day: Document.Uint32, month: int, year: Document.Uint32)
    requires 1 <= month <= 12
    ensures DateStructure.InterpretDateStructure(DayMonthYear(day, month, year)) == DateStructure.Date(day, month, year)
  {
    var dd := StrConv.FormatNat(day);
    var abbr := MonthAbbr(month);
    var yy := StrConv.FormatNat(year);
    GedcomLine.LevelDigitsHaveNoSpace(day);
    DateStructure.AbbreviationsAreUpperCase(month);
    assert ' ' !in abbr by {
      forall k | 0 <= k < |abbr| ensures abbr[k] != ' ' { assert 'A' <= abbr[k] <= 'Z'; }
    }
    DateStructure.ThreePieces(dd, abbr, yy);
    StrConv.AtoiOfFormatNat(day);
    StrConv.AtoiOfFormatNat(year);
    Util.MonthTablesInverse();
    assert Util.MonthIntByAbbr[abbr] == month;
  }

  /** The full DATE form, were it written, would be read by the date interpreter with
      day and year exchanged: the interpreter takes the year from the first piece. */
  lemma DateLineReadBackSwapsDayAndYear(d: Date)
    requires d.year != 0 && 1 <= d.month <= 12 && d.day != 0
    ensures var v := DayMonthYear(d.day, d.month, d.year);
            && DateLine(d) == "2 DATE " + v + "\n"
            && DateStructure.InterpretDateStructure(v) == DateStructure.Date(d.day, d.month, d.year)
  {
    ReadBackOfDayMonthYear(d.day, d.month, d.year);
  }
}
