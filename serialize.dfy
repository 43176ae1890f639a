/** gedcom/serialize.go: the second writer of the record format. Header, INDI, NAME,
    GIVN, SURN and _PRIM-of-name lines go through `writeLine`, which renders a line
    value, counts it and reports a failure; everything else is written straight into
    the buffer. As in build.go the buffer is the sequence of the strings written.

    The file is written against a `Line` with a `ToString` method and a date whose
    fields are text; neither is part of this model, so the rendering of a line is a
    parameter and the date is `StringDate`. */
module Serialize {
  import opened Wrappers
  import StrConv
  import Document
  import Build
  import Seqs

  /** The date as serialize.go reads it: year, month and day as text. */
  datatype StringDate = StringDate(year: string, month: string, day: string)

  type Event = Document.Event<StringDate>
  type Individual = Document.Individual<StringDate>
  type Family = Document.Family

  /** The `Line` values serialize.go builds: level, cross-reference id, tag and value,
      "" standing for a field left unset. */
  datatype SerialLine = SerialLine(level: int, xRefId: string, tag: string, value: string)

  /** `Line.ToString`: a rendering that may fail with a message. */
  type Renderer = SerialLine -> Result<string, string>

  /** What the buffer and the line counter hold between two writes. */
  datatype Progress = Progress(buf: seq<string>, lineCounter: nat)

  /** What `ToSerializedGedcom` ends with: the buffer, the header's error, or a panic on
      an event without a date. */
  datatype Outcome = Written(lines: seq<string>) | Failed(error: string) | NilDate

  // ------------------------------------------------------------ writeLine (lines 28-36)

  function LineErrorMessage(lineCounter: nat, error: string): string
  {
    "failed to serialize line " + StrConv.FormatNat(lineCounter) + " with error: " + error
  }

  /** The state after `writeLine`: the rendering appended and counted, or nothing at all
      when the rendering fails. */
  function Put(p: Progress, line: SerialLine, render: Renderer): (r: Progress)
    ensures render(line).Ok? ==> r.buf == p.buf + [render(line).value] && r.lineCounter == p.lineCounter + 1
    ensures render(line).Err? ==> r == p
  {
    match render(line)
    case Ok(s) => Progress(p.buf + [s], p.lineCounter + 1)
    case Err(_) => p
  }

  /** The error `writeLine` returns, naming the count of the lines written before. */
  function PutError(p: Progress, line: SerialLine, render: Renderer): (r: Option<string>)
    ensures r.None? <==> render(line).Ok?
  {
    match render(line)
    case Ok(_) => None
    case Err(e) => Some(LineErrorMessage(p.lineCounter, e))
  }

  /** The buffer and the counter that `writeLine` updates through its arguments. */
  class LineWriter {
    var buf: seq<string>
    var lineCounter: nat

    constructor ()
      ensures buf == [] && lineCounter == 0
    {
      buf := [];
      lineCounter := 0;
    }

    function State(): Progress
      reads this
    {
      Progress(buf, lineCounter)
    }

    /** `writeLine`. */
    method WriteLine(line: SerialLine, render: Renderer) returns (err: Option<string>)
      modifies this
      ensures State() == Put(old(State()), line, render)
      ensures err == PutError(old(State()), line, render)
    {
      var rendered := render(line);
      match rendered {
        case Err(e) =>
          return Some(LineErrorMessage(lineCounter, e));
        case Ok(s) =>
          buf := buf + [s];
          lineCounter := lineCounter + 1;
          return None;
      }
    }

    /** `buf.WriteString`: the counter is left alone. */
    method WriteString(s: string)
      modifies this`buf
      ensures buf == old(buf) + [s]
    {
      buf := buf + [s];
    }
  }

  // ------------------------------------------------------------ the lines (lines 38-193)

  function HeadLine(): SerialLine
  {
    SerialLine(0, "", "HEAD", "")
  }

  function IndiLine(ind: Individual): SerialLine
  {
    SerialLine(0, ind.id, "INDI", "")
  }

  /** One name: the NAME line without a value, and only when it renders the GIVN and
      SURN lines of the parts that are set and the _PRIM line. A sub-line that fails is
      skipped. */
  function NameOut(p: Progress, n: Document.IndividualName, render: Renderer): (r: Progress)
    ensures |p.buf| <= |r.buf| && r.buf[..|p.buf|] == p.buf && p.lineCounter <= r.lineCounter
    ensures render(SerialLine(1, "", "NAME", "")).Err? ==> r == p
  {
    var nameLine := SerialLine(1, "", "NAME", "");
    if render(nameLine).Err? then p
    else
      var q0 := Put(p, nameLine, render);
      var q1 := if n.givenName != "" then Put(q0, SerialLine(2, "", "GIVN", n.givenName), render) else q0;
      var q2 := if n.surname != "" then Put(q1, SerialLine(2, "", "SURN", n.surname), render) else q1;
      var q3 := Put(q2, SerialLine(2, "", "_PRIM", Build.PrimaryValue(n.primary)), render);
      assert q3.buf[..|p.buf|] == p.buf by {
        assert q3.buf[..|q2.buf|] == q2.buf && q2.buf[..|q1.buf|] == q1.buf;
        assert q1.buf[..|q0.buf|] == q0.buf && q0.buf[..|p.buf|] == p.buf;
      }
      q3
  }

  function NamesOut(p: Progress, names: seq<Document.IndividualName>, render: Renderer): (r: Progress)
    ensures |p.buf| <= |r.buf| && r.buf[..|p.buf|] == p.buf && p.lineCounter <= r.lineCounter
    decreases |names|
  {
    if names == [] then p
    else
      var q := NamesOut(p, names[..|names| - 1], render);
      var r := NameOut(q, names[|names| - 1], render);
      assert r.buf[..|p.buf|] == p.buf by { assert r.buf[..|q.buf|] == q.buf; }
      r
  }

  /** The DATE line is chosen exactly when the year is set: each of the three forms
      needs a year, and each is then non-empty. */
  function DateChosen(d: StringDate): bool
  {
    d.year != ""
  }

  function EventsLines(events: seq<Event>, tag: string): seq<string>
    requires Build.Dated(events)
    decreases |events|
  {
    if events == [] then []
    else
      var e := events[|events| - 1];
      EventsLines(events[..|events| - 1], tag) + Build.EventLines(e, tag, DateChosen(e.date.value))
  }

  /** The lines of an individual written past `writeLine`: births, deaths, SEX. */
  function DirectLines(ind: Individual): seq<string>
    requires Build.IndividualDated(ind)
  {
    EventsLines(ind.birthEvents, "BIRT") + EventsLines(ind.deathEvents, "DEAT") + Build.SexLines(ind.gender)
  }

  /** One individual: nothing at all when its INDI line does not render; otherwise
      that line, its names, its births and deaths, and its SEX line. `None` where Go
      panics on an event without a date. */
  function IndividualOut(p: Progress, ind: Individual, render: Renderer): (r: Option<Progress>)
    ensures r.Some? ==> |p.buf| <= |r.value.buf| && r.value.buf[..|p.buf|] == p.buf
    ensures r.None? <==> render(IndiLine(ind)).Ok? && !Build.IndividualDated(ind)
    ensures render(IndiLine(ind)).Err? ==> r == Some(p)
  {
    match render(IndiLine(ind))
    case Err(_) => Some(p)
    case Ok(s) =>
      if !Build.IndividualDated(ind) then None
      else
        var q0 := Progress(p.buf + [s], p.lineCounter + 1);
        var q := NamesOut(q0, ind.names, render);
        var direct := DirectLines(ind);
        Seqs.PrefixOfAppend(p.buf, p.buf, [s]);
        Seqs.PrefixChain(p.buf, q0.buf, q.buf);
        Seqs.PrefixOfAppend(p.buf, q.buf, direct);
        Some(q.(buf := q.buf + direct))
  }

  function IndividualsOut(p: Progress, inds: seq<Individual>, render: Renderer): (r: Option<Progress>)
    ensures r.Some? ==> |p.buf| <= |r.value.buf| && r.value.buf[..|p.buf|] == p.buf
    decreases |inds|
  {
    if inds == [] then Some(p)
    else
      match IndividualsOut(p, inds[..|inds| - 1], render)
      case None => None
      case Some(q) =>
        var r := IndividualOut(q, inds[|inds| - 1], render);
        if r.Some? then
          Seqs.PrefixChain(p.buf, q.buf, r.value.buf);
          r
        else r
  }

  /** `ToSerializedGedcom` as a value of its inputs. */
  function SerializedGedcom(inds: seq<Individual>, fams: seq<Family>, render: Renderer): Outcome
  {
    match render(HeadLine())
    case Err(e) => Failed(LineErrorMessage(0, e))
    case Ok(s) =>
      match IndividualsOut(Progress([s], 1), inds, render)
      case None => NilDate
      case Some(q) => Written(q.buf + Build.FamiliesLines(fams) + ["0 TRLR\n"])
  }

  // ------------------------------------------------------------ the writer

  /** The inner loop of one name. */
  method WriteName(w: LineWriter, n: Document.IndividualName, render: Renderer)
    modifies w
    ensures w.State() == NameOut(old(w.State()), n, render)
  {
    var err := w.WriteLine(SerialLine(1, "", "NAME", ""), render);
    if err.Some? {
      return;
    }
    if n.givenName != "" {
      err := w.WriteLine(SerialLine(2, "", "GIVN", n.givenName), render);
    }
    if n.surname != "" {
      err := w.WriteLine(SerialLine(2, "", "SURN", n.surname), render);
    }
    err := w.WriteLine(SerialLine(2, "", "_PRIM", Build.PrimaryValue(n.primary)), render);
  }

  /** The loop over the names of one individual. */
  method WriteNames(w: LineWriter, names: seq<Document.IndividualName>, render: Renderer)
    modifies w
    ensures w.State() == NamesOut(old(w.State()), names, render)
  {
    ghost var p := w.State();
    for k := 0 to |names|
      invariant w.State() == NamesOut(p, names[..k], render)
    {
      assert names[..k + 1][..k] == names[..k];
      WriteName(w, names[k], render);
    }
    assert names[..|names|] == names;
  }

  /** One event, its date present, written straight into the buffer. */
  method WriteEvent(w: LineWriter, e: Event, tag: string)
    requires e.date.Some?
    modifies w`buf
    ensures w.buf == old(w.buf) + Build.EventLines(e, tag, DateChosen(e.date.value))
  {
    var firstLine := "1 " + tag + "\n";
    w.WriteString(firstLine);
    if DateChosen(e.date.value) {
      w.WriteString(firstLine);
    }
    if e.place != "" {
      w.WriteString("2 PLAC " + e.place + "\n");
    }
    w.WriteString("2 _PRIM " + Build.PrimaryValue(e.primary) + "\n");
  }

  /** The births or the deaths; `ok` is false at the first event without a date. */
  method WriteEvents(w: LineWriter, events: seq<Event>, tag: string) returns (ok: bool)
    modifies w`buf
    ensures ok <==> Build.Dated(events)
    ensures ok ==> w.buf == old(w.buf) + EventsLines(events, tag)
  {
    ghost var buf0 := w.buf;
    for k := 0 to |events|
      invariant Build.Dated(events[..k])
      invariant w.buf == buf0 + EventsLines(events[..k], tag)
    {
      var e := events[k];
      if e.date.None? {
        assert !Build.Dated(events);
        return false;
      }
      assert events[..k + 1][..k] == events[..k];
      WriteEvent(w, e, tag);
    }
    assert events[..|events|] == events;
    ok := true;
  }

  /** The events and the SEX line of one individual; `ok` is false where Go panics. */
  method WriteDirect(w: LineWriter, ind: Individual) returns (ok: bool)
    modifies w`buf
    ensures ok <==> Build.IndividualDated(ind)
    ensures ok ==> w.buf == old(w.buf) + DirectLines(ind)
  {
    ghost var buf0 := w.buf;
    var birthsOk := WriteEvents(w, ind.birthEvents, "BIRT");
    if !birthsOk {
      return false;
    }
    var deathsOk := WriteEvents(w, ind.deathEvents, "DEAT");
    if !deathsOk {
      return false;
    }
    ghost var births := EventsLines(ind.birthEvents, "BIRT");
    ghost var deaths := EventsLines(ind.deathEvents, "DEAT");
    var sex := Build.SexLines(ind.gender);
    if sex != [] {
      w.WriteString(sex[0]);
      assert [sex[0]] == sex;
    }
    assert w.buf == buf0 + births + deaths + sex;
    Seqs.AppendAssoc3(buf0, births, deaths, sex);
    ok := true;
  }

  /** One pass of the loop over the individuals; `ok` is false where Go panics. */
  method WriteIndividual(w: LineWriter, ind: Individual, render: Renderer) returns (ok: bool)
    modifies w
    ensures ok <==> IndividualOut(old(w.State()), ind, render).Some?
    ensures ok ==> w.State() == IndividualOut(old(w.State()), ind, render).value
  {
    ghost var p := w.State();
    var err := w.WriteLine(IndiLine(ind), render);
    if err.Some? {
      return true;
    }
    ghost var q0 := w.State();
    WriteNames(w, ind.names, render);
    ghost var q := w.State();
    assert q == NamesOut(q0, ind.names, render);
    ok := WriteDirect(w, ind);
    IndividualOutRendered(p, ind, render);
  }

  /** The individual's pass once its INDI line has rendered. */
  lemma IndividualOutRendered(p: Progress, ind: Individual, render: Renderer)
    requires render(IndiLine(ind)).Ok?
    ensures var q := NamesOut(Progress(p.buf + [render(IndiLine(ind)).value], p.lineCounter + 1), ind.names, render);
            IndividualOut(p, ind, render)
            == if Build.IndividualDated(ind) then Some(q.(buf := q.buf + DirectLines(ind))) else None
  {
  }

  /** `ToSerializedGedcom`. */
  method ToSerializedGedcom(inds: seq<Individual>, fams: seq<Family>, render: Renderer) returns (r: Outcome)
    ensures r == SerializedGedcom(inds, fams, render)
  {
    var w := new LineWriter();
    var err := w.WriteLine(HeadLine(), render);
    if err.Some? {
      return Failed(err.value);
    }
    assert w.State() == Progress([render(HeadLine()).value], 1);
    assert inds[..0] == [];
    for k := 0 to |inds|
      invariant IndividualsOut(Progress([render(HeadLine()).value], 1), inds[..k], render) == Some(w.State())
    {
      assert inds[..k + 1][..k] == inds[..k];
      var ok := WriteIndividual(w, inds[k], render);
      if !ok {
        assert IndividualsOut(Progress([render(HeadLine()).value], 1), inds[..k + 1], render).None?;
        NilDateStops(Progress([render(HeadLine()).value], 1), inds, k + 1, render);
        return NilDate;
      }
    }
    assert inds[..|inds|] == inds;
    var families := Build.WriteFamilies(fams);
    r := Written(w.buf + families + ["0 TRLR\n"]);
  }

  // ------------------------------------------------------------ properties

  /** Once an individual panics, so does the whole loop. */
  lemma {:induction false} NilDateStops(p: Progress, inds: seq<Individual>, k: nat, render: Renderer)
    requires k <= |inds| && IndividualsOut(p, inds[..k], render).None?
    ensures IndividualsOut(p, inds, render).None?
    decreases |inds|
  {
    if k < |inds| {
      assert inds[..|inds| - 1][..k] == inds[..k];
      NilDateStops(p, inds[..|inds| - 1], k, render);
    } else {
      assert inds[..k] == inds;
    }
  }

  /** An individual on whose events Go panics: its INDI line renders, so its events
      are reached, and one of them has no date. */
  predicate Panics(ind: Individual, render: Renderer)
  {
    render(IndiLine(ind)).Ok? && !Build.IndividualDated(ind)
  }

  /** The loop panics exactly when some individual panics; the progress it starts from
      plays no part. */
  lemma {:induction false} IndividualsOutPanics(p: Progress, inds: seq<Individual>, render: Renderer)
    ensures IndividualsOut(p, inds, render).None? <==> exists k :: 0 <= k < |inds| && Panics(inds[k], render)
    decreases |inds|
  {
    if inds != [] {
      var init := inds[..|inds| - 1];
      IndividualsOutPanics(p, init, render);
      PanicsSnoc(inds, render);
    }
  }

  /** Some individual panics exactly when one before the last does or the last does. */
  lemma PanicsSnoc(inds: seq<Individual>, render: Renderer)
    requires inds != []
    ensures var n := |inds| - 1;
            (exists k :: 0 <= k < |inds| && Panics(inds[k], render))
            <==> (exists k :: 0 <= k < n && Panics(inds[..n][k], render)) || Panics(inds[n], render)
  {
    var n := |inds| - 1;
    if exists k :: 0 <= k < |inds| && Panics(inds[k], render) {
      var k :| 0 <= k < |inds| && Panics(inds[k], render);
      if k < n {
        assert inds[..n][k] == inds[k];
      }
    }
    if exists k :: 0 <= k < n && Panics(inds[..n][k], render) {
      var k :| 0 <= k < n && Panics(inds[..n][k], render);
      assert inds[k] == inds[..n][k];
    }
  }

  /** The only error returned is the header's, as line 0; every later failure of a line
      is logged and skipped. */
  lemma OnlyTheHeaderFails(inds: seq<Individual>, fams: seq<Family>, render: Renderer)
    ensures SerializedGedcom(inds, fams, render).Failed? <==> render(HeadLine()).Err?
    ensures render(HeadLine()).Err? ==>
      SerializedGedcom(inds, fams, render).error
        == "failed to serialize line 0 with error: " + render(HeadLine()).error
  {
    assert StrConv.FormatNat(0) == "0";
  }

  /** Serializing panics exactly when the header renders and some individual whose INDI
      line renders has an event without a date. */
  lemma SerializePanicsExactly(inds: seq<Individual>, fams: seq<Family>, render: Renderer)
    ensures SerializedGedcom(inds, fams, render).NilDate?
        <==> render(HeadLine()).Ok? && exists k :: 0 <= k < |inds| && Panics(inds[k], render)
  {
    if render(HeadLine()).Ok? {
      IndividualsOutPanics(Progress([render(HeadLine()).value], 1), inds, render);
    }
  }

  /** What is written opens with the rendered header and closes with the families, as
      build.go writes them, and the trailer. */
  lemma WrittenShape(inds: seq<Individual>, fams: seq<Family>, render: Renderer)
    requires SerializedGedcom(inds, fams, render).Written?
    ensures var lines := SerializedGedcom(inds, fams, render).lines;
            var tail := Build.FamiliesLines(fams) + ["0 TRLR\n"];
            && render(HeadLine()).Ok?
            && |lines| >= 1 + |tail|
            && lines[0] == render(HeadLine()).value
            && lines[|lines| - |tail|..] == tail
  {
    var head := render(HeadLine()).value;
    var q := IndividualsOut(Progress([head], 1), inds, render).value;
    var tail := Build.FamiliesLines(fams) + ["0 TRLR\n"];
    assert SerializedGedcom(inds, fams, render).lines == q.buf + tail;
    assert q.buf[..1] == [head];
    Seqs.AppendParts(q.buf, tail);
  }

  /** The number of lines one name sends through `writeLine`: NAME, the parts that are
      set, and _PRIM. */
  function NameLineCount(n: Document.IndividualName): (c: nat)
    ensures 2 <= c <= 4
  {
    2 + (if n.givenName != "" then 1 else 0) + (if n.surname != "" then 1 else 0)
  }

  function NamesLineCount(names: seq<Document.IndividualName>): (c: nat)
    ensures 2 * |names| <= c <= 4 * |names|
    decreases |names|
  {
    if names == [] then 0 else NamesLineCount(names[..|names| - 1]) + NameLineCount(names[|names| - 1])
  }

  /** With a rendering that never fails, the line counter counts exactly the lines of
      the names, each of which is one string of the buffer. */
  lemma {:induction false} NamesCounted(p: Progress, names: seq<Document.IndividualName>, render: Renderer)
    requires forall l :: render(l).Ok?
    ensures var r := NamesOut(p, names, render);
            && r.lineCounter == p.lineCounter + NamesLineCount(names)
            && |r.buf| == |p.buf| + NamesLineCount(names)
    decreases |names|
  {
    if names != [] {
      NamesCounted(p, names[..|names| - 1], render);
      NameCounted(NamesOut(p, names[..|names| - 1], render), names[|names| - 1], render);
    }
  }

  /** One name, with a rendering that never fails: each of its lines is counted once and
      is one string of the buffer. */
  lemma NameCounted(p: Progress, n: Document.IndividualName, render: Renderer)
    requires forall l :: render(l).Ok?
    ensures var r := NameOut(p, n, render);
            && r.lineCounter == p.lineCounter + NameLineCount(n)
            && |r.buf| == |p.buf| + NameLineCount(n)
  {
    assert render(SerialLine(1, "", "NAME", "")).Ok?;
  }

  /** With a rendering that never fails, the counter after an individual has grown by
      its INDI line and the lines of its names; the events and the SEX line, written
      past `writeLine`, are not counted. */
  lemma IndividualCounted(p: Progress, ind: Individual, render: Renderer)
    requires forall l :: render(l).Ok?
    requires Build.IndividualDated(ind)
    ensures IndividualOut(p, ind, render).Some?
    ensures IndividualOut(p, ind, render).value.lineCounter == p.lineCounter + 1 + NamesLineCount(ind.names)
  {
    assert render(IndiLine(ind)).Ok?;
    NamesCounted(Progress(p.buf + [render(IndiLine(ind)).value], p.lineCounter + 1), ind.names, render);
  }

  /** An individual whose INDI line does not render leaves no trace: its names, events
      and gender are skipped along with it. */
  lemma UnrenderedIndividualSkipped(p: Progress, inds: seq<Individual>, ind: Individual, render: Renderer)
    requires render(IndiLine(ind)).Err?
    ensures IndividualsOut(p, inds + [ind], render) == IndividualsOut(p, inds, render)
  {
    assert (inds + [ind])[..|inds|] == inds;
  }

  /** The DATE line is never written here either: no event writes a line opening with
      "2 DATE", whatever its date. */
  lemma {:induction false} EventsLinesHaveNoDate(events: seq<Event>, tag: string)
    requires Build.Dated(events) && (tag == "BIRT" || tag == "DEAT")
    ensures Build.NoDateLine(EventsLines(events, tag))
    decreases |events|
  {
    if events != [] {
      var e := events[|events| - 1];
      EventsLinesHaveNoDate(events[..|events| - 1], tag);
      Build.EventLinesHaveNoDate(e, tag, DateChosen(e.date.value));
    }
  }
}
