/** The event interpreter of gedcom/event.go: DATE, PLAC and _PRIM children of a
    BIRT or DEAT line, last one winning. */
module EventStructure {
  import opened Wrappers
  import Util
  import GedcomLine
  import ChildScan
  import DateStructure
  import Document

  /** gedcom/event.go's `Event`: an embedded date, a place and the primary flag. */
  datatype Event = Event(date: DateStructure.Date, place: string, primary: bool)

  const ZeroEvent := Event(DateStructure.Date(0, 0, 0), "", false)

  /** One child line: DATE sets the date read from the value, PLAC the place, and _PRIM
      the flag, but only when the value is exactly "Y" or "N". */
  function EventStep(event: Event, tag: string, raw: string, following: seq<string>): (r: Event)
  {
    var value := GedcomLine.ValueOf(raw);
    if tag == "DATE" then event.(date := DateStructure.InterpretDateStructure(value))
    else if tag == "PLAC" then event.(place := value)
    else if tag == "_PRIM" then
      if value in Util.PrimaryBoolByValue then event.(primary := Util.PrimaryBoolByValue[value])
      else event
    else event
  }

  /** What the interpreter returns for `eventLines`. */
  function EventOf(eventLines: seq<string>): (r: Result<Event, string>)
    requires |eventLines| > 0
    ensures r.Err? <==> GedcomLine.LevelOf(eventLines[0]).None?
  {
    match GedcomLine.LevelOf(eventLines[0])
    case None => Err("failed to parse root level of event structure")
    case Some(root) => Ok(ChildScan.Scan(ZeroEvent, root, eventLines[1..], EventStep))
  }

  /** `interpretEventStructure`. */
  method InterpretEventStructure(eventLines: seq<string>) returns (r: Result<Event, string>)
    requires |eventLines| > 0
    ensures r == EventOf(eventLines)
  {
    var rootLevel := GedcomLine.LevelOf(eventLines[0]);
    if rootLevel.None? {
      return Err("failed to parse root level of event structure");
    }
    var root := rootLevel.value;
    ghost var target := ChildScan.Scan(ZeroEvent, root, eventLines[1..], EventStep);
    assert Ok(target) == EventOf(eventLines);
    var event := ZeroEvent;
    var i := 1;
    while i < |eventLines|
      invariant 1 <= i <= |eventLines|
      invariant ChildScan.Scan(event, root, eventLines[i..], EventStep) == target
    {
      var eventLine := eventLines[i];
      ChildScan.ScanAt(event, root, eventLines, i, EventStep);
      var level := GedcomLine.LevelOf(eventLine);
      if level.None? {
        i := i + 1;
        continue;
      }
      if level.value <= root {
        break;
      }
      var tag := GedcomLine.TagOf(eventLine);
      if tag.None? {
        i := i + 1;
        continue;
      }
      event := ApplyEventLine(event, tag.value, eventLine, eventLines[i + 1..]);
      i := i + 1;
    }
    return Ok(event);
  }

  /** The switch on the tag of one child line. */
  method ApplyEventLine(event: Event, tag: string, eventLine: string, ghost following: seq<string>)
    returns (next: Event)
    ensures next == EventStep(event, tag, eventLine, following)
  {
    next := event;
    match tag {
      case "DATE" =>
        next := event.(date := DateStructure.InterpretDateStructure(GedcomLine.ValueOf(eventLine)));
      case "PLAC" =>
        next := event.(place := GedcomLine.ValueOf(eventLine));
      case "_PRIM" =>
        var value := GedcomLine.ValueOf(eventLine);
        if value in Util.PrimaryBoolByValue {
          next := event.(primary := Util.PrimaryBoolByValue[value]);
        }
      case _ =>
    }
  }

  /** `toGedcomIndividualEvent`: the date always present, place and flag copied. */
  function ToGedcomIndividualEvent(event: Event): (r: Document.Event<Document.IndividualDate>)
    ensures r.date == Some(DateStructure.ToGedcomIndividualDate(event.date))
    ensures r.place == event.place && r.primary == event.primary
  {
    Document.Event(Some(DateStructure.ToGedcomIndividualDate(event.date)), event.place, event.primary)
  }

  // ------------------------------------------------------------ properties

  lemma EventStepIgnoresFollowing()
    ensures forall t, tag, raw, rest1, rest2 :: EventStep(t, tag, raw, rest1) == EventStep(t, tag, raw, rest2)
  {
  }

  /** A line that closes the structure ends the scan. */
  lemma EventScopeEnds(event: Event, root: int, a: seq<string>, stop: string, b: seq<string>)
    requires ChildScan.EndsScope(root, stop)
    ensures ChildScan.Scan(event, root, a + [stop] + b, EventStep) == ChildScan.Scan(event, root, a, EventStep)
  {
    EventStepIgnoresFollowing();
    ChildScan.ScanEndsAt(event, root, a, stop, b, EventStep);
  }

  /** A line whose level or tag cannot be read is passed over. */
  lemma EventSkipsUnreadable(event: Event, root: int, a: seq<string>, skip: string, b: seq<string>)
    requires GedcomLine.LevelOf(skip).None? || (GedcomLine.LevelOf(skip).value > root && GedcomLine.TagOf(skip).None?)
    ensures ChildScan.Scan(event, root, a + [skip] + b, EventStep) == ChildScan.Scan(event, root, a + b, EventStep)
  {
    EventStepIgnoresFollowing();
    ChildScan.ScanSkips(event, root, a, skip, b, EventStep);
  }

  /** The last DATE child sets the date, read from its value. */
  lemma LastDateWins(event: Event, root: int, a: seq<string>, d: string)
    requires ChildScan.NoEnd(root, a) && ChildScan.Visited(root, d)
    requires GedcomLine.TagOf(d) == Some("DATE")
    ensures ChildScan.Scan(event, root, a + [d], EventStep).date
      == DateStructure.InterpretDateStructure(GedcomLine.ValueOf(d))
  {
    EventStepIgnoresFollowing();
    ChildScan.ScanSplits(event, root, a, [d], EventStep);
    ChildScan.ScanOne(ChildScan.Scan(event, root, a, EventStep), root, d, EventStep);
  }

  /** The last PLAC child sets the place to its value verbatim. */
  lemma LastPlaceWins(event: Event, root: int, a: seq<string>, p: string)
    requires ChildScan.NoEnd(root, a) && ChildScan.Visited(root, p)
    requires GedcomLine.TagOf(p) == Some("PLAC")
    ensures ChildScan.Scan(event, root, a + [p], EventStep).place == GedcomLine.ValueOf(p)
  {
    EventStepIgnoresFollowing();
    ChildScan.ScanSplits(event, root, a, [p], EventStep);
    ChildScan.ScanOne(ChildScan.Scan(event, root, a, EventStep), root, p, EventStep);
  }

  /** Only a value of exactly "Y" or "N" moves the flag; any other value keeps it. */
  lemma PrimaryOnlyForExactValues(event: Event, tag: string, raw: string, following: seq<string>)
    requires GedcomLine.ValueOf(raw) != "Y" && GedcomLine.ValueOf(raw) != "N"
    ensures EventStep(event, tag, raw, following).primary == event.primary
  {
  }

  /** A line's value is wrapped in double quotes, so no event read from record lines is
      ever primary. */
  lemma {:induction false} EventPrimaryStays(event: Event, root: int, lines: seq<string>)
    ensures ChildScan.Scan(event, root, lines, EventStep).primary == event.primary
    decreases |lines|
  {
    if lines != [] && !ChildScan.EndsScope(root, lines[0]) {
      if ChildScan.Visited(root, lines[0]) {
        var tag := GedcomLine.TagOf(lines[0]).value;
        var v := GedcomLine.ValueOf(lines[0]);
        assert v[0] == '"';
        PrimaryOnlyForExactValues(event, tag, lines[0], lines[1..]);
        EventPrimaryStays(EventStep(event, tag, lines[0], lines[1..]), root, lines[1..]);
      } else {
        EventPrimaryStays(event, root, lines[1..]);
      }
    }
  }

  lemma EventIsNeverPrimary(eventLines: seq<string>)
    requires |eventLines| > 0 && GedcomLine.LevelOf(eventLines[0]).Some?
    ensures !EventOf(eventLines).value.primary
  {
    EventPrimaryStays(ZeroEvent, GedcomLine.LevelOf(eventLines[0]).value, eventLines[1..]);
  }

  /** Lines with none of the three tags leave the event as it was: an event with no
      children has all its fields zero. */
  lemma {:induction false} OtherTagsKeepEvent(event: Event, root: int, lines: seq<string>)
    requires forall k :: 0 <= k < |lines| ==>
      GedcomLine.TagOf(lines[k]) != Some("DATE") && GedcomLine.TagOf(lines[k]) != Some("PLAC")
      && GedcomLine.TagOf(lines[k]) != Some("_PRIM")
    ensures ChildScan.Scan(event, root, lines, EventStep) == event
    decreases |lines|
  {
    if lines != [] && !ChildScan.EndsScope(root, lines[0]) {
      OtherTagsKeepEvent(event, root, lines[1..]);
    }
  }
}
