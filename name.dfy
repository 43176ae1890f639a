/** The NAME interpreter of gedcom/name.go: the inline "given /surname/" form of the
    first line, then GIVN, SURN and _PRIM children overriding it, last one winning. */
module NameStructure {
  import opened Wrappers
  import Strings
  import Util
  import GedcomLine
  import ChildScan

  /** gedcom/name.go's `Name`. */
  datatype Name = Name(givenName: string, surname: string, primary: bool)

  const RootLevelError := "failed to parse root level of name structure"

  /** The inline form: the value split at '/'; when the first piece or the second is
      non-empty, the trimmed first piece is the given name and the trimmed second (if
      any) the surname. */
  function InlineName(value: string): (r: Name)
    ensures !r.primary
  {
    var parts := Strings.Split(value, '/');
    if parts[0] != "" || (|parts| > 1 && parts[1] != "") then
      Name(Strings.TrimSpace(parts[0]), if |parts| > 1 then Strings.TrimSpace(parts[1]) else "", false)
    else Name("", "", false)
  }

  /** One child line: GIVN and SURN set their part to the line's value, _PRIM sets
      `primary` to the table entry of the upper-cased value (false when it has none). */
  function NameStep(name: Name, tag: string, raw: string, following: seq<string>): (r: Name)
  {
    var value := GedcomLine.ValueOf(raw);
    if tag == "GIVN" then name.(givenName := value)
    else if tag == "SURN" then name.(surname := value)
    else if tag == "_PRIM" then
      name.(primary := if Strings.ToUpper(value) in Util.PrimaryBoolByValue
                       then Util.PrimaryBoolByValue[Strings.ToUpper(value)] else false)
    else name
  }

  /** What the interpreter returns for `nameLines`. */
  function NameOf(nameLines: seq<string>): (r: Result<Name, string>)
    requires |nameLines| > 0
    ensures r.Err? <==> GedcomLine.LevelOf(nameLines[0]).None?
    ensures r.Err? ==> r.error == RootLevelError
  {
    match GedcomLine.LevelOf(nameLines[0])
    case None => Err(RootLevelError)
    case Some(root) =>
      Ok(ChildScan.Scan(InlineName(GedcomLine.ValueOf(nameLines[0])), root, nameLines[1..], NameStep))
  }

  /** `NameStructure` over the lines of the structure (its first line, then the lines
      after it): a loop that passes over unreadable lines and stops at the first line
      that is no deeper than the first. */
  method InterpretNameStructure(nameLines: seq<string>) returns (r: Result<Name, string>)
    requires |nameLines| > 0
    ensures r == NameOf(nameLines)
  {
    var rootLevel := GedcomLine.LevelOf(nameLines[0]);
    if rootLevel.None? {
      return Err(RootLevelError);
    }
    var root := rootLevel.value;
    var name := InlineName(GedcomLine.ValueOf(nameLines[0]));
    var i := 1;
    while i < |nameLines|
      invariant 1 <= i <= |nameLines|
      invariant ChildScan.Scan(name, root, nameLines[i..], NameStep) == NameOf(nameLines).value
    {
      var nameLine := nameLines[i];
      assert nameLines[i..][0] == nameLine && nameLines[i..][1..] == nameLines[i + 1..];
      var level := GedcomLine.LevelOf(nameLine);
      if level.None? {
        i := i + 1;
        continue;
      }
      if level.value <= root {
        break;
      }
      var tag := GedcomLine.TagOf(nameLine);
      if tag.None? {
        i := i + 1;
        continue;
      }
      name := NameStep(name, tag.value, nameLine, nameLines[i + 1..]);
      i := i + 1;
    }
    return Ok(name);
  }

  // ------------------------------------------------------------ properties

  /** The step never looks at the lines after its own. */
  lemma NameStepIgnoresFollowing()
    ensures forall t, tag, raw, rest1, rest2 :: NameStep(t, tag, raw, rest1) == NameStep(t, tag, raw, rest2)
  {
  }

  /** The inline form with both parts, as in "William Lee /Parry/". */
  lemma InlineGivenAndSurname(given: string, surname: string, rest: string)
    requires '/' !in given && '/' !in surname && given != ""
    ensures InlineName(given + "/" + surname + "/" + rest)
      == Name(Strings.TrimSpace(given), Strings.TrimSpace(surname), false)
  {
    assert given + "/" + surname + "/" + rest == given + ['/'] + (surname + ['/'] + rest);
    Strings.SplitAtFirst(given, '/', surname + "/" + rest);
    Strings.SplitAtFirst(surname, '/', rest);
  }

  /** The inline form with a surname only, as in "/Parry/". */
  lemma InlineSurnameOnly(surname: string, rest: string)
    requires '/' !in surname && surname != ""
    ensures InlineName("/" + surname + "/" + rest) == Name("", Strings.TrimSpace(surname), false)
  {
    assert "/" + surname + "/" + rest == "" + ['/'] + (surname + ['/'] + rest);
    Strings.SplitAtFirst("", '/', surname + "/" + rest);
    Strings.SplitAtFirst(surname, '/', rest);
  }

  /** A value without '/' is the given name alone. */
  lemma InlineGivenOnly(given: string)
    requires '/' !in given && given != ""
    ensures InlineName(given) == Name(Strings.TrimSpace(given), "", false)
  {
  }

  /** An empty value, or one opening with "//", sets neither part. */
  lemma InlineNeither(rest: string)
    ensures InlineName("") == Name("", "", false)
    ensures InlineName("//" + rest) == Name("", "", false)
  {
    assert "//" + rest == "" + ['/'] + ("" + ['/'] + rest);
    Strings.SplitAtFirst("", '/', "/" + rest);
    Strings.SplitAtFirst("", '/', rest);
  }

  /** A line that closes the structure ends the scan: nothing after it is read. */
  lemma NameScopeEnds(name: Name, root: int, a: seq<string>, stop: string, b: seq<string>)
    requires ChildScan.EndsScope(root, stop)
    ensures ChildScan.Scan(name, root, a + [stop] + b, NameStep) == ChildScan.Scan(name, root, a, NameStep)
  {
    NameStepIgnoresFollowing();
    ChildScan.ScanEndsAt(name, root, a, stop, b, NameStep);
  }

  /** A line whose level or tag cannot be read is passed over without ending the scan. */
  lemma NameSkipsUnreadable(name: Name, root: int, a: seq<string>, skip: string, b: seq<string>)
    requires GedcomLine.LevelOf(skip).None? || (GedcomLine.LevelOf(skip).value > root && GedcomLine.TagOf(skip).None?)
    ensures ChildScan.Scan(name, root, a + [skip] + b, NameStep) == ChildScan.Scan(name, root, a + b, NameStep)
  {
    NameStepIgnoresFollowing();
    ChildScan.ScanSkips(name, root, a, skip, b, NameStep);
  }

  /** The last GIVN child inside the structure sets the given name, whatever came
      before it. */
  lemma LastGivenNameWins(name: Name, root: int, a: seq<string>, g: string)
    requires ChildScan.NoEnd(root, a) && ChildScan.Visited(root, g)
    requires GedcomLine.TagOf(g) == Some("GIVN")
    ensures ChildScan.Scan(name, root, a + [g], NameStep).givenName == GedcomLine.ValueOf(g)
  {
    NameStepIgnoresFollowing();
    ChildScan.ScanSplits(name, root, a, [g], NameStep);
    ChildScan.ScanOne(ChildScan.Scan(name, root, a, NameStep), root, g, NameStep);
  }

  /** The last SURN child inside the structure sets the surname. */
  lemma LastSurnameWins(name: Name, root: int, a: seq<string>, s: string)
    requires ChildScan.NoEnd(root, a) && ChildScan.Visited(root, s)
    requires GedcomLine.TagOf(s) == Some("SURN")
    ensures ChildScan.Scan(name, root, a + [s], NameStep).surname == GedcomLine.ValueOf(s)
  {
    NameStepIgnoresFollowing();
    ChildScan.ScanSplits(name, root, a, [s], NameStep);
    ChildScan.ScanOne(ChildScan.Scan(name, root, a, NameStep), root, s, NameStep);
  }

  /** Lines with other tags leave the given name and the surname as they were. */
  lemma {:induction false} OtherTagsKeepParts(name: Name, root: int, lines: seq<string>)
    requires forall k :: 0 <= k < |lines| ==>
      GedcomLine.TagOf(lines[k]) != Some("GIVN") && GedcomLine.TagOf(lines[k]) != Some("SURN")
    ensures var r := ChildScan.Scan(name, root, lines, NameStep);
            r.givenName == name.givenName && r.surname == name.surname
    decreases |lines|
  {
    if lines != [] && !ChildScan.EndsScope(root, lines[0]) {
      if ChildScan.Visited(root, lines[0]) {
        OtherTagsKeepParts(NameStep(name, GedcomLine.TagOf(lines[0]).value, lines[0], lines[1..]), root, lines[1..]);
      } else {
        OtherTagsKeepParts(name, root, lines[1..]);
      }
    }
  }

  /** No step sets `primary`: the upper-cased value opens with a double quote, so it is
      neither "Y" nor "N". */
  lemma PrimaryStepKeepsFalse(name: Name, tag: string, raw: string, following: seq<string>)
    requires !name.primary
    ensures !NameStep(name, tag, raw, following).primary
  {
    Util.LongKeysNotPrimary(Strings.ToUpper(GedcomLine.ValueOf(raw)));
  }

  /** `primary` is only ever set to false: the value of a _PRIM line is wrapped in
      double quotes, so its upper-cased form is never "Y". */
  lemma {:induction false} PrimaryStaysFalse(name: Name, root: int, lines: seq<string>)
    requires !name.primary
    ensures !ChildScan.Scan(name, root, lines, NameStep).primary
    decreases |lines|
  {
    if lines != [] && !ChildScan.EndsScope(root, lines[0]) {
      if ChildScan.Visited(root, lines[0]) {
        var tag := GedcomLine.TagOf(lines[0]).value;
        PrimaryStepKeepsFalse(name, tag, lines[0], lines[1..]);
        PrimaryStaysFalse(NameStep(name, tag, lines[0], lines[1..]), root, lines[1..]);
      } else {
        PrimaryStaysFalse(name, root, lines[1..]);
      }
    }
  }

  /** Hence no name interpreted from record lines is ever primary. */
  lemma NameIsNeverPrimary(nameLines: seq<string>)
    requires |nameLines| > 0 && GedcomLine.LevelOf(nameLines[0]).Some?
    ensures !NameOf(nameLines).value.primary
  {
    var root := GedcomLine.LevelOf(nameLines[0]).value;
    PrimaryStaysFalse(InlineName(GedcomLine.ValueOf(nameLines[0])), root, nameLines[1..]);
  }
}
