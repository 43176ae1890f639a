/** parse/parse.go: the record grouping of `ParseGedcom`, the passes that follow it and
    the writer `WritableGedcom`. The input is the sequence of lines the scanner yields.
    Each record is handed to the interpreter of gedcom/interpret.go as soon as the
    next record begins; the interpreters run one after the other. */
module Parse {
  import opened Wrappers
  import Strings
  import StrConv
  import GedcomLine
  import Document
  import Gedcom
  import Interpret
  import Build
  import Seqs

  type Individual = Gedcom.Individual
  type Family = Gedcom.Family

  /** The byte order mark stripped from the first line. */
  const ByteOrderMark: string := "\U{FEFF}"

  // ------------------------------------------------------------ grouping (lines 66-94)

  /** The lines as the loop reads them: the first without a leading byte order mark. */
  function Cleaned(lines: seq<string>): (r: seq<string>)
    ensures |r| == |lines|
    ensures forall i :: 0 < i < |lines| ==> r[i] == lines[i]
    ensures |lines| > 0 ==> r[0] == Strings.TrimPrefix(lines[0], ByteOrderMark)
  {
    if lines == [] then [] else [Strings.TrimPrefix(lines[0], ByteOrderMark)] + lines[1..]
  }

  /** The records dispatched so far and the record being accumulated, after the loop has
      read `lines`: a line that `opens` a record closes a non-empty accumulator. The loop
      opens a record at each line whose level reads as 0 (`Records`). */
  function Grouped(lines: seq<string>, opens: string -> bool): (r: (seq<seq<string>>, seq<string>))
    ensures NonEmpty(r.0)
    ensures lines != [] ==> |r.1| > 0
    decreases |lines|
  {
    if lines == [] then ([], [])
    else
      var before := Grouped(lines[..|lines| - 1], opens);
      var line := lines[|lines| - 1];
      if |before.1| > 0 && opens(line) then (before.0 + [before.1], [line])
      else (before.0, before.1 + [line])
  }

  function Flatten(records: seq<seq<string>>): seq<string>
    decreases |records|
  {
    if records == [] then [] else Flatten(records[..|records| - 1]) + records[|records| - 1]
  }

  /** A piece of a grouping: not empty, and no line but the first opens a record. */
  predicate Piece(record: seq<string>, opens: string -> bool)
  {
    |record| > 0 && forall j :: 0 < j < |record| ==> !opens(record[j])
  }

  /** What makes `(records, pending)` a grouping of `lines`: the pieces rejoin to the
      lines, each is a piece, every piece after the first opens a record, and there is
      a pending piece whenever there are lines. */
  predicate IsGrouping(lines: seq<string>, records: seq<seq<string>>, pending: seq<string>, opens: string -> bool)
  {
    && Flatten(records) + pending == lines
    && (forall k :: 0 <= k < |records| ==> Piece(records[k], opens))
    && (lines != [] ==> Piece(pending, opens))
    && (lines == [] ==> pending == [])
    && (forall k :: 0 < k < |records| ==> opens(records[k][0]))
    && (|records| > 0 ==> opens(pending[0]))
  }

  lemma FlattenAppend(records: seq<seq<string>>, record: seq<string>)
    ensures Flatten(records + [record]) == Flatten(records) + record
  {
    assert (records + [record])[..|records|] == records;
  }

  lemma FlattenOfPieces(records: seq<seq<string>>)
    requires records != [] && |records[|records| - 1]| > 0
    ensures Flatten(records) != []
  {
  }

  /** A line that opens a record closes a non-empty accumulator. */
  lemma CloseStep(init: seq<string>, records: seq<seq<string>>, pending: seq<string>, line: string, opens: string -> bool)
    requires IsGrouping(init, records, pending, opens) && |pending| > 0 && opens(line)
    ensures IsGrouping(init + [line], records + [pending], [line], opens)
  {
    FlattenAppend(records, pending);
    var rs := records + [pending];
    assert forall k :: 0 <= k < |records| ==> rs[k] == records[k];
    assert init != [];
  }

  /** Any other line joins the accumulator. */
  lemma ExtendStep(init: seq<string>, records: seq<seq<string>>, pending: seq<string>, line: string, opens: string -> bool)
    requires IsGrouping(init, records, pending, opens) && !(|pending| > 0 && opens(line))
    ensures IsGrouping(init + [line], records, pending + [line], opens)
  {
    var p := pending + [line];
    assert Flatten(records) + p == init + [line];
    if init == [] {
      if records != [] {
        FlattenOfPieces(records);
      }
      assert records == [];
    } else {
      assert Piece(p, opens) by {
        forall j | 0 < j < |p| ensures !opens(p[j]) {
          if j < |pending| { assert p[j] == pending[j]; }
        }
      }
      if |records| > 0 { assert p[0] == pending[0]; }
    }
  }

  /** The loop's grouping is a grouping. */
  lemma {:induction false} GroupedIsGrouping(lines: seq<string>, opens: string -> bool)
    ensures IsGrouping(lines, Grouped(lines, opens).0, Grouped(lines, opens).1, opens)
    decreases |lines|
  {
    if lines != [] {
      var init := lines[..|lines| - 1];
      var line := lines[|lines| - 1];
      GroupedIsGrouping(init, opens);
      var before := Grouped(init, opens);
      assert lines == init + [line];
      if |before.1| > 0 && opens(line) {
        CloseStep(init, before.0, before.1, line, opens);
      } else {
        ExtendStep(init, before.0, before.1, line, opens);
      }
    }
  }

  /** A grouping whose pending piece is one line opened it by closing the piece before. */
  lemma UncloseStep(init: seq<string>, records: seq<seq<string>>, line: string, opens: string -> bool)
    requires IsGrouping(init + [line], records, [line], opens) && records != []
    ensures var n := |records| - 1;
            IsGrouping(init, records[..n], records[n], opens) && opens(line)
  {
    var n := |records| - 1;
    FlattenAppend(records[..n], records[n]);
    assert records[..n] + [records[n]] == records;
    var a := Flatten(records[..n]) + records[n];
    assert a + [line] == init + [line];
    assert a == (a + [line])[..|a|];
    assert init == (init + [line])[..|init|];
    assert a == init;
    assert forall k :: 0 <= k < n ==> records[..n][k] == records[k];
  }

  /** A grouping whose pending piece is longer extended it by its last line. */
  lemma UnextendStep(init: seq<string>, records: seq<seq<string>>, pending: seq<string>, line: string, opens: string -> bool)
    requires IsGrouping(init + [line], records, pending, opens) && |pending| > 1
    ensures var p := pending[..|pending| - 1];
            IsGrouping(init, records, p, opens) && pending == p + [line] && !opens(line)
  {
    var p := pending[..|pending| - 1];
    assert pending == p + [line] by {
      assert (Flatten(records) + pending)[|init|] == line;
    }
    var a := Flatten(records) + p;
    assert a + [line] == init + [line];
    assert a == (a + [line])[..|a|];
    assert init == (init + [line])[..|init|];
    assert a == init;
    assert forall j :: 0 < j < |p| ==> p[j] == pending[j];
    assert pending[|pending| - 1] == line;
  }

  /** And it is the only one: any grouping of the lines is the loop's. */
  lemma {:induction false} GroupingIsUnique(lines: seq<string>, records: seq<seq<string>>, pending: seq<string>, opens: string -> bool)
    requires IsGrouping(lines, records, pending, opens)
    ensures (records, pending) == Grouped(lines, opens)
    decreases |lines|
  {
    if lines == [] {
      if records != [] {
        FlattenOfPieces(records);
      }
    } else {
      var init := lines[..|lines| - 1];
      var line := lines[|lines| - 1];
      assert lines == init + [line];
      assert pending[|pending| - 1] == line by {
        assert (Flatten(records) + pending)[|lines| - 1] == pending[|pending| - 1];
      }
      if |pending| == 1 {
        assert pending == [line];
        if records == [] {
          assert lines == pending;
        } else {
          var n := |records| - 1;
          UncloseStep(init, records, line, opens);
          GroupingIsUnique(init, records[..n], records[n], opens);
          assert records[..n] + [records[n]] == records;
        }
      } else {
        var p := pending[..|pending| - 1];
        UnextendStep(init, records, pending, line, opens);
        GroupingIsUnique(init, records, p, opens);
      }
    }
  }

  /** The line that begins a record in `ParseGedcom`: one whose level reads as 0. */
  predicate OpensAtLevelZero(line: string)
  {
    GedcomLine.LevelOf(line) == Some(0)
  }

  /** The loop's records and pending record for the lines the scanner yields. */
  function Records(lines: seq<string>): (r: (seq<seq<string>>, seq<string>))
    ensures NonEmpty(r.0)
  {
    Grouped(Cleaned(lines), OpensAtLevelZero)
  }

  // ------------------------------------------------------------ dispatch

  predicate NonEmpty(records: seq<seq<string>>)
  {
    forall k :: 0 <= k < |records| ==> |records[k]| > 0
  }

  /** The document after the records have been interpreted in order; `None` when the
      interpretation of one of them panics. */
  function Interpreted(records: seq<seq<string>>): (r: Option<(seq<Individual>, seq<Family>)>)
    requires NonEmpty(records)
    decreases |records|
  {
    if records == [] then Some(([], []))
    else
      match Interpreted(records[..|records| - 1])
      case None => None
      case Some(before) =>
        match Interpret.RecordOf(records[|records| - 1])
        case None => None
        case Some(added) => Some(Gedcom.WithAdded(before.0, before.1, added))
  }

  /** Every record's interpreter reaches `waitGroup.Done`. */
  predicate AllSignalDone(records: seq<seq<string>>)
    requires NonEmpty(records)
  {
    forall k :: 0 <= k < |records| ==> Interpret.SignalsDone(records[k])
  }

  /** How `ParseGedcom` ends: a panic in an interpreter or in the removal of families,
      a `waitGroup.Wait` that never returns, or the marshalling step with the format
      chosen or the error. */
  datatype Outcome = Panicked | Blocked | Finished(format: Result<OutputFormat, string>)

  /** The families the removal as written leaves of the document, `None` on its panic. */
  function Removed(doc: (seq<Individual>, seq<Family>)): Option<seq<Family>>
  {
    Gedcom.RemoveFamiliesInOrder(doc.1, Gedcom.InvalidFamilyIndices(doc.1, Gedcom.IndexById(doc.0).Keys))
  }

  /** The outcome of `ParseGedcom` for the lines the scanner yields. A panic in one
      record's goroutine ends the program even when another never signals. */
  function ParseOutcome(lines: seq<string>, to: string): Outcome
  {
    var records := Records(lines).0;
    match Interpreted(records)
    case None => Panicked
    case Some(doc) =>
      if !AllSignalDone(records) then Blocked
      else if Removed(doc).None? then Panicked
      else Finished(OutputFor(to))
  }

  /** What the output extension selects. */
  datatype OutputFormat = Json | Protobuf

  /** `filepath.Ext`: the suffix from the last '.' of the last path element, or "". */
  function Ext(path: string): (r: string)
    ensures r == "" || (r[0] == '.' && |r| <= |path| && r == path[|path| - |r|..] && '/' !in r && '.' !in r[1..])
    decreases |path|
  {
    if path == [] then ""
    else
      var c := path[|path| - 1];
      if c == '/' then ""
      else if c == '.' then "."
      else
        var e := Ext(path[..|path| - 1]);
        if e == "" then "" else e + [c]
  }

  function OutputFor(to: string): (r: Result<OutputFormat, string>)
    ensures r == Ok(Json) <==> Ext(to) == ".json"
    ensures r == Ok(Protobuf) <==> Ext(to) == ".protobuf"
    ensures r.Err? ==> r.error == "failed to match output file extension to: .json|.protobuf"
  {
    var ext := Ext(to);
    if ext == ".json" then Ok(Json)
    else if ext == ".protobuf" then Ok(Protobuf)
    else Err("failed to match output file extension to: " + ".json|.protobuf")
  }

  /** One more line read by the loop. */
  lemma GroupedSnoc(lines: seq<string>, line: string, opens: string -> bool)
    ensures Grouped(lines + [line], opens)
         == if |Grouped(lines, opens).1| > 0 && opens(line)
            then (Grouped(lines, opens).0 + [Grouped(lines, opens).1], [line])
            else (Grouped(lines, opens).0, Grouped(lines, opens).1 + [line])
  {
    assert (lines + [line])[..|lines|] == lines;
  }

  /** One more record interpreted. */
  lemma InterpretedSnoc(records: seq<seq<string>>, record: seq<string>)
    requires NonEmpty(records) && |record| > 0
    ensures NonEmpty(records + [record])
    ensures Interpreted(records + [record])
         == if Interpreted(records).None? || Interpret.RecordOf(record).None? then None
            else Some(Gedcom.WithAdded(Interpreted(records).value.0, Interpreted(records).value.1,
                                       Interpret.RecordOf(record).value))
    ensures AllSignalDone(records + [record]) <==> AllSignalDone(records) && Interpret.SignalsDone(record)
  {
    var rs := records + [record];
    assert rs[..|records|] == records;
    assert forall k :: 0 <= k < |records| ==> rs[k] == records[k];
  }

  /** The interpreter of some record panics. */
  predicate SomeRecordPanics(records: seq<seq<string>>)
    requires NonEmpty(records)
  {
    exists k :: 0 <= k < |records| && Interpret.RecordOf(records[k]).None?
  }

  /** The interpretation panics exactly when the interpreter of some record does. */
  lemma {:induction false} InterpretedPanics(records: seq<seq<string>>)
    requires NonEmpty(records)
    ensures Interpreted(records).None? <==> SomeRecordPanics(records)
    decreases |records|
  {
    if records != [] {
      var n := |records| - 1;
      InterpretedPanics(records[..n]);
      InterpretedLast(records);
      SomeRecordPanicsLast(records);
    }
  }

  lemma InterpretedLast(records: seq<seq<string>>)
    requires NonEmpty(records) && records != []
    ensures Interpreted(records).None?
        <==> Interpreted(records[..|records| - 1]).None? || Interpret.RecordOf(records[|records| - 1]).None?
  {
  }

  lemma SomeRecordPanicsLast(records: seq<seq<string>>)
    requires NonEmpty(records) && records != []
    ensures SomeRecordPanics(records)
        <==> SomeRecordPanics(records[..|records| - 1]) || Interpret.RecordOf(records[|records| - 1]).None?
  {
    var n := |records| - 1;
    var init := records[..n];
    if SomeRecordPanics(records) && Interpret.RecordOf(records[n]).Some? {
      var k :| 0 <= k < |records| && Interpret.RecordOf(records[k]).None?;
      assert init[k] == records[k];
    }
    if SomeRecordPanics(init) {
      var k :| 0 <= k < |init| && Interpret.RecordOf(init[k]).None?;
      assert init[k] == records[k];
    }
  }

  /** The scanner loop of `ParseGedcom`: every record is interpreted as soon as the next
      one begins; the record accumulated last is not. `ok` is false when one of the
      interpreters panics; otherwise `done` says whether every one signals the wait
      group. */
  method InterpretLines(g: Gedcom.ConcurrencySafeGedcom, lines: seq<string>) returns (ok: bool, done: bool)
    requires g.individuals == [] && g.families == []
    modifies g`individuals, g`families
    ensures ok <==> Interpreted(Records(lines).0).Some?
    ensures ok ==> (g.individuals, g.families) == Interpreted(Records(lines).0).value
    ensures ok ==> (done <==> AllSignalDone(Records(lines).0))
  {
    ghost var cleaned := Cleaned(lines);
    var recordLines: seq<string> := [];
    ghost var records: seq<seq<string>> := [];
    ok, done := true, true;
    var i := 0;
    assert cleaned[..0] == [];
    while i < |lines|
      invariant 0 <= i <= |lines|
      invariant (records, recordLines) == Grouped(cleaned[..i], OpensAtLevelZero)
      invariant NonEmpty(records)
      invariant ok <==> Interpreted(records).Some?
      invariant ok ==> (g.individuals, g.families) == Interpreted(records).value
      invariant ok ==> (done <==> AllSignalDone(records))
    {
      var line := if i == 0 then Strings.TrimPrefix(lines[0], ByteOrderMark) else lines[i];
      assert cleaned[i] == line;
      Seqs.TakeSnoc(cleaned, i);
      GroupedSnoc(cleaned[..i], line, OpensAtLevelZero);
      records, recordLines, ok, done := InterpretLine(g, records, recordLines, line, ok, done);
      i := i + 1;
    }
    assert cleaned[..|lines|] == cleaned;
  }

  /** One line of the scanning loop: a level-0 line closes a pending, non-empty record,
      which is interpreted, and opens the next; any other line joins the pending one.
      Once an interpreter has panicked the program is ending, and none is started. */
  method InterpretLine(g: Gedcom.ConcurrencySafeGedcom, ghost records: seq<seq<string>>,
                       recordLines: seq<string>, line: string, ok: bool, done: bool)
    returns (ghost records': seq<seq<string>>, recordLines': seq<string>, ok': bool, done': bool)
    requires NonEmpty(records)
    requires ok <==> Interpreted(records).Some?
    requires ok ==> (g.individuals, g.families) == Interpreted(records).value
    requires ok ==> (done <==> AllSignalDone(records))
    modifies g`individuals, g`families
    ensures (records', recordLines')
         == if |recordLines| > 0 && OpensAtLevelZero(line)
            then (records + [recordLines], [line])
            else (records, recordLines + [line])
    ensures NonEmpty(records')
    ensures ok' <==> Interpreted(records').Some?
    ensures ok' ==> (g.individuals, g.families) == Interpreted(records').value
    ensures ok' ==> (done' <==> AllSignalDone(records'))
  {
    var gedcomLine := new GedcomLine.Line(line);
    var level := gedcomLine.Level();
    ok', done' := ok, done;
    if |recordLines| > 0 && level == Some(0) {
      InterpretedSnoc(records, recordLines);
      if ok {
        var recordDone;
        ok', recordDone := Interpret.InterpretRecord(g, recordLines);
        done' := done && recordDone;
      }
      records', recordLines' := records + [recordLines], [line];
    } else {
      records', recordLines' := records, recordLines + [line];
    }
  }

  /** `ParseGedcom` up to marshalling: the document that would be marshalled and how
      the call ends. The pending record is never interpreted; the families are removed
      as written, in increasing order. */
  method ParseGedcom(lines: seq<string>, to: string) returns (g: Gedcom.ConcurrencySafeGedcom, outcome: Outcome)
    ensures outcome == ParseOutcome(lines, to)
    ensures outcome.Finished? ==>
            var doc := Interpreted(Records(lines).0).value;
            && g.individuals == doc.0
            && g.families == Removed(doc).value
            && multiset(g.families) == multiset(Gedcom.Kept(doc.1, Gedcom.IndexById(doc.0).Keys))
    ensures g.header.None? && g.submitters == []
  {
    g := new Gedcom.ConcurrencySafeGedcom.New();
    var ok, done := InterpretLines(g, lines);
    if !ok {
      return g, Panicked;
    }
    if !done {
      // `waitGroup.Wait` never returns.
      return g, Blocked;
    }
    ok := g.RemoveInvalidFamilies();
    if !ok {
      return g, Panicked;
    }
    var ext := Ext(to);
    if ext == ".json" {
      outcome := Finished(Ok(Json));
    } else if ext == ".protobuf" {
      outcome := Finished(Ok(Protobuf));
    } else {
      outcome := Finished(Err("failed to match output file extension to: " + ".json|.protobuf"));
    }
  }

  // ------------------------------------------------------------ WritableGedcom (lines 156-259)

  /** `WritableGedcom` of parse/parse.go writes, line for line, what the writer of
      gedcom/build.go writes; the one definition is shared. */
  method WritableGedcom(g: Gedcom.ConcurrencySafeGedcom) returns (ok: bool, buf: seq<string>)
    modifies g`individuals
    ensures g.individuals == Gedcom.DecodeIndividuals(old(g.individuals), StrConv.Unquote).0
    ensures ok <==> Build.AllDated(g.individuals)
    ensures ok ==> buf == Build.GedcomLines(g.individuals, g.families)
  {
    ok, buf := Build.WritableGedcom(g);
  }

  // ------------------------------------------------------------ properties

  /** A well-formed file ends with its TRLR line, which is then the pending record: the
      record left out of the interpretation holds nothing else. */
  lemma TrailerIsPending(lines: seq<string>)
    requires |lines| >= 2 && lines[|lines| - 1] == "0 TRLR"
    ensures Records(lines).1 == ["0 TRLR"]
  {
    var cleaned := Cleaned(lines);
    var init := cleaned[..|lines| - 1];
    assert cleaned == init + ["0 TRLR"];
    GroupedIsGrouping(init, OpensAtLevelZero);
    assert "0 TRLR" == StrConv.FormatNat(0) + " " + "TRLR";
    GedcomLine.LevelOfComposed(0, "TRLR");
    GroupedSnoc(init, "0 TRLR", OpensAtLevelZero);
  }

  /** The records and the pending record are exactly the grouping of the lines read:
      they rejoin to those lines in order, no line but the first of each reads as level
      0, and each after the first opens with such a line. No other split is one. */
  lemma RecordsAreTheGrouping(lines: seq<string>, records: seq<seq<string>>, pending: seq<string>)
    ensures IsGrouping(Cleaned(lines), records, pending, OpensAtLevelZero) <==> (records, pending) == Records(lines)
  {
    GroupedIsGrouping(Cleaned(lines), OpensAtLevelZero);
    if IsGrouping(Cleaned(lines), records, pending, OpensAtLevelZero) {
      GroupingIsUnique(Cleaned(lines), records, pending, OpensAtLevelZero);
    }
  }

  /** Every record opened by a line of level 0, with its first line of level 0 too,
      reads as a family with no references. */
  lemma {:induction false} InterpretedFamiliesBare(records: seq<seq<string>>)
    requires NonEmpty(records)
    requires forall k :: 0 <= k < |records| ==> OpensAtLevelZero(records[k][0])
    ensures Interpreted(records).Some? ==>
            forall f :: f in Interpreted(records).value.1 ==> f.fatherId == "" && f.motherId == "" && f.childIds == []
    decreases |records|
  {
    if records != [] {
      var last := records[|records| - 1];
      InterpretedFamiliesBare(records[..|records| - 1]);
      if GedcomLine.TagOf(last[0]) == Some("FAM") {
        Interpret.FamilyOfLevelZeroIsBare(last);
      }
    }
  }

  lemma {:induction false} NoneKept(families: seq<Family>, ids: set<string>)
    requires forall f :: f in families ==> !Gedcom.Resolves(f, ids)
    ensures Gedcom.Kept(families, ids) == []
    decreases |families|
  {
    if families != [] {
      NoneKept(families[..|families| - 1], ids);
    }
  }

  /** In a file whose first line reads as level 0, every FAM record is read only as
      far as its own first line, so every family has empty references, which no id
      but "" resolves. */
  lemma NoFamilyResolves(lines: seq<string>)
    requires |lines| > 0 && OpensAtLevelZero(Cleaned(lines)[0])
    requires Interpreted(Records(lines).0).Some?
    requires "" !in Gedcom.IndexById(Interpreted(Records(lines).0).value.0).Keys
    ensures var doc := Interpreted(Records(lines).0).value;
            forall f :: f in doc.1 ==> !Gedcom.Resolves(f, Gedcom.IndexById(doc.0).Keys)
  {
    var cleaned := Cleaned(lines);
    GroupedIsGrouping(cleaned, OpensAtLevelZero);
    var records := Records(lines).0;
    if records != [] {
      assert Flatten(records) == Flatten(records[..|records| - 1]) + records[|records| - 1];
      FlattenStartsWithFirst(records);
      assert records[0][0] == cleaned[0];
    }
    InterpretedFamiliesBare(records);
  }

  /** Such a file, unless some individual has the id "", keeps none of its families. */
  lemma NoFamilySurvives(lines: seq<string>)
    requires |lines| > 0 && OpensAtLevelZero(Cleaned(lines)[0])
    requires Interpreted(Records(lines).0).Some?
    requires "" !in Gedcom.IndexById(Interpreted(Records(lines).0).value.0).Keys
    ensures var doc := Interpreted(Records(lines).0).value;
            Gedcom.Kept(doc.1, Gedcom.IndexById(doc.0).Keys) == []
  {
    NoFamilyResolves(lines);
    var doc := Interpreted(Records(lines).0).value;
    NoneKept(doc.1, Gedcom.IndexById(doc.0).Keys);
  }

  /** And the removal as written panics on it as soon as two families were read: a
      file that gets past its interpreters ends in a panic exactly when it has two FAM
      records or more before the last record. */
  lemma TwoFamiliesPanic(lines: seq<string>, to: string)
    requires |lines| > 0 && OpensAtLevelZero(Cleaned(lines)[0])
    requires Interpreted(Records(lines).0).Some? && AllSignalDone(Records(lines).0)
    requires "" !in Gedcom.IndexById(Interpreted(Records(lines).0).value.0).Keys
    ensures ParseOutcome(lines, to).Panicked? <==> |Interpreted(Records(lines).0).value.1| >= 2
  {
    NoFamilyResolves(lines);
    var doc := Interpreted(Records(lines).0).value;
    forall k | 0 <= k < |doc.1| ensures !Gedcom.Resolves(doc.1[k], Gedcom.IndexById(doc.0).Keys) {
      assert doc.1[k] in doc.1;
    }
    Gedcom.AllDanglingRemovable(doc.1, Gedcom.IndexById(doc.0).Keys);
  }

  lemma {:induction false} FlattenStartsWithFirst(records: seq<seq<string>>)
    requires |records| > 0 && |records[0]| > 0
    ensures |Flatten(records)| > 0 && Flatten(records)[0] == records[0][0]
    decreases |records|
  {
    if |records| > 1 {
      FlattenStartsWithFirst(records[..|records| - 1]);
    }
  }
}
