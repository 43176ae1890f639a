/** The child scan shared by the structure interpreters of gedcom/name.go,
    gedcom/event.go and gedcom/interpret.go: the lines after a structure's first line
    are visited in order; a line whose level cannot be read is passed over; the first
    line whose level is at most the root level ends the structure; a line whose tag
    cannot be read is passed over; every other line is handed to the structure's own
    step together with the lines that follow it. */
module ChildScan {
  import opened Wrappers
  import GedcomLine

  /** The line closes the structure opened at level `root`. */
  predicate EndsScope(root: int, raw: string)
  {
    GedcomLine.LevelOf(raw).Some? && GedcomLine.LevelOf(raw).value <= root
  }

  /** The line is inside the structure and is handed to its step. */
  predicate Visited(root: int, raw: string)
  {
    GedcomLine.LevelOf(raw).Some? && GedcomLine.LevelOf(raw).value > root
    && GedcomLine.TagOf(raw).Some?
  }

  /** No line of `lines` closes the structure. */
  predicate NoEnd(root: int, lines: seq<string>)
  {
    forall k :: 0 <= k < |lines| ==> !EndsScope(root, lines[k])
  }

  /** The state after the scan of `lines`, starting from `s`. The step receives the
      state, the tag, the line and the lines after it. */
  function Scan<S>(s: S, root: int, lines: seq<string>,
                   step: (S, string, string, seq<string>) -> S): S
    decreases |lines|
  {
    if lines == [] then s
    else if EndsScope(root, lines[0]) then s
    else if Visited(root, lines[0]) then
      Scan(step(s, GedcomLine.TagOf(lines[0]).value, lines[0], lines[1..]), root, lines[1..], step)
    else Scan(s, root, lines[1..], step)
  }

  /** One line of the scan. */
  lemma ScanCons<S>(s: S, root: int, x: string, rest: seq<string>,
                    step: (S, string, string, seq<string>) -> S)
    ensures Scan(s, root, [x] + rest, step)
         == if EndsScope(root, x) then s
            else if Visited(root, x) then Scan(step(s, GedcomLine.TagOf(x).value, x, rest), root, rest, step)
            else Scan(s, root, rest, step)
  {
    assert ([x] + rest)[0] == x && ([x] + rest)[1..] == rest;
  }

  /** One line of the scan, at position `i` of `lines`. */
  lemma ScanAt<S>(s: S, root: int, lines: seq<string>, i: nat,
                  step: (S, string, string, seq<string>) -> S)
    requires i < |lines|
    ensures Scan(s, root, lines[i..], step)
         == if EndsScope(root, lines[i]) then s
            else if Visited(root, lines[i]) then Scan(step(s, GedcomLine.TagOf(lines[i]).value, lines[i], lines[i + 1..]), root, lines[i + 1..], step)
            else Scan(s, root, lines[i + 1..], step)
  {
    assert lines[i..][0] == lines[i] && lines[i..][1..] == lines[i + 1..];
  }

  /** Nothing after the first closing line matters. */
  lemma {:induction false} ScanEndsAt<S>(s: S, root: int, a: seq<string>, stop: string,
                                        b: seq<string>, step: (S, string, string, seq<string>) -> S)
    requires EndsScope(root, stop)
    requires forall t, tag, raw, rest1, rest2 :: step(t, tag, raw, rest1) == step(t, tag, raw, rest2)
    ensures Scan(s, root, a + [stop] + b, step) == Scan(s, root, a, step)
    decreases |a|
  {
    var lines := a + [stop] + b;
    if a == [] {
      assert lines[0] == stop;
    } else {
      assert lines[0] == a[0] && lines[1..] == a[1..] + [stop] + b;
      if EndsScope(root, a[0]) {
      } else if Visited(root, a[0]) {
        var tag := GedcomLine.TagOf(a[0]).value;
        assert step(s, tag, a[0], lines[1..]) == step(s, tag, a[0], a[1..]);
        ScanEndsAt(step(s, tag, a[0], a[1..]), root, a[1..], stop, b, step);
      } else {
        ScanEndsAt(s, root, a[1..], stop, b, step);
      }
    }
  }

  /** A step that does not look at the lines that follow gives the same state for any. */
  lemma SameStep<S>(t: S, tag: string, raw: string, rest1: seq<string>, rest2: seq<string>,
                    step: (S, string, string, seq<string>) -> S)
    requires forall t, tag, raw, rest1, rest2 :: step(t, tag, raw, rest1) == step(t, tag, raw, rest2)
    ensures step(t, tag, raw, rest1) == step(t, tag, raw, rest2)
  {
  }

  /** A line that is neither closing nor visited can be left out when the step does not
      look at the lines that follow. */
  lemma {:induction false} ScanSkips<S>(s: S, root: int, a: seq<string>, skip: string,
                                       b: seq<string>, step: (S, string, string, seq<string>) -> S)
    requires !EndsScope(root, skip) && !Visited(root, skip)
    requires forall t, tag, raw, rest1, rest2 :: step(t, tag, raw, rest1) == step(t, tag, raw, rest2)
    ensures Scan(s, root, a + [skip] + b, step) == Scan(s, root, a + b, step)
    decreases |a|
  {
    if a == [] {
      assert a + [skip] + b == [skip] + b && a + b == b;
      ScanCons(s, root, skip, b, step);
    } else {
      var x := a[0];
      var rest1 := a[1..] + [skip] + b;
      var rest2 := a[1..] + b;
      assert a + [skip] + b == [x] + rest1;
      assert a + b == [x] + rest2;
      ScanCons(s, root, x, rest1, step);
      ScanCons(s, root, x, rest2, step);
      if EndsScope(root, x) {
      } else if Visited(root, x) {
        var t := step(s, GedcomLine.TagOf(x).value, x, rest1);
        SameStep(s, GedcomLine.TagOf(x).value, x, rest1, rest2, step);
        ScanSkips(t, root, a[1..], skip, b, step);
      } else {
        ScanSkips(s, root, a[1..], skip, b, step);
      }
    }
  }

  /** Scanning lines that do not close the structure, then more lines, is scanning
      them all. */
  lemma {:induction false} ScanSplits<S>(s: S, root: int, a: seq<string>, b: seq<string>,
                                        step: (S, string, string, seq<string>) -> S)
    requires NoEnd(root, a)
    requires forall t, tag, raw, rest1, rest2 :: step(t, tag, raw, rest1) == step(t, tag, raw, rest2)
    ensures Scan(s, root, a + b, step) == Scan(Scan(s, root, a, step), root, b, step)
    decreases |a|
  {
    if a != [] {
      var lines := a + b;
      assert lines[0] == a[0] && lines[1..] == a[1..] + b;
      assert !EndsScope(root, a[0]);
      if Visited(root, a[0]) {
        var tag := GedcomLine.TagOf(a[0]).value;
        assert step(s, tag, a[0], lines[1..]) == step(s, tag, a[0], a[1..]);
        ScanSplits(step(s, tag, a[0], a[1..]), root, a[1..], b, step);
      } else {
        ScanSplits(s, root, a[1..], b, step);
      }
    } else {
      assert a + b == b;
    }
  }

  /** A single visited line is handed to the step. */
  lemma ScanOne<S>(s: S, root: int, raw: string, step: (S, string, string, seq<string>) -> S)
    requires Visited(root, raw)
    ensures Scan(s, root, [raw], step) == step(s, GedcomLine.TagOf(raw).value, raw, [])
  {
    assert [raw][1..] == [];
  }
}
