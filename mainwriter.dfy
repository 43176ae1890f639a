/** main.go `writableGedcom`: the third line-notation writer, which builds the output
    as one string. It writes every name with both parts and no _PRIM line, no events,
    and a SEX line for every individual, with an empty letter for a gender other than
    MALE or FEMALE. The families are written as by gedcom/build.go. */
module MainWriter {
  import Util
  import Document
  import Gedcom
  import Build

  type Individual = Gedcom.Individual
  type Family = Gedcom.Family

  // ------------------------------------------------------------ the lines written

  /** The pieces joined in order, as `+=` leaves them in the string. */
  function Concat(pieces: seq<string>): (r: string)
    ensures pieces == [] ==> r == ""
    decreases |pieces|
  {
    if pieces == [] then ""
    else Concat(pieces[..|pieces| - 1]) + pieces[|pieces| - 1]
  }

  /** The letter of the local gender map, Go's zero value "" where it has none. */
  function GenderLetter(gender: string): (r: string)
    ensures r == "M" <==> gender == "MALE"
    ensures r == "F" <==> gender == "FEMALE"
    ensures r == "" <==> gender != "MALE" && gender != "FEMALE"
  {
    if gender in Util.GenderLetterByFull then Util.GenderLetterByFull[gender] else ""
  }

  /** The NAME line as gedcom/build.go writes it. */
  function NameLine(n: Document.IndividualName): string
  {
    Build.NameText(n) + "\n"
  }

  function IndiLine(id: string): string
  {
    "0 " + id + " INDI\n"
  }

  function SexLine(gender: string): string
  {
    "1 SEX " + GenderLetter(gender) + "\n"
  }

  /** One NAME line per name, in order. */
  function NameLines(names: seq<Document.IndividualName>): (r: seq<string>)
    ensures |r| == |names|
    ensures forall k :: 0 <= k < |r| ==> r[k] == NameLine(names[k])
    decreases |names|
  {
    if names == [] then []
    else NameLines(names[..|names| - 1]) + [NameLine(names[|names| - 1])]
  }

  function IndividualLines(ind: Individual): seq<string>
  {
    [IndiLine(ind.id)] + NameLines(ind.names) + [SexLine(ind.gender)]
  }

  function IndividualsLines(inds: seq<Individual>): seq<string>
    decreases |inds|
  {
    if inds == [] then []
    else IndividualsLines(inds[..|inds| - 1]) + IndividualLines(inds[|inds| - 1])
  }

  const HeadLine: string := "0 HEAD\n"
  const TrailerLine: string := "0 TRLR\n"

  /** The whole output, line by line. */
  function GedcomLines(inds: seq<Individual>, fams: seq<Family>): seq<string>
  {
    [HeadLine] + IndividualsLines(inds) + Build.FamiliesLines(fams) + [TrailerLine]
  }

  // ------------------------------------------------------------ the writer

  /** `writableGedcom`, up to the conversion of the string to bytes. */
  method WritableGedcom(inds: seq<Individual>, fams: seq<Family>) returns (gedcomString: string)
    ensures gedcomString == Concat(GedcomLines(inds, fams))
  {
    gedcomString := "";
    ghost var pieces: seq<string> := [];
    var header := HeadLine;
    gedcomString, pieces := Append(gedcomString, pieces, header);
    for k := 0 to |inds|
      invariant gedcomString == Concat(pieces)
      invariant pieces == [HeadLine] + IndividualsLines(inds[..k])
    {
      gedcomString, pieces := WriteIndividual(gedcomString, pieces, inds[k]);
      IndividualsSnoc(inds, k);
    }
    assert inds[..|inds|] == inds;
    assert fams[..0] == [];
    assert pieces == [HeadLine] + IndividualsLines(inds) + Build.FamiliesLines(fams[..0]);
    for k := 0 to |fams|
      invariant gedcomString == Concat(pieces)
      invariant pieces == [HeadLine] + IndividualsLines(inds) + Build.FamiliesLines(fams[..k])
    {
      gedcomString, pieces := WriteFamily(gedcomString, pieces, fams[k]);
      FamiliesSnoc([HeadLine] + IndividualsLines(inds), fams, k);
    }
    assert fams[..|fams|] == fams;
    var trailer := TrailerLine;
    gedcomString, pieces := Append(gedcomString, pieces, trailer);
  }

  /** `gedcomString += line`; the ghost pieces record what the string is made of. */
  method Append(s: string, ghost pieces: seq<string>, line: string) returns (r: string, ghost pieces': seq<string>)
    requires s == Concat(pieces)
    ensures pieces' == pieces + [line]
    ensures r == Concat(pieces')
  {
    r := s + line;
    pieces' := pieces + [line];
    assert pieces'[..|pieces|] == pieces;
  }

  /** One individual appended to the string: its INDI line, its NAME lines and its SEX
      line, whose letter is looked up in a local map. */
  method WriteIndividual(s: string, ghost pieces: seq<string>, i: Individual) returns (r: string, ghost pieces': seq<string>)
    requires s == Concat(pieces)
    ensures pieces' == pieces + IndividualLines(i)
    ensures r == Concat(pieces')
  {
    var firstLine := IndiLine(i.id);
    r, pieces' := Append(s, pieces, firstLine);
    r, pieces' := WriteNames(r, pieces', i.names);
    var genderLine := SexLine(i.gender);
    r, pieces' := Append(r, pieces', genderLine);
    AppendAssociates(pieces, [firstLine], NameLines(i.names));
    AppendAssociates(pieces, [firstLine] + NameLines(i.names), [genderLine]);
  }

  /** The NAME lines of one individual appended to the string. */
  method WriteNames(s: string, ghost pieces: seq<string>, names: seq<Document.IndividualName>)
    returns (r: string, ghost pieces': seq<string>)
    requires s == Concat(pieces)
    ensures pieces' == pieces + NameLines(names)
    ensures r == Concat(pieces')
  {
    r, pieces' := s, pieces;
    assert names[..0] == [];
    for j := 0 to |names|
      invariant r == Concat(pieces')
      invariant pieces' == pieces + NameLines(names[..j])
    {
      var nameLine := NameLine(names[j]);
      r, pieces' := Append(r, pieces', nameLine);
      assert names[..j + 1][..j] == names[..j];
    }
    assert names[..|names|] == names;
  }

  /** One family appended to the string: its FAM line, HUSB and WIFE when set, and a
      CHIL line per child. */
  method WriteFamily(s: string, ghost pieces: seq<string>, f: Family) returns (r: string, ghost pieces': seq<string>)
    requires s == Concat(pieces)
    ensures pieces' == pieces + Build.FamilyLines(f)
    ensures r == Concat(pieces')
  {
    r, pieces' := WriteParents(s, pieces, f);
    r, pieces' := WriteChildren(r, pieces', f.childIds);
    FamilyLinesSplit(f);
    AppendAssociates(pieces, ParentLines(f), Build.ChildLines(f.childIds));
  }

  method WriteParents(s: string, ghost pieces: seq<string>, f: Family) returns (r: string, ghost pieces': seq<string>)
    requires s == Concat(pieces)
    ensures pieces' == pieces + ParentLines(f)
    ensures r == Concat(pieces')
  {
    r, pieces' := Append(s, pieces, "0 " + f.id + " FAM\n");
    if f.fatherId != "" {
      r, pieces' := Append(r, pieces', "1 HUSB " + f.fatherId + "\n");
    }
    if f.motherId != "" {
      r, pieces' := Append(r, pieces', "1 WIFE " + f.motherId + "\n");
    }
  }

  /** The CHIL lines of one family appended to the string, one per child in order. */
  method WriteChildren(s: string, ghost pieces: seq<string>, childIds: seq<string>) returns (r: string, ghost pieces': seq<string>)
    requires s == Concat(pieces)
    ensures pieces' == pieces + Build.ChildLines(childIds)
    ensures r == Concat(pieces')
  {
    r, pieces' := s, pieces;
    assert childIds[..0] == [];
    for j := 0 to |childIds|
      invariant r == Concat(pieces')
      invariant pieces' == pieces + Build.ChildLines(childIds[..j])
    {
      var childLine := "1 CHIL " + childIds[j] + "\n";
      r, pieces' := Append(r, pieces', childLine);
      assert childIds[..j + 1][..j] == childIds[..j];
    }
    assert childIds[..|childIds|] == childIds;
  }

  /** A family's FAM line, then HUSB and WIFE where they are set. */
  function ParentLines(f: Family): seq<string>
  {
    ["0 " + f.id + " FAM\n"]
    + (if f.fatherId != "" then ["1 HUSB " + f.fatherId + "\n"] else [])
    + (if f.motherId != "" then ["1 WIFE " + f.motherId + "\n"] else [])
  }

  /** A family's lines: the parents' part, then the children. */
  lemma FamilyLinesSplit(f: Family)
    ensures Build.FamilyLines(f) == ParentLines(f) + Build.ChildLines(f.childIds)
  {
  }

  lemma AppendAssociates(a: seq<string>, b: seq<string>, c: seq<string>)
    ensures a + b + c == a + (b + c)
  {
  }

  /** One more individual's lines after the ones before it. */
  lemma IndividualsSnoc(inds: seq<Individual>, k: nat)
    requires k < |inds|
    ensures [HeadLine] + IndividualsLines(inds[..k + 1]) == [HeadLine] + IndividualsLines(inds[..k]) + IndividualLines(inds[k])
  {
    assert inds[..k + 1][..k] == inds[..k];
  }

  lemma FamiliesSnoc(head: seq<string>, fams: seq<Family>, k: nat)
    requires k < |fams|
    ensures head + Build.FamiliesLines(fams[..k + 1]) == head + Build.FamiliesLines(fams[..k]) + Build.FamilyLines(fams[k])
  {
    assert fams[..k + 1][..k] == fams[..k];
  }

  // ------------------------------------------------------------ properties

  /** Joining two runs of pieces joins their strings. */
  lemma {:induction false} ConcatAppend(a: seq<string>, b: seq<string>)
    ensures Concat(a + b) == Concat(a) + Concat(b)
    decreases |b|
  {
    if b == [] {
      assert a + b == a;
    } else {
      var n := |b| - 1;
      ConcatAppend(a, b[..n]);
      assert (a + b)[..|a + b| - 1] == a + b[..n];
    }
  }

  /** The string opens with the HEAD line and closes with the TRLR line. */
  lemma TextFrame(inds: seq<Individual>, fams: seq<Family>)
    ensures var text := Concat(GedcomLines(inds, fams));
            && |text| >= 14
            && text[..7] == "0 HEAD\n"
            && text[|text| - 7..] == "0 TRLR\n"
  {
    var body := IndividualsLines(inds) + Build.FamiliesLines(fams);
    assert GedcomLines(inds, fams) == [HeadLine] + body + [TrailerLine];
    ConcatAppend([HeadLine] + body, [TrailerLine]);
    ConcatAppend([HeadLine], body);
    assert Concat([HeadLine]) == HeadLine;
    assert Concat([TrailerLine]) == TrailerLine;
  }

  /** Lines starting with a given text. */
  function CountPrefixed(lines: seq<string>, prefix: string): (n: nat)
    ensures n <= |lines|
    decreases |lines|
  {
    if lines == [] then 0
    else CountPrefixed(lines[..|lines| - 1], prefix) + (if HasPrefix(lines[|lines| - 1], prefix) then 1 else 0)
  }

  predicate HasPrefix(line: string, prefix: string)
  {
    |prefix| <= |line| && line[..|prefix|] == prefix
  }

  lemma {:induction false} CountPrefixedAppend(a: seq<string>, b: seq<string>, prefix: string)
    ensures CountPrefixed(a + b, prefix) == CountPrefixed(a, prefix) + CountPrefixed(b, prefix)
    decreases |b|
  {
    if b == [] {
      assert a + b == a;
    } else {
      var n := |b| - 1;
      CountPrefixedAppend(a, b[..n], prefix);
      assert (a + b)[..|a + b| - 1] == a + b[..n];
    }
  }

  /** A run with no line starting with the prefix counts none. */
  lemma {:induction false} NoneCounted(lines: seq<string>, prefix: string)
    requires forall k :: 0 <= k < |lines| ==> !HasPrefix(lines[k], prefix)
    ensures CountPrefixed(lines, prefix) == 0
    decreases |lines|
  {
    if lines != [] {
      NoneCounted(lines[..|lines| - 1], prefix);
    }
  }

  /** Every line is at level 0 or 1: in particular no _PRIM, DATE or PLAC line, which
      are at level 2, is ever written. */
  predicate AtLevelZeroOrOne(lines: seq<string>)
  {
    forall k :: 0 <= k < |lines| ==> HasPrefix(lines[k], "0 ") || HasPrefix(lines[k], "1 ")
  }

  lemma {:induction false} IndividualsAtLevelZeroOrOne(inds: seq<Individual>)
    ensures AtLevelZeroOrOne(IndividualsLines(inds))
    decreases |inds|
  {
    if inds != [] {
      IndividualsAtLevelZeroOrOne(inds[..|inds| - 1]);
      var ind := inds[|inds| - 1];
      var names := NameLines(ind.names);
      forall k | 0 <= k < |names| ensures HasPrefix(names[k], "1 ") {
        assert names[k] == Build.NameText(ind.names[k]) + "\n";
      }
      assert HasPrefix(IndiLine(ind.id), "0 ");
      assert HasPrefix(SexLine(ind.gender), "1 ");
    }
  }

  lemma {:induction false} FamiliesAtLevelZeroOrOne(fams: seq<Family>)
    ensures AtLevelZeroOrOne(Build.FamiliesLines(fams))
    decreases |fams|
  {
    if fams != [] {
      FamiliesAtLevelZeroOrOne(fams[..|fams| - 1]);
      var lines := Build.FamilyLines(fams[|fams| - 1]);
      forall k | 0 <= k < |lines| ensures HasPrefix(lines[k], "0 ") || HasPrefix(lines[k], "1 ") {
        FamilyLineShape(fams[|fams| - 1], k);
      }
    }
  }

  /** A family's first line is its FAM line; every later one is a HUSB, WIFE or CHIL
      line at level 1. */
  lemma FamilyLineShape(f: Family, k: nat)
    requires k < |Build.FamilyLines(f)|
    ensures var l := Build.FamilyLines(f)[k];
            && |l| >= 3
            && (k == 0 ==> HasPrefix(l, "0 "))
            && (k > 0 ==> HasPrefix(l, "1 ") && l[2] in {'H', 'W', 'C'})
  {
    var head := ["0 " + f.id + " FAM\n"];
    var husb := if f.fatherId != "" then ["1 HUSB " + f.fatherId + "\n"] else [];
    var wife := if f.motherId != "" then ["1 WIFE " + f.motherId + "\n"] else [];
    var children := Build.ChildLines(f.childIds);
    assert Build.FamilyLines(f) == head + husb + wife + children;
    if k == 0 {
    } else if k - 1 < |husb| {
    } else if k - 1 - |husb| < |wife| {
    } else {
      var j := k - 1 - |husb| - |wife|;
      assert Build.FamilyLines(f)[k] == children[j] == "1 CHIL " + f.childIds[j] + "\n";
    }
  }

  /** The output holds only level-0 and level-1 lines. */
  lemma OnlyLevelsZeroAndOne(inds: seq<Individual>, fams: seq<Family>)
    ensures AtLevelZeroOrOne(GedcomLines(inds, fams))
  {
    IndividualsAtLevelZeroOrOne(inds);
    FamiliesAtLevelZeroOrOne(fams);
    assert HasPrefix(HeadLine, "0 ") && HasPrefix(TrailerLine, "0 ");
  }

  const SexTag: string := "1 SEX "
  const NameTag: string := "1 NAME "

  lemma {:induction false} NameLinesCounted(names: seq<Document.IndividualName>)
    ensures CountPrefixed(NameLines(names), NameTag) == |names|
    ensures CountPrefixed(NameLines(names), SexTag) == 0
    decreases |names|
  {
    if names != [] {
      var n := |names| - 1;
      var l := NameLine(names[n]);
      NameLinesCounted(names[..n]);
      assert NameLines(names)[..n] == NameLines(names[..n]);
      assert HasPrefix(l, NameTag);
      assert !HasPrefix(l, SexTag) by { assert l[2] != SexTag[2]; }
    }
  }

  /** One INDI, one NAME per name and exactly one SEX line per individual. */
  lemma IndividualCounted(ind: Individual)
    ensures CountPrefixed(IndividualLines(ind), SexTag) == 1
    ensures CountPrefixed(IndividualLines(ind), NameTag) == |ind.names|
  {
    var indi := [IndiLine(ind.id)];
    var names := NameLines(ind.names);
    var sex := [SexLine(ind.gender)];
    NameLinesCounted(ind.names);
    assert IndividualLines(ind) == indi + names + sex;
    BookEnds(indi, names, sex, SexTag);
    BookEnds(indi, names, sex, NameTag);
    assert !HasPrefix(indi[0], SexTag) by { assert indi[0][0] != SexTag[0]; }
    assert !HasPrefix(indi[0], NameTag) by { assert indi[0][0] != NameTag[0]; }
    SexLineTagged(ind.gender);
  }

  /** A SEX line is counted as one and is no NAME line. */
  lemma SexLineTagged(gender: string)
    ensures HasPrefix(SexLine(gender), SexTag)
    ensures !HasPrefix(SexLine(gender), NameTag)
  {
    var l := SexLine(gender);
    assert l[..|SexTag|] == SexTag;
    assert l[2] != NameTag[2];
  }

  /** The count over one line, a run and one more line. */
  lemma BookEnds(first: seq<string>, middle: seq<string>, last: seq<string>, prefix: string)
    requires |first| == 1 && |last| == 1
    ensures CountPrefixed(first + middle + last, prefix)
         == (if HasPrefix(first[0], prefix) then 1 else 0) + CountPrefixed(middle, prefix)
          + (if HasPrefix(last[0], prefix) then 1 else 0)
  {
    CountPrefixedAppend(first + middle, last, prefix);
    CountPrefixedAppend(first, middle, prefix);
    assert first[..0] == [] && last[..0] == [];
  }

  /** The number of names, summed over the individuals. */
  function NameCount(inds: seq<Individual>): nat
    decreases |inds|
  {
    if inds == [] then 0 else NameCount(inds[..|inds| - 1]) + |inds[|inds| - 1].names|
  }

  lemma {:induction false} IndividualsCounted(inds: seq<Individual>)
    ensures CountPrefixed(IndividualsLines(inds), SexTag) == |inds|
    ensures CountPrefixed(IndividualsLines(inds), NameTag) == NameCount(inds)
    decreases |inds|
  {
    if inds != [] {
      var n := |inds| - 1;
      IndividualsCounted(inds[..n]);
      IndividualCounted(inds[n]);
      CountPrefixedAppend(IndividualsLines(inds[..n]), IndividualLines(inds[n]), SexTag);
      CountPrefixedAppend(IndividualsLines(inds[..n]), IndividualLines(inds[n]), NameTag);
    }
  }

  /** No family line is a SEX or a NAME line. */
  lemma {:induction false} FamiliesUncounted(fams: seq<Family>, prefix: string)
    requires prefix == SexTag || prefix == NameTag
    ensures CountPrefixed(Build.FamiliesLines(fams), prefix) == 0
    decreases |fams|
  {
    if fams != [] {
      var n := |fams| - 1;
      FamiliesUncounted(fams[..n], prefix);
      var lines := Build.FamilyLines(fams[n]);
      forall k | 0 <= k < |lines| ensures !HasPrefix(lines[k], prefix) {
        FamilyLineShape(fams[n], k);
        if k == 0 {
          assert lines[k][0] != prefix[0];
        } else {
          assert lines[k][2] != prefix[2];
        }
      }
      NoneCounted(lines, prefix);
      CountPrefixedAppend(Build.FamiliesLines(fams[..n]), lines, prefix);
    }
  }

  /** Counting a level-1 tag over the whole output counts it over the individuals and
      the families: HEAD and TRLR are at level 0. */
  lemma CountedInside(inds: seq<Individual>, fams: seq<Family>, prefix: string)
    requires prefix == SexTag || prefix == NameTag
    ensures CountPrefixed(GedcomLines(inds, fams), prefix)
         == CountPrefixed(IndividualsLines(inds), prefix) + CountPrefixed(Build.FamiliesLines(fams), prefix)
  {
    var inner := IndividualsLines(inds) + Build.FamiliesLines(fams);
    assert GedcomLines(inds, fams) == [HeadLine] + inner + [TrailerLine];
    BookEnds([HeadLine], inner, [TrailerLine], prefix);
    CountPrefixedAppend(IndividualsLines(inds), Build.FamiliesLines(fams), prefix);
    assert !HasPrefix(HeadLine, prefix) by { assert HeadLine[0] != prefix[0]; }
    assert !HasPrefix(TrailerLine, prefix) by { assert TrailerLine[0] != prefix[0]; }
  }

  /** The output has exactly one SEX line per individual, whatever the gender, and one
      NAME line per name. */
  lemma LinesCounted(inds: seq<Individual>, fams: seq<Family>)
    ensures CountPrefixed(GedcomLines(inds, fams), SexTag) == |inds|
    ensures CountPrefixed(GedcomLines(inds, fams), NameTag) == NameCount(inds)
  {
    IndividualsCounted(inds);
    FamiliesUncounted(fams, SexTag);
    FamiliesUncounted(fams, NameTag);
    CountedInside(inds, fams, SexTag);
    CountedInside(inds, fams, NameTag);
  }

  /** For a gender other than MALE or FEMALE the SEX line carries no letter. */
  lemma UnknownGenderBlankSex(ind: Individual)
    requires ind.gender != "MALE" && ind.gender != "FEMALE"
    ensures IndividualLines(ind)[|IndividualLines(ind)| - 1] == "1 SEX \n"
  {
  }

  /** An individual without names or events and with a known gender is written as
      gedcom/build.go writes it; the families are always written as there. */
  lemma AgreesWithBuildOnBareIndividual(ind: Individual)
    requires ind.names == [] && ind.birthEvents == [] && ind.deathEvents == []
    requires ind.gender == "MALE" || ind.gender == "FEMALE"
    ensures Build.IndividualDated(ind)
    ensures IndividualLines(ind) == Build.IndividualLines(ind)
  {
    assert Build.NamesLines(ind.names) == [];
    assert Build.EventsLines(ind.birthEvents, "BIRT") == [];
    assert Build.EventsLines(ind.deathEvents, "DEAT") == [];
  }
}
