/** The DATE interpreter of gedcom/date.go: a date value of up to three space-separated
    pieces becomes year, month and day, each zero when its piece is missing or unreadable.
    The year is read from the FIRST piece and the day from the third, so the record
    format's own "day month year" order lands the day in the year field. */
module DateStructure {
  import opened Wrappers
  import Strings
  import StrConv
  import Util
  import GedcomLine
  import Document

  type Uint32 = Document.Uint32

  /** Go's `uint32(v)` conversion keeps the low 32 bits. */
  function ToUint32(v: int): (r: Uint32)
    ensures 0 <= v < 0x1_0000_0000 ==> r == v
    ensures (r - v) % 0x1_0000_0000 == 0
  {
    v % 0x1_0000_0000
  }

  /** gedcom/date.go's `Date`. */
  datatype Date = Date(year: Uint32, month: Uint32, day: Uint32)

  /** A piece read by `Atoi` and converted to `uint32`, or 0 when `Atoi` fails. */
  function NumberOrZero(piece: string): (r: Uint32)
    ensures StrConv.Atoi(piece).None? ==> r == 0
    ensures StrConv.Atoi(piece).Some? ==> r == ToUint32(StrConv.Atoi(piece).value)
  {
    match StrConv.Atoi(piece)
    case None => 0
    case Some(v) => ToUint32(v)
  }

  /** The month number of an abbreviation in any letter case, or 0 when it is none. */
  function MonthOrZero(piece: string): (r: Uint32)
    ensures 0 <= r <= 12
    ensures r != 0 <==> Strings.ToUpper(piece) in Util.MonthIntByAbbr
    ensures r != 0 ==> r in Util.MonthAbbrByInt && Util.MonthAbbrByInt[r] == Strings.ToUpper(piece)
  {
    var key := Strings.ToUpper(piece);
    if key in Util.MonthIntByAbbr then
      Util.MonthTableShape();
      Util.MonthTablesInverse();
      Util.MonthIntByAbbr[key]
    else 0
  }

  /** `interpretDateStructure`, applied to the line's value. It never fails. */
  function InterpretDateStructure(value: string): (d: Date)
    ensures 0 <= d.month <= 12
  {
    var parts := Strings.SplitN(value, ' ', 3);
    Date(
      NumberOrZero(parts[0]),
      if |parts| > 1 then MonthOrZero(parts[1]) else 0,
      if |parts| > 2 then NumberOrZero(parts[2]) else 0)
  }

  /** `toGedcomIndividualDate`. */
  function ToGedcomIndividualDate(date: Date): (r: Document.IndividualDate)
    ensures r.year == date.year && r.month == date.month && r.day == date.day
  {
    Document.IndividualDate(date.year, date.month, date.day)
  }

  // ------------------------------------------------------------ properties

  /** The year depends on the first piece alone: whatever follows the first space
      leaves it unchanged. */
  lemma YearIsFirstPiece(first: string, rest: string)
    requires ' ' !in first
    ensures InterpretDateStructure(first + " " + rest).year == NumberOrZero(first)
    ensures InterpretDateStructure(first).year == NumberOrZero(first)
  {
    Strings.SplitNAtFirst(first, ' ', rest, 3);
  }

  /** A value with no space has neither month nor day. */
  lemma OnePieceHasNoMonthOrDay(value: string)
    requires ' ' !in value
    ensures InterpretDateStructure(value) == Date(NumberOrZero(value), 0, 0)
  {
    Strings.SplitNWithoutSeparator(value, ' ', 3);
  }

  /** A value with one space has no day, and its month is read from the second piece. */
  lemma TwoPiecesHaveNoDay(first: string, second: string)
    requires ' ' !in first && ' ' !in second
    ensures InterpretDateStructure(first + " " + second)
      == Date(NumberOrZero(first), MonthOrZero(second), 0)
  {
    Strings.SplitNAtFirst(first, ' ', second, 3);
    Strings.SplitNWithoutSeparator(second, ' ', 2);
  }

  /** A three-piece value; the third piece is everything after the second space. */
  lemma ThreePieces(first: string, second: string, rest: string)
    requires ' ' !in first && ' ' !in second
    ensures InterpretDateStructure(first + " " + second + " " + rest)
      == Date(NumberOrZero(first), MonthOrZero(second), NumberOrZero(rest))
  {
    assert first + " " + second + " " + rest == first + [' '] + (second + [' '] + rest);
    Strings.SplitNAtFirst(first, ' ', second + " " + rest, 3);
    Strings.SplitNAtFirst(second, ' ', rest, 2);
  }

  /** An unknown month never disturbs the year or the day. */
  lemma MonthPieceOnlyAffectsMonth(first: string, second1: string, second2: string, rest: string)
    requires ' ' !in first && ' ' !in second1 && ' ' !in second2
    ensures var d1 := InterpretDateStructure(first + " " + second1 + " " + rest);
            var d2 := InterpretDateStructure(first + " " + second2 + " " + rest);
            d1.year == d2.year && d1.day == d2.day
  {
    ThreePieces(first, second1, rest);
    ThreePieces(first, second2, rest);
  }

  /** The abbreviations are upper-case already. */
  lemma AbbreviationsAreUpperCase(m: int)
    requires 1 <= m <= 12
    ensures m in Util.MonthAbbrByInt && Strings.ToUpper(Util.MonthAbbrByInt[m]) == Util.MonthAbbrByInt[m]
    ensures var abbr := Util.MonthAbbrByInt[m]; |abbr| == 3 && forall k :: 0 <= k < 3 ==> 'A' <= abbr[k] <= 'Z'
  {
    Util.MonthTableShape();
  }

  predicate IsLetter(c: char) { 'A' <= Strings.UpperChar(c) <= 'Z' }

  /** A piece that opens or ends with something other than a letter names no month. */
  lemma NoMonthWithoutLetters(piece: string)
    requires |piece| > 0 && (!IsLetter(piece[0]) || !IsLetter(piece[|piece| - 1]))
    ensures MonthOrZero(piece) == 0
  {
    var key := Strings.ToUpper(piece);
    assert !('A' <= key[0] <= 'Z') || !('A' <= key[|key| - 1] <= 'Z');
    if key in Util.MonthIntByAbbr {
      Util.MonthTablesInverse();
      var m := Util.MonthIntByAbbr[key];
      Util.MonthTableShape();
      AbbreviationsAreUpperCase(m);
      assert false;
    }
  }

  /** "D MON Y" written with `%d` is read as year D, month MON, day Y: the year and the
      day trade places, since the year comes from the first piece. */
  lemma DayMonthYearIsReadLeftAnchored(day: Uint32, m: int, year: Uint32)
    requires 1 <= m <= 12
    ensures InterpretDateStructure(
        StrConv.FormatNat(day) + " " + Util.MonthAbbrByInt[m] + " " + StrConv.FormatNat(year))
      == Date(day, m, year)
  {
    AbbreviationsAreUpperCase(m);
    Util.MonthTableShape();
    Util.MonthTablesInverse();
    ThreePieces(StrConv.FormatNat(day), Util.MonthAbbrByInt[m], StrConv.FormatNat(year));
    StrConv.AtoiOfFormatNat(day);
    StrConv.AtoiOfFormatNat(year);
  }

  /** "MON Y" yields no year at all: the abbreviation is not a number and the year
      digits are not an abbreviation. */
  lemma MonthYearIsLost(m: int, year: Uint32)
    requires 1 <= m <= 12
    ensures InterpretDateStructure(Util.MonthAbbrByInt[m] + " " + StrConv.FormatNat(year))
      == Date(0, 0, 0)
  {
    AbbreviationsAreUpperCase(m);
    var abbr := Util.MonthAbbrByInt[m];
    var digits := StrConv.FormatNat(year);
    TwoPiecesHaveNoDay(abbr, digits);
    assert !StrConv.IsDigit(abbr[2]);
    assert StrConv.IsDigit(digits[0]);
    NoMonthWithoutLetters(digits);
  }

  /** "Y" alone is the only form whose year is read as written. */
  lemma YearOnlyIsRead(year: Uint32)
    ensures InterpretDateStructure(StrConv.FormatNat(year)) == Date(year, 0, 0)
  {
    OnePieceHasNoMonthOrDay(StrConv.FormatNat(year));
    StrConv.AtoiOfFormatNat(year);
  }

  /** A value wrapped in double quotes has year 0 and day 0, and a month only when it
      has three pieces. */
  lemma DateOfQuotedValue(v: string)
    requires |v| >= 2 && v[0] == '"' && v[|v| - 1] == '"'
    ensures var d := InterpretDateStructure(v);
            d.year == 0 && d.day == 0 && (d.month != 0 ==> |Strings.SplitN(v, ' ', 3)| == 3)
  {
    var parts := Strings.SplitN(v, ' ', 3);
    Strings.SplitNFirstPiece(v, ' ', 3);
    Strings.SplitNLastPiece(v, ' ', 3);
    var last := parts[|parts| - 1];
    assert last == Strings.Last(parts);
    assert StrConv.Atoi(parts[0]).None?;
    assert |parts| > 2 ==> StrConv.Atoi(parts[2]).None?;
    if |parts| == 2 {
      NoMonthWithoutLetters(last);
    }
  }

  /** Applied to a line's value as the accessor hands it out, the year and the day are
      always 0, and a month is found only when the value has three pieces. */
  lemma DateOfLineValue(raw: string)
    ensures var d := InterpretDateStructure(GedcomLine.ValueOf(raw));
            d.year == 0 && d.day == 0
            && (d.month != 0 ==> |Strings.SplitN(GedcomLine.ValueOf(raw), ' ', 3)| == 3)
  {
    DateOfQuotedValue(GedcomLine.ValueOf(raw));
  }
}
