/** The line tokenizer of gedcom/line.go: one line of the record format split into
    level, optional cross-reference id, tag and value. The pure functions below say
    what each accessor computes; the class `Line` is the memoising object of the
    source, whose accessors are proved to return exactly these functions. */
module GedcomLine {
  import opened Wrappers
  import Strings
  import StrConv
  import Seqs

  type Uint8 = v: int | 0 <= v < 256

  /** Go's `uint8(v)` conversion keeps the low eight bits. */
  function ToUint8(v: int): (r: Uint8)
    ensures 0 <= v < 256 ==> r == v
    ensures (r - v) % 256 == 0
  {
    v % 256
  }

  /** A token that opens with '@' is a cross-reference id. An empty token does not
      (the source indexes its first byte unguarded: see `SecondPartIndexPanicsOnBlankToken`). */
  predicate StartsWithAt(part: string)
  {
    |part| > 0 && part[0] == '@'
  }

  /** The level: the text before the first space, read by `Atoi` and cut to eight
      bits; absent when that text is not an integer. */
  function LevelOf(raw: string): (r: Option<Uint8>)
    ensures r.Some? ==> |raw| > 0 && (raw[0] == '+' || raw[0] == '-' || StrConv.IsDigit(raw[0]))
  {
    var parts := Strings.SplitN(raw, ' ', 2);
    assert |parts[0]| > 0 ==> raw[0] == parts[0][0] by {
      Strings.SplitNJoin(raw, ' ', 2);
      if |parts| == 2 { assert raw == parts[0] + " " + parts[1]; }
    }
    match StrConv.Atoi(parts[0])
    case None => None
    case Some(v) => Some(ToUint8(v))
  }

  /** The cross-reference id: the second token, when it starts with '@'. */
  function XRefIdOf(raw: string): (r: Option<string>)
    ensures r.Some? ==> StartsWithAt(r.value) && ' ' !in r.value
  {
    var parts := Strings.SplitN(raw, ' ', 3);
    if |parts| >= 2 && StartsWithAt(parts[1]) then Some(parts[1]) else None
  }

  /** The tag: the second token, or the third when the second is a cross-reference id. */
  function TagOf(raw: string): (r: Option<string>)
    ensures r.Some? ==> ' ' !in r.value
    ensures r.Some? && XRefIdOf(raw).None? ==> !StartsWithAt(r.value)
  {
    var parts := Strings.SplitN(raw, ' ', 4);
    var parts3 := Strings.SplitN(raw, ' ', 3);
    assert |parts| >= 2 ==> |parts3| >= 2 && parts3[1] == parts[1] by {
      if |parts| >= 2 {
        var i := Strings.IndexOf(raw, ' ').value;
        assert parts3[1] == Strings.SplitN(raw[i + 1..], ' ', 2)[0];
      }
    }
    if |parts| >= 3 && StartsWithAt(parts[1]) then Some(parts[2])
    else if |parts| >= 2 && !StartsWithAt(parts[1]) then Some(parts[1])
    else None
  }

  /** The text after the tag before escaping, or "" when nothing follows the tag. */
  function RawValueOf(raw: string): string
  {
    var parts := Strings.SplitN(raw, ' ', 4);
    if |parts| == 3 && !StartsWithAt(parts[1]) then parts[2]
    else if |parts| == 4 then
      if StartsWithAt(parts[1]) then parts[3] else parts[2] + " " + parts[3]
    else ""
  }

  /** The value as every accessor hands it out: `QuoteToASCII` of the raw value, so
      it is never absent, is pure ASCII and is wrapped in double quotes. */
  function ValueOf(raw: string): (r: string)
    ensures |r| >= 2 && r[0] == '"' && r[|r| - 1] == '"' && Strings.IsAscii(r)
  {
    StrConv.QuoteToASCII(RawValueOf(raw))
  }

  /** Unquoting the value gives back the text after the tag exactly. */
  lemma ValueOfUnquotes(raw: string)
    ensures StrConv.Unquote(ValueOf(raw)) == Some(RawValueOf(raw))
  {
    StrConv.UnquoteOfQuoteToASCII(RawValueOf(raw));
  }

  // ------------------------------------------------------------ composing a line

  /** A line in the record format, `<level> [<xref>] <tag> [<value>]`. */
  function Compose(level: nat, xref: Option<string>, tag: string, value: Option<string>): string
  {
    StrConv.FormatNat(level) + (if xref.Some? then " " + xref.value else "") + " " + tag
    + (if value.Some? then " " + value.value else "")
  }

  /** The parts of a line the tokenizer can tell apart: no space inside the xref id or
      the tag, an xref id that opens with '@' and a tag that does not. */
  predicate Tokenizable(xref: Option<string>, tag: string)
  {
    (xref.Some? ==> StartsWithAt(xref.value) && ' ' !in xref.value) && ' ' !in tag && !StartsWithAt(tag)
  }

  lemma LevelOfComposed(level: nat, rest: string)
    requires level <= StrConv.MaxInt64
    ensures LevelOf(StrConv.FormatNat(level) + " " + rest) == Some(ToUint8(level))
  {
    var f := StrConv.FormatNat(level);
    assert ' ' !in f by {
      forall k | 0 <= k < |f| ensures f[k] != ' ' { assert StrConv.IsDigit(f[k]); }
    }
    Strings.SplitNAtFirst(f, ' ', rest, 2);
    StrConv.AtoiOfFormatNat(level);
  }

  /** The spaceless digits of a level number. */
  lemma LevelDigitsHaveNoSpace(level: nat)
    ensures ' ' !in StrConv.FormatNat(level)
  {
    var f := StrConv.FormatNat(level);
    forall k | 0 <= k < |f| ensures f[k] != ' ' { assert StrConv.IsDigit(f[k]); }
  }

  /** The value after the tag splits into at most two pieces that rejoin with one space. */
  lemma ValuePieces(v: string)
    ensures var p := Strings.SplitN(v, ' ', 2);
      (|p| == 1 && p[0] == v) || (|p| == 2 && p[0] + " " + p[1] == v)
  {
  }

  lemma SplitXRefLine3(f: string, x: string, rest: string)
    requires ' ' !in f && ' ' !in x
    ensures Strings.SplitN(f + " " + (x + " " + rest), ' ', 3) == [f, x, rest]
  {
    Strings.SplitNAtFirst(f, ' ', x + " " + rest, 3);
    Strings.SplitNAtFirst(x, ' ', rest, 2);
  }

  lemma SplitXRefLineWithValue(f: string, x: string, tag: string, v: string)
    requires ' ' !in f && ' ' !in x && ' ' !in tag
    ensures Strings.SplitN(f + " " + (x + " " + (tag + " " + v)), ' ', 4) == [f, x, tag, v]
  {
    Strings.SplitNAtFirst(tag, ' ', v, 2);
    Strings.SplitNAtFirst(x, ' ', tag + " " + v, 3);
    Strings.SplitNAtFirst(f, ' ', x + " " + (tag + " " + v), 4);
  }

  lemma SplitXRefLineWithoutValue(f: string, x: string, tag: string)
    requires ' ' !in f && ' ' !in x && ' ' !in tag
    ensures Strings.SplitN(f + " " + (x + " " + tag), ' ', 4) == [f, x, tag]
  {
    Strings.SplitNWithoutSeparator(tag, ' ', 2);
    Strings.SplitNAtFirst(x, ' ', tag, 3);
    Strings.SplitNAtFirst(f, ' ', x + " " + tag, 4);
  }

  lemma SplitPlainLineWithValue(f: string, tag: string, v: string)
    requires ' ' !in f && ' ' !in tag
    ensures Strings.SplitN(f + " " + (tag + " " + v), ' ', 3) == [f, tag, v]
    ensures Strings.SplitN(f + " " + (tag + " " + v), ' ', 4) == [f, tag] + Strings.SplitN(v, ' ', 2)
  {
    var rest := tag + " " + v;
    assert f + " " + rest == f + [' '] + rest;
    assert rest == tag + [' '] + v;
    SplitTwoFields(f, tag, v, 3);
    assert Strings.SplitN(v, ' ', 1) == [v];
    SplitTwoFields(f, tag, v, 4);
  }

  /** Two fields without a space, each followed by one: both split off before the rest. */
  lemma SplitTwoFields(f: string, tag: string, v: string, n: nat)
    requires ' ' !in f && ' ' !in tag && n >= 3
    ensures Strings.SplitN(f + [' '] + (tag + [' '] + v), ' ', n) == [f, tag] + Strings.SplitN(v, ' ', n - 2)
  {
    Strings.SplitNAtFirst(f, ' ', tag + [' '] + v, n);
    SecondFieldOff(tag, v, n);
    Seqs.ConsPair(f, tag, Strings.SplitN(v, ' ', n - 2));
  }

  /** The second field, split off what remains after the first. */
  lemma SecondFieldOff(tag: string, v: string, n: nat)
    requires ' ' !in tag && n >= 3
    ensures Strings.SplitN(tag + [' '] + v, ' ', n - 1) == [tag] + Strings.SplitN(v, ' ', n - 2)
  {
    Strings.SplitNAtFirst(tag, ' ', v, n - 1);
  }

  lemma SplitPlainLineWithoutValue(f: string, tag: string)
    requires ' ' !in f && ' ' !in tag
    ensures Strings.SplitN(f + " " + tag, ' ', 3) == [f, tag]
    ensures Strings.SplitN(f + " " + tag, ' ', 4) == [f, tag]
  {
    Strings.SplitNWithoutSeparator(tag, ' ', 2);
    Strings.SplitNWithoutSeparator(tag, ' ', 3);
    Strings.SplitNAtFirst(f, ' ', tag, 3);
    Strings.SplitNAtFirst(f, ' ', tag, 4);
  }

  lemma FieldsWithXRefAndValue(f: string, x: string, tag: string, v: string)
    requires ' ' !in f && ' ' !in x && ' ' !in tag && StartsWithAt(x)
    ensures var line := f + " " + (x + " " + (tag + " " + v));
      XRefIdOf(line) == Some(x) && TagOf(line) == Some(tag) && RawValueOf(line) == v
  {
    SplitXRefLine3(f, x, tag + " " + v);
    SplitXRefLineWithValue(f, x, tag, v);
  }

  lemma FieldsWithXRef(f: string, x: string, tag: string)
    requires ' ' !in f && ' ' !in x && ' ' !in tag && StartsWithAt(x)
    ensures var line := f + " " + (x + " " + tag);
      XRefIdOf(line) == Some(x) && TagOf(line) == Some(tag) && RawValueOf(line) == ""
  {
    SplitXRefLine3(f, x, tag);
    SplitXRefLineWithoutValue(f, x, tag);
  }

  lemma FieldsWithValue(f: string, tag: string, v: string)
    requires ' ' !in f && ' ' !in tag && !StartsWithAt(tag)
    ensures var line := f + " " + (tag + " " + v);
      XRefIdOf(line) == None && TagOf(line) == Some(tag) && RawValueOf(line) == v
  {
    SplitPlainLineWithValue(f, tag, v);
    ValuePieces(v);
  }

  lemma FieldsOfTagOnly(f: string, tag: string)
    requires ' ' !in f && ' ' !in tag && !StartsWithAt(tag)
    ensures var line := f + " " + tag;
      XRefIdOf(line) == None && TagOf(line) == Some(tag) && RawValueOf(line) == ""
  {
    SplitPlainLineWithoutValue(f, tag);
  }

  /** Tokenizing a composed line gives back its parts: the level cut to eight bits,
      the xref id, the tag, and the value ("" when there is none). */
  lemma TokenizeCompose(level: nat, xref: Option<string>, tag: string, value: Option<string>)
    requires level <= StrConv.MaxInt64 && Tokenizable(xref, tag)
    ensures LevelOf(Compose(level, xref, tag, value)) == Some(ToUint8(level))
    ensures XRefIdOf(Compose(level, xref, tag, value)) == xref
    ensures TagOf(Compose(level, xref, tag, value)) == Some(tag)
    ensures RawValueOf(Compose(level, xref, tag, value)) == value.GetOr("")
  {
    var f := StrConv.FormatNat(level);
    var line := Compose(level, xref, tag, value);
    LevelDigitsHaveNoSpace(level);
    if xref.Some? && value.Some? {
      assert line == f + " " + (xref.value + " " + (tag + " " + value.value));
      FieldsWithXRefAndValue(f, xref.value, tag, value.value);
      LevelOfComposed(level, xref.value + " " + (tag + " " + value.value));
    } else if xref.Some? {
      assert line == f + " " + (xref.value + " " + tag);
      FieldsWithXRef(f, xref.value, tag);
      LevelOfComposed(level, xref.value + " " + tag);
    } else if value.Some? {
      assert line == f + " " + (tag + " " + value.value);
      FieldsWithValue(f, tag, value.value);
      LevelOfComposed(level, tag + " " + value.value);
    } else {
      assert line == f + " " + tag;
      FieldsOfTagOnly(f, tag);
      LevelOfComposed(level, tag);
    }
  }

  /** A line of one token has no tag, and neither has an xref line without a third token. */
  lemma NoTagWithoutTagToken(first: string, xref: string)
    requires ' ' !in first && ' ' !in xref && StartsWithAt(xref)
    ensures TagOf(first) == None && RawValueOf(first) == ""
    ensures TagOf(first + " " + xref) == None && XRefIdOf(first + " " + xref) == Some(xref)
  {
    Strings.SplitNAtFirst(first, ' ', xref, 4);
    Strings.SplitNAtFirst(first, ' ', xref, 3);
  }

  // ------------------------------------------------------------ as written

  /** As written, `XRefID`, `Tag` and `Value` read `parts[1][0]` without checking that
      the second part has a first byte: a line whose level is followed by a space and
      then nothing, or by a second space, makes Go panic with an index out of range. */
  predicate SecondPartIndexPanics(raw: string)
  {
    var parts := Strings.SplitN(raw, ' ', 3);
    |parts| >= 2 && parts[1] == ""
  }

  /** "1 " and "0  HEAD" both reach the unguarded index. */
  lemma SecondPartIndexPanicsOnBlankToken()
    ensures SecondPartIndexPanics("1 ")
    ensures SecondPartIndexPanics("0  HEAD")
    ensures TagOf("1 ") == Some("") && XRefIdOf("0  HEAD") == None
  {
    LoneSpacePanics();
    DoubleSpacePanics();
  }

  lemma LoneSpacePanics()
    ensures SecondPartIndexPanics("1 ") && TagOf("1 ") == Some("")
  {
    assert "1 " == "1" + [' '] + "";
    Strings.SplitNAtFirst("1", ' ', "", 3);
    Strings.SplitNAtFirst("1", ' ', "", 4);
  }

  lemma DoubleSpacePanics()
    ensures SecondPartIndexPanics("0  HEAD") && XRefIdOf("0  HEAD") == None
  {
    assert "0  HEAD" == "0" + [' '] + " HEAD";
    assert " HEAD" == "" + [' '] + "HEAD";
    Strings.SplitNAtFirst("0", ' ', " HEAD", 3);
    Strings.SplitNAtFirst("", ' ', "HEAD", 2);
  }

  // ------------------------------------------------------------ the memoising object

  /** One line and the memo fields its accessors fill on first use. */
  class Line {
    const originalLine: string
    var levelMemo: Option<Uint8>
    var xRefIdMemo: Option<string>
    var tagMemo: Option<string>
    var valueMemo: Option<string>

    /** Every filled memo holds what its accessor computes from the line. */
    ghost predicate Valid()
      reads this
    {
      && (levelMemo.Some? ==> levelMemo == LevelOf(originalLine))
      && (xRefIdMemo.Some? ==> xRefIdMemo == XRefIdOf(originalLine))
      && (tagMemo.Some? ==> tagMemo == TagOf(originalLine))
      && (valueMemo.Some? ==> valueMemo == Some(ValueOf(originalLine)))
    }

    /** `NewLine`: a line with no memo filled. */
    constructor (gedcomLine: string)
      ensures Valid() && originalLine == gedcomLine
      ensures levelMemo.None? && xRefIdMemo.None? && tagMemo.None? && valueMemo.None?
    {
      originalLine := gedcomLine;
      levelMemo, xRefIdMemo, tagMemo, valueMemo := None, None, None, None;
    }

    method Level() returns (r: Option<Uint8>)
      requires Valid()
      modifies this`levelMemo
      ensures Valid() && r == LevelOf(originalLine)
      ensures levelMemo == r
    {
      if levelMemo.Some? {
        return levelMemo;
      }
      var parts := Strings.SplitN(originalLine, ' ', 2);
      var level := StrConv.Atoi(parts[0]);
      r := if level.Some? then Some(ToUint8(level.value)) else None;
      levelMemo := r;
    }

    method XRefID() returns (r: Option<string>)
      requires Valid()
      modifies this`xRefIdMemo
      ensures Valid() && r == XRefIdOf(originalLine)
      ensures xRefIdMemo == r
    {
      if xRefIdMemo.Some? {
        return xRefIdMemo;
      }
      var parts := Strings.SplitN(originalLine, ' ', 3);
      r := None;
      if |parts| >= 2 && StartsWithAt(parts[1]) {
        r := Some(parts[1]);
      }
      xRefIdMemo := r;
    }

    /** `Tag` also fills the value memo when it computes. */
    method Tag() returns (r: Option<string>)
      requires Valid()
      modifies this`tagMemo, this`valueMemo
      ensures Valid() && r == TagOf(originalLine)
      ensures old(tagMemo).Some? ==> tagMemo == old(tagMemo) && valueMemo == old(valueMemo)
      ensures old(tagMemo).None? ==> tagMemo == r && valueMemo == Some(ValueOf(originalLine))
    {
      if tagMemo.Some? {
        return tagMemo;
      }
      r := TagOf(originalLine);
      tagMemo := r;
      valueMemo := Some(StrConv.QuoteToASCII(RawValueOf(originalLine)));
    }

    /** `Value` also fills the tag memo, and always computes when its own memo is empty. */
    method Value() returns (r: string)
      requires Valid()
      modifies this`tagMemo, this`valueMemo
      ensures Valid() && r == ValueOf(originalLine)
      ensures old(valueMemo).Some? ==> tagMemo == old(tagMemo) && valueMemo == old(valueMemo)
      ensures old(valueMemo).None? ==> tagMemo == TagOf(originalLine) && valueMemo == Some(r)
    {
      if valueMemo.Some? {
        return valueMemo.value;
      }
      tagMemo := TagOf(originalLine);
      r := StrConv.QuoteToASCII(RawValueOf(originalLine));
      valueMemo := Some(r);
    }
  }
}
