/** The few operations of Go's `strings` package that the parser relies on, over
    `string` (a sequence of Unicode scalar values). */
module Strings {
  import opened Wrappers

  /** Index of the first occurrence of `c` in `s`. */
  function IndexOf(s: string, c: char): (r: Option<nat>)
    ensures r.Some? ==> r.value < |s| && s[r.value] == c && c !in s[..r.value]
    ensures r.None? <==> c !in s
  {
    if |s| == 0 then None
    else if s[0] == c then Some(0)
    else match IndexOf(s[1..], c)
      case None => None
      case Some(i) => Some(i + 1)
  }

  /** `strings.Join(parts, string(sep))`. */
  function Join(parts: seq<string>, sep: char): string
  {
    if |parts| == 0 then ""
    else if |parts| == 1 then parts[0]
    else parts[0] + [sep] + Join(parts[1..], sep)
  }

  /** `strings.SplitN(s, string(sep), n)` for n >= 1: at most `n` pieces, the last
      one being the unsplit remainder. */
  function SplitN(s: string, sep: char, n: nat): (r: seq<string>)
    requires n >= 1
    ensures 1 <= |r| <= n
    decreases n
  {
    if n == 1 then [s]
    else match IndexOf(s, sep)
      case None => [s]
      case Some(i) =>
        [s[..i]] + SplitN(s[i + 1..], sep, n - 1)
  }

  /** `strings.Split(s, string(sep))`: every piece, so never empty. */
  function Split(s: string, sep: char): (r: seq<string>)
    ensures 1 <= |r|
    decreases |s|
  {
    match IndexOf(s, sep)
    case None => [s]
    case Some(i) => [s[..i]] + Split(s[i + 1..], sep)
  }

  /** The pieces of `SplitN` rejoin to the text. */
  lemma {:induction false} SplitNJoin(s: string, sep: char, n: nat)
    requires n >= 1
    ensures Join(SplitN(s, sep, n), sep) == s
    decreases n
  {
    if n > 1 {
      match IndexOf(s, sep)
      case None =>
      case Some(i) =>
        var rest := SplitN(s[i + 1..], sep, n - 1);
        SplitNJoin(s[i + 1..], sep, n - 1);
        PeelPiece(s, sep, i, rest);
    }
  }

  /** The pieces of `Split` rejoin to the text. */
  lemma {:induction false} SplitJoin(s: string, sep: char)
    ensures Join(Split(s, sep), sep) == s
    decreases |s|
  {
    match IndexOf(s, sep)
    case None =>
    case Some(i) =>
      var rest := Split(s[i + 1..], sep);
      SplitJoin(s[i + 1..], sep);
      PeelPiece(s, sep, i, rest);
  }

  /** The step of both proofs: the text before the first separator, then pieces that
      rejoin to the text after it. */
  lemma PeelPiece(s: string, sep: char, i: nat, rest: seq<string>)
    requires i < |s| && s[i] == sep && sep !in s[..i]
    requires |rest| >= 1 && Join(rest, sep) == s[i + 1..]
    ensures Join([s[..i]] + rest, sep) == s
    ensures forall k :: 1 <= k < |rest| + 1 ==> ([s[..i]] + rest)[k] == rest[k - 1]
  {
    var r := [s[..i]] + rest;
    assert r[1..] == rest;
    assert Join(r, sep) == s[..i] + [sep] + s[i + 1..];
    Rejoin(s, i);
  }

  lemma Rejoin(s: string, i: nat)
    requires i < |s|
    ensures s == s[..i] + [s[i]] + s[i + 1..]
  {
  }

  lemma IndexOfAfterPrefix(a: string, c: char, rest: string)
    requires c !in a
    ensures IndexOf(a + [c] + rest, c) == Some(|a|)
  {
    var s := a + [c] + rest;
    assert s[|a|] == c;
  }

  /** Splitting at the first separator peels off the text before it. */
  lemma SplitNAtFirst(a: string, sep: char, rest: string, n: nat)
    requires n >= 2 && sep !in a
    ensures SplitN(a + [sep] + rest, sep, n) == [a] + SplitN(rest, sep, n - 1)
  {
    var s := a + [sep] + rest;
    IndexOfAfterPrefix(a, sep, rest);
    assert s[..|a|] == a;
    assert s[|a| + 1..] == rest;
  }

  /** Text without a separator is a single piece. */
  lemma SplitNWithoutSeparator(a: string, sep: char, n: nat)
    requires n >= 1 && sep !in a
    ensures SplitN(a, sep, n) == [a]
  {
  }

  /** `Split` peels off the text before the first separator. */
  lemma SplitAtFirst(a: string, sep: char, rest: string)
    requires sep !in a
    ensures Split(a + [sep] + rest, sep) == [a] + Split(rest, sep)
  {
    var s := a + [sep] + rest;
    IndexOfAfterPrefix(a, sep, rest);
    assert s[..|a|] == a;
    assert s[|a| + 1..] == rest;
  }

  /** Text that does not open with the separator opens its first piece. */
  lemma SplitNFirstPiece(s: string, sep: char, n: nat)
    requires n >= 1 && |s| > 0 && s[0] != sep
    ensures var r := SplitN(s, sep, n); |r[0]| > 0 && r[0][0] == s[0]
  {
  }

  /** `SplitN` on text with a separator: the text before it, then the pieces of the rest. */
  lemma SplitNStep(s: string, sep: char, n: nat, i: nat)
    requires n >= 2 && IndexOf(s, sep) == Some(i)
    ensures SplitN(s, sep, n) == [s[..i]] + SplitN(s[i + 1..], sep, n - 1)
  {
  }

  function Last(pieces: seq<string>): string
    requires |pieces| > 0
  {
    pieces[|pieces| - 1]
  }

  /** The joined text ends with the last piece, with a separator before it when there
      are other pieces. */
  lemma {:induction false} JoinLast(parts: seq<string>, sep: char)
    requires |parts| > 0
    ensures var j := Join(parts, sep);
            && |Last(parts)| <= |j| && j[|j| - |Last(parts)|..] == Last(parts)
            && (|parts| >= 2 ==> |Last(parts)| < |j| && j[|j| - |Last(parts)| - 1] == sep)
    decreases |parts|
  {
    if |parts| >= 2 {
      var tail := parts[1..];
      JoinLast(tail, sep);
      assert Last(tail) == Last(parts);
      var jt := Join(tail, sep);
      var j := Join(parts, sep);
      assert j == parts[0] + [sep] + jt;
      assert j[|j| - |jt|..] == jt;
    }
  }

  /** Text that does not end with the separator ends its last `SplitN` piece. */
  lemma SplitNLastPiece(s: string, sep: char, n: nat)
    requires n >= 1 && |s| > 0 && s[|s| - 1] != sep
    ensures var last := Last(SplitN(s, sep, n)); |last| > 0 && last[|last| - 1] == s[|s| - 1]
  {
    var r := SplitN(s, sep, n);
    SplitNJoin(s, sep, n);
    JoinLast(r, sep);
  }

  /** `Split` likewise keeps the first character in its first piece. */
  lemma SplitFirstPiece(s: string, sep: char)
    requires |s| > 0 && s[0] != sep
    ensures var r := Split(s, sep); |r[0]| > 0 && r[0][0] == s[0]
  {
  }

  /** `unicode.IsSpace`. */
  predicate IsSpace(c: char)
  {
    var v := c as int;
    (9 <= v <= 13) || v == 0x20 || v == 0x85 || v == 0xA0 || v == 0x1680
    || (0x2000 <= v <= 0x200A) || v == 0x2028 || v == 0x2029 || v == 0x202F
    || v == 0x205F || v == 0x3000
  }

  function TrimLeft(s: string): (r: string)
    ensures |r| <= |s| && r == s[|s| - |r|..]
    ensures r == "" || !IsSpace(r[0])
    ensures forall k :: 0 <= k < |s| - |r| ==> IsSpace(s[k])
  {
    if |s| > 0 && IsSpace(s[0]) then
      var t := TrimLeft(s[1..]);
      assert forall k :: 1 <= k < |s| - |t| ==> IsSpace(s[k]) by {
        forall k | 1 <= k < |s| - |t| ensures IsSpace(s[k]) {
          assert s[k] == s[1..][k - 1];
        }
      }
      t
    else s
  }

  function TrimRight(s: string): (r: string)
    ensures |r| <= |s| && r == s[..|r|]
    ensures r == "" || !IsSpace(r[|r| - 1])
    ensures forall k :: |r| <= k < |s| ==> IsSpace(s[k])
  {
    if |s| > 0 && IsSpace(s[|s| - 1]) then TrimRight(s[..|s| - 1]) else s
  }

  /** `strings.TrimSpace`: drops leading and trailing white space. */
  function TrimSpace(s: string): (r: string)
    ensures r == "" || (!IsSpace(r[0]) && !IsSpace(r[|r| - 1]))
  {
    TrimRight(TrimLeft(s))
  }

  /** `strings.TrimSpace` keeps text with no outer white space as it is. */
  lemma TrimSpaceKeepsTrimmed(s: string)
    requires s == "" || (!IsSpace(s[0]) && !IsSpace(s[|s| - 1]))
    ensures TrimSpace(s) == s
  {
  }

  predicate IsAscii(s: string)
  {
    forall k :: 0 <= k < |s| ==> (s[k] as int) < 0x80
  }

  /** The upper case of one character: the ASCII letters, and the two letters outside
      ASCII whose upper case is an ASCII letter (dotless i and long s). Every other
      character is kept: an ASCII one is its own upper case, and Go's upper case of any
      other is again outside ASCII. */
  function UpperChar(c: char): char
  {
    if 'a' <= c <= 'z' then (c as int - 32) as char
    else if c == '\U{0131}' then 'I'
    else if c == '\U{017F}' then 'S'
    else c
  }

  /** `strings.ToUpper`, character by character; exact on ASCII text and on whether the
      result is ASCII. */
  function ToUpper(s: string): (r: string)
    ensures |r| == |s|
    ensures forall k :: 0 <= k < |s| ==> r[k] == UpperChar(s[k])
  {
    if |s| == 0 then "" else [UpperChar(s[0])] + ToUpper(s[1..])
  }

  function HasPrefix(s: string, prefix: string): bool
  {
    |prefix| <= |s| && s[..|prefix|] == prefix
  }

  /** `strings.TrimPrefix`. */
  function TrimPrefix(s: string, prefix: string): (r: string)
    ensures HasPrefix(s, prefix) ==> prefix + r == s
    ensures !HasPrefix(s, prefix) ==> r == s
  {
    if HasPrefix(s, prefix) then s[|prefix|..] else s
  }
}
