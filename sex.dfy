/** The SEX interpreter of gedcom/sex.go: a one-letter value looked up in the gender
    table. */
module SexStructure {
  import opened Wrappers
  import Util
  import GedcomLine

  /** `interpretSexStructure`, applied to the line's value: the full gender and no
      error, or "" and an error naming the value. */
  function InterpretSexStructure(value: string): (r: (string, Option<string>))
    ensures r.1.None? <==> value == "M" || value == "F"
    ensures r.1.None? ==> r.0 == "MALE" || r.0 == "FEMALE"
    ensures r.1.Some? ==> r.0 == "" && r.1.value == "invalid sex letter value: " + value
  {
    if value in Util.GenderFullByLetter then (Util.GenderFullByLetter[value], None)
    else ("", Some("invalid sex letter value: " + value))
  }

  /** Each gender's letter is read back as that gender. */
  lemma SexLetterRoundTrip(full: string)
    requires full in Util.GenderLetterByFull
    ensures InterpretSexStructure(Util.GenderLetterByFull[full]) == (full, None)
  {
  }

  /** The lookup is exact: the lower-case letters are errors. */
  lemma SexIsCaseSensitive()
    ensures InterpretSexStructure("m").1.Some? && InterpretSexStructure("f").1.Some?
  {
  }

  /** A line's value as the accessor hands it out is wrapped in double quotes, so it is
      never a gender letter: the interpreter always reports an error on it. */
  lemma SexOfLineValueIsError(raw: string)
    ensures InterpretSexStructure(GedcomLine.ValueOf(raw)).1.Some?
  {
    var v := GedcomLine.ValueOf(raw);
    assert v[0] == '"';
  }
}
