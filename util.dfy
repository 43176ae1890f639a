/** The lookup tables of util/util.go and the map inversion that derives the reverse
    tables from the forward ones. */
module Util {

  const MonthAbbrByInt: map<int, string> := map[
    1 := "JAN", 2 := "FEB", 3 := "MAR", 4 := "APR", 5 := "MAY", 6 := "JUN",
    7 := "JUL", 8 := "AUG", 9 := "SEP", 10 := "OCT", 11 := "NOV", 12 := "DEC"]

  const MonthIntByAbbr: map<string, int> := map[
    "JAN" := 1, "FEB" := 2, "MAR" := 3, "APR" := 4, "MAY" := 5, "JUN" := 6,
    "JUL" := 7, "AUG" := 8, "SEP" := 9, "OCT" := 10, "NOV" := 11, "DEC" := 12]

  const PrimaryValueByBool: map<bool, string> := map[true := "Y", false := "N"]

  const PrimaryBoolByValue: map<string, bool> := map["Y" := true, "N" := false]

  const GenderLetterByFull: map<string, string> := map["MALE" := "M", "FEMALE" := "F"]

  const GenderFullByLetter: map<string, string> := map["M" := "MALE", "F" := "FEMALE"]

  ghost predicate Injective<K, V>(m: map<K, V>)
  {
    forall k1, k2 :: k1 in m && k2 in m && m[k1] == m[k2] ==> k1 == k2
  }

  /** `r` undoes `m` and `m` undoes `r`. */
  ghost predicate InverseOf<K, V>(r: map<V, K>, m: map<K, V>)
  {
    && (forall k :: k in m ==> m[k] in r && r[m[k]] == k)
    && (forall v :: v in r ==> r[v] in m && m[r[v]] == v)
  }

  /** A map has at most one inverse. */
  lemma InverseUnique<K, V>(m: map<K, V>, r1: map<V, K>, r2: map<V, K>)
    requires InverseOf(r1, m) && InverseOf(r2, m)
    ensures r1 == r2
  {
    forall v | v in r1 ensures v in r2 && r2[v] == r1[v] {
      assert m[r1[v]] == v;
    }
    forall v | v in r2 ensures v in r1 {
      assert m[r2[v]] == v;
    }
  }

  /** `invertIntStringMap`, `invertBoolStringMap` and `invertStringStringMap` (one loop
      written three times for three key types): every value becomes a key mapped back
      to a key that held it. Go visits a map in no fixed order, so when two keys share a
      value either may win; for an injective map the result is its exact inverse. */
  method Invert<K, V(==)>(m: map<K, V>) returns (r: map<V, K>)
    ensures forall k :: k in m ==> m[k] in r
    ensures forall v :: v in r ==> r[v] in m && m[r[v]] == v
    ensures r.Keys == m.Values
    ensures Injective(m) ==> |r| == |m|
    ensures Injective(m) ==> InverseOf(r, m)
  {
    r := map[];
    var todo := m.Keys;
    ghost var done: set<K> := {};
    while todo != {}
      invariant todo <= m.Keys && done == m.Keys - todo
      invariant forall k :: k in done ==> m[k] in r
      invariant forall v :: v in r ==> r[v] in done && m[r[v]] == v
      invariant Injective(m) ==> |r| == |done|
      decreases todo
    {
      var k :| k in todo;
      r := r[m[k] := k];
      todo := todo - {k};
      done := done + {k};
    }
    forall v | v in m.Values ensures v in r {
      var k :| k in m && m[k] == v;
    }
  }

  /** The month table has exactly the keys 1 to 12, with twelve distinct abbreviations. */
  lemma MonthTableShape()
    ensures forall m :: m in MonthAbbrByInt <==> 1 <= m <= 12
    ensures Injective(MonthAbbrByInt)
  {
  }

  /** The abbreviation table written out above is the inverse of the month table. */
  lemma MonthTablesInverse()
    ensures InverseOf(MonthIntByAbbr, MonthAbbrByInt)
  {
    MonthsRoundTrip();
    AbbreviationsRoundTrip();
  }

  lemma MonthsRoundTrip()
    ensures forall k :: k in MonthAbbrByInt ==> MonthAbbrByInt[k] in MonthIntByAbbr && MonthIntByAbbr[MonthAbbrByInt[k]] == k
  {
    forall k | k in MonthAbbrByInt
      ensures MonthAbbrByInt[k] in MonthIntByAbbr && MonthIntByAbbr[MonthAbbrByInt[k]] == k
    {
      assert k in {1, 2, 3, 4, 5, 6, 7, 8, 9, 10, 11, 12};
    }
  }

  lemma AbbreviationsRoundTrip()
    ensures forall v :: v in MonthIntByAbbr ==> MonthIntByAbbr[v] in MonthAbbrByInt && MonthAbbrByInt[MonthIntByAbbr[v]] == v
  {
    forall v | v in MonthIntByAbbr
      ensures MonthIntByAbbr[v] in MonthAbbrByInt && MonthAbbrByInt[MonthIntByAbbr[v]] == v
    {
      assert v in {"JAN", "FEB", "MAR", "APR", "MAY", "JUN", "JUL", "AUG", "SEP", "OCT", "NOV", "DEC"};
    }
  }

  /** The package initialiser `MonthIntByAbbr = invertIntStringMap(MonthAbbrByInt)`
      yields the abbreviation table above. */
  method InitMonthIntByAbbr() returns (r: map<string, int>)
    ensures r == MonthIntByAbbr
  {
    MonthTableShape();
    r := Invert(MonthAbbrByInt);
    MonthTablesInverse();
    InverseUnique(MonthAbbrByInt, r, MonthIntByAbbr);
  }

  /** The primary table's keys are one letter long. */
  lemma LongKeysNotPrimary(key: string)
    requires |key| >= 2
    ensures key !in PrimaryBoolByValue
  {
  }

  /** `PrimaryBoolByValue = invertBoolStringMap(PrimaryValueByBool)`. */
  method InitPrimaryBoolByValue() returns (r: map<string, bool>)
    ensures r == PrimaryBoolByValue
  {
    r := Invert(PrimaryValueByBool);
    assert InverseOf(PrimaryBoolByValue, PrimaryValueByBool);
    InverseUnique(PrimaryValueByBool, r, PrimaryBoolByValue);
  }

  /** `GenderFullByLetter = invertStringStringMap(GenderLetterByFull)`. */
  method InitGenderFullByLetter() returns (r: map<string, string>)
    ensures r == GenderFullByLetter
  {
    r := Invert(GenderLetterByFull);
    assert InverseOf(GenderFullByLetter, GenderLetterByFull);
    InverseUnique(GenderLetterByFull, r, GenderFullByLetter);
  }
}
