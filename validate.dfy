/** gedcom/validate.go: the checks of cross references. The header check only reports;
    the family check clears, in place, every reference that is not an individual's id
    and keeps the family. */
module Validate {
  import opened Wrappers
  import Document
  import Gedcom

  type Family = Gedcom.Family

  // ------------------------------------------------------------ the header (lines 5-28)

  /** `contains`: some submitter carries the id. */
  method Contains(submitters: seq<Document.Submitter>, xRefId: string) returns (found: bool)
    ensures found <==> exists k :: 0 <= k < |submitters| && submitters[k].id == xRefId
  {
    for k := 0 to |submitters|
      invariant forall j :: 0 <= j < k ==> submitters[j].id != xRefId
    {
      if submitters[k].id == xRefId {
        return true;
      }
    }
    return false;
  }

  /** What the header check logs: nothing for an empty or listed submitter reference;
      otherwise a message naming the first submitter as the alternative, or saying
      there is none. */
  function HeaderMessage(submitter: string, submitters: seq<Document.Submitter>): (r: Option<string>)
  {
    if submitter == "" then None
    else if exists k :: 0 <= k < |submitters| && submitters[k].id == submitter then None
    else if |submitters| > 0 then
      Some("invalid submitter xRefId in header (" + submitter + "), defaulting to " + submitters[0].id)
    else
      Some("invalid submitter xRefId in header (" + submitter
           + "), no alternative found, removing submitter xRefId from header")
  }

  /** `ValidateHeaderXRefIntegrity`: changes nothing and returns what it logs. `ok` is
      false when the document has no header, where Go dereferences nil. The messages
      speak of defaulting and removing, but the reference is left as it was. */
  method ValidateHeaderXRefIntegrity(g: Gedcom.ConcurrencySafeGedcom) returns (ok: bool, logged: Option<string>)
    ensures ok <==> g.header.Some?
    ensures ok ==> logged == HeaderMessage(g.header.value.submitter, g.submitters)
  {
    if g.header.None? {
      return false, None;
    }
    var submitterXRefId := g.header.value.submitter;
    if submitterXRefId == "" {
      return true, None;
    }
    var found := Contains(g.submitters, submitterXRefId);
    logged := None;
    if !found {
      if |g.submitters| > 0 {
        var alternative := g.submitters[0].id;
        logged := Some("invalid submitter xRefId in header (" + submitterXRefId + "), defaulting to " + alternative);
      } else {
        logged := Some("invalid submitter xRefId in header (" + submitterXRefId
                       + "), no alternative found, removing submitter xRefId from header");
      }
    }
    ok := true;
  }

  /** A message is logged exactly when the reference is set and no submitter has it. */
  lemma HeaderMessageExact(submitter: string, submitters: seq<Document.Submitter>)
    ensures HeaderMessage(submitter, submitters).Some?
        <==> submitter != "" && forall k :: 0 <= k < |submitters| ==> submitters[k].id != submitter
  {
  }

  // ------------------------------------------------------------ families (lines 30-53)

  /** A reference as the family check leaves it: kept when it is an id, "" otherwise. */
  function Cleared(ref: string, ids: set<string>): (r: string)
    ensures r == ref || r == ""
    ensures ref in ids ==> r == ref
  {
    if ref in ids then ref else ""
  }

  /** Each child reference cleared in turn. */
  function ClearedChildren(childIds: seq<string>, ids: set<string>): (r: seq<string>)
    ensures |r| == |childIds|
    ensures forall j :: 0 <= j < |r| ==> r[j] == Cleared(childIds[j], ids)
    decreases |childIds|
  {
    if childIds == [] then []
    else
      var n := |childIds| - 1;
      ClearedChildren(childIds[..n], ids) + [Cleared(childIds[n], ids)]
  }

  function ClearedFamily(f: Family, ids: set<string>): (r: Family)
    ensures r.id == f.id && |r.childIds| == |f.childIds|
  {
    f.(motherId := Cleared(f.motherId, ids), fatherId := Cleared(f.fatherId, ids),
       childIds := ClearedChildren(f.childIds, ids))
  }

  /** The families after the check, one for one. */
  function ClearedFamilies(families: seq<Family>, ids: set<string>): (r: seq<Family>)
    ensures |r| == |families|
    ensures forall i :: 0 <= i < |r| ==> r[i] == ClearedFamily(families[i], ids)
    decreases |families|
  {
    if families == [] then []
    else
      var n := |families| - 1;
      ClearedFamilies(families[..n], ids) + [ClearedFamily(families[n], ids)]
  }

  /** `ValidateFamilyRecordXRefIdIntegrity`. */
  method ValidateFamilyRecordXRefIdIntegrity(g: Gedcom.ConcurrencySafeGedcom)
    modifies g`families
    ensures g.families == ClearedFamilies(old(g.families), Gedcom.IndexById(g.individuals).Keys)
  {
    var indexedIndividuals := g.IndividualsByIds();
    ghost var ids := indexedIndividuals.Keys;
    ghost var fams := g.families;
    for i := 0 to |g.families|
      invariant |g.families| == |fams|
      invariant forall k :: 0 <= k < i ==> g.families[k] == ClearedFamily(fams[k], ids)
      invariant forall k :: i <= k < |fams| ==> g.families[k] == fams[k]
    {
      var f := g.families[i];
      if f.motherId !in indexedIndividuals {
        g.families := g.families[i := g.families[i].(motherId := "")];
      }
      if f.fatherId !in indexedIndividuals {
        g.families := g.families[i := g.families[i].(fatherId := "")];
      }
      var childIds := ClearChildren(f.childIds, indexedIndividuals);
      g.families := g.families[i := g.families[i].(childIds := childIds)];
    }
    assert g.families == ClearedFamilies(fams, ids);
  }

  /** The inner loop over one family's children, clearing each in place. */
  method ClearChildren(childIds0: seq<string>, indexedIndividuals: map<string, Gedcom.Individual>)
    returns (childIds: seq<string>)
    ensures childIds == ClearedChildren(childIds0, indexedIndividuals.Keys)
  {
    childIds := childIds0;
    for j := 0 to |childIds0|
      invariant |childIds| == |childIds0|
      invariant forall k :: 0 <= k < j ==> childIds[k] == Cleared(childIds0[k], indexedIndividuals.Keys)
      invariant forall k :: j <= k < |childIds0| ==> childIds[k] == childIds0[k]
    {
      if childIds0[j] !in indexedIndividuals {
        childIds := childIds[j := ""];
      }
    }
  }

  /** `Validate`: the header check, then the family check. */
  method Validate(g: Gedcom.ConcurrencySafeGedcom) returns (ok: bool, logged: Option<string>)
    modifies g`families
    ensures ok <==> g.header.Some?
    ensures ok ==> logged == HeaderMessage(g.header.value.submitter, g.submitters)
    ensures ok ==> g.families == ClearedFamilies(old(g.families), Gedcom.IndexById(g.individuals).Keys)
    ensures !ok ==> g.families == old(g.families)
  {
    ok, logged := ValidateHeaderXRefIntegrity(g);
    if !ok {
      return;
    }
    ValidateFamilyRecordXRefIdIntegrity(g);
  }

  // ------------------------------------------------------------ properties

  /** Nothing but references that are not ids changes: the families keep their number,
      order, ids and number of children, and each reference is kept or cleared. */
  lemma ClearedFamiliesKeepShape(families: seq<Family>, ids: set<string>)
    ensures var r := ClearedFamilies(families, ids);
            && |r| == |families|
            && forall i :: 0 <= i < |r| ==>
                 && r[i].id == families[i].id
                 && |r[i].childIds| == |families[i].childIds|
                 && (r[i].motherId == families[i].motherId || r[i].motherId == "")
                 && (r[i].fatherId == families[i].fatherId || r[i].fatherId == "")
                 && (families[i].motherId in ids ==> r[i].motherId == families[i].motherId)
                 && (families[i].fatherId in ids ==> r[i].fatherId == families[i].fatherId)
                 && forall j :: 0 <= j < |r[i].childIds| ==>
                      (r[i].childIds[j] == families[i].childIds[j] || r[i].childIds[j] == "")
                      && (families[i].childIds[j] in ids ==> r[i].childIds[j] == families[i].childIds[j])
  {
  }

  /** A family that resolves is left exactly as it was. */
  lemma ResolvingFamilyUnchanged(f: Family, ids: set<string>)
    requires Gedcom.Resolves(f, ids)
    ensures ClearedFamily(f, ids) == f
  {
    var r := ClearedFamily(f, ids);
    assert r.childIds == f.childIds;
  }

  /** After the check every reference is an id or "": once "" is an id too, every family
      resolves. */
  lemma ClearedFamilyResolves(f: Family, ids: set<string>)
    requires "" in ids
    ensures Gedcom.Resolves(ClearedFamily(f, ids), ids)
  {
    var r := ClearedFamily(f, ids);
    forall c | c in r.childIds ensures c in ids {
      var j :| 0 <= j < |r.childIds| && r.childIds[j] == c;
    }
  }

  lemma ClearedFamilyIdempotent(f: Family, ids: set<string>)
    ensures ClearedFamily(ClearedFamily(f, ids), ids) == ClearedFamily(f, ids)
  {
    var once := ClearedFamily(f, ids);
    var twice := ClearedFamily(once, ids);
    assert twice.childIds == once.childIds;
  }

  /** Running the family check a second time changes nothing. */
  lemma ClearedFamiliesIdempotent(families: seq<Family>, ids: set<string>)
    ensures ClearedFamilies(ClearedFamilies(families, ids), ids) == ClearedFamilies(families, ids)
  {
    var once := ClearedFamilies(families, ids);
    var twice := ClearedFamilies(once, ids);
    forall i | 0 <= i < |once| ensures twice[i] == once[i] {
      ClearedFamilyIdempotent(families[i], ids);
    }
  }
}
