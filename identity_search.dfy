/** Identity search (src/search/identity_search.rs): the query builder, the per-candidate
    identity test and the search that drops failing candidates. */
module IdentitySearch {
  import opened Wrappers
  import opened Text
  import opened Chem
  import opened Json
  import opened TantivyDocs
  import opened QueryParts
  import StructureMatching

  const IDENTITY_SCAFFOLD_PREFIX: string := "other_descriptors.scaffolds:"

  /** The Tantivy limit of the first search. */
  const IDENTITY_TANTIVY_LIMIT: nat := 100000

  /** The scaffold constraint: nothing without scaffold information, the part `...:-1`
      when no scaffold matched, otherwise one part per matched scaffold id, in order. */
  function ScaffoldParts(matchingScaffolds: Option<seq<int>>): seq<string>
  {
    match matchingScaffolds
    case None => []
    case Some(ids) => if |ids| == 0 then [IDENTITY_SCAFFOLD_PREFIX + "-1"] else IdParts(IDENTITY_SCAFFOLD_PREFIX, ids)
  }

  /** No scaffold information gives no part, no matched scaffold gives exactly the part
      `other_descriptors.scaffolds:-1`, and matched scaffolds give one part per id, in order. */
  lemma ScaffoldPartsSpec(matchingScaffolds: Option<seq<int>>)
    ensures matchingScaffolds.None? ==> ScaffoldParts(matchingScaffolds) == []
    ensures matchingScaffolds == Some([]) ==> ScaffoldParts(matchingScaffolds) == ["other_descriptors.scaffolds:-1"]
    ensures matchingScaffolds.Some? && |matchingScaffolds.value| > 0 ==>
      var r := ScaffoldParts(matchingScaffolds);
      |r| == |matchingScaffolds.value| &&
      forall i :: 0 <= i < |r| ==> r[i] == "other_descriptors.scaffolds:" + IntToString(matchingScaffolds.value[i])
  {
    assert IDENTITY_SCAFFOLD_PREFIX + "-1" == "other_descriptors.scaffolds:-1";
    if matchingScaffolds.Some? {
      IdPartsIndex(IDENTITY_SCAFFOLD_PREFIX, matchingScaffolds.value);
    }
  }

  /** The query parts in order: extra-query pieces, scaffold parts, descriptor parts. */
  function IdentityQueryParts(descriptors: Descriptors, extraQuery: string, matchingScaffolds: Option<seq<int>>,
                              matchDescriptors: set<string>): seq<string>
  {
    ExtraPieces(extraQuery) + ScaffoldParts(matchingScaffolds) + DescriptorClauses(descriptors, extraQuery, matchDescriptors, Exact)
  }

  /** `build_identity_query`: the parts pushed in order, joined with " AND ". */
  method BuildIdentityQuery(descriptors: Descriptors, extraQuery: string, matchingScaffolds: Option<seq<int>>,
                            matchDescriptors: set<string>) returns (query: string)
    ensures query == Join(IdentityQueryParts(descriptors, extraQuery, matchingScaffolds, matchDescriptors), AND)
  {
    var queryParts := AppendExtraPieces([], extraQuery);
    assert queryParts == ExtraPieces(extraQuery);
    ghost var extra := queryParts;
    if matchingScaffolds.Some? {
      var scaffolds := matchingScaffolds.value;
      if |scaffolds| == 0 {
        queryParts := queryParts + [IDENTITY_SCAFFOLD_PREFIX + "-1"];
      } else {
        queryParts := AppendIdParts(queryParts, IDENTITY_SCAFFOLD_PREFIX, scaffolds);
      }
    }
    assert queryParts == extra + ScaffoldParts(matchingScaffolds);
    queryParts := AppendDescriptorClauses(queryParts, descriptors, extraQuery, matchDescriptors, Exact);
    assert queryParts == IdentityQueryParts(descriptors, extraQuery, matchingScaffolds, matchDescriptors);
    query := Join(queryParts, AND);
  }

  /** With no parts at all the query is the empty string. */
  lemma IdentityQueryEmpty(descriptors: Descriptors, matchDescriptors: set<string>)
    requires forall i :: 0 <= i < |descriptors| ==> descriptors[i].0 !in matchDescriptors
    ensures Join(IdentityQueryParts(descriptors, "", None, matchDescriptors), AND) == ""
  {
    NoEligibleNoClauses(descriptors, "", matchDescriptors, Exact);
  }

  /** A non-empty extra query comes first, verbatim: the query is the extra query itself
      or starts with it followed by " AND ". */
  lemma ExtraQueryLeads(descriptors: Descriptors, extraQuery: string, matchingScaffolds: Option<seq<int>>,
                        matchDescriptors: set<string>)
    requires extraQuery != ""
    ensures var q := Join(IdentityQueryParts(descriptors, extraQuery, matchingScaffolds, matchDescriptors), AND);
      q == extraQuery || StartsWith(q, extraQuery + AND)
  {
    var e := ExtraPieces(extraQuery);
    var rest := ScaffoldParts(matchingScaffolds) + DescriptorClauses(descriptors, extraQuery, matchDescriptors, Exact);
    assert IdentityQueryParts(descriptors, extraQuery, matchingScaffolds, matchDescriptors) == e + rest;
    if |rest| == 0 {
      assert e + rest == e;
    } else {
      JoinAppend(e, rest, AND);
      var q := Join(e + rest, AND);
      assert q[..|extraQuery + AND|] == extraQuery + AND;
    }
  }

  /** With `Some([])` scaffolds, an empty extra query and no eligible descriptor, the query
      is exactly the "no scaffold" constraint. */
  lemma NoScaffoldConstraint(descriptors: Descriptors, matchDescriptors: set<string>)
    requires forall i :: 0 <= i < |descriptors| ==> descriptors[i].0 !in matchDescriptors
    ensures Join(IdentityQueryParts(descriptors, "", Some([]), matchDescriptors), AND) == "other_descriptors.scaffolds:-1"
  {
    NoEligibleNoClauses(descriptors, "", matchDescriptors, Exact);
    assert IdentityQueryParts(descriptors, "", Some([]), matchDescriptors) == [IDENTITY_SCAFFOLD_PREFIX + "-1"];
  }

  /** The identity query of `{NumAtoms: 10}` with no extra query and no scaffolds. */
  lemma IdentityQueryExample(matchDescriptors: set<string>)
    requires "NumAtoms" in matchDescriptors
    ensures Join(IdentityQueryParts([("NumAtoms", DescriptorValue(10.0, "10"))], "", None, matchDescriptors), AND) == "NumAtoms:10"
  {
    var ds := [("NumAtoms", DescriptorValue(10.0, "10"))];
    assert ds[..0] == [];
    assert !Contains("", "NumAtoms:") by { IndexOfSpec("", "NumAtoms:"); }
    assert Eligible("NumAtoms", "", matchDescriptors);
    assert DescriptorClause(Exact, "NumAtoms", DescriptorValue(10.0, "10")) == "NumAtoms:10";
    assert DescriptorClauses(ds, "", matchDescriptors, Exact) == DescriptorClauses([], "", matchDescriptors, Exact) + ["NumAtoms:10"];
    assert IdentityQueryParts(ds, "", None, matchDescriptors) == ["NumAtoms:10"];
  }

  /** An accepted hit: stored SMILES, extra data, and the document address. */
  datatype IdentityHit = IdentityHit(smiles: string, extraData: Json, segmentOrd: nat, docId: nat)

  /** `identity_match`: the candidate is accepted when its stored pattern fingerprint is
      bit-for-bit the query's and the two-way substructure oracle agrees; a missing
      extra_data becomes an empty object. `toJson` is the serde round trip of a stored
      value. */
  function IdentityMatch(addr: DocAddress, fetch: FetchOracle, fromSmiles: SmilesParser,
                         substructMatch: SubstructOracle, toJson: FieldValue -> Result<Json>,
                         queryMol: Mol, queryFp: Bits, useChirality: bool): (r: Result<Option<IdentityHit>>)
  {
    match fetch(addr)
    case Err(e) => Err(e)
    case Ok(doc) =>
      match TextField(doc, "smiles")
      case Err(e) => Err(e)
      case Ok(smiles) =>
        match BytesField(doc, "pattern_fingerprint")
        case Err(e) => Err(e)
        case Ok(fp) =>
          if fp == queryFp then
            match fromSmiles(smiles)
            case Err(e) => Err(e)
            case Ok(mol) =>
              if StructureMatching.ExactMatch(substructMatch, mol, queryMol, useChirality) then
                match GetFirst(doc, "extra_data")
                case None => Ok(Some(IdentityHit(smiles, Object(map[]), addr.segmentOrd, addr.docId)))
                case Some(v) =>
                  match toJson(v)
                  case Err(e) => Err(e)
                  case Ok(j) => Ok(Some(IdentityHit(smiles, j, addr.segmentOrd, addr.docId)))
              else Ok(None)
          else Ok(None)
  }

  /** Error, acceptance and rejection cases of `identity_match`: a failed fetch fails; an
      accepted hit has the query's fingerprint bit-for-bit, passes the two-way oracle, keeps
      the stored SMILES and address, and defaults a missing extra_data to `{}`; a
      fingerprint mismatch on a well-formed document is a rejection, not an error. */
  lemma IdentityMatchSpec(addr: DocAddress, fetch: FetchOracle, fromSmiles: SmilesParser,
                          substructMatch: SubstructOracle, toJson: FieldValue -> Result<Json>,
                          queryMol: Mol, queryFp: Bits, useChirality: bool)
    ensures var r := IdentityMatch(addr, fetch, fromSmiles, substructMatch, toJson, queryMol, queryFp, useChirality);
      fetch(addr).Err? ==> r.Err?
    ensures var r := IdentityMatch(addr, fetch, fromSmiles, substructMatch, toJson, queryMol, queryFp, useChirality);
      r.Ok? && r.value.Some? ==>
        var doc := fetch(addr).value;
        var hit := r.value.value;
        fetch(addr).Ok? && TextField(doc, "smiles") == Ok(hit.smiles) &&
        BytesField(doc, "pattern_fingerprint") == Ok(queryFp) &&
        fromSmiles(hit.smiles).Ok? &&
        StructureMatching.ExactMatch(substructMatch, fromSmiles(hit.smiles).value, queryMol, useChirality) &&
        hit.segmentOrd == addr.segmentOrd && hit.docId == addr.docId &&
        ("extra_data" !in doc ==> hit.extraData == Object(map[]))
    ensures var r := IdentityMatch(addr, fetch, fromSmiles, substructMatch, toJson, queryMol, queryFp, useChirality);
      (fetch(addr).Ok? && TextField(fetch(addr).value, "smiles").Ok? &&
       BytesField(fetch(addr).value, "pattern_fingerprint").Ok? &&
       BytesField(fetch(addr).value, "pattern_fingerprint").value != queryFp) ==> r == Ok(None)
  {
  }

  /** The confirmed hits among the candidates, in candidate order: a failing candidate is
      dropped like a rejected one. */
  function ConfirmedHits(candidates: seq<DocAddress>, fetch: FetchOracle, fromSmiles: SmilesParser,
                         substructMatch: SubstructOracle, toJson: FieldValue -> Result<Json>,
                         queryMol: Mol, queryFp: Bits, useChirality: bool): (r: seq<IdentityHit>)
    ensures |r| <= |candidates|
  {
    if |candidates| == 0 then []
    else
      var last := candidates[|candidates| - 1];
      ConfirmedHits(candidates[..|candidates| - 1], fetch, fromSmiles, substructMatch, toJson, queryMol, queryFp, useChirality)
        + Accepted(IdentityMatch(last, fetch, fromSmiles, substructMatch, toJson, queryMol, queryFp, useChirality))
  }

  /** The hit an accepted candidate contributes; nothing for a rejected or failing one. */
  function Accepted(outcome: Result<Option<IdentityHit>>): seq<IdentityHit>
  {
    match outcome
    case Ok(Some(hit)) => [hit]
    case _ => []
  }

  /** One more candidate adds what it contributes at the end. */
  lemma ConfirmedHitsStep(candidates: seq<DocAddress>, i: nat, fetch: FetchOracle, fromSmiles: SmilesParser,
                          substructMatch: SubstructOracle, toJson: FieldValue -> Result<Json>,
                          queryMol: Mol, queryFp: Bits, useChirality: bool)
    requires i < |candidates|
    ensures ConfirmedHits(candidates[..i + 1], fetch, fromSmiles, substructMatch, toJson, queryMol, queryFp, useChirality)
      == ConfirmedHits(candidates[..i], fetch, fromSmiles, substructMatch, toJson, queryMol, queryFp, useChirality)
         + Accepted(IdentityMatch(candidates[i], fetch, fromSmiles, substructMatch, toJson, queryMol, queryFp, useChirality))
  {
    assert candidates[..i + 1][..i] == candidates[..i];
  }

  /** Every confirmed hit is the accepted result of one of the candidates. */
  lemma {:induction false} ConfirmedHitsAccepted(candidates: seq<DocAddress>, fetch: FetchOracle, fromSmiles: SmilesParser,
                                                 substructMatch: SubstructOracle, toJson: FieldValue -> Result<Json>,
                                                 queryMol: Mol, queryFp: Bits, useChirality: bool)
    ensures forall h :: h in ConfirmedHits(candidates, fetch, fromSmiles, substructMatch, toJson, queryMol, queryFp, useChirality) ==>
      exists i :: 0 <= i < |candidates| &&
        IdentityMatch(candidates[i], fetch, fromSmiles, substructMatch, toJson, queryMol, queryFp, useChirality) == Ok(Some(h))
    decreases |candidates|
  {
    if |candidates| > 0 {
      var init := candidates[..|candidates| - 1];
      ConfirmedHitsAccepted(init, fetch, fromSmiles, substructMatch, toJson, queryMol, queryFp, useChirality);
      forall h | h in ConfirmedHits(candidates, fetch, fromSmiles, substructMatch, toJson, queryMol, queryFp, useChirality)
        ensures exists i :: (0 <= i < |candidates| &&
          IdentityMatch(candidates[i], fetch, fromSmiles, substructMatch, toJson, queryMol, queryFp, useChirality) == Ok(Some(h)))
      {
        if h in ConfirmedHits(init, fetch, fromSmiles, substructMatch, toJson, queryMol, queryFp, useChirality) {
          var i :| 0 <= i < |init| &&
            IdentityMatch(init[i], fetch, fromSmiles, substructMatch, toJson, queryMol, queryFp, useChirality) == Ok(Some(h));
          assert candidates[i] == init[i];
        } else {
          assert candidates[|candidates| - 1] == candidates[|candidates| - 1];
        }
      }
    }
  }

  /** A failing candidate contributes nothing and does not disturb the others. */
  lemma FailingCandidateDropped(candidates: seq<DocAddress>, bad: DocAddress, fetch: FetchOracle, fromSmiles: SmilesParser,
                                substructMatch: SubstructOracle, toJson: FieldValue -> Result<Json>,
                                queryMol: Mol, queryFp: Bits, useChirality: bool)
    requires IdentityMatch(bad, fetch, fromSmiles, substructMatch, toJson, queryMol, queryFp, useChirality).Err?
    ensures ConfirmedHits(candidates + [bad], fetch, fromSmiles, substructMatch, toJson, queryMol, queryFp, useChirality)
      == ConfirmedHits(candidates, fetch, fromSmiles, substructMatch, toJson, queryMol, queryFp, useChirality)
  {
    assert (candidates + [bad])[..|candidates|] == candidates;
  }

  /** The candidate loop: each candidate is tested, and the accepted ones are kept in order. */
  method KeepConfirmed(candidates: seq<DocAddress>, fetch: FetchOracle, fromSmiles: SmilesParser,
                       substructMatch: SubstructOracle, toJson: FieldValue -> Result<Json>,
                       queryMol: Mol, queryFp: Bits, useChirality: bool) returns (kept: seq<IdentityHit>)
    ensures kept == ConfirmedHits(candidates, fetch, fromSmiles, substructMatch, toJson, queryMol, queryFp, useChirality)
  {
    kept := [];
    for i := 0 to |candidates|
      invariant kept == ConfirmedHits(candidates[..i], fetch, fromSmiles, substructMatch, toJson, queryMol, queryFp, useChirality)
    {
      ConfirmedHitsStep(candidates, i, fetch, fromSmiles, substructMatch, toJson, queryMol, queryFp, useChirality);
      var confirmed := IdentityMatch(candidates[i], fetch, fromSmiles, substructMatch, toJson, queryMol, queryFp, useChirality);
      if confirmed.Ok? && confirmed.value.Some? {
        assert Accepted(confirmed) == [confirmed.value.value];
        kept := kept + [confirmed.value.value];
      } else {
        assert Accepted(confirmed) == [];
      }
    }
    assert candidates[..|candidates|] == candidates;
  }

  /** The fields `identity_search` looks up in the searcher's schema. */
  const IDENTITY_FIELDS: seq<string> := ["smiles", "pattern_fingerprint", "extra_data"]

  /** `identity_search`: builds the query, fetches up to 100000 candidates, looks up its
      fields in the searcher's schema (`schemaFields`) and keeps the confirmed
      candidates. The candidate search and the lookups can fail. */
  method IdentitySearchRun(search: BasicSearchOracle, fetch: FetchOracle, fromSmiles: SmilesParser,
                           substructMatch: SubstructOracle, toJson: FieldValue -> Result<Json>,
                           queryMol: Mol, matchingScaffolds: Option<seq<int>>, queryFp: Bits,
                           descriptors: Descriptors, useChirality: bool, extraQuery: string,
                           matchDescriptors: set<string>, schemaFields: seq<string>) returns (r: Result<seq<IdentityHit>>)
    ensures var q := Join(IdentityQueryParts(descriptors, extraQuery, matchingScaffolds, matchDescriptors), AND);
      var initial := search(q, IDENTITY_TANTIVY_LIMIT);
      var missing := FirstMissing(schemaFields, IDENTITY_FIELDS);
      (initial.Err? ==> r.Err?) &&
      (initial.Ok? && missing.Some? ==> r == Err(FieldNotFound(missing.value))) &&
      (initial.Ok? && missing.None? ==>
        r == Ok(ConfirmedHits(initial.value, fetch, fromSmiles, substructMatch, toJson, queryMol, queryFp, useChirality)))
  {
    var query := BuildIdentityQuery(descriptors, extraQuery, matchingScaffolds, matchDescriptors);
    var initial := search(query, IDENTITY_TANTIVY_LIMIT);
    if initial.Err? {
      return Err(initial.error);
    }
    var missing := FirstMissing(schemaFields, IDENTITY_FIELDS);
    if missing.Some? {
      return Err(FieldNotFound(missing.value));
    }
    var kept := KeepConfirmed(initial.value, fetch, fromSmiles, substructMatch, toJson, queryMol, queryFp, useChirality);
    r := Ok(kept);
  }
}
