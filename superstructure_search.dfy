/** The standalone superstructure search (src/search/superstructure_search.rs): its own
    query builder and a candidate loop that stops once the result set is full. */
module SuperstructureSearch {
  import opened Wrappers
  import opened Text
  import opened Chem
  import opened TantivyDocs
  import opened QueryParts
  import StructureMatching

  /** The base query (extra pieces and upper-bounded descriptor ranges) joined by " AND ". */
  function BaseQuery(descriptors: Descriptors, extraQuery: string, matchDescriptors: set<string>): string
  {
    Join(ExtraPieces(extraQuery) + DescriptorClauses(descriptors, extraQuery, matchDescriptors, AtMost), AND)
  }

  /** The older scaffold clause: the ids space-separated, then the empty-string literal for
      compounds without scaffolds, all in one parenthesised group. */
  function ScaffoldGroup(ids: seq<nat>): string
  {
    " AND extra_data.scaffolds:(" + Join(IdParts("", ids), " ") + " \"\")"
  }

  function OldSuperstructureQuery(descriptors: Descriptors, extraQuery: string, matchingScaffolds: Option<seq<nat>>,
                                  matchDescriptors: set<string>): string
  {
    BaseQuery(descriptors, extraQuery, matchDescriptors) + (if matchingScaffolds.Some? then ScaffoldGroup(matchingScaffolds.value) else "")
  }

  /** `build_superstructure_query` of this file. */
  method BuildSuperstructureQuery(descriptors: Descriptors, extraQuery: string, matchingScaffolds: Option<seq<nat>>,
                                  matchDescriptors: set<string>) returns (query: string)
    ensures query == OldSuperstructureQuery(descriptors, extraQuery, matchingScaffolds, matchDescriptors)
  {
    var queryParts := AppendExtraPieces([], extraQuery);
    assert queryParts == ExtraPieces(extraQuery);
    queryParts := AppendDescriptorClauses(queryParts, descriptors, extraQuery, matchDescriptors, AtMost);
    query := Join(queryParts, AND);
    assert query == BaseQuery(descriptors, extraQuery, matchDescriptors);
    if matchingScaffolds.Some? {
      var scaffolds := Join(IdParts("", matchingScaffolds.value), " ");
      var group := " AND extra_data.scaffolds:(" + scaffolds + " \"\")";
      assert group == ScaffoldGroup(matchingScaffolds.value);
      query := query + group;
    } else {
      assert query + "" == query;
    }
  }

  /** The rendering of `{NumAtoms: 10}` with scaffolds 0 and 1. */
  lemma OldSuperstructureQueryExample(matchDescriptors: set<string>)
    requires "NumAtoms" in matchDescriptors
    ensures OldSuperstructureQuery([("NumAtoms", DescriptorValue(10.0, "10"))], "", Some([0, 1]), matchDescriptors)
      == "NumAtoms:[0 TO 10]" + " AND extra_data.scaffolds:(0 1 \"\")"
  {
    BaseQueryExample(matchDescriptors);
    ScaffoldGroupExample();
  }

  lemma BaseQueryExample(matchDescriptors: set<string>)
    requires "NumAtoms" in matchDescriptors
    ensures BaseQuery([("NumAtoms", DescriptorValue(10.0, "10"))], "", matchDescriptors) == "NumAtoms:[0 TO 10]"
  {
    var ds := [("NumAtoms", DescriptorValue(10.0, "10"))];
    assert ds[..0] == [];
    assert !Contains("", "NumAtoms:") by { IndexOfSpec("", "NumAtoms:"); }
    assert Eligible("NumAtoms", "", matchDescriptors);
    assert DescriptorClause(AtMost, "NumAtoms", DescriptorValue(10.0, "10")) == "NumAtoms:[0 TO 10]";
    assert DescriptorClauses(ds, "", matchDescriptors, AtMost) == DescriptorClauses([], "", matchDescriptors, AtMost) + ["NumAtoms:[0 TO 10]"];
  }

  lemma ScaffoldGroupExample()
    ensures ScaffoldGroup([0, 1]) == " AND extra_data.scaffolds:(0 1 \"\")"
  {
    var ids: seq<nat> := [0, 1];
    var one: seq<int> := [0];
    assert IdParts("", []) == [];
    assert IdParts("", one) == IdParts("", one[..0]) + ["" + IntToString(0)];
    assert "" + IntToString(0) == "0" && "" + IntToString(1) == "1";
    assert IdParts("", one) == ["0"];
    assert ids[..1] == one;
    assert IdParts("", ids) == IdParts("", one) + ["" + IntToString(1)];
    assert IdParts("", ids) == ["0", "1"];
    assert Join(["0", "1"], " ") == "0 1";
  }

  /** `tantivy_limit = 10 * result_limit`: how many candidates `basic_search` is asked
      for; the filter loop itself stops at `result_limit`. */
  function TantivyLimit(resultLimit: nat): nat
  {
    10 * resultLimit
  }

  /** The per-candidate test: fetch and read errors propagate; otherwise the candidate is
      accepted when its fingerprint is within the query's, the query contains it (default
      parameters, no chirality), and it is not the query itself. */
  function Accepts(addr: DocAddress, fetch: FetchOracle, fromSmiles: SmilesParser, substructMatch: SubstructOracle,
                   queryMol: Mol, queryFp: Bits): Result<bool>
  {
    match fetch(addr)
    case Err(e) => Err(e)
    case Ok(doc) =>
      match TextField(doc, "smiles")
      case Err(e) => Err(e)
      case Ok(smiles) =>
        match BytesField(doc, "fingerprint")
        case Err(e) => Err(e)
        case Ok(fp) =>
          if StructureMatching.SubstructureMatchFp(fp, queryFp) then
            match fromSmiles(smiles)
            case Err(e) => Err(e)
            case Ok(mol) => Ok(substructMatch(queryMol, mol, false) && queryMol.smiles != smiles)
          else Ok(false)
  }

  /** The loop from a given result set over the remaining candidates: it stops when the
      set has reached the limit or the candidates run out, and any error ends the search. */
  function Filter(results: set<DocAddress>, candidates: seq<DocAddress>, fetch: FetchOracle, fromSmiles: SmilesParser,
                  substructMatch: SubstructOracle, queryMol: Mol, queryFp: Bits, resultLimit: nat): (r: Result<set<DocAddress>>)
    ensures |results| <= resultLimit ==> (r.Ok? ==> |r.value| <= resultLimit)
    ensures r.Ok? ==> results <= r.value
    decreases |candidates|
  {
    if |candidates| == 0 || |results| >= resultLimit then Ok(results)
    else
      match Accepts(candidates[0], fetch, fromSmiles, substructMatch, queryMol, queryFp)
      case Err(e) => Err(e)
      case Ok(accepted) =>
        Filter(if accepted then results + {candidates[0]} else results, candidates[1..],
               fetch, fromSmiles, substructMatch, queryMol, queryFp, resultLimit)
  }

  /** Every address returned is an accepted candidate (or was already in the set). */
  lemma {:induction false} FilterSound(results: set<DocAddress>, candidates: seq<DocAddress>, fetch: FetchOracle, fromSmiles: SmilesParser,
                                       substructMatch: SubstructOracle, queryMol: Mol, queryFp: Bits, resultLimit: nat)
    ensures var r := Filter(results, candidates, fetch, fromSmiles, substructMatch, queryMol, queryFp, resultLimit);
      r.Ok? ==> forall a :: a in r.value && a !in results ==>
        a in candidates && Accepts(a, fetch, fromSmiles, substructMatch, queryMol, queryFp) == Ok(true)
    decreases |candidates|
  {
    if |candidates| > 0 && |results| < resultLimit {
      var acc := Accepts(candidates[0], fetch, fromSmiles, substructMatch, queryMol, queryFp);
      if acc.Ok? {
        var next := if acc.value then results + {candidates[0]} else results;
        FilterSound(next, candidates[1..], fetch, fromSmiles, substructMatch, queryMol, queryFp, resultLimit);
        var r := Filter(results, candidates, fetch, fromSmiles, substructMatch, queryMol, queryFp, resultLimit);
        if r.Ok? {
          forall a | a in r.value && a !in results
            ensures a in candidates && Accepts(a, fetch, fromSmiles, substructMatch, queryMol, queryFp) == Ok(true)
          {
            if a !in next {
              assert a in candidates[1..];
            }
          }
        }
      }
    }
  }

  /** The fields `superstructure_search` looks up in the searcher's schema. */
  const SUPERSTRUCTURE_FIELDS: seq<string> := ["smiles", "fingerprint"]

  /** `superstructure_search`: asks Tantivy for 10 × result_limit candidates, looks up its
      fields in the searcher's schema (`schemaFields`) and runs the loop. */
  method SuperstructureSearchRun(search: BasicSearchOracle, fetch: FetchOracle, fromSmiles: SmilesParser,
                                 substructMatch: SubstructOracle, queryMol: Mol, matchingScaffolds: Option<seq<nat>>,
                                 queryFp: Bits, descriptors: Descriptors, resultLimit: nat, extraQuery: string,
                                 matchDescriptors: set<string>, schemaFields: seq<string>) returns (r: Result<set<DocAddress>>)
    ensures var query := OldSuperstructureQuery(descriptors, extraQuery, matchingScaffolds, matchDescriptors);
      var initial := search(query, 10 * resultLimit);
      var missing := FirstMissing(schemaFields, SUPERSTRUCTURE_FIELDS);
      (initial.Err? ==> r.Err?) &&
      (initial.Ok? && missing.Some? ==> r == Err(FieldNotFound(missing.value))) &&
      (initial.Ok? && missing.None? ==> r == Filter({}, initial.value, fetch, fromSmiles, substructMatch, queryMol, queryFp, resultLimit))
    ensures r.Ok? ==> |r.value| <= resultLimit
  {
    var query := BuildSuperstructureQuery(descriptors, extraQuery, matchingScaffolds, matchDescriptors);
    var initial := search(query, TantivyLimit(resultLimit));
    if initial.Err? {
      return Err(initial.error);
    }
    var missing := FirstMissing(schemaFields, SUPERSTRUCTURE_FIELDS);
    if missing.Some? {
      return Err(FieldNotFound(missing.value));
    }
    var candidates := initial.value;
    var results: set<DocAddress> := {};
    var i := 0;
    while i < |candidates|
      invariant 0 <= i <= |candidates|
      invariant Filter(results, candidates[i..], fetch, fromSmiles, substructMatch, queryMol, queryFp, resultLimit)
        == Filter({}, candidates, fetch, fromSmiles, substructMatch, queryMol, queryFp, resultLimit)
      invariant |results| <= resultLimit
    {
      if |results| >= resultLimit {
        break;
      }
      var accepted := Accepts(candidates[i], fetch, fromSmiles, substructMatch, queryMol, queryFp);
      if accepted.Err? {
        return Err(accepted.error);
      }
      assert candidates[i..][1..] == candidates[i + 1..];
      if accepted.value {
        results := results + {candidates[i]};
      }
      i := i + 1;
    }
    r := Ok(results);
  }
}

/** The oldest query builder (src/search/substructure_search.rs): a fixed allow list and
    lower-bounded ranges written with a space after the colon. */
module SubstructureSearch {
  import opened Text
  import opened Chem

  /** `DESCRIPTOR_ALLOW_LIST`: twenty descriptor names. */
  const DESCRIPTOR_ALLOW_LIST: seq<string> := [
    "NumAliphaticHeterocycles", "NumAliphaticRings", "NumAmideBonds", "NumAromaticHeterocycles",
    "NumAromaticRings", "NumAtomStereoCenters", "NumAtoms", "NumBridgeheadAtoms", "NumHBA",
    "NumHeavyAtoms", "NumHeteroatoms", "NumHeterocycles", "NumRings", "NumRotatableBonds",
    "NumSaturatedHeterocycles", "NumSaturatedRings", "NumSpiroAtoms",
    "NumUnspecifiedAtomStereoCenters", "exactmw", "lipinskiHBA"]

  /** The parts of the allowed descriptors, in the map's order. */
  function AllowedParts(descriptors: Descriptors): seq<string>
  {
    if |descriptors| == 0 then []
    else
      var (k, v) := descriptors[|descriptors| - 1];
      AllowedParts(descriptors[..|descriptors| - 1]) + (if k in DESCRIPTOR_ALLOW_LIST then [k + ": [" + v.display + " TO 10000]"] else [])
  }

  /** One part per allowed key: the part count is the number of keys on the allow list. */
  function CountAllowed(descriptors: Descriptors): nat
  {
    if |descriptors| == 0 then 0
    else CountAllowed(descriptors[..|descriptors| - 1]) + (if descriptors[|descriptors| - 1].0 in DESCRIPTOR_ALLOW_LIST then 1 else 0)
  }

  lemma {:induction false} AllowedPartsCount(descriptors: Descriptors)
    ensures |AllowedParts(descriptors)| == CountAllowed(descriptors)
    decreases |descriptors|
  {
    if |descriptors| > 0 {
      AllowedPartsCount(descriptors[..|descriptors| - 1]);
    }
  }

  /** `build_query`: pushes a part per allowed descriptor and joins them with " AND ". */
  method BuildQuery(descriptors: Descriptors) returns (query: string)
    ensures query == Join(AllowedParts(descriptors), " AND ")
  {
    var queryParts: seq<string> := [];
    var i := 0;
    while i < |descriptors|
      invariant 0 <= i <= |descriptors|
      invariant queryParts == AllowedParts(descriptors[..i])
    {
      assert descriptors[..i + 1][..i] == descriptors[..i];
      var (k, v) := descriptors[i];
      if k in DESCRIPTOR_ALLOW_LIST {
        queryParts := queryParts + [k + ": [" + v.display + " TO 10000]"];
      }
      i := i + 1;
    }
    assert descriptors[..|descriptors|] == descriptors;
    query := Join(queryParts, " AND ");
  }

  /** `NumHBD` and `CrippenClogP` are not on the list, so they never contribute. */
  lemma NotAllowed()
    ensures "NumHBD" !in DESCRIPTOR_ALLOW_LIST && "CrippenClogP" !in DESCRIPTOR_ALLOW_LIST
    ensures |DESCRIPTOR_ALLOW_LIST| == 20
  {
  }

  /** With no allowed descriptor the query is empty. */
  lemma {:induction false} NoAllowedEmpty(descriptors: Descriptors)
    requires forall i :: 0 <= i < |descriptors| ==> descriptors[i].0 !in DESCRIPTOR_ALLOW_LIST
    ensures Join(AllowedParts(descriptors), " AND ") == ""
    ensures AllowedParts(descriptors) == []
    decreases |descriptors|
  {
    if |descriptors| > 0 {
      NoAllowedEmpty(descriptors[..|descriptors| - 1]);
    }
  }

  /** A single descriptor contributes its part exactly when it is on the list. */
  lemma AllowedPartsSingle(d: (string, DescriptorValue))
    ensures AllowedParts([d]) == if d.0 in DESCRIPTOR_ALLOW_LIST then [d.0 + ": [" + d.1.display + " TO 10000]"] else []
  {
    assert [d][..0] == [];
  }

  lemma ExampleNamesAllowed()
    ensures "exactmw" in DESCRIPTOR_ALLOW_LIST && "NumAtoms" in DESCRIPTOR_ALLOW_LIST
  {
    assert DESCRIPTOR_ALLOW_LIST[18] == "exactmw";
    assert DESCRIPTOR_ALLOW_LIST[6] == "NumAtoms";
  }

  lemma ExampleParts(d0: (string, DescriptorValue), d1: (string, DescriptorValue))
    requires d0 == ("exactmw", DescriptorValue(136.2, "136.2")) && d1 == ("NumAtoms", DescriptorValue(10.0, "10"))
    ensures AllowedParts([d0, d1]) == ["exactmw: [136.2 TO 10000]", "NumAtoms: [10 TO 10000]"]
  {
    ExampleNamesAllowed();
    AllowedPartsSingle(d0);
    ExactmwPart();
    NumAtomsPart();
    assert [d0, d1][..1] == [d0];
  }

  lemma ExactmwPart()
    ensures "exactmw" + ": [" + "136.2" + " TO 10000]" == "exactmw: [136.2 TO 10000]"
  {
  }

  lemma NumAtomsPart()
    ensures "NumAtoms" + ": [" + "10" + " TO 10000]" == "NumAtoms: [10 TO 10000]"
  {
  }

  /** The rendering of `{exactmw: 136.2, NumAtoms: 10}` in that iteration order. */
  lemma BuildQueryExample()
    ensures Join(AllowedParts([("exactmw", DescriptorValue(136.2, "136.2")), ("NumAtoms", DescriptorValue(10.0, "10"))]), " AND ")
      == "exactmw: [136.2 TO 10000]" + " AND " + "NumAtoms: [10 TO 10000]"
  {
    ExampleParts(("exactmw", DescriptorValue(136.2, "136.2")), ("NumAtoms", DescriptorValue(10.0, "10")));
    var p0 := "exactmw: [136.2 TO 10000]";
    var p1 := "NumAtoms: [10 TO 10000]";
    assert Join([p0, p1], " AND ") == p0 + " AND " + p1;
  }
}
