/** `v1_index_search_structure` (src/rest_api/api/search/structure_search.rs): validation,
    the canonical search, the capped tautomer merge and the final truncation. Opening the
    index and its reader are I/O and are not part of this model. */
module RestStructureSearch {
  import opened Wrappers
  import opened Chem
  import opened TautomerLoops
  import ApiV1

  /** The calls the handler makes: `validate_structure`, `standardize_smiles`,
      `structure_search` for the request, `get_tautomers` and `aggregate_search_hits`
      (with the query SMILES bound). */
  datatype Oracles<!T, H> = Oracles(
    validate: string -> Result<seq<string>>,
    standardize: string -> Result<Mol>,
    search: ApiV1.StructureRequest -> Mol -> Result<set<T>>,
    tautomers: Mol -> seq<Mol>,
    aggregate: (set<T>, bool) -> Result<seq<H>>)

  /** A structure is refused when validation fails or reports any problem. */
  predicate ProblemsExist(problems: Result<seq<string>>)
  {
    problems.Err? || |problems.value| > 0
  }

  /** The tautomer pass: only when the first pass is below the limit and the tautomer
      limit is positive, the first `min(#tautomers, tautomer_limit)` tautomers are
      searched, failures dropped, and the result sets merged whole while the count is
      below the limit; tautomers count as used when the hits grew. */
  function CappedPass<T>(first: set<T>, tauts: seq<Mol>, search: Mol -> Result<set<T>>,
                         resultLimit: nat, tautomerLimit: nat): (set<T>, bool)
  {
    if |first| < resultLimit && tautomerLimit > 0 && |tauts| > 0 then
      var merged := CappedMerge(first, Searched(Take(tauts, tautomerLimit), search), resultLimit);
      (merged, |merged| > |first|)
    else (first, false)
  }

  /** The pass keeps the first hits, adds only hits of the first `tautomer_limit`
      tautomers' successful searches, merges all of those when it ends below the limit,
      and marks tautomers used exactly when the hits changed; it does nothing unless the
      first pass is below the limit and the tautomer limit positive. */
  lemma CappedPassSpec<T>(first: set<T>, tauts: seq<Mol>, search: Mol -> Result<set<T>>,
                          resultLimit: nat, tautomerLimit: nat, x: T)
    ensures var (merged, used) := CappedPass(first, tauts, search, resultLimit, tautomerLimit);
      var tried := Take(tauts, tautomerLimit);
      var found := exists i :: 0 <= i < |tried| && search(tried[i]).Ok? && x in search(tried[i]).value;
      first <= merged &&
      (x in merged ==> x in first || found) &&
      (|merged| < resultLimit ==> (x in merged <==> x in first || found)) &&
      (used <==> merged != first) &&
      (!(|first| < resultLimit && tautomerLimit > 0) ==> merged == first && !used)
  {
    var tried := Take(tauts, tautomerLimit);
    var sets := Searched(tried, search);
    SearchedUnionIff(tried, search, x);
    CappedMergeBounds(first, sets, resultLimit);
    CappedMergeBelowLimit(first, sets, resultLimit);
    var (merged, used) := CappedPass(first, tauts, search, resultLimit, tautomerLimit);
    SupersetLarger(first, merged);
  }

  /** Only the first `tautomer_limit` tautomers are searched: what the search answers for
      the others makes no difference. */
  lemma CappedPassOnlyFront<T>(first: set<T>, tauts: seq<Mol>, search: Mol -> Result<set<T>>, other: Mol -> Result<set<T>>,
                               resultLimit: nat, tautomerLimit: nat)
    requires forall i :: 0 <= i < Min(|tauts|, tautomerLimit) ==> search(tauts[i]) == other(tauts[i])
    ensures CappedPass(first, tauts, search, resultLimit, tautomerLimit) == CappedPass(first, tauts, other, resultLimit, tautomerLimit)
  {
    SearchedAgree(Take(tauts, tautomerLimit), search, other);
  }

  /** The handler: validation, standardization, the first search, the tautomer pass,
      aggregation, then at most `result_limit` hits. */
  function StructureSearch<T, H>(smiles: string, req: ApiV1.StructureRequest, o: Oracles<T, H>): Result<seq<H>>
  {
    if ProblemsExist(o.validate(smiles)) then Err("Failed structure validation")
    else
      match o.standardize(smiles)
      case Err(e) => Err("Failed structure standardization: " + e)
      case Ok(canonical) =>
        match o.search(req)(canonical)
        case Err(e) => Err(e)
        case Ok(first) =>
          var (results, used) := CappedPass(first, o.tautomers(canonical), o.search(req), req.resultLimit, req.tautomerLimit);
          match o.aggregate(results, used)
          case Err(e) => Err(e)
          case Ok(hits) => Ok(Truncate(hits, req.resultLimit))
  }

  /** A structure with validation problems is refused before any search, and an answer
      holds at most `result_limit` hits, a prefix of the aggregated ones. */
  lemma StructureSearchSpec<T, H>(smiles: string, req: ApiV1.StructureRequest, o: Oracles<T, H>)
    ensures ProblemsExist(o.validate(smiles)) ==> StructureSearch(smiles, req, o) == Err("Failed structure validation")
    ensures var r := StructureSearch(smiles, req, o);
      r.Ok? ==> (|r.value| <= req.resultLimit &&
                 exists canonical, first, results, used ::
                   o.standardize(smiles) == Ok(canonical) && o.search(req)(canonical) == Ok(first) &&
                   (results, used) == CappedPass(first, o.tautomers(canonical), o.search(req), req.resultLimit, req.tautomerLimit) &&
                   o.aggregate(results, used).Ok? && r.value <= o.aggregate(results, used).value)
  {
    var r := StructureSearch(smiles, req, o);
    if r.Ok? {
      var canonical := o.standardize(smiles).value;
      var first := o.search(req)(canonical).value;
      var (results, used) := CappedPass(first, o.tautomers(canonical), o.search(req), req.resultLimit, req.tautomerLimit);
      assert o.aggregate(results, used).Ok? && r.value <= o.aggregate(results, used).value;
    }
  }

  /** The handler as written: the tautomer results are collected first, then merged in a
      loop, then the answer is cut. */
  method V1IndexSearchStructure<T, H>(smiles: string, req: ApiV1.StructureRequest, o: Oracles<T, H>)
    returns (r: Result<seq<H>>)
    ensures r == StructureSearch(smiles, req, o)
  {
    if ProblemsExist(o.validate(smiles)) {
      return Err("Failed structure validation");
    }
    var canonical := o.standardize(smiles);
    if canonical.Err? {
      return Err("Failed structure standardization: " + canonical.error);
    }
    var first := o.search(req)(canonical.value);
    if first.Err? {
      return Err(first.error);
    }
    var results := first.value;
    var usedTautomers := false;
    if |first.value| < req.resultLimit && req.tautomerLimit > 0 {
      var tautomers := o.tautomers(canonical.value);
      if |tautomers| > 0 {
        var tautomerResults := Searched(Take(tautomers, req.tautomerLimit), o.search(req));
        results := MergeCapped(results, tautomerResults, req.resultLimit);
        if |results| > |first.value| {
          usedTautomers := true;
        }
      }
    }
    var finalResults := o.aggregate(results, usedTautomers);
    if finalResults.Err? {
      return Err(finalResults.error);
    }
    r := Ok(Truncate(finalResults.value, req.resultLimit));
  }
}

/** `v1_index_search_superstructure` (src/rest_api/api/search/superstructure_search.rs) and
    the command-line `substructure-search` action share one shape: a counted tautomer loop
    and no final truncation. */
module CountedTautomerSearch {
  import opened Wrappers
  import opened Chem
  import opened TautomerLoops

  /** The calls: `prepare_query_structure`, the search with the prepared attributes, the
      search of a tautomer (`get_cpd_properties` then the search; either failing skips
      it), `get_tautomers` and `aggregate_search_hits`. The parameters `P` are what the
      search receives besides the molecule. */
  datatype Oracles<!P, !T, H> = Oracles(
    prepare: string -> Result<Mol>,
    search: P -> Mol -> Result<set<T>>,
    searchTautomer: P -> Mol -> Result<set<T>>,
    tautomers: Mol -> seq<Mol>,
    aggregate: (set<T>, bool) -> Result<seq<H>>)

  /** Preparation, the first search, the counted pass, and aggregation of everything
      found. */
  function CountedSearch<P, T, H>(smiles: string, params: P, resultLimit: nat, tautomerLimit: nat, o: Oracles<P, T, H>)
    : Result<seq<H>>
  {
    match o.prepare(smiles)
    case Err(e) => Err(e)
    case Ok(canonical) =>
      match o.search(params)(canonical)
      case Err(e) => Err(e)
      case Ok(first) =>
        var pass := CountedPass(first, canonical, o.tautomers(canonical), o.searchTautomer(params), resultLimit, tautomerLimit);
        o.aggregate(pass.results, pass.used)
  }

  /** The aggregated hits are those of the counted pass, uncut: they may exceed the
      result limit. */
  lemma CountedSearchSpec<P, T, H>(smiles: string, params: P, resultLimit: nat, tautomerLimit: nat, o: Oracles<P, T, H>)
    ensures var r := CountedSearch(smiles, params, resultLimit, tautomerLimit, o);
      (o.prepare(smiles).Err? ==> r == Err(o.prepare(smiles).error)) &&
      (o.prepare(smiles).Ok? && o.search(params)(o.prepare(smiles).value).Ok? ==>
        var canonical := o.prepare(smiles).value;
        var first := o.search(params)(canonical).value;
        var pass := CountedPass(first, canonical, o.tautomers(canonical), o.searchTautomer(params), resultLimit, tautomerLimit);
        r == o.aggregate(pass.results, pass.used) &&
        first <= pass.results <= first + UsableUnion(o.tautomers(canonical), canonical, o.searchTautomer(params)))
  {
    if o.prepare(smiles).Ok? && o.search(params)(o.prepare(smiles).value).Ok? {
      var canonical := o.prepare(smiles).value;
      var first := o.search(params)(canonical).value;
      CountedPassSpec(first, canonical, o.tautomers(canonical), o.searchTautomer(params), resultLimit, tautomerLimit);
    }
  }

  /** The handler as written, with the loop's `continue` and `break`. */
  method RunCountedSearch<P, T, H>(smiles: string, params: P, resultLimit: nat, tautomerLimit: nat, o: Oracles<P, T, H>)
    returns (r: Result<seq<H>>)
    ensures r == CountedSearch(smiles, params, resultLimit, tautomerLimit, o)
  {
    var prepared := o.prepare(smiles);
    if prepared.Err? {
      return Err(prepared.error);
    }
    var canonical := prepared.value;
    var first := o.search(params)(canonical);
    if first.Err? {
      return Err(first.error);
    }
    var pass := Counted(first.value, if |first.value| > 0 then 1 else 0, false);
    if |first.value| < resultLimit {
      var tautomers := o.tautomers(canonical);
      if |tautomers| > 1 && tautomerLimit > 1 {
        pass := RunCounted(pass, tautomers, canonical, o.searchTautomer(params), resultLimit, tautomerLimit);
      }
    }
    r := o.aggregate(pass.results, pass.used);
  }
}

/** The older `v1_index_search_substructure` (src/rest_api/api/search/substructure_search.rs):
    hits are lists, tautomer lists are appended, at most ten tautomers are tried. */
module RestSubstructureSearch {
  import opened Wrappers
  import opened Chem
  import opened TautomerLoops

  const MAX_TAUTS: nat := 10

  /** Each search asks Tantivy for ten times the limit. */
  function TantivyResultLimit(limit: nat): nat
  {
    limit * 10
  }

  /** The calls: `prepare_query_structure`, `substructure_search` with a candidate limit,
      the tautomer search (`get_cpd_properties` then `substructure_search`),
      `get_tautomers` and `aggregate_search_hits`. */
  datatype Oracles<!T, H> = Oracles(
    prepare: string -> Result<Mol>,
    search: nat -> Mol -> Result<seq<T>>,
    searchTautomer: nat -> Mol -> Result<seq<T>>,
    tautomers: Mol -> seq<Mol>,
    aggregate: (seq<T>, bool) -> Result<seq<H>>)

  /** The tautomer pass: only when the first pass is below the limit, the first ten
      tautomers' lists are appended, skipping failures, until the hits exceed the limit. */
  function AppendPass<T>(first: seq<T>, tauts: seq<Mol>, search: Mol -> Result<seq<T>>, limit: nat): (seq<T>, bool)
  {
    if |first| < limit then AppendSkipping(first, false, Take(tauts, MAX_TAUTS), search, limit)
    else (first, false)
  }

  /** The pass keeps the first hits in front, appends a prefix of the successful lists of
      the first ten tautomers (duplicates kept), all of them unless the limit was passed,
      and is marked used exactly when a tautomer added a hit. */
  lemma AppendPassSpec<T>(first: seq<T>, tauts: seq<Mol>, search: Mol -> Result<seq<T>>, limit: nat)
    ensures var (results, used) := AppendPass(first, tauts, search, limit);
      var all := first + Appended(Take(tauts, MAX_TAUTS), search);
      first <= results &&
      (|first| < limit ==> results <= all && (|results| <= limit ==> results == all)) &&
      (|first| >= limit ==> results == first) &&
      (used <==> |results| > |first|)
  {
    if |first| < limit {
      AppendSkippingSpec(first, false, Take(tauts, MAX_TAUTS), search, limit);
    }
  }

  function SubstructureSearch<T, H>(smile: string, limit: nat, o: Oracles<T, H>): Result<seq<H>>
  {
    match o.prepare(smile)
    case Err(e) => Err(e)
    case Ok(canonical) =>
      match o.search(TantivyResultLimit(limit))(canonical)
      case Err(e) => Err(e)
      case Ok(first) =>
        var (results, used) := AppendPass(first, o.tautomers(canonical), o.searchTautomer(TantivyResultLimit(limit)), limit);
        o.aggregate(results, used)
  }

  /** Every search, the first and each tautomer's, asks for ten times the limit: searches
      that agree at that candidate limit give the same answer. */
  lemma SubstructureSearchUsesTenfold<T, H>(smile: string, limit: nat, o: Oracles<T, H>, other: Oracles<T, H>)
    requires other.prepare == o.prepare && other.tautomers == o.tautomers && other.aggregate == o.aggregate
    requires other.search(10 * limit) == o.search(10 * limit)
    requires other.searchTautomer(10 * limit) == o.searchTautomer(10 * limit)
    ensures SubstructureSearch(smile, limit, o) == SubstructureSearch(smile, limit, other)
  {
    assert TantivyResultLimit(limit) == 10 * limit;
  }

  method V1IndexSearchSubstructure<T, H>(smile: string, limit: nat, o: Oracles<T, H>) returns (r: Result<seq<H>>)
    ensures r == SubstructureSearch(smile, limit, o)
  {
    var prepared := o.prepare(smile);
    if prepared.Err? {
      return Err(prepared.error);
    }
    var canonical := prepared.value;
    var tantivyResultLimit := TantivyResultLimit(limit);
    var first := o.search(tantivyResultLimit)(canonical);
    if first.Err? {
      return Err(first.error);
    }
    var results := first.value;
    var tautomersUsed := false;
    if |results| < limit {
      var tautomers := o.tautomers(canonical);
      results, tautomersUsed := RunAppendSkipping(results, false, Take(tautomers, MAX_TAUTS), o.searchTautomer(tantivyResultLimit), limit);
    }
    r := o.aggregate(results, tautomersUsed);
  }
}

/** `v1_index_search_similarity` (src/rest_api/api/search/similarity_search.rs): the
    canonical tautomer and up to `tautomer_limit` others are fingerprinted, their
    neighbours looked up and ranked, and the answer cut to `result_limit`. */
module RestSimilaritySearch {
  import opened Wrappers
  import opened Chem
  import opened TautomerLoops
  import RestStructureSearch

  /** The calls: `validate_structure`, `standardize_smiles`, `get_tautomers`, the Morgan
      fingerprint, `neighbor_search` and `similarity_search` (search percent, Tanimoto
      minimum, extra query and query SMILES bound). */
  datatype Oracles<H> = Oracles(
    validate: string -> Result<seq<string>>,
    standardize: string -> Result<Mol>,
    tautomers: Mol -> seq<Mol>,
    morgan: Mol -> Bits,
    neighborSearch: seq<Bits> -> Result<set<DocAddress>>,
    similaritySearch: (set<DocAddress>, seq<Bits>) -> Result<seq<H>>)

  /** The fingerprints of the tautomers, in order. */
  function Fingerprints(mols: seq<Mol>, morgan: Mol -> Bits): (r: seq<Bits>)
    ensures |r| == |mols| && forall i :: 0 <= i < |mols| ==> r[i] == morgan(mols[i])
  {
    if |mols| == 0 then [] else [morgan(mols[0])] + Fingerprints(mols[1..], morgan)
  }

  /** A failed neighbour search is an empty candidate set. */
  function Candidates(found: Result<set<DocAddress>>): (r: set<DocAddress>)
    ensures found.Ok? ==> r == found.value
    ensures found.Err? ==> r == {}
  {
    match found
    case Ok(s) => s
    case Err(_) => {}
  }

  function SimilaritySearch<H>(querySmiles: string, resultLimit: nat, tautomerLimit: nat, o: Oracles<H>): Result<seq<H>>
  {
    if RestStructureSearch.ProblemsExist(o.validate(querySmiles)) then Err("Failed structure validation")
    else
      match o.standardize(querySmiles)
      case Err(e) => Err("Failed structure standardization: " + e)
      case Ok(canonical) =>
        var used := SimilarityTautomers(canonical, o.tautomers(canonical), tautomerLimit);
        var fps := Fingerprints(used, o.morgan);
        match o.similaritySearch(Candidates(o.neighborSearch(fps)), fps)
        case Err(e) => Err(e)
        case Ok(hits) => Ok(Truncate(hits, resultLimit))
  }

  /** The fingerprints searched are those of `min(#list, tautomer_limit + 1)` tautomers,
      the canonical one first; the answer is a prefix of the ranked hits, at most
      `result_limit` long. */
  lemma SimilaritySearchSpec<H>(querySmiles: string, resultLimit: nat, tautomerLimit: nat, o: Oracles<H>)
    ensures var r := SimilaritySearch(querySmiles, resultLimit, tautomerLimit, o);
      (RestStructureSearch.ProblemsExist(o.validate(querySmiles)) ==> r == Err("Failed structure validation")) &&
      (r.Ok? ==> (|r.value| <= resultLimit &&
                  exists canonical, fps ::
                    o.standardize(querySmiles) == Ok(canonical) &&
                    fps == Fingerprints(SimilarityTautomers(canonical, o.tautomers(canonical), tautomerLimit), o.morgan) &&
                    |fps| == (if tautomerLimit > 0 then Min(|o.tautomers(canonical)| + 1, tautomerLimit + 1) else 1) &&
                    fps[0] == o.morgan(canonical) &&
                    o.similaritySearch(Candidates(o.neighborSearch(fps)), fps).Ok? &&
                    r.value <= o.similaritySearch(Candidates(o.neighborSearch(fps)), fps).value))
  {
    var r := SimilaritySearch(querySmiles, resultLimit, tautomerLimit, o);
    if r.Ok? {
      var canonical := o.standardize(querySmiles).value;
      SimilarityTautomersSpec(canonical, o.tautomers(canonical), tautomerLimit);
    }
  }

  method V1IndexSearchSimilarity<H>(querySmiles: string, resultLimit: nat, tautomerLimit: nat, o: Oracles<H>)
    returns (r: Result<seq<H>>)
    ensures r == SimilaritySearch(querySmiles, resultLimit, tautomerLimit, o)
  {
    if RestStructureSearch.ProblemsExist(o.validate(querySmiles)) {
      return Err("Failed structure validation");
    }
    var canonical := o.standardize(querySmiles);
    if canonical.Err? {
      return Err("Failed structure standardization: " + canonical.error);
    }
    var tautomers := [canonical.value];
    if tautomerLimit > 0 {
      tautomers := [canonical.value] + o.tautomers(canonical.value);
    }
    var used := tautomers[..Min(|tautomers|, tautomerLimit + 1)];
    var fps := Fingerprints(used, o.morgan);
    var results := Candidates(o.neighborSearch(fps));
    var finalResults := o.similaritySearch(results, fps);
    if finalResults.Err? {
      return Err(finalResults.error);
    }
    r := Ok(Truncate(finalResults.value, resultLimit));
  }
}
