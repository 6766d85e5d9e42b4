/** Substructure and superstructure search (src/search/structure_search.rs): the two query
    builders, the match direction, and the counted candidate filter. */
module StructureSearch {
  import opened Wrappers
  import opened Text
  import opened Chem
  import opened TantivyDocs
  import opened QueryParts
  import StructureMatching
  import Scaffolds

  const SCAFFOLD_PREFIX: string := "extra_data.scaffolds:"
  const NO_SCAFFOLD: string := "extra_data.scaffolds:-1"
  const TANTIVY_LIMIT: nat := 100000

  /** Exactly the string "substructure" selects substructure search; anything else is
      superstructure search. */
  predicate IsSubstructure(method_: string)
  {
    method_ == "substructure"
  }

  /** Substructure scaffold parts: one per matched id, none when there is no scaffold
      information or no matched scaffold. */
  function SubstructureScaffoldParts(matchingScaffolds: Option<seq<nat>>): seq<string>
  {
    if matchingScaffolds.Some? && |matchingScaffolds.value| > 0 then IdParts(SCAFFOLD_PREFIX, matchingScaffolds.value) else []
  }

  /** The substructure query: extra pieces, lower-bounded descriptor ranges, scaffold ids. */
  function SubstructureQuery(descriptors: Descriptors, extraQuery: string, matchingScaffolds: Option<seq<nat>>,
                             matchDescriptors: set<string>): string
  {
    Join(ExtraPieces(extraQuery) + DescriptorClauses(descriptors, extraQuery, matchDescriptors, AtLeast)
         + SubstructureScaffoldParts(matchingScaffolds), AND)
  }

  /** `build_substructure_query`. */
  method BuildSubstructureQuery(descriptors: Descriptors, extraQuery: string, matchingScaffolds: Option<seq<nat>>,
                                matchDescriptors: set<string>) returns (query: string)
    ensures query == SubstructureQuery(descriptors, extraQuery, matchingScaffolds, matchDescriptors)
  {
    var queryParts := AppendExtraPieces([], extraQuery);
    queryParts := AppendDescriptorClauses(queryParts, descriptors, extraQuery, matchDescriptors, AtLeast);
    ghost var base := queryParts;
    if matchingScaffolds.Some? {
      var scaffolds := matchingScaffolds.value;
      if |scaffolds| > 0 {
        queryParts := AppendIdParts(queryParts, SCAFFOLD_PREFIX, scaffolds);
      }
    }
    assert queryParts == base + SubstructureScaffoldParts(matchingScaffolds);
    assert base == ExtraPieces(extraQuery) + DescriptorClauses(descriptors, extraQuery, matchDescriptors, AtLeast);
    query := Join(queryParts, AND);
  }

  /** No scaffold information and no matched scaffold give the same substructure query:
      neither constrains the scaffolds. */
  lemma SubstructureEmptyScaffolds(descriptors: Descriptors, extraQuery: string, matchDescriptors: set<string>)
    ensures SubstructureQuery(descriptors, extraQuery, Some([]), matchDescriptors)
      == SubstructureQuery(descriptors, extraQuery, None, matchDescriptors)
      == Join(ExtraPieces(extraQuery) + DescriptorClauses(descriptors, extraQuery, matchDescriptors, AtLeast), AND)
  {
    var p := ExtraPieces(extraQuery) + DescriptorClauses(descriptors, extraQuery, matchDescriptors, AtLeast);
    assert p + [] == p;
  }

  /** With matched scaffolds, the substructure query ends with one `extra_data.scaffolds:s`
      part per id, in order. */
  lemma SubstructureScaffoldTail(descriptors: Descriptors, extraQuery: string, ids: seq<nat>, matchDescriptors: set<string>)
    requires |ids| > 0
    ensures var parts := SubstructureScaffoldParts(Some(ids));
      |parts| == |ids| && forall i :: 0 <= i < |ids| ==> parts[i] == "extra_data.scaffolds:" + IntToString(ids[i])
  {
    IdPartsIndex(SCAFFOLD_PREFIX, ids);
  }

  /** The superstructure query before the scaffold clause: extra pieces and upper-bounded
      descriptor ranges. */
  function SuperstructureBase(descriptors: Descriptors, extraQuery: string, matchDescriptors: set<string>): string
  {
    Join(ExtraPieces(extraQuery) + DescriptorClauses(descriptors, extraQuery, matchDescriptors, AtMost), AND)
  }

  /** The superstructure scaffold clause: any scaffold-free compound (`-1`) and, when some
      scaffolds matched, any compound with one of them. */
  function SuperstructureScaffoldClause(matchingScaffolds: Option<seq<nat>>): string
  {
    match matchingScaffolds
    case None => ""
    case Some(ids) =>
      if |ids| == 0 then AND + NO_SCAFFOLD
      else AND + "(" + Join(IdParts(SCAFFOLD_PREFIX, ids) + [NO_SCAFFOLD], " OR ") + ")"
  }

  function SuperstructureQuery(descriptors: Descriptors, extraQuery: string, matchingScaffolds: Option<seq<nat>>,
                               matchDescriptors: set<string>): string
  {
    SuperstructureBase(descriptors, extraQuery, matchDescriptors) + SuperstructureScaffoldClause(matchingScaffolds)
  }

  /** `build_superstructure_query`: the parts joined, then the scaffold clause appended by
      reassigning the query. */
  method BuildSuperstructureQuery(descriptors: Descriptors, extraQuery: string, matchingScaffolds: Option<seq<nat>>,
                                  matchDescriptors: set<string>) returns (query: string)
    ensures query == SuperstructureQuery(descriptors, extraQuery, matchingScaffolds, matchDescriptors)
  {
    var queryParts := AppendExtraPieces([], extraQuery);
    assert queryParts == ExtraPieces(extraQuery);
    queryParts := AppendDescriptorClauses(queryParts, descriptors, extraQuery, matchDescriptors, AtMost);
    query := Join(queryParts, AND);
    ghost var base := query;
    assert base == SuperstructureBase(descriptors, extraQuery, matchDescriptors);
    if matchingScaffolds.Some? {
      var scaffolds := matchingScaffolds.value;
      var clause;
      if |scaffolds| == 0 {
        clause := AND + NO_SCAFFOLD;
      } else {
        var scaffoldParts := AppendIdParts([], SCAFFOLD_PREFIX, scaffolds);
        assert scaffoldParts == IdParts(SCAFFOLD_PREFIX, scaffolds);
        scaffoldParts := scaffoldParts + [NO_SCAFFOLD];
        var scaffoldsQuery := Join(scaffoldParts, " OR ");
        clause := AND + "(" + scaffoldsQuery + ")";
      }
      assert clause == SuperstructureScaffoldClause(matchingScaffolds);
      query := query + clause;
    } else {
      assert query == base + SuperstructureScaffoldClause(matchingScaffolds);
    }
  }

  /** The scaffold clause is appended to the base query whatever the base is, so with no
      extra query and no eligible descriptor the query begins with " AND ". */
  lemma SuperstructureLeadingAnd(descriptors: Descriptors, matchingScaffolds: Option<seq<nat>>, matchDescriptors: set<string>)
    requires matchingScaffolds.Some?
    requires forall i :: 0 <= i < |descriptors| ==> descriptors[i].0 !in matchDescriptors
    ensures StartsWith(SuperstructureQuery(descriptors, "", matchingScaffolds, matchDescriptors), " AND ")
  {
    NoEligibleNoClauses(descriptors, "", matchDescriptors, AtMost);
    assert SuperstructureBase(descriptors, "", matchDescriptors) == "";
    var q := SuperstructureQuery(descriptors, "", matchingScaffolds, matchDescriptors);
    assert q == SuperstructureScaffoldClause(matchingScaffolds);
    assert q[..5] == AND;
  }

  /** No matched scaffold appends exactly " AND extra_data.scaffolds:-1". */
  lemma SuperstructureNoMatchedScaffold(descriptors: Descriptors, extraQuery: string, matchDescriptors: set<string>)
    ensures SuperstructureQuery(descriptors, extraQuery, Some([]), matchDescriptors)
      == SuperstructureBase(descriptors, extraQuery, matchDescriptors) + " AND extra_data.scaffolds:-1"
  {
    assert SuperstructureScaffoldClause(Some([])) == AND + NO_SCAFFOLD;
    assert AND + NO_SCAFFOLD == " AND extra_data.scaffolds:-1";
  }

  /** With matched scaffolds the OR-group lists every id in order and always ends with the
      scaffold-free alternative `-1`. */
  lemma SuperstructureScaffoldGroup(ids: seq<nat>)
    requires |ids| > 0
    ensures var group := IdParts(SCAFFOLD_PREFIX, ids) + [NO_SCAFFOLD];
      |group| == |ids| + 1 && group[|ids|] == "extra_data.scaffolds:-1" &&
      forall i :: 0 <= i < |ids| ==> group[i] == "extra_data.scaffolds:" + IntToString(ids[i])
  {
    var parts := IdParts(SCAFFOLD_PREFIX, ids);
    var group := parts + [NO_SCAFFOLD];
    IdPartsIndex(SCAFFOLD_PREFIX, ids);
    forall i | 0 <= i < |ids|
      ensures group[i] == "extra_data.scaffolds:" + IntToString(ids[i])
    {
      assert group[i] == parts[i];
    }
  }

  /** Without scaffold information the superstructure query is its base. */
  lemma SuperstructureNoScaffolds(descriptors: Descriptors, extraQuery: string, matchDescriptors: set<string>)
    ensures SuperstructureQuery(descriptors, extraQuery, None, matchDescriptors) == SuperstructureBase(descriptors, extraQuery, matchDescriptors)
  {
    assert SuperstructureBase(descriptors, extraQuery, matchDescriptors) + "" == SuperstructureBase(descriptors, extraQuery, matchDescriptors);
  }

  /** The query `structure_search` builds for a method string. */
  function QueryFor(method_: string, descriptors: Descriptors, extraQuery: string, matchingScaffolds: Option<seq<nat>>,
                    matchDescriptors: set<string>): string
  {
    if IsSubstructure(method_) then SubstructureQuery(descriptors, extraQuery, matchingScaffolds, matchDescriptors)
    else SuperstructureQuery(descriptors, extraQuery, matchingScaffolds, matchDescriptors)
  }

  /** What `structure_match` needs besides the document: the oracles and the query. */
  datatype MatchContext = MatchContext(
    fetch: FetchOracle,
    fromSmiles: SmilesParser,
    substructMatch: SubstructOracle,
    serialize: SerializeOracle,
    queryMol: Mol,
    queryFp: Bits,
    method_: string,
    useChirality: bool)

  /** The fingerprint prefilter: for substructure search the query's bits must be within
      the candidate's, for superstructure search the candidate's within the query's. */
  function FingerprintDirection(method_: string, queryFp: Bits, candidateFp: Bits): (r: bool)
    ensures IsSubstructure(method_) ==> (r <==> StructureMatching.IsBitSubset(queryFp, candidateFp))
    ensures !IsSubstructure(method_) ==> (r <==> StructureMatching.IsBitSubset(candidateFp, queryFp))
  {
    if IsSubstructure(method_) then StructureMatching.SubstructureMatchFp(queryFp, candidateFp)
    else StructureMatching.SubstructureMatchFp(candidateFp, queryFp)
  }

  /** The oracle test: for substructure search the query is found in the candidate, for
      superstructure search the candidate is found in the query. */
  function MolDirection(ctx: MatchContext, candidate: Mol): bool
  {
    if IsSubstructure(ctx.method_) then ctx.substructMatch(candidate, ctx.queryMol, ctx.useChirality)
    else ctx.substructMatch(ctx.queryMol, candidate, ctx.useChirality)
  }

  /** `structure_match`: a hit is the stored SMILES and the serialized extra data ("" when
      absent). */
  function StructureMatch(addr: DocAddress, ctx: MatchContext): Result<Option<(string, string)>>
  {
    match ctx.fetch(addr)
    case Err(e) => Err(e)
    case Ok(doc) =>
      match TextField(doc, "smiles")
      case Err(e) => Err(e)
      case Ok(smiles) =>
        match BytesField(doc, "fingerprint")
        case Err(e) => Err(e)
        case Ok(fp) =>
          if FingerprintDirection(ctx.method_, ctx.queryFp, fp) then
            match ctx.fromSmiles(smiles)
            case Err(e) => Err(e)
            case Ok(mol) =>
              if MolDirection(ctx, mol) && ctx.queryMol.smiles != smiles then
                match GetFirst(doc, "extra_data")
                case None => Ok(Some((smiles, "")))
                case Some(v) =>
                  match ctx.serialize(v)
                  case Err(e) => Err(e)
                  case Ok(text) => Ok(Some((smiles, text)))
              else Ok(None)
          else Ok(None)
  }

  /** A hit passed both directional tests, is never the query itself, and carries "" when
      the document has no extra data. */
  lemma StructureMatchAccepted(addr: DocAddress, ctx: MatchContext)
    ensures var r := StructureMatch(addr, ctx);
      r.Ok? && r.value.Some? ==>
        var doc := ctx.fetch(addr).value;
        var hit := r.value.value;
        ctx.fetch(addr).Ok? && TextField(doc, "smiles") == Ok(hit.0) &&
        BytesField(doc, "fingerprint").Ok? &&
        FingerprintDirection(ctx.method_, ctx.queryFp, BytesField(doc, "fingerprint").value) &&
        ctx.fromSmiles(hit.0).Ok? && MolDirection(ctx, ctx.fromSmiles(hit.0).value) &&
        hit.0 != ctx.queryMol.smiles &&
        ("extra_data" !in doc ==> hit.1 == "")
  {
  }

  /** Any method string other than "substructure" behaves exactly as "superstructure", in
      the query and in the match. */
  lemma OtherMethodsAreSuperstructure(method_: string, addr: DocAddress, ctx: MatchContext, descriptors: Descriptors,
                                      extraQuery: string, matchingScaffolds: Option<seq<nat>>, matchDescriptors: set<string>)
    requires method_ != "substructure"
    ensures QueryFor(method_, descriptors, extraQuery, matchingScaffolds, matchDescriptors)
      == QueryFor("superstructure", descriptors, extraQuery, matchingScaffolds, matchDescriptors)
    ensures StructureMatch(addr, ctx.(method_ := method_)) == StructureMatch(addr, ctx.(method_ := "superstructure"))
  {
    var c1 := ctx.(method_ := method_);
    var c2 := ctx.(method_ := "superstructure");
    forall fp: Bits ensures FingerprintDirection(method_, ctx.queryFp, fp) == FingerprintDirection("superstructure", ctx.queryFp, fp) { }
    forall m: Mol ensures MolDirection(c1, m) == MolDirection(c2, m) { }
  }

  /** The sequential reading of the candidate filter: the hits kept and the counter of
      candidates that matched without error. Once the counter exceeds the limit the rest
      are skipped. */
  function FilterCandidates(candidates: seq<DocAddress>, ctx: MatchContext, resultLimit: nat): (set<(string, string)>, nat)
  {
    if |candidates| == 0 then ({}, 0)
    else
      var (acc, num) := FilterCandidates(candidates[..|candidates| - 1], ctx, resultLimit);
      if num > resultLimit then (acc, num)
      else
        match StructureMatch(candidates[|candidates| - 1], ctx)
        case Ok(Some(hit)) => (acc + {hit}, num + 1)
        case Ok(None) => (acc, num + 1)
        case Err(_) => (acc, num)
  }

  /** The counter stops at one past the limit and never undercounts the hits. */
  lemma {:induction false} FilterCandidatesBounds(candidates: seq<DocAddress>, ctx: MatchContext, resultLimit: nat)
    ensures var (acc, num) := FilterCandidates(candidates, ctx, resultLimit);
      num <= resultLimit + 1 && |acc| <= num
    decreases |candidates|
  {
    if |candidates| > 0 {
      var init := candidates[..|candidates| - 1];
      FilterCandidatesBounds(init, ctx, resultLimit);
      var (acc, num) := FilterCandidates(init, ctx, resultLimit);
      if num <= resultLimit {
        match StructureMatch(candidates[|candidates| - 1], ctx)
        case Ok(Some(hit)) => assert |acc + {hit}| <= |acc| + 1;
        case Ok(None) =>
        case Err(_) =>
      }
    }
  }

  /** One more candidate: nothing changes once the count has passed the limit; otherwise an
      error leaves the state alone, a rejection counts, and an acceptance counts and adds. */
  lemma FilterCandidatesStep(candidates: seq<DocAddress>, i: nat, ctx: MatchContext, resultLimit: nat)
    requires i < |candidates|
    ensures var (acc, num) := FilterCandidates(candidates[..i], ctx, resultLimit);
      FilterCandidates(candidates[..i + 1], ctx, resultLimit) ==
        if num > resultLimit then (acc, num)
        else
          var test := StructureMatch(candidates[i], ctx);
          if test.Err? then (acc, num)
          else if test.value.Some? then (acc + {test.value.value}, num + 1)
          else (acc, num + 1)
  {
    assert candidates[..i + 1][..i] == candidates[..i];
  }

  /** The candidate loop: each candidate is tested while the count is within the limit. */
  method FilterLoop(candidates: seq<DocAddress>, ctx: MatchContext, resultLimit: nat)
    returns (results: set<(string, string)>, num: nat)
    ensures (results, num) == FilterCandidates(candidates, ctx, resultLimit)
  {
    results, num := {}, 0;
    for i := 0 to |candidates|
      invariant (results, num) == FilterCandidates(candidates[..i], ctx, resultLimit)
    {
      FilterCandidatesStep(candidates, i, ctx, resultLimit);
      if num <= resultLimit {
        var structMatch := StructureMatch(candidates[i], ctx);
        if structMatch.Ok? {
          num := num + 1;
          if structMatch.value.Some? {
            results := results + {structMatch.value.value};
          }
        }
      }
    }
    assert candidates[..|candidates|] == candidates;
  }

  /** The fields `structure_search` looks up in the searcher's schema. */
  const STRUCTURE_FIELDS: seq<string> := ["smiles", "fingerprint", "extra_data"]

  /** `structure_search`: properties, scaffold prefilter (when asked), query, candidate
      search, field lookups in the searcher's schema (`schemaFields`) and filter. The
      candidate search and the lookups can fail. */
  method StructureSearchRun(search: BasicSearchOracle, properties: PropertiesOracle, scaffolds: seq<Scaffolds.Scaffold>,
                            ctx: MatchContext, useScaffolds: bool, resultLimit: nat, extraQuery: string,
                            matchDescriptors: set<string>, schemaFields: seq<string>) returns (r: Result<set<(string, string)>>)
    requires ctx.queryFp == properties(ctx.queryMol).0
    ensures var (fp, descriptors) := properties(ctx.queryMol);
      var matched := if useScaffolds then Some(Scaffolds.MatchingScaffolds(scaffolds, fp, ctx.queryMol, ctx.substructMatch)) else None;
      var query := QueryFor(ctx.method_, descriptors, extraQuery, matched, matchDescriptors);
      var initial := search(query, TANTIVY_LIMIT);
      var missing := FirstMissing(schemaFields, STRUCTURE_FIELDS);
      (initial.Err? ==> r.Err?) &&
      (initial.Ok? && missing.Some? ==> r == Err(FieldNotFound(missing.value))) &&
      (initial.Ok? && missing.None? ==> r == Ok(FilterCandidates(initial.value, ctx, resultLimit).0))
    ensures r.Ok? ==> |r.value| <= resultLimit + 1
  {
    var (queryFp, queryDescriptors) := properties(ctx.queryMol);
    var scaffoldMatches: Option<seq<nat>> := None;
    if useScaffolds {
      var found := Scaffolds.ScaffoldSearch(queryFp, ctx.queryMol, scaffolds, ctx.substructMatch);
      scaffoldMatches := Some(found.value);
    }
    var query;
    if ctx.method_ == "substructure" {
      query := BuildSubstructureQuery(queryDescriptors, extraQuery, scaffoldMatches, matchDescriptors);
    } else {
      query := BuildSuperstructureQuery(queryDescriptors, extraQuery, scaffoldMatches, matchDescriptors);
    }
    assert query == QueryFor(ctx.method_, queryDescriptors, extraQuery, scaffoldMatches, matchDescriptors);
    var initial := search(query, TANTIVY_LIMIT);
    if initial.Err? {
      return Err(initial.error);
    }
    var missing := FirstMissing(schemaFields, STRUCTURE_FIELDS);
    if missing.Some? {
      return Err(FieldNotFound(missing.value));
    }
    var results, _ := FilterLoop(initial.value, ctx, resultLimit);
    FilterCandidatesBounds(initial.value, ctx, resultLimit);
    r := Ok(results);
  }
}
