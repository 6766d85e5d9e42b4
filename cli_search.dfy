/** The command-line options the search commands share: the result limit, the tautomer
    limit and the extra query, each with its default. */
module CliArgs {
  import opened Wrappers
  import opened Text

  const DEFAULT_RESULT_LIMIT: nat := 1000
  const DEFAULT_TAUTOMER_LIMIT: nat := 0
  /** `substructure-search` tries tautomers unless told otherwise. */
  const SUBSTRUCTURE_TAUTOMER_LIMIT: nat := 10

  /** `parse::<usize>()` with the text of Rust's `ParseIntError`: the empty text, a
      leading run of digits that reaches 2^64 before any other character, and any other
      malformed text each have their own message. */
  function ParseCount(s: string): (r: Result<nat>)
    ensures r.Ok? <==> ParseUsize(s).Some?
    ensures r.Ok? ==> r.value == ParseUsize(s).value
    ensures r == Err("cannot parse integer from empty string") <==> s == ""
    ensures r == Err("number too large to fit in target type") <==> OverflowingPrefix(UsizeDigits(s))
    ensures r == Err("invalid digit found in string") <==>
      (s != "" && ParseUsize(s).None? && !OverflowingPrefix(UsizeDigits(s)))
  {
    match ParseUsizeKind(s)
    case Parsed(n) => Ok(n)
    case Failed(kind) => Err(IntErrorMessage(kind))
  }

  /** 2^64 is the first count too large for a usize. */
  lemma ParseCountTooLarge()
    ensures ParseCount("18446744073709551616") == Err("number too large to fit in target type")
  {
    ScanTooLarge("18446744073709551616");
  }

  lemma ScanTooLarge(big: string)
    requires big == "18446744073709551616"
    ensures ScanDigits(big, 0, 0) == Failed(PosOverflow)
  {
    assert ScanDigits(big, 0, 0) == ScanDigits(big, 1, 1);
    assert ScanDigits(big, 1, 1) == ScanDigits(big, 2, 18);
    assert ScanDigits(big, 2, 18) == ScanDigits(big, 3, 184);
    assert ScanDigits(big, 3, 184) == ScanDigits(big, 4, 1844);
    assert ScanDigits(big, 4, 1844) == ScanDigits(big, 5, 18446);
    assert ScanDigits(big, 5, 18446) == ScanDigits(big, 6, 184467);
    assert ScanDigits(big, 6, 184467) == ScanDigits(big, 7, 1844674);
    assert ScanDigits(big, 7, 1844674) == ScanDigits(big, 8, 18446744);
    assert ScanDigits(big, 8, 18446744) == ScanDigits(big, 9, 184467440);
    assert ScanDigits(big, 9, 184467440) == ScanDigits(big, 10, 1844674407);
    assert ScanDigits(big, 10, 1844674407) == ScanDigits(big, 11, 18446744073);
    assert ScanDigits(big, 11, 18446744073) == ScanDigits(big, 12, 184467440737);
    assert ScanDigits(big, 12, 184467440737) == ScanDigits(big, 13, 1844674407370);
    assert ScanDigits(big, 13, 1844674407370) == ScanDigits(big, 14, 18446744073709);
    assert ScanDigits(big, 14, 18446744073709) == ScanDigits(big, 15, 184467440737095);
    assert ScanDigits(big, 15, 184467440737095) == ScanDigits(big, 16, 1844674407370955);
    assert ScanDigits(big, 16, 1844674407370955) == ScanDigits(big, 17, 18446744073709551);
    assert ScanDigits(big, 17, 18446744073709551) == ScanDigits(big, 18, 184467440737095516);
    assert ScanDigits(big, 18, 184467440737095516) == ScanDigits(big, 19, 1844674407370955161);
    assert ScanDigits(big, 19, 1844674407370955161) == Failed(PosOverflow);
  }

  /** A letter after digits that already reach 2^64 is never read: the overflow is
      reported. */
  lemma ParseCountOverflowFirst()
    ensures ParseCount("+99999999999999999999x") == Err("number too large to fit in target type")
  {
    assert UsizeDigits("+99999999999999999999x") == "99999999999999999999x";
    ScanOverflowFirst("99999999999999999999x");
  }

  lemma ScanOverflowFirst(digits: string)
    requires digits == "99999999999999999999x"
    ensures ScanDigits(digits, 0, 0) == Failed(PosOverflow)
  {
    assert ScanDigits(digits, 0, 0) == ScanDigits(digits, 1, 9);
    assert ScanDigits(digits, 1, 9) == ScanDigits(digits, 2, 99);
    assert ScanDigits(digits, 2, 99) == ScanDigits(digits, 3, 999);
    assert ScanDigits(digits, 3, 999) == ScanDigits(digits, 4, 9999);
    assert ScanDigits(digits, 4, 9999) == ScanDigits(digits, 5, 99999);
    assert ScanDigits(digits, 5, 99999) == ScanDigits(digits, 6, 999999);
    assert ScanDigits(digits, 6, 999999) == ScanDigits(digits, 7, 9999999);
    assert ScanDigits(digits, 7, 9999999) == ScanDigits(digits, 8, 99999999);
    assert ScanDigits(digits, 8, 99999999) == ScanDigits(digits, 9, 999999999);
    assert ScanDigits(digits, 9, 999999999) == ScanDigits(digits, 10, 9999999999);
    assert ScanDigits(digits, 10, 9999999999) == ScanDigits(digits, 11, 99999999999);
    assert ScanDigits(digits, 11, 99999999999) == ScanDigits(digits, 12, 999999999999);
    assert ScanDigits(digits, 12, 999999999999) == ScanDigits(digits, 13, 9999999999999);
    assert ScanDigits(digits, 13, 9999999999999) == ScanDigits(digits, 14, 99999999999999);
    assert ScanDigits(digits, 14, 99999999999999) == ScanDigits(digits, 15, 999999999999999);
    assert ScanDigits(digits, 15, 999999999999999) == ScanDigits(digits, 16, 9999999999999999);
    assert ScanDigits(digits, 16, 9999999999999999) == ScanDigits(digits, 17, 99999999999999999);
    assert ScanDigits(digits, 17, 99999999999999999) == ScanDigits(digits, 18, 999999999999999999);
    assert ScanDigits(digits, 18, 999999999999999999) == ScanDigits(digits, 19, 9999999999999999999);
    assert ScanDigits(digits, 19, 9999999999999999999) == Failed(PosOverflow);
  }

  /** A letter before the digits reach 2^64 is an invalid digit. */
  lemma ParseCountInvalidDigit()
    ensures ParseCount("12x") == Err("invalid digit found in string")
  {
    var short := "12x";
    assert ScanDigits(short, 0, 0) == ScanDigits(short, 1, 1);
    assert ScanDigits(short, 1, 1) == ScanDigits(short, 2, 12);
    assert ScanDigits(short, 2, 12) == Failed(InvalidDigit);
  }

  /** A count option: parsed when given, the default otherwise. */
  function CountArg(given: Option<string>, default: nat): Result<nat>
  {
    match given
    case Some(s) => ParseCount(s)
    case None => Ok(default)
  }

  datatype Limits = Limits(resultLimit: nat, tautomerLimit: nat, extraQuery: string)

  /** The result limit, then the tautomer limit, then the extra query; the first option
      that does not parse is the error. */
  function ParseLimits(resultArg: Option<string>, tautomerArg: Option<string>, extraArg: Option<string>,
                       defaultTautomerLimit: nat): Result<Limits>
  {
    match CountArg(resultArg, DEFAULT_RESULT_LIMIT)
    case Err(e) => Err(e)
    case Ok(resultLimit) =>
      match CountArg(tautomerArg, defaultTautomerLimit)
      case Err(e) => Err(e)
      case Ok(tautomerLimit) =>
        Ok(Limits(resultLimit, tautomerLimit, if extraArg.Some? then extraArg.value else ""))
  }

  /** Parsing fails exactly when a given count is not a usize; absent options take
      1000, the command's tautomer default and the empty query; given ones are kept. */
  lemma ParseLimitsSpec(resultArg: Option<string>, tautomerArg: Option<string>, extraArg: Option<string>,
                        defaultTautomerLimit: nat)
    ensures var r := ParseLimits(resultArg, tautomerArg, extraArg, defaultTautomerLimit);
      (r.Err? <==> (resultArg.Some? && ParseUsize(resultArg.value).None?) ||
                   (tautomerArg.Some? && ParseUsize(tautomerArg.value).None?)) &&
      (r.Ok? ==>
        r.value.resultLimit == (if resultArg.Some? then ParseUsize(resultArg.value).value else 1000) &&
        r.value.tautomerLimit == (if tautomerArg.Some? then ParseUsize(tautomerArg.value).value else defaultTautomerLimit) &&
        r.value.extraQuery == (if extraArg.Some? then extraArg.value else ""))
  {
  }

  /** A limit written in decimal comes back as given. */
  lemma ParseLimitsOfDecimal(resultLimit: nat, tautomerLimit: nat, defaultTautomerLimit: nat)
    requires resultLimit < USIZE_LIMIT && tautomerLimit < USIZE_LIMIT
    ensures ParseLimits(Some(NatToString(resultLimit)), Some(NatToString(tautomerLimit)), None, defaultTautomerLimit) ==
      Ok(Limits(resultLimit, tautomerLimit, ""))
  {
    ParseUsizeOfNatToString(resultLimit);
    ParseUsizeOfNatToString(tautomerLimit);
  }

  /** With no options, the structure, superstructure and similarity commands use 1000
      results and no tautomers, and substructure 1000 results and ten tautomers. */
  lemma Defaults()
    ensures ParseLimits(None, None, None, DEFAULT_TAUTOMER_LIMIT) == Ok(Limits(1000, 0, ""))
    ensures ParseLimits(None, None, None, SUBSTRUCTURE_TAUTOMER_LIMIT) == Ok(Limits(1000, 10, ""))
  {
  }
}

/** `cli_structure_search` (src/command_line/search/cli_structure_search.rs), which the
    `superstructure-search` action (src/command_line/search/superstructure_search.rs)
    repeats with its own search: every tautomer's result set is unioned in. */
module CliStructureSearch {
  import opened Wrappers
  import opened Chem
  import opened TautomerLoops
  import opened CliArgs
  import ApiV1

  /** What the search receives besides the molecule. */
  datatype SearchParams = SearchParams(method_: string, useScaffolds: bool, resultLimit: nat, extraQuery: string)

  /** The calls: `validate_structure`, `standardize_smiles`, the structure search,
      `get_tautomers` and `aggregate_search_hits` (query SMILES bound). */
  datatype Oracles<!T, H> = Oracles(
    validate: string -> Result<seq<string>>,
    standardize: string -> Result<Mol>,
    search: SearchParams -> Mol -> Result<set<T>>,
    tautomers: Mol -> seq<Mol>,
    aggregate: (set<T>, bool) -> Result<seq<H>>)

  /** The options, the validation, the first search, the union pass and aggregation. */
  function Action<T, H>(method_: string, smiles: string, resultArg: Option<string>, tautomerArg: Option<string>,
                        extraArg: Option<string>, scaffoldsArg: Option<string>, o: Oracles<T, H>): Result<seq<H>>
  {
    match ParseLimits(resultArg, tautomerArg, extraArg, DEFAULT_TAUTOMER_LIMIT)
    case Err(e) => Err(e)
    case Ok(limits) =>
      var params := SearchParams(method_, ApiV1.ScaffoldsFlag(scaffoldsArg), limits.resultLimit, limits.extraQuery);
      match o.validate(smiles)
      case Err(e) => Err(e)
      case Ok(problems) =>
        if |problems| > 0 then Err("Failed structure validation")
        else
          match o.standardize(smiles)
          case Err(e) => Err(e)
          case Ok(canonical) =>
            match o.search(params)(canonical)
            case Err(e) => Err(e)
            case Ok(first) =>
              var (results, used) := UnionPass(first, o.tautomers(canonical), o.search(params), limits.resultLimit, limits.tautomerLimit);
              o.aggregate(results, used)
  }

  /** A structure with problems is refused; otherwise what is aggregated is the first
      hits plus, when the pass runs, every hit of every successful tautomer search, with
      tautomers marked used exactly when they added a hit. The scaffold option is on
      only for "true" or when absent. */
  lemma ActionSpec<T, H>(method_: string, smiles: string, resultArg: Option<string>, tautomerArg: Option<string>,
                         extraArg: Option<string>, scaffoldsArg: Option<string>, o: Oracles<T, H>, x: T)
    requires ParseLimits(resultArg, tautomerArg, extraArg, DEFAULT_TAUTOMER_LIMIT).Ok?
    ensures var limits := ParseLimits(resultArg, tautomerArg, extraArg, DEFAULT_TAUTOMER_LIMIT).value;
      var r := Action(method_, smiles, resultArg, tautomerArg, extraArg, scaffoldsArg, o);
      var params := SearchParams(method_, ApiV1.ScaffoldsFlag(scaffoldsArg), limits.resultLimit, limits.extraQuery);
      (o.validate(smiles).Ok? && |o.validate(smiles).value| > 0 ==> r == Err("Failed structure validation")) &&
      (params.useScaffolds <==> scaffoldsArg.None? || scaffoldsArg.value == "true") &&
      (o.validate(smiles).Ok? && |o.validate(smiles).value| == 0 && o.standardize(smiles).Ok? &&
       o.search(params)(o.standardize(smiles).value).Ok? ==>
        var canonical := o.standardize(smiles).value;
        var first := o.search(params)(canonical).value;
        var tauts := o.tautomers(canonical);
        var (results, used) := UnionPass(first, tauts, o.search(params), limits.resultLimit, limits.tautomerLimit);
        r == o.aggregate(results, used) &&
        (x in results <==> (x in first ||
                            (|first| < limits.resultLimit && |tauts| > 0 && limits.tautomerLimit > 0 &&
                             exists i :: 0 <= i < |tauts| && o.search(params)(tauts[i]).Ok? && x in o.search(params)(tauts[i]).value))) &&
        (used <==> results != first))
  {
    var limits := ParseLimits(resultArg, tautomerArg, extraArg, DEFAULT_TAUTOMER_LIMIT).value;
    var params := SearchParams(method_, ApiV1.ScaffoldsFlag(scaffoldsArg), limits.resultLimit, limits.extraQuery);
    if o.validate(smiles).Ok? && |o.validate(smiles).value| == 0 && o.standardize(smiles).Ok? {
      var canonical := o.standardize(smiles).value;
      var first := o.search(params)(canonical);
      if first.Ok? {
        UnionPassSpec(first.value, o.tautomers(canonical), o.search(params), limits.resultLimit, limits.tautomerLimit, x);
      }
    }
  }

  /** The action as written: the tautomer results are collected, then unioned in a loop. */
  method CliStructureSearchAction<T, H>(method_: string, smiles: string, resultArg: Option<string>, tautomerArg: Option<string>,
                                        extraArg: Option<string>, scaffoldsArg: Option<string>, o: Oracles<T, H>)
    returns (r: Result<seq<H>>)
    ensures r == Action(method_, smiles, resultArg, tautomerArg, extraArg, scaffoldsArg, o)
  {
    var parsed := ParseLimits(resultArg, tautomerArg, extraArg, DEFAULT_TAUTOMER_LIMIT);
    if parsed.Err? {
      return Err(parsed.error);
    }
    var limits := parsed.value;
    var params := SearchParams(method_, ApiV1.ScaffoldsFlag(scaffoldsArg), limits.resultLimit, limits.extraQuery);
    var problems := o.validate(smiles);
    if problems.Err? {
      return Err(problems.error);
    }
    if |problems.value| > 0 {
      return Err("Failed structure validation");
    }
    var canonical := o.standardize(smiles);
    if canonical.Err? {
      return Err(canonical.error);
    }
    var first := o.search(params)(canonical.value);
    if first.Err? {
      return Err(first.error);
    }
    var results := first.value;
    var usedTautomers := false;
    if |first.value| < limits.resultLimit {
      var tautomers := o.tautomers(canonical.value);
      if |tautomers| > 0 && limits.tautomerLimit > 0 {
        var tautomerResults := Searched(tautomers, o.search(params));
        results := MergeAll(results, tautomerResults);
        if |results| > |first.value| {
          usedTautomers := true;
        }
      }
    }
    r := o.aggregate(results, usedTautomers);
  }
}

/** The `substructure-search` action (src/command_line/search/substructure_search.rs): its
    own defaults, then the counted tautomer search. */
module CliSubstructureSearch {
  import opened Wrappers
  import opened CliArgs
  import CountedTautomerSearch

  /** What `substructure_search` receives besides the molecule. */
  datatype SearchParams = SearchParams(resultLimit: nat, extraQuery: string)

  function Action<T, H>(smile: string, resultArg: Option<string>, tautomerArg: Option<string>, extraArg: Option<string>,
                        o: CountedTautomerSearch.Oracles<SearchParams, T, H>): Result<seq<H>>
  {
    match ParseLimits(resultArg, tautomerArg, extraArg, SUBSTRUCTURE_TAUTOMER_LIMIT)
    case Err(e) => Err(e)
    case Ok(limits) =>
      CountedTautomerSearch.CountedSearch(smile, SearchParams(limits.resultLimit, limits.extraQuery),
        limits.resultLimit, limits.tautomerLimit, o)
  }

  /** Without options the action searches with 1000 results, ten tautomers and no extra
      query. */
  lemma ActionDefaults<T, H>(smile: string, o: CountedTautomerSearch.Oracles<SearchParams, T, H>)
    ensures Action(smile, None, None, None, o) == CountedTautomerSearch.CountedSearch(smile, SearchParams(1000, ""), 1000, 10, o)
  {
  }

  method SubstructureSearchAction<T, H>(smile: string, resultArg: Option<string>, tautomerArg: Option<string>,
                                        extraArg: Option<string>, o: CountedTautomerSearch.Oracles<SearchParams, T, H>)
    returns (r: Result<seq<H>>)
    ensures r == Action(smile, resultArg, tautomerArg, extraArg, o)
  {
    var parsed := ParseLimits(resultArg, tautomerArg, extraArg, SUBSTRUCTURE_TAUTOMER_LIMIT);
    if parsed.Err? {
      return Err(parsed.error);
    }
    var limits := parsed.value;
    r := CountedTautomerSearch.RunCountedSearch(smile, SearchParams(limits.resultLimit, limits.extraQuery),
      limits.resultLimit, limits.tautomerLimit, o);
  }
}

/** The `similarity-search` action (src/command_line/search/similarity_search.rs): the
    used tautomers' candidate sets are unioned, each candidate scored against every
    tautomer (0.0 when scoring fails), ranked, and cut to `result_limit`. */
module CliSimilaritySearch {
  import opened Wrappers
  import opened Chem
  import opened TautomerLoops
  import opened CliArgs

  /** What `similarity_search` receives besides the tautomer's descriptors. */
  datatype SearchParams = SearchParams(candidateLimit: nat, extraQuery: string)

  /** The calls: `validate_structure`, `standardize_smiles`, `get_tautomers`, the
      candidate search of one tautomer, the iteration order of a hash set,
      `get_best_similarity` against a list of tautomers, the descending sort by score and
      `aggregate_search_hits` (query SMILES bound). */
  datatype Oracles<!T, H> = Oracles(
    validate: string -> Result<seq<string>>,
    standardize: string -> Result<Mol>,
    tautomers: Mol -> seq<Mol>,
    search: SearchParams -> Mol -> Result<set<T>>,
    order: set<T> -> seq<T>,
    bestSimilarity: (T, seq<Mol>) -> Result<real>,
    sortByScore: seq<(T, real)> -> seq<(T, real)>,
    aggregate: (seq<(T, real)>, bool) -> Result<seq<H>>)

  /** Each candidate with its best similarity, or 0.0 when that cannot be computed. */
  function Scored<T>(candidates: seq<T>, tauts: seq<Mol>, best: (T, seq<Mol>) -> Result<real>): (r: seq<(T, real)>)
    ensures |r| == |candidates|
    ensures forall i :: 0 <= i < |candidates| ==> r[i].0 == candidates[i]
  {
    if |candidates| == 0 then []
    else
      var score := match best(candidates[0], tauts) case Ok(sim) => sim case Err(_) => 0.0;
      [(candidates[0], score)] + Scored(candidates[1..], tauts, best)
  }

  /** A candidate whose similarity cannot be computed stays, scored 0.0; the others carry
      their similarity. */
  lemma {:induction false} ScoredFallback<T>(candidates: seq<T>, tauts: seq<Mol>, best: (T, seq<Mol>) -> Result<real>, i: nat)
    requires i < |candidates|
    ensures Scored(candidates, tauts, best)[i].1 ==
      (if best(candidates[i], tauts).Ok? then best(candidates[i], tauts).value else 0.0)
    decreases i
  {
    if i > 0 {
      ScoredFallback(candidates[1..], tauts, best, i - 1);
    }
  }

  function Action<T, H>(smiles: string, resultArg: Option<string>, tautomerArg: Option<string>, extraArg: Option<string>,
                        o: Oracles<T, H>): Result<seq<H>>
  {
    match ParseLimits(resultArg, tautomerArg, extraArg, DEFAULT_TAUTOMER_LIMIT)
    case Err(e) => Err(e)
    case Ok(limits) =>
      match o.validate(smiles)
      case Err(e) => Err(e)
      case Ok(problems) =>
        if |problems| > 0 then Err("Failed structure validation")
        else
          match o.standardize(smiles)
          case Err(e) => Err(e)
          case Ok(canonical) =>
            var tauts := o.tautomers(canonical);
            var all := AllTautomers(canonical, tauts, limits.tautomerLimit);
            var used := SimilarityTautomers(canonical, tauts, limits.tautomerLimit);
            var params := SearchParams(10 * limits.resultLimit, limits.extraQuery);
            var results := UnionAll(Searched(used, o.search(params)));
            var ranked := o.sortByScore(Scored(o.order(results), all, o.bestSimilarity));
            o.aggregate(Truncate(ranked, limits.resultLimit), |used| > 1)
  }

  /** The candidates are exactly the hits of the used tautomers' successful searches,
      each searched for ten times `result_limit` candidates; every candidate is scored
      against the whole tautomer list, not only the used prefix; tautomers count as used
      exactly when the limit is positive and any were enumerated; and at most
      `result_limit` ranked entries are aggregated. */
  lemma ActionSpec<T, H>(smiles: string, resultArg: Option<string>, tautomerArg: Option<string>, extraArg: Option<string>,
                         o: Oracles<T, H>, x: T)
    requires ParseLimits(resultArg, tautomerArg, extraArg, DEFAULT_TAUTOMER_LIMIT).Ok?
    requires o.validate(smiles).Ok? && |o.validate(smiles).value| == 0 && o.standardize(smiles).Ok?
    ensures var limits := ParseLimits(resultArg, tautomerArg, extraArg, DEFAULT_TAUTOMER_LIMIT).value;
      var canonical := o.standardize(smiles).value;
      var tauts := o.tautomers(canonical);
      var used := SimilarityTautomers(canonical, tauts, limits.tautomerLimit);
      var params := SearchParams(10 * limits.resultLimit, limits.extraQuery);
      var results := UnionAll(Searched(used, o.search(params)));
      var ranked := o.sortByScore(Scored(o.order(results), AllTautomers(canonical, tauts, limits.tautomerLimit), o.bestSimilarity));
      Action(smiles, resultArg, tautomerArg, extraArg, o) == o.aggregate(Truncate(ranked, limits.resultLimit), |used| > 1) &&
      (x in results <==> exists i :: 0 <= i < |used| && o.search(params)(used[i]).Ok? && x in o.search(params)(used[i]).value) &&
      (|used| > 1 <==> limits.tautomerLimit > 0 && |tauts| > 0) &&
      |Truncate(ranked, limits.resultLimit)| <= limits.resultLimit &&
      Truncate(ranked, limits.resultLimit) <= ranked
  {
    var limits := ParseLimits(resultArg, tautomerArg, extraArg, DEFAULT_TAUTOMER_LIMIT).value;
    var canonical := o.standardize(smiles).value;
    var tauts := o.tautomers(canonical);
    var used := SimilarityTautomers(canonical, tauts, limits.tautomerLimit);
    SimilarityTautomersSpec(canonical, tauts, limits.tautomerLimit);
    SearchedUnionIff(used, o.search(SearchParams(10 * limits.resultLimit, limits.extraQuery)), x);
  }

  method SimilaritySearchAction<T, H>(smiles: string, resultArg: Option<string>, tautomerArg: Option<string>,
                                      extraArg: Option<string>, o: Oracles<T, H>)
    returns (r: Result<seq<H>>)
    ensures r == Action(smiles, resultArg, tautomerArg, extraArg, o)
  {
    var parsed := ParseLimits(resultArg, tautomerArg, extraArg, DEFAULT_TAUTOMER_LIMIT);
    if parsed.Err? {
      return Err(parsed.error);
    }
    var limits := parsed.value;
    var problems := o.validate(smiles);
    if problems.Err? {
      return Err(problems.error);
    }
    if |problems.value| > 0 {
      return Err("Failed structure validation");
    }
    var canonical := o.standardize(smiles);
    if canonical.Err? {
      return Err(canonical.error);
    }
    var tautomers := [canonical.value];
    if limits.tautomerLimit > 0 {
      tautomers := [canonical.value] + o.tautomers(canonical.value);
    }
    assert tautomers == AllTautomers(canonical.value, o.tautomers(canonical.value), limits.tautomerLimit);
    var tautomerLimit := Min(|tautomers|, limits.tautomerLimit + 1);
    var usedTautomers := tautomerLimit > 1;
    var params := SearchParams(10 * limits.resultLimit, limits.extraQuery);
    var tautomerResults := Searched(tautomers[..tautomerLimit], o.search(params));
    var results := MergeAll({}, tautomerResults);
    assert results == UnionAll(tautomerResults);
    var scored := Scored(o.order(results), tautomers, o.bestSimilarity);
    var ranked := o.sortByScore(scored);
    r := o.aggregate(Truncate(ranked, limits.resultLimit), usedTautomers);
  }
}
