/** What the two older `substructure-search` actions share: validation problems and a
    compound that cannot be processed end the process, the limit defaults to 1000, and
    the index is asked for ten times the limit. */
module LegacySearchSetup {
  import opened Wrappers
  import opened Chem
  import CliArgs

  /** Tautomers tried at most. */
  const MAX_TAUTS: nat := 10
  const DEFAULT_LIMIT: nat := 1000

  /** The calls: `validate_structure` (its list of problems), `process_cpd` (the
      canonical tautomer), `get_tautomers`, the search of the canonical tautomer and
      the search of one tautomer (`get_cpd_properties` then the search), each with the
      number of documents asked of the index. */
  datatype Oracles<!T> = Oracles(
    validate: string -> seq<string>,
    processCpd: string -> Result<Mol>,
    tautomers: Mol -> seq<Mol>,
    search: nat -> Mol -> Result<seq<T>>,
    searchTautomer: nat -> Mol -> Result<seq<T>>)

  /** The limit option: parsed when given, 1000 otherwise. */
  function Limit(limitArg: Option<string>): Result<nat>
  {
    CliArgs.CountArg(limitArg, DEFAULT_LIMIT)
  }

  /** The steps before the tautomers: the canonical tautomer, the limit and the first
      hits, in this order. */
  function FirstHits<T>(smiles: string, limitArg: Option<string>, o: Oracles<T>): Result<(Mol, nat, seq<T>)>
  {
    if |o.validate(smiles)| > 0 then Err(PANIC)
    else
      match o.processCpd(smiles)
      case Err(_) => Err(PANIC)
      case Ok(canonical) =>
        match Limit(limitArg)
        case Err(e) => Err(e)
        case Ok(limit) =>
          match o.search(10 * limit)(canonical)
          case Err(e) => Err(e)
          case Ok(first) => Ok((canonical, limit, first))
  }

  /** A structure with problems, or one that cannot be processed, ends the process
      before the limit is read; the index is asked for ten times the limit. */
  lemma FirstHitsSpec<T>(smiles: string, limitArg: Option<string>, o: Oracles<T>)
    ensures var r := FirstHits(smiles, limitArg, o);
      ((|o.validate(smiles)| > 0 || o.processCpd(smiles).Err?) ==> r == Err(PANIC)) &&
      (r.Ok? ==> (Limit(limitArg) == Ok(r.value.1) && o.processCpd(smiles) == Ok(r.value.0) &&
                  o.search(10 * r.value.1)(r.value.0) == Ok(r.value.2))) &&
      (limitArg.None? && |o.validate(smiles)| == 0 && o.processCpd(smiles).Ok? ==>
        (r.Ok? <==> o.search(10000)(o.processCpd(smiles).value).Ok?))
  {
  }
}

/** The older `substructure-search` action (src/command_line/substructure_search.rs): when
    the first search falls short of the limit, the first ten tautomers' hits are appended,
    duplicates kept, until the limit is passed; any tautomer failure aborts. The hits are
    not cut back to the limit. */
module LegacyCliSubstructureSearch {
  import opened Wrappers
  import opened Chem
  import opened TautomerLoops
  import opened LegacySearchSetup
  import Text

  function Action<T>(smiles: string, limitArg: Option<string>, o: Oracles<T>): Result<seq<T>>
  {
    match FirstHits(smiles, limitArg, o)
    case Err(e) => Err(e)
    case Ok((canonical, limit, first)) =>
      if |first| < limit then
        AppendOrAbort(first, Take(o.tautomers(canonical), MAX_TAUTS), o.searchTautomer(10 * limit), limit)
      else Ok(first)
  }

  /** The hits start with the first search's; a failure after it comes from one of the
      first ten tautomers; at most those ten are searched, and their hits all kept
      unless the limit was passed. */
  lemma ActionSpec<T>(smiles: string, limitArg: Option<string>, o: Oracles<T>)
    requires FirstHits(smiles, limitArg, o).Ok?
    ensures var (canonical, limit, first) := FirstHits(smiles, limitArg, o).value;
      var tried := Take(o.tautomers(canonical), MAX_TAUTS);
      var r := Action(smiles, limitArg, o);
      |tried| <= MAX_TAUTS &&
      (|first| >= limit ==> r == Ok(first)) &&
      (r.Err? ==> exists i :: 0 <= i < |tried| && o.searchTautomer(10 * limit)(tried[i]).Err?) &&
      (r.Ok? ==> (first <= r.value <= first + Appended(tried, o.searchTautomer(10 * limit)) &&
                  (|first| < limit && |r.value| <= limit ==> r.value == first + Appended(tried, o.searchTautomer(10 * limit)))))
  {
    var (canonical, limit, first) := FirstHits(smiles, limitArg, o).value;
    AppendOrAbortSpec(first, Take(o.tautomers(canonical), MAX_TAUTS), o.searchTautomer(10 * limit), limit);
  }

  /** The hits are not cut back: one tautomer can leave more than `limit` of them. */
  lemma MayExceedLimit<T>(smiles: string, limit: nat, canonical: Mol, taut: Mol, hits: seq<T>, o: Oracles<T>)
    requires 0 < limit < Text.USIZE_LIMIT && |hits| > limit
    requires o.validate(smiles) == [] && o.processCpd(smiles) == Ok(canonical)
    requires o.search(10 * limit)(canonical) == Ok([]) && o.tautomers(canonical) == [taut]
    requires o.searchTautomer(10 * limit)(taut) == Ok(hits)
    ensures Action(smiles, Some(Text.NatToString(limit)), o) == Ok(hits)
  {
    Text.ParseUsizeOfNatToString(limit);
    assert Take([taut], MAX_TAUTS) == [taut];
    assert [] + hits == hits;
  }

  method LegacySubstructureSearchAction<T>(smiles: string, limitArg: Option<string>, o: Oracles<T>)
    returns (r: Result<seq<T>>)
    ensures r == Action(smiles, limitArg, o)
  {
    if |o.validate(smiles)| > 0 {
      return Err(PANIC);
    }
    var processed := o.processCpd(smiles);
    if processed.Err? {
      return Err(PANIC);
    }
    var canonical := processed.value;
    var limit := Limit(limitArg);
    if limit.Err? {
      return Err(limit.error);
    }
    var tantivyResultLimit := 10 * limit.value;
    var results := o.search(tantivyResultLimit)(canonical);
    if results.Err? {
      return Err(results.error);
    }
    r := Ok(results.value);
    if |results.value| < limit.value {
      var tautomers := o.tautomers(canonical);
      r := RunAppendOrAbort(results.value, Take(tautomers, MAX_TAUTS), o.searchTautomer(tantivyResultLimit), limit.value);
    }
  }
}

/** The `substructure-search` action of src/actions/substructure_search.rs: tautomers are
    tried only when there are more than ten, ten of them picked through a shuffled index
    list; the hits are then cut to the limit. */
module ShuffledSubstructureSearch {
  import opened Wrappers
  import opened Chem
  import opened TautomerLoops
  import opened LegacySearchSetup

  /** `(0..n).collect()`. */
  function Range(n: nat): (r: seq<nat>)
    ensures |r| == n
  {
    if n == 0 then [] else Range(n - 1) + [n - 1]
  }

  /** A shuffle of `0..n` holds each index exactly once. */
  predicate IsPermutation(order: seq<nat>, n: nat)
  {
    multiset(order) == multiset(Range(n))
  }

  /** The random shuffle, given the number of indices; a shuffle permutes. */
  ghost predicate Shuffles(shuffle: nat -> seq<nat>)
  {
    forall n: nat :: IsPermutation(shuffle(n), n)
  }

  lemma {:induction false} RangeOnce(n: nat, x: nat)
    ensures multiset(Range(n))[x] == if x < n then 1 else 0
    decreases n
  {
    if n > 0 {
      RangeOnce(n - 1, x);
      var before := multiset(Range(n - 1));
      assert multiset(Range(n)) == before + multiset{n - 1};
      var count := before[x];
      assert count == if x < n - 1 then 1 else 0;
      if x == n - 1 {
        assert multiset(Range(n))[x] == count + 1;
      } else {
        assert multiset(Range(n))[x] == count;
      }
    } else {
      assert Range(n) == [];
    }
  }

  lemma CountedTwice<X>(s: seq<X>, i: nat, j: nat)
    requires i < j < |s|
    ensures s[i] == s[j] ==> multiset(s)[s[i]] >= 2
  {
    if s[i] == s[j] {
      assert s == s[..i] + [s[i]] + s[i + 1..j] + [s[j]] + s[j + 1..];
    }
  }

  /** The indices of a shuffle are in range and pairwise distinct. */
  lemma PermutationIndices(order: seq<nat>, n: nat)
    requires IsPermutation(order, n)
    ensures |order| == n
    ensures forall i :: 0 <= i < |order| ==> order[i] < n
    ensures forall i, j :: 0 <= i < j < |order| ==> order[i] != order[j]
  {
    assert |order| == |multiset(order)| == |multiset(Range(n))| == n;
    forall i | 0 <= i < |order|
      ensures order[i] < n
    {
      assert order[i] in multiset(order);
      RangeOnce(n, order[i]);
    }
    forall i, j | 0 <= i < j < |order|
      ensures order[i] != order[j]
    {
      CountedTwice(order, i, j);
      RangeOnce(n, order[i]);
    }
  }

  /** The tautomers at the first ten shuffled indices. */
  function Picked(tauts: seq<Mol>, order: seq<nat>): (r: seq<Mol>)
    requires IsPermutation(order, |tauts|) && |tauts| > MAX_TAUTS
    ensures |r| == MAX_TAUTS
  {
    PermutationIndices(order, |tauts|);
    seq(MAX_TAUTS, i requires 0 <= i < MAX_TAUTS => tauts[order[i]])
  }

  /** Ten different tautomers are picked: each comes from its own position in the list. */
  lemma PickedDistinctPositions(tauts: seq<Mol>, order: seq<nat>)
    requires IsPermutation(order, |tauts|) && |tauts| > MAX_TAUTS
    ensures |order| == |tauts|
    ensures var picked := Picked(tauts, order);
      forall i :: 0 <= i < MAX_TAUTS ==> (order[i] < |tauts| && picked[i] == tauts[order[i]] &&
        forall j :: 0 <= j < MAX_TAUTS && j != i ==> order[j] != order[i])
  {
    PermutationIndices(order, |tauts|);
  }

  /** The hits before the cut. */
  function Uncut<T>(canonical: Mol, limit: nat, first: seq<T>, o: Oracles<T>, shuffle: nat -> seq<nat>): Result<seq<T>>
    requires Shuffles(shuffle)
  {
    var tauts := o.tautomers(canonical);
    if |first| < limit && |tauts| > MAX_TAUTS then
      AppendOrAbort(first, Picked(tauts, shuffle(|tauts|)), o.searchTautomer(10 * limit), limit)
    else Ok(first)
  }

  function Action<T>(smiles: string, limitArg: Option<string>, o: Oracles<T>, shuffle: nat -> seq<nat>): Result<seq<T>>
    requires Shuffles(shuffle)
  {
    match FirstHits(smiles, limitArg, o)
    case Err(e) => Err(e)
    case Ok((canonical, limit, first)) =>
      match Uncut(canonical, limit, first, o, shuffle)
      case Err(e) => Err(e)
      case Ok(results) => Ok(Truncate(results, limit))
  }

  /** At most `limit` hits come back, the first search's leading; with ten tautomers or
      fewer none is tried; a failure after the first search comes from a picked
      tautomer. */
  lemma ActionSpec<T>(smiles: string, limitArg: Option<string>, o: Oracles<T>, shuffle: nat -> seq<nat>)
    requires Shuffles(shuffle) && FirstHits(smiles, limitArg, o).Ok?
    ensures var (canonical, limit, first) := FirstHits(smiles, limitArg, o).value;
      var tauts := o.tautomers(canonical);
      var r := Action(smiles, limitArg, o, shuffle);
      (r.Ok? ==> |r.value| <= limit && (r.value <= first || first <= r.value) &&
                 (|first| <= limit ==> first <= r.value)) &&
      (|tauts| <= MAX_TAUTS || |first| >= limit ==> r == Ok(Truncate(first, limit))) &&
      (r.Err? ==> var picked := Picked(tauts, shuffle(|tauts|));
                  exists i :: 0 <= i < |picked| && o.searchTautomer(10 * limit)(picked[i]).Err?)
  {
    var (canonical, limit, first) := FirstHits(smiles, limitArg, o).value;
    var tauts := o.tautomers(canonical);
    if |first| < limit && |tauts| > MAX_TAUTS {
      AppendOrAbortSpec(first, Picked(tauts, shuffle(|tauts|)), o.searchTautomer(10 * limit), limit);
    }
  }

  /** The shuffled loop as written: `idx_vec` is shuffled, and the tautomer at each of its
      first ten entries searched until one fails or the limit is passed. */
  method ShuffledTautomerLoop<T>(first: seq<T>, tautomers: seq<Mol>, search: Mol -> Result<seq<T>>, limit: nat,
                                 shuffle: nat -> seq<nat>)
    returns (r: Result<seq<T>>)
    requires Shuffles(shuffle) && |tautomers| > MAX_TAUTS
    ensures r == AppendOrAbort(first, Picked(tautomers, shuffle(|tautomers|)), search, limit)
  {
    var idxVec := shuffle(|tautomers|);
    PermutationIndices(idxVec, |tautomers|);
    ghost var picked := Picked(tautomers, idxVec);
    var results := first;
    for k := 0 to MAX_TAUTS
      invariant AppendOrAbort(results, picked[k..], search, limit) == AppendOrAbort(first, picked, search, limit)
    {
      assert picked[k..][1..] == picked[k + 1..];
      var testTaut := tautomers[idxVec[k]];
      var tautResults := search(testTaut);
      if tautResults.Err? {
        return Err(tautResults.error);
      }
      results := results + tautResults.value;
      if |results| > limit {
        return Ok(results);
      }
    }
    r := Ok(results);
  }

  method ShuffledSubstructureSearchAction<T>(smiles: string, limitArg: Option<string>, o: Oracles<T>, shuffle: nat -> seq<nat>)
    returns (r: Result<seq<T>>)
    requires Shuffles(shuffle)
    ensures r == Action(smiles, limitArg, o, shuffle)
  {
    if |o.validate(smiles)| > 0 {
      return Err(PANIC);
    }
    var processed := o.processCpd(smiles);
    if processed.Err? {
      return Err(PANIC);
    }
    var canonical := processed.value;
    var limit := Limit(limitArg);
    if limit.Err? {
      return Err(limit.error);
    }
    var tantivyResultLimit := 10 * limit.value;
    var first := o.search(tantivyResultLimit)(canonical);
    if first.Err? {
      return Err(first.error);
    }
    var results := first.value;
    if |results| < limit.value {
      var tautomers := o.tautomers(canonical);
      if |tautomers| > MAX_TAUTS {
        var extended := ShuffledTautomerLoop(results, tautomers, o.searchTautomer(tantivyResultLimit), limit.value, shuffle);
        if extended.Err? {
          return Err(extended.error);
        }
        results := extended.value;
      }
    }
    if |results| > limit.value {
      results := results[..limit.value];
    }
    r := Ok(results);
  }
}
