/** The scaffold prefilter (src/search/scaffold_search.rs): a fingerprint subset test, then
    the substructure oracle, over a fixed scaffold list parsed from JSON lines. */
module Scaffolds {
  import opened Wrappers
  import opened Chem
  import opened Json
  import StructureMatching

  /** A scaffold: its pattern fingerprint, its molecule and its id. */
  datatype Scaffold = Scaffold(fp: Bits, mol: Mol, idx: nat)

  /** The query molecule contains the scaffold: the scaffold's fingerprint is a bit-subset
      of the query's and the oracle (default parameters, so no chirality) finds the
      scaffold in the query. */
  predicate ScaffoldMatches(scaffold: Scaffold, queryFp: Bits, queryMol: Mol, substructMatch: SubstructOracle)
  {
    StructureMatching.SubstructureMatchFp(scaffold.fp, queryFp) && substructMatch(queryMol, scaffold.mol, false)
  }

  /** The ids of the matching scaffolds, in scaffold-list order. */
  function MatchingScaffolds(scaffolds: seq<Scaffold>, queryFp: Bits, queryMol: Mol, substructMatch: SubstructOracle): (r: seq<nat>)
    ensures |r| <= |scaffolds|
  {
    if |scaffolds| == 0 then []
    else
      var last := scaffolds[|scaffolds| - 1];
      MatchingScaffolds(scaffolds[..|scaffolds| - 1], queryFp, queryMol, substructMatch)
        + (if ScaffoldMatches(last, queryFp, queryMol, substructMatch) then [last.idx] else [])
  }

  /** `scaffold_search`: the for-loop pushing each matching scaffold's id; it always
      succeeds. */
  method ScaffoldSearch(queryFp: Bits, queryMol: Mol, scaffolds: seq<Scaffold>, substructMatch: SubstructOracle)
    returns (r: Result<seq<nat>>)
    ensures r == Ok(MatchingScaffolds(scaffolds, queryFp, queryMol, substructMatch))
  {
    var matching: seq<nat> := [];
    var i := 0;
    while i < |scaffolds|
      invariant 0 <= i <= |scaffolds|
      invariant matching == MatchingScaffolds(scaffolds[..i], queryFp, queryMol, substructMatch)
    {
      assert scaffolds[..i + 1][..i] == scaffolds[..i];
      var scaffold := scaffolds[i];
      var fpMatch := StructureMatching.SubstructureMatchFp(scaffold.fp, queryFp);
      if fpMatch {
        var molMatch := substructMatch(queryMol, scaffold.mol, false);
        if molMatch {
          matching := matching + [scaffold.idx];
        }
      }
      i := i + 1;
    }
    assert scaffolds[..|scaffolds|] == scaffolds;
    r := Ok(matching);
  }

  /** Results follow the list: the matches of a concatenation are the concatenated matches. */
  lemma {:induction false} MatchingScaffoldsAppend(a: seq<Scaffold>, b: seq<Scaffold>, queryFp: Bits, queryMol: Mol, substructMatch: SubstructOracle)
    ensures MatchingScaffolds(a + b, queryFp, queryMol, substructMatch)
      == MatchingScaffolds(a, queryFp, queryMol, substructMatch) + MatchingScaffolds(b, queryFp, queryMol, substructMatch)
    decreases |b|
  {
    if |b| == 0 {
      assert a + b == a;
    } else {
      var b' := b[..|b| - 1];
      assert (a + b)[..|a + b| - 1] == a + b';
      assert (a + b)[|a + b| - 1] == b[|b| - 1];
      MatchingScaffoldsAppend(a, b', queryFp, queryMol, substructMatch);
    }
  }

  /** An id is reported iff some scaffold carrying it matches: in particular only scaffolds
      whose fingerprint is a bit-subset of the query's are ever reported. */
  lemma {:induction false} MatchingScaffoldsMembers(scaffolds: seq<Scaffold>, queryFp: Bits, queryMol: Mol, substructMatch: SubstructOracle, id: nat)
    ensures id in MatchingScaffolds(scaffolds, queryFp, queryMol, substructMatch) <==>
      exists i :: 0 <= i < |scaffolds| && scaffolds[i].idx == id && ScaffoldMatches(scaffolds[i], queryFp, queryMol, substructMatch)
    decreases |scaffolds|
  {
    if |scaffolds| > 0 {
      var init := scaffolds[..|scaffolds| - 1];
      MatchingScaffoldsMembers(init, queryFp, queryMol, substructMatch, id);
      if exists i :: 0 <= i < |init| && init[i].idx == id && ScaffoldMatches(init[i], queryFp, queryMol, substructMatch) {
        var i :| 0 <= i < |init| && init[i].idx == id && ScaffoldMatches(init[i], queryFp, queryMol, substructMatch);
        assert scaffolds[i] == init[i];
      }
      if exists i :: 0 <= i < |scaffolds| && scaffolds[i].idx == id && ScaffoldMatches(scaffolds[i], queryFp, queryMol, substructMatch) {
        var i :| 0 <= i < |scaffolds| && scaffolds[i].idx == id && ScaffoldMatches(scaffolds[i], queryFp, queryMol, substructMatch);
        if i < |init| {
          assert scaffolds[i] == init[i];
        }
      }
    }
  }

  /** A scaffold whose fingerprint is not a bit-subset of the query's is never reported,
      whatever the oracle says. */
  lemma FingerprintPrefilter(scaffold: Scaffold, queryFp: Bits, queryMol: Mol, substructMatch: SubstructOracle)
    requires !StructureMatching.IsBitSubset(scaffold.fp, queryFp)
    ensures MatchingScaffolds([scaffold], queryFp, queryMol, substructMatch) == []
  {
    assert [scaffold][..0] == [];
  }

  /** One asset line, already parsed as JSON, turned into a scaffold: `smiles` must be a
      string that parses, `scaffold_id` a u64. Any failure is a panic at start-up, modelled
      as `None`. */
  function ParseScaffold(line: Json, fromSmiles: SmilesParser, fingerprint: FingerprintOracle): (r: Option<Scaffold>)
    ensures r.Some? <==> (Get(line, "smiles").Some? && Get(line, "smiles").value.Str? &&
                          fromSmiles(Get(line, "smiles").value.s).Ok? &&
                          Get(line, "scaffold_id").Some? && AsU64(Get(line, "scaffold_id").value).Some?)
    ensures r.Some? ==> (r.value.idx == Get(line, "scaffold_id").value.i &&
                         r.value.mol == fromSmiles(Get(line, "smiles").value.s).value &&
                         r.value.fp == fingerprint(r.value.mol))
  {
    match Get(line, "smiles")
    case None => None
    case Some(smiles) =>
      if !smiles.Str? then None
      else
        match fromSmiles(smiles.s)
        case Err(_) => None
        case Ok(mol) =>
          match Get(line, "scaffold_id")
          case None => None
          case Some(id) =>
            match AsU64(id)
            case None => None
            case Some(idx) => Some(Scaffold(fingerprint(mol), mol, idx))
  }

  /** `PARSED_SCAFFOLDS`: every line becomes one scaffold, in order, or start-up panics
      (`None`). `parseJson` is serde's parser. */
  function ParseScaffolds(lines: seq<string>, parseJson: string -> Result<Json>, fromSmiles: SmilesParser,
                          fingerprint: FingerprintOracle): (r: Option<seq<Scaffold>>)
    ensures r.Some? ==> |r.value| == |lines|
  {
    if |lines| == 0 then Some([])
    else
      match ParseScaffolds(lines[..|lines| - 1], parseJson, fromSmiles, fingerprint)
      case None => None
      case Some(init) =>
        match parseJson(lines[|lines| - 1])
        case Err(_) => None
        case Ok(v) =>
          match ParseScaffold(v, fromSmiles, fingerprint)
          case None => None
          case Some(s) => Some(init + [s])
  }

  /** Each parsed scaffold carries the `scaffold_id` of its own line. */
  lemma {:induction false} ParseScaffoldsIds(lines: seq<string>, parseJson: string -> Result<Json>, fromSmiles: SmilesParser,
                                             fingerprint: FingerprintOracle)
    ensures var r := ParseScaffolds(lines, parseJson, fromSmiles, fingerprint);
      r.Some? ==> forall i :: 0 <= i < |lines| ==>
        parseJson(lines[i]).Ok? && ParseScaffold(parseJson(lines[i]).value, fromSmiles, fingerprint) == Some(r.value[i])
    decreases |lines|
  {
    if |lines| > 0 {
      var init := lines[..|lines| - 1];
      ParseScaffoldsIds(init, parseJson, fromSmiles, fingerprint);
      var r := ParseScaffolds(lines, parseJson, fromSmiles, fingerprint);
      if r.Some? {
        forall i | 0 <= i < |lines|
          ensures parseJson(lines[i]).Ok? && ParseScaffold(parseJson(lines[i]).value, fromSmiles, fingerprint) == Some(r.value[i])
        {
          if i < |init| {
            assert lines[i] == init[i];
          }
        }
      }
    }
  }
}
