/** The REST search handlers' parameter handling (src/rest_api/api/api_v1.rs): absent
    query parameters get their defaults and the text flags are read, before the handler
    delegates to the search itself. */
module ApiV1 {
  import opened Wrappers
  import StructureSearch

  const BASIC_SEARCH_DEFAULT_LIMIT: nat := 1000
  const DEFAULT_RESULT_LIMIT: nat := 1000
  const DEFAULT_TAUTOMER_LIMIT: nat := 0

  /** What a structure-search handler passes on to `v1_index_search_structure`. */
  datatype StructureRequest = StructureRequest(
    method_: string,
    useChirality: bool,
    resultLimit: nat,
    tautomerLimit: nat,
    extraQuery: string,
    useScaffolds: bool)

  /** What the identity handler passes on to `v1_index_search_identity`. */
  datatype IdentityRequest = IdentityRequest(useChirality: bool, extraQuery: string, useScaffolds: bool)

  /** A count parameter: its value when given, the default otherwise. */
  function CountOr(given: Option<nat>, default: nat): (r: nat)
    ensures given.Some? ==> r == given.value
    ensures given.None? ==> r == default
  {
    match given
    case Some(n) => n
    case None => default
  }

  /** A text parameter: its value when given, the empty string otherwise. */
  function TextOr(given: Option<string>): (r: string)
    ensures given.Some? ==> r == given.value
    ensures given.None? ==> r == ""
  {
    match given
    case Some(s) => s
    case None => ""
  }

  /** `v1_index_search_basic`: the limit defaults to 1000. */
  function BasicSearchLimit(limit: Option<nat>): nat
  {
    CountOr(limit, BASIC_SEARCH_DEFAULT_LIMIT)
  }

  /** `v1_index_search_substructure`: typed flags; chirality off and scaffolds on unless
      given. */
  function SubstructureRequest(useChirality: Option<bool>, resultLimit: Option<nat>, tautomerLimit: Option<nat>,
                               extraQuery: Option<string>, useScaffolds: Option<bool>): StructureRequest
  {
    StructureRequest("substructure",
      if useChirality.Some? then useChirality.value else false,
      CountOr(resultLimit, DEFAULT_RESULT_LIMIT),
      CountOr(tautomerLimit, DEFAULT_TAUTOMER_LIMIT),
      TextOr(extraQuery),
      if useScaffolds.Some? then useScaffolds.value else true)
  }

  /** The text `use_chirality` flag: any given text other than exactly "false" turns it
      on; absent, it is off. */
  function ChiralityFlag(given: Option<string>): bool
  {
    match given
    case Some(s) => s != "false"
    case None => false
  }

  /** The text `use_scaffolds` flag: only exactly "true" turns it on when given; absent,
      it is on. */
  function ScaffoldsFlag(given: Option<string>): bool
  {
    match given
    case Some(s) => s == "true"
    case None => true
  }

  /** `v1_index_search_superstructure`: text flags, and the same count defaults. */
  function SuperstructureRequest(useChirality: Option<string>, resultLimit: Option<nat>, tautomerLimit: Option<nat>,
                                 extraQuery: Option<string>, useScaffolds: Option<string>): StructureRequest
  {
    StructureRequest("superstructure",
      ChiralityFlag(useChirality),
      CountOr(resultLimit, DEFAULT_RESULT_LIMIT),
      CountOr(tautomerLimit, DEFAULT_TAUTOMER_LIMIT),
      TextOr(extraQuery),
      ScaffoldsFlag(useScaffolds))
  }

  /** `v1_index_search_identity`: the same text flags, and no limits. */
  function IdentityRequestOf(useChirality: Option<string>, extraQuery: Option<string>, useScaffolds: Option<string>): IdentityRequest
  {
    IdentityRequest(ChiralityFlag(useChirality), TextOr(extraQuery), ScaffoldsFlag(useScaffolds))
  }

  /** With nothing given, basic search asks for 1000 results and the substructure handler
      for chirality off, 1000 results, no tautomers, no extra query and scaffolds on. */
  lemma Defaults()
    ensures BasicSearchLimit(None) == 1000
    ensures SubstructureRequest(None, None, None, None, None) == StructureRequest("substructure", false, 1000, 0, "", true)
    ensures SuperstructureRequest(None, None, None, None, None) == StructureRequest("superstructure", false, 1000, 0, "", true)
    ensures IdentityRequestOf(None, None, None) == IdentityRequest(false, "", true)
  {
  }

  /** Given values pass through unchanged. */
  lemma GivenValuesKept(resultLimit: nat, tautomerLimit: nat, extraQuery: string, limit: nat)
    ensures BasicSearchLimit(Some(limit)) == limit
    ensures var r := SuperstructureRequest(None, Some(resultLimit), Some(tautomerLimit), Some(extraQuery), None);
      r.resultLimit == resultLimit && r.tautomerLimit == tautomerLimit && r.extraQuery == extraQuery
    ensures var r := SubstructureRequest(None, Some(resultLimit), Some(tautomerLimit), Some(extraQuery), None);
      r.resultLimit == resultLimit && r.tautomerLimit == tautomerLimit && r.extraQuery == extraQuery
  {
  }

  /** The chirality flag is on exactly for a given text other than "false"; the scaffold
      flag is off exactly for a given text other than "true". */
  lemma FlagsIff(given: Option<string>)
    ensures ChiralityFlag(given) <==> given.Some? && given.value != "false"
    ensures !ScaffoldsFlag(given) <==> given.Some? && given.value != "true"
  {
  }

  /** The two text flags read an unrecognised spelling in opposite ways: "TRUE" turns
      chirality on but scaffolds off. */
  lemma UnrecognisedSpelling(s: string)
    requires s != "true" && s != "false"
    ensures ChiralityFlag(Some(s)) && !ScaffoldsFlag(Some(s))
  {
  }

  /** The text of a boolean as a client writes it. */
  function BoolText(b: bool): string
  {
    if b then "true" else "false"
  }

  /** For the spellings "true" and "false" and for absent flags, the superstructure
      handler reads what the typed substructure handler reads; only the method differs. */
  lemma TextFlagsAgreeWithTyped(useChirality: Option<bool>, useScaffolds: Option<bool>, resultLimit: Option<nat>,
                                tautomerLimit: Option<nat>, extraQuery: Option<string>)
    ensures var sup := SuperstructureRequest(
        if useChirality.Some? then Some(BoolText(useChirality.value)) else None,
        resultLimit, tautomerLimit, extraQuery,
        if useScaffolds.Some? then Some(BoolText(useScaffolds.value)) else None);
      sup == SubstructureRequest(useChirality, resultLimit, tautomerLimit, extraQuery, useScaffolds).(method_ := "superstructure")
  {
  }

  /** The substructure handler searches by substructure, and the superstructure handler
      by superstructure. */
  lemma HandlersDispatch(useChirality: Option<bool>, chiralityText: Option<string>, resultLimit: Option<nat>,
                         tautomerLimit: Option<nat>, extraQuery: Option<string>, useScaffolds: Option<bool>,
                         scaffoldsText: Option<string>)
    ensures StructureSearch.IsSubstructure(SubstructureRequest(useChirality, resultLimit, tautomerLimit, extraQuery, useScaffolds).method_)
    ensures !StructureSearch.IsSubstructure(SuperstructureRequest(chiralityText, resultLimit, tautomerLimit, extraQuery, scaffoldsText).method_)
  {
    assert |"superstructure"| != |"substructure"|;
  }
}
