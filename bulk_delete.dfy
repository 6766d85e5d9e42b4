/** Bulk deletion by structure (src/rest_api/api/indexing/bulk_delete.rs): every request
    SMILES becomes an identity query pinned to its canonical SMILES, each query is handed
    to the index writer's `delete_query`, and one status per request document is
    answered once the writer commits. */
module BulkDelete {
  import opened Wrappers
  import opened Text
  import opened Chem
  import opened QueryParts
  import IdentitySearch
  import Scaffolds
  import Indexing
  import opened IndexManagement

  /** The Tantivy side of a deletion: the query parser accepting a text, and
      `delete_query` answering an opstamp or an error. */
  datatype DeleteEnv = DeleteEnv(
    process: Indexing.ProcessCpd,
    matchDescriptors: set<string>,
    parseQuery: string -> Result<()>,
    deleteQuery: string -> Result<nat>)

  /** The delete query: the identity query with an empty extra query, then the canonical
      SMILES as an exact `smiles` term. */
  function DeleteQuery(descriptors: Descriptors, matchingScaffolds: Option<seq<int>>, canonSmiles: string,
                       matchDescriptors: set<string>): string
  {
    Join(IdentitySearch.IdentityQueryParts(descriptors, "", matchingScaffolds, matchDescriptors), AND)
      + " AND smiles:\"" + canonSmiles + "\""
  }

  /** A scaffold search that fails gives no scaffold constraint. */
  function ScaffoldConstraint(found: Result<seq<nat>>): (r: Option<seq<int>>)
    ensures r.None? <==> found.Err?
    ensures found.Ok? ==> r.value == Indexing.IdsAsInts(found.value)
  {
    match found
    case Ok(ids) => Some(Indexing.IdsAsInts(ids))
    case Err(_) => None
  }

  /** The delete query is the identity query followed by ` AND smiles:"<canonical>"`;
      with no identity part it starts with " AND ". */
  lemma DeleteQueryShape(descriptors: Descriptors, matchingScaffolds: Option<seq<int>>, canonSmiles: string,
                         matchDescriptors: set<string>)
    ensures var q := DeleteQuery(descriptors, matchingScaffolds, canonSmiles, matchDescriptors);
      var identity := Join(IdentitySearch.IdentityQueryParts(descriptors, "", matchingScaffolds, matchDescriptors), AND);
      StartsWith(q, identity) && q[|identity|..] == " AND smiles:\"" + canonSmiles + "\""
    ensures matchingScaffolds.None? && (forall i :: 0 <= i < |descriptors| ==> descriptors[i].0 !in matchDescriptors) ==>
      DeleteQuery(descriptors, matchingScaffolds, canonSmiles, matchDescriptors) == " AND smiles:\"" + canonSmiles + "\""
  {
    var identity := Join(IdentitySearch.IdentityQueryParts(descriptors, "", matchingScaffolds, matchDescriptors), AND);
    var q := DeleteQuery(descriptors, matchingScaffolds, canonSmiles, matchDescriptors);
    assert q == identity + (" AND smiles:\"" + canonSmiles + "\"");
    if matchingScaffolds.None? && (forall i :: 0 <= i < |descriptors| ==> descriptors[i].0 !in matchDescriptors) {
      IdentitySearch.IdentityQueryEmpty(descriptors, matchDescriptors);
    }
  }

  /** A failed scaffold search removes the scaffold parts and nothing else: the query is
      the descriptor parts and the SMILES term. */
  lemma ScaffoldFailureDropsConstraint(descriptors: Descriptors, e: string, canonSmiles: string, matchDescriptors: set<string>)
    ensures DeleteQuery(descriptors, ScaffoldConstraint(Err(e)), canonSmiles, matchDescriptors) ==
      Join(DescriptorClauses(descriptors, "", matchDescriptors, Exact), AND) + " AND smiles:\"" + canonSmiles + "\""
  {
    var clauses := DescriptorClauses(descriptors, "", matchDescriptors, Exact);
    assert IdentitySearch.IdentityQueryParts(descriptors, "", None, matchDescriptors) == [] + [] + clauses;
    assert [] + [] + clauses == clauses;
  }

  /** `bulk_request_doc_to_query`: the document's SMILES processed without fixing, its
      scaffolds searched (that search never fails), the query composed and parsed. */
  function RequestQuery(smiles: string, scaffolds: seq<Scaffolds.Scaffold>, substructMatch: SubstructOracle, env: DeleteEnv)
    : (r: Result<string>)
    ensures r.Ok? ==> env.process(smiles).Ok?
  {
    match env.process(smiles)
    case Err(e) => Err(e)
    case Ok((canonTaut, patternFp, descriptors)) =>
      var found := Scaffolds.MatchingScaffolds(scaffolds, patternFp, canonTaut, substructMatch);
      var query := DeleteQuery(descriptors, ScaffoldConstraint(Ok(found)), canonTaut.smiles, env.matchDescriptors);
      match env.parseQuery(query)
      case Err(e) => Err(e)
      case Ok(_) => Ok(query)
  }

  /** The status reported for one request document. */
  datatype DeleteStatus = DeleteStatus(opcode: Option<nat>, error: Option<string>)

  /** One document's status: the opstamp of its deletion, or the error of the query or
      of the deletion; never both and never neither. */
  function StatusOf(smiles: string, scaffolds: seq<Scaffolds.Scaffold>, substructMatch: SubstructOracle, env: DeleteEnv)
    : (r: DeleteStatus)
    ensures r.opcode.Some? != r.error.Some?
    ensures r.opcode.Some? <==> (RequestQuery(smiles, scaffolds, substructMatch, env).Ok? &&
      env.deleteQuery(RequestQuery(smiles, scaffolds, substructMatch, env).value).Ok?)
  {
    match RequestQuery(smiles, scaffolds, substructMatch, env)
    case Ok(query) =>
      (match env.deleteQuery(query)
       case Ok(opstamp) => DeleteStatus(Some(opstamp), None)
       case Err(e) => DeleteStatus(None, Some(e)))
    case Err(e) => DeleteStatus(None, Some(e))
  }

  /** The loop body of `v1_delete_index_bulk`: the query of one document, then its deletion. */
  method DeleteOne(smiles: string, scaffolds: seq<Scaffolds.Scaffold>, substructMatch: SubstructOracle, env: DeleteEnv)
    returns (status: DeleteStatus)
    ensures status == StatusOf(smiles, scaffolds, substructMatch, env)
  {
    var parsed := RequestQuery(smiles, scaffolds, substructMatch, env);
    match parsed {
      case Ok(query) =>
        var deleteOperation := env.deleteQuery(query);
        match deleteOperation {
          case Ok(opstamp) => status := DeleteStatus(Some(opstamp), None);
          case Err(e) => status := DeleteStatus(None, Some(e));
        }
      case Err(e) =>
        status := DeleteStatus(None, Some(e));
    }
  }

  /** `v1_delete_index_bulk`: the index is opened and a writer made before any document
      is looked at; one status per document is pushed in request order; a failed commit
      discards the statuses and answers the error. */
  method BulkDeleteRest(manager: IndexManager, fs: Storage, index: string, docs: seq<string>,
                        writerOk: bool, commitOk: bool,
                        scaffolds: seq<Scaffolds.Scaffold>, substructMatch: SubstructOracle, env: DeleteEnv)
    returns (r: Result<seq<DeleteStatus>>)
    ensures OpenSpec(fs.entries, manager.storageDir, index).Err? || !writerOk || !commitOk <==> r.Err?
    ensures r.Ok? ==> (|r.value| == |docs| &&
      forall i :: 0 <= i < |docs| ==> r.value[i] == StatusOf(docs[i], scaffolds, substructMatch, env))
  {
    var openResult := manager.Open(fs, index);
    if openResult.Err? {
      return Err(openResult.error);
    }
    if !writerOk {
      return Err("failed to create the index writer");
    }
    var statuses: seq<DeleteStatus> := [];
    for i := 0 to |docs|
      invariant |statuses| == i
      invariant forall j :: 0 <= j < i ==> statuses[j] == StatusOf(docs[j], scaffolds, substructMatch, env)
    {
      var status := DeleteOne(docs[i], scaffolds, substructMatch, env);
      statuses := statuses + [status];
    }
    if !commitOk {
      return Err("failed to commit");
    }
    r := Ok(statuses);
  }
}

/** The `bulk-delete` command (src/command_line/indexing/bulk_delete.rs): a comma-separated
    SMILES list is deleted item by item; failures are reported and skipped, and the
    commit's result is ignored. */
module CliBulkDelete {
  import opened Wrappers
  import opened Text
  import opened Chem
  import opened BulkDelete
  import IndexPaths
  import opened IndexManagement

  /** What the command reports for one list item. */
  datatype Report = Deleting(smiles: string) | FailedDelete(smiles: string, error: string) | FailedQuery(smiles: string, error: string)

  /** `create_delete_query`: like the REST composer, but through the older scaffold search
      on the molecule alone, whose failure gives no scaffold constraint. */
  function CreateDeleteQuery(smiles: string, scaffoldSearch: Mol -> Result<seq<nat>>, env: DeleteEnv): (r: Result<string>)
    ensures r.Ok? ==> env.process(smiles).Ok? && env.parseQuery(r.value).Ok?
  {
    match env.process(smiles)
    case Err(e) => Err(e)
    case Ok((canonTaut, _, descriptors)) =>
      var query := DeleteQuery(descriptors, ScaffoldConstraint(scaffoldSearch(canonTaut)), canonTaut.smiles, env.matchDescriptors);
      match env.parseQuery(query)
      case Err(e) => Err(e)
      case Ok(_) => Ok(query)
  }

  /** The report for one item. */
  function ReportOf(smiles: string, scaffoldSearch: Mol -> Result<seq<nat>>, env: DeleteEnv): (r: Report)
    ensures r.smiles == smiles
    ensures r.Deleting? <==> (CreateDeleteQuery(smiles, scaffoldSearch, env).Ok? &&
      env.deleteQuery(CreateDeleteQuery(smiles, scaffoldSearch, env).value).Ok?)
  {
    match CreateDeleteQuery(smiles, scaffoldSearch, env)
    case Ok(query) =>
      (match env.deleteQuery(query)
       case Ok(_) => Deleting(smiles)
       case Err(e) => FailedDelete(smiles, e))
    case Err(e) => FailedQuery(smiles, e)
  }

  /** The loop over the items: each is reported, none stops the loop. */
  method DeleteEach(items: seq<string>, scaffoldSearch: Mol -> Result<seq<nat>>, env: DeleteEnv) returns (reports: seq<Report>)
    ensures |reports| == |items|
    ensures forall i :: 0 <= i < |items| ==> reports[i] == ReportOf(items[i], scaffoldSearch, env)
  {
    reports := [];
    for i := 0 to |items|
      invariant |reports| == i
      invariant forall j :: 0 <= j < i ==> reports[j] == ReportOf(items[j], scaffoldSearch, env)
    {
      var report := DeleteOne(items[i], scaffoldSearch, env);
      reports := reports + [report];
    }
  }

  /** One item: its query is built, then handed to `delete_query`. */
  method DeleteOne(smiles: string, scaffoldSearch: Mol -> Result<seq<nat>>, env: DeleteEnv) returns (report: Report)
    ensures report == ReportOf(smiles, scaffoldSearch, env)
  {
    var parsedQuery := CreateDeleteQuery(smiles, scaffoldSearch, env);
    match parsedQuery {
      case Ok(query) =>
        match env.deleteQuery(query) {
          case Ok(_) => report := Deleting(smiles);
          case Err(e) => report := FailedDelete(smiles, e);
        }
      case Err(e) =>
        report := FailedQuery(smiles, e);
    }
  }

  /** `action`: the list is required and split on `,`; the index path is split, the
      manager opened without creating anything, the index opened and a writer made; then
      every item is processed in order, none of them able to stop the loop. */
  method BulkDeleteCli(fs: Storage, indexPath: string, smilesList: Option<string>, writerOk: bool,
                       scaffoldSearch: Mol -> Result<seq<nat>>, env: DeleteEnv)
    returns (r: Result<()>, reports: seq<Report>)
    modifies fs
    ensures smilesList.None? ==> r == Err("Failed to extract smiles list") && reports == []
    ensures r.Err? ==> reports == []
    ensures r.Ok? <==> (smilesList.Some? && IndexPaths.SplitPath(indexPath).Ok? &&
      var (storageDir, name) := IndexPaths.SplitPath(indexPath).value;
      NewSpec(old(fs.entries), storageDir, false).0.Ok? && OpenSpec(old(fs.entries), storageDir, name).Ok? && writerOk)
    ensures r.Ok? ==> var items := Split(smilesList.value, ",");
      |reports| == |items| && forall i :: 0 <= i < |items| ==> reports[i] == ReportOf(items[i], scaffoldSearch, env)
    ensures fs.entries == old(fs.entries)
  {
    reports := [];
    if smilesList.None? {
      return Err("Failed to extract smiles list"), reports;
    }
    var items := Split(smilesList.value, ",");
    var split := IndexPaths.SplitPath(indexPath);
    if split.Err? {
      return Err(split.error), reports;
    }
    var (storageDir, indexName) := split.value;
    var manager := IndexManager.New(fs, storageDir, false);
    if manager.Err? {
      return Err(manager.error), reports;
    }
    var index := manager.value.Open(fs, indexName);
    if index.Err? {
      return Err(index.error), reports;
    }
    if !writerOk {
      return Err("failed to create the index writer"), reports;
    }
    reports := DeleteEach(items, scaffoldSearch, env);
    r := Ok(());
  }

  /** The items are the list's comma-separated pieces: joined back with `,` they give the
      list, and no item contains a comma. */
  lemma ItemsAreThePieces(smilesList: string)
    ensures Join(Split(smilesList, ","), ",") == smilesList
    ensures forall k :: 0 <= k < |Split(smilesList, ",")| ==> !Contains(Split(smilesList, ",")[k], ",")
  {
    JoinSplit(smilesList, ",");
    SplitPiecesAvoidSeparator(smilesList, ",");
  }
}
