/** The `index-scaffolds` command (src/command_line/indexing/index_scaffolds.rs): one JSON
    record per line, each with a `smiles` text; every scaffold that standardizes and is
    written gets the next id, counting from 0. */
module IndexScaffolds {
  import opened Wrappers
  import opened Chem
  import opened Json
  import IndexPaths
  import opened IndexManagement

  /** The document written for one scaffold. */
  datatype ScaffoldDoc = ScaffoldDoc(smiles: string, id: nat)

  /** The per-line calls: serde_json parsing, `standardize_smiles` and the writer's
      `add_document`, which answers whether the write succeeded. */
  datatype LineOracles = LineOracles(
    parseJson: string -> Result<Json>,
    standardize: string -> Result<Mol>,
    addDocument: ScaffoldDoc -> bool)

  /** The raw SMILES of a line: the line must be JSON with a text field `smiles`. */
  function RawSmiles(line: string, o: LineOracles): (r: Result<string>)
    ensures r.Ok? <==> (o.parseJson(line).Ok? && Get(o.parseJson(line).value, "smiles").Some? &&
      Get(o.parseJson(line).value, "smiles").value.Str?)
  {
    match o.parseJson(line)
    case Err(e) => Err(e)
    case Ok(record) =>
      match Get(record, "smiles")
      case None => Err("Failed to extract smiles")
      case Some(v) => if v.Str? then Ok(v.s) else Err("Failed to convert smiles to str")
  }

  /** One scaffold after `written`: a standardized molecule is offered with the next id,
      and kept only if the write succeeds. */
  function Step(written: seq<ScaffoldDoc>, raw: string, o: LineOracles): seq<ScaffoldDoc>
  {
    match o.standardize(raw)
    case Err(_) => written
    case Ok(mol) =>
      var doc := ScaffoldDoc(mol.smiles, |written|);
      if o.addDocument(doc) then written + [doc] else written
  }

  /** The documents written for the lines, or the error of the first line that cannot be
      read, parsed or has no text `smiles`. */
  function Assigned(lines: seq<Result<string>>, o: LineOracles): Result<seq<ScaffoldDoc>>
  {
    if |lines| == 0 then Ok([])
    else
      match Assigned(lines[..|lines| - 1], o)
      case Err(e) => Err(e)
      case Ok(written) =>
        match lines[|lines| - 1]
        case Err(e) => Err(e)
        case Ok(line) =>
          match RawSmiles(line, o)
          case Err(e) => Err(e)
          case Ok(raw) => Ok(Step(written, raw, o))
  }

  /** A line is fatal when it cannot be read or holds no text `smiles`. */
  predicate Fatal(line: Result<string>, o: LineOracles)
  {
    line.Err? || RawSmiles(line.value, o).Err?
  }

  /** The whole action fails exactly when some line is fatal. */
  lemma {:induction false} AssignedErrIff(lines: seq<Result<string>>, o: LineOracles)
    ensures Assigned(lines, o).Err? <==> exists j :: 0 <= j < |lines| && Fatal(lines[j], o)
    decreases |lines|
  {
    if |lines| > 0 {
      var init := lines[..|lines| - 1];
      AssignedErrIff(init, o);
      if exists j :: 0 <= j < |init| && Fatal(init[j], o) {
        var j :| 0 <= j < |init| && Fatal(init[j], o);
        assert lines[j] == init[j];
      }
      if exists j :: 0 <= j < |lines| && Fatal(lines[j], o) {
        var j :| 0 <= j < |lines| && Fatal(lines[j], o);
        if j < |init| {
          assert init[j] == lines[j];
        }
      }
    }
  }

  /** Ids are consecutive from 0: the document at position `i` has id `i`. */
  lemma {:induction false} AssignedIds(lines: seq<Result<string>>, o: LineOracles)
    requires Assigned(lines, o).Ok?
    ensures var docs := Assigned(lines, o).value;
      |docs| <= |lines| && forall i :: 0 <= i < |docs| ==> docs[i].id == i
    decreases |lines|
  {
    if |lines| > 0 {
      AssignedIds(lines[..|lines| - 1], o);
    }
  }

  /** Every written document was accepted by the writer and carries the standardized
      SMILES of one of the lines. */
  lemma {:induction false} AssignedProvenance(lines: seq<Result<string>>, o: LineOracles)
    requires Assigned(lines, o).Ok?
    ensures var docs := Assigned(lines, o).value;
      forall i :: 0 <= i < |docs| ==> (o.addDocument(docs[i]) &&
        exists j :: 0 <= j < |lines| && lines[j].Ok? && RawSmiles(lines[j].value, o).Ok? &&
          o.standardize(RawSmiles(lines[j].value, o).value) == Ok(Mol(docs[i].smiles)))
    decreases |lines|
  {
    if |lines| > 0 {
      var init := lines[..|lines| - 1];
      AssignedProvenance(init, o);
      var before := Assigned(init, o).value;
      var docs := Assigned(lines, o).value;
      forall i | 0 <= i < |docs|
        ensures o.addDocument(docs[i]) &&
          exists j :: 0 <= j < |lines| && lines[j].Ok? && RawSmiles(lines[j].value, o).Ok? &&
            o.standardize(RawSmiles(lines[j].value, o).value) == Ok(Mol(docs[i].smiles))
      {
        if i < |before| {
          assert docs[i] == before[i];
          var j :| 0 <= j < |init| && init[j].Ok? && RawSmiles(init[j].value, o).Ok? &&
            o.standardize(RawSmiles(init[j].value, o).value) == Ok(Mol(before[i].smiles));
          assert lines[j] == init[j];
        } else {
          var last := |lines| - 1;
          assert lines[last].Ok? && RawSmiles(lines[last].value, o).Ok?;
        }
      }
    }
  }

  /** A line whose scaffold fails to standardize, or whose write fails, adds nothing and
      uses up no id. */
  lemma SkippedLineKeepsIds(lines: seq<Result<string>>, line: string, o: LineOracles)
    requires Assigned(lines, o).Ok? && RawSmiles(line, o).Ok?
    requires var raw := RawSmiles(line, o).value;
      o.standardize(raw).Err? ||
      !o.addDocument(ScaffoldDoc(o.standardize(raw).value.smiles, |Assigned(lines, o).value|))
    ensures Assigned(lines + [Ok(line)], o) == Assigned(lines, o)
  {
    assert (lines + [Ok(line)])[..|lines|] == lines;
  }

  /** A line that is written takes the next id, one past the last. */
  lemma WrittenLineTakesNextId(lines: seq<Result<string>>, line: string, o: LineOracles)
    requires Assigned(lines, o).Ok? && RawSmiles(line, o).Ok?
    requires var raw := RawSmiles(line, o).value;
      o.standardize(raw).Ok? &&
      o.addDocument(ScaffoldDoc(o.standardize(raw).value.smiles, |Assigned(lines, o).value|))
    ensures var written := Assigned(lines, o).value;
      Assigned(lines + [Ok(line)], o) ==
        Ok(written + [ScaffoldDoc(o.standardize(RawSmiles(line, o).value).value.smiles, |written|)])
  {
    assert (lines + [Ok(line)])[..|lines|] == lines;
  }

  /** The loop over the lines: it stops at the first fatal line. */
  method AssignIds(lines: seq<Result<string>>, o: LineOracles) returns (r: Result<seq<ScaffoldDoc>>)
    ensures r == Assigned(lines, o)
  {
    var written: seq<ScaffoldDoc> := [];
    var scaffoldId: nat := 0;
    for i := 0 to |lines|
      invariant Assigned(lines[..i], o) == Ok(written)
      invariant scaffoldId == |written|
    {
      assert lines[..i + 1][..i] == lines[..i];
      if lines[i].Err? {
        AssignedErrSticky(lines, i + 1, o);
        return Err(lines[i].error);
      }
      var raw := RawSmiles(lines[i].value, o);
      if raw.Err? {
        AssignedErrSticky(lines, i + 1, o);
        return Err(raw.error);
      }
      var romol := o.standardize(raw.value);
      if romol.Ok? {
        var doc := ScaffoldDoc(romol.value.smiles, scaffoldId);
        if o.addDocument(doc) {
          written := written + [doc];
          scaffoldId := scaffoldId + 1;
        }
      }
    }
    assert lines[..|lines|] == lines;
    r := Ok(written);
  }

  /** Once a prefix fails, the whole file fails with the same error. */
  lemma {:induction false} AssignedErrSticky(lines: seq<Result<string>>, n: nat, o: LineOracles)
    requires n <= |lines| && Assigned(lines[..n], o).Err?
    ensures Assigned(lines, o) == Assigned(lines[..n], o)
    decreases |lines| - n
  {
    if n < |lines| {
      assert lines[..n + 1][..n] == lines[..n];
      AssignedErrSticky(lines, n + 1, o);
    } else {
      assert lines[..n] == lines;
    }
  }

  /** The schema library's name for the scaffold schema. */
  const SCAFFOLD_SCHEMA := "scaffold"

  /** `action`: the index path is split, the manager opened without creating the storage
      directory, the scaffold schema looked up, the index created with `force`, and the
      lines indexed; the commit's result is ignored and the answer is the number of
      written scaffolds plus one. */
  method IndexScaffoldsAction(fs: Storage, indexPath: string, library: map<string, Schema>,
                              lines: Result<seq<Result<string>>>, o: LineOracles)
    returns (r: Result<nat>, docs: seq<ScaffoldDoc>)
    modifies fs
    ensures IndexPaths.SplitPath(indexPath).Err? ==> r.Err? && docs == [] && fs.entries == old(fs.entries)
    ensures IndexPaths.SplitPath(indexPath).Ok? && SCAFFOLD_SCHEMA !in library ==>
      r.Err? && docs == [] && fs.entries == old(fs.entries)
    ensures r.Ok? ==> (IndexPaths.SplitPath(indexPath).Ok? && SCAFFOLD_SCHEMA in library &&
      lines.Ok? && Assigned(lines.value, o) == Ok(docs) && r.value == |docs| + 1)
    ensures r.Ok? ==> var (storageDir, name) := IndexPaths.SplitPath(indexPath).value;
      HoldsIndex(fs.entries, PathJoin(storageDir, name)) &&
      fs.entries[PathJoin(storageDir, name)].index.value == Index(library[SCAFFOLD_SCHEMA], None)
  {
    docs := [];
    var split := IndexPaths.SplitPath(indexPath);
    if split.Err? {
      return Err(split.error), docs;
    }
    var (storageDir, indexName) := split.value;
    var manager := IndexManager.New(fs, storageDir, false);
    if manager.Err? {
      return Err(manager.error), docs;
    }
    if SCAFFOLD_SCHEMA !in library {
      return Err("The specified schema does not exist"), docs;
    }
    var schema := library[SCAFFOLD_SCHEMA];
    var index := manager.value.Create(fs, indexName, schema, true, None);
    if index.Err? {
      return Err(index.error), docs;
    }
    if "smiles" !in schema.fields || "id" !in schema.fields {
      return Err("field not found in schema"), docs;
    }
    if lines.Err? {
      return Err(lines.error), docs;
    }
    CreateSucceeds(old(fs.entries), storageDir, indexName, schema, true, None);
    var outcome := AssignIds(lines.value, o);
    if outcome.Err? {
      return Err(outcome.error), docs;
    }
    docs := outcome.value;
    r := Ok(|docs| + 1);
  }
}
