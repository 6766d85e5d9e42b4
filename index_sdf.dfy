/** The `index-sdf` command (src/command_line/indexing/index_sdf.rs): read molecules,
    buffer them in chunks, turn each chunk into documents and add them to the index,
    counting what was processed and what failed. */
module IndexSdf {
  import opened Wrappers
  import opened Text
  import opened Chem
  import opened Json
  import opened TantivyDocs
  import Scaffolds
  import Indexing
  import CliArgs

  const DEFAULT_CHUNK_SIZE: nat := 1000

  /** `encode_fingerprints(bitvecs, true)` as this command uses it: one cluster per
      fingerprint. */
  type SdfEncoder = seq<Bits> -> Result<seq<int>>

  /** The chemistry and the index writer the command calls. `commitAnswer(n)` is the
      writer's answer to the intermediate commit made after `n` successful ones. */
  datatype SdfEnv = SdfEnv(
    process: Indexing.ProcessCpd,
    morgan: Mol -> Bits,
    scaffolds: seq<Scaffolds.Scaffold>,
    substructMatch: SubstructOracle,
    encoder: SdfEncoder,
    addDocument: NewDoc -> bool,
    commitAnswer: nat -> Result<()>)

  /** The encoder answers one cluster per fingerprint whenever it succeeds; the command
      indexes its answer by position. */
  ghost predicate EncoderAnswersEach(encoder: SdfEncoder)
  {
    forall bits: seq<Bits> :: encoder(bits).Ok? ==> |encoder(bits).value| == |bits|
  }

  /** `create_tantivy_doc` of this command: base fields, descriptors, then the merged
      scaffold/cluster object. */
  function SdfDoc(mol: Mol, patternFp: Bits, morganFp: Bits, descriptors: Descriptors, cluster: int, env: SdfEnv): NewDoc
  {
    var matches := Scaffolds.MatchingScaffolds(env.scaffolds, patternFp, mol, env.substructMatch);
    var other := Combined(Some(Indexing.ScaffoldJson(Indexing.StoredScaffoldIds(matches))), Some(Indexing.ClusterJson(cluster)));
    [("smiles", Text(mol.smiles)), ("pattern_fingerprint", Bytes(patternFp)), ("morgan_fingerprint", Bytes(morganFp))] +
    Indexing.DescriptorFields(descriptors, Indexing.KNOWN_DESCRIPTORS) +
    (if other.Some? then [("other_descriptors", JsonValue(other.value))] else [])
  }

  /** The last field is `other_descriptors`, whose scaffold list is `[-1]` exactly when
      no scaffold matches. */
  lemma SdfDocSpec(mol: Mol, patternFp: Bits, morganFp: Bits, descriptors: Descriptors, cluster: int, env: SdfEnv)
    ensures var doc := SdfDoc(mol, patternFp, morganFp, descriptors, cluster, env);
      var matches := Scaffolds.MatchingScaffolds(env.scaffolds, patternFp, mol, env.substructMatch);
      |doc| >= 4 && doc[0] == ("smiles", Text(mol.smiles)) &&
      doc[|doc| - 1].0 == "other_descriptors" && doc[|doc| - 1].1.JsonValue? &&
      doc[|doc| - 1].1.json.Object? &&
      doc[|doc| - 1].1.json.fields.Keys == {"scaffolds", "similarity_cluster"} &&
      doc[|doc| - 1].1.json.fields["similarity_cluster"] == Int(cluster) &&
      (doc[|doc| - 1].1.json.fields["scaffolds"] == Array([Int(-1)]) <==> |matches| == 0)
  {
    var matches := Scaffolds.MatchingScaffolds(env.scaffolds, patternFp, mol, env.substructMatch);
    var ids := Indexing.StoredScaffoldIds(matches);
    CombinedObjects(Indexing.ScaffoldJson(ids).fields, Indexing.ClusterJson(cluster).fields);
    if |matches| > 0 {
      assert ids[0] == matches[0] as int >= 0;
      assert Indexing.ScaffoldJson(ids).fields["scaffolds"].items[0] == Int(ids[0]);
    } else {
      assert Indexing.ScaffoldJson(ids).fields["scaffolds"].items == [Int(-1)];
    }
  }

  /** The molecules whose processing succeeded, with their results, in order. */
  function Processed(mols: seq<Mol>, env: SdfEnv): (r: seq<(Mol, Bits, Descriptors)>)
    ensures |r| <= |mols|
  {
    if |mols| == 0 then []
    else
      var init := Processed(mols[..|mols| - 1], env);
      match env.process(mols[|mols| - 1].smiles)
      case Ok(a) => init + [a]
      case Err(_) => init
  }

  /** `batch_doc_creation` of this command: the documents of one chunk, and how many of
      its molecules it counted as failed. */
  function SdfBatch(mols: seq<Mol>, env: SdfEnv): (Result<seq<NewDoc>>, nat)
    requires EncoderAnswersEach(env.encoder)
  {
    var processed := Processed(mols, env);
    var processingFailures: nat := |mols| - |processed|;
    var morgans := seq(|processed|, i requires 0 <= i < |processed| => env.morgan(processed[i].0));
    match env.encoder(morgans)
    case Err(e) =>
      var allFailed: nat := processingFailures + |morgans|;
      (Err("Failed batched similarity cluster assignment: " + e), allFailed)
    case Ok(clusters) =>
      (Ok(seq(|processed|, i requires 0 <= i < |processed| =>
            SdfDoc(processed[i].0, processed[i].1, morgans[i], processed[i].2, clusters[i], env))),
       processingFailures)
  }

  /** Every molecule of a chunk is either in a document or counted as failed, and a
      failed cluster assignment counts the whole chunk. */
  lemma SdfBatchAccounts(mols: seq<Mol>, env: SdfEnv)
    requires EncoderAnswersEach(env.encoder)
    ensures SdfBatch(mols, env).0.Ok? ==> |SdfBatch(mols, env).0.value| + SdfBatch(mols, env).1 == |mols|
    ensures SdfBatch(mols, env).0.Err? ==> SdfBatch(mols, env).1 == |mols|
  {
  }

  /** The documents the writer accepted, and how many it refused. */
  function AddAll(docs: seq<NewDoc>, addDocument: NewDoc -> bool): (r: (seq<NewDoc>, nat))
    ensures |r.0| + r.1 == |docs|
  {
    if |docs| == 0 then ([], 0)
    else
      var (added, refused) := AddAll(docs[..|docs| - 1], addDocument);
      if addDocument(docs[|docs| - 1]) then (added + [docs[|docs| - 1]], refused) else (added, refused + 1)
  }

  /** The molecules that were read, in order. */
  function ReadMols(items: seq<Result<Mol>>): (r: seq<Mol>)
    ensures |r| <= |items|
  {
    if |items| == 0 then []
    else
      var init := ReadMols(items[..|items| - 1]);
      if items[|items| - 1].Ok? then init + [items[|items| - 1].value] else init
  }

  lemma ReadMolsStep(items: seq<Result<Mol>>, i: nat)
    requires i < |items|
    ensures ReadMols(items[..i + 1]) == ReadMols(items[..i]) + (if items[i].Ok? then [items[i].value] else [])
  {
    assert items[..i + 1][..i] == items[..i];
  }

  /** The counters and index effects of one run. */
  datatype SdfOutcome = SdfOutcome(counter: nat, failedCounter: nat, written: seq<NewDoc>, commits: nat)

  /** One chunk run through `batch_doc_creation` and the writer: the documents written and
      the failures counted. */
  method ProcessChunk(molVec: seq<Mol>, env: SdfEnv) returns (written: seq<NewDoc>, failed: nat, ok: bool)
    requires EncoderAnswersEach(env.encoder)
    ensures |written| + failed == |molVec|
    ensures ok <==> SdfBatch(molVec, env).0.Ok?
    ensures ok ==> written == AddAll(SdfBatch(molVec, env).0.value, env.addDocument).0
    ensures !ok ==> written == []
  {
    SdfBatchAccounts(molVec, env);
    var (docBatchResult, batchFailures) := SdfBatch(molVec, env);
    failed := batchFailures;
    ok := docBatchResult.Ok?;
    written := [];
    if ok {
      var (added, refused) := AddAll(docBatchResult.value, env.addDocument);
      written := added;
      failed := failed + refused;
    }
  }

  /** The chunk sizes of a run: all batches non-empty, all but the last exactly
      `chunkSize`, none larger. */
  ghost predicate ChunkShape(batches: seq<seq<Mol>>, chunkSize: nat)
  {
    (forall k :: 0 <= k < |batches| ==> 0 < |batches[k]|) &&
    (chunkSize > 0 ==> forall k :: 0 <= k < |batches| ==> |batches[k]| <= chunkSize) &&
    (forall k :: 0 <= k < |batches| - 1 ==> |batches[k]| == chunkSize)
  }

  /** The number of chunks whose documents were created, each of which is followed by an
      intermediate commit under `--commit`. */
  ghost function OkCount(batches: seq<seq<Mol>>, env: SdfEnv): (n: nat)
    requires EncoderAnswersEach(env.encoder)
    ensures n <= |batches|
  {
    if |batches| == 0 then 0
    else OkCount(batches[..|batches| - 1], env) + (if SdfBatch(batches[|batches| - 1], env).0.Ok? then 1 else 0)
  }

  /** What the read loop has consumed after the first `i` items: the flushed chunks, all
      full, then the buffer, are the readable molecules, and every item is written,
      counted as failed or buffered. */
  ghost predicate Consumed(taken: seq<Result<Mol>>, i: nat, chunkSize: nat, failedCounter: nat,
                           written: seq<NewDoc>, molVec: seq<Mol>, batches: seq<seq<Mol>>)
    requires i <= |taken|
  {
    Indexing.Flatten(batches) + molVec == ReadMols(taken[..i]) &&
    (chunkSize > 0 ==> |molVec| < chunkSize) &&
    |written| + failedCounter + |molVec| == i &&
    failedCounter >= i - |ReadMols(taken[..i])| &&
    (forall k :: 0 <= k < |batches| ==> |batches[k]| == chunkSize > 0)
  }

  /** What the read loop keeps between molecules: the counter covers the flushed chunks,
      and under `--commit` every chunk with documents was followed by a commit that
      succeeded. */
  ghost predicate LoopInvariant(taken: seq<Result<Mol>>, i: nat, chunkSize: nat, commit: bool,
                                counter: nat, failedCounter: nat, written: seq<NewDoc>, commits: nat,
                                molVec: seq<Mol>, batches: seq<seq<Mol>>, env: SdfEnv)
    requires i <= |taken| && EncoderAnswersEach(env.encoder)
  {
    Consumed(taken, i, chunkSize, failedCounter, written, molVec, batches) &&
    |molVec| + counter == |ReadMols(taken[..i])| &&
    commits == (if commit then OkCount(batches, env) else 0) &&
    (forall c :: 0 <= c < commits ==> env.commitAnswer(c).Ok?)
  }

  /** The state in which `index_writer.commit()?` ends the action: the last flushed chunk
      had documents, and the commit after it is the first one refused. */
  ghost predicate Refused(taken: seq<Result<Mol>>, i: nat, chunkSize: nat, failedCounter: nat,
                          written: seq<NewDoc>, commits: nat, batches: seq<seq<Mol>>, env: SdfEnv)
    requires i <= |taken| && EncoderAnswersEach(env.encoder)
  {
    Consumed(taken, i, chunkSize, failedCounter, written, [], batches) &&
    commits + 1 == OkCount(batches, env) &&
    (forall c :: 0 <= c < commits ==> env.commitAnswer(c).Ok?) &&
    env.commitAnswer(commits).Err?
  }

  /** A buffer is processed and recorded as one more chunk; with `commit`, a chunk whose
      documents were created is committed, and a refused commit is reported. */
  method FlushChunk(molVec: seq<Mol>, commit: bool, env: SdfEnv, written: seq<NewDoc>, failedCounter: nat, commits: nat, batches: seq<seq<Mol>>)
    returns (writtenNext: seq<NewDoc>, failedCounterNext: nat, commitsNext: nat, batchesNext: seq<seq<Mol>>, refused: bool)
    requires EncoderAnswersEach(env.encoder)
    ensures |writtenNext| + failedCounterNext == |written| + failedCounter + |molVec|
    ensures failedCounterNext >= failedCounter
    ensures batchesNext == batches + [molVec]
    ensures Indexing.Flatten(batchesNext) == Indexing.Flatten(batches) + molVec
    ensures OkCount(batchesNext, env) == OkCount(batches, env) + (if SdfBatch(molVec, env).0.Ok? then 1 else 0)
    ensures refused <==> commit && SdfBatch(molVec, env).0.Ok? && env.commitAnswer(commits).Err?
    ensures commitsNext == if commit && SdfBatch(molVec, env).0.Ok? && !refused then commits + 1 else commits
  {
    var chunkWritten, chunkFailed, ok := ProcessChunk(molVec, env);
    writtenNext := written + chunkWritten;
    failedCounterNext := failedCounter + chunkFailed;
    commitsNext := commits;
    refused := false;
    if ok && commit {
      if env.commitAnswer(commits).Err? {
        refused := true;
      } else {
        commitsNext := commits + 1;
      }
    }
    Indexing.FlattenSnoc(batches, molVec);
    batchesNext := batches + [molVec];
    assert batchesNext[..|batches|] == batches;
  }

  /** The read loop of `action`: failed reads are counted, molecules are buffered, and a
      full buffer is flushed; a refused intermediate commit ends the loop at its item. */
  method ReadLoop(taken: seq<Result<Mol>>, chunkSize: nat, commit: bool, env: SdfEnv)
    returns (counter: nat, failedCounter: nat, written: seq<NewDoc>, commits: nat, molVec: seq<Mol>, batches: seq<seq<Mol>>,
             refusedAt: Option<nat>)
    requires EncoderAnswersEach(env.encoder)
    ensures refusedAt.None? ==>
      LoopInvariant(taken, |taken|, chunkSize, commit, counter, failedCounter, written, commits, molVec, batches, env)
    ensures refusedAt.Some? ==>
      refusedAt.value < |taken| && commit &&
      Refused(taken, refusedAt.value + 1, chunkSize, failedCounter, written, commits, batches, env)
  {
    batches := [];
    counter, failedCounter, written, commits, molVec := 0, 0, [], 0, [];
    refusedAt := None;
    for i := 0 to |taken|
      invariant LoopInvariant(taken, i, chunkSize, commit, counter, failedCounter, written, commits, molVec, batches, env)
    {
      if taken[i].Err? {
        ReadMolsStep(taken, i);
        failedCounter := failedCounter + 1;
        continue;
      }
      var refused;
      counter, failedCounter, written, commits, molVec, batches, refused :=
        BufferMolecule(taken, i, chunkSize, commit, env, counter, failedCounter, written, commits, molVec, batches);
      if refused {
        refusedAt := Some(i);
        return;
      }
    }
  }

  /** One molecule read: it joins the buffer, which is flushed once full. */
  method BufferMolecule(taken: seq<Result<Mol>>, i: nat, chunkSize: nat, commit: bool, env: SdfEnv,
                        counter: nat, failedCounter: nat, written: seq<NewDoc>, commits: nat, molVec: seq<Mol>, batches: seq<seq<Mol>>)
    returns (counterNext: nat, failedCounterNext: nat, writtenNext: seq<NewDoc>, commitsNext: nat, molVecNext: seq<Mol>,
             batchesNext: seq<seq<Mol>>, refused: bool)
    requires EncoderAnswersEach(env.encoder)
    requires i < |taken| && taken[i].Ok?
    requires LoopInvariant(taken, i, chunkSize, commit, counter, failedCounter, written, commits, molVec, batches, env)
    ensures !refused ==>
      LoopInvariant(taken, i + 1, chunkSize, commit, counterNext, failedCounterNext, writtenNext, commitsNext, molVecNext, batchesNext, env)
    ensures refused ==>
      commit && Refused(taken, i + 1, chunkSize, failedCounterNext, writtenNext, commitsNext, batchesNext, env)
  {
    if |molVec| + 1 == chunkSize {
      counterNext, failedCounterNext, writtenNext, commitsNext, batchesNext, refused :=
        FlushFull(taken, i, chunkSize, commit, env, counter, failedCounter, written, commits, molVec, batches);
      molVecNext := [];
    } else {
      ReadMolsStep(taken, i);
      counterNext, failedCounterNext, writtenNext, commitsNext, batchesNext := counter, failedCounter, written, commits, batches;
      refused := false;
      molVecNext := molVec + [taken[i].value];
      assert Indexing.Flatten(batches) + molVecNext == ReadMols(taken[..i + 1]);
    }
  }

  /** The molecule that fills the buffer: the full buffer is flushed and the buffer
      starts again empty. */
  method FlushFull(taken: seq<Result<Mol>>, i: nat, chunkSize: nat, commit: bool, env: SdfEnv,
                   counter: nat, failedCounter: nat, written: seq<NewDoc>, commits: nat, molVec: seq<Mol>, batches: seq<seq<Mol>>)
    returns (counterNext: nat, failedCounterNext: nat, writtenNext: seq<NewDoc>, commitsNext: nat,
             batchesNext: seq<seq<Mol>>, refused: bool)
    requires EncoderAnswersEach(env.encoder)
    requires i < |taken| && taken[i].Ok? && |molVec| + 1 == chunkSize
    requires LoopInvariant(taken, i, chunkSize, commit, counter, failedCounter, written, commits, molVec, batches, env)
    ensures !refused ==>
      LoopInvariant(taken, i + 1, chunkSize, commit, counterNext, failedCounterNext, writtenNext, commitsNext, [], batchesNext, env)
    ensures refused ==>
      commit && Refused(taken, i + 1, chunkSize, failedCounterNext, writtenNext, commitsNext, batchesNext, env)
  {
    ReadMolsStep(taken, i);
    var full := molVec + [taken[i].value];
    assert Indexing.Flatten(batches) + full == ReadMols(taken[..i + 1]);
    counterNext := counter;
    writtenNext, failedCounterNext, commitsNext, batchesNext, refused := FlushChunk(full, commit, env, written, failedCounter, commits, batches);
    assert Indexing.Flatten(batchesNext) + [] == ReadMols(taken[..i + 1]);
    assert forall k :: 0 <= k < |batches| ==> batchesNext[k] == batches[k];
    assert batchesNext[|batches|] == full;
    assert Consumed(taken, i + 1, chunkSize, failedCounterNext, writtenNext, [], batchesNext);
    if !refused {
      counterNext := counter + chunkSize;
    }
  }

  /** A run that read every item: the counter is the number of molecules read, every item
      is written or counted as failed, the chunks are the read molecules in order, all
      full but the last, every intermediate commit succeeded, and the final commit is
      always made. */
  ghost predicate CompletedRun(taken: seq<Result<Mol>>, chunkSize: nat, commit: bool, env: SdfEnv,
                               outcome: SdfOutcome, batches: seq<seq<Mol>>)
  {
    outcome.counter == |ReadMols(taken)| &&
    |outcome.written| + outcome.failedCounter == |taken| &&
    outcome.failedCounter >= |taken| - |ReadMols(taken)| &&
    Indexing.Flatten(batches) == ReadMols(taken) &&
    ChunkShape(batches, chunkSize) &&
    1 <= outcome.commits <= |batches| + 1 && (!commit ==> outcome.commits == 1) &&
    (forall c :: 0 <= c < outcome.commits - 1 ==> env.commitAnswer(c).Ok?)
  }

  /** A run ended by a refused commit: the chunks flushed so far are full and are the
      molecules of a prefix of the items, and the error is the answer to the first
      intermediate commit refused, the one after the last chunk. */
  ghost predicate RefusedRun(taken: seq<Result<Mol>>, chunkSize: nat, env: SdfEnv, error: string, batches: seq<seq<Mol>>)
    requires EncoderAnswersEach(env.encoder)
  {
    (forall k :: 0 <= k < |batches| ==> |batches[k]| == chunkSize > 0) &&
    (exists i :: 0 < i <= |taken| && Indexing.Flatten(batches) == ReadMols(taken[..i])) &&
    var n := OkCount(batches, env);
    0 < n && env.commitAnswer(n - 1) == Err(error) &&
    (forall c :: 0 <= c < n - 1 ==> env.commitAnswer(c).Ok?)
  }

  /** A refused commit met after `i` items leaves a refused run behind. */
  lemma RefusedRunOf(taken: seq<Result<Mol>>, i: nat, chunkSize: nat, failedCounter: nat,
                     written: seq<NewDoc>, commits: nat, batches: seq<seq<Mol>>, env: SdfEnv)
    requires EncoderAnswersEach(env.encoder)
    requires 0 < i <= |taken|
    requires Refused(taken, i, chunkSize, failedCounter, written, commits, batches, env)
    ensures RefusedRun(taken, chunkSize, env, env.commitAnswer(commits).error, batches)
  {
    assert Indexing.Flatten(batches) + [] == Indexing.Flatten(batches);
    assert Indexing.Flatten(batches) == ReadMols(taken[..i]);
  }

  /** After the last item: the non-empty buffer left is flushed without a commit, whose
      answer would be ignored, and the final commit is counted. */
  method FinishRun(taken: seq<Result<Mol>>, chunkSize: nat, commit: bool, env: SdfEnv,
                   counter: nat, failedCounter: nat, written: seq<NewDoc>, commits: nat, molVec: seq<Mol>, batches: seq<seq<Mol>>)
    returns (outcome: SdfOutcome, batchesNext: seq<seq<Mol>>)
    requires EncoderAnswersEach(env.encoder)
    requires LoopInvariant(taken, |taken|, chunkSize, commit, counter, failedCounter, written, commits, molVec, batches, env)
    ensures CompletedRun(taken, chunkSize, commit, env, outcome, batchesNext)
  {
    assert taken[..|taken|] == taken;
    var counterNext, failedCounterNext, writtenNext := counter, failedCounter, written;
    batchesNext := batches;
    if |molVec| > 0 {
      var lastChunksize := |molVec|;
      var ignoredCommits, ignoredRefusal;
      writtenNext, failedCounterNext, ignoredCommits, batchesNext, ignoredRefusal := FlushChunk(molVec, false, env, written, failedCounter, commits, batches);
      counterNext := counter + lastChunksize;
    } else {
      assert Indexing.Flatten(batches) + [] == Indexing.Flatten(batches);
    }
    outcome := SdfOutcome(counterNext, failedCounterNext, writtenNext, commits + 1);
  }

  /** The read loop of `action` and the final flush and commit, whose answer is ignored;
      a refused intermediate commit ends the run with its error. */
  method IndexMolecules(taken: seq<Result<Mol>>, chunkSize: nat, commit: bool, env: SdfEnv)
    returns (r: Result<SdfOutcome>, batches: seq<seq<Mol>>)
    requires EncoderAnswersEach(env.encoder)
    ensures r.Ok? ==> CompletedRun(taken, chunkSize, commit, env, r.value, batches)
    ensures r.Err? ==> commit && RefusedRun(taken, chunkSize, env, r.error, batches)
  {
    var counter, failedCounter, written, commits, molVec, refusedAt;
    counter, failedCounter, written, commits, molVec, batches, refusedAt := ReadLoop(taken, chunkSize, commit, env);
    if refusedAt.Some? {
      RefusedRunOf(taken, refusedAt.value + 1, chunkSize, failedCounter, written, commits, batches, env);
      return Err(env.commitAnswer(commits).error), batches;
    }
    var outcome;
    outcome, batches := FinishRun(taken, chunkSize, commit, env, counter, failedCounter, written, commits, molVec, batches);
    r := Ok(outcome);
  }

  /** The molecules `take(limit)` lets through. */
  function Take(mols: seq<Result<Mol>>, n: nat): (r: seq<Result<Mol>>)
    ensures |r| == if n < |mols| then n else |mols|
    ensures forall i :: 0 <= i < |r| ==> r[i] == mols[i]
  {
    mols[..if n < |mols| then n else |mols|]
  }

  /** The part of `action` after the options: a limit that does not parse is the error of
      `parse`; otherwise the first `limit` items (all without one) are indexed. */
  ghost predicate LimitedRun(mols: seq<Result<Mol>>, limit: Option<string>, chunkSize: nat, commit: bool, env: SdfEnv,
                             r: Result<SdfOutcome>, batches: seq<seq<Mol>>)
    requires EncoderAnswersEach(env.encoder)
  {
    if limit.Some? && CliArgs.ParseCount(limit.value).Err? then r == Err(CliArgs.ParseCount(limit.value).error)
    else
      var taken := if limit.Some? then Take(mols, CliArgs.ParseCount(limit.value).value) else mols;
      (r.Ok? ==> CompletedRun(taken, chunkSize, commit, env, r.value, batches)) &&
      (r.Err? ==> commit && RefusedRun(taken, chunkSize, env, r.error, batches))
  }

  /** The limit, then the run over the items it lets through. Directory set-up and the
      schema are I/O. */
  method IndexWithLimit(mols: seq<Result<Mol>>, limit: Option<string>, chunkSize: nat, commit: bool, env: SdfEnv)
    returns (r: Result<SdfOutcome>, batches: seq<seq<Mol>>)
    requires EncoderAnswersEach(env.encoder)
    ensures LimitedRun(mols, limit, chunkSize, commit, env, r, batches)
  {
    var taken := mols;
    if limit.Some? {
      var n := CliArgs.ParseCount(limit.value);
      if n.Err? {
        return Err(n.error), [];
      }
      taken := Take(mols, n.value);
    }
    r, batches := IndexMolecules(taken, chunkSize, commit, env);
  }

  /** `action` of `index-sdf` as written: `chunk-size` is declared without a value parser,
      so clap stores the given text, and reading it back as a `usize` panics. Only the
      default of 1000 is ever used. */
  method IndexSdfAction(mols: seq<Result<Mol>>, limit: Option<string>, chunkSizeArg: Option<string>, commit: bool, env: SdfEnv)
    returns (r: Result<SdfOutcome>, batches: seq<seq<Mol>>)
    requires EncoderAnswersEach(env.encoder)
    ensures chunkSizeArg.Some? ==> r == Err(PANIC)
    ensures chunkSizeArg.None? ==> LimitedRun(mols, limit, DEFAULT_CHUNK_SIZE, commit, env, r, batches)
  {
    if chunkSizeArg.Some? {
      return Err(PANIC), [];
    }
    r, batches := IndexWithLimit(mols, limit, DEFAULT_CHUNK_SIZE, commit, env);
  }

  /** `action` with the chunk size parsed as a `usize`, as the flag is meant to work: a
      size that does not parse is the error of `parse`, a given size is the chunk size,
      and 1000 is the default. */
  method IndexSdfActionParsed(mols: seq<Result<Mol>>, limit: Option<string>, chunkSizeArg: Option<string>, commit: bool, env: SdfEnv)
    returns (r: Result<SdfOutcome>, batches: seq<seq<Mol>>)
    requires EncoderAnswersEach(env.encoder)
    ensures chunkSizeArg.Some? && CliArgs.ParseCount(chunkSizeArg.value).Err? ==>
      r == Err(CliArgs.ParseCount(chunkSizeArg.value).error)
    ensures chunkSizeArg.Some? && CliArgs.ParseCount(chunkSizeArg.value).Ok? ==>
      LimitedRun(mols, limit, CliArgs.ParseCount(chunkSizeArg.value).value, commit, env, r, batches)
    ensures chunkSizeArg.None? ==> LimitedRun(mols, limit, DEFAULT_CHUNK_SIZE, commit, env, r, batches)
  {
    var chunkSize := DEFAULT_CHUNK_SIZE;
    if chunkSizeArg.Some? {
      var n := CliArgs.ParseCount(chunkSizeArg.value);
      if n.Err? {
        return Err(n.error), [];
      }
      chunkSize := n.value;
    }
    r, batches := IndexWithLimit(mols, limit, chunkSize, commit, env);
  }
}
