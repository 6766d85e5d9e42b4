/** Document construction for the compound index (src/indexing/mod.rs): per-compound
    attributes, batched similarity-cluster encoding, and the Tantivy document fields. */
module Indexing {
  import opened Wrappers
  import opened Text
  import opened Chem
  import opened Json
  import opened TantivyDocs
  import Scaffolds

  /** The descriptor fields of the compound schema, in declaration order. */
  const KNOWN_DESCRIPTORS: seq<string> := [
    "CrippenClogP", "CrippenMR", "FractionCSP3", "NumAliphaticHeterocycles", "NumAliphaticRings",
    "NumAmideBonds", "NumAromaticHeterocycles", "NumAromaticRings", "NumAtomStereoCenters", "NumAtoms",
    "NumBridgeheadAtoms", "NumHBA", "NumHBD", "NumHeavyAtoms", "NumHeteroatoms",
    "NumHeterocycles", "NumRings", "NumRotatableBonds", "NumSaturatedHeterocycles", "NumSaturatedRings",
    "NumSpiroAtoms", "NumUnspecifiedAtomStereoCenters", "Phi", "amw", "chi0n",
    "chi0v", "chi1n", "chi1v", "chi2n", "chi2v",
    "chi3n", "chi3v", "chi4n", "chi4v", "exactmw",
    "hallKierAlpha", "kappa1", "kappa2", "kappa3", "labuteASA",
    "lipinskiHBA", "lipinskiHBD", "tpsa"]

  /** The similarity clusters are assigned in batches of this many fingerprints. */
  const BATCH_SIZE: nat := 200

  const PASSED: string := "Passed"

  const I64_MIN: int := -0x8000_0000_0000_0000
  const I64_MAX: int := 0x7FFF_FFFF_FFFF_FFFF

  /** Descriptors stored as integers: names starting with `Num` or `lipinski`. */
  predicate IsIntegerDescriptor(name: string)
  {
    StartsWith(name, "Num") || StartsWith(name, "lipinski")
  }

  /** Rust `f64 as i64`: truncation toward zero, saturating at the i64 range. */
  function AsI64(v: real): (r: int)
    ensures I64_MIN <= r <= I64_MAX
    ensures I64_MIN as real <= v <= I64_MAX as real && v >= 0.0 ==> r as real <= v < r as real + 1.0
    ensures I64_MIN as real <= v <= I64_MAX as real && v < 0.0 ==> r as real - 1.0 < v <= r as real
  {
    if v >= I64_MAX as real then I64_MAX
    else if v <= I64_MIN as real then I64_MIN
    else if v >= 0.0 then v.Floor
    else -((-v).Floor)
  }

  /** `HashMap::get` on the descriptor map (names are unique, so the first entry). */
  function Lookup(descriptors: Descriptors, name: string): (r: Option<real>)
    ensures r.Some? <==> exists i :: 0 <= i < |descriptors| && descriptors[i].0 == name
  {
    if |descriptors| == 0 then None
    else if descriptors[0].0 == name then Some(descriptors[0].1.value)
    else Lookup(descriptors[1..], name)
  }

  /** The attributes of one compound ready for indexing. */
  datatype CompoundDocAttributes = CompoundDocAttributes(
    smiles: string,
    extraData: Option<Json>,
    patternFingerprint: Bits,
    morganFingerprint: Bits,
    descriptors: Descriptors,
    scaffoldIds: seq<int>,
    status: string)

  /** `process_cpd(smiles, false)`: standardized molecule, pattern fingerprint and
      descriptors. */
  type ProcessCpd = string -> Result<(Mol, Bits, Descriptors)>

  /** `encode_fingerprints(bitvecs, true)`: the ranked-cluster list of each fingerprint. */
  type BatchEncoder = seq<Bits> -> Result<seq<seq<int>>>

  /** The chemistry the attributes need: processing, the Morgan fingerprint, and the
      scaffold library with its substructure oracle. */
  datatype IndexEnv = IndexEnv(
    process: ProcessCpd,
    morgan: Mol -> Bits,
    scaffolds: seq<Scaffolds.Scaffold>,
    substructMatch: SubstructOracle)

  function IdsAsInts(ids: seq<nat>): (r: seq<int>)
    ensures |r| == |ids| && forall i :: 0 <= i < |ids| ==> r[i] == ids[i] as int
  {
    seq(|ids|, i requires 0 <= i < |ids| => ids[i] as int)
  }

  /** The scaffold ids stored for a compound: the matches, or `[-1]` when none match. */
  function StoredScaffoldIds(matches: seq<nat>): (r: seq<int>)
  {
    if |matches| == 0 then [-1] else IdsAsInts(matches)
  }

  /** `get_compound_doc_attributes`. */
  function GetCompoundDocAttributes(rawSmiles: string, extraData: Option<Json>, env: IndexEnv): Result<CompoundDocAttributes>
  {
    match env.process(rawSmiles)
    case Err(e) => Err(e)
    case Ok((mol, patternFp, descriptors)) =>
      var matches := Scaffolds.MatchingScaffolds(env.scaffolds, patternFp, mol, env.substructMatch);
      Ok(CompoundDocAttributes(mol.smiles, extraData, patternFp, env.morgan(mol), descriptors,
                               StoredScaffoldIds(matches), PASSED))
  }

  /** Processing failures are passed on; a success is marked "Passed", keeps the extra
      data, and stores the matching scaffold ids, or exactly `[-1]` when none match. */
  lemma GetCompoundDocAttributesSpec(rawSmiles: string, extraData: Option<Json>, env: IndexEnv)
    ensures env.process(rawSmiles).Err? ==> GetCompoundDocAttributes(rawSmiles, extraData, env) == Err(env.process(rawSmiles).error)
    ensures env.process(rawSmiles).Ok? ==>
      var a := GetCompoundDocAttributes(rawSmiles, extraData, env);
      var (mol, fp, _) := env.process(rawSmiles).value;
      var matches := Scaffolds.MatchingScaffolds(env.scaffolds, fp, mol, env.substructMatch);
      a.Ok? && a.value.status == PASSED && a.value.extraData == extraData && a.value.smiles == mol.smiles &&
      |a.value.scaffoldIds| >= 1 &&
      (a.value.scaffoldIds == [-1] <==> |matches| == 0) &&
      (|matches| > 0 ==> forall i :: 0 <= i < |matches| ==> a.value.scaffoldIds[i] == matches[i] as int)
  {
    match env.process(rawSmiles)
    case Err(_) =>
    case Ok((mol, fp, _)) =>
      var matches := Scaffolds.MatchingScaffolds(env.scaffolds, fp, mol, env.substructMatch);
      if |matches| > 0 {
        assert StoredScaffoldIds(matches)[0] == matches[0] as int >= 0;
      }
  }

  // ---------------------------------------------------------------- documents

  function ScaffoldJson(ids: seq<int>): Json
  {
    Object(map["scaffolds" := Array(seq(|ids|, i requires 0 <= i < |ids| => Int(ids[i])))])
  }

  /** A `scaffolds` value holds exactly the given ids, in order. */
  predicate ScaffoldsHold(value: Json, ids: seq<int>)
  {
    value.Array? && |value.items| == |ids| && forall i :: 0 <= i < |ids| ==> value.items[i] == Int(ids[i])
  }

  function ClusterJson(cluster: int): Json
  {
    Object(map["similarity_cluster" := Int(cluster)])
  }

  /** The descriptor fields a document gets: each known descriptor that is present, in
      schema order, as an integer or a float by its name. */
  function DescriptorFields(descriptors: Descriptors, names: seq<string>): (r: NewDoc)
    ensures |r| <= |names|
  {
    if |names| == 0 then []
    else
      var name := names[|names| - 1];
      var init := DescriptorFields(descriptors, names[..|names| - 1]);
      match Lookup(descriptors, name)
      case None => init
      case Some(v) => init + [(name, if IsIntegerDescriptor(name) then I64(AsI64(v)) else F64(v))]
  }

  /** A field is present exactly for a listed name that the descriptor map holds, and
      holds an integer exactly for `Num`/`lipinski` names. */
  lemma {:induction false} DescriptorFieldsSpec(descriptors: Descriptors, names: seq<string>, name: string)
    ensures (exists j :: 0 <= j < |DescriptorFields(descriptors, names)| && DescriptorFields(descriptors, names)[j].0 == name) <==>
      name in names && Lookup(descriptors, name).Some?
    ensures forall j :: 0 <= j < |DescriptorFields(descriptors, names)| ==>
      var (n, v) := DescriptorFields(descriptors, names)[j];
      n in names && Lookup(descriptors, n).Some? &&
      v == (if IsIntegerDescriptor(n) then I64(AsI64(Lookup(descriptors, n).value)) else F64(Lookup(descriptors, n).value))
    decreases |names|
  {
    if |names| > 0 {
      var init := names[..|names| - 1];
      var last := names[|names| - 1];
      DescriptorFieldsSpec(descriptors, init, name);
      assert forall n :: n in init ==> n in names;
      assert names == init + [last];
      var r := DescriptorFields(descriptors, names);
      var initFields := DescriptorFields(descriptors, init);
      assert forall j :: 0 <= j < |initFields| ==> r[j] == initFields[j];
      if name in names && Lookup(descriptors, name).Some? {
        if name == last {
          assert r[|r| - 1].0 == name;
        } else {
          assert name in init;
        }
      }
    }
  }

  /** The fields `create_tantivy_doc` puts before the descriptors: smiles and both
      fingerprints, the merged scaffold/cluster object, and the extra data when present. */
  function LeadingFields(attributes: CompoundDocAttributes, similarityCluster: int): NewDoc
  {
    var other := Combined(Some(ScaffoldJson(attributes.scaffoldIds)), Some(ClusterJson(similarityCluster)));
    [("smiles", Text(attributes.smiles)),
     ("pattern_fingerprint", Bytes(attributes.patternFingerprint)),
     ("morgan_fingerprint", Bytes(attributes.morganFingerprint))] +
    (if other.Some? then [("other_descriptors", JsonValue(other.value))] else []) +
    (if attributes.extraData.Some? then [("extra_data", JsonValue(attributes.extraData.value))] else [])
  }

  /** `create_tantivy_doc`: the leading fields, then the descriptors. */
  function CreateTantivyDoc(attributes: CompoundDocAttributes, similarityCluster: int): NewDoc
  {
    LeadingFields(attributes, similarityCluster) + DescriptorFields(attributes.descriptors, KNOWN_DESCRIPTORS)
  }

  /** The leading fields are the three base fields, an `other_descriptors` object with
      exactly the keys `scaffolds` and `similarity_cluster`, and `extra_data` exactly
      when present. */
  lemma LeadingFieldsSpec(attributes: CompoundDocAttributes, similarityCluster: int)
    ensures var lead := LeadingFields(attributes, similarityCluster);
      |lead| == (if attributes.extraData.Some? then 5 else 4) &&
      lead[0] == ("smiles", Text(attributes.smiles)) &&
      lead[1] == ("pattern_fingerprint", Bytes(attributes.patternFingerprint)) &&
      lead[2] == ("morgan_fingerprint", Bytes(attributes.morganFingerprint)) &&
      lead[3].0 == "other_descriptors" && lead[3].1.JsonValue? && lead[3].1.json.Object? &&
      lead[3].1.json.fields.Keys == {"scaffolds", "similarity_cluster"} &&
      lead[3].1.json.fields["similarity_cluster"] == Int(similarityCluster) &&
      ScaffoldsHold(lead[3].1.json.fields["scaffolds"], attributes.scaffoldIds) &&
      (attributes.extraData.Some? ==> lead[4] == ("extra_data", JsonValue(attributes.extraData.value)))
  {
    var scaffolds := ScaffoldJson(attributes.scaffoldIds).fields;
    var cluster := ClusterJson(similarityCluster).fields;
    CombinedObjects(scaffolds, cluster);
    var other := Combined(Some(ScaffoldJson(attributes.scaffoldIds)), Some(ClusterJson(similarityCluster)));
    assert scaffolds.Keys == {"scaffolds"};
    assert cluster.Keys == {"similarity_cluster"};
    assert other.value.fields.Keys == scaffolds.Keys + cluster.Keys;
    assert "similarity_cluster" in cluster;
    assert "scaffolds" in scaffolds;
  }

  /** The document always carries the three base fields and an `other_descriptors` object
      with exactly the keys `scaffolds`, holding the attributes' scaffold ids, and
      `similarity_cluster`; `extra_data` is
      added exactly when present, and every further field is a known descriptor. */
  lemma CreateTantivyDocSpec(attributes: CompoundDocAttributes, similarityCluster: int)
    ensures var doc := CreateTantivyDoc(attributes, similarityCluster);
      |doc| >= 4 &&
      doc[0] == ("smiles", Text(attributes.smiles)) &&
      doc[1] == ("pattern_fingerprint", Bytes(attributes.patternFingerprint)) &&
      doc[2] == ("morgan_fingerprint", Bytes(attributes.morganFingerprint)) &&
      doc[3].0 == "other_descriptors" && doc[3].1.JsonValue? && doc[3].1.json.Object? &&
      doc[3].1.json.fields.Keys == {"scaffolds", "similarity_cluster"} &&
      doc[3].1.json.fields["similarity_cluster"] == Int(similarityCluster) &&
      ScaffoldsHold(doc[3].1.json.fields["scaffolds"], attributes.scaffoldIds) &&
      (attributes.extraData.Some? ==> |doc| >= 5 && doc[4] == ("extra_data", JsonValue(attributes.extraData.value))) &&
      (attributes.extraData.None? ==> forall j :: 4 <= j < |doc| ==> doc[j].0 in KNOWN_DESCRIPTORS) &&
      (attributes.extraData.Some? ==> forall j :: 5 <= j < |doc| ==> doc[j].0 in KNOWN_DESCRIPTORS)
  {
    var lead := LeadingFields(attributes, similarityCluster);
    var desc := DescriptorFields(attributes.descriptors, KNOWN_DESCRIPTORS);
    var doc := CreateTantivyDoc(attributes, similarityCluster);
    LeadingFieldsSpec(attributes, similarityCluster);
    assert doc == lead + desc;
    assert forall k :: 0 <= k < |lead| ==> doc[k] == lead[k];
    DescriptorFieldsSpec(attributes.descriptors, KNOWN_DESCRIPTORS, "");
    if attributes.extraData.None? {
      forall j | 4 <= j < |doc|
        ensures doc[j].0 in KNOWN_DESCRIPTORS
      {
        assert doc[j] == desc[j - 4];
      }
    } else {
      forall j | 5 <= j < |doc|
        ensures doc[j].0 in KNOWN_DESCRIPTORS
      {
        assert doc[j] == desc[j - 5];
      }
    }
  }

  // ---------------------------------------------------------------- batching

  /** The input cut into consecutive batches of `size`, the last one possibly shorter. */
  function Batches<T>(xs: seq<T>, size: nat): (r: seq<seq<T>>)
    requires size > 0
    decreases |xs|
  {
    if |xs| == 0 then []
    else if |xs| <= size then [xs]
    else [xs[..size]] + Batches(xs[size..], size)
  }

  function Flatten<T>(xss: seq<seq<T>>): seq<T>
  {
    if |xss| == 0 then [] else xss[0] + Flatten(xss[1..])
  }

  lemma {:induction false} FlattenSnoc<T>(xss: seq<seq<T>>, xs: seq<T>)
    ensures Flatten(xss + [xs]) == Flatten(xss) + xs
  {
    if |xss| == 0 {
      assert [] + [xs] == [xs];
      assert Flatten([xs]) == xs + Flatten([xs][1..]);
    } else {
      assert (xss + [xs])[1..] == xss[1..] + [xs];
      FlattenSnoc(xss[1..], xs);
    }
  }

  /** The batches put back together are the input; every batch but the last is full,
      and none is empty. */
  lemma {:induction false} BatchesSpec<T>(xs: seq<T>, size: nat)
    requires size > 0
    ensures Flatten(Batches(xs, size)) == xs
    ensures forall k :: 0 <= k < |Batches(xs, size)| ==> 0 < |Batches(xs, size)[k]| <= size
    ensures forall k :: 0 <= k < |Batches(xs, size)| - 1 ==> |Batches(xs, size)[k]| == size
    decreases |xs|
  {
    if |xs| > size {
      BatchesSpec(xs[size..], size);
      assert xs == xs[..size] + xs[size..];
    } else if |xs| > 0 {
      assert Flatten([xs]) == xs + Flatten([xs][1..]);
    }
  }

  /** Each batch encoded in turn, the first failure ending the run. */
  function EncodeEach(batches: seq<seq<Bits>>, encoder: BatchEncoder): Result<seq<seq<int>>>
  {
    if |batches| == 0 then Ok([])
    else
      match encoder(batches[0])
      case Err(e) => Err(e)
      case Ok(head) =>
        match EncodeEach(batches[1..], encoder)
        case Err(e) => Err(e)
        case Ok(tail) => Ok(head + tail)
  }

  /** The cluster lists of all fingerprints, encoded batch by batch. */
  function EncodeBatches(fingerprints: seq<Bits>, encoder: BatchEncoder): Result<seq<seq<int>>>
  {
    EncodeEach(Batches(fingerprints, BATCH_SIZE), encoder)
  }

  /** When the encoder answers one list per fingerprint, so does the batched run. */
  lemma {:induction false} EncodeEachLength(batches: seq<seq<Bits>>, encoder: BatchEncoder)
    requires forall k :: 0 <= k < |batches| ==> encoder(batches[k]).Ok? ==> |encoder(batches[k]).value| == |batches[k]|
    ensures EncodeEach(batches, encoder).Ok? ==> |EncodeEach(batches, encoder).value| == |Flatten(batches)|
  {
    if |batches| > 0 {
      EncodeEachLength(batches[1..], encoder);
    }
  }

  /** What remains of the run after `done` batches: the clusters gathered so far
      followed by the encoding of the rest. */
  function Resume(gathered: seq<seq<seq<int>>>, rest: seq<Bits>, encoder: BatchEncoder): Result<seq<seq<int>>>
  {
    match EncodeBatches(rest, encoder)
    case Err(e) => Err(e)
    case Ok(tail) => Ok(Flatten(gathered) + tail)
  }

  lemma ResumeStart(fingerprints: seq<Bits>, encoder: BatchEncoder)
    ensures Resume([], fingerprints, encoder) == EncodeBatches(fingerprints, encoder)
  {
    assert Flatten<seq<int>>([]) == [];
    match EncodeBatches(fingerprints, encoder)
    case Err(_) =>
    case Ok(tail) => assert [] + tail == tail;
  }

  /** Encoding the first batch of the rest: a failure is the run's result, a success
      moves that batch's clusters into the gathered ones. */
  lemma ResumeStep(gathered: seq<seq<seq<int>>>, rest: seq<Bits>, encoder: BatchEncoder)
    requires |rest| >= BATCH_SIZE
    ensures encoder(rest[..BATCH_SIZE]).Err? ==> Resume(gathered, rest, encoder) == Err(encoder(rest[..BATCH_SIZE]).error)
    ensures encoder(rest[..BATCH_SIZE]).Ok? ==>
      Resume(gathered, rest, encoder) == Resume(gathered + [encoder(rest[..BATCH_SIZE]).value], rest[BATCH_SIZE..], encoder)
  {
    var batches := Batches(rest, BATCH_SIZE);
    if |rest| == BATCH_SIZE {
      assert rest[..BATCH_SIZE] == rest;
      assert rest[BATCH_SIZE..] == [];
    }
    assert batches == [rest[..BATCH_SIZE]] + Batches(rest[BATCH_SIZE..], BATCH_SIZE);
    assert batches[0] == rest[..BATCH_SIZE];
    assert batches[1..] == Batches(rest[BATCH_SIZE..], BATCH_SIZE);
    match encoder(rest[..BATCH_SIZE])
    case Err(_) =>
    case Ok(head) =>
      FlattenSnoc(gathered, head);
      match EncodeBatches(rest[BATCH_SIZE..], encoder)
      case Err(_) =>
      case Ok(tail) =>
        assert Flatten(gathered) + (head + tail) == Flatten(gathered) + head + tail;
  }

  /** The last, partial batch ends the run. */
  lemma ResumeLast(gathered: seq<seq<seq<int>>>, rest: seq<Bits>, encoder: BatchEncoder)
    requires |rest| < BATCH_SIZE
    ensures |rest| == 0 ==> Resume(gathered, rest, encoder) == Ok(Flatten(gathered))
    ensures |rest| > 0 && encoder(rest).Err? ==> Resume(gathered, rest, encoder) == Err(encoder(rest).error)
    ensures |rest| > 0 && encoder(rest).Ok? ==> Resume(gathered, rest, encoder) == Ok(Flatten(gathered + [encoder(rest).value]))
  {
    if |rest| == 0 {
      assert Flatten(gathered) + [] == Flatten(gathered);
    } else {
      assert Batches(rest, BATCH_SIZE) == [rest];
      assert [rest][1..] == [];
      match encoder(rest)
      case Err(_) =>
      case Ok(head) =>
        FlattenSnoc(gathered, head);
        assert [rest][1..] == [];
        assert EncodeEach([], encoder) == Ok([]);
        assert head + [] == head;
        assert EncodeEach([rest], encoder) == Ok(head);
    }
  }

  /** The batching loop of `batch_doc_creation`: buffer the Morgan fingerprints, encode
      each full buffer of 200, then the remainder, and flatten the results. */
  method EncodeInBatches(fingerprints: seq<Bits>, encoder: BatchEncoder) returns (r: Result<seq<seq<int>>>)
    ensures r == EncodeBatches(fingerprints, encoder)
  {
    var similarityClusters: seq<seq<seq<int>>> := [];
    var morganBitvecs: seq<Bits> := [];
    ghost var done := 0;
    assert fingerprints[0..] == fingerprints;
    ResumeStart(fingerprints, encoder);
    for i := 0 to |fingerprints|
      invariant done <= i && morganBitvecs == fingerprints[done..i] && |morganBitvecs| < BATCH_SIZE
      invariant Resume(similarityClusters, fingerprints[done..], encoder) == EncodeBatches(fingerprints, encoder)
    {
      assert fingerprints[done..i] + [fingerprints[i]] == fingerprints[done..i + 1];
      morganBitvecs := morganBitvecs + [fingerprints[i]];
      if |morganBitvecs| == BATCH_SIZE {
        ghost var rest := fingerprints[done..];
        assert rest[..BATCH_SIZE] == morganBitvecs;
        assert rest[BATCH_SIZE..] == fingerprints[i + 1..];
        ResumeStep(similarityClusters, rest, encoder);
        var batch := encoder(morganBitvecs);
        if batch.Err? {
          return Err(batch.error);
        }
        similarityClusters := similarityClusters + [batch.value];
        morganBitvecs := [];
        done := i + 1;
      }
    }
    assert morganBitvecs == fingerprints[done..];
    ResumeLast(similarityClusters, morganBitvecs, encoder);
    if |morganBitvecs| > 0 {
      var batch := encoder(morganBitvecs);
      if batch.Err? {
        return Err(batch.error);
      }
      similarityClusters := similarityClusters + [batch.value];
    }
    r := Ok(Flatten(similarityClusters));
  }

  /** The schema fields `batch_doc_creation` looks up. */
  const BASE_FIELDS: seq<string> := ["smiles", "extra_data", "pattern_fingerprint", "morgan_fingerprint", "other_descriptors"]

  /** The attributes of one compound, or the placeholder carrying the error text. */
  function AttributesOrPlaceholder(compound: (string, Option<Json>), placeholder: CompoundDocAttributes, env: IndexEnv): CompoundDocAttributes
  {
    match GetCompoundDocAttributes(compound.0, compound.1, env)
    case Ok(a) => a
    case Err(e) => placeholder.(status := e)
  }

  function MolAttributes(compounds: seq<(string, Option<Json>)>, placeholder: CompoundDocAttributes, env: IndexEnv): (r: seq<CompoundDocAttributes>)
    ensures |r| == |compounds|
    ensures forall i :: 0 <= i < |compounds| ==> r[i] == AttributesOrPlaceholder(compounds[i], placeholder, env)
  {
    seq(|compounds|, i requires 0 <= i < |compounds| => AttributesOrPlaceholder(compounds[i], placeholder, env))
  }

  function MorganFingerprints(attributes: seq<CompoundDocAttributes>): (r: seq<Bits>)
    ensures |r| == |attributes|
  {
    seq(|attributes|, i requires 0 <= i < |attributes| => attributes[i].morganFingerprint)
  }

  /** Passed compounds whose cluster list is missing or empty make `similarity_clusters[i][0]`
      panic. */
  predicate ClustersCover(attributes: seq<CompoundDocAttributes>, clusters: seq<seq<int>>)
  {
    forall i :: 0 <= i < |attributes| && attributes[i].status == PASSED ==> i < |clusters| && |clusters[i]| > 0
  }

  /** The entry of compound `i`: its document, or its status as the error. */
  function DocEntry(attributes: CompoundDocAttributes, clusters: seq<seq<int>>, i: nat): Result<NewDoc>
    requires attributes.status == PASSED ==> i < |clusters| && |clusters[i]| > 0
  {
    if attributes.status == PASSED then Ok(CreateTantivyDoc(attributes, clusters[i][0])) else Err(attributes.status)
  }

  /** `batch_doc_creation` on the compound list and the field names of the schema.
      A panic (missing descriptor field, out-of-range cluster index) is an `Err`. */
  function BatchDocCreationSpec(compounds: seq<(string, Option<Json>)>, schemaFields: set<string>, env: IndexEnv, encoder: BatchEncoder): Result<seq<Result<NewDoc>>>
  {
    if exists k :: 0 <= k < |KNOWN_DESCRIPTORS| && KNOWN_DESCRIPTORS[k] !in schemaFields then Err("descriptor field missing from schema")
    else if exists k :: 0 <= k < |BASE_FIELDS| && BASE_FIELDS[k] !in schemaFields then Err("field missing from schema")
    else
      match GetCompoundDocAttributes("c1ccccc1", None, env)
      case Err(e) => Err(e)
      case Ok(placeholder) =>
        var attributes := MolAttributes(compounds, placeholder, env);
        match EncodeBatches(MorganFingerprints(attributes), encoder)
        case Err(e) => Err("Failed batched similarity cluster assignment: " + e)
        case Ok(clusters) =>
          if !ClustersCover(attributes, clusters) then Err("index out of bounds")
          else Ok(seq(|attributes|, i requires 0 <= i < |attributes| => DocEntry(attributes[i], clusters, i)))
  }

  /** `batch_doc_creation`: the attribute map, the batching loop, and the document map. */
  method BatchDocCreation(compounds: seq<(string, Option<Json>)>, schemaFields: set<string>, env: IndexEnv, encoder: BatchEncoder)
    returns (r: Result<seq<Result<NewDoc>>>)
    ensures r == BatchDocCreationSpec(compounds, schemaFields, env, encoder)
  {
    if exists k :: 0 <= k < |KNOWN_DESCRIPTORS| && KNOWN_DESCRIPTORS[k] !in schemaFields {
      return Err("descriptor field missing from schema");
    }
    if exists k :: 0 <= k < |BASE_FIELDS| && BASE_FIELDS[k] !in schemaFields {
      return Err("field missing from schema");
    }
    var placeholder := GetCompoundDocAttributes("c1ccccc1", None, env);
    if placeholder.Err? {
      return Err(placeholder.error);
    }
    var molAttributes := MolAttributes(compounds, placeholder.value, env);
    var clusters := EncodeInBatches(MorganFingerprints(molAttributes), encoder);
    if clusters.Err? {
      return Err("Failed batched similarity cluster assignment: " + clusters.error);
    }
    if !ClustersCover(molAttributes, clusters.value) {
      return Err("index out of bounds");
    }
    r := Ok(seq(|molAttributes|, i requires 0 <= i < |molAttributes| => DocEntry(molAttributes[i], clusters.value, i)));
  }

  /** One entry per compound, in order: a failed compound's entry is its error text
      (unless that text is literally "Passed"), and a processed compound's entry is its
      document with the first cluster of its list. */
  lemma BatchDocCreationEntries(compounds: seq<(string, Option<Json>)>, schemaFields: set<string>, env: IndexEnv, encoder: BatchEncoder, i: nat)
    requires BatchDocCreationSpec(compounds, schemaFields, env, encoder).Ok?
    requires i < |compounds|
    ensures |BatchDocCreationSpec(compounds, schemaFields, env, encoder).value| == |compounds|
    ensures var c := GetCompoundDocAttributes(compounds[i].0, compounds[i].1, env);
      var entry := BatchDocCreationSpec(compounds, schemaFields, env, encoder).value[i];
      (c.Err? && c.error != PASSED ==> entry == Err(c.error)) &&
      (c.Ok? ==> entry.Ok? && entry.value[0] == ("smiles", Text(c.value.smiles)))
  {
  }
}
