/** The Tantivy boundary: stored documents, documents being built, and the search call. */
module TantivyDocs {
  import opened Wrappers
  import opened Chem
  import opened Json

  /** A value stored in or added to a document field. Byte fields are given by their
      least-significant-bit-first bit view (`BitSlice::<u8, Lsb0>::from_slice`). */
  datatype FieldValue =
    | Text(text: string)
    | Bytes(bits: Bits)
    | JsonValue(json: Json)
    | I64(int64: int)
    | F64(float: real)

  /** A stored document, by the first value of each field (`get_first`). */
  type StoredDoc = map<string, FieldValue>

  /** A document under construction: its field values in the order they were added. */
  type NewDoc = seq<(string, FieldValue)>

  /** `searcher.doc(addr)`. */
  type FetchOracle = DocAddress -> Result<StoredDoc>

  /** `basic_search(searcher, query, limit)`: the addresses of at most `limit` hits. */
  type BasicSearchOracle = (string, nat) -> Result<seq<DocAddress>>

  /** Tantivy's `FieldNotFound` error for a field the schema lacks. */
  function FieldNotFound(name: string): string
  {
    "Field does not exists: '" + name + "'"
  }

  /** `schema.get_field(name)?` for each of `names` in turn: the first name the schema's
      fields lack, or none when all are there. */
  function FirstMissing(fields: seq<string>, names: seq<string>): (r: Option<string>)
    ensures r.None? <==> forall k :: 0 <= k < |names| ==> names[k] in fields
    ensures r.Some? ==>
      r.value !in fields &&
      exists k :: 0 <= k < |names| && names[k] == r.value && (forall j :: 0 <= j < k ==> names[j] in fields)
  {
    if |names| == 0 then None
    else if names[0] !in fields then Some(names[0])
    else FirstMissing(fields, names[1..])
  }

  /** `serde_json::to_string` of a stored value. */
  type SerializeOracle = FieldValue -> Result<string>

  /** `doc.get_first(field)`. */
  function GetFirst(doc: StoredDoc, field: string): (r: Option<FieldValue>)
    ensures r.Some? <==> field in doc
  {
    if field in doc then Some(doc[field]) else None
  }

  /** Reads a stored text field; missing and mistyped values are errors. */
  function TextField(doc: StoredDoc, field: string): (r: Result<string>)
    ensures r.Ok? <==> field in doc && doc[field].Text?
    ensures r.Ok? ==> r.value == doc[field].text
  {
    match GetFirst(doc, field)
    case None => Err("Tantivy " + field + " retrieval failed")
    case Some(Text(s)) => Ok(s)
    case Some(_) => Err("could not fetch " + field)
  }

  /** Reads a stored bytes field as its bits; missing and mistyped values are errors. */
  function BytesField(doc: StoredDoc, field: string): (r: Result<Bits>)
    ensures r.Ok? <==> field in doc && doc[field].Bytes?
    ensures r.Ok? ==> r.value == doc[field].bits
  {
    match GetFirst(doc, field)
    case None => Err("Tantivy " + field + " retrieval failed")
    case Some(Bytes(b)) => Ok(b)
    case Some(_) => Err("could not fetch " + field)
  }
}

/** The query-text pieces shared by the identity, substructure and superstructure query
    builders. */
module QueryParts {
  import opened Wrappers
  import opened Text
  import opened Chem

  const AND: string := " AND "

  /** The pieces an extra query contributes: none when it is empty, otherwise its
      split on the exact separator " AND ", in order. */
  function ExtraPieces(extraQuery: string): (r: seq<string>)
    ensures extraQuery == "" <==> r == []
    ensures Join(r, AND) == extraQuery
  {
    if extraQuery == "" then []
    else
      JoinSplit(extraQuery, AND);
      Split(extraQuery, AND)
  }

  /** How a descriptor bound is written: `k:v`, `k:[v TO 10000]` or `k:[0 TO v]`. */
  datatype Bound = Exact | AtLeast | AtMost

  function DescriptorClause(bound: Bound, name: string, value: DescriptorValue): string
  {
    match bound
    case Exact => name + ":" + value.display
    case AtLeast => name + ":[" + value.display + " TO 10000]"
    case AtMost => name + ":[0 TO " + value.display + "]"
  }

  /** A descriptor is used when it is one of the structure-match descriptors and the
      text `name:` does not already occur in the extra query. */
  predicate Eligible(name: string, extraQuery: string, matchDescriptors: set<string>)
  {
    name in matchDescriptors && !Contains(extraQuery, name + ":")
  }

  /** The clauses of the eligible descriptors, in the map's iteration order. */
  function DescriptorClauses(descriptors: Descriptors, extraQuery: string, matchDescriptors: set<string>, bound: Bound): (r: seq<string>)
    ensures |r| <= |descriptors|
  {
    if |descriptors| == 0 then []
    else
      var last := descriptors[|descriptors| - 1];
      DescriptorClauses(descriptors[..|descriptors| - 1], extraQuery, matchDescriptors, bound)
        + (if Eligible(last.0, extraQuery, matchDescriptors) then [DescriptorClause(bound, last.0, last.1)] else [])
  }

  /** Clauses follow the descriptors' order: the clauses of a concatenation are the
      concatenated clauses. */
  lemma {:induction false} DescriptorClausesAppend(a: Descriptors, b: Descriptors, extraQuery: string, matchDescriptors: set<string>, bound: Bound)
    ensures DescriptorClauses(a + b, extraQuery, matchDescriptors, bound)
      == DescriptorClauses(a, extraQuery, matchDescriptors, bound) + DescriptorClauses(b, extraQuery, matchDescriptors, bound)
    decreases |b|
  {
    if |b| == 0 {
      assert a + b == a;
    } else {
      var b' := b[..|b| - 1];
      assert (a + b)[..|a + b| - 1] == a + b';
      assert (a + b)[|a + b| - 1] == b[|b| - 1];
      DescriptorClausesAppend(a, b', extraQuery, matchDescriptors, bound);
    }
  }

  /** `c` is the clause of some eligible descriptor of `descriptors`. */
  predicate ClauseOf(descriptors: Descriptors, extraQuery: string, matchDescriptors: set<string>, bound: Bound, c: string)
  {
    exists i :: 0 <= i < |descriptors| && Eligible(descriptors[i].0, extraQuery, matchDescriptors) &&
      c == DescriptorClause(bound, descriptors[i].0, descriptors[i].1)
  }

  /** A descriptor contributes a clause iff it is eligible, and every clause comes from an
      eligible descriptor. */
  lemma {:induction false} DescriptorClausesMembers(descriptors: Descriptors, extraQuery: string, matchDescriptors: set<string>, bound: Bound)
    ensures forall i :: 0 <= i < |descriptors| && Eligible(descriptors[i].0, extraQuery, matchDescriptors) ==>
      DescriptorClause(bound, descriptors[i].0, descriptors[i].1) in DescriptorClauses(descriptors, extraQuery, matchDescriptors, bound)
    ensures forall c :: c in DescriptorClauses(descriptors, extraQuery, matchDescriptors, bound) ==>
      ClauseOf(descriptors, extraQuery, matchDescriptors, bound, c)
    decreases |descriptors|
  {
    if |descriptors| > 0 {
      var init := descriptors[..|descriptors| - 1];
      DescriptorClausesMembers(init, extraQuery, matchDescriptors, bound);
      forall c | c in DescriptorClauses(descriptors, extraQuery, matchDescriptors, bound)
        ensures ClauseOf(descriptors, extraQuery, matchDescriptors, bound, c)
      {
        if c in DescriptorClauses(init, extraQuery, matchDescriptors, bound) {
          var i :| 0 <= i < |init| && Eligible(init[i].0, extraQuery, matchDescriptors)
            && c == DescriptorClause(bound, init[i].0, init[i].1);
          assert descriptors[i] == init[i];
        } else {
          var i := |descriptors| - 1;
          assert Eligible(descriptors[i].0, extraQuery, matchDescriptors) && c == DescriptorClause(bound, descriptors[i].0, descriptors[i].1);
        }
      }
      forall i | 0 <= i < |descriptors| && Eligible(descriptors[i].0, extraQuery, matchDescriptors)
        ensures DescriptorClause(bound, descriptors[i].0, descriptors[i].1) in DescriptorClauses(descriptors, extraQuery, matchDescriptors, bound)
      {
        if i < |init| { assert descriptors[i] == init[i]; }
      }
    }
  }

  /** Pushes the extra-query pieces onto `parts`, one by one. */
  method AppendExtraPieces(parts: seq<string>, extraQuery: string) returns (r: seq<string>)
    ensures r == parts + ExtraPieces(extraQuery)
  {
    r := parts;
    if extraQuery != "" {
      var subqueries := Split(extraQuery, AND);
      var i := 0;
      while i < |subqueries|
        invariant 0 <= i <= |subqueries|
        invariant r == parts + subqueries[..i]
      {
        r := r + [subqueries[i]];
        i := i + 1;
      }
      assert subqueries[..|subqueries|] == subqueries;
    }
  }

  /** Pushes the clause of each eligible descriptor onto `parts`, in the map's order. */
  method AppendDescriptorClauses(parts: seq<string>, descriptors: Descriptors, extraQuery: string,
                                 matchDescriptors: set<string>, bound: Bound) returns (r: seq<string>)
    ensures r == parts + DescriptorClauses(descriptors, extraQuery, matchDescriptors, bound)
  {
    r := parts;
    var i := 0;
    while i < |descriptors|
      invariant 0 <= i <= |descriptors|
      invariant r == parts + DescriptorClauses(descriptors[..i], extraQuery, matchDescriptors, bound)
    {
      var (k, v) := descriptors[i];
      assert descriptors[..i + 1][..i] == descriptors[..i];
      if k in matchDescriptors {
        if !Contains(extraQuery, k + ":") {
          r := r + [DescriptorClause(bound, k, v)];
        }
      }
      i := i + 1;
    }
    assert descriptors[..|descriptors|] == descriptors;
  }

  /** One part `prefix + id` per scaffold id, in order. */
  function IdParts(prefix: string, ids: seq<int>): (r: seq<string>)
    ensures |r| == |ids|
  {
    if |ids| == 0 then [] else IdParts(prefix, ids[..|ids| - 1]) + [prefix + IntToString(ids[|ids| - 1])]
  }

  /** The i-th part names the i-th id. */
  lemma {:induction false} IdPartsIndex(prefix: string, ids: seq<int>)
    ensures forall i :: 0 <= i < |ids| ==> IdParts(prefix, ids)[i] == prefix + IntToString(ids[i])
    decreases |ids|
  {
    if |ids| > 0 {
      var init := ids[..|ids| - 1];
      IdPartsIndex(prefix, init);
      var parts := IdParts(prefix, init);
      assert IdParts(prefix, ids) == parts + [prefix + IntToString(ids[|ids| - 1])];
      forall i | 0 <= i < |ids|
        ensures IdParts(prefix, ids)[i] == prefix + IntToString(ids[i])
      {
        if i < |init| {
          assert ids[i] == init[i];
          assert IdParts(prefix, ids)[i] == parts[i];
        }
      }
    }
  }

  /** Pushes one part per scaffold id onto `parts`. */
  method AppendIdParts(parts: seq<string>, prefix: string, ids: seq<int>) returns (r: seq<string>)
    ensures r == parts + IdParts(prefix, ids)
  {
    r := parts;
    var i := 0;
    while i < |ids|
      invariant 0 <= i <= |ids|
      invariant r == parts + IdParts(prefix, ids[..i])
    {
      assert ids[..i + 1][..i] == ids[..i];
      r := r + [prefix + IntToString(ids[i])];
      i := i + 1;
    }
    assert ids[..|ids|] == ids;
  }

  /** With no eligible descriptor there are no clauses. */
  lemma {:induction false} NoEligibleNoClauses(descriptors: Descriptors, extraQuery: string, matchDescriptors: set<string>, bound: Bound)
    requires forall i :: 0 <= i < |descriptors| ==> !Eligible(descriptors[i].0, extraQuery, matchDescriptors)
    ensures DescriptorClauses(descriptors, extraQuery, matchDescriptors, bound) == []
    decreases |descriptors|
  {
    if |descriptors| > 0 {
      NoEligibleNoClauses(descriptors[..|descriptors| - 1], extraQuery, matchDescriptors, bound);
    }
  }

  /** A descriptor that the extra query already names contributes nothing. */
  lemma DescriptorNamedInExtraQuery(name: string, value: DescriptorValue, extraQuery: string, matchDescriptors: set<string>, bound: Bound)
    requires Contains(extraQuery, name + ":")
    ensures DescriptorClauses([(name, value)], extraQuery, matchDescriptors, bound) == []
  {
    assert [(name, value)][..0] == [];
  }
}
