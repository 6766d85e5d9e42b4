/** The serde_json values the indexing code builds and merges. Objects are keyed maps,
    as serde_json's default `Map` is. */
module Json {
  import opened Wrappers

  datatype Json =
    | Null
    | Bool(b: bool)
    | Int(i: int)
    | Float(r: real)
    | Str(s: string)
    | Array(items: seq<Json>)
    | Object(fields: map<string, Json>)

  /** serde_json `as_u64`: a non-negative integer below 2^64. */
  function AsU64(v: Json): (r: Option<nat>)
    ensures r.Some? <==> v.Int? && 0 <= v.i < 0x1_0000_0000_0000_0000
  {
    if v.Int? && 0 <= v.i < 0x1_0000_0000_0000_0000 then Some(v.i) else None
  }

  /** serde_json `get(key)` on a value: a field of an object, nothing otherwise. */
  function Get(v: Json, key: string): (r: Option<Json>)
    ensures r.Some? <==> v.Object? && key in v.fields
  {
    if v.Object? && key in v.fields then Some(v.fields[key]) else None
  }

  /** The merge `combine_json_objects` performs, stated on whole values. */
  function Combined(obj1: Option<Json>, obj2: Option<Json>): Option<Json>
  {
    match (obj1, obj2)
    case (Some(a), Some(b)) =>
      if a.Object? && b.Object? then Some(Object(a.fields + b.fields))
      else if a.Object? then Some(a)
      else Some(b)
    case (Some(a), None) => Some(a)
    case (None, Some(b)) => Some(b)
    case (None, None) => None
  }

  /** `combine_json_objects` (src/indexing/mod.rs): inserts every entry of the second
      object into the first, one key at a time. */
  method CombineJsonObjects(obj1: Option<Json>, obj2: Option<Json>) returns (r: Option<Json>)
    ensures r == Combined(obj1, obj2)
  {
    match (obj1, obj2)
    case (Some(a), Some(b)) =>
      if a.Object? && b.Object? {
        var merged := a.fields;
        var pending := b.fields.Keys;
        while pending != {}
          invariant pending <= b.fields.Keys
          invariant merged.Keys == a.fields.Keys + (b.fields.Keys - pending)
          invariant forall k :: k in merged && k in b.fields && k !in pending ==> merged[k] == b.fields[k]
          invariant forall k :: k in merged && (k !in b.fields || k in pending) ==> merged[k] == a.fields[k]
          decreases pending
        {
          var key :| key in pending;
          merged := merged[key := b.fields[key]];
          pending := pending - {key};
        }
        assert merged == a.fields + b.fields;
        r := Some(Object(merged));
      } else if a.Object? {
        r := Some(a);
      } else {
        r := Some(b);
      }
    case (Some(a), None) => r := Some(a);
    case (None, Some(b)) => r := Some(b);
    case (None, None) => r := None;
  }

  /** Two objects merge into their key union, the second object's value winning on a
      shared key. */
  lemma CombinedObjects(m1: map<string, Json>, m2: map<string, Json>)
    ensures Combined(Some(Object(m1)), Some(Object(m2))).Some?
    ensures var r := Combined(Some(Object(m1)), Some(Object(m2))).value;
      r.Object? && r.fields.Keys == m1.Keys + m2.Keys
      && (forall k :: k in m2 ==> r.fields[k] == m2[k])
      && (forall k :: k in m1 && k !in m2 ==> r.fields[k] == m1[k])
  {
  }

  /** The result is present exactly when either input is. */
  lemma CombinedPresence(obj1: Option<Json>, obj2: Option<Json>)
    ensures Combined(obj1, obj2).Some? <==> obj1.Some? || obj2.Some?
  {
  }

  /** When only one side is an object, that object wins; when neither is, the second does. */
  lemma CombinedNonObjects(a: Json, b: Json)
    ensures a.Object? && !b.Object? ==> Combined(Some(a), Some(b)) == Some(a)
    ensures !a.Object? ==> Combined(Some(a), Some(b)) == Some(b)
  {
  }
}
