/** `IndexManager` (src/indexing/index_manager.rs): indexes live in directories under a
    storage directory. The file system is a `Storage` object holding a map from paths to
    entries; a directory may hold a Tantivy index, known here by its schema and sort
    setting. Each operation is a method on that object, proved against a function giving
    its result and the new map. */
module IndexManagement {
  import opened Wrappers
  import opened Text

  /** A Tantivy schema, known by its field names and the names of its fast fields. */
  datatype Schema = Schema(fields: seq<string>, fastFields: set<string>)

  datatype Order = Asc | Desc

  /** `IndexSortByField`: the field an index is sorted by, and the direction. */
  datatype SortByField = SortByField(field: string, order: Order)

  /** An `IndexBuilder`: the schema and the index settings' sort field. */
  datatype IndexBuilder = IndexBuilder(schema: Schema, sortByField: Option<SortByField>)

  /** A created index. */
  datatype Index = Index(schema: Schema, sortByField: Option<SortByField>)

  /** What a path names: a plain file, or a directory that may hold an index. */
  datatype Entry = File | Directory(index: Option<Index>)

  type Entries = map<string, Entry>

  /** The file system under the manager. */
  class Storage {
    var entries: Entries

    constructor (entries: Entries)
      ensures this.entries == entries
    {
      this.entries := entries;
    }
  }

  /** `PathBuf::join` with a relative or absolute name. */
  function PathJoin(dir: string, name: string): string
  {
    if |name| > 0 && name[0] == '/' then name
    else if dir == "" then name
    else if dir[|dir| - 1] == '/' then dir + name
    else dir + "/" + name
  }

  /** The path `p` names a directory. */
  predicate IsDir(entries: Entries, p: string)
  {
    p in entries && entries[p].Directory?
  }

  /** The path `p` names a directory holding an index. */
  predicate HoldsIndex(entries: Entries, p: string)
  {
    IsDir(entries, p) && entries[p].index.Some?
  }

  /** `remove_dir_all`: the path and everything below it disappear. */
  function RemoveTree(entries: Entries, p: string): (r: Entries)
    ensures p !in r
    ensures forall k :: k in r <==> k in entries && k != p && !StartsWith(k, p + "/")
    ensures forall k :: k in r ==> r[k] == entries[k]
  {
    map k | k in entries && k != p && !StartsWith(k, p + "/") :: entries[k]
  }

  /** The sort setting `build_builder` asks for. */
  function SortSetting(sortBy: Option<string>): Option<SortByField>
  {
    match sortBy
    case Some(field) => Some(SortByField(field, Asc))
    case None => None
  }

  /** `build_builder`: the schema, and an ascending sort on the named field iff one is
      named. It never fails. */
  method BuildBuilder(schema: Schema, sortBy: Option<string>) returns (r: Result<IndexBuilder>)
    ensures r.Ok? && r.value.schema == schema
    ensures r.value.sortByField.Some? <==> sortBy.Some?
    ensures sortBy.Some? ==> (r.value.sortByField.value.field == sortBy.value &&
      r.value.sortByField.value.order == Asc)
  {
    var builder := IndexBuilder(schema, None);
    if sortBy.Some? {
      builder := builder.(sortByField := Some(SortByField(sortBy.value, Asc)));
    }
    r := Ok(builder);
  }

  /** `IndexManager::new`: refuses a storage path that is something other than a
      directory, and creates a missing one only when asked. */
  function NewSpec(entries: Entries, storageDir: string, createIfMissing: bool): (Result<IndexManager>, Entries)
  {
    if storageDir in entries && !entries[storageDir].Directory? then
      (Err("exists but it is not a directory"), entries)
    else if storageDir !in entries && createIfMissing then
      (Ok(IndexManager(storageDir)), entries[storageDir := Directory(None)])
    else (Ok(IndexManager(storageDir)), entries)
  }

  /** What Tantivy's `create_in_dir` answers. */
  datatype CreateOutcome = Created(index: Index) | IndexAlreadyExists | OtherError

  /** The check the builder makes of its settings before creating an index: a sort
      field must be a fast field of the schema. */
  predicate SortFieldValid(schema: Schema, sortByField: Option<SortByField>)
  {
    sortByField.None? || (sortByField.value.field in schema.fields && sortByField.value.field in schema.fastFields)
  }

  /** `IndexBuilder::create_in_dir`: a path that is not a directory cannot be opened; a
      directory with an index is refused; otherwise the settings are validated, and a
      valid builder creates the index. */
  function CreateInDir(entries: Entries, p: string, builder: IndexBuilder): CreateOutcome
  {
    if !IsDir(entries, p) then OtherError
    else if entries[p].index.Some? then IndexAlreadyExists
    else if !SortFieldValid(builder.schema, builder.sortByField) then OtherError
    else Created(Index(builder.schema, builder.sortByField))
  }

  /** `IndexManager::create`: the index path is made if missing, then the index is
      created; an existing index is replaced only under `force`, and the replacement is
      built without the sort setting. */
  function CreateSpec(entries: Entries, storageDir: string, name: string, schema: Schema, force: bool, sortBy: Option<string>)
    : (Result<Index>, Entries)
  {
    var p := PathJoin(storageDir, name);
    var made := if p !in entries then entries[p := Directory(None)] else entries;
    match CreateInDir(made, p, IndexBuilder(schema, SortSetting(sortBy)))
    case Created(index) => (Ok(index), made[p := Directory(Some(index))])
    case IndexAlreadyExists =>
      if force then
        var index := Index(schema, None);
        (Ok(index), RemoveTree(made, p)[p := Directory(Some(index))])
      else (Err("index already exists and force reset option not set"), made)
    case OtherError => (Err("unhandled error"), made)
  }

  /** `IndexManager::exists`: the schema of the index in an existing directory, nothing
      for a path that is not a directory; a directory without an index cannot be opened. */
  function ExistsSpec(entries: Entries, storageDir: string, name: string): Result<Option<Schema>>
  {
    var p := PathJoin(storageDir, name);
    if IsDir(entries, p) then
      match entries[p].index
      case Some(index) => Ok(Some(index.schema))
      case None => Err("failed to open index")
    else Ok(None)
  }

  /** `IndexManager::open`: a missing path is refused, and so is anything that is not a
      directory holding an index. */
  function OpenSpec(entries: Entries, storageDir: string, name: string): Result<Index>
  {
    var p := PathJoin(storageDir, name);
    if p !in entries then Err("path does not exist")
    else match entries[p]
      case Directory(Some(index)) => Ok(index)
      case _ => Err("failed to open index")
  }

  /** `IndexManager::delete`: a missing path is refused; a directory is removed with
      everything below it; `remove_dir_all` refuses a plain file. */
  function DeleteSpec(entries: Entries, storageDir: string, name: string): (Result<()>, Entries)
  {
    var p := PathJoin(storageDir, name);
    if p !in entries then (Err("path does not exist"), entries)
    else if entries[p].File? then (Err("not a directory"), entries)
    else (Ok(()), RemoveTree(entries, p))
  }

  /** What `read_dir` puts in front of each entry of `dir`. */
  function ChildPrefix(dir: string): string
  {
    if |dir| > 0 && dir[|dir| - 1] == '/' then dir else dir + "/"
  }

  /** A file name: one path component. */
  predicate IsFileName(name: string)
  {
    |name| > 0 && forall j :: 0 <= j < |name| ==> name[j] != '/'
  }

  /** `k` is an entry directly inside `dir`. */
  predicate IsChild(dir: string, k: string)
  {
    var prefix := ChildPrefix(dir);
    StartsWith(k, prefix) && IsFileName(k[|prefix|..])
  }

  /** The paths `read_dir(dir)` yields. */
  function ChildPaths(entries: Entries, dir: string): set<string>
  {
    set k | k in entries && IsChild(dir, k)
  }

  /** `list` as written: each displayed path with every `storage_dir + "/"` removed. */
  function ListedAsWritten(dir: string, k: string): string
  {
    ReplaceAll(k, dir + "/", "")
  }

  /** `list` as evidently intended: the path with the prefix `read_dir` put in front
      removed, which is the entry's bare name. */
  function ListedName(dir: string, k: string): string
  {
    ReplaceAll(k, ChildPrefix(dir), "")
  }

  /** The manager: the storage directory it was made for. */
  datatype IndexManager = IndexManager(storageDir: string)
  {
    static method New(fs: Storage, storageDir: string, createIfMissing: bool) returns (r: Result<IndexManager>)
      modifies fs
      ensures (r, fs.entries) == NewSpec(old(fs.entries), storageDir, createIfMissing)
    {
      if storageDir in fs.entries && !fs.entries[storageDir].Directory? {
        return Err("exists but it is not a directory");
      } else if storageDir !in fs.entries && createIfMissing {
        fs.entries := fs.entries[storageDir := Directory(None)];
      }
      r := Ok(IndexManager(storageDir));
    }

    method Create(fs: Storage, name: string, schema: Schema, force: bool, sortBy: Option<string>) returns (r: Result<Index>)
      modifies fs
      ensures (r, fs.entries) == CreateSpec(old(fs.entries), storageDir, name, schema, force, sortBy)
    {
      var builder := BuildBuilder(schema, sortBy);
      var p := PathJoin(storageDir, name);
      if p !in fs.entries {
        fs.entries := fs.entries[p := Directory(None)];
      }
      ghost var made := fs.entries;
      assert builder.value == IndexBuilder(schema, SortSetting(sortBy));
      match CreateInDir(fs.entries, p, builder.value)
      case Created(index) =>
        fs.entries := fs.entries[p := Directory(Some(index))];
        r := Ok(index);
      case IndexAlreadyExists =>
        if force {
          fs.entries := RemoveTree(fs.entries, p);
          fs.entries := fs.entries[p := Directory(None)];
          var rebuilt := BuildBuilder(schema, None);
          var index := Index(rebuilt.value.schema, rebuilt.value.sortByField);
          fs.entries := fs.entries[p := Directory(Some(index))];
          assert fs.entries == RemoveTree(made, p)[p := Directory(Some(index))];
          r := Ok(index);
        } else {
          r := Err("index already exists and force reset option not set");
        }
      case OtherError =>
        r := Err("unhandled error");
    }

    method Exists(fs: Storage, name: string) returns (r: Result<Option<Schema>>)
      ensures r == ExistsSpec(fs.entries, storageDir, name)
    {
      var p := PathJoin(storageDir, name);
      if p in fs.entries && fs.entries[p].Directory? {
        match fs.entries[p].index
        case Some(index) => r := Ok(Some(index.schema));
        case None => r := Err("failed to open index");
      } else {
        r := Ok(None);
      }
    }

    method Open(fs: Storage, name: string) returns (r: Result<Index>)
      ensures r == OpenSpec(fs.entries, storageDir, name)
    {
      var p := PathJoin(storageDir, name);
      if p !in fs.entries {
        return Err("path does not exist");
      }
      match fs.entries[p]
      case Directory(Some(index)) => r := Ok(index);
      case _ => r := Err("failed to open index");
    }

    method Delete(fs: Storage, name: string) returns (r: Result<()>)
      modifies fs
      ensures (r, fs.entries) == DeleteSpec(old(fs.entries), storageDir, name)
    {
      var p := PathJoin(storageDir, name);
      if p !in fs.entries {
        return Err("path does not exist");
      }
      if fs.entries[p].File? {
        return Err("not a directory");
      }
      fs.entries := RemoveTree(fs.entries, p);
      r := Ok(());
    }

    /** `list`: one name per entry of the storage directory, in whatever order
        `read_dir` yields them. */
    method List(fs: Storage) returns (r: Result<seq<string>>)
      ensures r.Ok? <==> IsDir(fs.entries, storageDir)
      ensures r.Ok? ==> |r.value| == |ChildPaths(fs.entries, storageDir)|
      ensures r.Ok? ==> forall i :: 0 <= i < |r.value| ==>
        exists k :: k in ChildPaths(fs.entries, storageDir) && r.value[i] == ListedName(storageDir, k)
      ensures r.Ok? ==> forall k :: k in ChildPaths(fs.entries, storageDir) ==> ListedName(storageDir, k) in r.value
    {
      if !IsDir(fs.entries, storageDir) {
        return Err("failed to read directory");
      }
      var names := ListedNames(storageDir, ChildPaths(fs.entries, storageDir));
      r := Ok(names);
    }
  }

  /** The naming loop of `list`: one name per child path, taken in any order. */
  method ListedNames(storageDir: string, children: set<string>) returns (names: seq<string>)
    ensures |names| == |children|
    ensures forall i :: 0 <= i < |names| ==> exists k :: k in children && names[i] == ListedName(storageDir, k)
    ensures forall k :: k in children ==> ListedName(storageDir, k) in names
  {
    var pending := children;
    names := [];
    ghost var seen: set<string> := {};
    ghost var order: seq<string> := [];
    while pending != {}
      invariant pending !! seen && pending + seen == children
      invariant |names| == |seen| == |order|
      invariant forall i :: 0 <= i < |order| ==> order[i] in seen && names[i] == ListedName(storageDir, order[i])
      invariant forall k :: k in seen ==> k in order
      decreases pending
    {
      var k :| k in pending;
      names := names + [ListedName(storageDir, k)];
      order := order + [k];
      pending := pending - {k};
      seen := seen + {k};
    }
    forall k | k in children
      ensures ListedName(storageDir, k) in names
    {
      var i :| 0 <= i < |order| && order[i] == k;
      assert names[i] == ListedName(storageDir, k);
    }
  }

  /** `new` fails exactly when the storage path names something other than a directory;
      it adds a directory exactly when the path is missing and creation is asked for, and
      changes nothing else. */
  lemma NewSpecProperties(entries: Entries, storageDir: string, createIfMissing: bool)
    ensures var (r, after) := NewSpec(entries, storageDir, createIfMissing);
      (r.Err? <==> storageDir in entries && entries[storageDir].File?) &&
      (r.Ok? ==> r.value.storageDir == storageDir && IsDir(after, storageDir) == (IsDir(entries, storageDir) || createIfMissing)) &&
      (after != entries <==> storageDir !in entries && createIfMissing) &&
      forall k :: k != storageDir ==> (k in after <==> k in entries)
  {
    var (r, after) := NewSpec(entries, storageDir, createIfMissing);
    if storageDir !in entries && createIfMissing {
      assert storageDir in after;
    }
  }

  /** `create` on an index that exists, without `force`, is refused and touches nothing
      that held an index. */
  lemma CreateRefusedWithoutForce(entries: Entries, storageDir: string, name: string, schema: Schema, sortBy: Option<string>)
    requires HoldsIndex(entries, PathJoin(storageDir, name))
    ensures CreateSpec(entries, storageDir, name, schema, false, sortBy) ==
      (Err("index already exists and force reset option not set"), entries)
  {
  }

  /** `create` with `force` on an existing index wipes its directory and builds a new
      index there with the schema and without any sort setting, whatever `sortBy` asked;
      paths outside the directory keep their entries. */
  lemma CreateForceDropsSortBy(entries: Entries, storageDir: string, name: string, schema: Schema, sortBy: Option<string>)
    requires HoldsIndex(entries, PathJoin(storageDir, name))
    ensures var p := PathJoin(storageDir, name);
      var (r, after) := CreateSpec(entries, storageDir, name, schema, true, sortBy);
      r == Ok(Index(schema, None)) && after[p] == Directory(Some(Index(schema, None))) &&
      forall k :: k != p && !StartsWith(k, p + "/") ==> (k in after <==> k in entries) && (k in after ==> after[k] == entries[k])
  {
  }

  /** `create` where no index exists yet, at a path that is missing or a directory: with
      no sort field, or a fast field of the schema, it succeeds with the requested sort
      setting; with any other sort field it fails, leaving the directory made but empty.
      Every other path is left alone. */
  lemma CreateFresh(entries: Entries, storageDir: string, name: string, schema: Schema, force: bool, sortBy: Option<string>)
    requires var p := PathJoin(storageDir, name); p !in entries || entries[p] == Directory(None)
    ensures var p := PathJoin(storageDir, name);
      var (r, after) := CreateSpec(entries, storageDir, name, schema, force, sortBy);
      (r.Ok? <==> SortFieldValid(schema, SortSetting(sortBy))) &&
      (r.Ok? ==> r == Ok(Index(schema, SortSetting(sortBy))) &&
                 (sortBy.Some? <==> r.value.sortByField.Some?) &&
                 after == entries[p := Directory(Some(r.value))]) &&
      (r.Err? ==> r == Err("unhandled error") && after == entries[p := Directory(None)])
  {
  }

  /** `create` succeeds exactly when the path is not a plain file and either holds an
      index that `force` replaces or holds none and the sort field passes validation;
      every success leaves an index with the requested schema at the path. */
  lemma CreateSucceeds(entries: Entries, storageDir: string, name: string, schema: Schema, force: bool, sortBy: Option<string>)
    ensures var p := PathJoin(storageDir, name);
      var (r, after) := CreateSpec(entries, storageDir, name, schema, force, sortBy);
      (r.Ok? <==>
         (!(p in entries && entries[p].File?) &&
          (if HoldsIndex(entries, p) then force else SortFieldValid(schema, SortSetting(sortBy))))) &&
      (r.Ok? ==> HoldsIndex(after, p) && after[p].index.value == r.value && r.value.schema == schema)
  {
  }

  /** `exists` answers a schema exactly for a directory holding an index, and nothing
      exactly for a path that is not a directory. */
  lemma ExistsIff(entries: Entries, storageDir: string, name: string)
    ensures var p := PathJoin(storageDir, name);
      var r := ExistsSpec(entries, storageDir, name);
      (r.Ok? && r.value.Some? <==> HoldsIndex(entries, p)) &&
      (HoldsIndex(entries, p) ==> r.value.value == entries[p].index.value.schema) &&
      (r == Ok(None) <==> !IsDir(entries, p))
  {
  }

  /** `open` and `delete` refuse a path that does not exist, and `delete` then changes
      nothing. */
  lemma OpenDeleteMissing(entries: Entries, storageDir: string, name: string)
    requires PathJoin(storageDir, name) !in entries
    ensures OpenSpec(entries, storageDir, name).Err?
    ensures DeleteSpec(entries, storageDir, name) == (Err("path does not exist"), entries)
  {
  }

  /** `open` finds the index `create` just made. */
  lemma CreateThenOpen(entries: Entries, storageDir: string, name: string, schema: Schema, force: bool, sortBy: Option<string>)
    requires CreateSpec(entries, storageDir, name, schema, force, sortBy).0.Ok?
    ensures var (r, after) := CreateSpec(entries, storageDir, name, schema, force, sortBy);
      OpenSpec(after, storageDir, name) == Ok(r.value) &&
      ExistsSpec(after, storageDir, name) == Ok(Some(schema))
  {
    CreateSucceeds(entries, storageDir, name, schema, force, sortBy);
  }

  /** After a successful `create`, `delete` succeeds and then `exists` answers nothing. */
  lemma CreateDeleteExists(entries: Entries, storageDir: string, name: string, schema: Schema, force: bool, sortBy: Option<string>)
    requires CreateSpec(entries, storageDir, name, schema, force, sortBy).0.Ok?
    ensures var (_, created) := CreateSpec(entries, storageDir, name, schema, force, sortBy);
      var (d, deleted) := DeleteSpec(created, storageDir, name);
      d.Ok? && ExistsSpec(deleted, storageDir, name) == Ok(None)
  {
    CreateSucceeds(entries, storageDir, name, schema, force, sortBy);
  }

  /** A pattern with `/` at position `m` cannot occur where the text has no `/` from `m`
      on. */
  lemma NoOccurrencePastSlash(s: string, p: string, m: nat)
    requires m < |p| && p[m] == '/'
    requires forall j :: m <= j < |s| ==> s[j] != '/'
    ensures !Contains(s, p)
  {
    ContainsIff(s, p);
    forall j: nat
      ensures !OccursAt(s, p, j)
    {
      if j + |p| <= |s| {
        assert s[j..j + |p|][m] == s[j + m] != '/';
      }
    }
  }

  /** Removing a prefix that ends in `/` from itself followed by a file name leaves the
      name. */
  lemma StripPrefixOnce(prefix: string, name: string)
    requires |prefix| > 0 && prefix[|prefix| - 1] == '/'
    requires IsFileName(name)
    ensures ReplaceAll(prefix + name, prefix, "") == name
  {
    var s := prefix + name;
    assert s[0..|prefix|] == prefix;
    assert IndexOf(s, prefix) == Some(0);
    assert s[|prefix|..] == name;
    NoOccurrencePastSlash(name, prefix, |prefix| - 1);
    ReplaceAllAbsent(name, prefix, "");
  }

  /** The displayed path of an entry is the child prefix followed by its name. */
  lemma ChildPathShape(dir: string, k: string)
    requires IsChild(dir, k)
    ensures k == ChildPrefix(dir) + k[|ChildPrefix(dir)|..]
    ensures k == PathJoin(dir, k[|ChildPrefix(dir)|..]) || dir == ""
  {
  }

  /** `list` as corrected yields each entry's bare name, for every storage directory. */
  lemma ListedNameIsBare(dir: string, k: string)
    requires IsChild(dir, k)
    ensures ListedName(dir, k) == k[|ChildPrefix(dir)|..]
  {
    ChildPathShape(dir, k);
    StripPrefixOnce(ChildPrefix(dir), k[|ChildPrefix(dir)|..]);
  }

  /** `list` as written agrees with the correction when the storage directory does not
      end in `/`. */
  lemma ListedAsWrittenWithoutTrailingSlash(dir: string, k: string)
    requires |dir| == 0 || dir[|dir| - 1] != '/'
    requires IsChild(dir, k)
    ensures ListedAsWritten(dir, k) == ListedName(dir, k) == k[|ChildPrefix(dir)|..]
  {
    ListedNameIsBare(dir, k);
  }

  /** `list` as written, for a storage directory ending in `/`, removes nothing: the
      displayed path `dir + name` never contains `dir + "/"`, so the full path is listed
      instead of the name. */
  lemma ListedAsWrittenKeepsFullPath(dir: string, k: string)
    requires |dir| > 0 && dir[|dir| - 1] == '/'
    requires IsChild(dir, k)
    ensures ListedAsWritten(dir, k) == k
    ensures ListedAsWritten(dir, k) != ListedName(dir, k)
  {
    var name := k[|dir|..];
    assert k == dir + name;
    NoOccurrencePastSlash(k, dir + "/", |dir|);
    ReplaceAllAbsent(k, dir + "/", "");
    ListedNameIsBare(dir, k);
  }

  /** After a successful `create` of a plain name in a storage directory, `list` shows
      that name. */
  lemma CreateThenListed(entries: Entries, storageDir: string, name: string, schema: Schema, force: bool, sortBy: Option<string>)
    requires storageDir != "" && IsFileName(name)
    requires CreateSpec(entries, storageDir, name, schema, force, sortBy).0.Ok?
    ensures var (_, after) := CreateSpec(entries, storageDir, name, schema, force, sortBy);
      PathJoin(storageDir, name) in ChildPaths(after, storageDir) &&
      ListedName(storageDir, PathJoin(storageDir, name)) == name
  {
    CreateSucceeds(entries, storageDir, name, schema, force, sortBy);
    var k := PathJoin(storageDir, name);
    assert k == ChildPrefix(storageDir) + name;
    assert k[|ChildPrefix(storageDir)|..] == name;
    ListedNameIsBare(storageDir, k);
  }
}

/** The older `IndexManager` (src/indexing/manager.rs): `new` and `exists` behave as in
    the current one, but `create` neither makes a missing index directory nor takes a
    sort setting. */
module LegacyIndexManagement {
  import opened Wrappers
  import opened IndexManagement

  /** The older `create`: `create_in_dir` on the path as it is, with a forced reset of an
      existing index. */
  function LegacyCreateSpec(entries: Entries, storageDir: string, name: string, schema: Schema, force: bool)
    : (Result<Index>, Entries)
  {
    var p := PathJoin(storageDir, name);
    match CreateInDir(entries, p, IndexBuilder(schema, None))
    case Created(index) => (Ok(index), entries[p := Directory(Some(index))])
    case IndexAlreadyExists =>
      if force then
        var index := Index(schema, None);
        (Ok(index), RemoveTree(entries, p)[p := Directory(Some(index))])
      else (Err("index already exists and force reset option not set"), entries)
    case OtherError => (Err("unhandled error"), entries)
  }

  datatype LegacyIndexManager = LegacyIndexManager(storageDir: string)
  {
    static method New(fs: Storage, storageDir: string, createIfMissing: bool) returns (r: Result<LegacyIndexManager>)
      modifies fs
      ensures r.Ok? == NewSpec(old(fs.entries), storageDir, createIfMissing).0.Ok?
      ensures r.Ok? ==> r.value.storageDir == storageDir
      ensures fs.entries == NewSpec(old(fs.entries), storageDir, createIfMissing).1
    {
      if storageDir in fs.entries && !fs.entries[storageDir].Directory? {
        return Err("exists but it is not a directory");
      } else if storageDir !in fs.entries && createIfMissing {
        fs.entries := fs.entries[storageDir := Directory(None)];
      }
      r := Ok(LegacyIndexManager(storageDir));
    }

    method Create(fs: Storage, name: string, schema: Schema, force: bool) returns (r: Result<Index>)
      modifies fs
      ensures (r, fs.entries) == LegacyCreateSpec(old(fs.entries), storageDir, name, schema, force)
    {
      var p := PathJoin(storageDir, name);
      match CreateInDir(fs.entries, p, IndexBuilder(schema, None))
      case Created(index) =>
        fs.entries := fs.entries[p := Directory(Some(index))];
        r := Ok(index);
      case IndexAlreadyExists =>
        if force {
          fs.entries := RemoveTree(fs.entries, p);
          fs.entries := fs.entries[p := Directory(None)];
          var index := Index(schema, None);
          fs.entries := fs.entries[p := Directory(Some(index))];
          assert fs.entries == RemoveTree(old(fs.entries), p)[p := Directory(Some(index))];
          r := Ok(index);
        } else {
          r := Err("index already exists and force reset option not set");
        }
      case OtherError =>
        r := Err("unhandled error");
    }

    method Exists(fs: Storage, name: string) returns (r: Result<Option<Schema>>)
      ensures r == ExistsSpec(fs.entries, storageDir, name)
    {
      var p := PathJoin(storageDir, name);
      if p in fs.entries && fs.entries[p].Directory? {
        match fs.entries[p].index
        case Some(index) => r := Ok(Some(index.schema));
        case None => r := Err("failed to open index");
      } else {
        r := Ok(None);
      }
    }
  }

  /** The older `create` succeeds exactly on a directory, and only with `force` when it
      already holds an index; a missing path is an error, unlike the current `create`. */
  lemma LegacyCreateIff(entries: Entries, storageDir: string, name: string, schema: Schema, force: bool)
    ensures var p := PathJoin(storageDir, name);
      var (r, after) := LegacyCreateSpec(entries, storageDir, name, schema, force);
      (r.Ok? <==> IsDir(entries, p) && (force || !HoldsIndex(entries, p))) &&
      (r.Ok? ==> r.value == Index(schema, None) && HoldsIndex(after, p)) &&
      (r.Err? ==> after == entries)
  {
  }

  /** Where the index directory already exists, the older and the current `create`
      agree when no sort setting is asked for. */
  lemma LegacyCreateAgrees(entries: Entries, storageDir: string, name: string, schema: Schema, force: bool)
    requires PathJoin(storageDir, name) in entries
    ensures LegacyCreateSpec(entries, storageDir, name, schema, force) ==
      CreateSpec(entries, storageDir, name, schema, force, None)
  {
  }
}
