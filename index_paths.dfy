/** `split_path` (src/command_line/indexing/mod.rs): an index path is cut into the storage
    directory and the index name, with Rust's `Path::parent` and `Path::file_stem` on a
    Unix path written out over the characters. */
module IndexPaths {
  import opened Wrappers

  /** The last position of `c` in `s`. */
  function LastIndexOf(s: string, c: char): (r: Option<nat>)
    ensures r.Some? ==> (r.value < |s| && s[r.value] == c &&
      forall j :: r.value < j < |s| ==> s[j] != c)
    ensures r.None? ==> forall j :: 0 <= j < |s| ==> s[j] != c
  {
    if |s| == 0 then None
    else if s[|s| - 1] == c then Some(|s| - 1)
    else LastIndexOf(s[..|s| - 1], c)
  }

  /** The last `c` is at `k` when `s[k]` is one and nothing after it is. */
  lemma LastIndexOfAt(s: string, c: char, k: nat)
    requires k < |s| && s[k] == c
    requires forall j :: k < j < |s| ==> s[j] != c
    ensures LastIndexOf(s, c) == Some(k)
  {
    var r := LastIndexOf(s, c);
    assert r.Some?;
  }

  /** `Components::as_path` trimming: trailing separators and trailing `.` components
      are dropped, but a root `/` or a leading `.` stays. */
  function TrimRight(s: string): (r: string)
    ensures r <= s
    ensures |r| == 0 <==> |s| == 0
    ensures |r| >= 2 ==> r[|r| - 1] != '/' && !(r[|r| - 2] == '/' && r[|r| - 1] == '.')
    decreases |s|
  {
    if |s| >= 2 && s[|s| - 1] == '/' then TrimRight(s[..|s| - 1])
    else if |s| >= 2 && s[|s| - 2] == '/' && s[|s| - 1] == '.' then TrimRight(s[..|s| - 1])
    else s
  }

  /** The trimmed path cut at its last separator: what `parent` keeps and the final
      component. Only called on a trimmed path that is neither empty nor the root. */
  function ParentAndName(t: string): (r: (string, string))
    requires t != "" && t != "/"
    requires |t| >= 2 ==> t[|t| - 1] != '/'
    ensures |r.1| > 0 && forall j :: 0 <= j < |r.1| ==> r.1[j] != '/'
    ensures |r.1| <= |t| && r.1 == t[|t| - |r.1|..]
  {
    match LastIndexOf(t, '/')
    case None => ("", t)
    case Some(k) =>
      (if k == 0 then "/" else TrimRight(t[..k]), t[k + 1..])
  }

  /** `file_stem` of a file name: everything before the last `.`, unless that dot is the
      first character or there is none. */
  function Stem(name: string): string
  {
    match LastIndexOf(name, '.')
    case None => name
    case Some(i) => if i == 0 then name else name[..i]
  }

  /** `split_path`: the parent directory and the file stem, or the first missing one. */
  function SplitPath(path: string): Result<(string, string)>
  {
    var t := TrimRight(path);
    if t == "" || t == "/" then Err("Could not extract storage directory")
    else
      var (dir, name) := ParentAndName(t);
      if name == "." || name == ".." then Err("Could not extract index name")
      else Ok((dir, Stem(name)))
  }

  /** The stem is a non-empty prefix of the name, and what it drops is either nothing or
      one extension: a `.` followed by no further `.`. */
  lemma StemSpec(name: string)
    requires name != ""
    ensures var stem := Stem(name);
      stem != "" && stem <= name &&
      (stem == name || (name[|stem|] == '.' && forall j :: |stem| < j < |name| ==> name[j] != '.'))
    ensures Stem(name) == name <==> forall j :: 0 < j < |name| ==> name[j] != '.'
  {
  }

  /** A name with an extension loses exactly that extension. */
  lemma StemDropsExtension(base: string, ext: string)
    requires base != ""
    requires forall j :: 0 <= j < |ext| ==> ext[j] != '.'
    ensures Stem(base + "." + ext) == base
  {
    var name := base + "." + ext;
    forall j | |base| < j < |name|
      ensures name[j] != '.'
    {
      assert name[j] == ext[j - |base| - 1];
    }
    LastIndexOfAt(name, '.', |base|);
    assert name[..|base|] == base;
  }

  /** The round trip with `join`: a directory in trimmed form, a separator and a file name
      come back as that directory and the name's stem. */
  lemma SplitPathOfJoin(dir: string, name: string)
    requires dir != "" && TrimRight(dir) == dir
    requires name != "" && name != "." && name != ".."
    requires forall j :: 0 <= j < |name| ==> name[j] != '/'
    ensures SplitPath(dir + "/" + name) == Ok((dir, Stem(name)))
  {
    var path := dir + "/" + name;
    NameIsTrimmed(dir + "/", name);
    forall j | |dir| < j < |path|
      ensures path[j] != '/'
    {
      assert path[j] == name[j - |dir| - 1];
    }
    LastIndexOfAt(path, '/', |dir|);
    assert path[..|dir|] == dir;
    assert path[|dir| + 1..] == name;
    assert |path| >= 3 && path != "/";
    assert ParentAndName(path) == (dir, name);
  }

  /** A file name after a separator leaves nothing for `TrimRight` to cut. */
  lemma NameIsTrimmed(prefix: string, name: string)
    requires |prefix| >= 1 && prefix[|prefix| - 1] == '/'
    requires name != "" && name != "."
    requires forall j :: 0 <= j < |name| ==> name[j] != '/'
    ensures TrimRight(prefix + name) == prefix + name
  {
    var path := prefix + name;
    assert path[|path| - 1] == name[|name| - 1];
    if |name| >= 2 {
      assert path[|path| - 2] == name[|name| - 2];
    } else {
      assert path[|path| - 2] == '/';
    }
  }

  /** A bare name has the empty parent. */
  lemma SplitPathOfBareName(name: string)
    requires name != "" && name != "." && name != ".."
    requires forall j :: 0 <= j < |name| ==> name[j] != '/'
    ensures SplitPath(name) == Ok(("", Stem(name)))
  {
    if |name| >= 2 {
      assert name[|name| - 1] != '/' && name[|name| - 2] != '/';
    }
    assert TrimRight(name) == name;
    assert LastIndexOf(name, '/') == None;
    assert ParentAndName(name) == ("", name);
  }

  /** A name under the root has the root as its parent. */
  lemma SplitPathUnderRoot(name: string)
    requires name != "" && name != "." && name != ".."
    requires forall j :: 0 <= j < |name| ==> name[j] != '/'
    ensures SplitPath("/" + name) == Ok(("/", Stem(name)))
  {
    var rooted := "/" + name;
    NameIsTrimmed("/", name);
    forall j | 0 < j < |rooted|
      ensures rooted[j] != '/'
    {
      assert rooted[j] == name[j - 1];
    }
    LastIndexOfAt(rooted, '/', 0);
    assert rooted[1..] == name;
    assert |rooted| >= 2 && rooted != "/";
    assert ParentAndName(rooted) == ("/", name);
  }

  /** A path with no parent, the empty path or the root alone, is refused, however many
      trailing separators it has. */
  lemma SplitPathNoParent(path: string)
    requires forall j :: 0 <= j < |path| ==> path[j] == '/'
    ensures SplitPath(path) == Err("Could not extract storage directory")
    decreases |path|
  {
    if |path| >= 2 {
      SplitPathNoParent(path[..|path| - 1]);
    }
  }

  /** A trailing separator changes nothing. */
  lemma SplitPathTrailingSeparator(path: string)
    requires |path| >= 1
    ensures SplitPath(path + "/") == SplitPath(path)
  {
    var p := path + "/";
    assert p[..|p| - 1] == path;
  }

  /** The benchmark's index path: `/tmp/test` holds the index `benchmark_index`. */
  lemma SplitPathExample(path: string, dir: string, name: string)
    requires dir == "/tmp/test" && name == "benchmark_index"
    requires path == "/tmp/test/benchmark_index"
    ensures SplitPath(path) == Ok((dir, name))
  {
    ExampleParts(path, dir, name);
    StemSpec(name);
    SplitPathOfJoin(dir, name);
  }

  lemma ExampleParts(path: string, dir: string, name: string)
    requires dir == "/tmp/test" && name == "benchmark_index"
    requires path == "/tmp/test/benchmark_index"
    ensures path == dir + "/" + name
    ensures dir != "" && TrimRight(dir) == dir
    ensures name != "" && name != "." && name != ".."
    ensures forall j :: 0 <= j < |name| ==> name[j] != '/' && name[j] != '.'
  {
  }
}
