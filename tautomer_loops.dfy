/** The tautomer fall-back loops that the search front ends share. When the query's
    canonical tautomer finds too few hits, the other tautomers RDKit enumerates are
    searched too and their hits are merged in; the front ends differ in how many
    tautomers they try, how they merge, and when they stop. Each loop shape is stated
    once here, as a function over the tautomers and as a loop proved equal to it. */
module TautomerLoops {
  import opened Wrappers
  import opened Chem

  function Min(a: nat, b: nat): nat
  {
    if a <= b then a else b
  }

  /** `if v.len() > limit { v[..limit] } else { v }`. */
  function Truncate<T>(s: seq<T>, limit: nat): (r: seq<T>)
    ensures r <= s
    ensures |r| == Min(|s|, limit)
  {
    if |s| > limit then s[..limit] else s
  }

  /** `take(n)`: the first `n` tautomers, or all of them when there are fewer. */
  function Take<T>(s: seq<T>, n: nat): (r: seq<T>)
    ensures r <= s
    ensures |r| == Min(|s|, n)
  {
    s[..Min(|s|, n)]
  }

  /** `filter_map(|t| search(t).ok())`: the successful results, in tautomer order. */
  function Searched<T>(tauts: seq<Mol>, search: Mol -> Result<T>): seq<T>
  {
    if |tauts| == 0 then []
    else
      (match search(tauts[0])
       case Ok(found) => [found]
       case Err(_) => []) + Searched(tauts[1..], search)
  }

  /** The union of a list of result sets. */
  function UnionAll<T>(sets: seq<set<T>>): set<T>
  {
    if |sets| == 0 then {} else sets[0] + UnionAll(sets[1..])
  }

  /** A hit is in the union of the successful searches exactly when some tautomer's
      search succeeded and found it. */
  lemma {:induction false} SearchedUnionIff<T>(tauts: seq<Mol>, search: Mol -> Result<set<T>>, x: T)
    ensures x in UnionAll(Searched(tauts, search)) <==>
      exists i :: 0 <= i < |tauts| && search(tauts[i]).Ok? && x in search(tauts[i]).value
    decreases |tauts|
  {
    if |tauts| > 0 {
      SearchedUnionIff(tauts[1..], search, x);
      var rest := Searched(tauts[1..], search);
      match search(tauts[0]) {
        case Ok(found) =>
          assert Searched(tauts, search) == [found] + rest;
          assert ([found] + rest)[1..] == rest;
          assert UnionAll(Searched(tauts, search)) == found + UnionAll(rest);
        case Err(_) =>
          assert Searched(tauts, search) == rest;
      }
      if exists i :: 0 <= i < |tauts| && search(tauts[i]).Ok? && x in search(tauts[i]).value {
        var i :| 0 <= i < |tauts| && search(tauts[i]).Ok? && x in search(tauts[i]).value;
        if i > 0 {
          assert tauts[1..][i - 1] == tauts[i];
        }
      }
      if exists i :: 0 <= i < |tauts| - 1 && search(tauts[1..][i]).Ok? && x in search(tauts[1..][i]).value {
        var i :| 0 <= i < |tauts| - 1 && search(tauts[1..][i]).Ok? && x in search(tauts[1..][i]).value;
        assert tauts[i + 1] == tauts[1..][i];
      }
    }
  }

  /** The union loop (`for set in sets { results.extend(set) }`). */
  method MergeAll<T>(results: set<T>, sets: seq<set<T>>) returns (merged: set<T>)
    ensures merged == results + UnionAll(sets)
  {
    merged := results;
    for i := 0 to |sets|
      invariant merged + UnionAll(sets[i..]) == results + UnionAll(sets)
    {
      assert sets[i..][1..] == sets[i + 1..];
      merged := merged + sets[i];
    }
  }

  /** The capped merge: each set is merged whole, but only while the count is still
      below the limit. */
  function CappedMerge<T>(acc: set<T>, sets: seq<set<T>>, limit: nat): set<T>
    decreases |sets|
  {
    if |sets| == 0 then acc
    else CappedMerge(if |acc| < limit then acc + sets[0] else acc, sets[1..], limit)
  }

  /** What was there stays, and nothing comes from outside the sets. */
  lemma {:induction false} CappedMergeBounds<T>(acc: set<T>, sets: seq<set<T>>, limit: nat)
    ensures acc <= CappedMerge(acc, sets, limit) <= acc + UnionAll(sets)
    decreases |sets|
  {
    if |sets| > 0 {
      CappedMergeBounds(if |acc| < limit then acc + sets[0] else acc, sets[1..], limit);
    }
  }

  /** A merge that ends below the limit merged every set; otherwise it reached the limit,
      and the last set merged may have carried it past. */
  lemma {:induction false} CappedMergeBelowLimit<T>(acc: set<T>, sets: seq<set<T>>, limit: nat)
    ensures |CappedMerge(acc, sets, limit)| < limit ==> CappedMerge(acc, sets, limit) == acc + UnionAll(sets)
    ensures |acc| >= limit ==> CappedMerge(acc, sets, limit) == acc
    decreases |sets|
  {
    if |sets| > 0 {
      var next := if |acc| < limit then acc + sets[0] else acc;
      CappedMergeBelowLimit(next, sets[1..], limit);
      CappedMergeBounds(next, sets[1..], limit);
      if |CappedMerge(acc, sets, limit)| < limit {
        assert |next| <= |CappedMerge(acc, sets, limit)| by {
          SubsetCardinality(next, CappedMerge(acc, sets, limit));
        }
      }
    }
  }

  lemma SubsetCardinality<T>(a: set<T>, b: set<T>)
    requires a <= b
    ensures |a| <= |b|
  {
    assert b == a + (b - a);
  }

  /** The capped merge loop of the REST structure search. */
  method MergeCapped<T>(results: set<T>, sets: seq<set<T>>, limit: nat) returns (merged: set<T>)
    ensures merged == CappedMerge(results, sets, limit)
  {
    merged := results;
    for i := 0 to |sets|
      invariant CappedMerge(merged, sets[i..], limit) == CappedMerge(results, sets, limit)
    {
      assert sets[i..][1..] == sets[i + 1..];
      if |merged| < limit {
        merged := merged + sets[i];
      }
    }
  }

  /** The state of the counted loop: the hits, the number of tautomers used (the
      canonical one included when it found anything) and whether a tautomer was used. */
  datatype Counted<T> = Counted(results: set<T>, count: nat, used: bool)

  /** The counted loop: the canonical tautomer is skipped, a failed tautomer is skipped
      without being counted, and a successful one is merged and counted; the loop stops
      once the hits exceed the result limit or the count reaches the tautomer limit. */
  function CountedLoop<T>(st: Counted<T>, tauts: seq<Mol>, canonical: Mol, search: Mol -> Result<set<T>>,
                          resultLimit: nat, tautomerLimit: nat): Counted<T>
    decreases |tauts|
  {
    if |tauts| == 0 then st
    else if tauts[0].smiles == canonical.smiles then CountedLoop(st, tauts[1..], canonical, search, resultLimit, tautomerLimit)
    else
      match search(tauts[0])
      case Err(_) => CountedLoop(st, tauts[1..], canonical, search, resultLimit, tautomerLimit)
      case Ok(found) =>
        var next := Counted(st.results + found, st.count + 1, true);
        if |next.results| > resultLimit || next.count == tautomerLimit then next
        else CountedLoop(next, tauts[1..], canonical, search, resultLimit, tautomerLimit)
  }

  /** Whether a tautomer is one the counted loop would merge: not the canonical one, and
      its search succeeds. */
  predicate Usable<T>(t: Mol, canonical: Mol, search: Mol -> Result<set<T>>)
  {
    t.smiles != canonical.smiles && search(t).Ok?
  }

  /** The hits of every usable tautomer. */
  function UsableUnion<T>(tauts: seq<Mol>, canonical: Mol, search: Mol -> Result<set<T>>): set<T>
  {
    if |tauts| == 0 then {}
    else
      (if Usable(tauts[0], canonical, search) then search(tauts[0]).value else {}) +
      UsableUnion(tauts[1..], canonical, search)
  }

  /** The number of usable tautomers. */
  function UsableCount<T>(tauts: seq<Mol>, canonical: Mol, search: Mol -> Result<set<T>>): nat
  {
    if |tauts| == 0 then 0
    else (if Usable(tauts[0], canonical, search) then 1 else 0) + UsableCount(tauts[1..], canonical, search)
  }

  /** The counted loop keeps what it had, adds only hits of usable tautomers, counts
      one per merged tautomer, and is marked used exactly when it merged any. */
  lemma {:induction false} CountedLoopBounds<T>(st: Counted<T>, tauts: seq<Mol>, canonical: Mol, search: Mol -> Result<set<T>>,
                                                resultLimit: nat, tautomerLimit: nat)
    ensures var r := CountedLoop(st, tauts, canonical, search, resultLimit, tautomerLimit);
      st.results <= r.results <= st.results + UsableUnion(tauts, canonical, search) &&
      st.count <= r.count <= st.count + UsableCount(tauts, canonical, search) &&
      (r.used <==> st.used || r.count > st.count)
    decreases |tauts|
  {
    if |tauts| > 0 {
      var rest := tauts[1..];
      if tauts[0].smiles == canonical.smiles || search(tauts[0]).Err? {
        CountedLoopBounds(st, rest, canonical, search, resultLimit, tautomerLimit);
      } else {
        var next := Counted(st.results + search(tauts[0]).value, st.count + 1, true);
        CountedLoopBounds(next, rest, canonical, search, resultLimit, tautomerLimit);
      }
    }
  }

  /** The count never passes the tautomer limit when it starts below it. */
  lemma {:induction false} CountedLoopCountBound<T>(st: Counted<T>, tauts: seq<Mol>, canonical: Mol, search: Mol -> Result<set<T>>,
                                                    resultLimit: nat, tautomerLimit: nat)
    requires st.count < tautomerLimit
    ensures CountedLoop(st, tauts, canonical, search, resultLimit, tautomerLimit).count <= tautomerLimit
    decreases |tauts|
  {
    if |tauts| > 0 {
      var rest := tauts[1..];
      if tauts[0].smiles == canonical.smiles || search(tauts[0]).Err? {
        CountedLoopCountBound(st, rest, canonical, search, resultLimit, tautomerLimit);
      } else {
        var next := Counted(st.results + search(tauts[0]).value, st.count + 1, true);
        if !(|next.results| > resultLimit || next.count == tautomerLimit) {
          CountedLoopCountBound(next, rest, canonical, search, resultLimit, tautomerLimit);
        }
      }
    }
  }

  /** A loop that ends neither above the result limit nor at the tautomer limit never
      stopped early: it merged and counted every usable tautomer. */
  lemma {:induction false} CountedLoopExhaustive<T>(st: Counted<T>, tauts: seq<Mol>, canonical: Mol, search: Mol -> Result<set<T>>,
                                                    resultLimit: nat, tautomerLimit: nat)
    requires st.count < tautomerLimit
    ensures var r := CountedLoop(st, tauts, canonical, search, resultLimit, tautomerLimit);
      |r.results| <= resultLimit && r.count < tautomerLimit ==>
        r.results == st.results + UsableUnion(tauts, canonical, search) &&
        r.count == st.count + UsableCount(tauts, canonical, search)
    decreases |tauts|
  {
    if |tauts| > 0 {
      var rest := tauts[1..];
      if !Usable(tauts[0], canonical, search) {
        CountedLoopSkipStep(st, tauts, canonical, search, resultLimit, tautomerLimit);
        CountedLoopExhaustive(st, rest, canonical, search, resultLimit, tautomerLimit);
      } else {
        var found := search(tauts[0]).value;
        var next := Counted(st.results + found, st.count + 1, true);
        CountedLoopMergeStep(st, tauts, canonical, search, resultLimit, tautomerLimit);
        if !(|next.results| > resultLimit || next.count == tautomerLimit) {
          CountedLoopExhaustive(next, rest, canonical, search, resultLimit, tautomerLimit);
          assert next.results + UsableUnion(rest, canonical, search) == st.results + (found + UsableUnion(rest, canonical, search));
        }
      }
    }
  }

  /** An unusable tautomer is passed over by the loop and by both sums. */
  lemma CountedLoopSkipStep<T>(st: Counted<T>, tauts: seq<Mol>, canonical: Mol, search: Mol -> Result<set<T>>,
                               resultLimit: nat, tautomerLimit: nat)
    requires |tauts| > 0 && !Usable(tauts[0], canonical, search)
    ensures CountedLoop(st, tauts, canonical, search, resultLimit, tautomerLimit) ==
      CountedLoop(st, tauts[1..], canonical, search, resultLimit, tautomerLimit)
    ensures UsableUnion(tauts, canonical, search) == UsableUnion(tauts[1..], canonical, search)
    ensures UsableCount(tauts, canonical, search) == UsableCount(tauts[1..], canonical, search)
  {
  }

  /** A usable tautomer is merged and counted, and the loop goes on unless a limit is hit. */
  lemma CountedLoopMergeStep<T>(st: Counted<T>, tauts: seq<Mol>, canonical: Mol, search: Mol -> Result<set<T>>,
                                resultLimit: nat, tautomerLimit: nat)
    requires |tauts| > 0 && Usable(tauts[0], canonical, search)
    ensures var next := Counted(st.results + search(tauts[0]).value, st.count + 1, true);
      CountedLoop(st, tauts, canonical, search, resultLimit, tautomerLimit) ==
        if |next.results| > resultLimit || next.count == tautomerLimit then next
        else CountedLoop(next, tauts[1..], canonical, search, resultLimit, tautomerLimit)
    ensures UsableUnion(tauts, canonical, search) == search(tauts[0]).value + UsableUnion(tauts[1..], canonical, search)
    ensures UsableCount(tauts, canonical, search) == 1 + UsableCount(tauts[1..], canonical, search)
  {
  }

  /** The canonical tautomer is never searched: what the search answers for it makes no
      difference. */
  lemma {:induction false} CountedLoopSkipsCanonical<T>(st: Counted<T>, tauts: seq<Mol>, canonical: Mol,
                                                        search: Mol -> Result<set<T>>, other: Mol -> Result<set<T>>,
                                                        resultLimit: nat, tautomerLimit: nat)
    requires forall t: Mol :: t.smiles != canonical.smiles ==> other(t) == search(t)
    ensures CountedLoop(st, tauts, canonical, search, resultLimit, tautomerLimit) ==
      CountedLoop(st, tauts, canonical, other, resultLimit, tautomerLimit)
    decreases |tauts|
  {
    if |tauts| > 0 {
      var rest := tauts[1..];
      if tauts[0].smiles == canonical.smiles || search(tauts[0]).Err? {
        CountedLoopSkipsCanonical(st, rest, canonical, search, other, resultLimit, tautomerLimit);
      } else {
        var next := Counted(st.results + search(tauts[0]).value, st.count + 1, true);
        CountedLoopSkipsCanonical(next, rest, canonical, search, other, resultLimit, tautomerLimit);
      }
    }
  }

  /** The hits may exceed the result limit: one tautomer that finds three hits against a
      limit of one stops the loop with all three. */
  lemma CountedLoopOvershoots(tauts: seq<Mol>, canonical: Mol, search: Mol -> Result<set<int>>)
    requires tauts == [Mol("A")] && canonical == Mol("B")
    requires forall t: Mol :: search(t) == Ok({1, 2, 3})
    ensures |CountedLoop(Counted({}, 0, false), tauts, canonical, search, 1, 2).results| == 3
  {
    assert "A"[0] != "B"[0];
    assert CountedLoop(Counted({}, 0, false), tauts, canonical, search, 1, 2) == Counted({1, 2, 3}, 1, true);
  }

  /** The counted loop as the source writes it: `continue` past the canonical and the
      failed tautomers, `break` on either stop condition. */
  method RunCounted<T>(start: Counted<T>, tauts: seq<Mol>, canonical: Mol, search: Mol -> Result<set<T>>,
                       resultLimit: nat, tautomerLimit: nat) returns (r: Counted<T>)
    ensures r == CountedLoop(start, tauts, canonical, search, resultLimit, tautomerLimit)
  {
    r := start;
    for i := 0 to |tauts|
      invariant CountedLoop(r, tauts[i..], canonical, search, resultLimit, tautomerLimit) ==
        CountedLoop(start, tauts, canonical, search, resultLimit, tautomerLimit)
    {
      assert tauts[i..][1..] == tauts[i + 1..];
      var testTaut := tauts[i];
      if testTaut.smiles == canonical.smiles {
        continue;
      }
      var found := search(testTaut);
      if found.Err? {
        continue;
      }
      r := Counted(r.results + found.value, r.count + 1, true);
      if |r.results| > resultLimit || r.count == tautomerLimit {
        return;
      }
    }
  }

  /** The concatenation of the successful lists. */
  function Appended<T>(tauts: seq<Mol>, search: Mol -> Result<seq<T>>): seq<T>
  {
    if |tauts| == 0 then []
    else (if search(tauts[0]).Ok? then search(tauts[0]).value else []) + Appended(tauts[1..], search)
  }

  /** The appending loop that skips failures: each successful list is appended (duplicates
      kept), the flag records a non-empty one, and the loop stops once the hits exceed the
      limit. */
  function AppendSkipping<T>(acc: seq<T>, used: bool, tauts: seq<Mol>, search: Mol -> Result<seq<T>>, limit: nat): (seq<T>, bool)
    decreases |tauts|
  {
    if |tauts| == 0 then (acc, used)
    else
      match search(tauts[0])
      case Err(_) => AppendSkipping(acc, used, tauts[1..], search, limit)
      case Ok(found) =>
        var next := acc + found;
        var flag := used || |found| > 0;
        if |next| > limit then (next, flag) else AppendSkipping(next, flag, tauts[1..], search, limit)
  }

  /** The hits are the earlier hits followed by a prefix of all successful lists in
      order; the whole of them unless the limit was passed; and the flag is set exactly
      when hits were added. */
  lemma {:induction false} AppendSkippingSpec<T>(acc: seq<T>, used: bool, tauts: seq<Mol>, search: Mol -> Result<seq<T>>, limit: nat)
    ensures var r := AppendSkipping(acc, used, tauts, search, limit);
      acc <= r.0 <= acc + Appended(tauts, search) &&
      (|r.0| <= limit ==> r.0 == acc + Appended(tauts, search)) &&
      (r.1 <==> used || |r.0| > |acc|)
    decreases |tauts|
  {
    if |tauts| > 0 {
      var rest := tauts[1..];
      var whole := acc + Appended(tauts, search);
      match search(tauts[0])
      case Err(_) =>
        AppendSkippingSpec(acc, used, rest, search, limit);
        assert whole == acc + Appended(rest, search);
      case Ok(found) =>
        var next := acc + found;
        assert whole == next + Appended(rest, search);
        if |next| <= limit {
          AppendSkippingSpec(next, used || |found| > 0, rest, search, limit);
        }
    }
  }

  /** The appending loop that gives up on the first failure. */
  function AppendOrAbort<T>(acc: seq<T>, tauts: seq<Mol>, search: Mol -> Result<seq<T>>, limit: nat): Result<seq<T>>
    decreases |tauts|
  {
    if |tauts| == 0 then Ok(acc)
    else
      match search(tauts[0])
      case Err(e) => Err(e)
      case Ok(found) =>
        var next := acc + found;
        if |next| > limit then Ok(next) else AppendOrAbort(next, tauts[1..], search, limit)
  }

  /** The aborting loop fails only when some tautomer's search fails, and otherwise
      behaves like the skipping one: earlier hits, then a prefix of the appended lists,
      all of them unless the limit was passed. */
  lemma {:induction false} AppendOrAbortSpec<T>(acc: seq<T>, tauts: seq<Mol>, search: Mol -> Result<seq<T>>, limit: nat)
    ensures var r := AppendOrAbort(acc, tauts, search, limit);
      (r.Err? ==> exists i :: 0 <= i < |tauts| && search(tauts[i]).Err?) &&
      (r.Ok? ==> (acc <= r.value <= acc + Appended(tauts, search) &&
                  (|r.value| <= limit ==> r.value == acc + Appended(tauts, search))))
    decreases |tauts|
  {
    if |tauts| > 0 {
      var rest := tauts[1..];
      match search(tauts[0])
      case Err(_) =>
      case Ok(found) =>
        var next := acc + found;
        assert acc + Appended(tauts, search) == next + Appended(rest, search);
        if |next| <= limit {
          AppendOrAbortSpec(next, rest, search, limit);
          var r := AppendOrAbort(next, rest, search, limit);
          if r.Err? {
            var i :| 0 <= i < |rest| && search(rest[i]).Err?;
            assert tauts[i + 1] == rest[i];
          }
        }
    }
  }

  /** When every search succeeds, the aborting loop never aborts. */
  lemma {:induction false} AppendOrAbortSucceeds<T>(acc: seq<T>, tauts: seq<Mol>, search: Mol -> Result<seq<T>>, limit: nat)
    requires forall i :: 0 <= i < |tauts| ==> search(tauts[i]).Ok?
    ensures AppendOrAbort(acc, tauts, search, limit).Ok?
    decreases |tauts|
  {
    if |tauts| > 0 {
      var next := acc + search(tauts[0]).value;
      if |next| <= limit {
        forall i | 0 <= i < |tauts| - 1
          ensures search(tauts[1..][i]).Ok?
        {
          assert tauts[1..][i] == tauts[i + 1];
        }
        AppendOrAbortSucceeds(next, tauts[1..], search, limit);
      }
    }
  }

  /** The skipping loop as written, with `continue` and `break`. */
  method RunAppendSkipping<T>(acc: seq<T>, used: bool, tauts: seq<Mol>, search: Mol -> Result<seq<T>>, limit: nat)
    returns (results: seq<T>, tautomersUsed: bool)
    ensures (results, tautomersUsed) == AppendSkipping(acc, used, tauts, search, limit)
  {
    results, tautomersUsed := acc, used;
    for i := 0 to |tauts|
      invariant AppendSkipping(results, tautomersUsed, tauts[i..], search, limit) == AppendSkipping(acc, used, tauts, search, limit)
    {
      assert tauts[i..][1..] == tauts[i + 1..];
      var tautResults := search(tauts[i]);
      if tautResults.Err? {
        continue;
      }
      if |tautResults.value| > 0 {
        tautomersUsed := true;
      }
      results := results + tautResults.value;
      if |results| > limit {
        return;
      }
    }
  }

  /** The aborting loop as written, with `?` and `break`. */
  method RunAppendOrAbort<T>(acc: seq<T>, tauts: seq<Mol>, search: Mol -> Result<seq<T>>, limit: nat)
    returns (r: Result<seq<T>>)
    ensures r == AppendOrAbort(acc, tauts, search, limit)
  {
    var results := acc;
    for i := 0 to |tauts|
      invariant AppendOrAbort(results, tauts[i..], search, limit) == AppendOrAbort(acc, tauts, search, limit)
    {
      assert tauts[i..][1..] == tauts[i + 1..];
      var tautResults := search(tauts[i]);
      if tautResults.Err? {
        return Err(tautResults.error);
      }
      results := results + tautResults.value;
      if |results| > limit {
        return Ok(results);
      }
    }
    r := Ok(results);
  }
  /** A search is consulted only on the tautomers given: two searches that agree on them
      give the same results. */
  lemma {:induction false} SearchedAgree<T>(tauts: seq<Mol>, search: Mol -> Result<T>, other: Mol -> Result<T>)
    requires forall i :: 0 <= i < |tauts| ==> search(tauts[i]) == other(tauts[i])
    ensures Searched(tauts, search) == Searched(tauts, other)
    decreases |tauts|
  {
    if |tauts| > 0 {
      forall i | 0 <= i < |tauts| - 1
        ensures search(tauts[1..][i]) == other(tauts[1..][i])
      {
        assert tauts[1..][i] == tauts[i + 1];
      }
      SearchedAgree(tauts[1..], search, other);
    }
  }

  /** A superset is larger exactly when it differs. */
  lemma SupersetLarger<T>(a: set<T>, b: set<T>)
    requires a <= b
    ensures |b| > |a| <==> b != a
  {
    var extra := b - a;
    assert b == a + extra;
    assert a * extra == {};
    assert |b| == |a| + |extra|;
    if b != a {
      var x :| x in b && x !in a;
      assert x in extra;
    }
  }

  /** The union pass of the command-line structure and superstructure searches: when
      the first pass found fewer hits than the limit, there are tautomers and the
      tautomer limit is positive, every tautomer is searched and every successful result
      set is merged in; tautomers count as used when the hits grew. */
  function UnionPass<T>(first: set<T>, tauts: seq<Mol>, search: Mol -> Result<set<T>>,
                        resultLimit: nat, tautomerLimit: nat): (set<T>, bool)
  {
    if |first| < resultLimit && |tauts| > 0 && tautomerLimit > 0 then
      var merged := first + UnionAll(Searched(tauts, search));
      (merged, |merged| > |first|)
    else (first, false)
  }

  /** The union pass holds exactly the first hits and, when it runs, the hits of every
      successful tautomer search; tautomers are used exactly when they added a hit. */
  lemma UnionPassSpec<T>(first: set<T>, tauts: seq<Mol>, search: Mol -> Result<set<T>>,
                         resultLimit: nat, tautomerLimit: nat, x: T)
    ensures var (merged, used) := UnionPass(first, tauts, search, resultLimit, tautomerLimit);
      first <= merged &&
      (x in merged <==> (x in first ||
                         (|first| < resultLimit && |tauts| > 0 && tautomerLimit > 0 &&
                          exists i :: 0 <= i < |tauts| && search(tauts[i]).Ok? && x in search(tauts[i]).value))) &&
      (used <==> merged != first)
  {
    SearchedUnionIff(tauts, search, x);
    var (merged, used) := UnionPass(first, tauts, search, resultLimit, tautomerLimit);
    SupersetLarger(first, merged);
  }

  /** The tautomer limit only switches the union pass on: any two positive limits give the
      same outcome. */
  lemma UnionPassLimitIsSwitch<T>(first: set<T>, tauts: seq<Mol>, search: Mol -> Result<set<T>>,
                                  resultLimit: nat, tautomerLimit: nat, otherLimit: nat)
    requires tautomerLimit > 0 && otherLimit > 0
    ensures UnionPass(first, tauts, search, resultLimit, tautomerLimit) == UnionPass(first, tauts, search, resultLimit, otherLimit)
  {
  }

  /** The counted pass of the REST superstructure and command-line substructure searches:
      the count starts at one when the first pass found anything, and the counted loop
      runs only when the hits are below the limit and there are more than one tautomer
      and a tautomer limit above one. */
  function CountedPass<T>(first: set<T>, canonical: Mol, tauts: seq<Mol>, search: Mol -> Result<set<T>>,
                          resultLimit: nat, tautomerLimit: nat): Counted<T>
  {
    var start := Counted(first, if |first| > 0 then 1 else 0, false);
    if |first| < resultLimit && |tauts| > 1 && tautomerLimit > 1 then
      CountedLoop(start, tauts, canonical, search, resultLimit, tautomerLimit)
    else start
  }

  /** The counted pass keeps the first hits and adds only hits of usable tautomers; it is
      marked used exactly when it counted a tautomer beyond the start; when it runs, the
      count stays within the tautomer limit; when it does not, nothing changes. */
  lemma CountedPassSpec<T>(first: set<T>, canonical: Mol, tauts: seq<Mol>, search: Mol -> Result<set<T>>,
                           resultLimit: nat, tautomerLimit: nat)
    ensures var r := CountedPass(first, canonical, tauts, search, resultLimit, tautomerLimit);
      var startCount := if |first| > 0 then 1 else 0;
      first <= r.results <= first + UsableUnion(tauts, canonical, search) &&
      (r.used <==> r.count > startCount) &&
      (|first| < resultLimit && |tauts| > 1 && tautomerLimit > 1 ==> r.count <= tautomerLimit) &&
      (!(|first| < resultLimit && |tauts| > 1 && tautomerLimit > 1) ==> r == Counted(first, startCount, false))
  {
    var start := Counted(first, if |first| > 0 then 1 else 0, false);
    CountedLoopBounds(start, tauts, canonical, search, resultLimit, tautomerLimit);
    if |first| < resultLimit && |tauts| > 1 && tautomerLimit > 1 {
      CountedLoopCountBound(start, tauts, canonical, search, resultLimit, tautomerLimit);
    }
  }

  /** The tautomers the similarity searches use: the canonical tautomer alone when the
      tautomer limit is 0, otherwise it followed by the enumerated tautomers, cut to one
      more than the limit. */
  function SimilarityTautomers(canonical: Mol, tauts: seq<Mol>, tautomerLimit: nat): seq<Mol>
  {
    var all := AllTautomers(canonical, tauts, tautomerLimit);
    all[..Min(|all|, tautomerLimit + 1)]
  }

  /** `tauts.insert(0, canonical)` when the tautomer limit is positive, else the
      canonical tautomer alone. */
  function AllTautomers(canonical: Mol, tauts: seq<Mol>, tautomerLimit: nat): seq<Mol>
  {
    if tautomerLimit > 0 then [canonical] + tauts else [canonical]
  }

  /** The canonical tautomer always comes first, the rest is a prefix of the enumerated
      tautomers, the length is the smaller of the list and one more than the limit, and
      more than one tautomer is used exactly when the limit is positive and any were
      enumerated. */
  lemma SimilarityTautomersSpec(canonical: Mol, tauts: seq<Mol>, tautomerLimit: nat)
    ensures var r := SimilarityTautomers(canonical, tauts, tautomerLimit);
      |r| >= 1 && r[0] == canonical && r[1..] <= tauts && r <= AllTautomers(canonical, tauts, tautomerLimit) &&
      |r| == (if tautomerLimit > 0 then Min(|tauts| + 1, tautomerLimit + 1) else 1) &&
      (|r| > 1 <==> tautomerLimit > 0 && |tauts| > 0)
  {
    var r := SimilarityTautomers(canonical, tauts, tautomerLimit);
    if tautomerLimit > 0 {
      assert r[1..] == tauts[..|r| - 1];
    }
  }
}
