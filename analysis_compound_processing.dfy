/** `fix_repeating_smiles` (src/analysis/compound_processing.rs): cut a SMILES text that
    repeats one structure down to a single copy. Lengths are byte counts of ASCII SMILES,
    so a character stands for a byte. */
module AnalysisCompoundProcessing {
  import opened Wrappers
  import opened Text

  const SEP: string := "."
  const MIN_LENGTH: nat := 10

  /** `iter().max()` followed by `position(|v| v == max)`: the first index holding the
      largest value. */
  function MaxIndex(xs: seq<nat>): (r: nat)
    requires |xs| > 0
    ensures r < |xs|
    ensures forall j :: 0 <= j < |xs| ==> xs[j] <= xs[r]
    ensures forall j :: 0 <= j < r ==> xs[j] < xs[r]
  {
    if |xs| == 1 then 0
    else
      var m := MaxIndex(xs[..|xs| - 1]);
      if xs[|xs| - 1] > xs[m] then |xs| - 1 else m
  }

  function Lengths(pieces: seq<string>): (r: seq<nat>)
    ensures |r| == |pieces|
    ensures forall i :: 0 <= i < |pieces| ==> r[i] == |pieces[i]|
  {
    seq(|pieces|, i requires 0 <= i < |pieces| => |pieces[i]|)
  }

  /** The text the search works on: the first longest `.`-fragment, or the whole text
      when it has no `.`. */
  function Fragment(smiles: string): string
  {
    if Contains(smiles, SEP) then
      var pieces := Split(smiles, SEP);
      pieces[MaxIndex(Lengths(pieces))]
    else smiles
  }

  /** The fragment is a substring of the input, the whole input when there is no `.`,
      and otherwise the first of the longest pieces. */
  lemma FragmentSpec(smiles: string)
    ensures Contains(smiles, Fragment(smiles))
    ensures !Contains(smiles, SEP) ==> Fragment(smiles) == smiles
    ensures Contains(smiles, SEP) ==>
      exists i :: 0 <= i < |Split(smiles, SEP)| && Fragment(smiles) == Split(smiles, SEP)[i] &&
        (forall j :: 0 <= j < |Split(smiles, SEP)| ==> |Split(smiles, SEP)[j]| <= |Fragment(smiles)|) &&
        (forall j :: 0 <= j < i ==> |Split(smiles, SEP)[j]| < |Fragment(smiles)|)
  {
    if Contains(smiles, SEP) {
      var pieces := Split(smiles, SEP);
      var i := MaxIndex(Lengths(pieces));
      SplitPiecesContained(smiles, SEP, i);
    } else {
      SuffixContained(smiles, 0);
    }
  }

  // ---------------------------------------------------------------- distinct elements

  /** `Vec::dedup`: consecutive equal elements collapse to one. */
  function Dedup<T(==)>(xs: seq<T>): (r: seq<T>)
    ensures |r| <= |xs|
    ensures |xs| > 0 ==> |r| > 0 && r[|r| - 1] == xs[|xs| - 1]
    ensures forall k :: 0 < k < |r| ==> r[k] != r[k - 1]
  {
    if |xs| <= 1 then xs
    else
      var d := Dedup(xs[..|xs| - 1]);
      if xs[|xs| - 1] == xs[|xs| - 2] then d else d + [xs[|xs| - 1]]
  }

  /** Dedup leaves a single element exactly when all elements are equal. */
  lemma {:induction false} DedupSingle<T>(xs: seq<T>)
    ensures |Dedup(xs)| == 1 <==> (|xs| > 0 && forall i :: 0 <= i < |xs| ==> xs[i] == xs[0])
    decreases |xs|
  {
    if |xs| > 1 {
      var init := xs[..|xs| - 1];
      DedupSingle(init);
      assert forall i :: 0 <= i < |init| ==> init[i] == xs[i];
    }
  }

  /** A longer list never dedups to fewer elements than its prefix. */
  lemma {:induction false} DedupPrefix<T>(xs: seq<T>, k: nat)
    requires 1 <= k <= |xs|
    ensures |Dedup(xs[..k])| <= |Dedup(xs)|
    decreases |xs| - k
  {
    if k < |xs| {
      var init := xs[..|xs| - 1];
      assert init[..k] == xs[..k];
      DedupPrefix(init, k);
    } else {
      assert xs[..k] == xs;
    }
  }

  /** Rust `split("")` on a non-empty text: an empty piece, each character, an empty piece. */
  function SplitEmpty(s: string): (r: seq<string>)
    ensures |r| == |s| + 2
  {
    [""] + seq(|s|, i requires 0 <= i < |s| => [s[i]]) + [""]
  }

  /** `unq_elements.len()` as the source computes it. */
  function UniqueElementsAsWritten(pattern: string): nat
  {
    |Dedup(SplitEmpty(pattern))|
  }

  /** The number of character runs: 1 exactly for a text of one repeated character. */
  function UniqueRuns(pattern: string): nat
  {
    |Dedup(pattern)|
  }

  /** The empty pieces at both ends keep at least three elements after dedup, so the
      `unq_element_num == 1` test never fires. */
  lemma UniqueElementsAsWrittenAtLeastThree(pattern: string)
    requires |pattern| > 0
    ensures UniqueElementsAsWritten(pattern) >= 3
  {
    var xs := SplitEmpty(pattern);
    var n := |xs|;
    var init := xs[..n - 1];
    assert xs[n - 1] == "" && xs[n - 2] == [pattern[|pattern| - 1]];
    assert Dedup(xs) == Dedup(init) + [""];
    assert init[..2][..1] == [""];
    assert init[..2][1] == [pattern[0]];
    assert |Dedup(init[..2])| == 2;
    DedupPrefix(init, 2);
  }

  /** A one-character run has a single run. */
  lemma UniqueRunsUniform(pattern: string)
    ensures UniqueRuns(pattern) == 1 <==> (|pattern| > 0 && forall i :: 0 <= i < |pattern| ==> pattern[i] == pattern[0])
  {
    DedupSingle(pattern);
  }

  // ---------------------------------------------------------------- qualifying suffixes

  /** The suffix from `idx` is a repeat: it occurs at least twice (non-overlapping), is at
      least ten bytes long, and its copies cover 99% of the fragment
      (length/total ≥ 0.99/count, as an exact rational comparison). */
  predicate Candidate(trunc: string, idx: nat)
  {
    idx < |trunc| &&
    var suffix := trunc[idx..];
    CountMatches(trunc, suffix) >= 2 && |suffix| >= MIN_LENGTH &&
    100 * |suffix| * CountMatches(trunc, suffix) >= 99 * |trunc|
  }

  /** A candidate that also passes the distinct-elements test computed by `uniqueCount`. */
  predicate Qualifies(trunc: string, idx: nat, uniqueCount: string -> nat)
  {
    Candidate(trunc, idx) && uniqueCount(trunc[idx..]) != 1
  }

  /** The start indices below `n` whose suffix qualifies, in increasing order. */
  function Qualifying(trunc: string, n: nat, uniqueCount: string -> nat): (r: seq<nat>)
    requires n <= |trunc|
    ensures forall k :: 0 <= k < |r| ==> r[k] < n
  {
    if n == 0 then []
    else
      var q := Qualifying(trunc, n - 1, uniqueCount);
      if Qualifies(trunc, n - 1, uniqueCount) then q + [n - 1] else q
  }

  /** One more start index extends the qualifying list by that index exactly when it qualifies. */
  lemma QualifyingStep(trunc: string, n: nat, uniqueCount: string -> nat, qualifies: bool)
    requires n < |trunc| && (qualifies <==> Qualifies(trunc, n, uniqueCount))
    ensures Qualifying(trunc, n + 1, uniqueCount) ==
      if qualifies then Qualifying(trunc, n, uniqueCount) + [n] else Qualifying(trunc, n, uniqueCount)
  {
  }

  /** Exactly the qualifying indices below `n`, strictly increasing. */
  lemma {:induction false} QualifyingSpec(trunc: string, n: nat, uniqueCount: string -> nat)
    requires n <= |trunc|
    ensures forall k :: 0 <= k < |Qualifying(trunc, n, uniqueCount)| ==>
      Qualifying(trunc, n, uniqueCount)[k] < n && Qualifies(trunc, Qualifying(trunc, n, uniqueCount)[k], uniqueCount)
    ensures forall i :: 0 <= i < n && Qualifies(trunc, i, uniqueCount) ==> i in Qualifying(trunc, n, uniqueCount)
    ensures forall k, l :: 0 <= k < l < |Qualifying(trunc, n, uniqueCount)| ==>
      Qualifying(trunc, n, uniqueCount)[k] < Qualifying(trunc, n, uniqueCount)[l]
  {
    if n > 0 {
      QualifyingSpec(trunc, n - 1, uniqueCount);
    }
  }

  /** The longest qualifying suffix (the first pushed), or the whole fragment. */
  function RepeatResult(trunc: string, uniqueCount: string -> nat): string
  {
    var q := Qualifying(trunc, |trunc|, uniqueCount);
    if |q| == 0 then trunc else trunc[q[0]..]
  }

  /** `fix_repeating_smiles` as written: the distinct-elements test counts the pieces of
      `split("")`. */
  function FixRepeatingSmilesAsWritten(smiles: string): string
  {
    RepeatResult(Fragment(smiles), UniqueElementsAsWritten)
  }

  /** `fix_repeating_smiles` with the distinct-elements test it evidently intends: a
      suffix of one repeated character is not a repeat. */
  function FixRepeatingSmilesSpec(smiles: string): string
  {
    RepeatResult(Fragment(smiles), UniqueRuns)
  }

  /** The result is the fragment when no suffix qualifies, and otherwise the longest
      qualifying suffix; either way a substring of the fragment. */
  lemma RepeatResultSpec(trunc: string, uniqueCount: string -> nat)
    ensures Contains(trunc, RepeatResult(trunc, uniqueCount))
    ensures (forall i :: 0 <= i < |trunc| ==> !Qualifies(trunc, i, uniqueCount)) ==> RepeatResult(trunc, uniqueCount) == trunc
    ensures (exists i :: 0 <= i < |trunc| && Qualifies(trunc, i, uniqueCount)) ==>
      exists i :: 0 <= i < |trunc| && Qualifies(trunc, i, uniqueCount) && RepeatResult(trunc, uniqueCount) == trunc[i..] &&
        forall j :: 0 <= j < i ==> !Qualifies(trunc, j, uniqueCount)
  {
    QualifyingSpec(trunc, |trunc|, uniqueCount);
    var q := Qualifying(trunc, |trunc|, uniqueCount);
    if |q| == 0 {
      SuffixContained(trunc, 0);
    } else {
      SuffixContained(trunc, q[0]);
      forall j | 0 <= j < q[0]
        ensures !Qualifies(trunc, j, uniqueCount)
      {
        forall k | 0 <= k < |q| ensures q[k] != j {
          assert q[0] <= q[k];
        }
      }
    }
  }

  /** Properties of the repaired function: the output is a substring of the input, and a
      shortened output is a repeat that is not a single repeated character, with no
      longer qualifying suffix. */
  lemma FixRepeatingSmilesProperties(smiles: string)
    ensures Contains(smiles, FixRepeatingSmilesSpec(smiles))
    ensures |FixRepeatingSmilesSpec(smiles)| <= |smiles|
    ensures FixRepeatingSmilesSpec(smiles) != Fragment(smiles) ==>
      exists i: nat :: Qualifies(Fragment(smiles), i, UniqueRuns) && FixRepeatingSmilesSpec(smiles) == Fragment(smiles)[i..] &&
        (forall j :: 0 <= j < i ==> !Qualifies(Fragment(smiles), j, UniqueRuns)) &&
        !(forall k :: 0 <= k < |Fragment(smiles)[i..]| ==> Fragment(smiles)[i..][k] == Fragment(smiles)[i])
  {
    var trunc := Fragment(smiles);
    FragmentSpec(smiles);
    RepeatResultSpec(trunc, UniqueRuns);
    ContainsTransitive(smiles, trunc, FixRepeatingSmilesSpec(smiles));
    ContainsIff(smiles, FixRepeatingSmilesSpec(smiles));
    if FixRepeatingSmilesSpec(smiles) != trunc {
      var i :| 0 <= i < |trunc| && Qualifies(trunc, i, UniqueRuns) && FixRepeatingSmilesSpec(smiles) == trunc[i..] &&
        forall j :: 0 <= j < i ==> !Qualifies(trunc, j, UniqueRuns);
      UniqueRunsUniform(trunc[i..]);
      assert trunc[i..][0] == trunc[i];
    }
  }

  /** The inner loop of `fix_repeating_smiles`: over the end indices from `idx`, keep the
      longest substring seen, which ends as the whole suffix. */
  method LongestPatternFrom(truncSmiles: string, idx: nat) returns (patternSubstring: string, patternCount: nat, patternLength: nat)
    requires idx < |truncSmiles|
    ensures patternSubstring == truncSmiles[idx..]
    ensures patternCount == CountMatches(truncSmiles, truncSmiles[idx..])
    ensures patternLength == |truncSmiles| - idx
  {
    patternSubstring := "";
    patternCount := 1;
    patternLength := 0;
    var remaining := truncSmiles[idx..];
    for jdx := 0 to |remaining|
      invariant jdx == 0 ==> patternSubstring == "" && patternCount == 1 && patternLength == 0
      invariant jdx > 0 ==>
        patternSubstring == truncSmiles[idx..idx + jdx] && patternLength == jdx &&
        patternCount == CountMatches(truncSmiles, patternSubstring)
    {
      var substring := truncSmiles[idx..idx + jdx + 1];
      var substringCount := CountMatches(truncSmiles, substring);
      var substringLength := |substring|;
      if substringLength > |patternSubstring| {
        patternSubstring := substring;
        patternCount := substringCount;
        patternLength := substringLength;
      }
    }
    assert truncSmiles[idx..idx + |remaining|] == truncSmiles[idx..];
  }

  /** The tests of the loop, on the suffix's count and length, decide qualification. */
  lemma QualifiesIff(trunc: string, idx: nat, count: nat, length: nat)
    requires idx < |trunc| && count == CountMatches(trunc, trunc[idx..]) && length == |trunc| - idx
    ensures Qualifies(trunc, idx, UniqueRuns) <==>
      count >= 2 && length >= MIN_LENGTH && UniqueRuns(trunc[idx..]) != 1 && 100 * length * count >= 99 * |trunc|
  {
    var suffix := trunc[idx..];
    assert |suffix| == length;
    assert 100 * |suffix| * CountMatches(trunc, suffix) == 100 * length * count;
    assert Candidate(trunc, idx) <==> count >= 2 && length >= MIN_LENGTH && 100 * length * count >= 99 * |trunc|;
  }

  /** One start index: the longest pattern from it, and the loop's tests on it. */
  method ConsiderStart(truncSmiles: string, idx: nat)
    returns (qualifies: bool, patternSubstring: string, patternCount: nat, patternLength: nat)
    requires idx < |truncSmiles|
    ensures qualifies <==> Qualifies(truncSmiles, idx, UniqueRuns)
    ensures patternSubstring == truncSmiles[idx..] && patternLength == |truncSmiles| - idx
    ensures qualifies ==> patternCount >= 2
  {
    patternSubstring, patternCount, patternLength := LongestPatternFrom(truncSmiles, idx);
    var uniqueElementNum := UniqueRuns(patternSubstring);
    QualifiesIff(truncSmiles, idx, patternCount, patternLength);
    if patternCount < 2 || patternLength < MIN_LENGTH || uniqueElementNum == 1 {
      return false, patternSubstring, patternCount, patternLength;
    }
    if 100 * patternLength * patternCount < 99 * |truncSmiles| {
      return false, patternSubstring, patternCount, patternLength;
    }
    qualifies := true;
  }

  /** The first loop of `fix_repeating_smiles` over start indices: each qualifying suffix
      is pushed with its match count and length. The distinct-elements test is the
      repaired one. */
  method CollectPatterns(truncSmiles: string) returns (patternSubstrings: seq<string>, patternCounts: seq<nat>, patternLengths: seq<nat>)
    ensures |patternSubstrings| == |Qualifying(truncSmiles, |truncSmiles|, UniqueRuns)|
    ensures |patternCounts| == |patternSubstrings| == |patternLengths|
    ensures forall k :: 0 <= k < |patternSubstrings| ==>
      patternSubstrings[k] == truncSmiles[Qualifying(truncSmiles, |truncSmiles|, UniqueRuns)[k]..] &&
      patternLengths[k] == |truncSmiles| - Qualifying(truncSmiles, |truncSmiles|, UniqueRuns)[k] &&
      patternCounts[k] >= 2
  {
    patternSubstrings, patternCounts, patternLengths := [], [], [];
    ghost var q: seq<nat> := [];
    for idx := 0 to |truncSmiles|
      invariant q == Qualifying(truncSmiles, idx, UniqueRuns)
      invariant |patternSubstrings| == |q| && |patternCounts| == |q| && |patternLengths| == |q|
      invariant forall k :: 0 <= k < |q| ==>
        patternSubstrings[k] == truncSmiles[q[k]..] && patternLengths[k] == |truncSmiles| - q[k] && patternCounts[k] >= 2
    {
      var qualifies, patternSubstring, patternCount, patternLength := ConsiderStart(truncSmiles, idx);
      QualifyingStep(truncSmiles, idx, UniqueRuns, qualifies);
      if !qualifies {
        continue;
      }
      patternSubstrings := patternSubstrings + [patternSubstring];
      patternCounts := patternCounts + [patternCount];
      patternLengths := patternLengths + [patternLength];
      q := q + [idx];
    }
  }

  /** `fix_repeating_smiles`: the fragment, the collected patterns, and the pick of the
      first longest pattern. */
  method FixRepeatingSmiles(smiles: string) returns (r: string)
    ensures r == FixRepeatingSmilesSpec(smiles)
  {
    var truncSmiles := smiles;
    if Contains(truncSmiles, SEP) {
      var smilesVec := Split(truncSmiles, SEP);
      var lengths := Lengths(smilesVec);
      var maxIdx := MaxIndex(lengths);
      truncSmiles := smilesVec[maxIdx];
    }
    assert truncSmiles == Fragment(smiles);
    var patternSubstrings, patternCounts, patternLengths := CollectPatterns(truncSmiles);
    if |patternCounts| == 0 || patternCounts[MaxIndex(patternCounts)] == 1 {
      return truncSmiles;
    }
    QualifyingSpec(truncSmiles, |truncSmiles|, UniqueRuns);
    var maxIdx := MaxIndex(patternLengths);
    assert patternLengths[0] >= patternLengths[maxIdx];
    r := patternSubstrings[maxIdx];
  }

  // ---------------------------------------------------------------- a repeated character

  function Rep(c: char, n: nat): (r: string)
    ensures |r| == n && forall i :: 0 <= i < n ==> r[i] == c
  {
    seq(n, _ => c)
  }

  /** Non-overlapping matches of a run of `k` in a run of `n` (for `n < 3k`). */
  lemma {:induction false} CountMatchesRep(c: char, n: nat, k: nat)
    requires 0 < k && n < 3 * k
    ensures n < k ==> CountMatches(Rep(c, n), Rep(c, k)) == 0
    ensures k <= n < 2 * k ==> CountMatches(Rep(c, n), Rep(c, k)) == 1
    ensures 2 * k <= n ==> CountMatches(Rep(c, n), Rep(c, k)) == 2
    decreases n
  {
    if n >= k {
      assert Rep(c, n)[..k] == Rep(c, k);
      IndexOfSpec(Rep(c, n), Rep(c, k));
      assert OccursAt(Rep(c, n), Rep(c, k), 0);
      assert IndexOf(Rep(c, n), Rep(c, k)) == Some(0);
      assert Rep(c, n)[k..] == Rep(c, n - k);
      CountMatchesRep(c, n - k, k);
    } else {
      assert IndexOf(Rep(c, n), Rep(c, k)) == None;
    }
  }

  lemma RepHasNoDot(n: nat)
    ensures !Contains(Rep('C', n), SEP)
  {
    ContainsChar(Rep('C', n), '.');
  }

  /** On twenty `C`s the code as written returns ten: `unq_element_num == 1` does not
      stop the single-character suffix. */
  lemma RepeatingAsWrittenCounterexample(smiles: string)
    requires smiles == Rep('C', 20)
    ensures FixRepeatingSmilesAsWritten(smiles) == Rep('C', 10)
  {
    RepHasNoDot(20);
    assert Fragment(smiles) == smiles;
    var q := Qualifying(smiles, 20, UniqueElementsAsWritten);
    QualifyingSpec(smiles, 20, UniqueElementsAsWritten);
    forall i | 0 <= i < 10
      ensures !Qualifies(smiles, i, UniqueElementsAsWritten)
    {
      assert smiles[i..] == Rep('C', 20 - i);
      CountMatchesRep('C', 20, 20 - i);
    }
    assert smiles[10..] == Rep('C', 10);
    CountMatchesRep('C', 20, 10);
    UniqueElementsAsWrittenAtLeastThree(Rep('C', 10));
    assert Qualifies(smiles, 10, UniqueElementsAsWritten);
    assert 10 in q;
    assert q[0] == 10 by {
      var k :| 0 <= k < |q| && q[k] == 10;
      assert q[0] <= q[k];
    }
  }

  /** On twenty `C`s the repaired function keeps the input. */
  lemma RepeatingCorrected(smiles: string)
    requires smiles == Rep('C', 20)
    ensures FixRepeatingSmilesSpec(smiles) == smiles
  {
    RepHasNoDot(20);
    forall i | 0 <= i < 20
      ensures !Qualifies(smiles, i, UniqueRuns)
    {
      assert smiles[i..] == Rep('C', 20 - i);
      UniqueRunsUniform(Rep('C', 20 - i));
    }
    RepeatResultSpec(smiles, UniqueRuns);
  }

  /** The structure the source's own test doubles. */
  const TEST_UNIT: string := "CC(C)(C)OC(=O)NC(CC1=CSC=N1)C(=O)O"

  /** The first dot of `s` is the one at `k` when none comes before it. */
  lemma FirstDotAt(s: string, k: nat)
    requires k < |s| && s[k] == '.' && !HasChar(s[..k], '.')
    ensures IndexOf(s, SEP) == Some(k)
  {
    assert forall j :: 0 <= j < k ==> s[j] != '.' by {
      forall j | 0 <= j < k
        ensures s[j] != '.'
      {
        assert s[..k][j] == s[j];
      }
    }
    assert OccursAt(s, SEP, k);
    ContainsIff(s, SEP);
    IndexOfSpec(s, SEP);
    var i := IndexOf(s, SEP).value;
    assert s[i..i + 1] == SEP;
    assert s[i] == s[i..i + 1][0] == '.';
  }

  lemma TestUnitHasNoDot()
    ensures !HasChar(TEST_UNIT + TEST_UNIT, '.')
  {
    var u := TEST_UNIT;
    assert forall j :: 0 <= j < |u| ==> u[j] != '.';
    forall j | 0 <= j < |u + u|
      ensures (u + u)[j] != '.'
    {
      if j < |u| {
        assert (u + u)[j] == u[j];
      } else {
        assert (u + u)[j] == u[j - |u|];
      }
    }
  }

  /** The doubled unit followed by a sodium ion: the first longest fragment is the
      doubled unit. */
  lemma TestFragment(smiles: string)
    requires smiles == TEST_UNIT + TEST_UNIT + ".[Na+]"
    ensures Fragment(smiles) == TEST_UNIT + TEST_UNIT
  {
    var trunc := TEST_UNIT + TEST_UNIT;
    assert |trunc| == 68;
    assert smiles[..68] == trunc;
    TestUnitHasNoDot();
    FirstDotAt(smiles, 68);
    SplitAtFirst(smiles, SEP, 68);
    var rest := smiles[69..];
    assert rest == "[Na+]";
    assert !HasChar(rest, '.');
    ContainsChar(rest, '.');
    IndexOfSpec(rest, SEP);
    assert Split(rest, SEP) == [rest];
    assert Split(smiles, SEP) == [trunc, rest];
    assert Lengths([trunc, rest]) == [68, 5];
  }

  /** The doubled unit qualifies from its second copy on and from no earlier start: a
      longer suffix fits in the text only once. */
  lemma TestRepeat(uniqueCount: string -> nat)
    requires uniqueCount(TEST_UNIT) != 1
    ensures RepeatResult(TEST_UNIT + TEST_UNIT, uniqueCount) == TEST_UNIT
  {
    var trunc := TEST_UNIT + TEST_UNIT;
    assert |trunc| == 68;
    forall i | 0 <= i < 34
      ensures !Qualifies(trunc, i, uniqueCount)
    {
      CountMatchesBound(trunc, trunc[i..]);
    }
    assert trunc[34..] == TEST_UNIT;
    CountMatchesPrefix(TEST_UNIT, TEST_UNIT);
    CountMatchesPrefix(TEST_UNIT, "");
    assert TEST_UNIT + "" == TEST_UNIT;
    assert IndexOf("", TEST_UNIT) == None;
    assert Qualifies(trunc, 34, uniqueCount);
    QualifyingSpec(trunc, 68, uniqueCount);
    var q := Qualifying(trunc, 68, uniqueCount);
    assert 34 in q;
    assert q[0] == 34 by {
      var k :| 0 <= k < |q| && q[k] == 34;
      assert q[0] <= q[k];
      assert Qualifies(trunc, q[0], uniqueCount);
    }
  }

  /** The case of `test_fix_repeating_smiles` (tests/cpd_processing_tests.rs): the
      doubled structure with a sodium ion comes back as one copy, both as written and
      with the corrected distinct-elements test. */
  lemma RepeatingSourceTest(smiles: string)
    requires smiles == TEST_UNIT + TEST_UNIT + ".[Na+]"
    ensures FixRepeatingSmilesSpec(smiles) == TEST_UNIT
    ensures FixRepeatingSmilesAsWritten(smiles) == TEST_UNIT
  {
    TestFragment(smiles);
    UniqueRunsUniform(TEST_UNIT);
    assert TEST_UNIT[2] != TEST_UNIT[0];
    TestRepeat(UniqueRuns);
    UniqueElementsAsWrittenAtLeastThree(TEST_UNIT);
    TestRepeat(UniqueElementsAsWritten);
  }

  /** As written, the distinct-elements test never rejects: a suffix qualifies exactly
      when it is a candidate. */
  lemma AsWrittenQualifiesIffCandidate(trunc: string, idx: nat)
    ensures Qualifies(trunc, idx, UniqueElementsAsWritten) <==> Candidate(trunc, idx)
  {
    if idx < |trunc| {
      UniqueElementsAsWrittenAtLeastThree(trunc[idx..]);
    }
  }
}
