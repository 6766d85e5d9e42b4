/** String operations with the semantics of the Rust standard library calls the source makes. */
module Text {
  import opened Wrappers

  /** `p` occurs in `s` starting at position `i`. */
  predicate OccursAt(s: string, p: string, i: nat)
  {
    i + |p| <= |s| && s[i..i + |p|] == p
  }

  /** The leftmost position at or after `k` at which `p` occurs in `s`. */
  function IndexFrom(s: string, p: string, k: nat): (r: Option<nat>)
    requires k <= |s|
    ensures r.Some? ==> k <= r.value && r.value + |p| <= |s|
    decreases |s| - k
  {
    if k + |p| > |s| then None
    else if s[k..k + |p|] == p then Some(k)
    else IndexFrom(s, p, k + 1)
  }

  /** The leftmost position at which `p` occurs in `s` (Rust `str::find`). */
  function IndexOf(s: string, p: string): (r: Option<nat>)
    ensures r.Some? ==> r.value + |p| <= |s|
  {
    IndexFrom(s, p, 0)
  }

  /** A found position is an occurrence with none before it from `k` on; no result
      means no occurrence from `k` on. */
  lemma {:induction false} IndexFromSpec(s: string, p: string, k: nat)
    requires k <= |s|
    ensures IndexFrom(s, p, k).Some? ==> k <= IndexFrom(s, p, k).value && OccursAt(s, p, IndexFrom(s, p, k).value)
    ensures IndexFrom(s, p, k).Some? ==> forall j: nat :: k <= j < IndexFrom(s, p, k).value ==> !OccursAt(s, p, j)
    ensures IndexFrom(s, p, k).None? ==> forall j: nat :: k <= j ==> !OccursAt(s, p, j)
    decreases |s| - k
  {
    if k + |p| <= |s| && s[k..k + |p|] != p {
      IndexFromSpec(s, p, k + 1);
    }
  }

  /** `IndexOf` gives the leftmost occurrence, or none when there is none. */
  lemma IndexOfSpec(s: string, p: string)
    ensures IndexOf(s, p).Some? ==> OccursAt(s, p, IndexOf(s, p).value)
    ensures IndexOf(s, p).Some? ==> forall j: nat :: j < IndexOf(s, p).value ==> !OccursAt(s, p, j)
    ensures IndexOf(s, p).None? ==> forall j: nat :: !OccursAt(s, p, j)
  {
    IndexFromSpec(s, p, 0);
  }

  /** `p` occurs somewhere in `s` (Rust `str::contains`). */
  predicate Contains(s: string, p: string)
  {
    IndexOf(s, p).Some?
  }

  lemma ContainsIff(s: string, p: string)
    ensures Contains(s, p) <==> exists j: nat :: OccursAt(s, p, j)
  {
    IndexOfSpec(s, p);
  }

  /** `s` begins with `p`. */
  predicate StartsWith(s: string, p: string)
  {
    |p| <= |s| && s[..|p|] == p
  }

  /** Rust `str::split` with a non-empty separator: the pieces between leftmost,
      non-overlapping occurrences of `sep`, empty pieces included. */
  function Split(s: string, sep: string): (parts: seq<string>)
    requires |sep| > 0
    ensures |parts| >= 1
    decreases |s|
  {
    match IndexOf(s, sep)
    case None => [s]
    case Some(i) => [s[..i]] + Split(s[i + |sep|..], sep)
  }

  /** Rust `join(sep)` on a list of strings. */
  function Join(parts: seq<string>, sep: string): string
  {
    if |parts| == 0 then ""
    else if |parts| == 1 then parts[0]
    else parts[0] + sep + Join(parts[1..], sep)
  }

  /** Joining the split pieces with the same separator restores the text. */
  lemma {:induction false} JoinSplit(s: string, sep: string)
    requires |sep| > 0
    ensures Join(Split(s, sep), sep) == s
    decreases |s|
  {
    var idx := IndexOf(s, sep);
    if idx.Some? {
      var i := idx.value;
      var rest := s[i + |sep|..];
      JoinSplit(rest, sep);
      SplitAtFirst(s, sep, i);
      JoinCons(s[..i], Split(rest, sep), sep);
    }
  }

  /** Around its first occurrence the separator cuts the text into head, separator and rest. */
  lemma SplitAtFirst(s: string, sep: string, i: nat)
    requires |sep| > 0 && IndexOf(s, sep) == Some(i)
    ensures Split(s, sep) == [s[..i]] + Split(s[i + |sep|..], sep)
    ensures s == s[..i] + sep + s[i + |sep|..]
  {
    IndexOfSpec(s, sep);
    assert s[i..i + |sep|] == sep;
    assert s == s[..i] + s[i..i + |sep|] + s[i + |sep|..];
  }

  lemma JoinCons(head: string, tail: seq<string>, sep: string)
    requires |tail| >= 1
    ensures Join([head] + tail, sep) == head + sep + Join(tail, sep)
  {
    assert ([head] + tail)[1..] == tail;
  }

  /** Joining a concatenation of two non-empty lists puts one separator between the joins. */
  lemma {:induction false} JoinAppend(a: seq<string>, b: seq<string>, sep: string)
    requires |a| >= 1 && |b| >= 1
    ensures Join(a + b, sep) == Join(a, sep) + sep + Join(b, sep)
    decreases |a|
  {
    if |a| == 1 {
      JoinCons(a[0], b, sep);
      assert a + b == [a[0]] + b;
    } else {
      JoinAppend(a[1..], b, sep);
      assert (a + b)[1..] == a[1..] + b;
    }
  }

  /** The pieces one after another: `join("")`. */
  function Concat(parts: seq<string>): string
  {
    if |parts| == 0 then "" else parts[0] + Concat(parts[1..])
  }

  lemma {:induction false} JoinEmptySeparator(parts: seq<string>)
    ensures Join(parts, "") == Concat(parts)
    decreases |parts|
  {
    if |parts| > 1 {
      JoinEmptySeparator(parts[1..]);
    }
  }

  /** Concatenating pieces no longer than the pieces of a join gives no more text than
      the join. */
  lemma {:induction false} ConcatShorterThanJoin(pieces: seq<string>, parts: seq<string>, sep: string)
    requires |pieces| == |parts|
    requires forall i :: 0 <= i < |parts| ==> |pieces[i]| <= |parts[i]|
    ensures |Concat(pieces)| <= |Join(parts, sep)|
    decreases |parts|
  {
    if |parts| > 1 {
      ConcatShorterThanJoin(pieces[1..], parts[1..], sep);
    }
  }

  /** The character `c` appears in `s`. */
  predicate HasChar(s: string, c: char)
  {
    exists i :: 0 <= i < |s| && s[i] == c
  }

  /** Containing a one-character pattern is containing that character. */
  lemma ContainsChar(s: string, c: char)
    ensures Contains(s, [c]) <==> HasChar(s, c)
  {
    ContainsIff(s, [c]);
    if HasChar(s, c) {
      var i :| 0 <= i < |s| && s[i] == c;
      assert OccursAt(s, [c], i);
    }
    if Contains(s, [c]) {
      var j: nat :| OccursAt(s, [c], j);
      assert s[j] == s[j..j + 1][0];
    }
  }

  /** A concatenation of pieces without `c` has no `c`. */
  lemma {:induction false} ConcatAvoidsChar(parts: seq<string>, c: char)
    requires forall i :: 0 <= i < |parts| ==> !HasChar(parts[i], c)
    ensures !HasChar(Concat(parts), c)
    decreases |parts|
  {
    if |parts| > 0 {
      ConcatAvoidsChar(parts[1..], c);
      var s := Concat(parts);
      var tail := Concat(parts[1..]);
      assert s == parts[0] + tail;
      forall i | 0 <= i < |s|
        ensures s[i] != c
      {
        if i < |parts[0]| {
          assert s[i] == parts[0][i];
        } else {
          assert s[i] == tail[i - |parts[0]|];
        }
      }
    }
  }

  /** No piece of a split contains the separator. */
  lemma {:induction false} SplitPiecesAvoidSeparator(s: string, sep: string)
    requires |sep| > 0
    ensures forall k :: 0 <= k < |Split(s, sep)| ==> !Contains(Split(s, sep)[k], sep)
    decreases |s|
  {
    match IndexOf(s, sep)
    case None =>
    case Some(i) =>
      var rest := s[i + |sep|..];
      SplitPiecesAvoidSeparator(rest, sep);
      var head := s[..i];
      IndexOfSpec(s, sep);
      forall j: nat ensures !OccursAt(head, sep, j) {
        if OccursAt(head, sep, j) {
          assert head[j..j + |sep|] == s[j..j + |sep|];
          assert OccursAt(s, sep, j);
        }
      }
      ContainsIff(head, sep);
      assert Split(s, sep) == [head] + Split(rest, sep);
  }

  /** Rust `str::replace` with a non-empty pattern: every leftmost, non-overlapping
      occurrence of `from` is replaced by `to`. */
  function ReplaceAll(s: string, from: string, to: string): string
    requires |from| > 0
    decreases |s|
  {
    match IndexOf(s, from)
    case None => s
    case Some(i) => s[..i] + to + ReplaceAll(s[i + |from|..], from, to)
  }

  /** Replacing is splitting on the pattern and joining with the replacement. */
  lemma {:induction false} ReplaceAllIsSplitJoin(s: string, from: string, to: string)
    requires |from| > 0
    ensures ReplaceAll(s, from, to) == Join(Split(s, from), to)
    decreases |s|
  {
    match IndexOf(s, from)
    case None =>
    case Some(i) =>
      var rest := s[i + |from|..];
      ReplaceAllIsSplitJoin(rest, from, to);
      var tail := Split(rest, from);
      assert Split(s, from) == [s[..i]] + tail;
      assert ([s[..i]] + tail)[1..] == tail;
  }

  /** Text without the pattern is left as it is. */
  lemma ReplaceAllAbsent(s: string, from: string, to: string)
    requires |from| > 0 && !Contains(s, from)
    ensures ReplaceAll(s, from, to) == s
  {
  }

  /** Rust `s.matches(p).count()` for a non-empty `p`: leftmost, non-overlapping occurrences. */
  function CountMatches(s: string, p: string): nat
    requires |p| > 0
    decreases |s|
  {
    match IndexOf(s, p)
    case None => 0
    case Some(i) => 1 + CountMatches(s[i + |p|..], p)
  }

  /** Non-overlapping occurrences fit in the text side by side. */
  lemma {:induction false} CountMatchesBound(s: string, p: string)
    requires |p| > 0
    ensures CountMatches(s, p) * |p| <= |s|
    decreases |s|
  {
    var idx := IndexOf(s, p);
    if idx.Some? {
      var i := idx.value;
      var rest := s[i + |p|..];
      CountMatchesBound(rest, p);
      MulSucc(CountMatches(rest, p), |p|);
    }
  }

  lemma MulSucc(c: nat, n: nat)
    ensures (1 + c) * n == n + c * n
  {
  }

  /** A text that starts with `p` counts one more match than the text after it. */
  lemma CountMatchesPrefix(p: string, rest: string)
    requires |p| > 0
    ensures CountMatches(p + rest, p) == 1 + CountMatches(rest, p)
  {
    assert (p + rest)[..|p|] == p;
    assert IndexOf(p + rest, p) == Some(0);
    assert (p + rest)[|p|..] == rest;
  }

  predicate IsDigit(c: char)
  {
    '0' <= c <= '9'
  }

  function DigitChar(d: nat): (c: char)
    requires d < 10
    ensures IsDigit(c) && c as int - '0' as int == d
  {
    ('0' as int + d) as char
  }

  /** The decimal rendering of a natural number (Rust `{}` on an unsigned integer). */
  function NatToString(n: nat): (r: string)
    ensures |r| >= 1
    ensures forall k :: 0 <= k < |r| ==> IsDigit(r[k])
    decreases n
  {
    if n < 10 then [DigitChar(n)] else NatToString(n / 10) + [DigitChar(n % 10)]
  }

  /** The decimal rendering of an integer (Rust `{}` on a signed integer). */
  function IntToString(i: int): (r: string)
    ensures |r| >= 1
    ensures (i < 0) <==> r[0] == '-'
  {
    if i < 0 then "-" + NatToString(-i) else NatToString(i)
  }

  function DigitValue(c: char): (d: nat)
    requires IsDigit(c)
    ensures d < 10 && DigitChar(d) == c
  {
    c as int - '0' as int
  }

  /** The value of a string of decimal digits. */
  function DigitsValue(s: string): nat
    requires forall k :: 0 <= k < |s| ==> IsDigit(s[k])
  {
    if |s| == 0 then 0 else 10 * DigitsValue(s[..|s| - 1]) + DigitValue(s[|s| - 1])
  }

  /** Reading back a rendered natural number gives the number. */
  lemma {:induction false} DigitsValueOfNatToString(n: nat)
    ensures DigitsValue(NatToString(n)) == n
    decreases n
  {
    if n >= 10 {
      DigitsValueOfNatToString(n / 10);
      var r := NatToString(n);
      assert r[..|r| - 1] == NatToString(n / 10);
    }
  }

  /** Rendering is injective: different numbers give different texts. */
  lemma NatToStringInjective(m: nat, n: nat)
    requires NatToString(m) == NatToString(n)
    ensures m == n
  {
    DigitsValueOfNatToString(m);
    DigitsValueOfNatToString(n);
  }

  const USIZE_LIMIT: nat := 0x1_0000_0000_0000_0000

  /** Rust `str::parse::<usize>`: an optional `+`, then at least one decimal digit,
      and a value below 2^64. */
  function ParseUsize(s: string): (r: Option<nat>)
    ensures r.Some? ==> r.value < USIZE_LIMIT
  {
    var digits := UsizeDigits(s);
    if |digits| == 0 || !AllDigits(digits) then None
    else if DigitsValue(digits) >= USIZE_LIMIT then None
    else Some(DigitsValue(digits))
  }

  /** Parsing a rendered usize gives it back. */
  lemma ParseUsizeOfNatToString(n: nat)
    requires n < USIZE_LIMIT
    ensures ParseUsize(NatToString(n)) == Some(n)
  {
    DigitsValueOfNatToString(n);
  }

  /** The digits `parse::<usize>` reads: the text without one leading `+`. */
  function UsizeDigits(s: string): (r: string)
    ensures r == s || (|s| > 0 && s[0] == '+' && r == s[1..])
  {
    if |s| > 0 && s[0] == '+' then s[1..] else s
  }

  predicate AllDigits(s: string)
  {
    forall k :: 0 <= k < |s| ==> IsDigit(s[k])
  }

  /** Some leading run of digits of `digits` already has a value of 2^64 or more. */
  predicate OverflowingPrefix(digits: string)
  {
    exists k :: 0 <= k <= |digits| && AllDigits(digits[..k]) && DigitsValue(digits[..k]) >= USIZE_LIMIT
  }

  /** The failures of Rust's integer parsing (`IntErrorKind`) that a usize can meet. */
  datatype IntErrorKind = Empty | InvalidDigit | PosOverflow

  /** A parsed usize, or the kind of failure. */
  datatype ParsedUsize = Parsed(value: nat) | Failed(kind: IntErrorKind)

  /** The `Display` text of each `ParseIntError` kind. */
  function IntErrorMessage(kind: IntErrorKind): string
  {
    match kind
    case Empty => "cannot parse integer from empty string"
    case InvalidDigit => "invalid digit found in string"
    case PosOverflow => "number too large to fit in target type"
  }

  /** The digit loop of Rust's `from_str_radix`, from position `i` with the value `acc`
      read so far: a character that is not a digit is `InvalidDigit`, and a value that
      reaches 2^64 is `PosOverflow`, whichever comes first. */
  function ScanDigits(digits: string, i: nat, acc: nat): ParsedUsize
    requires i <= |digits|
    decreases |digits| - i
  {
    if i == |digits| then Parsed(acc)
    else if !IsDigit(digits[i]) then Failed(InvalidDigit)
    else if 10 * acc + DigitValue(digits[i]) >= USIZE_LIMIT then Failed(PosOverflow)
    else ScanDigits(digits, i + 1, 10 * acc + DigitValue(digits[i]))
  }

  /** Adding a digit on the right multiplies the value by ten and adds the digit. */
  lemma DigitsValueSnoc(s: string, k: nat)
    requires k < |s| && AllDigits(s[..k + 1])
    ensures AllDigits(s[..k])
    ensures DigitsValue(s[..k + 1]) == 10 * DigitsValue(s[..k]) + DigitValue(s[k])
  {
    assert s[..k + 1][..k] == s[..k];
  }

  /** A shorter run of digits never has a larger value. */
  lemma {:induction false} DigitsValuePrefix(s: string, j: nat, k: nat)
    requires j <= k <= |s| && AllDigits(s[..k])
    ensures AllDigits(s[..j]) && DigitsValue(s[..j]) <= DigitsValue(s[..k])
    decreases k - j
  {
    if j < k {
      DigitsValueSnoc(s, k - 1);
      DigitsValuePrefix(s, j, k - 1);
    }
  }

  /** The scan succeeds exactly on digits of value below 2^64, with that value, and
      overflows exactly when a leading run of digits reaches 2^64. */
  lemma {:induction false} ScanDigitsSpec(digits: string, i: nat, acc: nat)
    requires i <= |digits| && AllDigits(digits[..i])
    requires acc == DigitsValue(digits[..i]) && acc < USIZE_LIMIT
    ensures ScanDigits(digits, i, acc).Parsed? <==> AllDigits(digits) && DigitsValue(digits) < USIZE_LIMIT
    ensures ScanDigits(digits, i, acc).Parsed? ==> ScanDigits(digits, i, acc).value == DigitsValue(digits)
    ensures ScanDigits(digits, i, acc) == Failed(PosOverflow) <==> OverflowingPrefix(digits)
    ensures ScanDigits(digits, i, acc) != Failed(Empty)
    decreases |digits| - i
  {
    assert digits[..|digits|] == digits;
    if i == |digits| {
      forall k | 0 <= k <= |digits| && AllDigits(digits[..k])
        ensures DigitsValue(digits[..k]) < USIZE_LIMIT
      {
        DigitsValuePrefix(digits, k, |digits|);
      }
    } else if !IsDigit(digits[i]) {
      assert !AllDigits(digits);
      forall k | i < k <= |digits|
        ensures !AllDigits(digits[..k])
      {
        assert digits[..k][i] == digits[i];
      }
      forall k | 0 <= k <= |digits| && AllDigits(digits[..k])
        ensures DigitsValue(digits[..k]) < USIZE_LIMIT
      {
        DigitsValuePrefix(digits, k, i);
      }
    } else {
      var next := 10 * acc + DigitValue(digits[i]);
      assert AllDigits(digits[..i + 1]) by {
        assert forall k :: 0 <= k < i ==> digits[..i + 1][k] == digits[..i][k];
      }
      DigitsValueSnoc(digits, i);
      if next >= USIZE_LIMIT {
        assert OverflowingPrefix(digits);
        if AllDigits(digits) {
          DigitsValuePrefix(digits, i + 1, |digits|);
        }
      } else {
        ScanDigitsSpec(digits, i + 1, next);
      }
    }
  }

  /** Rust `str::parse::<usize>` with its error kind: the empty text is `Empty`, a lone
      `+` is `InvalidDigit`, and otherwise the digit loop decides. */
  function ParseUsizeKind(s: string): (r: ParsedUsize)
    ensures r.Parsed? <==> ParseUsize(s).Some?
    ensures r.Parsed? ==> r.value == ParseUsize(s).value
    ensures r == Failed(Empty) <==> s == ""
    ensures r == Failed(PosOverflow) <==> OverflowingPrefix(UsizeDigits(s))
  {
    if s == "" then Failed(Empty)
    else
      var digits := UsizeDigits(s);
      if digits == "" then Failed(InvalidDigit)
      else
        assert digits[..0] == "";
        ScanDigitsSpec(digits, 0, 0);
        ScanDigits(digits, 0, 0)
  }

  /** An occurrence stays an occurrence when text is added on either side. */
  lemma OccursInContext(a: string, b: string, c: string, p: string, j: nat)
    requires OccursAt(b, p, j)
    ensures OccursAt(a + b + c, p, |a| + j)
  {
    assert (a + b + c)[|a| + j..|a| + j + |p|] == b[j..j + |p|];
  }

  /** Being a substring is transitive. */
  lemma ContainsTransitive(s: string, t: string, u: string)
    requires Contains(s, t) && Contains(t, u)
    ensures Contains(s, u)
  {
    ContainsIff(s, t);
    ContainsIff(t, u);
    var j: nat :| OccursAt(s, t, j);
    var k: nat :| OccursAt(t, u, k);
    assert s[j..j + |t|] == t;
    forall m | 0 <= m < |u|
      ensures s[j + k..j + k + |u|][m] == u[m]
    {
      assert s[j + k + m] == s[j..j + |t|][k + m] == t[k + m];
      assert t[k + m] == t[k..k + |u|][m];
    }
    assert OccursAt(s, u, j + k);
    ContainsIff(s, u);
  }

  /** A suffix is a substring. */
  lemma SuffixContained(s: string, i: nat)
    requires i <= |s|
    ensures Contains(s, s[i..])
  {
    assert OccursAt(s, s[i..], i);
    ContainsIff(s, s[i..]);
  }

  /** Each joined part is a substring of the join. */
  lemma {:induction false} JoinContainsParts(parts: seq<string>, sep: string, i: nat)
    requires i < |parts|
    ensures Contains(Join(parts, sep), parts[i])
    decreases |parts|
  {
    if |parts| == 1 {
      assert OccursAt(parts[0], parts[0], 0);
      ContainsIff(parts[0], parts[0]);
    } else {
      var tail := Join(parts[1..], sep);
      if i == 0 {
        assert Join(parts, sep)[..|parts[0]|] == parts[0];
        assert OccursAt(Join(parts, sep), parts[0], 0);
      } else {
        JoinContainsParts(parts[1..], sep, i - 1);
        ContainsIff(tail, parts[i]);
        var j: nat :| OccursAt(tail, parts[i], j);
        OccursInContext(parts[0] + sep, tail, "", parts[i], j);
        assert parts[0] + sep + tail + "" == Join(parts, sep);
      }
      ContainsIff(Join(parts, sep), parts[i]);
    }
  }

  /** Each split piece is a substring of the text. */
  lemma SplitPiecesContained(s: string, sep: string, i: nat)
    requires |sep| > 0 && i < |Split(s, sep)|
    ensures Contains(s, Split(s, sep)[i])
  {
    JoinSplit(s, sep);
    JoinContainsParts(Split(s, sep), sep, i);
  }
}
