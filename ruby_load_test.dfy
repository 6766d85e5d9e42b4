/** The Ruby load-test client (examples/clients/ruby-load-test/main.rb): it asks for the
    index `meepity-beepity` with the `descriptor_v1` schema sorted by `exactmw`, ignoring
    any failure, then sends every structure of its input file five times, pass after
    pass, in one bulk request to that index. The script names the structure `smile`; the
    server's bulk-request document wants `smiles` (src/rest_api/api/response_types.rs), so
    the client as written is `DocForAsWritten` and the rest of the model uses the corrected
    `DocFor`. */
module RubyLoadTest {
  import opened Wrappers
  import opened Text

  const INDEX_NAME := "meepity-beepity"
  const SCHEMA_NAME := "descriptor_v1"
  const SORT_BY := "exactmw"
  const PASSES: nat := 5

  datatype ExtraData = ExtraData(smileAgain: string, notice: string)

  /** The key the server's bulk-request document requires for its structure. */
  const STRUCTURE_KEY := "smiles"

  /** One document of the bulk request: its structure, under the key `structureKey`. */
  datatype BulkDoc = BulkDoc(structureKey: string, structure: string, extraData: ExtraData)

  /** The server can read the document's structure. */
  predicate Accepted(doc: BulkDoc)
  {
    doc.structureKey == STRUCTURE_KEY
  }

  /** The requests the client sends, in order. */
  datatype Request =
    | CreateIndex(index: string, schema: string, sortBy: string)
    | BulkIndex(index: string, docs: seq<BulkDoc>)

  /** Ruby `split` drops the empty fields at the end. */
  function DropTrailingEmpty(fields: seq<string>): (r: seq<string>)
    ensures r <= fields
    ensures |r| > 0 ==> r[|r| - 1] != ""
    ensures forall k :: |r| <= k < |fields| ==> fields[k] == ""
    decreases |fields|
  {
    if |fields| == 0 then []
    else if fields[|fields| - 1] == "" then DropTrailingEmpty(fields[..|fields| - 1])
    else fields
  }

  /** Ruby `String#split("\n")`: the newline-separated fields without the empty ones at
      the end. */
  function SplitLines(text: string): seq<string>
  {
    DropTrailingEmpty(Split(text, "\n"))
  }

  /** The lines hold no newline and the last is not empty; they are the newline-separated
      fields of the text, and only empty fields at the end are dropped. */
  lemma SplitLinesSpec(text: string)
    ensures var lines := SplitLines(text);
      var fields := Split(text, "\n");
      lines <= fields && Join(fields, "\n") == text &&
      (forall k :: |lines| <= k < |fields| ==> fields[k] == "") &&
      (|lines| > 0 ==> lines[|lines| - 1] != "") &&
      forall k :: 0 <= k < |lines| ==> !Contains(lines[k], "\n")
  {
    var lines := SplitLines(text);
    var fields := Split(text, "\n");
    JoinSplit(text, "\n");
    SplitPiecesAvoidSeparator(text, "\n");
    forall k | 0 <= k < |lines|
      ensures !Contains(lines[k], "\n")
    {
      assert lines[k] == fields[k];
    }
  }

  /** The notice of pass `pass`, counting from 1. */
  function Notice(pass: nat): string
  {
    "we're on pass " + NatToString(pass)
  }

  /** Each pass carries its own notice. */
  lemma NoticesDistinct(p: nat, q: nat)
    requires Notice(p) == Notice(q)
    ensures p == q
  {
    var prefix := "we're on pass ";
    assert NatToString(p) == Notice(p)[|prefix|..];
    assert NatToString(q) == Notice(q)[|prefix|..];
    NatToStringInjective(p, q);
  }

  /** The document as the script writes it, under the key `smile`. */
  function DocForAsWritten(structure: string, pass: nat): BulkDoc
  {
    BulkDoc("smile", structure, ExtraData(structure, Notice(pass)))
  }

  /** The document with the key the server requires. */
  function DocFor(structure: string, pass: nat): BulkDoc
  {
    BulkDoc(STRUCTURE_KEY, structure, ExtraData(structure, Notice(pass)))
  }

  /** As written, no document the script builds is one the server can read: the key
      differs from `smiles`. The corrected document differs only in its key. */
  lemma SmileKeyRefused(structure: string, pass: nat)
    ensures !Accepted(DocForAsWritten(structure, pass))
    ensures Accepted(DocFor(structure, pass))
    ensures DocFor(structure, pass) == DocForAsWritten(structure, pass).(structureKey := STRUCTURE_KEY)
  {
    assert |DocForAsWritten(structure, pass).structureKey| == 5;
  }

  /** The documents of one pass, in line order. */
  function PassDocs(structures: seq<string>, pass: nat): (r: seq<BulkDoc>)
    ensures |r| == |structures|
    ensures forall i :: 0 <= i < |structures| ==> r[i] == DocFor(structures[i], pass)
    decreases |structures|
  {
    if |structures| == 0 then []
    else PassDocs(structures[..|structures| - 1], pass) + [DocFor(structures[|structures| - 1], pass)]
  }

  /** The documents of passes 1 to `passes`, pass after pass. */
  function Docs(structures: seq<string>, passes: nat): seq<BulkDoc>
  {
    if passes == 0 then [] else Docs(structures, passes - 1) + PassDocs(structures, passes)
  }

  /** `passes` times as many documents as structures. */
  lemma {:induction false} DocsLength(structures: seq<string>, passes: nat)
    ensures |Docs(structures, passes)| == passes * |structures|
    decreases passes
  {
    if passes > 0 {
      DocsLength(structures, passes - 1);
      assert passes * |structures| == (passes - 1) * |structures| + |structures|;
    }
  }

  /** The document at `k * n + i` carries structure `i` and the notice of pass `k + 1`. */
  lemma {:induction false} DocsAt(structures: seq<string>, passes: nat, k: nat, i: nat)
    requires k < passes && i < |structures|
    ensures k * |structures| + i < |Docs(structures, passes)|
    ensures Docs(structures, passes)[k * |structures| + i] == DocFor(structures[i], k + 1)
    decreases passes
  {
    var n := |structures|;
    DocsLength(structures, passes - 1);
    var before := Docs(structures, passes - 1);
    var current := PassDocs(structures, passes);
    assert Docs(structures, passes) == before + current;
    assert |before| == (passes - 1) * n;
    var pos := k * n + i;
    BeforeNextRow(k, i, n, passes);
    if k < passes - 1 {
      DocsAt(structures, passes - 1, k, i);
      assert pos < |before|;
    } else {
      assert k * n == |before|;
      assert (before + current)[pos] == current[i];
    }
  }

  /** Row `k` of an `n`-wide layout ends before row `k + 1` starts. */
  lemma BeforeNextRow(k: nat, i: nat, n: nat, rows: nat)
    requires k < rows && i < n
    ensures k * n + i < (k + 1) * n <= rows * n
    ensures k == rows - 1 ==> k * n == (rows - 1) * n
  {
    assert (k + 1) * n == k * n + n;
    MonotoneProduct(k + 1, rows, n);
  }

  lemma MonotoneProduct(a: nat, b: nat, n: nat)
    requires a <= b
    ensures a * n <= b * n
  {
    assert b * n == a * n + (b - a) * n;
  }

  /** The nested loops: a pass-major walk appending one document per line, with the
      corrected key. */
  method BuildDocs(structures: seq<string>) returns (docs: seq<BulkDoc>)
    ensures docs == Docs(structures, PASSES)
  {
    docs := [];
    for pass := 1 to PASSES + 1
      invariant docs == Docs(structures, pass - 1)
    {
      docs := AppendPass(docs, structures, pass);
    }
  }

  /** The inner loop: one document per line, under the corrected key, with the notice of
      `pass`. */
  method AppendPass(start: seq<BulkDoc>, structures: seq<string>, pass: nat) returns (docs: seq<BulkDoc>)
    ensures docs == start + PassDocs(structures, pass)
  {
    docs := start;
    for j := 0 to |structures|
      invariant docs == start + PassDocs(structures[..j], pass)
    {
      assert structures[..j + 1][..j] == structures[..j];
      docs := docs + [DocFor(structures[j], pass)];
    }
    assert structures[..|structures|] == structures;
  }

  /** Every document of every pass can be read by the server. */
  lemma {:induction false} DocsAccepted(structures: seq<string>, passes: nat)
    ensures forall d :: d in Docs(structures, passes) ==> Accepted(d)
    decreases passes
  {
    if passes > 0 {
      DocsAccepted(structures, passes - 1);
      var current := PassDocs(structures, passes);
      assert forall d :: d in current ==> Accepted(d);
    }
  }

  /** The requests sent for a file's text, with the corrected key. */
  function Requests(fileText: string): seq<Request>
  {
    [CreateIndex(INDEX_NAME, SCHEMA_NAME, SORT_BY), BulkIndex(INDEX_NAME, Docs(SplitLines(fileText), PASSES))]
  }

  /** Both requests name the same index; the bulk request holds five documents per line,
      each line's in every pass with that pass's notice, under the corrected key. */
  lemma RequestsSpec(fileText: string)
    ensures var requests := Requests(fileText);
      var lines := SplitLines(fileText);
      |requests| == 2 && requests[0].index == requests[1].index == INDEX_NAME &&
      requests[1].BulkIndex? && |requests[1].docs| == 5 * |lines| &&
      forall k, i :: 0 <= k < 5 && 0 <= i < |lines| ==>
        k * |lines| + i < |requests[1].docs| &&
        requests[1].docs[k * |lines| + i] == BulkDoc(STRUCTURE_KEY, lines[i], ExtraData(lines[i], Notice(k + 1)))
  {
    var lines := SplitLines(fileText);
    DocsLength(lines, PASSES);
    forall k, i | 0 <= k < 5 && 0 <= i < |lines|
      ensures k * |lines| + i < |Docs(lines, PASSES)| &&
        Docs(lines, PASSES)[k * |lines| + i] == BulkDoc(STRUCTURE_KEY, lines[i], ExtraData(lines[i], Notice(k + 1)))
    {
      DocsAt(lines, PASSES, k, i);
    }
  }

  /** The client, with the corrected key. Whatever the index creation answers, success
      or error, the bulk request is sent. */
  method LoadTest(fileText: string, createAnswer: Result<string>) returns (requests: seq<Request>)
    ensures requests == Requests(fileText)
  {
    requests := [CreateIndex(INDEX_NAME, SCHEMA_NAME, SORT_BY)];
    var structures := SplitLines(fileText);
    var docs := BuildDocs(structures);
    requests := requests + [BulkIndex(INDEX_NAME, docs)];
  }
}
