/** Fingerprint encoding for similarity search (src/search/similarity_search.rs): the
    stored bytes are expanded to one 0/1 value per bit, least-significant bit first, and
    handed to the encoder model, whose ranked cluster list is returned whole or cut to
    its head. */
module SimilarityEncoding {
  import opened Wrappers

  type Byte = b: int | 0 <= b < 256

  /** The low `n` bits of `b`, least-significant first, as 0/1 values. */
  function ExpandByte(b: nat, n: nat): (r: seq<nat>)
    ensures |r| == n
    ensures forall i :: 0 <= i < n ==> r[i] <= 1
  {
    if n == 0 then [] else [b % 2] + ExpandByte(b / 2, n - 1)
  }

  /** The number whose binary digits, least-significant first, are `bits`. */
  function PackByte(bits: seq<nat>): nat
  {
    if |bits| == 0 then 0 else bits[0] + 2 * PackByte(bits[1..])
  }

  function Pow2(n: nat): (r: nat)
    ensures r >= 1
  {
    if n == 0 then 1 else 2 * Pow2(n - 1)
  }

  lemma Pow2Eight()
    ensures Pow2(8) == 256
  {
  }

  /** Expanding then packing gives the byte back. */
  lemma {:induction false} PackExpandByte(b: nat, n: nat)
    requires b < Pow2(n)
    ensures PackByte(ExpandByte(b, n)) == b
    decreases n
  {
    if n > 0 {
      PackExpandByte(b / 2, n - 1);
      assert ExpandByte(b, n)[1..] == ExpandByte(b / 2, n - 1);
    }
  }

  /** The bit view `BitVec::<u8>::from_slice` iterates: 8 values per byte, in byte order. */
  function ExpandBits(bytes: seq<Byte>): (r: seq<nat>)
    ensures |r| == 8 * |bytes|
  {
    if |bytes| == 0 then [] else ExpandBits(bytes[..|bytes| - 1]) + ExpandByte(bytes[|bytes| - 1], 8)
  }

  /** Regroups the values eight at a time into bytes (a short tail is dropped). */
  function PackBits(bits: seq<nat>): seq<nat>
  {
    if |bits| < 8 then [] else PackBits(bits[..|bits| - 8]) + [PackByte(bits[|bits| - 8..])]
  }

  /** The expansion loses nothing: packing it gives the input bytes back, so bit `8i + j`
      is bit `j` of byte `i`. */
  lemma {:induction false} PackExpandBits(bytes: seq<Byte>)
    ensures PackBits(ExpandBits(bytes)) == bytes
    decreases |bytes|
  {
    if |bytes| > 0 {
      var init := bytes[..|bytes| - 1];
      var e := ExpandBits(bytes);
      PackExpandBits(init);
      assert e[..|e| - 8] == ExpandBits(init);
      assert e[|e| - 8..] == ExpandByte(bytes[|bytes| - 1], 8);
      Pow2Eight();
      PackExpandByte(bytes[|bytes| - 1], 8);
      assert bytes == init + [bytes[|bytes| - 1]];
    }
  }

  /** Each byte contributes its eight bits at positions `8i .. 8i + 8`. */
  lemma {:induction false} ExpandBitsSlice(bytes: seq<Byte>, i: nat)
    requires i < |bytes|
    ensures ExpandBits(bytes)[8 * i..8 * i + 8] == ExpandByte(bytes[i], 8)
    decreases |bytes|
  {
    var init := bytes[..|bytes| - 1];
    if i < |init| {
      ExpandBitsSlice(init, i);
      assert ExpandBits(bytes)[..8 * |init|] == ExpandBits(init);
    }
  }

  /** The encoder model's `transform`: ranked clusters, or an error. */
  type EncoderOracle = seq<nat> -> Result<seq<int>>

  /** `encode_fingerprint`: the ranked clusters, or only the best one. An empty ranking
      with `only_best_cluster` is an out-of-bounds panic, modelled as an error. */
  function EncodeFingerprint(fingerprint: seq<Byte>, onlyBestCluster: bool, encoder: EncoderOracle): (r: Result<seq<int>>)
    ensures encoder(ExpandBits(fingerprint)).Err? ==> r.Err?
    ensures encoder(ExpandBits(fingerprint)).Ok? && !onlyBestCluster ==> r == encoder(ExpandBits(fingerprint))
    ensures encoder(ExpandBits(fingerprint)).Ok? && onlyBestCluster ==>
      var ranked := encoder(ExpandBits(fingerprint)).value;
      (|ranked| > 0 ==> r == Ok([ranked[0]])) && (|ranked| == 0 ==> r.Err?)
  {
    var fpVec := ExpandBits(fingerprint);
    match encoder(fpVec)
    case Err(e) => Err(e)
    case Ok(ranked) =>
      if onlyBestCluster then
        if |ranked| > 0 then Ok([ranked[0]]) else Err("index out of bounds")
      else Ok(ranked)
  }
}
