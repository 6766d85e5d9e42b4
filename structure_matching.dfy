/** Fingerprint bit predicates and exact matching (src/search/structure_matching.rs). */
module StructureMatching {
  import opened Chem

  /** bitvec `a.to_bitvec() & b`: the result keeps the length of `a`, and bits of `a`
      beyond the end of `b` are cleared. */
  function AndBits(a: Bits, b: Bits): (r: Bits)
    ensures |r| == |a|
    ensures forall i :: 0 <= i < |a| ==> r[i] == (a[i] && i < |b| && b[i])
  {
    seq(|a|, i requires 0 <= i < |a| => a[i] && i < |b| && b[i])
  }

  /** Every set bit of `a` is set in `b`. */
  predicate IsBitSubset(a: Bits, b: Bits)
  {
    forall i :: 0 <= i < |a| && a[i] ==> i < |b| && b[i]
  }

  /** `substructure_match_fp(a, b)`: AND-ing `a` with `b` gives back `a`. */
  function SubstructureMatchFp(substructureFp: Bits, superstructureFp: Bits): (r: bool)
    ensures r <==> IsBitSubset(substructureFp, superstructureFp)
  {
    var andMatch := AndBits(substructureFp, superstructureFp);
    assert IsBitSubset(substructureFp, superstructureFp) ==> andMatch == substructureFp;
    andMatch == substructureFp
  }

  lemma SubstructureMatchFpReflexive(a: Bits)
    ensures SubstructureMatchFp(a, a)
  {
  }

  lemma SubstructureMatchFpTransitive(a: Bits, b: Bits, c: Bits)
    requires SubstructureMatchFp(a, b) && SubstructureMatchFp(b, c)
    ensures SubstructureMatchFp(a, c)
  {
    assert forall i :: 0 <= i < |a| && a[i] ==> i < |b| && b[i];
  }

  /** A fingerprint with no bit set is contained in every fingerprint. */
  lemma SubstructureMatchFpAllZero(a: Bits, b: Bits)
    requires forall i :: 0 <= i < |a| ==> !a[i]
    ensures SubstructureMatchFp(a, b)
  {
  }

  /** The subset test is not symmetric: a proper subset matches one way only. */
  lemma SubstructureMatchFpNotSymmetric()
    ensures SubstructureMatchFp([true, false], [true, true])
    ensures !SubstructureMatchFp([true, true], [true, false])
  {
    assert !IsBitSubset([true, true], [true, false]) by {
      assert [true, true][1] && ![true, false][1];
    }
  }

  /** `exact_match_fp`: the two pattern fingerprints are equal bit for bit. */
  function ExactMatchFp(fingerprint: FingerprintOracle, m1: Mol, m2: Mol): (r: bool)
    ensures r ==> SubstructureMatchFp(fingerprint(m1), fingerprint(m2))
    ensures r ==> SubstructureMatchFp(fingerprint(m2), fingerprint(m1))
  {
    fingerprint(m1) == fingerprint(m2)
  }

  lemma ExactMatchFpSymmetric(fingerprint: FingerprintOracle, m1: Mol, m2: Mol)
    ensures ExactMatchFp(fingerprint, m1, m2) == ExactMatchFp(fingerprint, m2, m1)
  {
  }

  /** Conversely, subset both ways between fingerprints of one length is equality. */
  lemma {:induction false} MutualSubsetIsExact(fingerprint: FingerprintOracle, m1: Mol, m2: Mol)
    requires |fingerprint(m1)| == |fingerprint(m2)|
    requires SubstructureMatchFp(fingerprint(m1), fingerprint(m2))
    requires SubstructureMatchFp(fingerprint(m2), fingerprint(m1))
    ensures ExactMatchFp(fingerprint, m1, m2)
  {
    var a, b := fingerprint(m1), fingerprint(m2);
    forall i | 0 <= i < |a| ensures a[i] == b[i] {
      if a[i] { assert b[i]; }
      if b[i] { assert a[i]; }
    }
  }

  /** `exact_match`: each molecule is found in the other under the same chirality rule. */
  function ExactMatch(substructMatch: SubstructOracle, m1: Mol, m2: Mol, useChirality: bool): (r: bool)
    ensures r <==> substructMatch(m1, m2, useChirality) && substructMatch(m2, m1, useChirality)
  {
    !(!substructMatch(m1, m2, useChirality) || !substructMatch(m2, m1, useChirality))
  }

  lemma ExactMatchSymmetric(substructMatch: SubstructOracle, m1: Mol, m2: Mol, useChirality: bool)
    ensures ExactMatch(substructMatch, m1, m2, useChirality) == ExactMatch(substructMatch, m2, m1, useChirality)
  {
  }

  /** The fingerprint test is a sound prefilter for the exact match: when a substructure
      match between the two molecules implies fingerprint containment, as pattern
      fingerprints are built to, and the fingerprints have one length, an exact match
      has equal fingerprints. */
  lemma ExactMatchPassesFpScreen(substructMatch: SubstructOracle, fingerprint: FingerprintOracle,
                                 m1: Mol, m2: Mol, useChirality: bool)
    requires substructMatch(m1, m2, useChirality) ==> SubstructureMatchFp(fingerprint(m1), fingerprint(m2))
    requires substructMatch(m2, m1, useChirality) ==> SubstructureMatchFp(fingerprint(m2), fingerprint(m1))
    requires |fingerprint(m1)| == |fingerprint(m2)|
    ensures ExactMatch(substructMatch, m1, m2, useChirality) ==> ExactMatchFp(fingerprint, m1, m2)
  {
    if ExactMatch(substructMatch, m1, m2, useChirality) {
      MutualSubsetIsExact(fingerprint, m1, m2);
    }
  }

  /** The converse fails: equal fingerprints do not make an exact match, so the
      fingerprint test alone cannot decide identity. */
  lemma ExactFpDoesNotDecide()
    ensures var never := (a: Mol, b: Mol, c: bool) => false;
      var empty := (m: Mol) => [];
      ExactMatchFp(empty, Mol("C"), Mol("C")) && !ExactMatch(never, Mol("C"), Mol("C"), false)
  {
  }
}

/** The older copies of the matching predicates (src/analysis/structure_matching.rs). */
module AnalysisStructureMatching {
  import opened Chem
  import StructureMatching

  /** The older `substructure_match_fp`: the same AND-equals-left test as the current one. */
  function SubstructureMatchFp(substructureFp: Bits, superstructureFp: Bits): (r: bool)
    ensures r == StructureMatching.SubstructureMatchFp(substructureFp, superstructureFp)
    ensures r <==> StructureMatching.IsBitSubset(substructureFp, superstructureFp)
  {
    StructureMatching.AndBits(substructureFp, superstructureFp) == substructureFp
  }

  /** The older `exact_match_fp`: fingerprint equality. */
  function ExactMatchFp(fingerprint: FingerprintOracle, m1: Mol, m2: Mol): (r: bool)
    ensures r == StructureMatching.ExactMatchFp(fingerprint, m1, m2)
  {
    fingerprint(m1) == fingerprint(m2)
  }

  /** The older `exact_match`: the boolean AND of both substructure directions. Its
      oracle takes no chirality flag, and it answers as the current `exact_match` with
      chirality off over the same test. */
  function ExactMatch(substructMatch: LegacySubstructOracle, m1: Mol, m2: Mol): (r: bool)
    ensures r <==> substructMatch(m1, m2) && substructMatch(m2, m1)
    ensures r == StructureMatching.ExactMatch((a, b, useChirality) => substructMatch(a, b), m1, m2, false)
  {
    substructMatch(m1, m2) && substructMatch(m2, m1)
  }

  lemma ExactMatchSymmetric(substructMatch: LegacySubstructOracle, m1: Mol, m2: Mol)
    ensures ExactMatch(substructMatch, m1, m2) == ExactMatch(substructMatch, m2, m1)
  {
  }
}

/** The matching helpers in src/cpd_methods/structure_search.rs. */
module CpdMethodsStructureSearch {
  import opened Chem
  import StructureMatching

  /** `exact_match_fp` here computes `(fp1 & fp2) == fp1`, which is the bit-subset test,
      not equality. */
  function ExactMatchFp(fingerprint: FingerprintOracle, m1: Mol, m2: Mol): (r: bool)
    ensures r <==> StructureMatching.IsBitSubset(fingerprint(m1), fingerprint(m2))
  {
    var fp1 := fingerprint(m1);
    var fp2 := fingerprint(m2);
    assert StructureMatching.SubstructureMatchFp(fp1, fp2) <==> StructureMatching.AndBits(fp1, fp2) == fp1;
    StructureMatching.AndBits(fp1, fp2) == fp1
  }

  lemma ExactMatchFpReflexive(fingerprint: FingerprintOracle, m: Mol)
    ensures ExactMatchFp(fingerprint, m, m)
  {
  }

  /** Despite its name it is not symmetric: with fingerprints 10 and 11 it holds one way only. */
  lemma ExactMatchFpNotSymmetric()
    ensures var fp := (m: Mol) => if m.smiles == "C" then [true, false] else [true, true];
      ExactMatchFp(fp, Mol("C"), Mol("CC")) && !ExactMatchFp(fp, Mol("CC"), Mol("C"))
  {
    var fp := (m: Mol) => if m.smiles == "C" then [true, false] else [true, true];
    assert "CC" != "C";
    StructureMatching.SubstructureMatchFpNotSymmetric();
  }

  /** `exact_match`: both directions of the older boolean substructure test; it answers
      as the current `exact_match` with chirality off over the same test. */
  function ExactMatch(substructMatch: LegacySubstructOracle, m1: Mol, m2: Mol): (r: bool)
    ensures r <==> substructMatch(m1, m2) && substructMatch(m2, m1)
    ensures r == StructureMatching.ExactMatch((a, b, useChirality) => substructMatch(a, b), m1, m2, false)
  {
    substructMatch(m1, m2) && substructMatch(m2, m1)
  }

  lemma ExactMatchSymmetric(substructMatch: LegacySubstructOracle, m1: Mol, m2: Mol)
    ensures ExactMatch(substructMatch, m1, m2) == ExactMatch(substructMatch, m2, m1)
  {
  }
}
