/** SMILES clean-ups and atom-charge rules (src/search/compound_processing.rs). Parsing,
    problem detection and derived atom properties belong to RDKit and are passed in. */
module SearchCompoundProcessing {
  import opened Wrappers
  import opened Text
  import opened Chem

  // ---------------------------------------------------------------- hypervalent silicon

  const HYPERVALENT_SI: string := "[Si-"

  /** The fragment as `remove_hypervalent_silicon` keeps it: dropped (empty) when it holds
      a hypervalent silicon. */
  function KeepFragment(fragment: string): string
  {
    if Contains(fragment, HYPERVALENT_SI) then "" else fragment
  }

  function KeepFragments(fragments: seq<string>): (r: seq<string>)
    ensures |r| == |fragments|
    ensures forall i :: 0 <= i < |fragments| ==> r[i] == KeepFragment(fragments[i])
  {
    seq(|fragments|, i requires 0 <= i < |fragments| => KeepFragment(fragments[i]))
  }

  /** Triggered only when the text has both a hypervalent silicon and a fragment separator. */
  predicate SiliconTriggered(smi: string)
  {
    Contains(smi, HYPERVALENT_SI) && Contains(smi, ".")
  }

  /** `remove_hypervalent_silicon`: drop every `.`-fragment holding `[Si-` and join the
      rest with no separator. */
  function RemoveHypervalentSilicon(smi: string): string
  {
    if SiliconTriggered(smi) then Join(KeepFragments(Split(smi, ".")), "") else smi
  }

  /** Untriggered text is returned unchanged; triggered text becomes the concatenation of
      the fragments without `[Si-`, in order. */
  lemma RemoveHypervalentSiliconSpec(smi: string)
    ensures !SiliconTriggered(smi) ==> RemoveHypervalentSilicon(smi) == smi
    ensures SiliconTriggered(smi) ==> RemoveHypervalentSilicon(smi) == Concat(KeepFragments(Split(smi, ".")))
  {
    JoinEmptySeparator(KeepFragments(Split(smi, ".")));
  }

  /** The output is never longer than the input. */
  lemma RemoveHypervalentSiliconShortens(smi: string)
    ensures |RemoveHypervalentSilicon(smi)| <= |smi|
  {
    if SiliconTriggered(smi) {
      var parts := Split(smi, ".");
      JoinEmptySeparator(KeepFragments(parts));
      ConcatShorterThanJoin(KeepFragments(parts), parts, ".");
      JoinSplit(smi, ".");
    }
  }

  /** A changed output has no `.` left. */
  lemma {:induction false} RemoveHypervalentSiliconNoDot(smi: string)
    requires SiliconTriggered(smi)
    ensures !Contains(RemoveHypervalentSilicon(smi), ".")
  {
    var parts := Split(smi, ".");
    var kept := KeepFragments(parts);
    SplitPiecesAvoidSeparator(smi, ".");
    forall i | 0 <= i < |kept|
      ensures !HasChar(kept[i], '.')
    {
      ContainsChar(parts[i], '.');
      if Contains(parts[i], HYPERVALENT_SI) {
        assert kept[i] == "";
      } else {
        assert kept[i] == parts[i];
      }
    }
    ConcatAvoidsChar(kept, '.');
    JoinEmptySeparator(kept);
    ContainsChar(Concat(kept), '.');
  }

  /** Applying the clean-up twice is applying it once. */
  lemma RemoveHypervalentSiliconIdempotent(smi: string)
    ensures RemoveHypervalentSilicon(RemoveHypervalentSilicon(smi)) == RemoveHypervalentSilicon(smi)
  {
    if SiliconTriggered(smi) {
      RemoveHypervalentSiliconNoDot(smi);
    }
  }

  // ---------------------------------------------------------------- organic brackets

  /** The organic-subset elements the bracket rewrite accepts. */
  const ORGANIC_SUBSET: set<string> := {"B", "C", "N", "O", "P", "S", "F", "Cl", "Br", "I"}

  /** The element `X` when `s` starts with a bracket atom `[X]` of the organic subset. */
  function OrganicBracketAt(s: string): (r: Option<string>)
    ensures r.Some? ==> (r.value in ORGANIC_SUBSET && |s| >= |r.value| + 2 &&
                         s[..|r.value| + 2] == "[" + r.value + "]")
  {
    if |s| >= 3 && s[0] == '[' && s[1] in "BCNOPSFI" && s[2] == ']' then
      assert s[1..2] == [s[1]];
      Some(s[1..2])
    else if |s| >= 4 && s[0] == '[' && ((s[1] == 'C' && s[2] == 'l') || (s[1] == 'B' && s[2] == 'r')) && s[3] == ']' then
      assert s[1..3] == [s[1], s[2]];
      Some(s[1..3])
    else None
  }

  /** `BRACKETS_RE.replace_all(smi, "$e")`: scanning left to right, each organic bracket
      atom `[X]` is replaced by `X`; everything else is copied. */
  function RemoveOrganicBrackets(smi: string): string
    decreases |smi|
  {
    if |smi| == 0 then ""
    else
      match OrganicBracketAt(smi)
      case Some(e) => e + RemoveOrganicBrackets(smi[|e| + 2..])
      case None => [smi[0]] + RemoveOrganicBrackets(smi[1..])
  }

  /** The number of bracket atoms the rewrite replaces. */
  function BracketCount(smi: string): nat
    decreases |smi|
  {
    if |smi| == 0 then 0
    else
      match OrganicBracketAt(smi)
      case Some(e) => 1 + BracketCount(smi[|e| + 2..])
      case None => BracketCount(smi[1..])
  }

  /** Each rewrite removes exactly its two brackets. */
  lemma {:induction false} RemoveOrganicBracketsLength(smi: string)
    ensures |RemoveOrganicBrackets(smi)| + 2 * BracketCount(smi) == |smi|
    decreases |smi|
  {
    if |smi| > 0 {
      match OrganicBracketAt(smi)
      case Some(e) => RemoveOrganicBracketsLength(smi[|e| + 2..]);
      case None => RemoveOrganicBracketsLength(smi[1..]);
    }
  }

  /** Text without `[` is copied unchanged in front of whatever follows. */
  lemma {:induction false} RemoveOrganicBracketsPlain(plain: string, rest: string)
    requires !HasChar(plain, '[')
    ensures RemoveOrganicBrackets(plain + rest) == plain + RemoveOrganicBrackets(rest)
    decreases |plain|
  {
    if |plain| > 0 {
      assert plain[0] != '[';
      assert (plain + rest)[1..] == plain[1..] + rest;
      assert !HasChar(plain[1..], '[') by {
        forall i | 0 <= i < |plain[1..]| ensures plain[1..][i] != '[' {
          assert plain[1..][i] == plain[i + 1];
        }
      }
      RemoveOrganicBracketsPlain(plain[1..], rest);
    } else {
      assert plain + rest == rest;
    }
  }

  /** An organic bracket atom at the front becomes its bare element. */
  lemma RemoveOrganicBracketsAtom(e: string, rest: string)
    requires e in ORGANIC_SUBSET
    ensures RemoveOrganicBrackets("[" + e + "]" + rest) == e + RemoveOrganicBrackets(rest)
  {
    var s := "[" + e + "]" + rest;
    assert s[1..|e| + 1] == e;
    assert s[|e| + 2..] == rest;
    if |e| == 1 {
      assert s[1..2] == e && s[2] == ']';
    } else {
      assert s[1..3] == e && s[3] == ']';
      assert s[2] != ']' by { assert s[2] == e[1]; }
    }
  }

  /** A bracket atom outside the organic subset, such as `[Na]`, is left alone. */
  lemma RemoveOrganicBracketsKeepsSodium(rest: string)
    ensures RemoveOrganicBrackets("[Na]" + rest) == "[Na]" + RemoveOrganicBrackets(rest)
  {
    var s := "[Na]" + rest;
    assert s[2] == 'a';
    assert s[1..3] == "Na";
    assert OrganicBracketAt(s) == None;
    assert s[1..] == "Na]" + rest;
    RemoveOrganicBracketsPlain("Na]", rest);
  }

  /** Plain text, then an organic bracket atom: the text is copied and the atom unwrapped. */
  lemma RemoveOrganicBracketsStep(plain: string, e: string, rest: string)
    requires !HasChar(plain, '[') && e in ORGANIC_SUBSET
    ensures RemoveOrganicBrackets(plain + "[" + e + "]" + rest) == plain + e + RemoveOrganicBrackets(rest)
  {
    assert plain + "[" + e + "]" + rest == plain + ("[" + e + "]" + rest);
    RemoveOrganicBracketsPlain(plain, "[" + e + "]" + rest);
    RemoveOrganicBracketsAtom(e, rest);
  }

  /** `CCCC([F])([Br])([Na])` becomes `CCCC(F)(Br)([Na])`. */
  lemma RemoveOrganicBracketsExample(smi: string)
    requires smi == "CCCC([F])([Br])([Na])"
    ensures RemoveOrganicBrackets(smi) == "CCCC(F)(Br)([Na])"
  {
    var tail: string := ")([Na])";
    var middle: string := ")(" + "[" + "Br" + "]" + tail;
    ExampleParts(smi, tail, middle);
    RemoveOrganicBracketsStep("CCCC(", "F", middle);
    RemoveOrganicBracketsStep(")(", "Br", tail);
    ExampleTail(tail);
    ExampleJoin("CCCC(" + "F", ")(" + "Br", tail);
  }

  lemma ExampleParts(smi: string, tail: string, middle: string)
    requires smi == "CCCC([F])([Br])([Na])" && tail == ")([Na])" && middle == ")(" + "[" + "Br" + "]" + tail
    ensures smi == "CCCC(" + "[" + "F" + "]" + middle
  {
  }

  lemma ExampleJoin(a: string, b: string, tail: string)
    requires a == "CCCC(" + "F" && b == ")(" + "Br" && tail == ")([Na])"
    ensures a + (b + tail) == "CCCC(F)(Br)([Na])"
  {
  }

  lemma ExampleTail(tail: string)
    requires tail == ")([Na])"
    ensures RemoveOrganicBrackets(tail) == tail
  {
    assert tail == ")(" + ("[Na]" + ")");
    RemoveOrganicBracketsPlain(")(", "[Na]" + ")");
    RemoveOrganicBracketsKeepsSodium(")");
    RemoveOrganicBracketsPlainSuffix(")");
  }

  lemma RemoveOrganicBracketsPlainSuffix(plain: string)
    requires !HasChar(plain, '[')
    ensures RemoveOrganicBrackets(plain) == plain
  {
    RemoveOrganicBracketsPlain(plain, "");
    assert plain + "" == plain;
  }

  // ---------------------------------------------------------------- atom charge rules

  datatype Hybridization = SP | SP2 | SP3 | OtherHybridization

  /** The atom properties the charge rules read and write. `totalNumHs` and
      `totalValence` are RDKit's derived values, read as they stand. */
  datatype Atom = Atom(symbol: string, isAromatic: bool, hybridization: Hybridization,
                       formalCharge: int, numExplicitHs: int, totalNumHs: int, totalValence: int)

  /** The expected valence of the atoms `add_formal_charge` handles. */
  function ExpectedValence(symbol: string): (r: Option<int>)
    ensures r.Some? <==> symbol in {"C", "N", "O"}
  {
    if symbol == "C" then Some(4) else if symbol == "N" then Some(3) else if symbol == "O" then Some(2) else None
  }

  /** The effect of `add_formal_charge` on one atom. */
  function FormalChargeRule(atom: Atom): Atom
  {
    match ExpectedValence(atom.symbol)
    case None => atom
    case Some(expected) =>
      if atom.totalValence - atom.formalCharge != expected then atom.(formalCharge := atom.totalValence - expected)
      else atom
  }

  /** Only C, N and O are touched, and for them the rule always ends with
      total valence − charge equal to the expected valence, changing nothing else. */
  lemma FormalChargeRuleSpec(atom: Atom)
    ensures atom.symbol !in {"C", "N", "O"} ==> FormalChargeRule(atom) == atom
    ensures atom.symbol in {"C", "N", "O"} ==>
      FormalChargeRule(atom) == atom.(formalCharge := atom.totalValence - ExpectedValence(atom.symbol).value) &&
      FormalChargeRule(atom).totalValence - FormalChargeRule(atom).formalCharge == ExpectedValence(atom.symbol).value
    ensures FormalChargeRule(FormalChargeRule(atom)) == FormalChargeRule(atom)
  {
  }

  /** `add_formal_charge(romol, atom_idx)`: the rule applied in place to one atom. */
  method AddFormalCharge(atoms: array<Atom>, atomIdx: nat)
    requires atomIdx < atoms.Length
    modifies atoms
    ensures atoms[..] == old(atoms[..])[atomIdx := FormalChargeRule(old(atoms[atomIdx]))]
  {
    var atom := atoms[atomIdx];
    var expected := ExpectedValence(atom.symbol);
    if expected.Some? {
      var totalVal := atom.totalValence;
      var formalChg := atom.formalCharge;
      if totalVal - formalChg != expected.value {
        atoms[atomIdx] := atom.(formalCharge := totalVal - expected.value);
      }
    }
  }

  /** `neutralize_atoms` skips aromatic atoms and negatively charged SP3 atoms. */
  predicate NeutralizeSkips(atom: Atom)
  {
    atom.isAromatic || (atom.hybridization == SP3 && atom.formalCharge < 0)
  }

  /** One matched atom as `neutralize_atoms` leaves it: neutral, with the explicit
      hydrogen count set to total hydrogens minus the old charge. */
  function NeutralizeRule(atom: Atom): Atom
  {
    if NeutralizeSkips(atom) then atom
    else atom.(formalCharge := 0, numExplicitHs := atom.totalNumHs - atom.formalCharge)
  }

  /** Two atoms agree on what the charge rules store: element, aromaticity, charge and
      explicit hydrogens. */
  predicate SameStored(a: Atom, b: Atom)
  {
    a.symbol == b.symbol && a.isAromatic == b.isAromatic &&
    a.formalCharge == b.formalCharge && a.numExplicitHs == b.numExplicitHs
  }

  /** RDKit's refresh after each update, `update_property_cache(true)` on the atom and
      `set_hybridization` on the molecule: it recomputes the derived values (total
      hydrogens, total valence, hybridization) of every atom and keeps what is stored. */
  ghost predicate RefreshKeeps(refresh: seq<Atom> -> seq<Atom>)
  {
    (forall atoms: seq<Atom> {:trigger refresh(atoms)} :: |refresh(atoms)| == |atoms|) &&
    (forall atoms: seq<Atom>, j {:trigger refresh(atoms)[j]} :: 0 <= j < |atoms| ==> SameStored(refresh(atoms)[j], atoms[j]))
  }

  /** One matched position: a skipped atom leaves the molecule as it is; otherwise the
      atom is neutralised and the whole molecule refreshed. */
  function NeutralizeStep(atoms: seq<Atom>, p: nat, refresh: seq<Atom> -> seq<Atom>): (r: seq<Atom>)
    requires p < |atoms| && RefreshKeeps(refresh)
    ensures |r| == |atoms|
  {
    if NeutralizeSkips(atoms[p]) then atoms
    else refresh(atoms[p := NeutralizeRule(atoms[p])])
  }

  /** The step applied at each matched position in turn; each step reads the atom as
      the earlier refreshes left it. */
  function NeutralizeAll(atoms: seq<Atom>, positions: seq<nat>, refresh: seq<Atom> -> seq<Atom>): (r: seq<Atom>)
    requires forall k :: 0 <= k < |positions| ==> positions[k] < |atoms|
    requires RefreshKeeps(refresh)
    ensures |r| == |atoms|
  {
    if |positions| == 0 then atoms
    else NeutralizeStep(NeutralizeAll(atoms, positions[..|positions| - 1], refresh), positions[|positions| - 1], refresh)
  }

  /** `neutralize_atoms` over the match positions of the charged-atom pattern. */
  method NeutralizeAtoms(atoms: array<Atom>, matchPositions: seq<nat>, refresh: seq<Atom> -> seq<Atom>)
    requires forall k :: 0 <= k < |matchPositions| ==> matchPositions[k] < atoms.Length
    requires RefreshKeeps(refresh)
    modifies atoms
    ensures atoms[..] == NeutralizeAll(old(atoms[..]), matchPositions, refresh)
  {
    ghost var original := atoms[..];
    var i := 0;
    while i < |matchPositions|
      invariant 0 <= i <= |matchPositions|
      invariant atoms[..] == NeutralizeAll(original, matchPositions[..i], refresh)
    {
      assert matchPositions[..i + 1][..i] == matchPositions[..i];
      var atomIdx := matchPositions[i];
      var atom := atoms[atomIdx];
      if atom.isAromatic {
        i := i + 1;
        continue;
      }
      var chg := atom.formalCharge;
      var hcount := atom.totalNumHs;
      if atom.hybridization == SP3 && chg < 0 {
        i := i + 1;
        continue;
      }
      atoms[atomIdx] := atom.(formalCharge := 0, numExplicitHs := hcount - chg);
      var refreshed := refresh(atoms[..]);
      forall k | 0 <= k < atoms.Length {
        atoms[k] := refreshed[k];
      }
      assert atoms[..] == refreshed;
      i := i + 1;
    }
    assert matchPositions[..|matchPositions|] == matchPositions;
  }

  /** Whatever the refreshes recompute: every atom keeps its element and aromaticity;
      atoms at unmatched positions and aromatic atoms keep their charge and explicit
      hydrogens; a matched non-aromatic atom that was not negative ends neutral; and
      every charge ends either as it was or at zero. */
  lemma {:induction false} NeutralizeAllSpec(atoms: seq<Atom>, positions: seq<nat>, refresh: seq<Atom> -> seq<Atom>)
    requires forall k :: 0 <= k < |positions| ==> positions[k] < |atoms|
    requires RefreshKeeps(refresh)
    ensures forall j :: 0 <= j < |atoms| ==>
      NeutralizeAll(atoms, positions, refresh)[j].symbol == atoms[j].symbol &&
      NeutralizeAll(atoms, positions, refresh)[j].isAromatic == atoms[j].isAromatic
    ensures forall j :: 0 <= j < |atoms| && j !in positions ==> SameStored(NeutralizeAll(atoms, positions, refresh)[j], atoms[j])
    ensures forall j :: 0 <= j < |atoms| && atoms[j].isAromatic ==> SameStored(NeutralizeAll(atoms, positions, refresh)[j], atoms[j])
    ensures forall j :: 0 <= j < |atoms| && j in positions && !atoms[j].isAromatic && atoms[j].formalCharge >= 0 ==>
      NeutralizeAll(atoms, positions, refresh)[j].formalCharge == 0
    ensures forall j :: 0 <= j < |atoms| ==>
      NeutralizeAll(atoms, positions, refresh)[j].formalCharge in {atoms[j].formalCharge, 0}
    decreases |positions|
  {
    if |positions| > 0 {
      var init := positions[..|positions| - 1];
      NeutralizeAllSpec(atoms, init, refresh);
      var before := NeutralizeAll(atoms, init, refresh);
      var p := positions[|positions| - 1];
      var r := NeutralizeAll(atoms, positions, refresh);
      assert r == NeutralizeStep(before, p, refresh);
      if !NeutralizeSkips(before[p]) {
        var mid := before[p := NeutralizeRule(before[p])];
        assert forall j :: 0 <= j < |atoms| ==> SameStored(r[j], mid[j]);
      }
      forall j | 0 <= j < |atoms| && j in positions && !atoms[j].isAromatic && atoms[j].formalCharge >= 0
        ensures r[j].formalCharge == 0
      {
        if j != p {
          assert j in init;
        }
      }
      forall j | 0 <= j < |atoms| && j !in positions
        ensures SameStored(r[j], atoms[j])
      {
        assert j !in init;
      }
    }
  }

  /** A refresh that gives every atom the hybridization `h`. */
  function SetHybridization(atoms: seq<Atom>, h: Hybridization): (r: seq<Atom>)
    ensures |r| == |atoms|
    ensures forall k :: 0 <= k < |atoms| ==> r[k] == atoms[k].(hybridization := h)
  {
    seq(|atoms|, k requires 0 <= k < |atoms| => atoms[k].(hybridization := h))
  }

  /** A negative non-aromatic atom is kept or neutralised according to the hybridization
      the refresh after an earlier atom gives it: after a cation is neutralised, an
      `[N-]` that the refresh makes SP3 keeps its charge, and one it makes SP2 ends
      neutral. */
  lemma NeutralizeReadsRefreshedHybridization(h: Hybridization)
    ensures var refresh := (s: seq<Atom>) => SetHybridization(s, h);
      var atoms := [Atom("C", false, SP3, 1, 0, 2, 3), Atom("N", false, SP2, -1, 0, 0, 2)];
      RefreshKeeps(refresh) &&
      NeutralizeAll(atoms, [0, 1], refresh)[1].formalCharge == if h == SP3 then -1 else 0
  {
    var refresh := (s: seq<Atom>) => SetHybridization(s, h);
    var atoms := [Atom("C", false, SP3, 1, 0, 2, 3), Atom("N", false, SP2, -1, 0, 0, 2)];
    var ps: seq<nat> := [0, 1];
    assert ps[..1] == [0] && ps[..1][..0] == [];
    var afterCarbon := NeutralizeAll(atoms, [0], refresh);
    assert afterCarbon == NeutralizeStep(atoms, 0, refresh);
    assert afterCarbon[1] == atoms[1].(hybridization := h);
    assert NeutralizeAll(atoms, ps, refresh) == NeutralizeStep(afterCarbon, 1, refresh);
  }

  // ---------------------------------------------------------------- fix_chemistry_problems

  /** The problems `detect_chemistry_problems` reports that the fixer acts on. */
  datatype Problem = AtomValence(atomIdx: nat) | Kekulize | OtherProblem

  /** The RDKit calls `fix_chemistry_problems` makes: parsing without and with
      sanitization, problem detection, the symbol of an atom, and `add_formal_charge`
      applied to a molecule; `atoms` is the molecule's atom table. */
  datatype FixOracles = FixOracles(
    parseUnsanitized: string -> Result<Mol>,
    parse: SmilesParser,
    detect: Mol -> seq<Problem>,
    symbolAt: (Mol, nat) -> string,
    addFormalCharge: (Mol, nat) -> Mol,
    atoms: Mol -> seq<Atom>)

  /** The atom calls agree with the atom table: `symbolAt` reads an atom's element, and
      `addFormalCharge` does to the table what `AddFormalCharge` does to its array. */
  ghost predicate AtomCallsAgree(o: FixOracles)
  {
    (forall m: Mol, idx: nat {:trigger o.symbolAt(m, idx)} ::
       idx < |o.atoms(m)| ==> o.symbolAt(m, idx) == o.atoms(m)[idx].symbol) &&
    (forall m: Mol, idx: nat {:trigger o.addFormalCharge(m, idx)} ::
       idx < |o.atoms(m)| ==> o.atoms(o.addFormalCharge(m, idx)) == o.atoms(m)[idx := FormalChargeRule(o.atoms(m)[idx])])
  }

  const C_MINUS: string := "[c-]"
  const CH_MINUS: string := "[cH-]"

  /** One problem's fix, on the pair (fixed SMILES, molecule). */
  function FixStep(problem: Problem, fixedSmi: string, mol: Mol, o: FixOracles): Result<(string, Mol)>
  {
    match problem
    case AtomValence(idx) =>
      var symbol := o.symbolAt(mol, idx);
      if symbol == "Si" then
        var newSmi := RemoveHypervalentSilicon(fixedSmi);
        match o.parseUnsanitized(newSmi)
        case Err(e) => Err(e)
        case Ok(m) => Ok((newSmi, m))
      else if symbol in {"C", "N", "O"} then
        var m := o.addFormalCharge(mol, idx);
        Ok((m.smiles, m))
      else Ok((fixedSmi, mol))
    case Kekulize =>
      if Contains(fixedSmi, C_MINUS) then
        var newSmi := ReplaceAll(fixedSmi, C_MINUS, CH_MINUS);
        match o.parseUnsanitized(newSmi)
        case Err(e) => Err(e)
        case Ok(m) => Ok((newSmi, m))
      else Ok((fixedSmi, mol))
    case OtherProblem => Ok((fixedSmi, mol))
  }

  /** The fixes applied in the order the problems were detected; an error stops them. */
  function FixAll(problems: seq<Problem>, fixedSmi: string, mol: Mol, o: FixOracles): Result<(string, Mol)>
    decreases |problems|
  {
    if |problems| == 0 then Ok((fixedSmi, mol))
    else
      match FixStep(problems[0], fixedSmi, mol, o)
      case Err(e) => Err(e)
      case Ok((s, m)) => FixAll(problems[1..], s, m, o)
  }

  /** The whole repair: parse, fix every detected problem, and accept the result only if
      detection then finds nothing, re-parsing with sanitization. */
  function FixChemistryProblemsSpec(smi: string, o: FixOracles): Result<Mol>
  {
    match o.parseUnsanitized(smi)
    case Err(e) => Err(e)
    case Ok(mol) =>
      match FixAll(o.detect(mol), smi, mol, o)
      case Err(e) => Err(e)
      case Ok((fixedSmi, fixedMol)) =>
        if |o.detect(fixedMol)| == 0 then o.parse(fixedSmi) else Err("Problems still exist after attempted molecule fix")
  }

  /** `fix_chemistry_problems`: the for-loop over the detected problems, updating the
      fixed SMILES and the molecule. */
  method FixChemistryProblems(smi: string, o: FixOracles) returns (r: Result<Mol>)
    ensures r == FixChemistryProblemsSpec(smi, o)
    ensures r.Ok? ==> o.parseUnsanitized(smi).Ok?
  {
    var fixedSmi := smi;
    var parsed := o.parseUnsanitized(fixedSmi);
    if parsed.Err? {
      return Err(parsed.error);
    }
    var romol := parsed.value;
    var problems := o.detect(romol);
    var i := 0;
    while i < |problems|
      invariant 0 <= i <= |problems|
      invariant FixAll(problems[i..], fixedSmi, romol, o) == FixAll(problems, smi, parsed.value, o)
    {
      var step := FixStep(problems[i], fixedSmi, romol, o);
      if step.Err? {
        return Err(step.error);
      }
      assert problems[i..][1..] == problems[i + 1..];
      fixedSmi, romol := step.value.0, step.value.1;
      i := i + 1;
    }
    var remaining := o.detect(romol);
    if |remaining| == 0 {
      r := o.parse(fixedSmi);
    } else {
      r := Err("Problems still exist after attempted molecule fix");
    }
  }

  /** A valence problem on a C, N or O atom is fixed by charging that atom: the fixed
      molecule's table differs from the old one only there, and the atom's total valence
      minus its charge is now the expected valence. */
  lemma ValenceFixChargesAtom(idx: nat, fixedSmi: string, mol: Mol, o: FixOracles)
    requires AtomCallsAgree(o)
    requires idx < |o.atoms(mol)| && o.atoms(mol)[idx].symbol in {"C", "N", "O"}
    ensures FixStep(AtomValence(idx), fixedSmi, mol, o).Ok?
    ensures var fixed := o.atoms(FixStep(AtomValence(idx), fixedSmi, mol, o).value.1);
      var atom := o.atoms(mol)[idx];
      fixed == o.atoms(mol)[idx := fixed[idx]] &&
      fixed[idx].totalValence - fixed[idx].formalCharge == ExpectedValence(atom.symbol).value
  {
    FormalChargeRuleSpec(o.atoms(mol)[idx]);
    assert o.symbolAt(mol, idx) == o.atoms(mol)[idx].symbol;
    assert o.atoms(o.addFormalCharge(mol, idx)) == o.atoms(mol)[idx := FormalChargeRule(o.atoms(mol)[idx])];
  }

  /** Two texts without `[c-]` around a `[cH-]` still have none: the replacement cannot
      create a new `[c-]` across its borders. */
  lemma NoCMinusAround(a: string, b: string)
    requires !Contains(a, C_MINUS) && !Contains(b, C_MINUS)
    ensures !Contains(a + CH_MINUS + b, C_MINUS)
  {
    var x := a + CH_MINUS + b;
    ContainsIff(a, C_MINUS);
    ContainsIff(b, C_MINUS);
    forall j: nat ensures !OccursAt(x, C_MINUS, j)
    {
      if j + 4 <= |x| {
        if j + 4 <= |a| {
          assert x[j..j + 4] == a[j..j + 4];
          assert !OccursAt(a, C_MINUS, j);
        } else if j < |a| {
          assert x[|a|] == '[';
          DiffersAt(x, j, |a| - j);
        } else if j == |a| {
          assert x[j + 2] == 'H';
          DiffersAt(x, j, 2);
        } else if j < |a| + 5 {
          assert x[j] == CH_MINUS[j - |a|];
          DiffersAt(x, j, 0);
        } else {
          var jb := j - |a| - 5;
          assert x[j..j + 4] == b[jb..jb + 4];
          assert !OccursAt(b, C_MINUS, jb);
        }
      }
    }
    ContainsIff(x, C_MINUS);
  }

  lemma DiffersAt(x: string, j: nat, k: nat)
    requires j + 4 <= |x| && k < 4 && x[j + k] != C_MINUS[k]
    ensures !OccursAt(x, C_MINUS, j)
  {
    assert x[j..j + 4][k] == x[j + k];
  }

  /** After the Kekulize fix no `[c-]` is left. */
  lemma {:induction false} KekulizeFixRemovesAll(s: string)
    ensures !Contains(ReplaceAll(s, C_MINUS, CH_MINUS), C_MINUS)
    decreases |s|
  {
    match IndexOf(s, C_MINUS)
    case None =>
    case Some(i) =>
      var rest := s[i + 4..];
      KekulizeFixRemovesAll(rest);
      IndexOfSpec(s, C_MINUS);
      var head := s[..i];
      forall j: nat ensures !OccursAt(head, C_MINUS, j) {
        if j + 4 <= |head| {
          assert head[j..j + 4] == s[j..j + 4];
          assert !OccursAt(s, C_MINUS, j);
        }
      }
      ContainsIff(head, C_MINUS);
      NoCMinusAround(head, ReplaceAll(rest, C_MINUS, CH_MINUS));
      assert ReplaceAll(s, C_MINUS, CH_MINUS) == head + CH_MINUS + ReplaceAll(rest, C_MINUS, CH_MINUS);
  }
}
