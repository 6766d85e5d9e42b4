/** Shared vocabulary for the chemistry and search-index boundary. RDKit and Tantivy
    are not modelled: every call into them is a function passed in by the caller. */
module Chem {
  import opened Wrappers

  /** An RDKit molecule, known to the model by its canonical SMILES (`as_smiles`). */
  datatype Mol = Mol(smiles: string)

  /** A fingerprint, as its sequence of bits. */
  type Bits = seq<bool>

  /** A computed descriptor: the f64 value and its rendering by Rust's `{}`. */
  datatype DescriptorValue = DescriptorValue(value: real, display: string)

  /** A descriptor map (name to value), listed in the map's iteration order. */
  type Descriptors = seq<(string, DescriptorValue)>

  /** The address of a stored Tantivy document. */
  datatype DocAddress = DocAddress(segmentOrd: nat, docId: nat)

  /** RDKit `substruct_match(mol, query, params)` is non-empty, where the flag is the
      `use_chirality` parameter. */
  type SubstructOracle = (Mol, Mol, bool) -> bool

  /** The older RDKit binding: `substruct_match(mol, query)` as a boolean. */
  type LegacySubstructOracle = (Mol, Mol) -> bool

  /** RDKit `ROMol::from_smiles`: parsing can fail. */
  type SmilesParser = string -> Result<Mol>

  /** `get_cpd_properties`: the pattern fingerprint and computed descriptors of a molecule. */
  type PropertiesOracle = Mol -> (Bits, Descriptors)

  /** RDKit pattern fingerprint of a molecule. */
  type FingerprintOracle = Mol -> Bits
}
