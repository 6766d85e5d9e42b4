# Cheminée core, modelled in Dafny

Cheminée is a chemical-structure search engine. It turns molecules, written as SMILES
text, into documents of a Tantivy full-text index. Each document holds the molecule's
descriptors, its fingerprints and the ids of the scaffolds it contains. Searches run over
that index from the REST API and from the command line: identity, substructure,
superstructure and similarity.

This project models Cheminée's own logic in Dafny and proves what that logic promises.
The modelled code includes:

- the query texts each search builds;
- the fingerprint tests that filter candidates;
- the tautomer fall-back loops, which retry a search with the query's other tautomers when the first pass finds too few hits;
- the parameter defaults of the handlers and commands;
- the construction of index documents;
- the index manager's directory rules;
- the indexing and bulk-delete commands;
- the SMILES clean-ups;
- the Ruby load-test client.

RDKit (chemistry) and Tantivy (the index) are foreign libraries. Every call into them is a
function-valued parameter, an oracle, so each result holds whatever those libraries answer.
A molecule is `Chem.Mol`, identified by its canonical SMILES. A fingerprint is a `seq<bool>`.

Each loop of the source is a method. Each method is proved equal to a specification
function, and the lemmas beside that function state the promised properties.
Shared loop shapes are defined once, in `TautomerLoops`:

- the union pass of the command-line structure and superstructure searches;
- the capped merge of the REST structure search;
- the counted loop of the REST superstructure and command-line substructure searches;
- the appending loops of the older substructure searches.

The `superstructure-search` command (src/command_line/search/superstructure_search.rs)
repeats `cli_structure_search` line for line, with the superstructure search in place of
the structure search. `CliStructureSearch.Action` models both: its search oracle is
bound to the superstructure search, or to the structure search with method
"superstructure".

The Ruby load-test client (examples/clients/ruby-load-test/main.rb) builds every document
of all five passes and sends them in one bulk request. It puts each structure under the
key `smile`, while the server's bulk-request document requires `smiles`; the model keeps
the script's document beside a corrected one (see "## Findings").

## Model

| member | source | states |
|---|---|---|
| StructureMatching.AndBits | src/search/structure_matching.rs:22 | bitvec `&` keeps the length of the left operand and sets a bit only where both operands have it |
| StructureMatching.SubstructureMatchFp | src/search/structure_matching.rs:18-24 | the fingerprint test holds exactly when every set bit of the substructure fingerprint is set in the superstructure fingerprint |
| StructureMatching.SubstructureMatchFpReflexive | src/search/structure_matching.rs:18-24 | every fingerprint matches itself |
| StructureMatching.SubstructureMatchFpTransitive | src/search/structure_matching.rs:18-24 | the fingerprint test is transitive |
| StructureMatching.SubstructureMatchFpAllZero | src/search/structure_matching.rs:18-24 | a fingerprint with no bit set matches every fingerprint |
| StructureMatching.SubstructureMatchFpNotSymmetric | src/search/structure_matching.rs:18-24 | the test is one-directional: a proper subset matches one way only |
| StructureMatching.ExactMatchFp | src/search/structure_matching.rs:12-16 | fingerprint equality: same length and same bits |
| StructureMatching.ExactMatchFpSymmetric | src/search/structure_matching.rs:12-16 | the exact fingerprint test is symmetric |
| StructureMatching.MutualSubsetIsExact | src/search/structure_matching.rs:12-24 | fingerprints of one length that contain each other are equal, so both subset tests together give the exact test |
| StructureMatching.ExactMatchPassesFpScreen | src/search/structure_matching.rs:4-16 | the fingerprint test is a sound prefilter for `exact_match`: when substructure matches imply fingerprint containment and the fingerprints have one length, two molecules that match exactly have equal fingerprints |
| StructureMatching.ExactFpDoesNotDecide | src/search/structure_matching.rs:4-16 | equal fingerprints do not make an exact match: with a test that never matches, two molecules with the same fingerprint fail `exact_match` |
| StructureMatching.ExactMatchSymmetric | src/search/structure_matching.rs:4-10 | exact matching is symmetric |
| AnalysisStructureMatching.SubstructureMatchFp | src/analysis/structure_matching.rs:16-19 | the older fingerprint test is the same bit-subset test as the current one |
| AnalysisStructureMatching.ExactMatchFp | src/analysis/structure_matching.rs:10-14 | the older exact fingerprint test is equality, as the current one |
| AnalysisStructureMatching.ExactMatch | src/analysis/structure_matching.rs:4-8 | the older exact match answers as the current `exact_match` with chirality off, given the same test without a chirality flag |
| AnalysisStructureMatching.ExactMatchSymmetric | src/analysis/structure_matching.rs:4-8 | the older exact match is symmetric |
| CpdMethodsStructureSearch.ExactMatchFp | src/cpd_methods/structure_search.rs:9-14 | this `exact_match_fp` is the bit-subset test of the first fingerprint in the second, not equality |
| CpdMethodsStructureSearch.ExactMatchFpReflexive | src/cpd_methods/structure_search.rs:9-14 | every molecule matches itself |
| CpdMethodsStructureSearch.ExactMatchFpNotSymmetric | src/cpd_methods/structure_search.rs:9-14 | with fingerprints 10 and 11 it holds one way only |
| CpdMethodsStructureSearch.ExactMatch | src/cpd_methods/structure_search.rs:3-7 | unlike this file's `exact_match_fp`, this exact match agrees with the current `exact_match` with chirality off, given the same test without a chirality flag |
| CpdMethodsStructureSearch.ExactMatchSymmetric | src/cpd_methods/structure_search.rs:3-7 | it is symmetric |
| SearchCompoundProcessing.KeepFragments | src/search/compound_processing.rs:57-61 | each fragment holding `[Si-` becomes empty, every other fragment is kept, positions preserved |
| SearchCompoundProcessing.RemoveHypervalentSiliconSpec | src/search/compound_processing.rs:54-67 | text without both `[Si-` and `.` is returned unchanged; otherwise the result is the concatenation of the `.`-fragments without `[Si-`, in order |
| SearchCompoundProcessing.RemoveHypervalentSiliconShortens | src/search/compound_processing.rs:54-67 | the output is never longer than the input |
| SearchCompoundProcessing.RemoveHypervalentSiliconNoDot | src/search/compound_processing.rs:56-63 | once triggered, the output holds no `.` (fragments are joined with nothing) |
| SearchCompoundProcessing.RemoveHypervalentSiliconIdempotent | src/search/compound_processing.rs:54-67 | applying the clean-up twice equals applying it once |
| SearchCompoundProcessing.OrganicBracketAt | src/search/compound_processing.rs:187-189 | a match of the bracket pattern is `[`, an organic-subset element (B C N O P S F Cl Br I), `]` |
| SearchCompoundProcessing.RemoveOrganicBracketsLength | src/search/compound_processing.rs:191-194 | each replacement removes exactly its two brackets |
| SearchCompoundProcessing.RemoveOrganicBracketsPlain | src/search/compound_processing.rs:191-194 | text without `[` is copied unchanged |
| SearchCompoundProcessing.RemoveOrganicBracketsAtom | src/search/compound_processing.rs:188-193 | a leading organic bracket atom `[X]` becomes `X` |
| SearchCompoundProcessing.RemoveOrganicBracketsKeepsSodium | src/search/compound_processing.rs:188-193 | a bracket atom outside the subset, `[Na]`, is left alone |
| SearchCompoundProcessing.RemoveOrganicBracketsStep | src/search/compound_processing.rs:191-194 | plain text followed by an organic bracket atom: the text is copied and the atom unwrapped |
| SearchCompoundProcessing.RemoveOrganicBracketsExample | tests/cpd_processing_tests.rs:79-84 | `CCCC([F])([Br])([Na])` becomes `CCCC(F)(Br)([Na])` |
| SearchCompoundProcessing.ExpectedValence | src/search/compound_processing.rs:72-78 | exactly C, N and O have an expected valence (4, 3, 2) |
| SearchCompoundProcessing.FormalChargeRuleSpec | src/search/compound_processing.rs:80-92 | atoms other than C, N, O are untouched; for them the charge is set so that total valence minus charge is the expected valence, nothing else changes, and the rule is idempotent |
| SearchCompoundProcessing.AddFormalCharge | src/search/compound_processing.rs:69-93 | only the atom at `atom_idx` changes, to the charge rule applied to it |
| SearchCompoundProcessing.NeutralizeAtoms | src/search/compound_processing.rs:11-52 | the atom array after the loop is `NeutralizeAll`: at each matched position in turn, an atom that is neither aromatic nor negative SP3, as the earlier refreshes left it, is made neutral with total hydrogens minus charge as explicit hydrogens, and the whole molecule is then refreshed |
| SearchCompoundProcessing.NeutralizeAllSpec | src/search/compound_processing.rs:11-48 | whatever the refreshes recompute: every atom keeps its element and aromaticity; unmatched and aromatic atoms keep their charge and explicit hydrogens; a matched non-aromatic atom that was not negative ends neutral; every charge ends as it was or at zero |
| SearchCompoundProcessing.NeutralizeReadsRefreshedHybridization | src/search/compound_processing.rs:37-47 | the skip test reads the hybridization the refresh after an earlier atom left: the same `[N-]` keeps its charge when the refresh makes it SP3 and ends neutral when it makes it SP2 |
| SearchCompoundProcessing.FixChemistryProblems | src/search/compound_processing.rs:95-141 | the loop over the detected problems equals the specification: Si valence problems drop `[Si-` fragments, C/N/O ones add a formal charge, Kekulize problems rewrite `[c-]`; the result is accepted only if no problem is detected afterwards, and it needs the unsanitized parse to succeed |
| SearchCompoundProcessing.ValenceFixChargesAtom | src/search/compound_processing.rs:106-116 | with atom calls that agree with `AddFormalCharge`, a valence problem on a C, N or O atom changes only that atom, whose total valence minus charge becomes the expected valence |
| SearchCompoundProcessing.NoCMinusAround | src/search/compound_processing.rs:120-121 | inserting `[cH-]` between texts without `[c-]` creates no `[c-]` |
| SearchCompoundProcessing.KekulizeFixRemovesAll | src/search/compound_processing.rs:119-124 | after the Kekulize rewrite no `[c-]` is left |
| AnalysisCompoundProcessing.MaxIndex | src/analysis/compound_processing.rs:58-60 | `max` then `position`: the index holds the largest value and every earlier value is strictly smaller (first on ties) |
| AnalysisCompoundProcessing.Lengths | src/analysis/compound_processing.rs:58 | the byte length of each piece, in order |
| AnalysisCompoundProcessing.FragmentSpec | src/analysis/compound_processing.rs:55-62 | the working text is the whole input without `.`, otherwise the first longest `.`-piece; either way a substring of the input |
| AnalysisCompoundProcessing.Dedup | src/analysis/compound_processing.rs:84 | `dedup` never lengthens, keeps the last element and leaves no two equal neighbours |
| AnalysisCompoundProcessing.DedupSingle | src/analysis/compound_processing.rs:83-85 | dedup leaves one element exactly when all elements are equal |
| AnalysisCompoundProcessing.DedupPrefix | src/analysis/compound_processing.rs:84 | a prefix never dedups to more elements than the whole list |
| AnalysisCompoundProcessing.SplitEmpty | src/analysis/compound_processing.rs:83 | `split("")` on a non-empty text gives its characters with an empty piece at each end |
| AnalysisCompoundProcessing.UniqueElementsAsWrittenAtLeastThree | src/analysis/compound_processing.rs:83-87 | as written, the distinct-element count is at least 3 for any non-empty pattern, so the `== 1` test never fires |
| AnalysisCompoundProcessing.UniqueRunsUniform | src/analysis/compound_processing.rs:83-87 | the intended count is 1 exactly for a text of one repeated character |
| AnalysisCompoundProcessing.QualifyingSpec | src/analysis/compound_processing.rs:67-99 | the collected start indices are exactly the qualifying ones (count ≥ 2, length ≥ 10, length/total ≥ 0.99/count, not one repeated character), strictly increasing |
| AnalysisCompoundProcessing.RepeatResultSpec | src/analysis/compound_processing.rs:101-112 | with no qualifying suffix the fragment is returned; otherwise the longest (earliest) qualifying suffix, with no earlier one qualifying; always a substring of the fragment |
| AnalysisCompoundProcessing.FixRepeatingSmilesProperties | src/analysis/compound_processing.rs:51-113 | the output is a substring of the input and no longer; a shortened output is a qualifying repeat that is not one repeated character, and no longer suffix qualifies |
| AnalysisCompoundProcessing.LongestPatternFrom | src/analysis/compound_processing.rs:68-82 | the inner loop always ends holding the whole suffix from `idx`, with its non-overlapping match count and length |
| AnalysisCompoundProcessing.CollectPatterns | src/analysis/compound_processing.rs:64-99 | the three vectors are filled in step, one entry per qualifying start index in order, each with the suffix, its length and a count of at least 2 |
| AnalysisCompoundProcessing.ConsiderStart | src/analysis/compound_processing.rs:68-94 | for one start index the longest pattern is the whole suffix with its length, and the index passes both of the loop's tests exactly when it qualifies; a passing index has a count of at least 2 |
| AnalysisCompoundProcessing.QualifiesIff | src/analysis/compound_processing.rs:87-94 | the tests on count, length, distinct elements and the length/total ratio, written over the suffix's count and length, hold exactly when the start index qualifies |
| AnalysisCompoundProcessing.FixRepeatingSmiles | src/analysis/compound_processing.rs:51-113 | the function as written (with the repaired distinct-element test) equals the specification |
| AnalysisCompoundProcessing.CountMatchesRep | src/analysis/compound_processing.rs:74 | non-overlapping matches of a run of k identical characters in a run of n (n < 3k): 0, 1 or 2 |
| AnalysisCompoundProcessing.RepeatingAsWrittenCounterexample | src/analysis/compound_processing.rs:83-89 | as written, twenty `C` come back as ten `C` |
| AnalysisCompoundProcessing.RepeatingCorrected | src/analysis/compound_processing.rs:83-89 | with the intended test, twenty `C` are kept whole |
| AnalysisCompoundProcessing.RepeatingSourceTest | tests/cpd_processing_tests.rs:87-92 | the doubled protected amino-acid ester with a sodium ion comes back as one copy of the ester, both as written and corrected |
| AnalysisCompoundProcessing.AsWrittenQualifiesIffCandidate | src/analysis/compound_processing.rs:83-94 | as written, a suffix qualifies exactly when it passes the count, length and coverage tests |
| Json.CombineJsonObjects | src/indexing/mod.rs:254-276 | inserting every entry of the second object into the first one key at a time yields exactly the merged value `Combined` (the loop invariant tracks the keys already moved) |
| Json.CombinedObjects | src/indexing/mod.rs:259-266 | two objects merge into their key union, the second object's value winning on a shared key |
| Json.CombinedNonObjects | src/indexing/mod.rs:267-270 | when only the first value is an object it wins; otherwise the second value is returned |
| Json.CombinedPresence | src/indexing/mod.rs:258-275 | the merge is present exactly when at least one input is present |
| Indexing.AsI64 | src/indexing/mod.rs:242-244 | `f64 as i64` truncates toward zero and saturates at the i64 range |
| Indexing.Lookup | src/indexing/mod.rs:241 | a descriptor is found exactly when the descriptor map holds its name |
| Indexing.GetCompoundDocAttributesSpec | src/indexing/mod.rs:187-211 | a processing failure is passed on; a success is marked "Passed", keeps the extra data and the standardized SMILES, and stores the matching scaffold ids, or exactly `[-1]` when none match |
| Indexing.DescriptorFields | src/indexing/mod.rs:240-249 | at most one descriptor field per known descriptor name |
| Indexing.DescriptorFieldsSpec | src/indexing/mod.rs:240-249 | a descriptor field is present exactly for a known name the descriptor map holds, and is stored as a truncated integer exactly for names starting with `Num` or `lipinski`, as a float otherwise |
| Indexing.LeadingFieldsSpec | src/indexing/mod.rs:214-252 | the fields before the descriptors are the SMILES, both fingerprints, an `other_descriptors` object whose keys are exactly `scaffolds` and `similarity_cluster` (the latter holding the cluster, the former the scaffold ids in order), and `extra_data` exactly when present |
| Indexing.CreateTantivyDocSpec | src/indexing/mod.rs:214-252 | every document starts with the SMILES and both fingerprints, then an `other_descriptors` object with exactly the keys `scaffolds` (the scaffold ids, in order) and `similarity_cluster`; `extra_data` follows exactly when present, and all further fields are known descriptors |
| Indexing.BatchesSpec | src/indexing/mod.rs:141-170 | the batches concatenate back to the input, none is empty, none exceeds the batch size, and all but the last are full |
| Indexing.FlattenSnoc | src/indexing/mod.rs:167-170 | flattening distributes over appending one more batch |
| Indexing.EncodeEachLength | src/indexing/mod.rs:147-170 | when the encoder returns one cluster list per fingerprint, the batched run returns one per compound |
| Indexing.ResumeStart | src/indexing/mod.rs:144-147 | before the loop nothing is gathered and the whole run remains |
| Indexing.ResumeStep | src/indexing/mod.rs:151-157 | encoding a full buffer either ends the run with that error or moves its clusters into the gathered ones |
| Indexing.ResumeLast | src/indexing/mod.rs:160-170 | the partial last buffer is encoded only when non-empty, and its failure is the run's failure |
| Indexing.EncodeInBatches | src/indexing/mod.rs:141-170 | the buffering loop returns exactly the flattened encoding of the fingerprints cut into batches of 200, or the first batch's error |
| Indexing.MolAttributes | src/indexing/mod.rs:126-139 | one attribute record per compound, in order: its attributes, or the placeholder whose status is the error text |
| Indexing.MorganFingerprints | src/indexing/mod.rs:147-149 | one Morgan fingerprint per attribute record |
| Indexing.BatchDocCreation | src/indexing/mod.rs:106-185 | missing schema fields and a failing placeholder end the call; otherwise the attributes, the batched cluster encoding and the per-compound documents agree with the specification `BatchDocCreationSpec`, including the panic on a missing cluster list |
| Indexing.BatchDocCreationEntries | src/indexing/mod.rs:172-182 | one entry per compound in order: a failed compound's entry is its error text, a processed compound's entry is a document that starts with its SMILES |
| Indexing.IdsAsInts | src/indexing/mod.rs:192-196 | scaffold ids keep their values and order when stored as integers |
| Scaffolds.MatchingScaffolds | src/search/scaffold_search.rs:44-58 | never more ids than scaffolds |
| Scaffolds.ScaffoldSearch | src/search/scaffold_search.rs:39-61 | the loop always succeeds and returns exactly the ids of the matching scaffolds in list order |
| Scaffolds.MatchingScaffoldsAppend | src/search/scaffold_search.rs:45-58 | the matches of a concatenated scaffold list are the concatenated matches, so order follows the list |
| Scaffolds.MatchingScaffoldsMembers | src/search/scaffold_search.rs:45-58 | an id is reported exactly when some scaffold carrying it passes both the fingerprint-subset test and the substructure match |
| Scaffolds.FingerprintPrefilter | src/search/scaffold_search.rs:48-51 | a scaffold whose fingerprint is not a bit-subset of the query's is never reported, whatever the substructure oracle says |
| Scaffolds.ParseScaffold | src/search/scaffold_search.rs:20-34 | an asset line yields a scaffold exactly when it has a text `smiles` that parses and a u64 `scaffold_id`; the scaffold carries that id, that molecule and its fingerprint |
| Scaffolds.ParseScaffolds | src/search/scaffold_search.rs:16-37 | when start-up does not panic, one scaffold per asset line |
| Scaffolds.ParseScaffoldsIds | src/search/scaffold_search.rs:16-37 | scaffold `i` is parsed from asset line `i` |
| TantivyDocs.GetFirst | src/search/structure_search.rs:104-105 | a stored field's first value is present exactly when the document holds that field |
| TantivyDocs.TextField | src/search/structure_search.rs:104-111 | reading the SMILES succeeds exactly when the field is present and holds text, and returns that text |
| TantivyDocs.BytesField | src/search/structure_search.rs:114-123 | reading the fingerprint succeeds exactly when the field is present and holds bytes, and returns those bits |
| TantivyDocs.FirstMissing | src/search/structure_search.rs:51-53 | the `get_field` lookups made in order: nothing is missing exactly when every name is in the schema; otherwise the answer is the first name the schema lacks, every earlier one being present |
| QueryParts.ExtraPieces | src/search/structure_search.rs:161-165 | an empty extra query contributes no piece; otherwise its pieces joined by " AND " give back the extra query |
| QueryParts.AppendExtraPieces | src/search/structure_search.rs:159-165 | the push loop appends exactly the extra-query pieces to the parts |
| QueryParts.DescriptorClauses | src/search/structure_search.rs:167-174 | at most one clause per descriptor |
| QueryParts.DescriptorClausesAppend | src/search/structure_search.rs:167-174 | clauses follow the descriptor map's iteration order |
| QueryParts.DescriptorClausesMembers | src/search/structure_search.rs:167-174 | a descriptor contributes its clause exactly when it is a structure-match descriptor the extra query does not already name, and every clause comes from such a descriptor |
| QueryParts.AppendDescriptorClauses | src/search/structure_search.rs:167-174 | the push loop appends exactly the clauses of the eligible descriptors |
| QueryParts.NoEligibleNoClauses | src/search/structure_search.rs:167-174 | with no eligible descriptor no clause is written |
| QueryParts.DescriptorNamedInExtraQuery | src/search/structure_search.rs:169-171 | a descriptor whose `name:` already occurs in the extra query contributes nothing |
| QueryParts.IdParts | src/search/structure_search.rs:176-182 | one part per scaffold id, the i-th naming the i-th id |
| QueryParts.IdPartsIndex | src/search/structure_search.rs:178-180 | the i-th part is the field prefix followed by the decimal i-th id |
| QueryParts.AppendIdParts | src/search/structure_search.rs:176-182 | the push loop appends exactly one part per scaffold id |
| StructureSearch.BuildSubstructureQuery | src/search/structure_search.rs:154-185 | the three push loops and the join produce exactly the extra pieces, the lower-bounded descriptor ranges and one part per matched scaffold id, joined by " AND " |
| StructureSearch.SubstructureEmptyScaffolds | src/search/structure_search.rs:176-182 | no scaffold information and an empty match list give the same substructure query |
| StructureSearch.SubstructureScaffoldTail | src/search/structure_search.rs:176-184 | with matched scaffolds, the substructure query's parts end with one `extra_data.scaffolds:` part per id |
| StructureSearch.BuildSuperstructureQuery | src/search/structure_search.rs:187-229 | the parts are joined, then the scaffold clause is appended: exactly the upper-bounded query followed by the `-1` clause or the OR-group |
| StructureSearch.SuperstructureLeadingAnd | src/search/structure_search.rs:209-224 | the scaffold clause is appended whatever the base, so with no extra query and no eligible descriptor the query starts with " AND " |
| StructureSearch.SuperstructureNoMatchedScaffold | src/search/structure_search.rs:212-213 | with no matched scaffold the query is the base followed by exactly " AND extra_data.scaffolds:-1" |
| StructureSearch.SuperstructureScaffoldGroup | src/search/structure_search.rs:214-224 | the OR-group lists every matched id in order and always ends with the scaffold-free `-1` |
| StructureSearch.SuperstructureNoScaffolds | src/search/structure_search.rs:209-228 | without scaffold information the superstructure query is its base |
| StructureSearch.FingerprintDirection | src/search/structure_search.rs:125-129 | for substructure search the query's bits must lie within the candidate's; for any other method the candidate's within the query's |
| StructureSearch.StructureMatchAccepted | src/search/structure_search.rs:91-152 | a hit has a stored SMILES and fingerprint, passed the fingerprint and the oracle test in the method's direction, differs from the query's SMILES, and carries "" when the document has no extra data |
| StructureSearch.OtherMethodsAreSuperstructure | src/search/structure_search.rs:42-46 | any method other than "substructure" builds the superstructure query and matches as superstructure |
| StructureSearch.FilterCandidatesBounds | src/search/structure_search.rs:55-86 | the counter stops at one past the limit and never undercounts the hits, so at most limit + 1 hits are kept |
| StructureSearch.StructureSearchRun | src/search/structure_search.rs:17-89 | a failed candidate search fails the run; after it, a schema lacking `smiles`, `fingerprint` or `extra_data` gives Tantivy's field-not-found error for the first one missing; otherwise the result is the filtered candidates of the query for the method, with the scaffold prefilter applied when asked, and holds at most limit + 1 hits |
| StructureSearch.FilterLoop | src/search/structure_search.rs:55-86 | the candidate loop ends with exactly the hits and the counter of the sequential filter |
| SuperstructureSearch.BuildSuperstructureQuery | src/search/superstructure_search.rs:71-108 | the push loops and the join produce exactly the upper-bounded base query, followed by one parenthesised group of the matched ids and the empty-string literal when scaffolds were searched |
| SuperstructureSearch.OldSuperstructureQueryExample | src/search/superstructure_search.rs:124-132 | `{NumAtoms: 10}` with scaffolds 0 and 1 renders as `NumAtoms:[0 TO 10] AND extra_data.scaffolds:(0 1 "")` |
| SuperstructureSearch.BaseQueryExample | src/search/superstructure_search.rs:84-93 | `{NumAtoms: 10}` alone renders as `NumAtoms:[0 TO 10]` |
| SuperstructureSearch.ScaffoldGroupExample | src/search/superstructure_search.rs:95-105 | scaffolds 0 and 1 render as ` AND extra_data.scaffolds:(0 1 "")` |
| SuperstructureSearch.Filter | src/search/superstructure_search.rs:32-68 | the loop only ever adds to the result set, and never grows it past the limit |
| SuperstructureSearch.FilterSound | src/search/superstructure_search.rs:34-66 | every returned address is a candidate that passed the fingerprint test, the substructure oracle and the not-the-query test, or was already in the set |
| SuperstructureSearch.SuperstructureSearchRun | src/search/superstructure_search.rs:13-69 | Tantivy is asked for 10 × limit candidates of the built query; a failed search fails the run; after it, a schema lacking `smiles` or `fingerprint` gives the field-not-found error for the first one missing; otherwise the result is the loop's, and holds at most `result_limit` addresses |
| SubstructureSearch.AllowedPartsCount | src/search/substructure_search.rs:59-69 | one part per descriptor whose name is on the allow list |
| SubstructureSearch.BuildQuery | src/search/substructure_search.rs:59-69 | the push loop and the join give exactly the allowed parts joined by " AND " |
| SubstructureSearch.NotAllowed | src/search/substructure_search.rs:7-28 | the allow list has twenty names and leaves out `NumHBD` and `CrippenClogP` |
| SubstructureSearch.NoAllowedEmpty | src/search/substructure_search.rs:59-69 | with no allowed descriptor the query is empty |
| SubstructureSearch.AllowedPartsSingle | src/search/substructure_search.rs:62-66 | a single descriptor contributes `k: [v TO 10000]` exactly when it is on the list |
| SubstructureSearch.ExampleNamesAllowed | src/search/substructure_search.rs:14-26 | `exactmw` and `NumAtoms` are on the allow list |
| SubstructureSearch.ExampleParts | src/search/substructure_search.rs:80-86 | `exactmw` 136.2 and `NumAtoms` 10 give the two parts of the unit test, in iteration order |
| SubstructureSearch.BuildQueryExample | src/search/substructure_search.rs:80-87 | `{exactmw: 136.2, NumAtoms: 10}` renders as `exactmw: [136.2 TO 10000] AND NumAtoms: [10 TO 10000]` |
| IdentitySearch.ScaffoldPartsSpec | src/search/identity_search.rs:129-137 | no scaffold information gives no part, an empty match list exactly the `other_descriptors.scaffolds:-1` part, and matched scaffolds one part per id |
| IdentitySearch.BuildIdentityQuery | src/search/identity_search.rs:116-149 | the push loops and the join give exactly the extra-query pieces, then the scaffold parts, then the exact descriptor parts, joined by " AND " |
| IdentitySearch.IdentityQueryEmpty | src/search/identity_search.rs:116-149 | with no extra query, no scaffold information and no eligible descriptor the query is empty |
| IdentitySearch.ExtraQueryLeads | src/search/identity_search.rs:123-127 | a non-empty extra query comes first, verbatim |
| IdentitySearch.NoScaffoldConstraint | src/search/identity_search.rs:129-131 | with an empty match list and nothing else the query is exactly `other_descriptors.scaffolds:-1` |
| IdentitySearch.IdentityQueryExample | src/search/identity_search.rs:139-148 | `{NumAtoms: 10}` alone renders as `NumAtoms:10` |
| IdentitySearch.IdentityMatchSpec | src/search/identity_search.rs:59-114 | a failed fetch fails; an accepted hit has the query's pattern fingerprint bit for bit, passes the two-way exact match, keeps the stored SMILES and the document address, and defaults missing extra data to `{}`; a fingerprint mismatch is a rejection, not an error |
| IdentitySearch.ConfirmedHits | src/search/identity_search.rs:34-53 | never more hits than candidates |
| IdentitySearch.ConfirmedHitsAccepted | src/search/identity_search.rs:34-53 | every confirmed hit is the accepted result of some candidate |
| IdentitySearch.FailingCandidateDropped | src/search/identity_search.rs:48-51 | a candidate whose match errors is logged and dropped without disturbing the other hits |
| IdentitySearch.IdentitySearchRun | src/search/identity_search.rs:12-56 | a failed candidate search fails the run; after it, a schema lacking `smiles`, `pattern_fingerprint` or `extra_data` gives the field-not-found error for the first one missing; otherwise the result is the confirmed hits among the candidates of the built query, asked for with limit 100000 |
| IdentitySearch.KeepConfirmed | src/search/identity_search.rs:34-53 | the filter over the candidates keeps exactly the confirmed hits, in candidate order, with failing candidates dropped |
| SimilarityEncoding.ExpandByte | src/search/similarity_search.rs:9-13 | a byte expands into the requested number of 0/1 values |
| SimilarityEncoding.PackExpandByte | src/search/similarity_search.rs:9-13 | expanding a byte into its bits, least-significant first, and packing them back gives the byte |
| SimilarityEncoding.ExpandBits | src/search/similarity_search.rs:9-13 | the bit view has eight values per byte |
| SimilarityEncoding.PackExpandBits | src/search/similarity_search.rs:9-13 | the expansion loses nothing: regrouping it by eight gives the fingerprint bytes back |
| SimilarityEncoding.ExpandBitsSlice | src/search/similarity_search.rs:9-13 | byte `i` supplies exactly the values at positions `8i` to `8i + 8` |
| SimilarityEncoding.EncodeFingerprint | src/search/similarity_search.rs:8-22 | an encoder failure is passed on; otherwise the whole ranking, or only its first cluster when asked, with an empty ranking then an out-of-bounds panic |
| IndexPaths.LastIndexOf | src/command_line/indexing/mod.rs:16-17 | the last separator position: the character there is the separator and none follows it; absent exactly when the path holds none |
| IndexPaths.LastIndexOfAt | src/command_line/indexing/mod.rs:16-17 | a separator with none after it is the last one |
| IndexPaths.TrimRight | src/command_line/indexing/mod.rs:15-17 | trimming keeps a prefix, empties only the empty path, and leaves no trailing separator or `/.` component behind |
| IndexPaths.ParentAndName | src/command_line/indexing/mod.rs:16-24 | the final component is a non-empty, separator-free suffix of the trimmed path |
| IndexPaths.StemSpec | src/command_line/indexing/mod.rs:22-24 | the stem is a non-empty prefix of the name; it is the whole name exactly when no dot follows the first character |
| IndexPaths.StemDropsExtension | src/command_line/indexing/mod.rs:22-24 | a name with an extension loses exactly that extension |
| IndexPaths.SplitPathOfJoin | src/command_line/indexing/mod.rs:14-30 | a trimmed directory joined with a file name splits back into that directory and the name's stem |
| IndexPaths.NameIsTrimmed | src/command_line/indexing/mod.rs:15-17 | a file name after a separator leaves nothing to trim |
| IndexPaths.SplitPathOfBareName | src/command_line/indexing/mod.rs:14-30 | a bare name has the empty storage directory and its stem as the index name |
| IndexPaths.SplitPathUnderRoot | src/command_line/indexing/mod.rs:14-30 | a name directly under the root has the root as its storage directory and its stem as the index name |
| IndexPaths.SplitPathNoParent | src/command_line/indexing/mod.rs:16-18 | the empty path and the root alone are refused with "Could not extract storage directory" |
| IndexPaths.SplitPathTrailingSeparator | src/command_line/indexing/mod.rs:14-30 | a trailing separator changes nothing |
| IndexPaths.SplitPathExample | benches/indexing_benches.rs:18 | `/tmp/test/benchmark_index` splits into `/tmp/test` and `benchmark_index` |
| IndexManagement.RemoveTree | src/indexing/index_manager.rs:118 | `remove_dir_all` removes the path and everything below it and keeps every other entry unchanged |
| IndexManagement.BuildBuilder | src/indexing/index_manager.rs:66-83 | the builder always carries the schema, and an ascending sort on the named field exactly when one is asked for |
| IndexManagement.IndexManager.New | src/indexing/index_manager.rs:13-28 | the manager and the file system after `new` are those of `NewSpec` |
| IndexManagement.NewSpecProperties | src/indexing/index_manager.rs:13-28 | `new` fails exactly when the storage path is something other than a directory; it creates the directory exactly when the path is missing and creation is asked for, and changes nothing else |
| IndexManagement.IndexManager.Create | src/indexing/index_manager.rs:30-64 | the answer and the file system after `create` are those of `CreateSpec`, which checks, in Tantivy's order, that the path is a directory, that no index is there, and that a requested sort field is a fast field of the schema |
| IndexManagement.CreateRefusedWithoutForce | src/indexing/index_manager.rs:47-58 | on an existing index without `force`, `create` is refused with "index already exists and force reset option not set" and changes nothing |
| IndexManagement.CreateForceDropsSortBy | src/indexing/index_manager.rs:47-53 | `force` on an existing index wipes its directory and builds a new index with the schema and no sort setting, whatever was asked; other paths are untouched |
| IndexManagement.CreateFresh | src/indexing/index_manager.rs:39-46 | where no index exists yet, `create` makes the directory if needed; it succeeds exactly when the requested sort field, if any, is a fast field of the schema, and then returns an index with that sort; otherwise it answers "unhandled error" and leaves the directory made and empty; nothing else changes |
| IndexManagement.CreateSucceeds | src/indexing/index_manager.rs:30-64 | `create` succeeds exactly when the path is not a plain file and either an index is there and `force` is set, or none is there and the requested sort field, if any, is a fast field of the schema; then the path holds the returned index with the requested schema |
| IndexManagement.IndexManager.Exists | src/indexing/index_manager.rs:85-96 | `exists` answers as `ExistsSpec` and changes nothing |
| IndexManagement.ExistsIff | src/indexing/index_manager.rs:85-96 | a schema is answered exactly for a directory holding an index, and nothing exactly for a path that is not a directory |
| IndexManagement.IndexManager.Open | src/indexing/index_manager.rs:98-109 | `open` answers as `OpenSpec` and changes nothing |
| IndexManagement.IndexManager.Delete | src/indexing/index_manager.rs:111-121 | the answer and the file system after `delete` are those of `DeleteSpec` |
| IndexManagement.OpenDeleteMissing | src/indexing/index_manager.rs:98-116 | `open` and `delete` refuse a missing path, and `delete` then changes nothing |
| IndexManagement.CreateThenOpen | src/indexing/index_manager.rs:141-151 | after a successful `create`, `open` returns that index and `exists` its schema |
| IndexManagement.CreateDeleteExists | src/indexing/index_manager.rs:156-157 | after a successful `create`, `delete` succeeds and `exists` then answers nothing |
| IndexManagement.IndexManager.List | src/indexing/index_manager.rs:123-134 | with the corrected prefix (`ListedName`): `list` succeeds exactly on a directory, and names each entry of it once, by its bare name; as written see `ListedAsWrittenKeepsFullPath` |
| IndexManagement.ListedNames | src/indexing/index_manager.rs:128-131 | with the corrected prefix (`ListedName`): one name per directory entry, each name the listed form of some entry and every entry's listed form among the names; as written see `ListedAsWrittenKeepsFullPath` |
| IndexManagement.NoOccurrencePastSlash | src/indexing/index_manager.rs:130 | a pattern with `/` at position m cannot occur in a text with no `/` from m on |
| IndexManagement.StripPrefixOnce | src/indexing/index_manager.rs:130 | removing a prefix ending in `/` from that prefix followed by a file name leaves the name |
| IndexManagement.ChildPathShape | src/indexing/index_manager.rs:126-130 | each path `read_dir` yields is the directory's child prefix followed by the entry's name |
| IndexManagement.ListedNameIsBare | src/indexing/index_manager.rs:123-134 | the corrected listing yields each entry's bare name, whatever the storage directory's spelling |
| IndexManagement.ListedAsWrittenWithoutTrailingSlash | src/indexing/index_manager.rs:124-130 | the listing as written agrees with the correction when the storage directory does not end in `/` |
| IndexManagement.ListedAsWrittenKeepsFullPath | src/indexing/index_manager.rs:124-130 | the listing as written, for a storage directory ending in `/`, removes nothing and returns the full path |
| IndexManagement.CreateThenListed | src/indexing/index_manager.rs:141-154 | after a successful `create` of a plain name, the listing shows that name |
| LegacyIndexManagement.LegacyIndexManager.New | src/indexing/manager.rs:10-27 | the older `new` succeeds, keeps the path and changes the file system exactly as the current `new` |
| LegacyIndexManagement.LegacyIndexManager.Create | src/indexing/manager.rs:29-51 | the answer and the file system after the older `create` are those of `LegacyCreateSpec` |
| LegacyIndexManagement.LegacyIndexManager.Exists | src/indexing/manager.rs:53-64 | the older `exists` answers as the current one |
| LegacyIndexManagement.LegacyCreateIff | src/indexing/manager.rs:29-51 | the older `create` succeeds exactly on an existing directory, and only with `force` when it already holds an index; a failure changes nothing |
| LegacyIndexManagement.LegacyCreateAgrees | src/indexing/manager.rs:29-51 | where the index directory exists, the older and the current `create` agree when no sort is asked for |
| IndexSdf.SdfDocSpec | src/command_line/indexing/index_sdf.rs:278-325 | a document starts with the SMILES and ends with `other_descriptors`, an object with exactly the keys `scaffolds` and `similarity_cluster`, whose scaffold list is `[-1]` exactly when no scaffold matches |
| IndexSdf.Processed | src/command_line/indexing/index_sdf.rs:215-228 | the molecules whose processing succeeded are kept, never more than the chunk held |
| IndexSdf.SdfBatchAccounts | src/command_line/indexing/index_sdf.rs:206-276 | every molecule of a chunk is either in a document or counted as failed; a failed cluster encoding counts the whole chunk as failed |
| IndexSdf.AddAll | src/command_line/indexing/index_sdf.rs:134-145 | every document is either accepted by the writer or counted as failed |
| IndexSdf.ReadMols | src/command_line/indexing/index_sdf.rs:110-118 | the molecules that were read, never more than the items |
| IndexSdf.ReadMolsStep | src/command_line/indexing/index_sdf.rs:110-118 | each item adds its molecule when it was read, and nothing when it was not |
| IndexSdf.ProcessChunk | src/command_line/indexing/index_sdf.rs:121-145 | every molecule of the chunk is written or counted as failed; on success the written documents are those the writer accepted, on failure none |
| IndexSdf.FlushChunk | src/command_line/indexing/index_sdf.rs:120-158 | a buffer is accounted for in full and recorded as one more chunk; with `--commit`, a chunk whose documents were created is followed by a commit, whose refusal is reported; without it nothing is committed |
| IndexSdf.IndexMolecules | src/command_line/indexing/index_sdf.rs:105-201 | either the run completes (the counter is the number of molecules read; every item is written or counted as failed, every unreadable item counted; the chunks are the read molecules in order, all full but the last; every intermediate commit succeeded; the final commit is made) or, only with `--commit`, it ends with the error of the first refused intermediate commit, after full chunks that are the molecules of a prefix of the items |
| IndexSdf.ReadLoop | src/command_line/indexing/index_sdf.rs:105-159 | either the whole read loop ran (the flushed chunks then the buffer are exactly the readable molecules in order, the buffer is shorter than a chunk, every item is written, failed or buffered, every unreadable item counted, every flushed chunk full, every commit made succeeded) or, with `--commit`, it stopped at the first refused commit |
| IndexSdf.BufferMolecule | src/command_line/indexing/index_sdf.rs:117-158 | a readable molecule joins the buffer and a full buffer is flushed; either all of the read loop's facts hold for one more item, or the commit after the flushed chunk was the first one refused |
| IndexSdf.FlushFull | src/command_line/indexing/index_sdf.rs:120-153 | the molecule that fills the buffer: the full chunk is flushed and the buffer starts empty; either the loop's facts hold for one more item with the counter raised by the chunk size, or the commit was refused before the counter moved |
| IndexSdf.RefusedRunOf | src/command_line/indexing/index_sdf.rs:147-149 | a commit refused after some items ends a run whose flushed chunks are full, are the molecules of a prefix of the items, and whose error is that of the first refused commit |
| IndexSdf.FinishRun | src/command_line/indexing/index_sdf.rs:161-192 | after the last item the buffer left is flushed with no intermediate commit, and the run is complete as `IndexMolecules` states |
| IndexSdf.Take | src/command_line/indexing/index_sdf.rs:83-87 | `take(n)` keeps the first `n` items, or all of them when fewer |
| IndexSdf.IndexSdfAction | src/command_line/indexing/index_sdf.rs:41-62 | as written: a given `--chunk-size` panics; without one the run uses chunks of 1000, as `IndexWithLimit` states |
| IndexSdf.IndexWithLimit | src/command_line/indexing/index_sdf.rs:83-201 | the run fails with the parse error exactly when a given limit does not parse; otherwise it indexes the first `limit` items, all without one, with the outcome `IndexMolecules` states |
| IndexSdf.IndexSdfActionParsed | src/command_line/indexing/index_sdf.rs:41-62 | corrected: a `--chunk-size` that does not parse is the parse error; a parsed one is the chunk size of the run; 1000 without one |
| BulkDelete.ScaffoldConstraint | src/rest_api/api/indexing/bulk_delete.rs:85-90 | a failed scaffold search gives no scaffold constraint; a successful one gives its ids unchanged |
| BulkDelete.DeleteQueryShape | src/rest_api/api/indexing/bulk_delete.rs:92-94 | the delete query is the identity query with an empty extra query followed by ` AND smiles:"<canonical SMILES>"`, so with no identity part it starts with " AND " |
| BulkDelete.ScaffoldFailureDropsConstraint | src/rest_api/api/indexing/bulk_delete.rs:85-94 | after a failed scaffold search the query is the exact descriptor parts and the SMILES term only |
| BulkDelete.RequestQuery | src/rest_api/api/indexing/bulk_delete.rs:77-97 | a query is produced only for a SMILES whose processing succeeds |
| BulkDelete.StatusOf | src/rest_api/api/indexing/bulk_delete.rs:40-59 | each status carries exactly one of an opstamp and an error, the opstamp exactly when the query was built and parsed and the deletion succeeded |
| BulkDelete.BulkDeleteRest | src/rest_api/api/indexing/bulk_delete.rs:11-75 | the request fails exactly when the index cannot be opened, the writer cannot be made or the commit fails; otherwise one status per request document, in request order |
| BulkDelete.DeleteOne | src/rest_api/api/indexing/bulk_delete.rs:38-59 | one document's status is its deletion's opstamp or the error of its query or of its deletion |
| CliBulkDelete.CreateDeleteQuery | src/command_line/indexing/bulk_delete.rs:64-79 | a query is produced only for a SMILES whose processing succeeds, and only if it parses |
| CliBulkDelete.ReportOf | src/command_line/indexing/bulk_delete.rs:44-57 | each item is reported under its own SMILES, as deleted exactly when its query was built and the deletion succeeded |
| CliBulkDelete.DeleteOne | src/command_line/indexing/bulk_delete.rs:45-56 | one item's report is `ReportOf` |
| CliBulkDelete.DeleteEach | src/command_line/indexing/bulk_delete.rs:44-57 | one report per item, in order; no item stops the loop |
| CliBulkDelete.BulkDeleteCli | src/command_line/indexing/bulk_delete.rs:28-62 | a missing list fails with "Failed to extract smiles list"; the action succeeds exactly when the path splits, the manager and the index open and a writer is made, then reports each comma-separated item in order; the file system is unchanged and the commit's result is ignored |
| CliBulkDelete.ItemsAreThePieces | src/command_line/indexing/bulk_delete.rs:32-36 | the items joined back with `,` give the list, and no item contains a comma |
| IndexScaffolds.RawSmiles | src/command_line/indexing/index_scaffolds.rs:53-58 | a line yields its raw SMILES exactly when it parses as JSON and has a text `smiles` field |
| IndexScaffolds.AssignedErrIff | src/command_line/indexing/index_scaffolds.rs:51-58 | the run fails exactly when some line cannot be read, parsed, or has no text `smiles` |
| IndexScaffolds.AssignedErrSticky | src/command_line/indexing/index_scaffolds.rs:51-58 | once a prefix of the lines fails, the whole file fails with the same error |
| IndexScaffolds.AssignedIds | src/command_line/indexing/index_scaffolds.rs:50-76 | ids are consecutive from 0: the document at position i has id i, and there are no more documents than lines |
| IndexScaffolds.AssignedProvenance | src/command_line/indexing/index_scaffolds.rs:60-73 | every written document was accepted by the writer and carries the standardized SMILES of one of the lines |
| IndexScaffolds.SkippedLineKeepsIds | src/command_line/indexing/index_scaffolds.rs:69-74 | a line whose scaffold fails to standardize, or whose write fails, adds nothing and uses up no id |
| IndexScaffolds.WrittenLineTakesNextId | src/command_line/indexing/index_scaffolds.rs:62-70 | a written line takes the next id, one past the last |
| IndexScaffolds.AssignIds | src/command_line/indexing/index_scaffolds.rs:50-76 | the line loop returns exactly the documents `Assigned` describes, or the first fatal line's error |
| IndexScaffolds.IndexScaffoldsAction | src/command_line/indexing/index_scaffolds.rs:28-80 | a path that does not split and a missing `scaffold` schema fail without touching the file system; a success creates the index with the scaffold schema, writes the documents of `Assigned`, and answers their count plus one |
| ApiV1.CountOr | src/rest_api/api/api_v1.rs:142-163 | a count parameter is its given value, and the default when absent |
| ApiV1.TextOr | src/rest_api/api/api_v1.rs:164 | a text parameter is its given value, and "" when absent |
| ApiV1.Defaults | src/rest_api/api/api_v1.rs:135-280 | with nothing given, the request functions `BasicSearchLimit`, `SubstructureRequest`, `SuperstructureRequest` and `IdentityRequestOf` give: basic search 1000 results; the substructure and superstructure handlers chirality off, 1000 results, no tautomers, no extra query and scaffolds on; identity chirality off, no extra query and scaffolds on |
| ApiV1.GivenValuesKept | src/rest_api/api/api_v1.rs:142-218 | `BasicSearchLimit`, `SubstructureRequest` and `SuperstructureRequest` pass given limits and extra queries through unchanged |
| ApiV1.FlagsIff | src/rest_api/api/api_v1.rs:195-225 | the text chirality flag (`ChiralityFlag`) is on exactly for a given text other than "false"; the text scaffold flag (`ScaffoldsFlag`) is off exactly for a given text other than "true" |
| ApiV1.UnrecognisedSpelling | src/rest_api/api/api_v1.rs:196-225 | a spelling other than "true" or "false" turns chirality on but scaffolds off |
| ApiV1.TextFlagsAgreeWithTyped | src/rest_api/api/api_v1.rs:150-241 | for the spellings "true" and "false" and absent flags, the superstructure handler reads what the typed substructure handler reads; only the method differs |
| ApiV1.HandlersDispatch | src/rest_api/api/api_v1.rs:147-239 | the substructure handler searches by substructure and the superstructure handler by superstructure |
| RestStructureSearch.CappedPassSpec | src/rest_api/api/search/structure_search.rs:83-117 | the pass keeps the first hits and adds only hits of the first `tautomer_limit` tautomers' successful searches, all of them when it ends below the limit; tautomers count as used exactly when the hits grew; nothing happens unless the first pass is below the limit and the tautomer limit is positive |
| RestStructureSearch.CappedPassOnlyFront | src/rest_api/api/search/structure_search.rs:89-105 | only the first `min(#tautomers, tautomer_limit)` tautomers are searched: what the search answers for the others changes nothing |
| RestStructureSearch.StructureSearchSpec | src/rest_api/api/search/structure_search.rs:13-135 | a structure with validation problems, or whose validation fails, is refused before any search; an answer holds at most `result_limit` hits and is a prefix of the aggregation of the first search and the tautomer pass |
| RestStructureSearch.V1IndexSearchStructure | src/rest_api/api/search/structure_search.rs:13-135 | the handler's collect-then-merge loop and final cut give exactly `StructureSearch` |
| CountedTautomerSearch.CountedSearchSpec | src/rest_api/api/search/superstructure_search.rs:11-151 | a failed preparation is the answer; otherwise the aggregated hits are those of the counted pass, which keeps the first hits and adds only hits of usable non-canonical tautomers, uncut, so they may exceed the limit |
| CountedTautomerSearch.RunCountedSearch | src/rest_api/api/search/superstructure_search.rs:79-139 | the handler's loop with its `continue`s and `break` gives exactly `CountedSearch` |
| RestSubstructureSearch.AppendPassSpec | src/rest_api/api/search/substructure_search.rs:69-109 | the first hits stay in front; below the limit a prefix of the concatenated successful lists of the first ten tautomers is appended, duplicates kept, all of them unless the limit was passed; at or above the limit nothing is added; tautomers count as used exactly when one added a hit |
| RestSubstructureSearch.SubstructureSearchUsesTenfold | src/rest_api/api/search/substructure_search.rs:50-92 | every search, the first and each tautomer's, asks for ten times the limit |
| RestSubstructureSearch.V1IndexSearchSubstructure | src/rest_api/api/search/substructure_search.rs:10-123 | the handler's loop gives exactly `SubstructureSearch` |
| RestSimilaritySearch.Fingerprints | src/rest_api/api/search/similarity_search.rs:72-75 | one Morgan fingerprint per tautomer, in order |
| RestSimilaritySearch.Candidates | src/rest_api/api/search/similarity_search.rs:77-80 | a failed neighbour search gives the empty candidate set, a successful one its hits |
| RestSimilaritySearch.SimilaritySearchSpec | src/rest_api/api/search/similarity_search.rs:10-102 | validation problems refuse the query; the fingerprints searched are those of `min(#tautomers, tautomer_limit + 1)` tautomers, the canonical one first; the answer is a prefix of the ranked hits at most `result_limit` long |
| RestSimilaritySearch.V1IndexSearchSimilarity | src/rest_api/api/search/similarity_search.rs:10-102 | the handler gives exactly `SimilaritySearch` |
| TautomerLoops.Truncate | src/rest_api/api/search/structure_search.rs:130-134 | the cut keeps a prefix of the hits, `min(len, limit)` long |
| TautomerLoops.Take | src/rest_api/api/search/substructure_search.rs:76 | `take(n)` keeps a prefix of the tautomers, `min(len, n)` long |
| TautomerLoops.SearchedUnionIff | src/command_line/search/cli_structure_search.rs:71-88 | a hit is in the union of the successful tautomer searches exactly when some tautomer's search succeeded and found it |
| TautomerLoops.MergeAll | src/command_line/search/cli_structure_search.rs:86-88 | the union loop leaves the earlier hits together with every result set |
| TautomerLoops.CappedMergeBounds | src/rest_api/api/search/structure_search.rs:107-111 | the capped merge keeps what was there and adds nothing from outside the result sets |
| TautomerLoops.CappedMergeBelowLimit | src/rest_api/api/search/structure_search.rs:107-111 | a merge that ends below the limit merged every set; one that starts at or above the limit merges none |
| TautomerLoops.MergeCapped | src/rest_api/api/search/structure_search.rs:107-111 | the loop merges each set whole while the count is below the limit, which is exactly `CappedMerge` |
| TautomerLoops.CountedLoopBounds | src/rest_api/api/search/superstructure_search.rs:89-135 | the counted loop keeps its hits, adds only hits of non-canonical tautomers whose search succeeds, counts at most one per such tautomer, and is marked used exactly when it counted one |
| TautomerLoops.CountedLoopCountBound | src/rest_api/api/search/superstructure_search.rs:126-134 | started below the tautomer limit, the count never passes it |
| TautomerLoops.CountedLoopExhaustive | src/rest_api/api/search/superstructure_search.rs:132-134 | a loop ending neither above the result limit nor at the tautomer limit merged and counted every usable tautomer |
| TautomerLoops.CountedLoopSkipsCanonical | src/rest_api/api/search/superstructure_search.rs:90-93 | the canonical tautomer is never searched: what the search answers for it changes nothing |
| TautomerLoops.CountedLoopOvershoots | src/rest_api/api/search/superstructure_search.rs:125-134 | the hits may pass the result limit: one tautomer finding three hits against a limit of one stops the loop with all three |
| TautomerLoops.RunCounted | src/rest_api/api/search/superstructure_search.rs:89-135 | the loop with its `continue`s and `break` gives exactly `CountedLoop` |
| TautomerLoops.AppendSkippingSpec | src/rest_api/api/search/substructure_search.rs:76-108 | the hits are the earlier hits followed by a prefix of the concatenated successful lists, all of them unless the limit was passed; the flag is set exactly when hits were added |
| TautomerLoops.RunAppendSkipping | src/rest_api/api/search/substructure_search.rs:76-108 | the loop that skips failed tautomers gives exactly `AppendSkipping` |
| TautomerLoops.AppendOrAbortSpec | src/command_line/substructure_search.rs:67-75 | the aborting loop fails only when some tautomer's search fails; otherwise the earlier hits are followed by a prefix of the concatenated lists, all of them unless the limit was passed |
| TautomerLoops.AppendOrAbortSucceeds | src/command_line/substructure_search.rs:67-75 | when every tautomer's search succeeds the loop does not fail |
| TautomerLoops.RunAppendOrAbort | src/command_line/substructure_search.rs:67-75 | the loop that returns on the first failure gives exactly `AppendOrAbort` |
| TautomerLoops.SearchedAgree | src/command_line/search/cli_structure_search.rs:71-84 | only the given tautomers are searched: two searches that agree on them give the same results |
| TautomerLoops.UnionPassSpec | src/command_line/search/cli_structure_search.rs:64-94 | the pass keeps the first hits and, when the first pass is short, there are tautomers and the tautomer limit is positive, adds exactly the hits of every successful tautomer search; tautomers count as used exactly when the hits changed |
| TautomerLoops.UnionPassLimitIsSwitch | src/command_line/search/cli_structure_search.rs:70 | the tautomer limit only switches the pass on: any two positive limits give the same outcome |
| TautomerLoops.CountedPassSpec | src/rest_api/api/search/superstructure_search.rs:79-137 | the count starts at one when the first search found anything; the pass keeps the first hits, adds only usable tautomers' hits, is used exactly when it counted past the start, stays within the tautomer limit when it runs, and changes nothing when the first hits reach the limit or there are too few tautomers or the limit is at most one |
| TautomerLoops.SimilarityTautomersSpec | src/rest_api/api/search/similarity_search.rs:62-70 | the canonical tautomer comes first, then a prefix of the enumerated ones, `min(#tautomers + 1, limit + 1)` in all when the limit is positive and the canonical one alone otherwise |
| LegacySearchSetup.FirstHitsSpec | src/command_line/substructure_search.rs:40-60 | a structure with problems or one that cannot be processed ends the process; otherwise the limit is read (1000 by default) and the canonical tautomer searched for ten times the limit |
| LegacyCliSubstructureSearch.ActionSpec | src/command_line/substructure_search.rs:34-81 | at most ten tautomers are tried, only when the first hits are short; a failure after the first search comes from one of them; the first hits lead, and the tried tautomers' hits are all kept unless the limit was passed |
| LegacyCliSubstructureSearch.MayExceedLimit | src/command_line/substructure_search.rs:62-78 | the hits are not cut back: one tautomer can leave more than `limit` of them |
| LegacyCliSubstructureSearch.LegacySubstructureSearchAction | src/command_line/substructure_search.rs:34-81 | the action as written gives exactly `Action` |
| ShuffledSubstructureSearch.RangeOnce | src/actions/substructure_search.rs:72 | `0..n` holds each index below n exactly once |
| ShuffledSubstructureSearch.PermutationIndices | src/actions/substructure_search.rs:72-76 | the entries of a shuffled index list are in range and pairwise distinct |
| ShuffledSubstructureSearch.PickedDistinctPositions | src/actions/substructure_search.rs:75-76 | ten tautomers are picked, each from its own position in the list |
| ShuffledSubstructureSearch.ActionSpec | src/actions/substructure_search.rs:37-98 | at most `limit` hits come back, the first search's leading; with ten tautomers or fewer none is tried; a failure after the first search comes from a picked tautomer |
| ShuffledSubstructureSearch.ShuffledTautomerLoop | src/actions/substructure_search.rs:72-84 | the loop over the first ten shuffled indices gives exactly `AppendOrAbort` over the picked tautomers |
| ShuffledSubstructureSearch.ShuffledSubstructureSearchAction | src/actions/substructure_search.rs:37-98 | the action as written gives exactly `Action` |
| CliArgs.ParseCount | src/command_line/search/cli_structure_search.rs:19-29 | a count option parses exactly when its text is a decimal usize, to that number; otherwise the error is Rust's: "cannot parse integer from empty string" exactly for the empty text, "number too large to fit in target type" exactly when a leading run of digits reaches 2^64, and "invalid digit found in string" for every other failure |
| CliArgs.ParseCountTooLarge | src/command_line/search/cli_structure_search.rs:20 | 2^64 is refused as too large, not as an invalid digit |
| CliArgs.ParseCountOverflowFirst | src/command_line/search/cli_structure_search.rs:20 | a letter after digits that already reach 2^64 is never read: the error is the overflow |
| CliArgs.ParseCountInvalidDigit | src/command_line/search/cli_structure_search.rs:20 | a letter reached before the digits overflow is an invalid digit |
| CliArgs.ParseLimitsSpec | src/command_line/search/cli_structure_search.rs:19-35 | the options fail exactly when a given count is not a usize; absent ones take 1000, the command's tautomer default and the empty query; given ones are kept |
| CliArgs.ParseLimitsOfDecimal | src/command_line/search/cli_structure_search.rs:19-29 | limits written in decimal come back as given |
| CliArgs.Defaults | src/command_line/search/substructure_search.rs:55-71 | with no options the structure, superstructure and similarity commands use 1000 results and no tautomers, and substructure 1000 results and ten tautomers |
| CliStructureSearch.ActionSpec | src/command_line/search/cli_structure_search.rs:7-101 | a structure with problems is refused; otherwise the aggregated hits are the first hits plus, when the pass runs, exactly the hits of every successful tautomer search, marked used exactly when they added one; scaffolds are on only for "true" or when absent |
| CliStructureSearch.CliStructureSearchAction | src/command_line/search/superstructure_search.rs:57-149 | the action as written (shared by the structure and superstructure commands) gives exactly `Action` |
| CliSubstructureSearch.ActionDefaults | src/command_line/search/substructure_search.rs:48-146 | without options the action runs the counted search with 1000 results, ten tautomers and no extra query |
| CliSubstructureSearch.SubstructureSearchAction | src/command_line/search/substructure_search.rs:48-146 | the action as written gives exactly the counted search on the parsed limits |
| CliSimilaritySearch.Scored | src/command_line/search/similarity_search.rs:134-146 | every candidate is kept, in order, with a score |
| CliSimilaritySearch.ScoredFallback | src/command_line/search/similarity_search.rs:137-144 | a candidate whose similarity cannot be computed is scored 0.0, the others carry their similarity |
| CliSimilaritySearch.ActionSpec | src/command_line/search/similarity_search.rs:55-162 | the candidates are exactly the hits of the used tautomers' successful searches at ten times the limit; they are scored against the whole tautomer list; tautomers count as used exactly when the limit is positive and any were enumerated; at most `result_limit` ranked entries, a prefix of the ranking, are aggregated |
| CliSimilaritySearch.SimilaritySearchAction | src/command_line/search/similarity_search.rs:55-162 | the action as written gives exactly `Action` |
| RubyLoadTest.DropTrailingEmpty | examples/clients/ruby-load-test/main.rb:15 | a prefix of the fields that ends in a non-empty one, with only empty fields cut off |
| RubyLoadTest.SplitLinesSpec | examples/clients/ruby-load-test/main.rb:15 | the lines are the newline-separated fields of the file (which join back to it) without trailing empty ones, and none holds a newline |
| RubyLoadTest.NoticesDistinct | examples/clients/ruby-load-test/main.rb:22 | each pass's notice is its own |
| RubyLoadTest.SmileKeyRefused | examples/clients/ruby-load-test/main.rb:22 | as written, each document carries its structure under `smile`, which the server's `smiles` field does not accept; the corrected document differs only in that key |
| RubyLoadTest.PassDocs | examples/clients/ruby-load-test/main.rb:21-23 | one document per line, in line order, each carrying the line twice and the pass's notice |
| RubyLoadTest.DocsLength | examples/clients/ruby-load-test/main.rb:17-24 | five passes give five times as many documents as lines |
| RubyLoadTest.DocsAccepted | examples/clients/ruby-load-test/main.rb:20-24 | with the corrected key, every document of every pass carries its structure under `smiles` |
| RubyLoadTest.DocsAt | examples/clients/ruby-load-test/main.rb:20-24 | the document at `k * n + i` carries line `i` and the notice of pass `k + 1` |
| RubyLoadTest.BuildDocs | examples/clients/ruby-load-test/main.rb:17-24 | the nested loops build exactly `Docs`, with the corrected key |
| RubyLoadTest.AppendPass | examples/clients/ruby-load-test/main.rb:21-23 | the inner loop appends exactly the documents of one pass, one per line in line order, with the corrected key |
| RubyLoadTest.RequestsSpec | examples/clients/ruby-load-test/main.rb:13-27 | two requests for the same index; the bulk request holds five documents per line, line `i` of pass `k + 1` at `k * n + i`, each under the corrected key |
| RubyLoadTest.LoadTest | examples/clients/ruby-load-test/main.rb:13-27 | whatever the index creation answers, the client sends exactly `Requests`, built with the corrected key |

## Left out

- RDKit chemistry is not modelled. This covers SMILES parsing, standardization, tautomer enumeration, fingerprints, descriptors, `substruct_match` and chemistry-problem detection. Each call is an oracle parameter.
- The internals of `standardize_smiles`, `process_cpd`, `get_cpd_properties` and `get_tautomers` are oracles.
- Tantivy is not modelled. This covers index creation, writers, `add_document`, `commit`, `delete_query`, query parsing and `TopDocs`. The search is an oracle from query text to stored documents. A commit's answer is a parameter: `commitOk` in bulk-delete, and `commitAnswer` for index-sdf's intermediate commits. Where the source ignores a commit's answer, as in index-sdf's final commit and in index_scaffolds, the model ignores it too.
- IndexManagement.CreateInDir: of the checks `create_in_dir` makes, only that a sort field is in the schema and is a fast field is modelled, and its failure is the "unhandled error" answer. Other Tantivy failures on creation are not modelled.
- IndexSdf.SdfBatch and IndexSdf.EncoderAnswersEach: the similarity encoder (`encode_fingerprints`, not part of this model) is taken to answer one cluster list per fingerprint, so the out-of-bounds panic on `similarity_clusters[i]` (src/command_line/indexing/index_sdf.rs:258) is not modelled. Indexing.BatchDocCreation does model a short answer (`ClustersCover`).
- Opening an index and a reader (`open_index`, `index.reader()`) is not modelled. The searcher is part of the oracles.
- `create_or_reset_index` is not modelled; it is file-system plumbing.
- The index-sdf directory set-up and schema lookup are not modelled; they are I/O.
- In index_scaffolds, a failure to create the writer is not modelled.
- File reading is not modelled. Input lines arrive as a sequence of `Result` values.
- Printing, logging, HTTP transport and the poem server are not modelled.
- rayon parallelism is modelled as a sequential, order-preserving map.
- The result-count race between the parallel workers of `structure_search` is not modelled. The model checks the limit before each candidate, as a sequential run would.
- Iteration order is an oracle wherever the source leaves it unspecified. This covers hash sets, `sort_docs`, the descending similarity sort and `aggregate_search_hits`. Those orders therefore carry no proof.
- Similarity scores, Tanimoto and the similarity-encoder model are oracles. Only the encoder's output shape and bit expansion are modelled.
- Descriptor values (`f64`) are carried with their `{}` rendering pre-formatted; float formatting is not modelled.
- AnalysisCompoundProcessing.FixRepeatingSmiles: the `f32` ratio test `length/total >= 0.99/count` is modelled as the exact rational comparison. `f32` rounding can differ at the boundary.
- AnalysisCompoundProcessing.FixRepeatingSmiles: SMILES are taken to be ASCII, so one character stands for one byte in the `len()` arithmetic and the slicing. A non-ASCII input, where Rust would count bytes or panic on a slice inside a character, is not modelled.
- A `panic!` or `unwrap` failure is modelled as an `Err` result that ends the action. This covers the validation panic of the older substructure commands.
- `substructure_search` in src/search/substructure_search.rs (lines 30-57) only prints its hits. Of that file, the allow list and `build_query` are modelled.
- ShuffledSubstructureSearch.Action: the random shuffle is a parameter that must return a permutation. The picked tautomers are fixed from it before the loop runs.
- Some call sites do not match the callee's signature in this snapshot. Each is modelled as written, with the callee abstracted:
  - `scaffold_search` is called with two arguments in the REST superstructure search and in the `bulk-delete` command, but is defined with three.
  - The REST structure search calls `structure_search` without `use_chirality`.
  - The command-line substructure search calls a six-argument `substructure_search`.
  - `validate_structure` returns a `Result` in the REST and command-line searches but a list in the older ones.
- The search tests expect the scaffold prefix `other_descriptors.scaffolds` where src/search/structure_search.rs emits `extra_data.scaffolds`. The model follows the code.
- CliSimilaritySearch.Action: the lookup `schema.get_field("fingerprint")?` (src/command_line/search/similarity_search.rs:132) is schema plumbing and is assumed to succeed; its error exit is not modelled.
- CliSimilaritySearch.Action: each candidate is scored against the whole tautomer list, not only the used prefix, as the code does. Its contract does not relate the scores to the fingerprints.
- SuperstructureSearch.TantivyLimit, SuperstructureSearch.SuperstructureSearchRun, RestSubstructureSearch.TantivyResultLimit, RestSubstructureSearch.SubstructureSearch, CliSimilaritySearch.Action, LegacyCliSubstructureSearch.Action and ShuffledSubstructureSearch.Action: ten times the limit is computed on unbounded integers. The source multiplies `usize` values, which panics or wraps for a limit above `usize::MAX / 10`; that overflow is not modelled. The same holds of the basic-search handler (src/rest_api/api/search/basic_search.rs:34), whose search is not modelled.
- SearchCompoundProcessing.NeutralizeAtoms: the refresh after each update (`update_property_cache(true)` and `set_hybridization`) is an oracle that keeps each atom's element, aromaticity, charge and explicit hydrogens and may recompute anything else.
- SearchCompoundProcessing.FixChemistryProblems: `add_formal_charge` and the atom symbol are oracles; `ValenceFixChargesAtom` states what they do when they agree with `AddFormalCharge`.
- LegacyCliSubstructureSearch.Action: the hits are not cut back to the limit, as in the source (`MayExceedLimit`).
- RubyLoadTest.LoadTest: the answer to the index-creation request is ignored, as `rescue nil` ignores it. The answer to the bulk request is not modelled.
- `Text` and `Wrappers` restate the Rust standard-library calls the source makes. This covers `split`, `replace`, `join`, `parse::<usize>` and integer formatting. Their lemmas are helpers and have no rows.
- `remove_organic_brackets` in src/analysis/compound_processing.rs (lines 42-49) uses the same pattern and replacement as the search version. Both are modelled once, by `SearchCompoundProcessing.RemoveOrganicBrackets`.
- Merging index segments, the PubChem download and streaming commands, and the index CRUD handlers are not modelled. The CRUD handlers only translate `IndexManager` results.

## Findings

| source | as written | input that shows it | evidently intended | confidence | as-written member | corrected member |
|---|---|---|---|---|---|---|
| src/analysis/compound_processing.rs:83-89 | the distinct-element count comes from `split("")`, which yields an empty string at both ends. After `dedup` the count is at least 3 for any non-empty pattern, so the test `unq_element_num == 1` never fires | twenty `C`: the suffix `CCCCCCCCCC` qualifies, so ten `C` come back | a pattern made of one repeated character is never taken as a repeat, so twenty `C` are kept whole | not executed | AnalysisCompoundProcessing.RepeatingAsWrittenCounterexample | AnalysisCompoundProcessing.RepeatingCorrected |
| src/indexing/index_manager.rs:124-130 | `list` removes `storage_dir + "/"` from each entry's path. When the storage directory already ends in `/`, that text never occurs, so nothing is removed | storage directory `idx/` holding index `a`: the listing is `idx/a` | each entry is listed by its bare name, `a` | not executed | IndexManagement.ListedAsWrittenKeepsFullPath | IndexManagement.ListedNameIsBare |
| src/command_line/indexing/index_sdf.rs:41-62 | `chunk-size` is declared without a value parser, so clap stores the given text, and `*matches.get_one("chunk-size")` reads it back as a `usize`, which panics on the type mismatch | `--chunk-size 500` | the molecules are indexed in chunks of 500 | not executed | IndexSdf.IndexSdfAction | IndexSdf.IndexSdfActionParsed |
| examples/clients/ruby-load-test/main.rb:22 | each bulk document carries its structure under the key `smile`, but the server's bulk-request document requires `smiles` (src/rest_api/api/response_types.rs:152) | any file of structures | each document carries its structure under `smiles` and can be indexed | not executed | RubyLoadTest.SmileKeyRefused | RubyLoadTest.DocsAccepted |
