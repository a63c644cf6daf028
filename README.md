# Interference calculator — a Dafny model

The interference calculator helps a mass spectrometrist find mass
interferences. It takes the atoms present in a sample and a target mass (a
number, or a molecule such as `12C 16O2`). It then lists every molecule of up
to `maxsize` atoms, at every requested charge, whose mass-to-charge ratio
(m/z) falls within `mzrange` of the target. For each row it gives the
probability as a product of natural abundances and the mass resolving power
(MRP) needed to separate the row from the target. A second operation,
`standard_ratio`, lists each isotope's abundance relative to the most
abundant isotope of its element.

This project models that core in Dafny and proves properties of the model:

- **The package `Molecule` class** (`interference_calculator/molecule.py`):
  - the two pyparsing grammars: isotope notation (`12C 16O2`) and molecular notation (`C O2`, `H2O`);
  - merging repeated isotopes into totals, then sorting them;
  - resolving a bare element to its major isotope;
  - the molecular mass with the electron correction for a charged molecule;
  - the multinomial relative abundance;
  - the template-driven `formula()` printer (html, latex, mhchem, isotope/plain, molecular, custom).
- **The interference search** (`interference_calculator/main.py`):
  - the pool of isotopes;
  - the combinations-with-replacement enumeration;
  - the charged copies and the inclusive m/z window with its MRP;
  - annotation of the rows, and the appended target row;
  - `standard_ratio`.
- **Two earlier versions of the search**, each modelled where it diverges and proved to agree elsewhere:
  - the root `main.py`, which does not relabel a formula target and always renders the isotope column;
  - `interference_calculator.py`, which accepts a bare integer charge and the sign `O`, and applies no window when there is no target.
- **The older regular-expression `Molecule`** (`molecule.py`; `masstable.py` holds the same code):
  - parsing with `re.findall`;
  - the H/D/T aliases and the main-isotope rule;
  - `Counter`-based stoichiometry, and tuple-index lookups;
  - its `formula()`.
  - One module, `LegacyMolecules`, models both copies: `molecule.py:110-283` and `masstable.py:340-513`.
- **`masstable.py`'s `mass_interference`, `standard_ratios` and `relative_abundance`**:
  - NaN-filled missing abundances;
  - an error for an empty charge list;
  - rows sorted by m/z.
- **The isotope-data record builder** (`isotope_data.py`):
  - the `HTMLPreParser` state machine, as a class;
  - splitting the NIST text into blocks and `name = value` fields;
  - the H/D/T alias rows;
  - the main isotope of each element: the highest abundance, or else the lowest mass number.

## How it is modelled

The isotope table is a value: a sequence of `Isotope` rows. Floating-point
values that can be NaN or infinite are written out as `Float`, which has the
cases `Finite`, `PosInf`, `NegInf` and `NaN`. Python's `str.strip`, `split`,
`join` and decimal conversions are written out in module `Text`.

Each source object whose fields change in place is a `class`:
- both `Molecule` variants;
- `HTMLPreParser`.

Each loop in the source is a `method` with a loop (`for` or `while`). Every such method
is proved equal to a specification function. The properties are then proved
about those functions.

### Where the code differs from its documented behaviour

The model follows the code in everything but one place: the relative
abundance. At `interference_calculator/molecule.py:301-302` the code writes
the counts, in sorted-label order, onto table rows that come in table order
(see "## Findings"). The model keeps that computation as
`Abundance.AbundanceAsWritten` and shows where it goes wrong. Every molecule
the model builds gets the corrected pairing, `Abundance.RelativeAbundance`,
in which each count stays with its own isotope. The two agree whenever the
parsed isotopes come in table order (`Abundance.AsWrittenInTableOrder`,
`MoleculeLaws.ConstructedAsWritten`). Each probability that inherits the
corrected value is listed under "## Left out".

Where the code differs from its documentation, the model follows the code:
- The package `interference()` does not sort its rows by m/z; only `masstable.py` sorts.
- The package version always appends a target row, even when there is no target.
- `molecule.py`'s `parse()` adds to the molecule's existing `mass` (`self.mass += ...`) rather than resetting it. The model carries this over: a molecule built by the constructor starts from mass 0.

## Model

| member | source | states |
|---|---|---|
| GrammarLaws.ParseFormulaWf | interference_calculator/molecule.py:20-71 | every accepted formula has digit-only mass numbers and counts, symbols of one capital and at most two lower-case letters, and a charge that is absent, neutral, or digits with a sign |
| GrammarLaws.MolecularRoundTrip | interference_calculator/molecule.py:49-71 | printing a well-formed molecular-notation composition and reading it back with the molecular grammar gives the same units and charge |
| GrammarLaws.IsotopeRoundTrip | interference_calculator/molecule.py:20-47 | printing a well-formed isotope-notation composition and reading it back with the isotope grammar gives the same units and charge |
| GrammarLaws.IsotopeFormulaRoundTrip | interference_calculator/molecule.py:205-209 | text in isotope notation is rejected by the molecular grammar, so parseString falls back to the isotope grammar and recovers the composition |
| GrammarLaws.ChargeIsNotUnit | interference_calculator/molecule.py:65-70 | a bracketed charge can never be taken for a molecular unit |
| GrammarLaws.DelimitRun | interference_calculator/molecule.py:38 | a maximal run of blanks, commas, hyphens or asterisks becomes exactly one comma |
| GrammarLaws.DelimitKept | interference_calculator/molecule.py:38 | text without delimiter characters passes through unchanged |
| GrammarLaws.DelimitedHasNoBlanks | interference_calculator/molecule.py:38 | after the delimiter transform no blank remains |
| Grammar.ParseFormula | interference_calculator/molecule.py:205-209 | a successful parse has at least one unit (OneOrMore) |
| Templates.StyleTemplate | interference_calculator/molecule.py:369-386 | Err (ValueError) exactly for an unknown style or for 'custom' without a template; a known built-in style gives its template |
| Templates.BuiltinEntries | interference_calculator/molecule.py:73-134 | the html, latex, mhchem, isotope and molecular templates wrap the mass number, element, count and charge in exactly the text around their field |
| Templates.FormatOneField | interference_calculator/molecule.py:410-422 | str.format of a template with one automatic field puts the argument in place of the field |
| Templates.TwoAutoFields | interference_calculator/molecule.py:410-422 | a template with two automatic fields given one argument fails, as str.format raises IndexError |
| Units.Merge | interference_calculator/molecule.py:213-223 | the merged entries have distinct labels; each label's count is the total over the parsed units; a label is present iff it occurs in the units |
| Units.SortEntries | interference_calculator/molecule.py:226 | the result is sorted by label and is a permutation of the input |
| Units.ResolveAll | interference_calculator/molecule.py:226-242 | Ok iff every entry resolves; each result is its entry's resolution; an error is the first failing entry's error |
| Units.LookupAll | interference_calculator/molecule.py:244-249 | Ok iff every isotope is a key of the table, and then each row is the table row with that key; otherwise pandas' out-of-bounds indexer error |
| Abundance.Parents | interference_calculator/molecule.py:304 | the parents are exactly the elements of the rows, each listed once |
| Abundance.GroupSingle | interference_calculator/molecule.py:310-312 | a parent with one isotope contributes p^n |
| Abundance.GroupOfTwo | interference_calculator/molecule.py:313-316 | for two isotopes of one element the group count is n1+n2, the factorial product n1!·n2!, and the power product p1^n1·p2^n2 |
| Abundance.MultinomialThree | interference_calculator/molecule.py:313-316 | two atoms of one isotope and one of another of the same element give 3·p1²·p2 (coefficient 3!/(2!·1!)) |
| Abundance.MultinomialExample | interference_calculator/molecule.py:294-299 | the documented 12C 16O2 18O example: the O group gives 3 · p16² · p18 |
| Abundance.SinglesAbundance | interference_calculator/molecule.py:301-317 | when every element has a single isotope, the abundance is the product of p^n |
| Abundance.AbundanceAsWritten | interference_calculator/molecule.py:301-302 | the as-written computation fails exactly when the table rows selected and the counts differ in number |
| Abundance.SwappedAsWritten | interference_calculator/molecule.py:301-302 | with isotopes sorted as C, H (counts m, n) but H before C in the table, the as-written result is pH^m·pC^n: the counts land on the wrong rows |
| Abundance.SwappedCorrected | interference_calculator/molecule.py:301-317 | on the same input the corrected computation gives pC^m·pH^n: each count stays with its own isotope |
| Abundance.AsWrittenInTableOrder | interference_calculator/molecule.py:301-317 | when the isotopes appear in table order, the as-written and corrected computations agree |
| Formulas.FormulaText | interference_calculator/molecule.py:369-386 | an unknown style, or 'custom' without a template, fails with ValueError |
| Formulas.ChargeSuffix | interference_calculator/molecule.py:388-401 | no suffix when the charge is hidden or zero; otherwise the count (omitted for 1) followed by the template's minus or the sign |
| Formulas.OneFieldNeverFails | interference_calculator/molecule.py:319-424 | with a template whose entries each hold one field, formula() always succeeds |
| Formulas.StyleOutcome | interference_calculator/molecule.py:369-386 | a built-in style always succeeds; 'custom' without a template, or an unknown style, fails |
| Formulas.DeuteriumRoundTrip | interference_calculator/molecule.py:360-367 | with HtoD, 2H is printed as D, and D reads back as 2H |
| Formulas.MajorRoundTrip | interference_calculator/molecule.py:405-408 | a major isotope's mass number is left out when printing, and the bare symbol resolves back to that mass number |
| Formulas.ResolveByMajor | interference_calculator/molecule.py:236-238 | a symbol without a mass number resolves to the mass number of its element's major isotope |
| FormulaLaws.PlainRoundTrip | interference_calculator/molecule.py:403-424 | the plain formula with all isotopes, parsed again, gives back the same merged composition and charge |
| FormulaLaws.MolecularFormulaRoundTrip | interference_calculator/molecule.py:403-424 | the molecular-style formula with all isotopes, parsed again, gives back the same merged composition and charge |
| FormulaLaws.PlainIsIsotopeNotation | interference_calculator/molecule.py:112-122 | the plain formula is exactly the isotope-notation text of the merged composition |
| FormulaLaws.MolecularIsMolecularNotation | interference_calculator/molecule.py:124-134 | the molecular-style formula is exactly the molecular-notation text of the merged composition |
| Molecules.New | interference_calculator/molecule.py:139-191 | a new molecule exists iff Construct succeeds (parse from the initial state, then the abundance); its state is Construct's result, and a failure is Construct's error |
| Molecules.Molecule.Parse | interference_calculator/molecule.py:196-266 | passes iff ParseSpec succeeds on the old state, and the new state is ParseSpec's result; a failure carries ParseSpec's error |
| Molecules.Molecule.RelativeAbundance | interference_calculator/molecule.py:268-317 | the abundance field becomes the multinomial abundance of the parsed isotopes (the corrected pairing of counts with isotopes) and nothing else changes; a failure carries that computation's error |
| Molecules.Molecule.Formula | interference_calculator/molecule.py:319-424 | returns the formula text for the molecule's state and options, and changes nothing |
| Molecules.ParseValues | interference_calculator/molecule.py:196-266 | the loop-based parse computes ParseSpec |
| Molecules.MergeUnits | interference_calculator/molecule.py:213-223 | the dictionary loop computes Merge |
| Molecules.ResolveEntries | interference_calculator/molecule.py:225-242 | the resolution loop computes ResolveAll |
| Molecules.LookupRows | interference_calculator/molecule.py:244-249 | the row-lookup loop computes LookupAll |
| Molecules.SumMasses | interference_calculator/molecule.py:251-253 | the mass loop computes the dot product of masses and counts |
| Molecules.GroupLoop | interference_calculator/molecule.py:305-316 | the group loop computes one element's multinomial factor |
| Molecules.ProductLoop | interference_calculator/molecule.py:317 | the loop computes the product of the group factors |
| Molecules.HtoDLoop | interference_calculator/molecule.py:360-367 | the loop computes the H-to-D relabelling of the columns |
| Molecules.UnitsLoop | interference_calculator/molecule.py:403-419 | the loop computes the unit texts, failing at the first unit whose template fails |
| MoleculeLaws.ChargeCases | interference_calculator/molecule.py:255-260 | the charge is 0 iff the sign is empty, o or 0; a bare sign gives 1; digits give their value |
| MoleculeLaws.EntriesSpec | interference_calculator/molecule.py:213-226 | the parsed isotopes are sorted and distinct, with total counts, and a label is present iff it was written |
| MoleculeLaws.ParsedConsistent | interference_calculator/molecule.py:196-266 | after a successful parse: the columns are aligned; each isotope is mass number plus symbol; each row is the table row; the mass is the dot product plus the electron correction |
| MoleculeLaws.ParsedCharge | interference_calculator/molecule.py:255-266 | the parsed sign is one of '', o, 0, + or -, and the charge agrees with it |
| MoleculeLaws.ChargeRoundTrip | interference_calculator/molecule.py:388-401 | the charge token printed for a composition has digit-only count and reads back to its charge, and to its sign when charged |
| MoleculeLaws.BlankInputFails | interference_calculator/molecule.py:200-209 | a non-empty input of only whitespace is a parse error |
| MoleculeLaws.ConstructedAsWritten | interference_calculator/molecule.py:296-317 | when the parsed isotopes come in table order, the abundance of a constructed molecule equals the positional computation the code performs |
| MoleculeLaws.ConstructedConsistent | interference_calculator/molecule.py:139-191 | a successfully constructed molecule is consistent with the table, and its charge is 0 exactly for the neutral signs |
| Combinations.CombosFrom | interference_calculator/main.py:113 | each combination is a non-decreasing sequence of positions of the right size |
| Combinations.CombosComplete | interference_calculator/main.py:113 | every non-decreasing sequence of positions of that size is produced |
| Combinations.CombosNoDuplicates | interference_calculator/main.py:113 | no combination is produced twice |
| Combinations.AllExactlyOnce | interference_calculator/main.py:110-116 | over sizes 1..maxsize, every multiset of pool positions appears exactly once |
| Interferences.Charges | interference_calculator/main.py:47-52 | a scalar is an error; any other type is a ValueError; a list is Ok iff every int() succeeds, with the values in order |
| Interferences.Pool | interference_calculator/main.py:109 | the pool holds exactly the table rows whose element is among the atoms |
| Interferences.Enumerate | interference_calculator/main.py:110-116 | the enumeration loop computes the combinations of every size up to maxsize |
| Interferences.CombosSplit | interference_calculator/main.py:110-121 | the size-k combinations extend the label and mass columns of the smaller sizes, in the same order for both |
| Interferences.ChargeLoop | interference_calculator/main.py:123-145 | the loop builds the charged copies of every candidate |
| Interferences.ChargeData | interference_calculator/main.py:123-145 | the charged data is ChargeCopies for every charge |
| Interferences.Window | interference_calculator/main.py:147-149 | a candidate is kept iff its m/z lies in the inclusive window around the target |
| Interferences.Annotated | interference_calculator/main.py:156-164 | Ok iff every row annotates; each row is its candidate's annotation; an error is the first failure |
| Interferences.AnnotateRows | interference_calculator/main.py:156-164 | the annotation loop computes Annotated |
| Interferences.TargetOf | interference_calculator/main.py:66-104 | the target loop computes the resolved target |
| Interferences.Interference | interference_calculator/main.py:8-177 | the method computes the interference table specification |
| Interferences.ElementMax | interference_calculator/main.py:186 | NaN iff no isotope of the element has an abundance; otherwise the largest abundance, which some isotope has |
| Interferences.IsotopeColumn | interference_calculator/main.py:191-196 | without rendering (style 'plain') the isotope column is the bare keys |
| Interferences.RatioLoop | interference_calculator/main.py:184-189 | the loop computes the ratio rows |
| Interferences.RenderLoop | interference_calculator/main.py:191-196 | the loop computes the rendered isotope column |
| Interferences.StandardRatio | interference_calculator/main.py:179-198 | the method computes the standard-ratio specification |
| InterferenceLaws.SearchRows | interference_calculator/main.py:147-177 | the result is the windowed candidates followed by the target row; each row keeps the candidate's m/z, and its probability comes from the molecule built from its label |
| InterferenceLaws.TargetWindow | interference_calculator/main.py:147-151 | with a target, every row lies in the inclusive window, with diff = m/z − target and MRP = target / abs(diff) |
| InterferenceLaws.NoTargetNoWindow | interference_calculator/main.py:147-154 | without a target every candidate is kept, with diff 0.0 and infinite MRP |
| InterferenceLaws.OnTarget | interference_calculator/main.py:151 | a candidate exactly on the target has diff 0 and infinite MRP |
| InterferenceLaws.EveryPickOnce | interference_calculator/main.py:110-116 | every multiset of pool isotopes of size 1..maxsize is a candidate exactly once |
| InterferenceLaws.LabelsMatchMasses | interference_calculator/main.py:118-121 | each candidate's mass is the sum of the masses of the isotopes in its label |
| InterferenceLaws.CopiesOrder | interference_calculator/main.py:127-145 | the charged data lists all candidates for the first charge, then the next charge, and so on |
| InterferenceLaws.ChargedMass | interference_calculator/main.py:128-144 | a charged copy's m/z times the charge, plus or minus the electron masses, gives the neutral mass; the label gets the charge suffix |
| InterferenceLaws.ChargedCases | interference_calculator/main.py:123-145 | charge 0 or a neutral sign leaves masses and labels unchanged; otherwise the electron correction follows the sign |
| InterferenceLaws.TargetMatchesCandidate | interference_calculator/main.py:95-99 | a charged formula target has sign + or -, and its m/z is the charged m/z of its mass, the same formula the charged candidates use |
| InterferenceLaws.FormulaTargetCases | interference_calculator/main.py:73-99 | a formula target with no charge of its own takes the first requested charge and sign, and its label is rewritten to match |
| InterferenceLaws.NumericTargets | interference_calculator/main.py:66-104 | a falsy target is inactive with m/z 0 and probability 0; a number, or text that float() reads, is an active target with that value, charge 0 and probability 1 |
| InterferenceLaws.ArgumentErrors | interference_calculator/main.py:47-55 | a bad charge argument or an unknown sign is an error, whatever the other arguments |
| InterferenceLaws.OneTargetRow | interference_calculator/main.py:165-177 | exactly one row, the last, is marked as the target |
| InterferenceLaws.RatioAtMostOne | interference_calculator/main.py:184-189 | every known ratio lies in [0, 1] |
| InterferenceLaws.MaxRatioOne | interference_calculator/main.py:186 | the most abundant isotope of an element has ratio 1 |
| InterferenceLaws.InverseRatio | interference_calculator/main.py:187 | the inverse ratio is 1/ratio, and infinite for a ratio of 0 |
| InterferenceLaws.UnknownAbundance | interference_calculator/main.py:185-187 | an isotope without an abundance has NaN ratio and inverse |
| RootMain.Interference | main.py:10-167 | the root method computes its specification, which resolves the target without relabelling it |
| RootMain.StandardRatio | main.py:169-187 | the root method computes its specification, which always renders the isotope column |
| RootMain.LabelKept | main.py:75-89 | a formula target keeps its label as typed |
| RootMain.SameTarget | main.py:68-94 | the root and package versions fail alike, and otherwise resolve the same target except for its label |
| RootMain.VersionsAgree | main.py:68-167 | the root and package interference tables agree except for the target row's molecule label |
| OldCalculator.TargetMzOf | interference_calculator.py:50-57 | the method computes the target m/z: none for a falsy target, the float() value, or else the molecule's m/z |
| OldCalculator.OldAnnotated | interference_calculator.py:112-120 | Ok iff every row annotates; the rows are the annotated candidates in order |
| OldCalculator.OldInterference | interference_calculator.py:11-122 | the method computes the old calculator's specification |
| OldCalculator.OldStandardRatio | interference_calculator.py:124-142 | the method computes the old standard ratio |
| OldCalculatorLaws.OldWindow | interference_calculator.py:103-107 | with a target, a candidate is kept iff it is in the inclusive window |
| OldCalculatorLaws.OldNoFilter | interference_calculator.py:108-110 | without a target, every candidate is kept, with diff 0 and MRP 0.0 |
| OldCalculatorLaws.CapitalO | interference_calculator.py:80-81 | the sign 'O' gives the same candidates as 'o', all of charge 0 |
| OldCalculatorLaws.IntChargesRead | interference_calculator/main.py:47-52 | a list of Python ints passes the package's int() conversion unchanged |
| OldCalculatorLaws.OldArgumentErrors | interference_calculator.py:43-57 | a bad sign or a bad target is an error; an empty charge list with a charged sign is pandas' "No objects to concatenate" |
| OldCalculatorLaws.AgreesWithPackage | interference_calculator.py:11-122 | for a numeric target or none, the two versions fail alike; otherwise the package adds exactly one final target row, and the other rows match |
| OldCalculatorLaws.OldRatioAgrees | interference_calculator.py:124-142 | the old standard ratio is the package one with rendering always on, and equals it for every style but 'plain' |
| IsotopeData.PreParser.HandleStartTag | isotope_data.py:39-42 | a `pre` tag starts recording; nothing else changes |
| IsotopeData.PreParser.HandleData | isotope_data.py:44-47 | while recording, the data is appended; otherwise it is ignored |
| IsotopeData.PreParser.HandleEndTag | isotope_data.py:49-52 | a closing `pre` tag stops recording |
| IsotopeData.PreParser.Feed | isotope_data.py:30-52 | the state after the events is the run of the three handlers over them, in order |
| IsotopeData.NoPreNoText | isotope_data.py:30-52 | events without a `pre` tag collect nothing |
| IsotopeData.Blocks | isotope_data.py:170-172 | the blocks are the parts between blank lines, without the first and the last part |
| IsotopeData.MaxAbundanceAt | isotope_data.py:216-219 | None iff no isotope of the element has an abundance; otherwise the first row with the largest abundance |
| IsotopeData.MinMassAt | isotope_data.py:216-219 | None iff the element has no rows; otherwise the first row with the lowest mass number |
| IsotopeData.Update | isotope_data.py:170-220 | the record loops compute BuildTable of the text |
| IsotopeData.AllRecordsStop | isotope_data.py:174-205 | once a block fails, later blocks do not change the outcome |
| IsotopeDataLaws.MainRule | isotope_data.py:214-220 | each element's main isotope is a row of that element: the first with the highest abundance when any abundance is known, or else the first with the lowest mass number |
| IsotopeDataLaws.BuiltTableValid | isotope_data.py:170-220 | in a built table, rows of one element name the same main isotope, and that isotope is a row of the table |
| IsotopeDataLaws.BlockRows | isotope_data.py:191-205 | H, D and T records give two rows (one keyed as an alias); other elements give one row keyed mass number plus symbol |
| IsotopeDataLaws.NumericFields | isotope_data.py:181-189 | well-formed fields give the rows of those numbers, the mass and abundance each read up to its uncertainty bracket |
| IsotopeDataLaws.MissingField | isotope_data.py:181-187 | a block with fewer than five fields fails with an index, int() or float() error |
| IsotopeDataLaws.FieldsRoundTrip | isotope_data.py:176-179 | rendered `name = value` lines read back to the stripped values |
| LegacyMolecules.ChargeValue | molecule.py:132-135 | int(charge) succeeds iff the text is digits |
| LegacyMolecules.SignOf | molecule.py:137-140 | the sign is always + or - |
| LegacyMolecules.MainMass | molecule.py:159-162 | fails with tuple.index's error exactly when the element is not listed |
| LegacyMolecules.FixAll | molecule.py:143-172 | Ok iff every unit is fixed; an error is the first failing unit's error; the counts are digits |
| LegacyMolecules.Tally | molecule.py:178-185 | the tally is sorted by label; each label's count is its total; a label is present iff its total is positive |
| LegacyMolecules.LegacyStyle | molecule.py:257-266 | Err exactly for 'empirical'; an unknown style falls back to the plain template |
| LegacyMolecules.Molecule.Parse | molecule.py:110-194 | passes iff ParseOf succeeds on the old state, and then the new state is its result; on failure the state is unchanged and the error is ParseOf's |
| LegacyMolecules.Molecule.Formula | molecule.py:203-283 | returns the legacy formula text and changes nothing |
| LegacyMolecules.New | molecule.py:62-105 | a new molecule exists iff Construct succeeds (the parse from mass 0, abundance 1, charge 0 and no sign), and its state is Construct's result |
| LegacyMolecules.ParseValues | molecule.py:110-194 | the loop-based parse computes ParseOf |
| LegacyMolecules.UnitLoop | molecule.py:143-172 | the alias loop computes FixAll |
| LegacyMolecules.HtoDLoop | molecule.py:244-255 | the loop computes the H-to-D relabelling |
| LegacyMolecules.UnitsLoop | molecule.py:268-280 | the loop computes the unit texts |
| LegacyMoleculeLaws.SplitChargeRule | molecule.py:123-140 | a trailing bracket, sign or digit token is taken as the charge, with its value and sign; otherwise there is no charge |
| LegacyMoleculeLaws.BareSignNeutral | molecule.py:126-135 | a bare sign with no digits gives charge 0 |
| LegacyMoleculeLaws.FixUnitRule | molecule.py:146-172 | bare H is 1H, D is 2H, T is 3H, and an explicit mass is kept; the only failure is tuple.index's |
| LegacyMoleculeLaws.MainIsotopeRule | molecule.py:159-162 | a bare symbol takes the element's main-isotope mass number |
| LegacyMoleculeLaws.ParseErrors | molecule.py:116-191 | IndexError iff the scan finds no units; any other failure is tuple.index's |
| LegacyMoleculeLaws.TallySpec | molecule.py:178-185 | the keys are strictly ascending; the counts are positive totals; every written isotope is present |
| LegacyMoleculeLaws.ParseComposition | molecule.py:110-194 | a successful parse gives the tallied composition, and adds its dot-product mass to the previous mass |
| LegacyRoundTrip.FormulaRoundTrip | molecule.py:110-283 | the plain formula of a printable molecule parses again to the same isotopes and counts, with charge 1 read back as 0 |
| LegacyRoundTrip.ChargeOneComesBackNeutral | molecule.py:126-135 | charge 1 is printed as a bare sign, which parse() reads as charge 0 |
| MassTable.Picked | masstable.py:557-559 | the rows picked are exactly the table rows of the named elements |
| MassTable.WithoutAliases | masstable.py:561 | the H, D and T alias rows are dropped and every other row is kept |
| MassTable.MassPool | masstable.py:557-561 | Err (nothing to concatenate) iff no atoms are given; otherwise the rows of the atoms without aliases |
| MassTable.Cell | masstable.py:563-566 | a known abundance is kept; a missing one becomes the positive minabundance, or else NaN |
| MassTable.Ions | masstable.py:616-638 | Err iff the charge list is empty |
| MassTable.TargetMz | masstable.py:570-578 | a falsy target gives no target; a non-zero number is used as is |
| MassTable.LegacyMz | masstable.py:574-578 | a molecule's m/z times its charge (1 when neutral) is its mass |
| MassTable.InRangeOf | masstable.py:646-648 | an ion is kept iff its m/z is in the inclusive range |
| MassTable.RowsFor | masstable.py:652-657 | each row is its ion's row; an error is some ion's error |
| MassTable.StandardRatiosSpec | masstable.py:668-688 | no atoms gives pandas' "No objects to concatenate" |
| MassTable.MassRelativeAbundance | masstable.py:723-739 | fails iff the list is non-empty and none of its isotopes is in the table (a lookup error), or the two lists differ in length |
| MassTable.MassInterference | masstable.py:524-665 | the method computes the mass_interference specification |
| MassTable.IonsLoop | masstable.py:580-638 | the loops build the ions of every combination and charge |
| MassTable.StandardRatios | masstable.py:668-688 | the method computes standard_ratios |
| MassTable.RelativeAbundanceOf | masstable.py:691-739 | the method computes relative_abundance: the multinomial over the rows found, an isotope without a row being skipped |
| MassTableLaws.NaNPoisons | masstable.py:606 | a NaN factor makes the product NaN |
| MassTableLaws.PickProbability | masstable.py:593-606 | an ion's probability is the product of its atoms' abundance cells |
| MassTableLaws.MissingAbundancePoisons | masstable.py:563-606 | without minabundance, a combination with an isotope of unknown abundance has NaN probability |
| MassTableLaws.FilledProbabilityFinite | masstable.py:563-606 | with a positive minabundance, every probability is finite and non-negative |
| MassTableLaws.IonLayout | masstable.py:580-638 | the ions list every combination, for each charge in turn |
| MassTableLaws.ChargedMzExact | masstable.py:636-638 | a charged ion's m/z is the mass divided by the charge, with no electron correction; charge 1 gets the label suffix ' [+]' or ' [-]' without a digit |
| MassTableLaws.WindowInclusive | masstable.py:646-648 | both bounds of the window are included, and a NaN m/z or target is never in range |
| MassTableLaws.SortedRowsFromIons | masstable.py:652-665 | sorting keeps one row per windowed ion, and every sorted row matches one of those ions |
| MassTable.SortByMz | masstable.py:665 | the rows are sorted by m/z and are a permutation of the input |
| MassTableLaws.WindowedResult | masstable.py:639-665 | the result is sorted by m/z; with a target every row is in range with its diff and MRP; without one, diff and MRP are 0 |
| MassTableLaws.IonColumns | masstable.py:593-614 | the ions come from the space-joined labels, summed masses and product probabilities of the same combinations |
| MassTableLaws.IonsExist | masstable.py:616-634 | a non-empty charge list always gives ions |
| MassTableLaws.RatioDataRows | masstable.py:671-679 | the ratio rows are exactly the table rows of the atoms, each with its inverse ratio: the element's highest abundance divided by its own |
| MassTableLaws.UnfilteredCount | masstable.py:649-650 | without a target, the result has one row for each charge and combination |
| MassTableLaws.FormulaTargetNoElectron | masstable.py:574-578 | a formula target's m/z is its mass over its charge, with no further electron correction |
| MassTableLaws.HighestIsOne | masstable.py:674-675 | the most abundant isotope of an element has inverse ratio 1 |
| MassTableLaws.InverseAtLeastOne | masstable.py:673-675 | an isotope of positive abundance p has inverse ratio highest/p, which is at least 1 |
| MassTableLaws.AgreesWithAligned | masstable.py:723-739 | for distinct isotopes, the package's multinomial succeeds iff relative_abundance succeeds with every isotope found, and then the two are equal |
| MassTableLaws.MissingIgnored | masstable.py:723-734 | appending an isotope the table lacks, with any count, to a non-empty list leaves relative_abundance unchanged |
| MassTableLaws.PartlyMissing | masstable.py:723-734 | relative_abundance of a found and a missing isotope is the first one's probability raised to its count |
| MassTableLaws.SingleIsotope | masstable.py:732-734 | one isotope with count n gives p^n |

## Left out

- Interferences.Charges: a scalar charge at `interference_calculator/main.py:48-50` raises a TypeError in Python; the model records only that it fails, not which exception it is.
- The pyparsing, `re` and pandas libraries are modelled only in the behaviour these files use. Only ASCII digits and letters are recognised.
- The textual form of floats (`repr`, rounding, `%.4f`-style display) is not modelled. NaN and infinities are explicit cases of `Float`. A numeric target's label is the text the caller supplies.
- Sorting is specified only as sorted and a permutation. The order pandas gives to equal keys is not modelled.
- The file, network and SQLite I/O of `isotope_data.py` and `masstable.py`, `needs_update`, and the module-level loading of the isotope table are left out. The table is a parameter, and so is the sequence of HTML events given to `PreParser.Feed`.
- Molecules.Molecule.Parse, LegacyMolecules.Molecule.Parse: on failure the model leaves every field unchanged. The source may already have assigned some fields before it raises.
- A custom template dictionary that lacks some keys is not modelled. A custom template is a complete `Template` record.
- The exact messages of `tuple.index` and of pandas `.loc` errors are not modelled. Each is a distinct error case.
- The pandas row index and column order of the returned tables are not modelled. Rows are records.
- `parser.py`, the GUI, and the scripts that update the periodic table are not part of this model.
- The `relative_abundance` method of `molecule.py` (lines 285-333) is not modelled. It refers to names that do not exist and cannot run. Neither are the empty `sort()` stubs of `molecule.py` and `masstable.py`.
- Concurrency and timing play no part in the modelled code.
- Floating-point arithmetic is modelled as exact real arithmetic for finite values. This covers mass sums, the electron correction, mass/charge, the difference, the MRP, the factorial quotient and the products of the abundance. Window membership at `>= target - range` and `<= target + range`, and the order of near-equal m/z values, are therefore exact-arithmetic results. A rounding that moves a value across a window bound, or makes a product depend on the order of `value_counts`, is not captured.
- `masstable.py`'s `relative_abundance` is modelled with the `.loc` of the pandas it was written for (up to 0.19): a list of keys returns a NaN row for each key not in the index and raises only when none is found. Later pandas raises a KeyError for any missing key; that behaviour is not modelled.
- `interference_calculator.py` is modelled against the package's `interference_calculator/molecule.py`: its `Molecule`, `periodic_table` and `mass_electron`. Its import `from .molecule import Molecule, mass_electron, periodic_table` names, for a file at the top of the repository, the root `molecule.py`. That module defines neither `mass_electron` nor `periodic_table`, and its `formula()` takes no `all_isotopes` argument, so the file as it stands cannot be imported. The package module is the only one in the repository that supplies every name it uses.
- OldCalculator.OldInterference: every charge is an `int`. A float inside the charge list, which `interference_calculator.py:41-42` passes on unchanged, is not modelled, and neither is a bare float charge, which that line does not wrap in a list.
- Default argument values (`mzrange=0.3`, `maxsize=5`, `charge=[1]`, `style='plain'` and the like) are not modelled. Every caller passes every argument explicitly.
- Molecules.Construct: the abundance is the corrected pairing of counts with isotopes, not the positional assignment of `interference_calculator/molecule.py:301-302`. The two agree when the parsed isotopes come in table order (MoleculeLaws.ConstructedAsWritten). The as-written computation is `Abundance.AbundanceAsWritten`.
- Molecules.New: the new molecule's `abundance` is Construct's corrected value, not the positional one of `interference_calculator/molecule.py:301-302`.
- Molecules.Molecule.RelativeAbundance: sets the corrected value, not the positional one of `interference_calculator/molecule.py:301-302`.
- Interferences.Annotated: each row's probability is the corrected abundance of its candidate, not the program's positional one. They differ for a label such as `1H 1H 16O`, whose sorted isotopes are not in table order.
- Interferences.AnnotateRows: computes Annotated, so it carries the same corrected probabilities.
- Interferences.TargetOf: a formula target's probability is the corrected abundance, not `Molecule(target).abundance` as the code computes it.
- Interferences.Interference: the probability column and the target row's probability are the corrected abundances.
- InterferenceLaws.SearchRows: states that each probability is the corrected abundance of its candidate's molecule.
- RootMain.Interference: inherits the corrected probabilities of the package version.
- OldCalculator.OldAnnotated: each row's probability is the corrected abundance.
- OldCalculator.OldInterference: the probability column is the corrected abundance.

## Findings

| source | as written | input that shows it | evidently intended | confidence | as-written member | corrected member |
|---|---|---|---|---|---|---|
| interference_calculator/molecule.py:301-302 | the counts, in the molecule's sorted isotope order, are written positionally onto the table rows selected with `isin`, which come in table order | the molecule `12C 1H4`: the sorted isotopes are 12C, 1H with counts 1, 4, while the table lists 1H before 12C, so 1H gets count 1 and 12C gets count 4 | each isotope's row carries that isotope's own count | not executed | Abundance.SwappedAsWritten | Abundance.SwappedCorrected |
