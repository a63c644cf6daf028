/** What a Molecule of interference_calculator/molecule.py holds once it is built: entries
    merged by label and sorted, parallel columns that agree with the table, a mass that is the
    masses times the counts with the electron correction, and a charge that the formula text
    prints back. */
module MoleculeLaws {
  import opened Wrappers
  import opened Numeric
  import opened Text
  import opened IsotopeTable
  import opened Grammar
  import opened GrammarLaws
  import opened Units
  import opened Seqs
  import opened Formulas
  import opened Templates
  import opened Molecules
  import FormulaLaws
  import Abundance

  // ---------------------------------------------------------------------------------------
  // Charge

  /** A digit string that does not start with '0' has a positive value. */
  lemma {:induction false} DigitsPositive(s: string)
    requires AllDigits(s) && s != [] && s[0] != '0'
    ensures DigitsValue(s) > 0
    decreases |s|
  {
    if |s| > 1 {
      DigitsPositive(s[..|s| - 1]);
    }
  }

  /** The charge of every token the grammars produce: none exactly for no sign and the
      neutral signs, one for a bare '+' or '-', the digits' value otherwise. */
  lemma {:induction false} ChargeCases(c: ChargeTok)
    requires WfCharge(c)
    ensures ChargeOf(c) == 0 <==> c.sign == "" || c.sign == "o" || c.sign == "0"
    ensures (c.sign == "+" || c.sign == "-") && c.count == [] ==> ChargeOf(c) == 1
    ensures c.count != [] ==> ChargeOf(c) == DigitsValue(c.count)
  {
    if c.count != [] {
      DigitsPositive(c.count);
    }
  }

  /** The charge token formula() prints for a signed charge reads back as that charge and
      sign. */
  lemma {:induction false} ChargeRoundTrip(c: Composition)
    requires c.charge > 0 ==> c.chargeSign == "+" || c.chargeSign == "-"
    ensures AllDigits(FormulaLaws.CanonicalCharge(c).count)
    ensures ChargeOf(FormulaLaws.CanonicalCharge(c)) == c.charge
    ensures c.charge > 0 ==> FormulaLaws.CanonicalCharge(c).sign == c.chargeSign
  {
    if c.charge > 1 {
      NatToStringRoundTrip(c.charge);
    }
  }

  // ---------------------------------------------------------------------------------------
  // Merged entries

  /** The entries parse() resolves: in ascending label order, one per label that some unit
      carries and no other, each holding the sum of the counts of the units with its label. */
  lemma {:induction false} EntriesSpec(us: seq<Unit>)
    requires CountDigits(us)
    ensures SortedByLabel(Entries(us)) && DistinctLabels(Entries(us))
    ensures forall j :: 0 <= j < |Entries(us)| ==> Entries(us)[j].count == Total(us, Entries(us)[j].key)
    ensures forall l :: (exists j :: 0 <= j < |Entries(us)| && Entries(us)[j].key == l) <==> HasLabel(us, l)
  {
    var m := Merge(us);
    var es := Entries(us);
    SortedDistinct(es);
    forall j | 0 <= j < |es| ensures es[j].count == Total(us, es[j].key) && HasLabel(us, es[j].key) {
      assert es[j] in multiset(m);
      var i :| 0 <= i < |m| && m[i] == es[j];
      FindDistinct(m, i);
      assert CountOf(m, es[j].key) == es[j].count;
    }
    forall l | HasLabel(us, l) ensures exists j :: 0 <= j < |es| && es[j].key == l {
      var i := Find(m, l).value;
      assert m[i] in multiset(es);
      var j :| 0 <= j < |es| && es[j] == m[i];
    }
  }

  // ---------------------------------------------------------------------------------------
  // Parsed columns

  /** The row of an isotope key, when the table has one. */
  predicate RowAgrees(t: Table, key: string, z: nat, mass: real, abundance: Option<real>) {
    match FindKey(t, key)
    case Some(i) => t[i].z == z && t[i].mass == mass && t[i].abundance == abundance
    case None => false
  }

  /** The attributes of a parsed molecule agree with each other and with the table: all
      columns are equally long, every isotope names its mass number and element, every
      isotope's row gives its atomic number, mass and abundance, the mass is the masses
      times the counts with one electron mass per charge taken off for '+' and added for
      '-', and the charge is zero exactly for no sign and the neutral signs. */
  predicate Consistent(t: Table, m: MolState) {
    |m.isotopes| == |m.elements| == |m.atomicMasses| == |m.counts|
      == |m.atomicNumbers| == |m.masses| == |m.abundances|
    && (forall j :: 0 <= j < |m.isotopes| ==> m.isotopes[j] == IntToString(m.atomicMasses[j]) + m.elements[j])
    && (forall j :: 0 <= j < |m.isotopes| ==>
          RowAgrees(t, m.isotopes[j], m.atomicNumbers[j], m.masses[j], m.abundances[j]))
    && m.mass == Dot(m.masses, m.counts) + ElectronShift(m.chargeSign, m.charge)
  }

  /** The unit columns after the resolution loop on fresh attributes. */
  lemma {:induction false} UnitColumns(s: MolState, rs: seq<Resolved>, j: nat)
    requires s.elements == s.isotopes == [] && s.atomicMasses == [] && s.counts == []
    requires j < |rs|
    ensures |WithUnits(s, rs).isotopes| == |WithUnits(s, rs).elements| == |WithUnits(s, rs).atomicMasses|
              == |WithUnits(s, rs).counts| == |rs|
    ensures WithUnits(s, rs).isotopes[j] ==
              IntToString(WithUnits(s, rs).atomicMasses[j]) + WithUnits(s, rs).elements[j]
  {
  }

  /** The columns of the attributes once both loops have run on fresh attributes. */
  lemma {:induction false} RowColumns(t: Table, s1: MolState, rows: seq<Isotope>, c: ChargeTok)
    requires s1.atomicNumbers == [] && s1.masses == [] && s1.abundances == [] && s1.mass == 0.0
    requires |s1.isotopes| == |s1.elements| == |s1.atomicMasses| == |s1.counts|
    requires forall j :: 0 <= j < |s1.isotopes| ==> s1.isotopes[j] == IntToString(s1.atomicMasses[j]) + s1.elements[j]
    requires LookupAll(t, s1.isotopes) == Ok(rows)
    requires AllDigits(c.count)
    ensures Consistent(t, WithCharge(WithRows(s1, rows), c))
  {
    var s2 := WithRows(s1, rows);
    var m := WithCharge(s2, c);
    assert m.isotopes == s1.isotopes && m.elements == s1.elements && m.atomicMasses == s1.atomicMasses;
    assert m.counts == s1.counts;
    assert m.atomicNumbers == MapSeq(rows, RowZ) && m.masses == MapSeq(rows, RowMass);
    assert m.abundances == MapSeq(rows, RowAbundance);
    forall j | 0 <= j < |m.isotopes|
      ensures RowAgrees(t, m.isotopes[j], m.atomicNumbers[j], m.masses[j], m.abundances[j])
    {
      assert rows[j] == t[FindKey(t, s1.isotopes[j]).value];
    }
    ZipDotFull(s2.masses, s2.counts);
    assert m.mass == Dot(m.masses, m.counts) + ElectronShift(m.chargeSign, m.charge);
  }

  lemma {:induction false} ZipDotFull(ms: seq<real>, cs: seq<nat>)
    requires |ms| == |cs|
    ensures ZipDot(ms, cs) == Dot(ms, cs)
  {
    assert ms[..|ms|] == ms && cs[..|cs|] == cs;
  }

  /** Every molecule parse() builds from fresh attributes is consistent. */
  lemma {:induction false} ParsedConsistent(t: Table, input: string)
    requires ParseSpec(t, Fresh(input)).Ok?
    ensures Consistent(t, ParseSpec(t, Fresh(input)).value)
  {
    var s := Fresh(input);
    if input == [] {
      assert ParseSpec(t, s).value == s;
      return;
    }
    var p := ParseFormula(Strip(input)).value;
    ParseFormulaWf(Strip(input));
    WfCountDigits(p.units);
    var r1 := ResolveSpec(t, Entries(p.units), s.(input := Strip(input)));
    if r1.Err? {
      ResolveFails(t, s, p);
      assert false;
    }
    var s1 := r1.value;
    var rs := ResolveAll(t, Entries(p.units)).value;
    forall j | 0 <= j < |rs|
      ensures s1.isotopes[j] == IntToString(s1.atomicMasses[j]) + s1.elements[j]
    {
      UnitColumns(s.(input := Strip(input)), rs, j);
    }
    var r2 := LookupSpec(t, s1);
    if r2.Err? {
      LookupFails(t, s, p, s1);
      assert false;
    }
    ParseSpecOk(t, s, p, s1, r2.value);
    RowColumns(t, s1, LookupAll(t, s1.isotopes).value, p.charge);
  }

  /** A parsed molecule's sign is absent, neutral, '+' or '-', and its charge is zero exactly
      when the sign is absent or neutral. */
  lemma {:induction false} ParsedCharge(t: Table, input: string)
    requires ParseSpec(t, Fresh(input)).Ok?
    ensures var m := ParseSpec(t, Fresh(input)).value;
              (m.charge == 0 <==> m.chargeSign == "" || m.chargeSign == "o" || m.chargeSign == "0")
              && (m.chargeSign == "" || m.chargeSign == "o" || m.chargeSign == "0"
                  || m.chargeSign == "+" || m.chargeSign == "-")
  {
    var s := Fresh(input);
    if input == [] {
      assert ParseSpec(t, s).value == s;
      return;
    }
    var p := ParseFormula(Strip(input)).value;
    ParseFormulaWf(Strip(input));
    WfCountDigits(p.units);
    var r1 := ResolveSpec(t, Entries(p.units), s.(input := Strip(input)));
    if r1.Err? {
      ResolveFails(t, s, p);
      assert false;
    }
    var r2 := LookupSpec(t, r1.value);
    if r2.Err? {
      LookupFails(t, s, p, r1.value);
      assert false;
    }
    ParseSpecOk(t, s, p, r1.value, r2.value);
    ChargeCases(p.charge);
  }

  // ---------------------------------------------------------------------------------------
  // Inputs with nothing in them

  lemma {:induction false} ParseNothing()
    ensures ParseFormula("") == Err(ParseError(""))
  {
    assert MolecularUnits("").0 == [];
    assert Delimit("") == "";
    assert IsotopeUnits("").0 == [];
  }

  /** An input of blanks only is not a formula: parse() fails with the empty text. */
  lemma {:induction false} BlankInputFails(t: Table, s: MolState)
    requires s.input != [] && Strip(s.input) == []
    ensures ParseSpec(t, s) == Err(ParseError(""))
  {
    ParseNothing();
  }

  /** Molecule(''): parse() returns at once, and the molecule has mass 0, relative abundance
      1, no columns and an empty formula. */
  lemma {:induction false} EmptyMolecule(t: Table)
    ensures Construct(t, "") == Ok(Fresh(""))
  {
    assert ParseSpec(t, Fresh("")) == Ok(Fresh(""));
    assert Abundance.Parents([]) == [];
    assert Abundance.RelativeAbundance(t, [], []) == Ok(Finite(1.0));
    var c := CompositionOf(Fresh(""));
    assert Spelled(c, true) == [];
    assert UnitTexts(t, IsotopeTemplate, [], false) == Ok([]);
    assert ChargeText(IsotopeTemplate, 0, "", true) == "";
    assert StyleTemplate("plain", None) == Ok(IsotopeTemplate);
    assert Parts(IsotopeTemplate, [], "") == Ok([]);
    assert IsotopeTemplate.begin + Join(IsotopeTemplate.majorJoin, []) + IsotopeTemplate.end == "";
    assert FormulaText(t, c, Defaults) == Ok("");
  }

  /** A constructed molecule is its parsed attributes with the abundance and formula filled
      in, so it is consistent, and its charge is zero exactly for no sign or a neutral one. */
  lemma {:induction false} ConstructedConsistent(t: Table, input: string)
    requires Construct(t, input).Ok?
    ensures Consistent(t, Construct(t, input).value)
    ensures var m := Construct(t, input).value;
              (m.charge == 0 <==> m.chargeSign == "" || m.chargeSign == "o" || m.chargeSign == "0")
              && (m.chargeSign == "" || m.chargeSign == "o" || m.chargeSign == "0"
                  || m.chargeSign == "+" || m.chargeSign == "-")
  {
    ConstructIsParse(t, input);
    ParsedConsistent(t, input);
    ParsedCharge(t, input);
    var m := Construct(t, input).value;
    ConsistentUpdate(t, ParseSpec(t, Fresh(input)).value, m.abundance, m.molecularFormula);
  }

  /** The constructor's molecule is the parsed one with abundance and formula filled in. */
  lemma ConstructIsParse(t: Table, input: string)
    requires Construct(t, input).Ok?
    ensures ParseSpec(t, Fresh(input)).Ok?
    ensures var m := Construct(t, input).value;
            m == ParseSpec(t, Fresh(input)).value.(abundance := m.abundance, molecularFormula := m.molecularFormula)
  {
  }

  /** When the parsed isotopes come in table order, the abundance a molecule is built with is
      also what the positional assignment of molecule.py:301-302 computes. */
  lemma {:induction false} ConstructedAsWritten(t: Table, input: string)
    requires Abundance.UniqueKeys(t) && Construct(t, input).Ok?
    requires Abundance.InTableOrder(t, Construct(t, input).value.isotopes)
    ensures var m := Construct(t, input).value;
            Abundance.AbundanceAsWritten(t, m.isotopes, m.counts) == Ok(m.abundance)
  {
    var m := Construct(t, input).value;
    ConstructIsParse(t, input);
    var r := Abundance.RelativeAbundance(t, m.isotopes, m.counts);
    assert r == Ok(m.abundance);
    var rows := LookupAll(t, m.isotopes).value;
    assert |rows| == |m.isotopes| && |rows| == |m.counts|;
    Abundance.AsWrittenInTableOrder(t, m.isotopes, m.counts);
  }

  /** Consistency does not depend on the abundance or the formula. */
  lemma ConsistentUpdate(t: Table, p: MolState, a: Float, f: string)
    requires Consistent(t, p)
    ensures Consistent(t, p.(abundance := a, molecularFormula := f))
  {
  }
}
