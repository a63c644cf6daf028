/** formula() and the parser are inverse to each other: with HtoD off and every mass number
    printed, the isotope-notation text (style 'plain') and the molecular-notation text (style
    'molecular') of a molecule read back as the units and charge they were printed from. */
module FormulaLaws {
  import opened Wrappers
  import opened Text
  import opened IsotopeTable
  import opened Grammar
  import opened GrammarLaws
  import opened Templates
  import opened Seqs
  import opened Formulas

  /** What formula() can print so that it reads back: parallel lists, at least one unit, mass
      numbers that are not negative, element symbols, counts of at least one (a count of zero
      is printed like a count of one), and a signed charge whenever the charge is not zero. */
  predicate Printable(c: Composition) {
    |c.elements| == |c.atomicMasses| == |c.counts| > 0
    && (forall i :: 0 <= i < |c.atomicMasses| ==> c.atomicMasses[i] >= 0)
    && (forall i :: 0 <= i < |c.elements| ==> IsSymbol(c.elements[i]))
    && (forall i :: 0 <= i < |c.counts| ==> c.counts[i] >= 1)
    && (c.charge > 0 ==> c.chargeSign == "+" || c.chargeSign == "-")
  }

  /** The unit a printed mass number, element and count stand for. */
  function CanonicalUnit(am: nat, el: string, count: nat): Unit {
    Unit(NatToString(am), el, CountText(count))
  }

  function CanonicalUnits(c: Composition): (us: seq<Unit>)
    requires Printable(c)
    ensures |us| == |c.elements|
  {
    seq(|c.elements|, i requires 0 <= i < |c.elements| =>
      CanonicalUnit(c.atomicMasses[i] as nat, c.elements[i], c.counts[i]))
  }

  /** The charge token a printed charge stands for: a charge of one prints no digits. */
  function CanonicalCharge(c: Composition): ChargeTok {
    if c.charge == 0 then NoCharge
    else ChargeTok(if c.charge > 1 then NatToString(c.charge) else "", c.chargeSign)
  }

  function Canonical(c: Composition): Parsed
    requires Printable(c)
  {
    Parsed(CanonicalUnits(c), CanonicalCharge(c))
  }

  const PlainAll: Options := Options("plain", false, true, true, None)
  const MolecularAll: Options := Options("molecular", false, true, true, None)

  // ---------------------------------------------------------------------------------------
  // Helpers

  lemma {:induction false} FormatBare(x: string)
    ensures Format("{}", x) == Ok(x)
  {
    WrapsBare();
    WrapsFormats("{}", "", "", x);
    assert "" + x + "" == x;
  }

  lemma {:induction false} FormatBrackets(x: string)
    ensures Format("[{}]", x) == Ok("[" + x + "]")
  {
    WrapsBrackets();
    WrapsFormats("[{}]", "[", "]", x);
  }

  lemma {:induction false} JoinThree(sep: string, a: string, b: string, c: string)
    ensures Join(sep, [a, b, c]) == a + sep + b + sep + c
  {
    JoinPrepend(sep, b, [c]);
    assert [b, c] == [b] + [c];
    JoinPrepend(sep, a, [b, c]);
    assert [a, b, c] == [a] + [b, c];
  }

  lemma {:induction false} CanonicalWf(c: Composition)
    requires Printable(c)
    ensures WfParsed(Canonical(c))
    ensures Canonical(c).units[0].atomicMass != []
  {
    AllWfOf(CanonicalUnits(c));
    if c.charge > 1 {
      NatToStringNoLeadingZero(c.charge);
    }
  }

  lemma {:induction false} AllWfOf(us: seq<Unit>)
    requires forall i :: 0 <= i < |us| ==> WfUnit(us[i])
    ensures AllWf(us)
    decreases |us|
  {
    if us != [] {
      assert forall i :: 0 <= i < |us[1..]| ==> us[1..][i] == us[i + 1];
      AllWfOf(us[1..]);
    }
  }

  /** With HtoD off, the unit lists are the printed mass numbers, the symbols and the counts. */
  lemma {:induction false} SpelledPlain(c: Composition)
    requires Printable(c)
    ensures |Spelled(c, false)| == |c.elements|
    ensures forall i :: 0 <= i < |c.elements| ==>
              Spelled(c, false)[i] == (NatToString(c.atomicMasses[i] as nat), c.elements[i], CountText(c.counts[i]))
  {
    var amass := MapSeq(c.atomicMasses, IntToString);
    assert RenamedMasses(amass, c.elements, false) == amass;
    assert RenamedElements(amass, c.elements, false) == c.elements;
  }

  // ---------------------------------------------------------------------------------------
  // Isotope notation

  lemma {:induction false} PlainUnitText(t: Table, u: (string, string, string))
    ensures UnitText(t, IsotopeTemplate, u, true) == Ok(u.0 + u.1 + u.2)
  {
    FormatBare(u.0);
    FormatBare(u.1);
    FormatBare(u.2);
    var a := if u.0 == [] then "" else u.0;
    var c := if u.2 == [] then "" else u.2;
    JoinThree("", a, u.1, c);
    assert a + "" + u.1 + "" + c == u.0 + u.1 + u.2;
  }

  lemma {:induction false} PlainUnits(t: Table, c: Composition)
    requires Printable(c)
    ensures UnitTexts(t, IsotopeTemplate, Spelled(c, false), true) == Ok(UnitParts(CanonicalUnits(c)))
  {
    var us := Spelled(c, false);
    var ps := CanonicalUnits(c);
    SpelledPlain(c);
    forall j | 0 <= j < |us| ensures UnitText(t, IsotopeTemplate, us[j], true).Ok? {
      PlainUnitText(t, us[j]);
    }
    var r := UnitTexts(t, IsotopeTemplate, us, true).value;
    forall j | 0 <= j < |us| ensures r[j] == UnitParts(ps)[j] {
      PlainUnitText(t, us[j]);
      UnitPartsIndex(ps, j);
    }
    assert r == UnitParts(ps);
  }

  lemma {:induction false} PlainCharge(c: Composition)
    requires Printable(c)
    ensures ChargeText(IsotopeTemplate, c.charge, c.chargeSign, true) ==
              (if CanonicalCharge(c).sign == [] then "" else ShowIsotopeCharge(CanonicalCharge(c)))
  {
  }

  lemma {:induction false} PlainParts(c: Composition)
    requires Printable(c)
    ensures Parts(IsotopeTemplate, UnitParts(Canonical(c).units),
                  ChargeText(IsotopeTemplate, c.charge, c.chargeSign, true)) == Ok(IsotopeParts(Canonical(c)))
  {
    var p := Canonical(c);
    PlainCharge(c);
    var charge := ChargeText(IsotopeTemplate, c.charge, c.chargeSign, true);
    var parts := IsotopeParts(p);
    if c.charge == 0 {
      assert charge == [];
      assert parts == UnitParts(p.units) + [];
      assert parts == UnitParts(p.units);
      assert Parts(IsotopeTemplate, UnitParts(p.units), charge) == Ok(parts);
    } else {
      assert p.charge == CanonicalCharge(c) && p.charge.sign != [];
      assert charge == ShowIsotopeCharge(p.charge) && charge != [];
      FormatBare(charge);
      assert IsotopeTemplate.charge == "{}";
      assert parts == UnitParts(p.units) + [charge];
      assert Parts(IsotopeTemplate, UnitParts(p.units), charge) == Ok(parts);
    }
  }

  /** formula(style='plain', HtoD=False, all_isotopes=True) prints the isotope notation of the
      canonical units and charge. */
  lemma {:induction false} PlainIsIsotopeNotation(t: Table, c: Composition)
    requires Printable(c)
    ensures FormulaText(t, c, PlainAll) == Ok(ShowIsotope(Canonical(c)))
  {
    var p := Canonical(c);
    PlainUnits(t, c);
    PlainCharge(c);
    var charge := ChargeText(IsotopeTemplate, c.charge, c.chargeSign, true);
    var parts := IsotopeParts(p);
    PlainParts(c);
    assert StyleTemplate("plain", None) == Ok(IsotopeTemplate);
    assert FormulaText(t, c, PlainAll) == Ok("" + Join(" ", parts) + "");
    assert "" + Join(" ", parts) + "" == ShowIsotope(p);
  }

  /** Parsing what formula(style='plain', HtoD=False, all_isotopes=True) prints gives back the
      units and the charge it was printed from. */
  lemma {:induction false} PlainRoundTrip(t: Table, c: Composition)
    requires Printable(c)
    ensures FormulaText(t, c, PlainAll).Ok?
    ensures ParseFormula(FormulaText(t, c, PlainAll).value) == Ok(Canonical(c))
  {
    PlainIsIsotopeNotation(t, c);
    CanonicalWf(c);
    IsotopeFormulaRoundTrip(Canonical(c));
  }

  // ---------------------------------------------------------------------------------------
  // Molecular notation

  /** A bracketed mass, when there is one. */
  function Bracketed(am: string): string {
    if am == [] then "" else "[" + am + "]"
  }

  lemma {:induction false} MolecularUnitText(t: Table, u: (string, string, string))
    ensures UnitText(t, MolecularTemplate, u, true) == Ok(Bracketed(u.0) + u.1 + u.2)
  {
    var templ := MolecularTemplate;
    assert templ.atomicMass == "[{}]" && templ.element == "{}" && templ.count == "{}" && templ.minorJoin == "";
    var a := Bracketed(u.0);
    if u.0 != [] {
      FormatBrackets(u.0);
    }
    FormatBare(u.1);
    FormatBare(u.2);
    var c := if u.2 == [] then "" else u.2;
    UnitTextOfParts(t, templ, u, a, c);
    JoinThree("", a, u.1, c);
    JoinedBare(a, u.1, u.2, c);
  }

  lemma {:induction false} JoinedBare(a: string, e: string, count: string, c: string)
    requires c == (if count == [] then "" else count)
    ensures a + "" + e + "" + c == a + e + count
  {
    assert c == count;
  }

  /** A unit whose every part prints with all masses shown is its parts joined. */
  lemma {:induction false} UnitTextOfParts(t: Table, templ: Template, u: (string, string, string), a: string, c: string)
    requires u.0 == [] ==> a == ""
    requires u.0 != [] ==> Format(templ.atomicMass, u.0) == Ok(a)
    requires Format(templ.element, u.1) == Ok(u.1)
    requires (u.2 == [] ==> c == "") && (u.2 != [] ==> Format(templ.count, u.2) == Ok(c))
    ensures UnitText(t, templ, u, true) == Ok(Join(templ.minorJoin, [a, u.1, c]))
  {
  }

  /** Joining with the empty string concatenates, as ShowMolecularUnits does. */
  lemma {:induction false} JoinConcat(us: seq<Unit>, ms: seq<string>)
    requires |ms| == |us|
    requires forall j :: 0 <= j < |us| ==> ms[j] == ShowMolecularUnit(us[j])
    ensures Join("", ms) == ShowMolecularUnits(us)
    decreases |us|
  {
    if |us| == 1 {
      assert ShowMolecularUnits(us[1..]) == [];
    } else if |us| > 1 {
      JoinConcat(us[1..], ms[1..]);
    }
  }

  lemma {:induction false} JoinSnoc(xs: seq<string>, y: string)
    ensures Join("", xs + [y]) == Join("", xs) + y
    decreases |xs|
  {
    if xs != [] {
      assert (xs + [y])[1..] == xs[1..] + [y];
      JoinSnoc(xs[1..], y);
      if |xs| == 1 {
        assert xs[1..] == [];
        assert xs[1..] + [y] == [y];
      }
    }
  }

  lemma {:induction false} MolecularUnits(t: Table, c: Composition)
    requires Printable(c)
    ensures UnitTexts(t, MolecularTemplate, Spelled(c, false), true).Ok?
    ensures Join("", UnitTexts(t, MolecularTemplate, Spelled(c, false), true).value)
              == ShowMolecularUnits(CanonicalUnits(c))
  {
    var us := Spelled(c, false);
    var ps := CanonicalUnits(c);
    SpelledPlain(c);
    forall j | 0 <= j < |us| ensures UnitText(t, MolecularTemplate, us[j], true).Ok? {
      MolecularUnitText(t, us[j]);
    }
    var r := UnitTexts(t, MolecularTemplate, us, true).value;
    forall j | 0 <= j < |us| ensures r[j] == ShowMolecularUnit(ps[j]) {
      MolecularUnitText(t, us[j]);
    }
    JoinConcat(ps, r);
  }

  /** The charge unit of the molecular notation, as a list of at most one part. */
  function MolecularChargePart(c: Composition): seq<string> {
    if c.charge == 0 then [] else [ShowMolecularCharge(CanonicalCharge(c))]
  }

  lemma {:induction false} MolecularParts(c: Composition, units: seq<string>)
    requires Printable(c)
    ensures Parts(MolecularTemplate, units, ChargeText(MolecularTemplate, c.charge, c.chargeSign, true))
              == Ok(units + MolecularChargePart(c))
  {
    var charge := ChargeText(MolecularTemplate, c.charge, c.chargeSign, true);
    if c.charge == 0 {
      assert charge == [];
      assert units + [] == units;
    } else {
      assert CanonicalCharge(c).sign != [];
      assert charge == CanonicalCharge(c).count + CanonicalCharge(c).sign && charge != [];
      FormatBrackets(charge);
      assert MolecularTemplate.charge == "[{}]";
      assert "[" + charge + "]" == ShowMolecularCharge(CanonicalCharge(c));
    }
  }

  lemma {:induction false} MolecularJoin(c: Composition, units: seq<string>)
    ensures Join("", units + MolecularChargePart(c)) == Join("", units) + ShowMolecularCharge(CanonicalCharge(c))
  {
    if c.charge == 0 {
      assert units + [] == units;
      assert ShowMolecularCharge(CanonicalCharge(c)) == [];
    } else {
      JoinSnoc(units, ShowMolecularCharge(CanonicalCharge(c)));
    }
  }

  /** formula(style='molecular', HtoD=False, all_isotopes=True) prints the molecular notation
      of the canonical units and charge. */
  lemma {:induction false} MolecularIsMolecularNotation(t: Table, c: Composition)
    requires Printable(c)
    ensures FormulaText(t, c, MolecularAll) == Ok(ShowMolecular(Canonical(c)))
  {
    MolecularUnits(t, c);
    var units := UnitTexts(t, MolecularTemplate, Spelled(c, false), true).value;
    MolecularParts(c, units);
    MolecularJoin(c, units);
    var parts := units + MolecularChargePart(c);
    assert StyleTemplate("molecular", None) == Ok(MolecularTemplate);
    assert FormulaText(t, c, MolecularAll) == Ok("" + Join("", parts) + "");
    assert "" + Join("", parts) + "" == ShowMolecular(Canonical(c));
  }

  /** Parsing what formula(style='molecular', HtoD=False, all_isotopes=True) prints gives back
      the units and the charge it was printed from, in molecular notation. */
  lemma {:induction false} MolecularFormulaRoundTrip(t: Table, c: Composition)
    requires Printable(c)
    ensures FormulaText(t, c, MolecularAll).Ok?
    ensures ParseFormula(FormulaText(t, c, MolecularAll).value) == Ok(Canonical(c))
  {
    MolecularIsMolecularNotation(t, c);
    CanonicalWf(c);
    MolecularRoundTrip(Canonical(c));
  }
}
