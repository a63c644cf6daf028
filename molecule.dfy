/** The Molecule class of interference_calculator/molecule.py. The model first states, as
    functions of the attributes, what parse() and the constructor compute; the class then
    computes the same attributes step by step, and its methods are proved to agree with those
    functions. */
module Molecules {
  import opened Wrappers
  import opened Numeric
  import opened Text
  import opened IsotopeTable
  import opened Grammar
  import opened GrammarLaws
  import opened Units
  import opened Seqs
  import opened Templates
  import opened Formulas
  import Abundance

  /** The attributes of a Molecule. A missing abundance in the table is an absent value. */
  datatype MolState = MolState(
    input: string,
    mass: real,
    abundance: Float,
    charge: nat,
    chargeSign: string,
    elements: seq<string>,
    isotopes: seq<string>,
    counts: seq<nat>,
    atomicNumbers: seq<nat>,
    atomicMasses: seq<int>,
    masses: seq<real>,
    abundances: seq<Option<real>>,
    molecularFormula: string)

  /** The attributes __init__ sets before it parses. */
  function Fresh(input: string): MolState {
    MolState(input, 0.0, Finite(1.0), 0, "", [], [], [], [], [], [], [], "")
  }

  // Column projections of the resolved entries and of the table rows.
  function ResolvedMass(r: Resolved): int { r.atomicMass }
  function ResolvedElement(r: Resolved): string { r.element }
  function ResolvedCount(r: Resolved): nat { r.count }
  function RowZ(r: Isotope): nat { r.z }
  function RowMass(r: Isotope): real { r.mass }
  function RowAbundance(r: Isotope): Option<real> { r.abundance }

  /** The charge of a parsed charge token: none for the neutral signs and for no sign, one
      for a sign without digits, the digits' value otherwise. */
  function ChargeOf(c: ChargeTok): nat
    requires AllDigits(c.count)
  {
    if c.sign == "o" || c.sign == "0" || c.sign == "" then 0
    else if c.count == [] then 1
    else DigitsValue(c.count)
  }

  /** The electron mass correction: one electron less per charge for '+', one more for '-'. */
  function ElectronShift(sign: string, charge: nat): real {
    if sign == "+" then -(ElectronMass * charge as real)
    else if sign == "-" then ElectronMass * charge as real
    else 0.0
  }

  /** sum(m * c for m, c in zip(masses, counts)) */
  function ZipDot(ms: seq<real>, cs: seq<nat>): real {
    var k := Min(|ms|, |cs|);
    Dot(ms[..k], cs[..k])
  }

  /** The units after the merge loop, in sorted(data.keys()) order. */
  function Entries(us: seq<Unit>): (es: seq<Entry>)
    requires CountDigits(us)
  {
    SortEntries(Merge(us))
  }

  lemma {:induction false} WfCountDigits(us: seq<Unit>)
    requires AllWf(us)
    ensures CountDigits(us)
  {
    forall i | 0 <= i < |us| ensures AllDigits(us[i].count) {
      AllWfIndex(us, i);
    }
  }

  /** The resolved entries appended to the mass number, element, isotope and count columns. */
  function WithUnits(s: MolState, rs: seq<Resolved>): MolState {
    s.(atomicMasses := s.atomicMasses + MapSeq(rs, ResolvedMass),
       elements := s.elements + MapSeq(rs, ResolvedElement),
       isotopes := s.isotopes + MapSeq(rs, IsotopeKey),
       counts := s.counts + MapSeq(rs, ResolvedCount))
  }

  /** The table rows appended to the atomic number, mass and abundance columns. */
  function WithRows(s: MolState, rows: seq<Isotope>): MolState {
    s.(atomicNumbers := s.atomicNumbers + MapSeq(rows, RowZ),
       masses := s.masses + MapSeq(rows, RowMass),
       abundances := s.abundances + MapSeq(rows, RowAbundance))
  }

  /** The charge and sign set, and the masses times the counts and the electron correction
      added to the mass. */
  function WithCharge(s: MolState, c: ChargeTok): MolState
    requires AllDigits(c.count)
  {
    s.(mass := s.mass + ZipDot(s.masses, s.counts) + ElectronShift(c.sign, ChargeOf(c)),
       charge := ChargeOf(c),
       chargeSign := c.sign)
  }

  /** The resolution loop's effect: the entries resolved and appended to the columns. */
  function ResolveSpec(t: Table, es: seq<Entry>, s: MolState): Result<MolState> {
    var rs :- ResolveAll(t, es);
    Ok(WithUnits(s, rs))
  }

  /** The lookup loop's effect: the rows of all isotopes held appended to the columns. */
  function LookupSpec(t: Table, s: MolState): Result<MolState> {
    var rows :- LookupAll(t, s.isotopes);
    Ok(WithRows(s, rows))
  }

  /** parse(): nothing for an empty input; otherwise the stripped input is parsed, the
      merged and sorted entries are resolved and appended to the columns, every isotope held
      (the earlier ones too) is looked up in the table, and the mass, charge and sign are
      computed. The first failure is the result. */
  function ParseSpec(t: Table, s: MolState): (r: Result<MolState>)
    ensures r.Ok? ==> r.value.abundance == s.abundance && r.value.molecularFormula == s.molecularFormula
  {
    if s.input == [] then Ok(s)
    else
      var input := Strip(s.input);
      var p :- ParseFormula(input);
      ParseFormulaWf(input);
      WfCountDigits(p.units);
      var s1 :- ResolveSpec(t, Entries(p.units), s.(input := input));
      var s2 :- LookupSpec(t, s1);
      Ok(WithCharge(s2, p.charge))
  }

  /** What formula() reads from a molecule. */
  function CompositionOf(s: MolState): Composition {
    Composition(s.elements, s.atomicMasses, s.counts, s.charge, s.chargeSign)
  }

  /** Molecule(input): parse, relative abundance (each count attached to its own isotope's
      row), then the default formula. */
  function Construct(t: Table, input: string): Result<MolState> {
    var m :- ParseSpec(t, Fresh(input));
    var a :- Abundance.RelativeAbundance(t, m.isotopes, m.counts);
    var f :- FormulaText(t, CompositionOf(m), Defaults);
    Ok(m.(abundance := a, molecularFormula := f))
  }

  // ---------------------------------------------------------------------------------------
  // The class

  class Molecule {
    var input: string
    var mass: real
    var abundance: Float
    var charge: nat
    var chargeSign: string
    var elements: seq<string>
    var isotopes: seq<string>
    var counts: seq<nat>
    var atomicNumbers: seq<nat>
    var atomicMasses: seq<int>
    var masses: seq<real>
    var abundances: seq<Option<real>>
    var molecularFormula: string

    function State(): MolState
      reads this
    {
      MolState(input, mass, abundance, charge, chargeSign, elements, isotopes, counts,
               atomicNumbers, atomicMasses, masses, abundances, molecularFormula)
    }

    /** The attribute defaults of __init__, before it parses. */
    constructor Init(s: string)
      ensures State() == Fresh(s)
    {
      input := s;
      mass := 0.0;
      abundance := Finite(1.0);
      charge := 0;
      chargeSign := "";
      elements := [];
      isotopes := [];
      counts := [];
      atomicNumbers := [];
      atomicMasses := [];
      masses := [];
      abundances := [];
      molecularFormula := "";
    }

    /** parse(). On success the attributes are those ParseSpec gives; on failure the error is
        the first one ParseSpec meets. */
    method Parse(t: Table) returns (out: Outcome)
      modifies this
      ensures out.Pass? <==> ParseSpec(t, old(State())).Ok?
      ensures out.Pass? ==> State() == ParseSpec(t, old(State())).value
      ensures out.Fail? ==> ParseSpec(t, old(State())) == Err(out.error)
    {
      var r := ParseValues(t, State());
      if r.Err? {
        return Fail(r.error);
      }
      SetState(r.value);
      return Pass;
    }

    /** relative_abundance(), each count attached to its own isotope's row; on success only
        the abundance changes. */
    method RelativeAbundance(t: Table) returns (out: Outcome)
      modifies this
      ensures out.Pass? <==> Abundance.RelativeAbundance(t, old(isotopes), old(counts)).Ok?
      ensures out.Pass? ==>
                State() == old(State()).(abundance := Abundance.RelativeAbundance(t, old(isotopes), old(counts)).value)
      ensures out.Fail? ==> Abundance.RelativeAbundance(t, old(isotopes), old(counts)) == Err(out.error)
    {
      var a := AbundanceValue(t, isotopes, counts);
      if a.Err? {
        return Fail(a.error);
      }
      abundance := a.value;
      return Pass;
    }

    /** formula(style, HtoD, show_charge, all_isotopes, template). */
    method Formula(t: Table, o: Options) returns (r: Result<string>)
      ensures r == FormulaText(t, CompositionOf(State()), o)
    {
      r := FormulaOf(t, Composition(elements, atomicMasses, counts, charge, chargeSign), o);
    }

    /** Every attribute takes its value from s. */
    method SetState(s: MolState)
      modifies this
      ensures input == s.input && mass == s.mass && abundance == s.abundance && charge == s.charge
      ensures chargeSign == s.chargeSign && elements == s.elements && isotopes == s.isotopes
      ensures counts == s.counts && atomicNumbers == s.atomicNumbers && atomicMasses == s.atomicMasses
      ensures masses == s.masses && abundances == s.abundances && molecularFormula == s.molecularFormula
    {
      input := s.input;
      mass := s.mass;
      abundance := s.abundance;
      charge := s.charge;
      chargeSign := s.chargeSign;
      elements := s.elements;
      isotopes := s.isotopes;
      counts := s.counts;
      atomicNumbers := s.atomicNumbers;
      atomicMasses := s.atomicMasses;
      masses := s.masses;
      abundances := s.abundances;
      molecularFormula := s.molecularFormula;
    }
  }

  /** The body of parse() on the attribute values. */
  method ParseValues(t: Table, s: MolState) returns (r: Result<MolState>)
    ensures r == ParseSpec(t, s)
  {
    if s.input == [] {
      return Ok(s);
    }
    var input := Strip(s.input);
    var parsed := ParseFormula(input);
    if parsed.Err? {
      return Err(parsed.error);
    }
    var p := parsed.value;
    ParseFormulaWf(input);
    WfCountDigits(p.units);
    var data := MergeUnits(p.units);
    var es := SortEntries(data);
    var resolved := ResolveEntries(t, es, s.(input := input));
    if resolved.Err? {
      ResolveFails(t, s, p);
      return Err(resolved.error);
    }
    var s1 := resolved.value;
    var found := LookupRows(t, s1);
    if found.Err? {
      LookupFails(t, s, p, s1);
      return Err(found.error);
    }
    var s2 := found.value;
    var total := SumMasses(s2.mass, s2.masses, s2.counts);

    // Charge and sign, and the electrons they add or remove.
    var sign := p.charge.sign;
    var z: nat;
    if sign == "o" || sign == "0" || sign == "" {
      z := 0;
    } else {
      z := if p.charge.count == [] then 1 else DigitsValue(p.charge.count);
    }
    if sign == "+" {
      total := total - ElectronMass * z as real;
    } else if sign == "-" {
      total := total + ElectronMass * z as real;
    }
    ParseSpecOk(t, s, p, s1, s2);
    ChargeStep(s2, p.charge, total, z);
    return Ok(s2.(mass := total, charge := z, chargeSign := sign));
  }

  lemma {:induction false} ResolveFails(t: Table, s: MolState, p: Parsed)
    requires s.input != [] && ParseFormula(Strip(s.input)) == Ok(p)
    requires WfParsed(p) && CountDigits(p.units)
    requires ResolveSpec(t, Entries(p.units), s.(input := Strip(s.input))).Err?
    ensures ParseSpec(t, s) == Err(ResolveSpec(t, Entries(p.units), s.(input := Strip(s.input))).error)
  {
  }

  lemma {:induction false} LookupFails(t: Table, s: MolState, p: Parsed, s1: MolState)
    requires s.input != [] && ParseFormula(Strip(s.input)) == Ok(p)
    requires WfParsed(p) && CountDigits(p.units)
    requires ResolveSpec(t, Entries(p.units), s.(input := Strip(s.input))) == Ok(s1)
    requires LookupSpec(t, s1).Err?
    ensures ParseSpec(t, s) == Err(LookupSpec(t, s1).error)
  {
  }

  lemma {:induction false} ChargeStep(s: MolState, c: ChargeTok, total: real, z: nat)
    requires AllDigits(c.count) && z == ChargeOf(c)
    requires total == s.mass + ZipDot(s.masses, s.counts) + ElectronShift(c.sign, z)
    ensures s.(mass := total, charge := z, chargeSign := c.sign) == WithCharge(s, c)
  {
  }

  /** ParseSpec once every step has succeeded. */
  lemma {:induction false} ParseSpecOk(t: Table, s: MolState, p: Parsed, s1: MolState, s2: MolState)
    requires s.input != [] && ParseFormula(Strip(s.input)) == Ok(p)
    requires WfParsed(p) && CountDigits(p.units)
    requires ResolveSpec(t, Entries(p.units), s.(input := Strip(s.input))) == Ok(s1)
    requires LookupSpec(t, s1) == Ok(s2)
    ensures ParseSpec(t, s) == Ok(WithCharge(s2, p.charge))
  {
  }

  /** The merge loop: units with the same label share one entry and their counts add up. */
  method MergeUnits(us: seq<Unit>) returns (data: seq<Entry>)
    requires CountDigits(us)
    ensures data == Merge(us)
  {
    data := [];
    var i := 0;
    while i < |us|
      invariant 0 <= i <= |us|
      invariant CountDigits(us[..i])
      invariant data == Merge(us[..i])
    {
      var u := us[i];
      var key := u.atomicMass + u.element;
      var count := if u.count == [] then 1 else DigitsValue(u.count);
      ghost var before := data;
      match Find(data, key) {
        case None =>
          data := data + [Entry(key, u.atomicMass, u.element, count)];
        case Some(k) =>
          data := data[k := data[k].(count := data[k].count + count)];
      }
      assert data == AddUnit(before, u);
      MergeStep(us, i);
      i := i + 1;
    }
    assert us[..i] == us;
  }

  /** One more unit merged into the entries of the units before it. */
  lemma MergeStep(us: seq<Unit>, i: nat)
    requires CountDigits(us) && i < |us|
    ensures CountDigits(us[..i]) && CountDigits(us[..i + 1])
    ensures Merge(us[..i + 1]) == AddUnit(Merge(us[..i]), us[i])
  {
    assert us[..i + 1][..i] == us[..i];
  }

  /** The loop over the sorted entries: each is resolved to an isotope whose mass number,
      element, key and count are appended to the given columns; the first entry that cannot
      be resolved stops it. */
  method ResolveEntries(t: Table, es: seq<Entry>, s: MolState) returns (r: Result<MolState>)
    ensures r == ResolveSpec(t, es, s)
  {
    var ams, els, isos, cnts := s.atomicMasses, s.elements, s.isotopes, s.counts;
    ghost var rs: seq<Resolved> := [];
    var j := 0;
    while j < |es|
      invariant 0 <= j <= |es| && |rs| == j
      invariant forall k :: 0 <= k < j ==> Resolve(t, es[k]) == Ok(rs[k])
      invariant ams == s.atomicMasses + MapSeq(rs, ResolvedMass)
      invariant els == s.elements + MapSeq(rs, ResolvedElement)
      invariant isos == s.isotopes + MapSeq(rs, IsotopeKey)
      invariant cnts == s.counts + MapSeq(rs, ResolvedCount)
    {
      var x :- Resolve(t, es[j]);
      MapSeqAppend(rs, x, ResolvedMass);
      MapSeqAppend(rs, x, ResolvedElement);
      MapSeqAppend(rs, x, IsotopeKey);
      MapSeqAppend(rs, x, ResolvedCount);
      ams, els := ams + [x.atomicMass], els + [x.element];
      isos, cnts := isos + [IntToString(x.atomicMass) + x.element], cnts + [x.count];
      rs := rs + [x];
      j := j + 1;
    }
    assert ResolveAll(t, es).value == rs;
    return Ok(s.(atomicMasses := ams, elements := els, isotopes := isos, counts := cnts));
  }

  /** The loop over every isotope held: its table row's atomic number, mass and abundance are
      appended to the given columns; an isotope without a row stops it. */
  method LookupRows(t: Table, s: MolState) returns (r: Result<MolState>)
    ensures r == LookupSpec(t, s)
  {
    var zs, ms, abs := s.atomicNumbers, s.masses, s.abundances;
    ghost var rows: seq<Isotope> := [];
    var k := 0;
    while k < |s.isotopes|
      invariant 0 <= k <= |s.isotopes| && |rows| == k
      invariant forall n :: 0 <= n < k ==> FindKey(t, s.isotopes[n]).Some? && rows[n] == t[FindKey(t, s.isotopes[n]).value]
      invariant zs == s.atomicNumbers + MapSeq(rows, RowZ)
      invariant ms == s.masses + MapSeq(rows, RowMass)
      invariant abs == s.abundances + MapSeq(rows, RowAbundance)
    {
      var found := FindKey(t, s.isotopes[k]);
      if found.None? {
        return Err(LookupError("single positional indexer is out-of-bounds"));
      }
      var row := t[found.value];
      MapSeqAppend(rows, row, RowZ);
      MapSeqAppend(rows, row, RowMass);
      MapSeqAppend(rows, row, RowAbundance);
      zs, ms, abs := zs + [row.z], ms + [row.mass], abs + [row.abundance];
      rows := rows + [row];
      k := k + 1;
    }
    assert LookupAll(t, s.isotopes).value == rows;
    return Ok(s.(atomicNumbers := zs, masses := ms, abundances := abs));
  }

  /** The mass loop: every mass times its count, over zip(masses, counts), added to start. */
  method SumMasses(start: real, ms: seq<real>, cs: seq<nat>) returns (total: real)
    ensures total == start + ZipDot(ms, cs)
  {
    total := start;
    var n := Min(|ms|, |cs|);
    var q := 0;
    while q < n
      invariant 0 <= q <= n
      invariant total == start + Dot(ms[..q], cs[..q])
    {
      assert ms[..q + 1][..q] == ms[..q] && cs[..q + 1][..q] == cs[..q];
      total := total + ms[q] * cs[q] as real;
      q := q + 1;
    }
  }

  /** Molecule(input): the attribute defaults, parse(), relative_abundance(), and the
      default formula stored as molecular_formula. */
  method New(t: Table, input: string) returns (r: Result<Molecule>)
    ensures r.Ok? <==> Construct(t, input).Ok?
    ensures r.Ok? ==> fresh(r.value) && r.value.State() == Construct(t, input).value
    ensures r.Err? ==> Construct(t, input) == Err(r.error)
  {
    var m := new Molecule.Init(input);
    var parsed := m.Parse(t);
    if parsed.Fail? {
      return Err(parsed.error);
    }
    ghost var s1 := m.State();
    var weighed := m.RelativeAbundance(t);
    if weighed.Fail? {
      return Err(weighed.error);
    }
    var f := m.Formula(t, Defaults);
    if f.Err? {
      return Err(f.error);
    }
    m.molecularFormula := f.value;
    assert CompositionOf(m.State()) == CompositionOf(s1);
    return Ok(m);
  }


  /** The body of relative_abundance(): the rows of the isotopes, one probability per parent
      group, and their product. */
  method AbundanceValue(t: Table, isotopes: seq<string>, counts: seq<nat>) returns (r: Result<Float>)
    ensures r == Abundance.RelativeAbundance(t, isotopes, counts)
  {
    var found := LookupAll(t, isotopes);
    if found.Err? || !Abundance.Distinct(isotopes) || |found.value| != |counts| {
      return Err(Abundance.LengthMismatch);
    }
    var perElement := GroupLoop(found.value, counts, Abundance.Parents(found.value));
    var product := ProductLoop(perElement);
    return Ok(product);
  }

  /** The loop over the parent isotopes: the abundance of each group, in order. */
  method GroupLoop(rows: seq<Isotope>, counts: seq<nat>, parents: seq<string>) returns (perElement: seq<Float>)
    requires |rows| == |counts|
    requires forall p :: p in parents ==> Abundance.HasMajor(rows, p)
    ensures perElement == Abundance.GroupValues(rows, counts, parents)
  {
    perElement := [];
    var i := 0;
    while i < |parents|
      invariant 0 <= i <= |parents|
      invariant perElement == Abundance.GroupValues(rows, counts, parents[..i])
    {
      assert parents[..i + 1][..i] == parents[..i];
      var g := Abundance.Group(rows, counts, parents[i]);
      var n := Abundance.GroupCount(g);
      var value: Float;
      if |g| == 1 {
        value := Pow(g[0].0, n);
      } else {
        value := Mul(Finite(Factorial(n) as real / Abundance.FactorialProduct(g) as real), Abundance.PowProduct(g));
      }
      perElement := perElement + [value];
      i := i + 1;
    }
    assert parents[..i] == parents;
  }

  /** numpy.prod as a running product. */
  method ProductLoop(xs: seq<Float>) returns (product: Float)
    ensures product == Product(xs)
  {
    product := Finite(1.0);
    var j := 0;
    while j < |xs|
      invariant 0 <= j <= |xs|
      invariant product == Product(xs[..j])
    {
      assert xs[..j + 1][..j] == xs[..j];
      product := Mul(product, xs[j]);
      j := j + 1;
    }
    assert xs[..j] == xs;
  }

  /** The body of formula(): the mass, element and count texts, the HtoD loop, the template,
      the charge text, the units loop and the final join. */
  method FormulaOf(t: Table, c: Composition, o: Options) returns (r: Result<string>)
    ensures r == FormulaText(t, c, o)
  {
    var amass := MapSeq(c.atomicMasses, IntToString);
    var count := MapSeq(c.counts, CountText);
    var elem := c.elements;
    if o.htoD {
      amass, elem := HtoDLoop(amass, elem);
    }
    assert Zip3(amass, elem, count) == Spelled(c, o.htoD) by {
      assert amass == RenamedMasses(MapSeq(c.atomicMasses, IntToString), c.elements, o.htoD);
      assert elem == RenamedElements(MapSeq(c.atomicMasses, IntToString), c.elements, o.htoD);
    }
    var st := StyleTemplate(o.style, o.custom);
    if st.Err? {
      return Err(st.error);
    }
    var templ := st.value;
    var charge := ChargeText(templ, c.charge, c.chargeSign, o.showCharge);
    var units := UnitsLoop(t, templ, Zip3(amass, elem, count), o.allIsotopes);
    if units.Err? {
      return Err(units.error);
    }
    var molecule := units.value;
    if charge != [] {
      var ch := Format(templ.charge, charge);
      if ch.Err? {
        return Err(ch.error);
      }
      molecule := molecule + [ch.value];
    }
    return Ok(templ.begin + Join(templ.majorJoin, molecule) + templ.end);
  }

  /** The HtoD loop over zip(amass, elem): 1H loses its mass text, 2H becomes D. */
  method HtoDLoop(amass0: seq<string>, elem0: seq<string>) returns (amass: seq<string>, elem: seq<string>)
    ensures amass == RenamedMasses(amass0, elem0, true)
    ensures elem == RenamedElements(amass0, elem0, true)
  {
    amass, elem := amass0, elem0;
    var n := 0;
    var m := Min(|amass|, |elem|);
    while n < m
      invariant 0 <= n <= m
      invariant |amass| == |amass0| && |elem| == |elem0|
      invariant forall k :: 0 <= k < n ==> amass[k] == Rename(amass0[k], elem0[k]).0
      invariant forall k :: 0 <= k < n ==> elem[k] == Rename(amass0[k], elem0[k]).1
      invariant forall k :: n <= k < |amass| ==> amass[k] == amass0[k]
      invariant forall k :: n <= k < |elem| ==> elem[k] == elem0[k]
    {
      if elem[n] == "H" {
        if amass[n] == "1" {
          amass := amass[n := ""];
        } else if amass[n] == "2" {
          amass := amass[n := ""];
          elem := elem[n := "D"];
        }
      }
      n := n + 1;
    }
  }

  /** The units loop: each unit's text in turn, stopping at the first that fails. */
  method UnitsLoop(t: Table, templ: Template, units: seq<(string, string, string)>, all: bool)
    returns (r: Result<seq<string>>)
    ensures r == UnitTexts(t, templ, units, all)
  {
    var molecule: seq<string> := [];
    var i := 0;
    while i < |units|
      invariant 0 <= i <= |units| && |molecule| == i
      invariant forall k :: 0 <= k < i ==> UnitText(t, templ, units[k], all) == Ok(molecule[k])
    {
      var u := UnitText(t, templ, units[i], all);
      if u.Err? {
        FirstFailure(t, templ, units, all, i);
        return Err(u.error);
      }
      molecule := molecule + [u.value];
      i := i + 1;
    }
    UnitsPass(t, templ, units, all, molecule);
    return Ok(molecule);
  }

  /** The units loop stops at the first unit that fails, with that unit's error. */
  lemma {:induction false} FirstFailure(t: Table, templ: Template, us: seq<(string, string, string)>, all: bool, i: nat)
    requires i < |us| && UnitText(t, templ, us[i], all).Err?
    requires forall k :: 0 <= k < i ==> UnitText(t, templ, us[k], all).Ok?
    ensures UnitTexts(t, templ, us, all) == Err(UnitText(t, templ, us[i], all).error)
  {
    var r := UnitTexts(t, templ, us, all);
    var j :| 0 <= j < |us| && UnitText(t, templ, us[j], all) == Err(r.error)
             && forall k :: 0 <= k < j ==> UnitText(t, templ, us[k], all).Ok?;
  }

  /** When every unit renders, the units loop yields exactly their texts. */
  lemma {:induction false} UnitsPass(t: Table, templ: Template, us: seq<(string, string, string)>, all: bool, texts: seq<string>)
    requires |texts| == |us|
    requires forall k :: 0 <= k < |us| ==> UnitText(t, templ, us[k], all) == Ok(texts[k])
    ensures UnitTexts(t, templ, us, all) == Ok(texts)
  {
    var r := UnitTexts(t, templ, us, all);
    assert r.Ok? by {
      forall j | 0 <= j < |us| ensures UnitText(t, templ, us[j], all).Ok? {
        assert UnitText(t, templ, us[j], all) == Ok(texts[j]);
      }
    }
    assert r.value == texts;
  }
}
