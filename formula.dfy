/** Molecule.formula of interference_calculator/molecule.py as a function of what it reads from
    the molecule: the per-unit mass numbers, elements and counts, and the charge. The method on
    the Molecule class computes the same text step by step. */
module Formulas {
  import opened Wrappers
  import opened Text
  import opened IsotopeTable
  import opened Grammar
  import opened GrammarLaws
  import opened Templates
  import opened Seqs
  import opened Units

  /** The fields of a molecule that formula() reads. */
  datatype Composition = Composition(
    elements: seq<string>,
    atomicMasses: seq<int>,
    counts: seq<nat>,
    charge: nat,
    chargeSign: string)

  /** The keyword arguments of formula(). An absent custom template stands for the empty dict. */
  datatype Options = Options(
    style: string,
    htoD: bool,
    showCharge: bool,
    allIsotopes: bool,
    custom: Option<Template>)

  /** formula() called without arguments. */
  const Defaults: Options := Options("plain", true, true, false, None)

  /** A count of one (or zero) is not printed; a larger one is printed in decimal. */
  function CountText(c: nat): (r: string)
    ensures r == [] <==> c <= 1
    ensures c > 1 ==> ParseNat(r) == Some(c)
  {
    if c > 1 then NatToStringRoundTrip(c); NatToString(c) else ""
  }

  /** The HtoD rewrite of one (mass text, element) pair: 1H loses its mass, 2H becomes D. */
  function Rename(am: string, el: string): (string, string) {
    if el == "H" && am == "1" then ("", "H")
    else if el == "H" && am == "2" then ("", "D")
    else (am, el)
  }

  /** The mass texts after the HtoD loop, which runs over zip(amass, elem). */
  function RenamedMasses(ams: seq<string>, els: seq<string>, htoD: bool): (r: seq<string>)
    ensures |r| == |ams|
  {
    seq(|ams|, i requires 0 <= i < |ams| => if htoD && i < |els| then Rename(ams[i], els[i]).0 else ams[i])
  }

  /** The element symbols after the HtoD loop. */
  function RenamedElements(ams: seq<string>, els: seq<string>, htoD: bool): (r: seq<string>)
    ensures |r| == |els|
  {
    seq(|els|, i requires 0 <= i < |els| => if htoD && i < |ams| then Rename(ams[i], els[i]).1 else els[i])
  }

  function Min(a: nat, b: nat): nat { if a < b then a else b }

  /** zip(amass, elem, count): as long as the shortest of the three. */
  function Zip3(ams: seq<string>, els: seq<string>, cts: seq<string>): (r: seq<(string, string, string)>)
    ensures |r| == Min(Min(|ams|, |els|), |cts|)
    ensures forall i :: 0 <= i < |r| ==> r[i] == (ams[i], els[i], cts[i])
  {
    seq(Min(Min(|ams|, |els|), |cts|), i requires 0 <= i < Min(Min(|ams|, |els|), |cts|) => (ams[i], els[i], cts[i]))
  }

  /** The charge unit's text before it is formatted: empty when the charge is not shown or is
      zero, the sign alone for a charge of one, and digits then the sign otherwise. A '-' sign is
      spelled as the template's minus entry when that entry is not empty. */
  function ChargeText(templ: Template, charge: nat, sign: string, show: bool): string {
    if !show then ""
    else
      var s := if sign == "-" && templ.minus != "" then templ.minus else sign;
      if charge == 0 then "" else if charge == 1 then s else NatToString(charge) + s
  }

  /** The mass part of one unit: nothing for an absent mass, nothing for a major isotope unless
      all isotopes are asked for, and the formatted mass number otherwise. */
  function MassText(t: Table, templ: Template, am: string, el: string, all: bool): Result<string> {
    if am == [] || (!all && IsMajorIsotope(t, am + el)) then Ok("")
    else Format(templ.atomicMass, am)
  }

  /** One unit: mass, element and count parts joined by the template's minor join. */
  function UnitText(t: Table, templ: Template, u: (string, string, string), all: bool): Result<string> {
    var a :- MassText(t, templ, u.0, u.1, all);
    var e :- Format(templ.element, u.1);
    var c :- if u.2 == [] then Ok("") else Format(templ.count, u.2);
    Ok(Join(templ.minorJoin, [a, e, c]))
  }

  /** The units loop: every unit's text, or the error of the first unit that fails. */
  function UnitTexts(t: Table, templ: Template, us: seq<(string, string, string)>, all: bool)
    : (r: Result<seq<string>>)
    ensures r.Ok? <==> forall j :: 0 <= j < |us| ==> UnitText(t, templ, us[j], all).Ok?
    ensures r.Ok? ==> (|r.value| == |us|
                       && forall j :: 0 <= j < |us| ==> UnitText(t, templ, us[j], all) == Ok(r.value[j]))
    ensures r.Err? ==> exists j :: 0 <= j < |us| && UnitText(t, templ, us[j], all) == Err(r.error)
                          && forall k :: 0 <= k < j ==> UnitText(t, templ, us[k], all).Ok?
  {
    MapResult(us, u => UnitText(t, templ, u, all))
  }

  /** The units, and the formatted charge unit after them when there is a charge text. */
  function Parts(templ: Template, units: seq<string>, charge: string): Result<seq<string>> {
    if charge == [] then Ok(units)
    else
      var ch :- Format(templ.charge, charge);
      Ok(units + [ch])
  }

  /** The unit lists formula() builds before its units loop. */
  function Spelled(c: Composition, htoD: bool): seq<(string, string, string)> {
    var amass := MapSeq(c.atomicMasses, IntToString);
    var count := MapSeq(c.counts, CountText);
    Zip3(RenamedMasses(amass, c.elements, htoD), RenamedElements(amass, c.elements, htoD), count)
  }

  /** formula(): begin, the units and the charge unit joined by the major join, and end. A
      style without a template fails with ValueError before anything is formatted. */
  function FormulaText(t: Table, c: Composition, o: Options): (r: Result<string>)
    ensures !KnownStyle(o.style) || (o.style == "custom" && o.custom.None?) ==>
              r.Err? && r.error.ValueError?
  {
    var templ :- StyleTemplate(o.style, o.custom);
    var charge := ChargeText(templ, c.charge, c.chargeSign, o.showCharge);
    var units :- UnitTexts(t, templ, Spelled(c, o.htoD), o.allIsotopes);
    var parts :- Parts(templ, units, charge);
    Ok(templ.begin + Join(templ.majorJoin, parts) + templ.end)
  }

  // ---------------------------------------------------------------------------------------
  // Charge suffix

  /** The charge suffix: hidden with show_charge off, empty for no charge, the sign alone for
      one, digits then the sign for more; a minus sign takes the template's spelling. */
  lemma {:induction false} ChargeSuffix(templ: Template, charge: nat, sign: string, show: bool)
    ensures !show || charge == 0 ==> ChargeText(templ, charge, sign, show) == ""
    ensures show && charge > 0 && sign == "-" && templ.minus != "" ==>
              ChargeText(templ, charge, sign, show) ==
                (if charge == 1 then "" else NatToString(charge)) + templ.minus
    ensures show && charge > 0 && (sign != "-" || templ.minus == "") ==>
              ChargeText(templ, charge, sign, show) ==
                (if charge == 1 then "" else NatToString(charge)) + sign
  {
  }

  // ---------------------------------------------------------------------------------------
  // Built-in styles never fail

  function BuiltinTemplate(style: string): Option<Template> {
    if style == "html" then Some(HtmlTemplate)
    else if style == "latex" then Some(LatexTemplate)
    else if style == "mhchem" then Some(MhchemTemplate)
    else if style == "molecular" then Some(MolecularTemplate)
    else if style == "plain" || style == "isotope" then Some(IsotopeTemplate)
    else None
  }

  /** Every entry that formula() formats has exactly one automatic field. */
  ghost predicate OneField(templ: Template) {
    (exists pre, post :: Wraps(templ.atomicMass, pre, post))
    && (exists pre, post :: Wraps(templ.element, pre, post))
    && (exists pre, post :: Wraps(templ.count, pre, post))
    && (exists pre, post :: Wraps(templ.charge, pre, post))
  }

  lemma {:induction false} WrapsFormats(entry: string, pre: string, post: string, x: string)
    requires Wraps(entry, pre, post)
    ensures Format(entry, x) == Ok(pre + x + post)
  {
    FormatOneField(pre, post, x);
  }

  lemma {:induction false} WrapsOneField(templ: Template, am: (string, string), el: (string, string),
                      ct: (string, string), ch: (string, string))
    requires BuiltinWraps(templ, am, el, ct, ch)
    ensures OneField(templ)
  {
  }

  lemma {:induction false} BuiltinOneField(style: string)
    requires BuiltinTemplate(style).Some?
    ensures OneField(BuiltinTemplate(style).value)
    ensures StyleTemplate(style, None) == Ok(BuiltinTemplate(style).value)
  {
    BuiltinWrapsOneField(style);
    BuiltinSelected(style);
  }

  lemma {:induction false} BuiltinWrapsOneField(style: string)
    requires BuiltinTemplate(style).Some?
    ensures OneField(BuiltinTemplate(style).value)
  {
    BuiltinEntries();
    if style == "html" {
      WrapsOneField(HtmlTemplate, ("<sup>", "</sup>"), ("", ""), ("<sub>", "</sub>"), ("<sup>", "</sup>"));
    } else if style == "latex" {
      WrapsOneField(LatexTemplate, ("{}^{", "}"), ("{", "}"), ("_{", "}"), ("{}^{", "}"));
    } else if style == "mhchem" {
      WrapsOneField(MhchemTemplate, ("^{", "}"), ("", ""), ("", ""), ("^", ""));
    } else if style == "molecular" {
      WrapsOneField(MolecularTemplate, ("[", "]"), ("", ""), ("", ""), ("[", "]"));
    } else {
      WrapsOneField(IsotopeTemplate, ("", ""), ("", ""), ("", ""), ("", ""));
    }
  }

  lemma {:induction false} BuiltinSelected(style: string)
    requires BuiltinTemplate(style).Some?
    ensures StyleTemplate(style, None) == Ok(BuiltinTemplate(style).value)
  {
  }

  lemma {:induction false} OneFieldUnits(t: Table, templ: Template, us: seq<(string, string, string)>, all: bool)
    requires OneField(templ)
    ensures UnitTexts(t, templ, us, all).Ok?
  {
    forall j | 0 <= j < |us| ensures UnitText(t, templ, us[j], all).Ok? {
      var u := us[j];
      var p1, q1 :| Wraps(templ.atomicMass, p1, q1);
      var p2, q2 :| Wraps(templ.element, p2, q2);
      var p3, q3 :| Wraps(templ.count, p3, q3);
      WrapsFormats(templ.atomicMass, p1, q1, u.0);
      WrapsFormats(templ.element, p2, q2, u.1);
      WrapsFormats(templ.count, p3, q3, u.2);
    }
  }

  /** A template whose formatted entries each hold one field always renders, whatever the
      molecule and options. */
  lemma {:induction false} OneFieldNeverFails(t: Table, c: Composition, o: Options)
    requires StyleTemplate(o.style, o.custom).Ok? && OneField(StyleTemplate(o.style, o.custom).value)
    ensures FormulaText(t, c, o).Ok?
  {
    var templ := StyleTemplate(o.style, o.custom).value;
    OneFieldUnits(t, templ, Spelled(c, o.htoD), o.allIsotopes);
    var charge := ChargeText(templ, c.charge, c.chargeSign, o.showCharge);
    var p, q :| Wraps(templ.charge, p, q);
    WrapsFormats(templ.charge, p, q, charge);
  }

  /** The built-in styles (html, latex, mhchem, molecular, plain, isotope) never fail, and a
      style outside the list or a custom style without a template always does. */
  lemma {:induction false} StyleOutcome(t: Table, c: Composition, o: Options)
    ensures BuiltinTemplate(o.style).Some? ==> FormulaText(t, c, o).Ok?
    ensures o.style == "custom" && o.custom.None? ==> FormulaText(t, c, o).Err?
    ensures !KnownStyle(o.style) ==> FormulaText(t, c, o).Err?
  {
    if BuiltinTemplate(o.style).Some? {
      BuiltinOneField(o.style);
      assert StyleTemplate(o.style, o.custom) == StyleTemplate(o.style, None);
      OneFieldNeverFails(t, c, o);
    }
  }

  // ---------------------------------------------------------------------------------------
  // HtoD and the major isotope agree with the parser

  /** The D alias: HtoD prints 2H as D, which the parser reads back as mass 2 of H. */
  lemma {:induction false} DeuteriumRoundTrip(t: Table, key: string, count: nat)
    ensures Rename("2", "H") == ("", "D")
    ensures Resolve(t, Entry(key, "", "D", count)) == Ok(Resolved(2, "H", count))
  {
  }

  /** The row whose key is the major isotope "<a><el>" is a row of element el. */
  lemma {:induction false} MajorKeyRow(t: Table, a: nat, el: string, j: nat, b: nat, e: string)
    requires IsSymbol(el) && j < |t| && e != [] && NoDigits(e)
    requires t[j].key == NatToString(a) + el && t[j].key == NatToString(b) + e && t[j].element == e
    ensures FindElement(t, el).Some? && t[j].element == el
  {
    SymbolNoDigits(el);
    DigitsPrefixSplit(NatToString(a), el, NatToString(b), e);
  }

  /** In a valid table, a major isotope key names the major isotope of its element's first row. */
  lemma {:induction false} MajorOfFirstRow(t: Table, a: nat, el: string)
    requires ValidTable(t) && IsSymbol(el)
    requires IsMajorIsotope(t, NatToString(a) + el)
    ensures FindElement(t, el).Some? && t[FindElement(t, el).value].major == NatToString(a) + el
  {
    var i :| 0 <= i < |t| && t[i].major == NatToString(a) + el;
    var j := MajorRowOf(t, i);
    assert WellKeyed(t[j]);
    MajorKeyRow(t, a, el, j, t[j].a, t[j].element);
    var f := FindElement(t, el).value;
    SameMajor(t, f, i);
  }

  /** The row that is the major isotope of row i. */
  lemma {:induction false} MajorRowOf(t: Table, i: nat) returns (j: nat)
    requires ValidTable(t) && i < |t|
    ensures j < |t| && t[j].element == t[i].element && t[j].key == t[i].major
  {
    j :| 0 <= j < |t| && t[j].element == t[i].element && t[j].key == t[i].major;
  }

  lemma {:induction false} SameMajor(t: Table, f: nat, i: nat)
    requires ValidTable(t) && f < |t| && i < |t| && t[f].element == t[i].element
    ensures t[f].major == t[i].major
  {
  }

  /** A unit written without a mass takes the mass number of the major isotope of the
      element's first row. */
  lemma {:induction false} ResolveByMajor(t: Table, a: nat, el: string, key: string, count: nat)
    requires IsSymbol(el) && el != "D"
    requires FindElement(t, el).Some? && t[FindElement(t, el).value].major == NatToString(a) + el
    ensures Resolve(t, Entry(key, "", el, count)) == Ok(Resolved(a, el, count))
  {
    SymbolNoDigits(el);
    StripCharsOfDigitsPrefix(NatToString(a), el);
    ParseIntOfNat(a);
  }

  /** A mass number that formula() leaves out because it is the element's major isotope is the
      one the parser puts back for a unit written without a mass. */
  lemma {:induction false} MajorRoundTrip(t: Table, a: nat, el: string, key: string, count: nat)
    requires ValidTable(t) && IsSymbol(el) && el != "D"
    requires IsMajorIsotope(t, NatToString(a) + el)
    ensures MassText(t, IsotopeTemplate, NatToString(a), el, false) == Ok("")
    ensures Resolve(t, Entry(key, "", el, count)) == Ok(Resolved(a, el, count))
  {
    MajorOfFirstRow(t, a, el);
    ResolveByMajor(t, a, el, key, count);
  }
}
