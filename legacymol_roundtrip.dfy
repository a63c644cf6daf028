/** formula() and parse() of the regex Molecule of molecule.py read each other back: the
    isotope-notation text formula() prints by default, parsed again, gives the same isotopes,
    the same counts and the same charge, except that a charge of one is printed as a bare sign,
    which parse() reads as no charge. */
module LegacyRoundTrip {
  import opened Wrappers
  import opened Text
  import opened Grammar
  import opened IsotopeTable
  import opened Seqs
  import opened Units
  import opened Templates
  import opened LegacyMolecules
  import opened LegacyMoleculeLaws
  import GrammarLaws
  import FormulaLaws
  import Formulas

  // ---------------------------------------------------------------------------------------
  // Scanning printed text

  /** A printed part the isotope pattern reads as the groups g: digits, then an element
      symbol and digits, or a sign with nothing after it. */
  predicate Reads(p: string, g: Groups) {
    p == g.mass + g.symbol + g.count && AllDigits(g.mass) && AllDigits(g.count)
    && (IsSymbol(g.symbol) || (IsSignText(g.symbol) && g.count == ""))
  }

  lemma {:induction false} SymbolLengthOf(e: string, rest: string)
    requires IsSymbol(e) && (rest == [] || !IsLower(rest[0]))
    ensures SymbolLength(e + rest) == |e|
  {
    var s := e + rest;
    if |e| == 1 {
      assert 1 < |s| ==> s[1] == rest[0];
    } else if |e| == 2 {
      assert IsLower(s[1]);
      assert 2 < |s| ==> s[2] == rest[0];
    } else {
      assert IsLower(s[1]) && IsLower(s[2]);
    }
  }

  lemma {:induction false} MatchSign(s: string, d: nat)
    requires LeadingDigits(s) == d < |s| && IsSign(s[d]) && LeadingDigits(s[d + 1..]) == 0
    ensures IsotopeMatch(s) == Some((Groups(s[..d], s[d..d + 1], ""), d + 1))
  {
    assert IsotopeMatch(s) == Rest(s, s[..d], 1, d);
    assert s[d + 1..d + 1] == "";
  }

  lemma {:induction false} MatchSymbol(s: string, d: nat, len: nat, c: nat)
    requires LeadingDigits(s) == d < |s| && !IsSign(s[d])
    requires SymbolLength(s[d..]) == len > 0 && d + len <= |s| && LeadingDigits(s[d + len..]) == c
    ensures IsotopeMatch(s) == Some((Groups(s[..d], s[d..d + len], s[d + len..d + len + c]), d + len + c))
  {
    assert IsotopeMatch(s) == Rest(s, s[..d], len, d);
  }

  /** A part followed by nothing or by a space is one match covering the part. */
  lemma {:induction false} IsotopeMatchOf(p: string, tail: string, g: Groups)
    requires Reads(p, g) && (tail == [] || tail[0] == ' ')
    ensures IsotopeMatch(p + tail) == Some((g, |p|))
  {
    if IsSignText(g.symbol) {
      assert p + tail == g.mass + g.symbol + tail;
      SignMatch(g.mass, g.symbol, tail);
    } else {
      assert p + tail == g.mass + g.symbol + g.count + tail;
      SymbolMatch(g.mass, g.symbol, g.count, tail);
    }
  }

  lemma {:induction false} SignMatch(mass: string, sign: string, tail: string)
    requires AllDigits(mass) && IsSignText(sign) && (tail == [] || tail[0] == ' ')
    ensures IsotopeMatch(mass + sign + tail) == Some((Groups(mass, sign, ""), |mass| + 1))
  {
    var s := mass + sign + tail;
    var d := |mass|;
    assert s[..d] == mass && s[d..] == sign + tail && s[d..d + 1] == sign && s[d + 1..] == tail;
    assert s == mass + (sign + tail) && (sign + tail)[0] == sign[0] && s[d] == sign[0];
    GrammarLaws.LeadingDigitsOf(mass, sign + tail);
    assert LeadingDigits(tail) == 0 by {
      assert tail != [] ==> !IsDigit(tail[0]);
    }
    MatchSign(s, d);
  }

  lemma {:induction false} SymbolMatch(mass: string, e: string, count: string, tail: string)
    requires AllDigits(mass) && IsSymbol(e) && AllDigits(count) && (tail == [] || tail[0] == ' ')
    ensures IsotopeMatch(mass + e + count + tail)
            == Some((Groups(mass, e, count), |mass| + |e| + |count|))
  {
    var s := mass + e + count + tail;
    MassPart(s, mass, e, count, tail);
    SymbolPart(s, mass, e, count, tail);
    CountPart(s, mass, e, count, tail);
    ReadParts(s, mass, e, count);
  }

  /** The three parts of a match, read off a string without knowing how it was built. */
  lemma {:induction false} ReadParts(s: string, mass: string, e: string, count: string)
    requires LeadingDigits(s) == |mass| < |s| && !IsSign(s[|mass|]) && s[..|mass|] == mass
    requires SymbolLength(s[|mass|..]) == |e| > 0 && |mass| + |e| <= |s| && s[|mass|..|mass| + |e|] == e
    requires var j := |mass| + |e|;
             j + |count| <= |s| && LeadingDigits(s[j..]) == |count| && s[j..j + |count|] == count
    ensures IsotopeMatch(s) == Some((Groups(mass, e, count), |mass| + |e| + |count|))
  {
    MatchSymbol(s, |mass|, |e|, |count|);
  }

  /** The digits before the symbol of a printed part. */
  lemma {:induction false} MassPart(s: string, mass: string, e: string, count: string, tail: string)
    requires s == mass + e + count + tail && AllDigits(mass) && IsSymbol(e)
    ensures LeadingDigits(s) == |mass| < |s| && !IsSign(s[|mass|]) && s[..|mass|] == mass
  {
    var r := e + count + tail;
    assert s == mass + r && r[0] == e[0];
    GrammarLaws.LeadingDigitsOf(mass, r);
    assert s[|mass|] == e[0];
  }

  /** The symbol of a printed part. */
  lemma {:induction false} SymbolPart(s: string, mass: string, e: string, count: string, tail: string)
    requires s == mass + e + count + tail && IsSymbol(e) && AllDigits(count) && (tail == [] || tail[0] == ' ')
    ensures SymbolLength(s[|mass|..]) == |e| && |mass| + |e| <= |s| && s[|mass|..|mass| + |e|] == e
  {
    var q := count + tail;
    assert s[|mass|..] == e + q;
    NotLowerAfter(count, tail);
    SymbolLengthOf(e, q);
  }

  /** The digits after the symbol of a printed part. */
  lemma {:induction false} CountPart(s: string, mass: string, e: string, count: string, tail: string)
    requires s == mass + e + count + tail && AllDigits(count) && (tail == [] || tail[0] == ' ')
    ensures var j := |mass| + |e|;
            j + |count| <= |s| && LeadingDigits(s[j..]) == |count| && s[j..j + |count|] == count
  {
    var j := |mass| + |e|;
    assert s[j..] == count + tail;
    GrammarLaws.LeadingDigitsOf(count, tail);
  }

  /** Digits followed by nothing or a space do not start with a lower-case letter. */
  lemma {:induction false} NotLowerAfter(count: string, tail: string)
    requires AllDigits(count) && (tail == [] || tail[0] == ' ')
    ensures count + tail == [] || !IsLower((count + tail)[0])
  {
    if count != [] {
      assert (count + tail)[0] == count[0];
    } else {
      assert count + tail == tail;
    }
  }

  /** A space starts no match. */
  lemma {:induction false} SkipSpace(rest: string)
    ensures FindAll(" " + rest, false) == FindAll(rest, false)
  {
    var s := " " + rest;
    assert IsotopeMatch(s).None? by {
      assert LeadingDigits(s) == 0;
      assert s[0..] == s;
    }
    assert s[1..] == rest;
  }

  /** re.findall reads parts joined by spaces as their groups. */
  lemma {:induction false} ScanJoin(parts: seq<string>, gs: seq<Groups>)
    requires |parts| == |gs| >= 1
    requires forall i :: 0 <= i < |parts| ==> Reads(parts[i], gs[i])
    ensures FindAll(Join(" ", parts), false) == gs
    decreases |parts|
  {
    var p := parts[0];
    if |parts| == 1 {
      IsotopeMatchOf(p, [], gs[0]);
      assert p + [] == p;
      assert p[|p|..] == [];
      assert FindAll(p, false) == [gs[0]] + FindAll([], false);
    } else {
      var rest := Join(" ", parts[1..]);
      var tail := " " + rest;
      assert Join(" ", parts) == p + tail;
      IsotopeMatchOf(p, tail, gs[0]);
      assert (p + tail)[|p|..] == tail;
      SkipSpace(rest);
      ScanJoin(parts[1..], gs[1..]);
      assert FindAll(p + tail, false) == [gs[0]] + gs[1..];
    }
  }

  // ---------------------------------------------------------------------------------------
  // The notation of printed text

  lemma {:induction false} UpperCountConcat(a: string, b: string)
    ensures UpperCount(a + b) == UpperCount(a) + UpperCount(b)
    decreases |a|
  {
    if a != [] {
      assert (a + b)[1..] == a[1..] + b;
      UpperCountConcat(a[1..], b);
    } else {
      assert a + b == b;
    }
  }

  lemma {:induction false} UpperCountDigits(d: string)
    requires AllDigits(d)
    ensures UpperCount(d) == 0
    decreases |d|
  {
    if d != [] {
      UpperCountDigits(d[1..]);
    }
  }

  lemma {:induction false} UpperCountLowers(e: string)
    requires forall i :: 0 <= i < |e| ==> IsLower(e[i])
    ensures UpperCount(e) == 0
    decreases |e|
  {
    if e != [] {
      UpperCountLowers(e[1..]);
    }
  }

  /** A unit with a symbol holds one capital. */
  lemma {:induction false} OneCapital(p: string, g: Groups)
    requires Reads(p, g) && IsSymbol(g.symbol)
    ensures UpperCount(p) == 1
  {
    UpperCountConcat(g.mass + g.symbol, g.count);
    UpperCountConcat(g.mass, g.symbol);
    UpperCountDigits(g.mass);
    UpperCountDigits(g.count);
    UpperCountLowers(g.symbol[1..]);
    assert UpperCount(g.symbol) == 1 + UpperCount(g.symbol[1..]);
  }

  /** Two or more parts joined by spaces hold a space. */
  lemma {:induction false} JoinedHasSpace(parts: seq<string>)
    requires |parts| >= 2
    ensures !EmpiricalText(Join(" ", parts))
  {
    var s := Join(" ", parts);
    assert s == parts[0] + " " + Join(" ", parts[1..]);
    assert s[|parts[0]|] == ' ';
  }

  lemma {:induction false} JoinEnds(parts: seq<string>)
    requires parts != [] && forall i :: 0 <= i < |parts| ==> parts[i] != []
    ensures var s := Join(" ", parts);
            s != [] && s[0] == parts[0][0] && s[|s| - 1] == parts[|parts| - 1][|parts[|parts| - 1]| - 1]
    decreases |parts|
  {
    if |parts| > 1 {
      JoinEnds(parts[1..]);
      var rest := Join(" ", parts[1..]);
      assert Join(" ", parts) == parts[0] + " " + rest;
    }
  }

  // ---------------------------------------------------------------------------------------
  // Printable molecules

  /** What formula() prints so that parse() reads it back: aligned tuples with at least one
      isotope, each keyed by its mass number and its element symbol (neither D nor T), in
      strictly ascending key order, counted at least once, and a sign for any charge. */
  predicate Printable(m: LegacyState) {
    var n := |m.isotopes|;
    n > 0 && |m.stoichiometry| == n && |m.elements| == n && |m.unitMasses| == n
    && (forall i :: 0 <= i < n ==> IsSymbol(m.elements[i]) && m.elements[i] != "D" && m.elements[i] != "T")
    && (forall i :: 0 <= i < n ==> m.isotopes[i] == NatToString(m.unitMasses[i]) + m.elements[i])
    && (forall i :: 0 <= i < n ==> m.stoichiometry[i] >= 1)
    && (forall i, j :: 0 <= i < j < n ==> LexLess(m.isotopes[i], m.isotopes[j]))
    && (m.charge > 0 ==> IsSignText(m.chargeSign))
  }

  /** formula() called without arguments, or with HtoD given. */
  function Plain(htoD: bool): LegacyOptions {
    LegacyOptions("", htoD, true, None)
  }

  /** The groups of each printed unit. */
  function UnitGroups(m: LegacyState, htoD: bool): (gs: seq<Groups>)
    requires Printable(m)
    ensures |gs| == |m.isotopes|
  {
    var us := Spelled(m, htoD);
    seq(|m.isotopes|, i requires 0 <= i < |m.isotopes| => Groups(us[i].0, us[i].1, us[i].2))
  }

  /** The groups of the printed charge: a charge of one prints no digits. */
  function ChargeGroup(m: LegacyState): Groups
    requires m.charge > 0
  {
    Groups(if m.charge == 1 then "" else NatToString(m.charge), m.chargeSign, "")
  }

  function Printed(m: LegacyState, htoD: bool): seq<Groups>
    requires Printable(m)
  {
    UnitGroups(m, htoD) + (if m.charge > 0 then [ChargeGroup(m)] else [])
  }

  function PartOf(g: Groups): string { g.mass + g.symbol + g.count }

  /** The units parse() rebuilds: each isotope's mass number, symbol and printed count. */
  function PrintedUnits(m: LegacyState): (us: seq<Unit>)
    requires Printable(m)
    ensures |us| == |m.isotopes|
  {
    seq(|m.isotopes|, i requires 0 <= i < |m.isotopes| =>
      Unit(NatToString(m.unitMasses[i]), m.elements[i], Formulas.CountText(m.stoichiometry[i])))
  }

  lemma {:induction false} SpelledAt(m: LegacyState, htoD: bool, i: nat)
    requires Printable(m) && i < |m.isotopes|
    ensures |Spelled(m, htoD)| == |m.isotopes|
    ensures var um := NatToString(m.unitMasses[i]);
            var el := m.elements[i];
            Spelled(m, htoD)[i] == (if htoD then LegacyRename(um, el).0 else um,
                                    if htoD then LegacyRename(um, el).1 else el,
                                    Formulas.CountText(m.stoichiometry[i]))
  {
  }

  /** A printed unit reads back as its groups, and the unit loop turns them into the
      isotope's mass number, symbol and count. */
  lemma {:induction false} UnitGroupAt(t: Table, m: LegacyState, htoD: bool, i: nat)
    requires Printable(m) && i < |m.isotopes|
    ensures Reads(PartOf(UnitGroups(m, htoD)[i]), UnitGroups(m, htoD)[i])
    ensures IsSymbol(UnitGroups(m, htoD)[i].symbol)
    ensures FixUnit(t, UnitGroups(m, htoD)[i]) == Ok(PrintedUnits(m)[i])
  {
    SpelledAt(m, htoD, i);
    var g := UnitGroups(m, htoD)[i];
    var um := NatToString(m.unitMasses[i]);
    var el := m.elements[i];
    var st := Formulas.CountText(m.stoichiometry[i]);
    assert AllDigits(st) by {
      if m.stoichiometry[i] > 1 {
        assert st == NatToString(m.stoichiometry[i]);
      }
    }
    FixUnitRule(t, g);
    if htoD && el == "H" && (um == "1" || um == "2" || um == "3") {
      assert g.mass == "";
    } else {
      assert g == Groups(um, el, st);
    }
  }

  lemma {:induction false} ChargeGroupReads(m: LegacyState)
    requires m.charge > 0 && IsSignText(m.chargeSign)
    ensures Reads(PartOf(ChargeGroup(m)), ChargeGroup(m))
  {
  }

  function PartsOf(gs: seq<Groups>): (ps: seq<string>)
    ensures |ps| == |gs|
  {
    seq(|gs|, i requires 0 <= i < |gs| => PartOf(gs[i]))
  }

  // ---------------------------------------------------------------------------------------
  // What formula() prints

  lemma {:induction false} UnitTextPlain(u: (string, string, string))
    ensures LegacyUnitText(LegacyIsotope, u) == Ok(u.0 + u.1 + u.2)
  {
    FormulaLaws.FormatBare(u.0);
    FormulaLaws.FormatBare(u.1);
    FormulaLaws.FormatBare(u.2);
    var a := if u.0 != "" then u.0 else "";
    var c := if u.2 != "" then u.2 else "";
    FormulaLaws.JoinThree("", a, u.1, c);
    assert a + "" + u.1 + "" + c == u.0 + u.1 + u.2;
  }

  /** The isotope template prints every unit as its mass, symbol and count. */
  lemma {:induction false} UnitTextsOf(m: LegacyState, htoD: bool)
    requires Printable(m)
    ensures LegacyUnitTexts(LegacyIsotope, Spelled(m, htoD)) == Ok(PartsOf(UnitGroups(m, htoD)))
  {
    var us := Spelled(m, htoD);
    var texts := PartsOf(UnitGroups(m, htoD));
    SpelledAt(m, htoD, 0);
    forall k | 0 <= k < |us| ensures LegacyUnitText(LegacyIsotope, us[k]) == Ok(texts[k]) {
      SpelledAt(m, htoD, k);
      UnitTextPlain(us[k]);
    }
    UnitTextsPass(LegacyIsotope, us, texts);
  }

  /** The charge text is empty for no charge and is the charge group's text otherwise. */
  lemma {:induction false} ChargeText(m: LegacyState)
    ensures m.charge == 0 ==> ChargeUnit(m.charge, m.chargeSign, true) == ""
    ensures m.charge > 0 ==> ChargeUnit(m.charge, m.chargeSign, true) == PartOf(ChargeGroup(m))
  {
    if m.charge == 1 {
      assert PartOf(ChargeGroup(m)) == "" + m.chargeSign + "";
    }
  }

  /** The isotope template prints each unit as mass, symbol and count, and the charge as the
      last part; the parts are joined by spaces. */
  lemma {:induction false} PlainText(m: LegacyState, htoD: bool)
    requires Printable(m)
    ensures LegacyFormulaText(m, Plain(htoD)) == Ok(Join(" ", PartsOf(Printed(m, htoD))))
  {
    var ug := UnitGroups(m, htoD);
    var texts := PartsOf(ug);
    UnitTextsOf(m, htoD);
    assert LegacyStyle("", None) == Ok(Some(LegacyIsotope));
    var charge := ChargeUnit(m.charge, m.chargeSign, true);
    ChargeText(m);
    FormulaLaws.FormatBare(charge);
    FormulaOfParts(m, Plain(htoD), LegacyIsotope, texts);
    if m.charge == 0 {
      assert Printed(m, htoD) == ug;
    } else {
      PartsAppend(ug, ChargeGroup(m));
    }
  }

  /** The formula text of a template whose units all print, with and without a charge. */
  lemma {:induction false} FormulaOfParts(s: LegacyState, o: LegacyOptions, templ: LegacyTemplate, units: seq<string>)
    requires LegacyStyle(o.style, o.custom) == Ok(Some(templ))
    requires LegacyUnitTexts(templ, Spelled(s, o.htoD)) == Ok(units)
    ensures var charge := ChargeUnit(s.charge, s.chargeSign, o.showCharge);
            (charge == "" ==> LegacyFormulaText(s, o) == Ok(Join(templ.majorJoin, units)))
            && (charge != "" && Format(templ.charge, charge).Ok? ==>
                  LegacyFormulaText(s, o) == Ok(Join(templ.majorJoin, units + [Format(templ.charge, charge).value])))
  {
  }

  lemma {:induction false} PartsAppend(gs: seq<Groups>, g: Groups)
    ensures PartsOf(gs + [g]) == PartsOf(gs) + [PartOf(g)]
  {
    var l := PartsOf(gs + [g]);
    var r := PartsOf(gs) + [PartOf(g)];
    assert |l| == |r|;
    forall i | 0 <= i < |l| ensures l[i] == r[i] {
      if i < |gs| {
        assert (gs + [g])[i] == gs[i];
      }
    }
  }

  /** The printed units and the printed charge all read back. */
  lemma {:induction false} PrintedReads(m: LegacyState, htoD: bool)
    requires Printable(m)
    ensures var gs := Printed(m, htoD);
            gs != [] && IsSymbol(gs[0].symbol)
            && forall i :: 0 <= i < |gs| ==> Reads(PartsOf(gs)[i], gs[i])
  {
    var gs := Printed(m, htoD);
    var ug := UnitGroups(m, htoD);
    forall i | 0 <= i < |gs| ensures Reads(PartsOf(gs)[i], gs[i]) {
      if i < |ug| {
        UnitGroupAt([], m, htoD, i);
        assert gs[i] == ug[i];
      } else {
        ChargeGroupReads(m);
        assert gs[i] == ChargeGroup(m);
      }
    }
    UnitGroupAt([], m, htoD, 0);
    assert gs[0] == ug[0];
  }

  lemma {:induction false} FirstNotSpace(p: string, g: Groups)
    requires Reads(p, g) && IsSymbol(g.symbol)
    ensures p != [] && !IsSpace(p[0])
  {
    if g.mass != [] {
      assert p[0] == g.mass[0];
    } else {
      assert p[0] == g.symbol[0];
    }
  }

  lemma {:induction false} LastNotSpace(p: string, g: Groups)
    requires Reads(p, g)
    ensures p != [] && !IsSpace(p[|p| - 1])
  {
    if g.count != [] {
      assert p[|p| - 1] == g.count[|g.count| - 1];
    } else {
      assert p == g.mass + g.symbol;
      assert p[|p| - 1] == g.symbol[|g.symbol| - 1];
      if IsSymbol(g.symbol) && |g.symbol| > 1 {
        assert IsLower(g.symbol[|g.symbol| - 1]);
      }
    }
  }

  /** Parts that read back, the first a unit, joined by spaces: the text is stripped
      already, is in isotope notation and reads back as the groups. */
  lemma {:induction false} TextOfParts(gs: seq<Groups>)
    requires gs != [] && IsSymbol(gs[0].symbol)
    requires forall i :: 0 <= i < |gs| ==> Reads(PartsOf(gs)[i], gs[i])
    ensures var text := Join(" ", PartsOf(gs));
            Strip(text) == text && Scan(text) == gs
  {
    var ps := PartsOf(gs);
    var text := Join(" ", ps);
    forall i | 0 <= i < |ps| ensures ps[i] != [] {
      LastNotSpace(ps[i], gs[i]);
    }
    JoinEnds(ps);
    FirstNotSpace(ps[0], gs[0]);
    LastNotSpace(ps[|ps| - 1], gs[|gs| - 1]);
    StripUnpadded(text);
    ScanJoin(ps, gs);
    if |ps| == 1 {
      OneCapital(ps[0], gs[0]);
      assert text == ps[0];
    } else {
      JoinedHasSpace(ps);
    }
    assert IsotopeNotation(text);
  }

  /** The printed text is stripped already, is in isotope notation and reads back as the
      printed groups. */
  lemma {:induction false} PlainScan(m: LegacyState, htoD: bool)
    requires Printable(m)
    ensures var text := Join(" ", PartsOf(Printed(m, htoD)));
            Strip(text) == text && Scan(text) == Printed(m, htoD)
  {
    PrintedReads(m, htoD);
    TextOfParts(Printed(m, htoD));
  }

  // ---------------------------------------------------------------------------------------
  // What parse() rebuilds

  lemma {:induction false} TotalAbsent(us: seq<Unit>, l: string)
    requires CountDigits(us)
    requires forall i :: 0 <= i < |us| ==> Label(us[i]) != l
    ensures Total(us, l) == 0
    decreases |us|
  {
    if us != [] {
      TotalAbsent(us[..|us| - 1], l);
    }
  }

  lemma {:induction false} TotalUnique(us: seq<Unit>, k: nat)
    requires CountDigits(us) && k < |us|
    requires forall i, j :: 0 <= i < j < |us| ==> Label(us[i]) != Label(us[j])
    ensures Total(us, Label(us[k])) == UnitCount(us[k])
    decreases |us|
  {
    var init := us[..|us| - 1];
    if k == |us| - 1 {
      TotalAbsent(init, Label(us[k]));
    } else {
      assert init[k] == us[k];
      TotalUnique(init, k);
    }
  }

  /** Two strictly ascending lists of the same strings are the same list. */
  lemma {:induction false} SortedSame(a: seq<string>, b: seq<string>)
    requires forall i, j :: 0 <= i < j < |a| ==> LexLess(a[i], a[j])
    requires forall i, j :: 0 <= i < j < |b| ==> LexLess(b[i], b[j])
    requires forall x :: x in a <==> x in b
    ensures a == b
    decreases |a|
  {
    FirstIn(b);
    if a != [] {
      assert a[0] in b;
      assert b != [];
      assert b[0] in a;
      if a[0] != b[0] {
        var j :| 0 <= j < |b| && b[j] == a[0];
        var k :| 0 <= k < |a| && a[k] == b[0];
        assert LexLess(b[0], a[0]);
        assert LexLess(a[0], b[0]);
        LexLessAsymmetric(a[0], b[0]);
      }
      forall x ensures x in a[1..] <==> x in b[1..] {
        TailMember(a, x);
        TailMember(b, x);
      }
      SortedSame(a[1..], b[1..]);
      GrammarLaws.ConsSlice(a);
      GrammarLaws.ConsSlice(b);
    }
  }

  lemma {:induction false} FirstIn(b: seq<string>)
    ensures b != [] ==> b[0] in b
  {
  }

  lemma {:induction false} TailMember(a: seq<string>, x: string)
    requires a != [] && forall i, j :: 0 <= i < j < |a| ==> LexLess(a[i], a[j])
    ensures x in a[1..] <==> x in a && x != a[0]
  {
    if x in a[1..] {
      var i :| 0 <= i < |a[1..]| && a[1..][i] == x;
      assert a[i + 1] == x;
      if x == a[0] {
        LexLessIrreflexive(a[0]);
      }
    }
    if x in a && x != a[0] {
      var i :| 0 <= i < |a| && a[i] == x;
      assert a[1..][i - 1] == x;
    }
  }

  /** The counts printed with a count text read back as the count. */
  lemma {:induction false} CountBack(c: nat)
    requires c >= 1
    ensures AllDigits(Formulas.CountText(c))
    ensures UnitCount(Unit("", "", Formulas.CountText(c))) == c
  {
    if c > 1 {
      assert Formulas.CountText(c) == NatToString(c);
    }
  }

  /** The rebuilt units carry the isotope keys as labels and the counts as counts. */
  lemma {:induction false} PrintedUnitsFacts(m: LegacyState)
    requires Printable(m)
    ensures var us := PrintedUnits(m);
            CountDigits(us)
            && forall i :: 0 <= i < |us| ==> Label(us[i]) == m.isotopes[i] && UnitCount(us[i]) == m.stoichiometry[i]
  {
    var us := PrintedUnits(m);
    forall i | 0 <= i < |us| ensures AllDigits(us[i].count) {
      CountBack(m.stoichiometry[i]);
    }
    forall i | 0 <= i < |us| ensures Label(us[i]) == m.isotopes[i] && UnitCount(us[i]) == m.stoichiometry[i] {
      CountBack(m.stoichiometry[i]);
    }
  }

  /** Counter over units with distinct labels in ascending order, each counted at least
      once, sorted, gives back the labels. */
  lemma {:induction false} TallyKeys(us: seq<Unit>, keys: seq<string>)
    requires CountDigits(us) && |us| == |keys|
    requires forall i :: 0 <= i < |us| ==> Label(us[i]) == keys[i] && UnitCount(us[i]) >= 1
    requires forall i, j :: 0 <= i < j < |keys| ==> LexLess(keys[i], keys[j])
    ensures MapSeq(Tally(us), EntryKey) == keys
  {
    forall i, j | 0 <= i < j < |us| ensures Label(us[i]) != Label(us[j]) {
      LexLessIrreflexive(keys[i]);
    }
    TallySpec(us);
    var ks := MapSeq(Tally(us), EntryKey);
    forall x ensures x in ks <==> x in keys {
      if x in keys {
        var i :| 0 <= i < |keys| && keys[i] == x;
        TotalUnique(us, i);
      } else {
        TotalAbsent(us, x);
      }
    }
    SortedSame(ks, keys);
  }

  /** ... and the counts. */
  lemma {:induction false} TallyOfSorted(us: seq<Unit>, keys: seq<string>, counts: seq<nat>)
    requires CountDigits(us) && |us| == |keys| == |counts|
    requires forall i :: 0 <= i < |us| ==> Label(us[i]) == keys[i] && UnitCount(us[i]) == counts[i]
    requires forall i :: 0 <= i < |counts| ==> counts[i] >= 1
    requires forall i, j :: 0 <= i < j < |keys| ==> LexLess(keys[i], keys[j])
    ensures MapSeq(Tally(us), EntryKey) == keys
    ensures MapSeq(Tally(us), EntryCount) == counts
  {
    TallyKeys(us, keys);
    TallySpec(us);
    var cs := MapSeq(Tally(us), EntryCount);
    forall i | 0 <= i < |keys| ensures cs[i] == counts[i] {
      TotalDistinct(us, keys, i);
    }
  }

  lemma {:induction false} TotalDistinct(us: seq<Unit>, keys: seq<string>, k: nat)
    requires CountDigits(us) && |us| == |keys| && k < |us|
    requires forall i :: 0 <= i < |us| ==> Label(us[i]) == keys[i]
    requires forall i, j :: 0 <= i < j < |keys| ==> LexLess(keys[i], keys[j])
    ensures Total(us, keys[k]) == UnitCount(us[k])
  {
    forall i, j | 0 <= i < j < |us| ensures Label(us[i]) != Label(us[j]) {
      LexLessIrreflexive(keys[i]);
    }
    TotalUnique(us, k);
  }

  /** Counter over the rebuilt units, sorted, gives back the isotopes and their counts. */
  lemma {:induction false} TallyOfPrinted(m: LegacyState)
    requires Printable(m)
    ensures CountDigits(PrintedUnits(m))
    ensures MapSeq(Tally(PrintedUnits(m)), EntryKey) == m.isotopes
    ensures MapSeq(Tally(PrintedUnits(m)), EntryCount) == m.stoichiometry
  {
    PrintedUnitsFacts(m);
    TallyOfSorted(PrintedUnits(m), m.isotopes, m.stoichiometry);
  }

  /** The unit loop over the printed unit groups rebuilds the units. */
  lemma {:induction false} FixPrinted(t: Table, m: LegacyState, htoD: bool)
    requires Printable(m)
    ensures FixAll(t, UnitGroups(m, htoD)) == Ok(PrintedUnits(m))
  {
    var gs := UnitGroups(m, htoD);
    forall k | 0 <= k < |gs| ensures FixUnit(t, gs[k]) == Ok(PrintedUnits(m)[k]) {
      UnitGroupAt(t, m, htoD, k);
    }
    FixAllPass(t, gs, PrintedUnits(m));
  }

  lemma {:induction false} ReadsShaped(gs: seq<Groups>)
    requires forall i :: 0 <= i < |gs| ==> Reads(PartsOf(gs)[i], gs[i])
    ensures AllShaped(gs, false)
  {
    forall i | 0 <= i < |gs| ensures Shaped(gs[i], false) {
      assert Reads(PartsOf(gs)[i], gs[i]);
    }
  }

  /** The charge token of the printed text, and the units before it. */
  lemma {:induction false} ChargeOfPrinted(m: LegacyState, htoD: bool)
    requires Printable(m)
    ensures var gs := Printed(m, htoD);
            gs != [] && SplitCharge(gs).units == UnitGroups(m, htoD)
            && ChargeValue(SplitCharge(gs).charge) == Ok(ChargeBack(m))
            && SignOf(SplitCharge(gs).sign) == SignBack(m)
  {
    var gs := Printed(m, htoD);
    var ug := UnitGroups(m, htoD);
    PrintedReads(m, htoD);
    ReadsShaped(gs);
    if m.charge > 0 {
      assert gs == ug + [ChargeGroup(m)];
      SplitAfterSign(ug, ChargeGroup(m));
      ChargeDigits(m);
    } else {
      assert gs == ug;
      UnitGroupAt([], m, htoD, |ug| - 1);
      SplitWithoutSign(ug);
    }
  }

  /** Units ending in a bare sign: the sign is the token. */
  lemma {:induction false} SplitAfterSign(ug: seq<Groups>, cg: Groups)
    requires AllShaped(ug + [cg], false) && IsSignText(cg.symbol)
    ensures SplitCharge(ug + [cg]).units == ug
    ensures ChargeValue(SplitCharge(ug + [cg]).charge) == Ok(DigitsValue(cg.mass))
    ensures SignOf(SplitCharge(ug + [cg]).sign) == cg.symbol
  {
    var gs := ug + [cg];
    assert gs[|gs| - 1] == cg && gs[..|gs| - 1] == ug;
    assert Shaped(gs[|gs| - 1], false);
    SplitChargeRule(gs, false);
    TokenOfPrinted(cg);
  }

  /** Units ending in an element symbol: there is no token. */
  lemma {:induction false} SplitWithoutSign(ug: seq<Groups>)
    requires ug != [] && AllShaped(ug, false) && IsSymbol(ug[|ug| - 1].symbol)
    ensures SplitCharge(ug).units == ug
    ensures ChargeValue(SplitCharge(ug).charge) == Ok(0)
    ensures SignOf(SplitCharge(ug).sign) == "-"
  {
    assert Shaped(ug[|ug| - 1], false);
    SplitChargeRule(ug, false);
    TokenOfPrinted(ug[|ug| - 1]);
  }

  /** The digits of the printed charge read back as the charge, none as 0. */
  lemma {:induction false} ChargeDigits(m: LegacyState)
    requires m.charge > 0
    ensures DigitsValue(ChargeGroup(m).mass) == ChargeBack(m)
  {
    if m.charge > 1 {
      NatToStringRoundTrip(m.charge);
    }
  }

  /** A printed unit is no charge token; a printed sign is one. */
  lemma {:induction false} TokenOfPrinted(g: Groups)
    requires AllDigits(g.mass) && (IsSymbol(g.symbol) || IsSignText(g.symbol))
    ensures IsToken(g) == IsSignText(g.symbol)
    ensures TokenCharge(g) == if IsSignText(g.symbol) then (DigitsValue(g.mass), g.symbol) else (0, "-")
  {
    NoBracketInSymbol(g.symbol);
    assert g.symbol[0] in g.symbol;
  }

  // ---------------------------------------------------------------------------------------
  // The round trip

  /** The charge parse() reads back from the printed charge, and its sign. */
  function ChargeBack(m: LegacyState): nat { if m.charge == 1 then 0 else m.charge }
  function SignBack(m: LegacyState): string { if m.charge == 0 then "-" else m.chargeSign }

  /** parse() of the printed text looks up the printed isotopes with their counts. */
  lemma {:induction false} ParsePrinted(t: Table, m: LegacyState, htoD: bool)
    requires Printable(m)
    ensures var text := Join(" ", PartsOf(Printed(m, htoD)));
            Construct(t, text) == Lookup(t, LegacyFresh(text), ChargeBack(m), SignBack(m), m.isotopes, m.stoichiometry)
  {
    var text := Join(" ", PartsOf(Printed(m, htoD)));
    PlainScan(m, htoD);
    ChargeOfPrinted(m, htoD);
    FixPrinted(t, m, htoD);
    TallyOfPrinted(m);
    var start := LegacyFresh(text);
    var us := PrintedUnits(m);
    ParseAssembles(t, start, text, ChargeBack(m), SignBack(m), us);
  }

  /** What parse() gives back for the printed m: the isotopes and counts of m, the charge
      and sign read back from the printed charge, and each isotope's columns from the first
      table row holding its key. */
  predicate ReadBack(t: Table, m: LegacyState, r: LegacyState) {
    r.isotopes == m.isotopes && r.stoichiometry == m.stoichiometry
    && r.charge == ChargeBack(m) && r.chargeSign == SignBack(m)
    && |r.indices| == |r.elements| == |r.atomicNumbers| == |r.unitMasses| == |r.isotopes|
    && |r.isotopeMasses| == |r.abundances| == |r.isotopes|
    && forall i :: 0 <= i < |r.isotopes| ==> FindKey(t, r.isotopes[i]) == Some(r.indices[i]) && RowAt(r, t, i)
  }

  /** Parsing what formula() prints in isotope notation, with HtoD on or off, gives back the
      isotopes and their counts; the charge too, except that a charge of one comes back as
      no charge; the sign for any charge; and the table row of each isotope, when every
      isotope is in the table. */
  lemma {:induction false} FormulaRoundTrip(t: Table, m: LegacyState, htoD: bool)
    requires Printable(m)
    requires forall i :: 0 <= i < |m.isotopes| ==> FindKey(t, m.isotopes[i]).Some?
    ensures LegacyFormulaText(m, Plain(htoD)).Ok?
    ensures var r := Construct(t, LegacyFormulaText(m, Plain(htoD)).value);
            r.Ok? && ReadBack(t, m, r.value)
  {
    PlainText(m, htoD);
    var text := Join(" ", PartsOf(Printed(m, htoD)));
    ParsePrinted(t, m, htoD);
    var start := LegacyFresh(text);
    LookupFound(t, start, ChargeBack(m), SignBack(m), m.isotopes, m.stoichiometry);
    LookupSpec(t, start, ChargeBack(m), SignBack(m), m.isotopes, m.stoichiometry);
  }

  /** When the scan, the charge and the unit loop give these values, parse() is the
      assembly of the units. */
  lemma {:induction false} ParseAssembles(t: Table, s: LegacyState, molecule: string, charge: nat, sign: string, us: seq<Unit>)
    requires Scan(Strip(molecule)) != []
    requires ChargeValue(SplitCharge(Scan(Strip(molecule))).charge) == Ok(charge)
    requires SignOf(SplitCharge(Scan(Strip(molecule))).sign) == sign
    requires FixAll(t, SplitCharge(Scan(Strip(molecule))).units) == Ok(us)
    ensures CountDigits(us)
    ensures ParseOf(t, s, molecule) == Assemble(t, s, charge, sign, us)
  {
  }

  /** The lookups succeed when every key is in the table. */
  lemma {:induction false} LookupFound(t: Table, s: LegacyState, charge: nat, sign: string, keys: seq<string>, counts: seq<nat>)
    requires forall i :: 0 <= i < |keys| ==> FindKey(t, keys[i]).Some?
    ensures Lookup(t, s, charge, sign, keys, counts).Ok?
  {
  }

  /** A charge of one is printed as the bare sign, which parse() reads as no charge: the
      ion 12C+ comes back neutral. */
  lemma {:induction false} ChargeOneComesBackNeutral(t: Table, m: LegacyState)
    requires Printable(m) && m.charge == 1
    requires forall i :: 0 <= i < |m.isotopes| ==> FindKey(t, m.isotopes[i]).Some?
    ensures LegacyFormulaText(m, LegacyDefaults).Ok?
    ensures Construct(t, LegacyFormulaText(m, LegacyDefaults).value).Ok?
    ensures Construct(t, LegacyFormulaText(m, LegacyDefaults).value).value.charge == 0
  {
    FormulaRoundTrip(t, m, true);
  }
}
