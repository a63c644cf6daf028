/** What the regex Molecule of molecule.py promises: every match of either pattern carries
    digit groups and a symbol, a sign or a bracketed charge; the charge comes from a trailing
    token alone; the only errors are an input without units and an isotope or element missing
    from the table; the isotopes come out sorted and merged on their key with the counts
    summed; and the mass is the plain sum of mass times count. */
module LegacyMoleculeLaws {
  import opened Wrappers
  import opened Text
  import opened Grammar
  import opened IsotopeTable
  import opened Seqs
  import opened Units
  import opened LegacyMolecules
  import GrammarLaws
  import Molecules

  // ---------------------------------------------------------------------------------------
  // What a match looks like

  /** \[\d*[+-]\]: a bracketed charge. */
  predicate BracketShape(sym: string) {
    |sym| >= 3 && sym[0] == '[' && sym[|sym| - 1] == ']' && IsSign(sym[|sym| - 2])
    && AllDigits(sym[1..|sym| - 2])
  }

  predicate IsSignText(sym: string) {
    sym == "+" || sym == "-"
  }

  /** Both digit groups are digits; the symbol is an element symbol, or a sign (isotope
      pattern) or a bracketed charge (empirical pattern). */
  predicate Shaped(g: Groups, empirical: bool) {
    AllDigits(g.mass) && AllDigits(g.count)
    && (IsSymbol(g.symbol) || (if empirical then BracketShape(g.symbol) else IsSignText(g.symbol)))
  }

  predicate AllShaped(gs: seq<Groups>, empirical: bool) {
    forall i :: 0 <= i < |gs| ==> Shaped(gs[i], empirical)
  }

  lemma {:induction false} SymbolShape(s: string)
    requires SymbolLength(s) > 0
    ensures IsSymbol(s[..SymbolLength(s)])
  {
  }

  lemma {:induction false} RestShape(s: string, mass: string, len: nat, p: nat)
    requires p + len <= |s| && len > 0
    ensures Rest(s, mass, len, p).Some?
    ensures Rest(s, mass, len, p).value.0 == Groups(mass, s[p..p + len], s[p + len..p + len + LeadingDigits(s[p + len..])])
    ensures AllDigits(Rest(s, mass, len, p).value.0.count)
  {
    var q := s[p + len..];
    GrammarLaws.LeadingDigitsAreDigits(q);
    assert s[p + len..p + len + LeadingDigits(q)] == q[..LeadingDigits(q)];
  }

  lemma {:induction false} IsotopeMatchShaped(s: string)
    requires IsotopeMatch(s).Some?
    ensures Shaped(IsotopeMatch(s).value.0, false)
  {
    var d := LeadingDigits(s);
    GrammarLaws.LeadingDigitsAreDigits(s);
    var len := if d < |s| && IsSign(s[d]) then 1 else SymbolLength(s[d..]);
    RestShape(s, s[..d], len, d);
    if !(d < |s| && IsSign(s[d])) {
      SymbolShape(s[d..]);
      assert s[d..d + len] == s[d..][..len];
    } else {
      assert s[d..d + 1] == [s[d]];
    }
  }

  lemma {:induction false} BracketShapeOf(s: string)
    requires BracketChargeLength(s) > 0
    ensures BracketShape(s[..BracketChargeLength(s)])
  {
    var d := LeadingDigits(s[1..]);
    GrammarLaws.LeadingDigitsAreDigits(s[1..]);
    var b := s[..d + 3];
    assert b[1..|b| - 2] == s[1..][..d];
  }

  lemma {:induction false} EmpiricalSymbolShape(s: string, p: nat)
    requires p <= |s| && EmpiricalSymbolLength(s[p..]) > 0
    ensures var len := EmpiricalSymbolLength(s[p..]);
            p + len <= |s| && (IsSymbol(s[p..p + len]) || BracketShape(s[p..p + len]))
  {
    var q := s[p..];
    var len := EmpiricalSymbolLength(q);
    assert s[p..p + len] == q[..len];
    if SymbolLength(q) > 0 {
      SymbolShape(q);
    } else {
      BracketShapeOf(q);
    }
  }

  lemma {:induction false} EmpiricalMatchShaped(s: string)
    requires EmpiricalMatch(s).Some?
    ensures Shaped(EmpiricalMatch(s).value.0, true)
  {
    var m := MassPrefix(s);
    if m.Some? && Rest(s, s[1..m.value + 1], EmpiricalSymbolLength(s[m.value + 2..]), m.value + 2).Some? {
      PrefixedShaped(s, m.value);
    } else {
      BareShaped(s);
    }
  }

  lemma {:induction false} PrefixedShaped(s: string, d: nat)
    requires MassPrefix(s) == Some(d)
    requires Rest(s, s[1..d + 1], EmpiricalSymbolLength(s[d + 2..]), d + 2).Some?
    ensures Shaped(Rest(s, s[1..d + 1], EmpiricalSymbolLength(s[d + 2..]), d + 2).value.0, true)
  {
    var len := EmpiricalSymbolLength(s[d + 2..]);
    GrammarLaws.LeadingDigitsAreDigits(s[1..]);
    assert s[1..d + 1] == s[1..][..d];
    EmpiricalSymbolShape(s, d + 2);
    RestShape(s, s[1..d + 1], len, d + 2);
  }

  lemma {:induction false} BareShaped(s: string)
    requires Rest(s, "", EmpiricalSymbolLength(s), 0).Some?
    ensures Shaped(Rest(s, "", EmpiricalSymbolLength(s), 0).value.0, true)
  {
    assert s[0..] == s;
    EmpiricalSymbolShape(s, 0);
    RestShape(s, "", EmpiricalSymbolLength(s), 0);
  }

  /** Every unit re.findall returns has that shape. */
  lemma {:induction false} FindAllShaped(s: string, empirical: bool)
    ensures AllShaped(FindAll(s, empirical), empirical)
    decreases |s|
  {
    if s != [] {
      var m := if empirical then EmpiricalMatch(s) else IsotopeMatch(s);
      match m
      case Some((g, n)) =>
        if empirical {
          EmpiricalMatchShaped(s);
        } else {
          IsotopeMatchShaped(s);
        }
        FindAllShaped(s[n..], empirical);
        var r := FindAll(s, empirical);
        assert r == [g] + FindAll(s[n..], empirical);
        forall i | 0 <= i < |r| ensures Shaped(r[i], empirical) {
          if i > 0 {
            assert r[i] == FindAll(s[n..], empirical)[i - 1];
          }
        }
      case None =>
        FindAllShaped(s[1..], empirical);
    }
  }

  // ---------------------------------------------------------------------------------------
  // The charge token

  /** The charge and sign a trailing token stands for: a bracketed charge gives its digits
      (0 when there are none) and its sign; a bare sign gives the digits before it and
      itself; any other unit is no token, charge 0 with sign '-'. */
  function TokenCharge(g: Groups): (nat, string)
    requires AllDigits(g.mass)
  {
    if BracketShape(g.symbol) then (DigitsValue(g.symbol[1..|g.symbol| - 2]), [g.symbol[|g.symbol| - 2]])
    else if IsSignText(g.symbol) then (DigitsValue(g.mass), g.symbol)
    else (0, "-")
  }

  /** Whether a unit is taken off as the charge token. */
  predicate IsToken(g: Groups) {
    BracketShape(g.symbol) || IsSignText(g.symbol)
  }

  lemma {:induction false} NoBracketInSymbol(sym: string)
    requires IsSymbol(sym) || IsSignText(sym)
    ensures '[' !in sym && (IsSymbol(sym) ==> '+' !in sym && '-' !in sym)
  {
    if IsSymbol(sym) {
      forall i | 0 <= i < |sym| ensures sym[i] != '[' && sym[i] != '+' && sym[i] != '-' {
        if i > 0 {
          assert IsLower(sym[i]);
        }
      }
    }
  }

  lemma {:induction false} LStripPrefix(s: string, chars: string, i: nat)
    requires i <= |s|
    requires forall k :: 0 <= k < i ==> s[k] in chars
    requires i < |s| ==> s[i] !in chars
    ensures LStripChars(s, chars) == s[i..]
    decreases i
  {
    if i > 0 {
      LStripPrefix(s[1..], chars, i - 1);
      assert s[1..][i - 1..] == s[i..];
    }
  }

  lemma {:induction false} RStripSuffix(s: string, chars: string, j: nat)
    requires j <= |s|
    requires forall k :: j <= k < |s| ==> s[k] in chars
    requires 0 < j ==> s[j - 1] !in chars
    ensures RStripChars(s, chars) == s[..j]
    decreases |s| - j
  {
    if j < |s| {
      var s1 := s[..|s| - 1];
      RStripSuffix(s1, chars, j);
      assert s1[..j] == s[..j];
    }
  }

  /** strip(chars) keeps s[i..j] when everything before i and from j on is in chars and the
      kept part starts and ends outside chars. */
  lemma {:induction false} StripCharsRange(s: string, chars: string, i: nat, j: nat)
    requires i <= j <= |s|
    requires forall k :: 0 <= k < i ==> s[k] in chars
    requires forall k :: j <= k < |s| ==> s[k] in chars
    requires i < j ==> s[i] !in chars && s[j - 1] !in chars
    ensures StripChars(s, chars) == s[i..j]
  {
    if i < j {
      LStripPrefix(s, chars, i);
      KeptSuffix(s, chars, i, j);
    } else {
      LStripPrefix(s, chars, |s|);
      assert RStripChars(s[|s|..], chars) == [];
    }
  }

  lemma {:induction false} KeptSuffix(s: string, chars: string, i: nat, j: nat)
    requires i < j <= |s|
    requires forall k :: j <= k < |s| ==> s[k] in chars
    requires s[j - 1] !in chars
    ensures RStripChars(s[i..], chars) == s[i..j]
  {
    var t := s[i..];
    forall k | j - i <= k < |t| ensures t[k] in chars {
      assert t[k] == s[i + k];
    }
    RStripSuffix(t, chars, j - i);
    assert t[..j - i] == s[i..j];
  }

  /** ' []' stripped from a bracketed charge leaves the digits and the sign; '+-' stripped
      from those leaves the digits. */
  lemma {:induction false} StripBracket(sym: string)
    requires BracketShape(sym)
    ensures StripChars(sym, " []") == sym[1..|sym| - 1]
    ensures StripChars(sym[1..|sym| - 1], "+-") == sym[1..|sym| - 2]
  {
    var n := |sym|;
    var d := sym[1..n - 2];
    var sg := sym[n - 2];
    assert sym == "[" + d + [sg] + "]";
    OuterStrip(d, sg);
    InnerStrip(d, sg);
    assert sym[1..n - 1] == d + [sg];
  }

  lemma {:induction false} OuterStrip(d: string, sg: char)
    requires AllDigits(d) && IsSign(sg)
    ensures StripChars("[" + d + [sg] + "]", " []") == d + [sg]
  {
    var sym := "[" + d + [sg] + "]";
    var n := |sym|;
    assert sym[1] == (if d == [] then sg else d[0]);
    assert sym[1] !in " []" && sym[n - 2] !in " []";
    assert sym[0] in " []" && sym[n - 1] in " []";
    StripCharsRange(sym, " []", 1, n - 1);
    assert sym[1..n - 1] == d + [sg];
  }

  lemma {:induction false} InnerStrip(d: string, sg: char)
    requires AllDigits(d) && IsSign(sg)
    ensures StripChars(d + [sg], "+-") == d
  {
    var inner := d + [sg];
    assert inner[|d|] in "+-";
    if d != [] {
      assert inner[0] == d[0] && inner[|d| - 1] == d[|d| - 1];
      assert IsDigit(d[0]) && IsDigit(d[|d| - 1]);
      assert inner[0] !in "+-" && inner[|d| - 1] !in "+-";
    }
    StripCharsRange(inner, "+-", 0, |d|);
    assert inner[..|d|] == d;
  }

  lemma {:induction false} DigitsHoldNoSign(d: string)
    requires AllDigits(d)
    ensures '+' !in d && '-' !in d
  {
    forall i | 0 <= i < |d| ensures d[i] != '+' && d[i] != '-' {
      assert IsDigit(d[i]);
    }
  }

  /** The charge test on the last unit finds the charge and sign TokenCharge names, and takes
      off the last unit exactly when it is a token. */
  lemma {:induction false} SplitChargeRule(units: seq<Groups>, empirical: bool)
    requires units != [] && AllShaped(units, empirical)
    ensures ChargeValue(SplitCharge(units).charge) == Ok(TokenCharge(units[|units| - 1]).0)
    ensures SignOf(SplitCharge(units).sign) == TokenCharge(units[|units| - 1]).1
    ensures SplitCharge(units).units == if IsToken(units[|units| - 1]) then units[..|units| - 1] else units
  {
    var last := units[|units| - 1];
    assert Shaped(last, empirical);
    if BracketShape(last.symbol) {
      BracketCase(units);
    } else {
      NoBracketInSymbol(last.symbol);
      if IsSignText(last.symbol) {
        SignCase(units);
      } else {
        NoTokenCase(units);
      }
    }
  }

  lemma {:induction false} BracketCase(units: seq<Groups>)
    requires units != [] && BracketShape(units[|units| - 1].symbol) && AllDigits(units[|units| - 1].mass)
    ensures ChargeValue(SplitCharge(units).charge) == Ok(TokenCharge(units[|units| - 1]).0)
    ensures SignOf(SplitCharge(units).sign) == TokenCharge(units[|units| - 1]).1
    ensures SplitCharge(units).units == units[..|units| - 1]
  {
    var last := units[|units| - 1];
    BracketSplit(units);
    BracketToken(last.symbol);
    TokenOfBracket(last);
  }

  lemma {:induction false} BracketSplit(units: seq<Groups>)
    requires units != [] && '[' in units[|units| - 1].symbol
    ensures var chsgn := StripChars(units[|units| - 1].symbol, " []");
            SplitCharge(units) == Split(units[..|units| - 1], StripChars(chsgn, "+-"), chsgn)
  {
  }

  lemma {:induction false} TokenOfBracket(g: Groups)
    requires BracketShape(g.symbol) && AllDigits(g.mass)
    ensures TokenCharge(g) == (DigitsValue(g.symbol[1..|g.symbol| - 2]), [g.symbol[|g.symbol| - 2]])
  {
  }

  lemma {:induction false} SignCase(units: seq<Groups>)
    requires units != [] && IsSignText(units[|units| - 1].symbol) && AllDigits(units[|units| - 1].mass)
    ensures ChargeValue(SplitCharge(units).charge) == Ok(TokenCharge(units[|units| - 1]).0)
    ensures SignOf(SplitCharge(units).sign) == TokenCharge(units[|units| - 1]).1
    ensures SplitCharge(units).units == units[..|units| - 1]
  {
    var last := units[|units| - 1];
    NoBracketInSymbol(last.symbol);
    assert last.symbol[0] in last.symbol;
    ChargeOfDigits(last.mass);
  }

  lemma {:induction false} NoTokenCase(units: seq<Groups>)
    requires units != [] && IsSymbol(units[|units| - 1].symbol) && AllDigits(units[|units| - 1].mass)
    ensures ChargeValue(SplitCharge(units).charge) == Ok(TokenCharge(units[|units| - 1]).0)
    ensures SignOf(SplitCharge(units).sign) == TokenCharge(units[|units| - 1]).1
    ensures SplitCharge(units).units == units
  {
    var last := units[|units| - 1];
    NoBracketInSymbol(last.symbol);
    assert !BracketShape(last.symbol) by {
      assert last.symbol[0] != '[';
    }
  }

  lemma {:induction false} BracketToken(sym: string)
    requires BracketShape(sym)
    ensures '[' in sym
    ensures ChargeValue(StripChars(StripChars(sym, " []"), "+-")) == Ok(DigitsValue(sym[1..|sym| - 2]))
    ensures SignOf(StripChars(sym, " []")) == [sym[|sym| - 2]]
  {
    assert sym[0] == '[';
    BracketCharge(sym);
    BracketSign(sym);
  }

  lemma {:induction false} BracketCharge(sym: string)
    requires BracketShape(sym)
    ensures ChargeValue(StripChars(StripChars(sym, " []"), "+-")) == Ok(DigitsValue(sym[1..|sym| - 2]))
  {
    StripBracket(sym);
    ChargeOfDigits(sym[1..|sym| - 2]);
  }

  lemma {:induction false} BracketSign(sym: string)
    requires BracketShape(sym)
    ensures SignOf(StripChars(sym, " []")) == [sym[|sym| - 2]]
  {
    var n := |sym|;
    StripBracket(sym);
    SliceLast(sym, 1, n - 1);
    SignOfToken(sym[1..n - 2], sym[n - 2]);
  }

  lemma {:induction false} SliceLast(s: string, i: nat, j: nat)
    requires i < j <= |s|
    ensures s[i..j] == s[i..j - 1] + [s[j - 1]]
  {
  }

  lemma {:induction false} ChargeOfDigits(d: string)
    requires AllDigits(d)
    ensures ChargeValue(d) == Ok(DigitsValue(d))
  {
  }

  lemma {:induction false} SignOfToken(d: string, sg: char)
    requires AllDigits(d) && IsSign(sg)
    ensures SignOf(d + [sg]) == [sg]
  {
    DigitsHoldNoSign(d);
    assert ('+' in d + [sg]) == ('+' in d || '+' in [sg]);
  }

  /** A bare '+' (or '-') with no digits is neutral: its charge is 0. */
  lemma {:induction false} BareSignNeutral(units: seq<Groups>, empirical: bool)
    requires units != [] && AllShaped(units, empirical)
    requires units[|units| - 1].mass == "" && IsSignText(units[|units| - 1].symbol)
    ensures ChargeValue(SplitCharge(units).charge) == Ok(0)
    ensures SignOf(SplitCharge(units).sign) == units[|units| - 1].symbol
  {
    SplitChargeRule(units, empirical);
    assert !BracketShape(units[|units| - 1].symbol);
  }

  // ---------------------------------------------------------------------------------------
  // Units

  lemma {:induction false} AllDigitsEmpty()
    ensures AllDigits("")
  {
  }

  /** The aliases and the mass ahead of the symbol: H without a mass is 1H, D and T are 2H and
      3H, an explicit mass is kept; no unit from the scan fails on its count. */
  lemma {:induction false} FixUnitRule(t: Table, g: Groups)
    requires AllDigits(g.count)
    ensures g.symbol == "H" && g.mass == "" ==> FixUnit(t, g) == Ok(Unit("1", "H", g.count))
    ensures g.symbol == "D" ==> FixUnit(t, g) == Ok(Unit("2", "H", g.count))
    ensures g.symbol == "T" ==> FixUnit(t, g) == Ok(Unit("3", "H", g.count))
    ensures g.mass != "" && g.symbol != "D" && g.symbol != "T" ==> FixUnit(t, g) == Ok(Unit(g.mass, g.symbol, g.count))
    ensures FixUnit(t, g).Err? ==> FixUnit(t, g).error == NotInTuple
  {
  }

  /** Any other unit without a mass takes the main isotope's mass number: in a valid table, the
      mass number of the row that is the main isotope of the element's first row; there is no
      row at all for an element missing from the table. */
  lemma {:induction false} MainIsotopeRule(t: Table, g: Groups)
    requires ValidTable(t) && AllDigits(g.count)
    requires g.mass == "" && g.symbol != "H" && g.symbol != "D" && g.symbol != "T"
    ensures FixUnit(t, g).Ok? <==> FindElement(t, g.symbol).Some?
    ensures FixUnit(t, g).Ok? ==>
              var i := FindElement(t, g.symbol).value;
              exists j :: 0 <= j < |t| && t[j].element == g.symbol && t[j].key == t[i].major
                          && FixUnit(t, g) == Ok(Unit(NatToString(t[j].a), g.symbol, g.count))
  {
    assert Alias(g.mass, g.symbol) == ("", g.symbol);
    assert FixUnit(t, g) == (match MainMass(t, g.symbol)
                             case Err(e) => Err(e)
                             case Ok(m) => Ok(Unit(m, g.symbol, g.count)));
    if FindElement(t, g.symbol).Some? {
      var i := FindElement(t, g.symbol).value;
      MajorMassNumber(t, i);
      var j :| 0 <= j < |t| && t[j].element == t[i].element && t[j].key == t[i].major
               && StripChars(t[i].major, t[i].element) == NatToString(t[j].a);
      assert MainMass(t, g.symbol) == Ok(NatToString(t[j].a));
    }
  }

  // ---------------------------------------------------------------------------------------
  // Errors

  /** The unit loop over units from the scan fails only on a symbol missing from the
      elements. */
  lemma {:induction false} FixAllErrors(t: Table, gs: seq<Groups>, empirical: bool)
    requires AllShaped(gs, empirical)
    ensures FixAll(t, gs).Err? ==> FixAll(t, gs).error == NotInTuple
  {
    var r := FixAll(t, gs);
    if r.Err? {
      var j :| 0 <= j < |gs| && FixUnit(t, gs[j]) == Err(r.error)
               && forall k :: 0 <= k < j ==> FixUnit(t, gs[k]).Ok?;
      assert Shaped(gs[j], empirical);
      FixUnitRule(t, gs[j]);
    }
  }

  /** The units that remain after the charge token keep the shape of the scan. */
  lemma {:induction false} RestShaped(units: seq<Groups>, empirical: bool)
    requires units != [] && AllShaped(units, empirical)
    ensures AllShaped(SplitCharge(units).units, empirical)
  {
    var rest := SplitCharge(units).units;
    forall i | 0 <= i < |rest| ensures Shaped(rest[i], empirical) {
      assert rest[i] == units[i];
    }
  }

  /** parse() fails only with IndexError, exactly when no unit was found, or with the
      ValueError of a symbol missing from the elements or a key missing from the isotopes. The
      FormatError and the ValueError of int() are never raised. */
  lemma {:induction false} ParseErrors(t: Table, s: LegacyState, molecule: string)
    ensures ParseOf(t, s, molecule) == Err(IndexError) <==> Scan(Strip(molecule)) == []
    ensures ParseOf(t, s, molecule).Err? ==>
              ParseOf(t, s, molecule).error == IndexError || ParseOf(t, s, molecule).error == NotInTuple
  {
    var text := Strip(molecule);
    var empirical := !IsotopeNotation(text);
    var units := Scan(text);
    if units != [] {
      FindAllShaped(text, empirical);
      SplitChargeRule(units, empirical);
      RestShaped(units, empirical);
      var sc := SplitCharge(units);
      FixAllErrors(t, sc.units, empirical);
      var fixedR := FixAll(t, sc.units);
      if fixedR.Ok? {
        AssembleErrors(t, s, TokenCharge(units[|units| - 1]).0, SignOf(sc.sign), fixedR.value);
      }
    }
  }

  lemma {:induction false} AssembleErrors(t: Table, s: LegacyState, charge: nat, sign: string, fixed: seq<Unit>)
    requires CountDigits(fixed)
    ensures Assemble(t, s, charge, sign, fixed).Err? ==> Assemble(t, s, charge, sign, fixed).error == NotInTuple
  {
  }

  // ---------------------------------------------------------------------------------------
  // The charge of a parse

  /** parse() takes its charge and sign from the last unit the scan found, and from nothing
      else. */
  lemma {:induction false} ParseCharge(t: Table, s: LegacyState, molecule: string)
    requires ParseOf(t, s, molecule).Ok?
    ensures TokenGives(Scan(Strip(molecule)), !IsotopeNotation(Strip(molecule)),
                       ParseOf(t, s, molecule).value.charge, ParseOf(t, s, molecule).value.chargeSign)
  {
    var text := Strip(molecule);
    var empirical := !IsotopeNotation(text);
    var units := Scan(text);
    ParseSteps(t, s, molecule);
    FindAllShaped(text, empirical);
    SplitChargeRule(units, empirical);
    var sc := SplitCharge(units);
    SplitSteps(t, s, sc);
    AssembleCharge(t, s, ChargeValue(sc.charge).value, SignOf(sc.sign), FixAll(t, sc.units).value);
  }

  /** The last unit of the scan has the scan's shape, and the charge and sign are the ones it
      stands for as a token. */
  predicate TokenGives(units: seq<Groups>, empirical: bool, charge: nat, sign: string) {
    units != [] && Shaped(units[|units| - 1], empirical)
    && charge == TokenCharge(units[|units| - 1]).0 && sign == TokenCharge(units[|units| - 1]).1
  }

  /** A parse that succeeds has found units and goes on with the charge token taken off. */
  lemma {:induction false} ParseSteps(t: Table, s: LegacyState, molecule: string)
    requires ParseOf(t, s, molecule).Ok?
    ensures Scan(Strip(molecule)) != []
    ensures ParseOf(t, s, molecule) == ParseSplit(t, s, SplitCharge(Scan(Strip(molecule))))
  {
  }

  /** The rest of a parse that succeeds has read the token's charge, resolved every unit and
      assembled the tuples from them. */
  lemma {:induction false} SplitSteps(t: Table, s: LegacyState, sc: Split)
    requires ParseSplit(t, s, sc).Ok?
    ensures ChargeValue(sc.charge).Ok? && FixAll(t, sc.units).Ok? && CountDigits(FixAll(t, sc.units).value)
    ensures ParseSplit(t, s, sc) == Assemble(t, s, ChargeValue(sc.charge).value, SignOf(sc.sign), FixAll(t, sc.units).value)
  {
  }

  /** Assembling the tuples keeps the charge and sign it is given. */
  lemma {:induction false} AssembleCharge(t: Table, s: LegacyState, charge: nat, sign: string, fixed: seq<Unit>)
    requires CountDigits(fixed)
    ensures Assemble(t, s, charge, sign, fixed).Ok? ==>
              Assemble(t, s, charge, sign, fixed).value.charge == charge
              && Assemble(t, s, charge, sign, fixed).value.chargeSign == sign
  {
  }

  // ---------------------------------------------------------------------------------------
  // The composition

  /** The tuples parse() stores for the units `fixed`: the isotopes in strictly ascending
      order, each with the total count of the units carrying its key, which is positive; every
      key carried with a positive total among them; and each isotope's columns taken from the
      table row holding its key. */
  ghost predicate Composes(r: LegacyState, t: Table, fixed: seq<Unit>)
    requires CountDigits(fixed)
  {
    var n := |r.isotopes|;
    |r.stoichiometry| == n && |r.indices| == n && |r.elements| == n && |r.atomicNumbers| == n
    && |r.unitMasses| == n && |r.isotopeMasses| == n && |r.abundances| == n
    && (forall i, j :: 0 <= i < j < n ==> LexLess(r.isotopes[i], r.isotopes[j]))
    && (forall i :: 0 <= i < n ==> r.stoichiometry[i] == Total(fixed, r.isotopes[i]) && r.stoichiometry[i] > 0)
    && (forall l :: Total(fixed, l) > 0 ==> l in r.isotopes)
    && (forall i :: 0 <= i < n ==> FindKey(t, r.isotopes[i]) == Some(r.indices[i]) && RowAt(r, t, i))
  }

  /** The columns of position i are those of the table row at indices[i], whose key is the
      isotope. */
  predicate RowAt(r: LegacyState, t: Table, i: nat)
    requires i < |r.isotopes| == |r.indices| == |r.elements| == |r.atomicNumbers| == |r.unitMasses|
    requires |r.isotopeMasses| == |r.abundances| == |r.isotopes|
  {
    var k := r.indices[i];
    k < |t| && t[k].key == r.isotopes[i] && r.elements[i] == t[k].element && r.atomicNumbers[i] == t[k].z
    && r.unitMasses[i] == t[k].a && r.isotopeMasses[i] == t[k].mass && r.abundances[i] == t[k].abundance
  }

  /** Counter(iunits), sorted: the keys in strictly ascending order, each with its total, and
      exactly the keys with a positive total. */
  lemma {:induction false} TallySpec(fixed: seq<Unit>)
    requires CountDigits(fixed)
    ensures var es := Tally(fixed);
            var keys := MapSeq(es, EntryKey);
            var counts := MapSeq(es, EntryCount);
            |counts| == |keys|
            && (forall i, j :: 0 <= i < j < |keys| ==> LexLess(keys[i], keys[j]))
            && (forall i :: 0 <= i < |keys| ==> counts[i] == Total(fixed, keys[i]) && counts[i] > 0)
            && (forall l :: Total(fixed, l) > 0 ==> l in keys)
  {
    var es := Tally(fixed);
    var keys := MapSeq(es, EntryKey);
    var counts := MapSeq(es, EntryCount);
    SortedDistinct(es);
    forall i | 0 <= i < |keys| ensures counts[i] == Total(fixed, keys[i]) && counts[i] > 0 {
      FindDistinct(es, i);
      assert CountOf(es, keys[i]) == es[i].count;
    }
    forall l | Total(fixed, l) > 0 ensures l in keys {
      var i := Find(es, l).value;
      assert keys[i] == l;
    }
  }

  /** The attributes after the unit loop: the tuples compose the units, the mass grows by the
      sum of mass times count with no electron term, and the rest is the charge and sign given
      and the input and abundance as they were. */
  lemma {:induction false} AssembleSpec(t: Table, s: LegacyState, charge: nat, sign: string, fixed: seq<Unit>)
    requires CountDigits(fixed)
    ensures var a := Assemble(t, s, charge, sign, fixed);
            a.Ok? ==> Composes(a.value, t, fixed)
                      && a.value.mass == s.mass + Molecules.ZipDot(a.value.isotopeMasses, a.value.stoichiometry)
                      && a.value.charge == charge && a.value.chargeSign == sign
                      && a.value.input == s.input && a.value.abundance == s.abundance
  {
    TallySpec(fixed);
    var es := Tally(fixed);
    var keys := MapSeq(es, EntryKey);
    var counts := MapSeq(es, EntryCount);
    LookupSpec(t, s, charge, sign, keys, counts);
    assert Assemble(t, s, charge, sign, fixed) == Lookup(t, s, charge, sign, keys, counts);
  }

  /** The lookups: every key's columns come from the first row holding it, and the mass grows
      by the sum of mass times count. */
  lemma {:induction false} LookupSpec(t: Table, s: LegacyState, charge: nat, sign: string, keys: seq<string>, counts: seq<nat>)
    requires |counts| == |keys|
    ensures var a := Lookup(t, s, charge, sign, keys, counts);
            a.Ok? ==> var r := a.value;
                      r.isotopes == keys && r.stoichiometry == counts
                      && |r.indices| == |r.elements| == |r.atomicNumbers| == |r.unitMasses| == |keys|
                      && |r.isotopeMasses| == |r.abundances| == |keys|
                      && (forall i :: 0 <= i < |keys| ==> FindKey(t, r.isotopes[i]) == Some(r.indices[i]) && RowAt(r, t, i))
                      && r.mass == s.mass + Molecules.ZipDot(r.isotopeMasses, r.stoichiometry)
                      && r.charge == charge && r.chargeSign == sign && r.input == s.input && r.abundance == s.abundance
  {
    var a := Lookup(t, s, charge, sign, keys, counts);
    if a.Ok? {
      var ix := IndicesOf(t, keys).value;
      var rows := Rows(t, ix);
      var r := a.value;
      assert r == WithRows(s, charge, sign, keys, counts, ix, rows,
                           s.mass + Molecules.ZipDot(MapSeq(rows, Molecules.RowMass), counts));
    }
  }

  /** parse() on the attributes s: the unit loop succeeds, its units compose the result, and
      the mass is s's mass plus the sum of mass times count. */
  lemma {:induction false} ParseComposition(t: Table, s: LegacyState, molecule: string)
    requires ParseOf(t, s, molecule).Ok?
    ensures FixedUnits(t, molecule).Ok? && CountDigits(FixedUnits(t, molecule).value)
    ensures var r := ParseOf(t, s, molecule).value;
            Composes(r, t, FixedUnits(t, molecule).value)
            && r.mass == s.mass + Molecules.ZipDot(r.isotopeMasses, r.stoichiometry)
            && r.input == s.input && r.abundance == s.abundance
  {
    var units := Scan(Strip(molecule));
    ParseSteps(t, s, molecule);
    var sc := SplitCharge(units);
    SplitSteps(t, s, sc);
    var charge := ChargeValue(sc.charge).value;
    var fixed := FixAll(t, sc.units).value;
    assert FixedUnits(t, molecule) == Ok(fixed);
    AssembleSpec(t, s, charge, SignOf(sc.sign), fixed);
  }
}
