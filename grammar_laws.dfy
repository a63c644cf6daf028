/** Properties of the formula grammars: what they return is well formed, and writing a parse
    result back in molecular or isotope notation and parsing it again gives it back. */
module GrammarLaws {
  import opened Wrappers
  import opened Text
  import opened Grammar

  /** The parts of a unit either notation can express: digit strings for mass and count, and
      a well-formed symbol. */
  predicate WfUnit(u: Unit) {
    AllDigits(u.atomicMass) && IsSymbol(u.element) && AllDigits(u.count)
  }

  /** The charges the grammars can express: none, neutral, or digits and a sign. A count that
      starts with '0' cannot be expressed, because the neutral alternative takes the '0'. */
  predicate WfCharge(c: ChargeTok) {
    (c.sign == "" && c.count == "")
    || ((c.sign == "o" || c.sign == "0") && c.count == "")
    || ((c.sign == "+" || c.sign == "-") && AllDigits(c.count) && (c.count == [] || c.count[0] != '0'))
  }

  /** Every unit of the sequence is well formed (stated unit by unit, from the front). */
  predicate AllWf(us: seq<Unit>)
    decreases |us|
  {
    us == [] || (WfUnit(us[0]) && AllWf(us[1..]))
  }

  lemma {:induction false} AllWfIndex(us: seq<Unit>, i: nat)
    requires AllWf(us) && i < |us|
    ensures WfUnit(us[i])
    decreases i
  {
    if i > 0 {
      AllWfIndex(us[1..], i - 1);
    }
  }

  predicate WfParsed(p: Parsed) {
    p.units != [] && AllWf(p.units) && WfCharge(p.charge)
  }

  // ---------------------------------------------------------------------------------------
  // Everything the parsers return is well formed

  lemma {:induction false} LeadingDigitsAreDigits(s: string)
    ensures AllDigits(s[..LeadingDigits(s)])
    decreases |s|
  {
    if s != [] && IsDigit(s[0]) {
      LeadingDigitsAreDigits(s[1..]);
      assert s[..LeadingDigits(s)] == [s[0]] + s[1..][..LeadingDigits(s[1..])];
    }
  }

  lemma {:induction false} SplitDigitsWf(s: string)
    ensures AllDigits(SplitDigits(s).0)
  {
    LeadingDigitsAreDigits(s);
  }

  lemma {:induction false} SplitSymbolWf(s: string)
    requires SplitSymbol(s).0 != []
    ensures IsSymbol(SplitSymbol(s).0)
  {
    var n := ElementLength(s);
    assert forall i :: 0 <= i < n ==> s[..n][i] == s[i];
  }

  lemma {:induction false} BracketMassWf(s: string)
    requires BracketMass(s).Some?
    ensures AllDigits(BracketMass(s).value.0)
  {
    LeadingDigitsAreDigits(s[1..]);
    var n := LeadingDigits(s[1..]);
    assert s[1..n + 1] == s[1..][..n];
  }

  lemma {:induction false} SymbolAndCountWf(am: string, s: string)
    requires AllDigits(am) && SymbolAndCount(am, s).Some?
    ensures WfUnit(SymbolAndCount(am, s).value.0)
  {
    SplitSymbolWf(s);
    SplitDigitsWf(DropBlanks(SplitSymbol(s).1));
  }

  lemma {:induction false} MolecularUnitWf(s: string)
    requires MolecularUnit(s).Some?
    ensures WfUnit(MolecularUnit(s).value.0)
  {
    if BracketMass(s).Some? {
      BracketMassWf(s);
      SymbolAndCountWf(BracketMass(s).value.0, DropBlanks(BracketMass(s).value.1));
    } else {
      SymbolAndCountWf("", DropBlanks(s));
    }
  }

  lemma {:induction false} MolecularUnitsWf(s: string)
    ensures AllWf(MolecularUnits(s).0)
    decreases |s|
  {
    match MolecularUnit(DropBlanks(s))
    case None =>
    case Some((u, rest)) =>
      MolecularUnitWf(DropBlanks(s));
      MolecularUnitsWf(rest);
      assert ([u] + MolecularUnits(rest).0)[1..] == MolecularUnits(rest).0;
  }

  lemma {:induction false} ChargeBodyWf(r: string)
    requires ChargeBody(r).Some?
    ensures WfCharge(ChargeBody(r).value.0)
  {
    if !(r != [] && (r[0] == 'o' || r[0] == '0')) {
      SplitDigitsWf(r);
      var k := LeadingDigits(r);
      if k > 0 {
        assert SplitDigits(r).0[0] == r[0];
      }
    }
  }

  lemma {:induction false} MolecularChargeWf(s: string)
    ensures WfCharge(MolecularCharge(s).0)
  {
    var q := DropBlanks(s);
    if q != [] && q[0] == '[' && ChargeBody(DropBlanks(q[1..])).Some? {
      ChargeBodyWf(DropBlanks(q[1..]));
    }
  }

  lemma {:induction false} IsotopeUnitWf(d: string)
    requires IsotopeUnit(d).Some?
    ensures WfUnit(IsotopeUnit(d).value.0)
  {
    SplitDigitsWf(d);
    var r1 := SplitDigits(d).1;
    SplitSymbolWf(r1);
    SplitDigitsWf(SplitSymbol(r1).1);
  }

  lemma {:induction false} IsotopeUnitsWf(d: string)
    ensures AllWf(IsotopeUnits(d).0)
    decreases |d|
  {
    match IsotopeUnit(d)
    case None =>
    case Some((u, rest)) =>
      IsotopeUnitWf(d);
      IsotopeUnitsWf(rest);
      assert ([u] + IsotopeUnits(rest).0)[1..] == IsotopeUnits(rest).0;
  }

  lemma {:induction false} IsotopeChargeWf(d: string)
    ensures WfCharge(IsotopeCharge(d).0)
  {
    SplitDigitsWf(d);
    if LeadingDigits(d) > 0 {
      assert SplitDigits(d).0[0] == d[0];
    }
  }

  /** Whatever ParseFormula accepts has digit-only masses and counts, proper symbols and a
      proper charge, so the int() conversions that follow it cannot fail. */
  lemma {:induction false} ParseFormulaWf(s: string)
    requires ParseFormula(s).Ok?
    ensures WfParsed(ParseFormula(s).value)
  {
    if ParseMolecular(s).Some? {
      MolecularUnitsWf(s);
      MolecularChargeWf(MolecularUnits(s).1);
    } else {
      var d := Delimit(s);
      IsotopeUnitsWf(d);
      IsotopeChargeWf(IsotopeUnits(d).1);
    }
  }

  // ---------------------------------------------------------------------------------------
  // Writing a parse result back

  function ShowMolecularUnit(u: Unit): string {
    (if u.atomicMass == [] then [] else "[" + u.atomicMass + "]") + u.element + u.count
  }

  function ShowMolecularUnits(us: seq<Unit>): string
    decreases |us|
  {
    if us == [] then [] else ShowMolecularUnit(us[0]) + ShowMolecularUnits(us[1..])
  }

  function ShowMolecularCharge(c: ChargeTok): string {
    if c.sign == [] then [] else "[" + c.count + c.sign + "]"
  }

  /** Molecular notation of a parse result, as in "[15]NH3[+]". */
  function ShowMolecular(p: Parsed): string {
    ShowMolecularUnits(p.units) + ShowMolecularCharge(p.charge)
  }

  function ShowIsotopeUnit(u: Unit): string {
    u.atomicMass + u.element + u.count
  }

  function ShowIsotopeCharge(c: ChargeTok): string {
    c.count + c.sign
  }

  function UnitParts(us: seq<Unit>): (r: seq<string>)
    ensures |r| == |us|
    decreases |us|
  {
    if us == [] then [] else [ShowIsotopeUnit(us[0])] + UnitParts(us[1..])
  }

  lemma {:induction false} UnitPartsIndex(us: seq<Unit>, k: nat)
    requires k < |us|
    ensures UnitParts(us)[k] == ShowIsotopeUnit(us[k])
    decreases k
  {
    if k > 0 {
      UnitPartsIndex(us[1..], k - 1);
    }
  }

  /** The pieces of the isotope notation: one per unit and one for the charge if there is one. */
  function IsotopeParts(p: Parsed): seq<string> {
    UnitParts(p.units) + (if p.charge.sign == [] then [] else [ShowIsotopeCharge(p.charge)])
  }

  /** Isotope notation of a parse result, as in "15N 1H3 +". */
  function ShowIsotope(p: Parsed): string {
    Join(" ", IsotopeParts(p))
  }

  // ---------------------------------------------------------------------------------------
  // Molecular notation round trip

  lemma {:induction false} LeadingDigitsOf(w: string, t: string)
    requires AllDigits(w) && (t == [] || !IsDigit(t[0]))
    ensures LeadingDigits(w + t) == |w|
    decreases |w|
  {
    if w != [] {
      assert (w + t)[1..] == w[1..] + t;
      LeadingDigitsOf(w[1..], t);
    } else {
      assert w + t == t;
    }
  }

  lemma {:induction false} SplitDigitsOf(w: string, t: string)
    requires AllDigits(w) && (t == [] || !IsDigit(t[0]))
    ensures SplitDigits(w + t) == (w, t)
  {
    LeadingDigitsOf(w, t);
    assert (w + t)[..|w|] == w && (w + t)[|w|..] == t;
  }

  lemma {:induction false} SplitSymbolOf(e: string, t: string)
    requires IsSymbol(e) && (t == [] || !IsLower(t[0]))
    ensures SplitSymbol(e + t) == (e, t)
  {
    assert ElementLength(e + t) == |e|;
    assert (e + t)[..|e|] == e && (e + t)[|e|..] == t;
  }

  lemma {:induction false} BracketMassOf(am: string, t: string)
    requires am != [] && AllDigits(am)
    ensures BracketMass("[" + am + "]" + t) == Some((am, t))
  {
    var s := "[" + am + "]" + t;
    assert s[1..] == am + ("]" + t);
    LeadingDigitsOf(am, "]" + t);
    assert s[|am| + 1] == ']';
    assert s[1..|am| + 1] == am;
    assert s[|am| + 2..] == t;
  }

  /** What may follow a written molecular unit without changing how it is read. */
  predicate UnitFollower(t: string) {
    t == [] || t[0] == '[' || IsUpper(t[0])
  }

  lemma {:induction false} CountAndRest(u: Unit, t: string)
    requires WfUnit(u) && UnitFollower(t)
    ensures var ct := u.count + t; ct == [] || (!IsLower(ct[0]) && !IsBlank(ct[0]))
  {
    if u.count != [] {
      assert (u.count + t)[0] == u.count[0];
    }
  }

  lemma {:induction false} SymbolAndCountOf(u: Unit, t: string)
    requires WfUnit(u) && UnitFollower(t)
    ensures SymbolAndCount(u.atomicMass, u.element + u.count + t) == Some((u, t))
  {
    var ct := u.count + t;
    assert u.element + u.count + t == u.element + ct;
    CountAndRest(u, t);
    SplitSymbolOf(u.element, ct);
    SplitDigitsOf(u.count, t);
  }

  lemma {:induction false} MolecularUnitFromParts(s: string, u: Unit, r1: string, t: string)
    requires BracketMass(s) == Some((u.atomicMass, r1))
    requires SymbolAndCount(u.atomicMass, DropBlanks(r1)) == Some((u, t))
    ensures MolecularUnit(s) == Some((u, t))
  {
  }

  lemma {:induction false} ShowWithMass(u: Unit, t: string)
    requires u.atomicMass != []
    ensures ShowMolecularUnit(u) + t == "[" + u.atomicMass + "]" + (u.element + u.count + t)
  {
  }

  lemma {:induction false} NoBlankInFront(u: Unit, t: string)
    requires WfUnit(u)
    ensures DropBlanks(u.element + u.count + t) == u.element + u.count + t
  {
    assert (u.element + u.count + t)[0] == u.element[0];
  }

  lemma {:induction false} MolecularUnitWithMass(u: Unit, t: string)
    requires WfUnit(u) && UnitFollower(t) && u.atomicMass != []
    ensures MolecularUnit(ShowMolecularUnit(u) + t) == Some((u, t))
  {
    var r1 := u.element + u.count + t;
    ShowWithMass(u, t);
    BracketMassOf(u.atomicMass, r1);
    NoBlankInFront(u, t);
    SymbolAndCountOf(u, t);
    MolecularUnitFromParts(ShowMolecularUnit(u) + t, u, r1, t);
  }

  lemma {:induction false} MolecularUnitWithoutMass(u: Unit, t: string)
    requires WfUnit(u) && UnitFollower(t) && u.atomicMass == []
    ensures MolecularUnit(ShowMolecularUnit(u) + t) == Some((u, t))
  {
    var r1 := u.element + u.count + t;
    assert ShowMolecularUnit(u) + t == r1;
    assert r1[0] == u.element[0];
    SymbolAndCountOf(u, t);
  }

  lemma {:induction false} MolecularUnitOf(u: Unit, t: string)
    requires WfUnit(u) && UnitFollower(t)
    ensures MolecularUnit(ShowMolecularUnit(u) + t) == Some((u, t))
  {
    if u.atomicMass != [] {
      MolecularUnitWithMass(u, t);
    } else {
      MolecularUnitWithoutMass(u, t);
    }
  }

  lemma {:induction false} ShowMolecularUnitStart(u: Unit)
    requires WfUnit(u)
    ensures ShowMolecularUnit(u) != [] && UnitFollower(ShowMolecularUnit(u))
  {
    if u.atomicMass == [] {
      assert ShowMolecularUnit(u) == u.element + u.count;
    }
  }

  lemma {:induction false} FollowerConcat(a: string, b: string)
    requires a != [] && UnitFollower(a)
    ensures UnitFollower(a + b)
  {
    assert (a + b)[0] == a[0];
  }

  lemma {:induction false} ShowMolecularUnitsFollower(us: seq<Unit>, t: string)
    requires (us != [] ==> WfUnit(us[0])) && UnitFollower(t)
    ensures UnitFollower(ShowMolecularUnits(us) + t)
  {
    if us != [] {
      var v := ShowMolecularUnit(us[0]);
      ShowMolecularUnitStart(us[0]);
      assert ShowMolecularUnits(us) + t == v + (ShowMolecularUnits(us[1..]) + t);
      FollowerConcat(v, ShowMolecularUnits(us[1..]) + t);
    } else {
      assert ShowMolecularUnits(us) + t == t;
    }
  }

  lemma {:induction false} MolecularUnitsStep(s: string, u: Unit, rest: string)
    requires MolecularUnit(DropBlanks(s)) == Some((u, rest))
    ensures MolecularUnits(s) == ([u] + MolecularUnits(rest).0, MolecularUnits(rest).1)
  {
  }

  lemma {:induction false} MolecularUnitsStop(s: string)
    requires MolecularUnit(DropBlanks(s)) == None
    ensures MolecularUnits(s) == ([], s)
  {
  }

  lemma {:induction false} FollowerNoBlank(s: string)
    requires UnitFollower(s)
    ensures DropBlanks(s) == s
  {
  }

  /** What may follow the last written unit: nothing, or a charge that is not read as a unit. */
  predicate UnitsEnd(t: string) {
    t == [] || (t[0] == '[' && MolecularUnit(t) == None)
  }

  lemma {:induction false} MolecularUnitsNil(t: string)
    requires UnitsEnd(t)
    ensures MolecularUnits(ShowMolecularUnits([]) + t) == ([], t)
  {
    assert ShowMolecularUnits([]) + t == t;
    FollowerNoBlank(t);
    assert t == [] ==> MolecularUnit(t) == None;
    MolecularUnitsStop(t);
  }

  lemma {:induction false} ConsSlice<T>(xs: seq<T>)
    requires xs != []
    ensures [xs[0]] + xs[1..] == xs
  {
  }

  lemma {:induction false} MolecularUnitsPrepend(s: string, u: Unit, rest: string, us: seq<Unit>, t: string)
    requires UnitFollower(s) && MolecularUnit(s) == Some((u, rest))
    requires MolecularUnits(rest) == (us, t)
    ensures MolecularUnits(s) == ([u] + us, t)
  {
    FollowerNoBlank(s);
    MolecularUnitsStep(s, u, rest);
  }

  lemma {:induction false} ShowMolecularUnitsCons(us: seq<Unit>, t: string)
    requires us != []
    ensures ShowMolecularUnits(us) + t == ShowMolecularUnit(us[0]) + (ShowMolecularUnits(us[1..]) + t)
  {
  }

  lemma {:induction false} MolecularUnitsCons(us: seq<Unit>, t: string)
    requires us != [] && WfUnit(us[0]) && (|us| > 1 ==> WfUnit(us[1])) && UnitFollower(t)
    requires MolecularUnits(ShowMolecularUnits(us[1..]) + t) == (us[1..], t)
    ensures MolecularUnits(ShowMolecularUnits(us) + t) == (us, t)
  {
    var rest := ShowMolecularUnits(us[1..]) + t;
    ShowMolecularUnitsCons(us, t);
    ShowMolecularUnitsFollower(us[1..], t);
    ShowMolecularUnitsFollower(us, t);
    MolecularUnitOf(us[0], rest);
    MolecularUnitsPrepend(ShowMolecularUnits(us) + t, us[0], rest, us[1..], t);
    ConsSlice(us);
  }

  lemma {:induction false} MolecularUnitsOf(us: seq<Unit>, t: string)
    requires AllWf(us) && UnitsEnd(t)
    ensures MolecularUnits(ShowMolecularUnits(us) + t) == (us, t)
    decreases |us|
  {
    if us == [] {
      MolecularUnitsNil(t);
    } else {
      MolecularUnitsOf(us[1..], t);
      AllWfIndex(us, 0);
      if |us| > 1 {
        AllWfIndex(us, 1);
      }
      MolecularUnitsCons(us, t);
    }
  }

  /** A written charge is not mistaken for one more unit. */
  lemma {:induction false} ChargeIsNotUnit(c: ChargeTok)
    requires WfCharge(c) && c.sign != []
    ensures MolecularUnit(ShowMolecularCharge(c)) == None
  {
    var s := ShowMolecularCharge(c);
    if c.sign == "0" {
      assert s == "[0]";
      assert LeadingDigits(s[1..]) == 1;
      assert BracketMass(s) == Some(("0", ""));
      assert SymbolAndCount("0", DropBlanks("")) == None;
    } else if c.sign == "o" {
      assert s == "[o]";
      assert BracketMass(s) == None;
    } else {
      assert s[1..] == c.count + (c.sign + "]");
      LeadingDigitsOf(c.count, c.sign + "]");
      assert s[|c.count| + 1] == c.sign[0];
      assert BracketMass(s) == None;
    }
  }

  lemma {:induction false} ChargeBodyOf(c: ChargeTok)
    requires WfCharge(c) && c.sign != []
    ensures ChargeBody(c.count + c.sign + "]") == Some((c, ""))
  {
    var r := c.count + c.sign + "]";
    if c.sign == "o" || c.sign == "0" {
      assert r[1..] == "]";
    } else {
      assert r[0] != 'o' && r[0] != '0' by {
        if c.count != [] {
          assert r[0] == c.count[0];
        }
      }
      assert r == c.count + (c.sign + "]");
      SplitDigitsOf(c.count, c.sign + "]");
      assert (c.sign + "]")[1..] == "]";
    }
  }

  lemma {:induction false} MolecularChargeOf(c: ChargeTok)
    requires WfCharge(c)
    ensures MolecularCharge(ShowMolecularCharge(c)) == (c, "")
  {
    if c.sign != [] {
      var s := ShowMolecularCharge(c);
      assert s[1..] == c.count + c.sign + "]";
      assert s[1..][0] != ' ' && s[1..][0] != '\n' && s[1..][0] != '\t' && s[1..][0] != '\r' by {
        if c.count != [] {
          assert s[1..][0] == c.count[0];
        }
      }
      ChargeBodyOf(c);
    }
  }

  /** Molecular notation round trip: writing a well-formed parse result in molecular
      notation and parsing it gives it back. */
  lemma {:induction false} MolecularRoundTrip(p: Parsed)
    requires WfParsed(p)
    ensures ParseMolecular(ShowMolecular(p)) == Some(p)
  {
    var cs := ShowMolecularCharge(p.charge);
    if p.charge.sign != [] {
      ChargeIsNotUnit(p.charge);
    }
    MolecularUnitsOf(p.units, cs);
    MolecularChargeOf(p.charge);
  }

  // ---------------------------------------------------------------------------------------
  // The delimiter transform

  lemma {:induction false} DelimitAlphabet(s: string)
    ensures forall i :: 0 <= i < |Delimit(s)| ==> Kept(Delimit(s)[i]) || Delimit(s)[i] == ','
    decreases |s|
  {
    if s != [] {
      if Kept(s[0]) {
        DelimitAlphabet(s[1..]);
      } else {
        DelimitAlphabet(s[LeadingRun(s)..]);
      }
    }
  }

  /** A delimited string has no blanks left, so the isotope grammar never needs to skip any. */
  lemma {:induction false} DelimitedHasNoBlanks(s: string)
    ensures forall i :: 0 <= i < |Delimit(s)| ==> !IsBlank(Delimit(s)[i])
  {
    DelimitAlphabet(s);
  }

  /** A string without delimiter characters is left alone. */
  lemma {:induction false} DelimitKept(a: string)
    requires forall i :: 0 <= i < |a| ==> Kept(a[i])
    ensures Delimit(a) == a
    decreases |a|
  {
    if a != [] {
      DelimitKept(a[1..]);
    }
  }

  lemma {:induction false} LeadingRunOf(r: string, b: string)
    requires forall i :: 0 <= i < |r| ==> !Kept(r[i])
    requires b == [] || Kept(b[0])
    ensures LeadingRun(r + b) == |r|
    decreases |r|
  {
    if r != [] {
      assert (r + b)[1..] == r[1..] + b;
      LeadingRunOf(r[1..], b);
    } else {
      assert r + b == b;
    }
  }

  /** A maximal run of delimiters becomes a single comma. */
  lemma {:induction false} DelimitRun(r: string, b: string)
    requires r != [] && forall i :: 0 <= i < |r| ==> !Kept(r[i])
    requires b == [] || Kept(b[0])
    ensures Delimit(r + b) == [','] + Delimit(b)
  {
    LeadingRunOf(r, b);
    assert (r + b)[|r|..] == b;
  }

  lemma {:induction false} LeadingRunConcat(a: string, b: string)
    requires a != [] && Kept(a[|a| - 1])
    ensures LeadingRun(a + b) == LeadingRun(a) < |a|
    decreases |a|
  {
    if !Kept(a[0]) {
      assert (a + b)[1..] == a[1..] + b;
      LeadingRunConcat(a[1..], b);
    }
  }

  /** The transform works piecewise on a string cut just after a kept character. */
  lemma {:induction false} DelimitConcat(a: string, b: string)
    requires a == [] || Kept(a[|a| - 1])
    ensures Delimit(a + b) == Delimit(a) + Delimit(b)
    decreases |a|
  {
    if a == [] {
      assert a + b == b;
    } else if Kept(a[0]) {
      assert (a + b)[1..] == a[1..] + b;
      DelimitConcat(a[1..], b);
    } else {
      LeadingRunConcat(a, b);
      var k := LeadingRun(a);
      RunSuffix(a, b, k);
      DelimitConcat(a[k..], b);
    }
  }

  lemma {:induction false} RunSuffix(a: string, b: string, k: nat)
    requires k < |a|
    ensures (a + b)[k..] == a[k..] + b && a[|a| - 1] == a[k..][|a| - k - 1]
  {
  }

  lemma {:induction false} JoinFirstChar(sep: string, parts: seq<string>)
    requires parts != [] && parts[0] != []
    ensures Join(sep, parts) != [] && Join(sep, parts)[0] == parts[0][0]
  {
  }

  /** Blank-separated pieces without delimiter characters come out comma-separated. */
  lemma {:induction false} DelimitJoin(parts: seq<string>)
    requires forall k :: 0 <= k < |parts| ==> parts[k] != []
    requires forall k, i :: 0 <= k < |parts| && 0 <= i < |parts[k]| ==> Kept(parts[k][i])
    ensures Delimit(Join(" ", parts)) == Join(",", parts)
    decreases |parts|
  {
    if |parts| == 1 {
      DelimitKept(parts[0]);
    } else if |parts| > 1 {
      var first := parts[0];
      var rest := parts[1..];
      DelimitJoin(rest);
      JoinFirstChar(" ", rest);
      var j := Join(" ", rest);
      assert Join(" ", parts) == first + (" " + j);
      DelimitConcat(first, " " + j);
      DelimitKept(first);
      DelimitRun(" ", j);
    }
  }

  // ---------------------------------------------------------------------------------------
  // Isotope notation round trip

  lemma {:induction false} IsotopeUnitOf(u: Unit, t: string)
    requires WfUnit(u) && (t == [] || t[0] == ',')
    ensures IsotopeUnit(ShowIsotopeUnit(u) + t) == Some((u, SkipComma(t)))
  {
    var r1 := u.element + u.count + t;
    assert ShowIsotopeUnit(u) + t == u.atomicMass + r1;
    SplitDigitsOf(u.atomicMass, r1);
    var ct := u.count + t;
    assert r1 == u.element + ct;
    assert ct == [] || !IsLower(ct[0]) by {
      if u.count != [] {
        assert ct[0] == u.count[0];
      }
    }
    SplitSymbolOf(u.element, ct);
    SplitDigitsOf(u.count, t);
  }

  /** The text written for a charge does not start a unit. */
  lemma {:induction false} ChargePartIsNotUnit(c: ChargeTok)
    requires WfCharge(c) && c.sign != []
    ensures IsotopeUnit(ShowIsotopeCharge(c)) == None
  {
    var s := ShowIsotopeCharge(c);
    if c.sign == "0" {
      assert s == "0" + "";
      SplitDigitsOf("0", "");
    } else {
      SplitDigitsOf(c.count, c.sign);
    }
  }

  lemma {:induction false} IsotopeUnitsStep(d: string, u: Unit, rest: string)
    requires IsotopeUnit(d) == Some((u, rest))
    ensures IsotopeUnits(d) == ([u] + IsotopeUnits(rest).0, IsotopeUnits(rest).1)
  {
  }

  lemma {:induction false} IsotopeUnitsStop(d: string)
    requires d == [] || IsotopeUnit(d) == None
    ensures IsotopeUnits(d) == ([], d)
  {
    assert d == [] ==> IsotopeUnit(d) == None;
  }

  /** What may come after the unit parts: nothing, or one piece that is not read as a unit. */
  predicate PartsEnd(ch: seq<string>) {
    |ch| <= 1 && (ch != [] ==> ch[0] != [] && IsotopeUnit(ch[0]) == None)
  }

  lemma {:induction false} IsotopeUnitsNil(ch: seq<string>)
    requires PartsEnd(ch)
    ensures IsotopeUnits(Join(",", UnitParts([]) + ch)) == ([], if ch == [] then [] else ch[0])
  {
    assert UnitParts([]) + ch == ch;
    IsotopeUnitsStop(Join(",", ch));
  }

  lemma {:induction false} IsotopeUnitsLast(u: Unit)
    requires WfUnit(u)
    ensures IsotopeUnits(ShowIsotopeUnit(u)) == ([u], [])
  {
    var w := ShowIsotopeUnit(u);
    assert w + [] == w;
    IsotopeUnitOf(u, []);
    IsotopeUnitsStep(w, u, []);
    IsotopeUnitsStop([]);
    assert [u] + [] == [u];
  }

  lemma {:induction false} UnitPartsCons(us: seq<Unit>, ch: seq<string>)
    requires us != []
    ensures UnitParts(us) + ch == [ShowIsotopeUnit(us[0])] + (UnitParts(us[1..]) + ch)
  {
    assert UnitParts(us) == [ShowIsotopeUnit(us[0])] + UnitParts(us[1..]);
  }

  /** A unit written before a comma and more text is read, and the text after the comma is
      what is left. */
  lemma {:induction false} IsotopeUnitsBeforeComma(u: Unit, j: string)
    requires WfUnit(u)
    ensures IsotopeUnits(ShowIsotopeUnit(u) + "," + j) == ([u] + IsotopeUnits(j).0, IsotopeUnits(j).1)
  {
    IsotopeUnitOf(u, "," + j);
    assert SkipComma("," + j) == j;
    assert ShowIsotopeUnit(u) + "," + j == ShowIsotopeUnit(u) + ("," + j);
    IsotopeUnitsStep(ShowIsotopeUnit(u) + ("," + j), u, j);
  }

  lemma {:induction false} IsotopeUnitsJoinCons(u: Unit, restParts: seq<string>, us: seq<Unit>, r: string)
    requires WfUnit(u)
    requires IsotopeUnits(Join(",", restParts)) == (us, r)
    requires restParts == [] ==> us == [] && r == []
    ensures IsotopeUnits(Join(",", [ShowIsotopeUnit(u)] + restParts)) == ([u] + us, r)
  {
    var w := ShowIsotopeUnit(u);
    if restParts == [] {
      assert [w] + restParts == [w];
      IsotopeUnitsLast(u);
      assert [u] + us == [u];
    } else {
      JoinPrepend(",", w, restParts);
      IsotopeUnitsBeforeComma(u, Join(",", restParts));
    }
  }

  lemma {:induction false} IsotopeUnitsCons(us: seq<Unit>, ch: seq<string>, r: string)
    requires us != [] && WfUnit(us[0])
    requires IsotopeUnits(Join(",", UnitParts(us[1..]) + ch)) == (us[1..], r)
    requires UnitParts(us[1..]) + ch == [] ==> r == []
    ensures IsotopeUnits(Join(",", UnitParts(us) + ch)) == (us, r)
  {
    UnitPartsCons(us, ch);
    IsotopeUnitsJoinCons(us[0], UnitParts(us[1..]) + ch, us[1..], r);
    ConsSlice(us);
  }

  lemma {:induction false} IsotopeUnitsOf(us: seq<Unit>, ch: seq<string>)
    requires AllWf(us) && PartsEnd(ch)
    ensures IsotopeUnits(Join(",", UnitParts(us) + ch)) == (us, if ch == [] then [] else ch[0])
    decreases |us|
  {
    if us == [] {
      IsotopeUnitsNil(ch);
    } else {
      IsotopeUnitsOf(us[1..], ch);
      AllWfIndex(us, 0);
      IsotopeUnitsCons(us, ch, if ch == [] then [] else ch[0]);
    }
  }

  lemma {:induction false} IsotopeChargeOf(c: ChargeTok)
    requires WfCharge(c)
    ensures IsotopeCharge(ShowIsotopeCharge(c)) == (c, "")
  {
    var s := ShowIsotopeCharge(c);
    if c.sign == "+" || c.sign == "-" {
      assert s[0] != 'o' && s[0] != '0' by {
        if c.count != [] {
          assert s[0] == c.count[0];
        }
      }
      SplitDigitsOf(c.count, c.sign);
      assert c.sign[1..] == [];
    }
  }

  lemma {:induction false} IsotopePartsShape(p: Parsed)
    requires WfParsed(p)
    ensures forall k :: 0 <= k < |IsotopeParts(p)| ==> IsotopeParts(p)[k] != []
    ensures forall k, i :: 0 <= k < |IsotopeParts(p)| && 0 <= i < |IsotopeParts(p)[k]| ==>
              Kept(IsotopeParts(p)[k][i])
  {
    var parts := IsotopeParts(p);
    forall k, i | 0 <= k < |parts| && 0 <= i < |parts[k]|
      ensures Kept(parts[k][i])
    {
      if k < |p.units| {
        var u := p.units[k];
        AllWfIndex(p.units, k);
        UnitPartsIndex(p.units, k);
        assert parts[k] == u.atomicMass + u.element + u.count;
        if i < |u.atomicMass| {
          assert parts[k][i] == u.atomicMass[i];
        } else if i < |u.atomicMass| + |u.element| {
          assert parts[k][i] == u.element[i - |u.atomicMass|];
        } else {
          assert parts[k][i] == u.count[i - |u.atomicMass| - |u.element|];
        }
      } else {
        assert parts[k] == p.charge.count + p.charge.sign;
        if i < |p.charge.count| {
          assert parts[k][i] == p.charge.count[i];
        }
      }
    }
    forall k | 0 <= k < |parts|
      ensures parts[k] != []
    {
      if k < |p.units| {
        AllWfIndex(p.units, k);
        UnitPartsIndex(p.units, k);
      }
    }
  }

  /** Isotope notation round trip: the blank-separated form of a well-formed parse result,
      delimited and parsed, gives it back. */
  lemma {:induction false} IsotopeRoundTrip(p: Parsed)
    requires WfParsed(p)
    ensures ParseIsotope(Delimit(ShowIsotope(p))) == Some(p)
  {
    var parts := IsotopeParts(p);
    IsotopePartsShape(p);
    DelimitJoin(parts);
    var ch := if p.charge.sign == [] then [] else [ShowIsotopeCharge(p.charge)];
    if ch != [] {
      ChargePartIsNotUnit(p.charge);
    }
    IsotopeUnitsOf(p.units, ch);
    IsotopeChargeOf(p.charge);
  }

  /** When the first unit carries a mass number the molecular grammar cannot start, so a
      formula written in isotope notation is read back in isotope notation. */
  lemma {:induction false} IsotopeFormulaRoundTrip(p: Parsed)
    requires WfParsed(p) && p.units[0].atomicMass != []
    ensures ParseFormula(ShowIsotope(p)) == Ok(p)
  {
    var s := ShowIsotope(p);
    var parts := IsotopeParts(p);
    var w := ShowIsotopeUnit(p.units[0]);
    assert parts[0] == w;
    if |parts| > 1 {
      JoinPrepend(" ", w, parts[1..]);
      assert parts == [w] + parts[1..];
    }
    assert s[0] == w[0];
    assert MolecularUnit(s) == None;
    IsotopeRoundTrip(p);
  }
}
