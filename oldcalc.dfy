/** interference() and standard_ratio() of the older interference_calculator.py: the same
    enumeration of candidate ions over the package's Molecule, without the target row and
    without inferring a target charge. A target that is absent or whose value is 0 filters
    nothing and leaves difference and resolving power at 0.0; the sign 'O' counts as neutral;
    isotope labels of the ratio table are always rendered, by default as HTML. */
module OldCalculator {
  import opened Wrappers
  import opened Numeric
  import opened Text
  import opened IsotopeTable
  import opened Seqs
  import opened Formulas
  import opened Molecules
  import opened Interferences

  // ---------------------------------------------------------------------------------------
  // Arguments

  /** The charge argument: a single int, which becomes a one-element list, or a list of ints
      taken as it is. */
  datatype OldChargeArg = OneCharge(i: int) | ChargeList(values: seq<int>)

  function OldCharges(arg: OldChargeArg): seq<int> {
    match arg
    case OneCharge(i) => [i]
    case ChargeList(values) => values
  }

  /** The five accepted signs: '+', '-', and the neutral 'o', 'O' and '0'. */
  predicate OldValidSign(sign: string) {
    sign == "+" || sign == "-" || Neutral(sign)
  }

  predicate Neutral(sign: string) {
    sign == "o" || sign == "O" || sign == "0"
  }

  const OldSignError: Error := ValueError("chargesign must be either \"+\", \"-\", or \"o\".")

  const DefaultOldStyle := "html"

  /** The m/z the first `if mz:` produces: None when the argument is not truthy (it stays as
      it is); otherwise float(mz), or the m/z of Molecule(mz) when float() refuses it. */
  function TargetMz(t: Table, mz: TargetArg): Result<Option<Float>> {
    if !Truthy(mz) then Ok(None)
    else match mz
      case Number(v, _) => Ok(Some(v))
      case Text(s) =>
        match ParseFloat(s)
        case Some(v) => Ok(Some(v))
        case None =>
          var m :- Construct(t, s);
          Ok(Some(MoleculeMz(m)))
  }

  /** The second `if mz:` tests the converted value: a target of 0 filters nothing. */
  predicate Filters(mz: Option<Float>) {
    mz.Some? && mz.value != Finite(0.0)
  }

  // ---------------------------------------------------------------------------------------
  // Candidates and rows

  /** The candidate ions before the window: the enumeration of the pool, one uncharged copy
      for a neutral sign, else one copy per charge. */
  function OldCandidates(t: Table, atoms: seq<string>, maxsize: int, charges: seq<int>, sign: string)
    : Result<seq<Candidate>>
  {
    var pool := Pool(t, atoms);
    var m := Sizes(maxsize);
    var names := MapSeq(IsotopeCombos(pool, m), SpaceJoin);
    var masses := MapSeq(MassCombos(pool, m), RSum);
    if Neutral(sign) then Ok(ChargeCopy(names, masses, 0, sign)) else Charged(names, masses, charges, sign)
  }

  /** One output row: formula, charge, m/z, difference, resolving power, probability. */
  datatype OldRow = OldRow(molecule: string, charge: int, mz: Float, diff: Float, mrp: Float, probability: Float)

  function OldDiff(x: real, mz: Option<Float>): Float {
    if Filters(mz) && mz.value.Finite? then Finite(x - mz.value.v) else Finite(0.0)
  }

  function OldResolving(x: real, mz: Option<Float>): Float {
    if Filters(mz) && mz.value.Finite? then Div(mz.value, Finite(Abs(x - mz.value.v))) else Finite(0.0)
  }

  function OldRowOf(t: Table, c: Candidate, mz: Option<Float>, style: string): Result<OldRow> {
    var m :- Construct(t, c.molecule);
    var f :- FormulaText(t, CompositionOf(m), StyleOptions(style));
    Ok(OldRow(f, c.charge, Finite(c.mz), OldDiff(c.mz, mz), OldResolving(c.mz, mz), m.abundance))
  }

  function OldRowOfWith(t: Table, mz: Option<Float>, style: string): Candidate -> Result<OldRow> {
    c => OldRowOf(t, c, mz, style)
  }

  function OldAnnotated(t: Table, cs: seq<Candidate>, mz: Option<Float>, style: string): (r: Result<seq<OldRow>>)
    ensures r.Ok? <==> forall j :: 0 <= j < |cs| ==> OldRowOf(t, cs[j], mz, style).Ok?
    ensures r.Ok? ==> |r.value| == |cs| && forall j :: 0 <= j < |cs| ==> OldRowOf(t, cs[j], mz, style) == Ok(r.value[j])
    ensures r.Err? ==> exists j :: 0 <= j < |cs| && OldRowOf(t, cs[j], mz, style) == Err(r.error)
                          && forall k :: 0 <= k < j ==> OldRowOf(t, cs[k], mz, style).Ok?
  {
    MapResult(cs, OldRowOfWith(t, mz, style))
  }

  function OldKept(cs: seq<Candidate>, mz: Option<Float>, range: real): seq<Candidate> {
    if Filters(mz) then Window(cs, mz.value, range) else cs
  }

  function OldSearch(t: Table, atoms: seq<string>, mz: Option<Float>, range: real, maxsize: int,
                     charges: seq<int>, sign: string, style: string): Result<seq<OldRow>>
  {
    var cs :- OldCandidates(t, atoms, maxsize, charges, sign);
    OldAnnotated(t, OldKept(cs, mz, range), mz, style)
  }

  /** interference(atoms, mz, mzrange, maxsize, charge, chargesign, style): the sign is
      checked, the target converted, and the candidates searched. */
  function OldInterferenceSpec(t: Table, atoms: seq<string>, mz: TargetArg, range: real, maxsize: int,
                               charge: OldChargeArg, sign: string, style: string): Result<seq<OldRow>>
  {
    var charges := OldCharges(charge);
    if !OldValidSign(sign) then Err(OldSignError)
    else
      var target :- TargetMz(t, mz);
      OldSearch(t, atoms, target, range, maxsize, charges, sign, style)
  }

  /** standard_ratio(atoms, style): the package's table, with the labels always rendered. */
  function OldStandardRatioSpec(t: Table, atoms: seq<string>, style: string): Result<seq<RatioRow>> {
    StandardRatioWith(t, atoms, style, true)
  }

  // ---------------------------------------------------------------------------------------
  // The procedures

  /** The first `if mz:`, building the Molecule of a formula target. */
  method TargetMzOf(t: Table, mz: TargetArg) returns (r: Result<Option<Float>>)
    ensures r == TargetMz(t, mz)
  {
    if !Truthy(mz) {
      return Ok(None);
    }
    match mz {
      case Number(v, _) =>
        return Ok(Some(v));
      case Text(s) =>
        var number := ParseFloat(s);
        if number.Some? {
          return Ok(number);
        }
        var mr := New(t, s);
        if mr.Err? {
          return Err(mr.error);
        }
        var m := mr.value;
        var value := m.mass;
        if m.charge > 0 {
          value := value / m.charge as real;
        }
        return Ok(Some(Finite(value)));
    }
  }

  /** The loop that builds a Molecule for every kept row and collects its probability and
      formula. */
  method OldAnnotateRows(t: Table, kept: seq<Candidate>, mz: Option<Float>, style: string)
    returns (r: Result<seq<OldRow>>)
    ensures r == OldAnnotated(t, kept, mz, style)
  {
    var rows: seq<OldRow> := [];
    for i := 0 to |kept|
      invariant |rows| == i
      invariant MappedPrefix(kept, OldRowOfWith(t, mz, style), rows)
    {
      var row := OldRowFor(t, kept[i], mz, style);
      if row.Err? {
        MappedFailure(kept, OldRowOfWith(t, mz, style), rows);
        return Err(row.error);
      }
      MappedStep(kept, OldRowOfWith(t, mz, style), rows, row.value);
      rows := rows + [row.value];
    }
    MappedPass(kept, OldRowOfWith(t, mz, style), rows);
    return Ok(rows);
  }

  /** One kept row: Molecule(label), its probability and its formula in the style. */
  method OldRowFor(t: Table, c: Candidate, mz: Option<Float>, style: string) returns (r: Result<OldRow>)
    ensures r == OldRowOf(t, c, mz, style)
  {
    var m := New(t, c.molecule);
    if m.Err? {
      return Err(m.error);
    }
    var f := m.value.Formula(t, StyleOptions(style));
    if f.Err? {
      return Err(f.error);
    }
    return Ok(OldRow(f.value, c.charge, Finite(c.mz), OldDiff(c.mz, mz), OldResolving(c.mz, mz), m.value.abundance));
  }

  /** The first row whose molecule fails decides the error. */
  lemma {:induction false} OldAnnotatedFailure(t: Table, cs: seq<Candidate>, mz: Option<Float>, style: string, i: nat)
    requires i < |cs| && OldRowOf(t, cs[i], mz, style).Err?
    requires forall k :: 0 <= k < i ==> OldRowOf(t, cs[k], mz, style).Ok?
    ensures OldAnnotated(t, cs, mz, style) == Err(OldRowOf(t, cs[i], mz, style).error)
  {
    var f := OldRowOfWith(t, mz, style);
    forall k | 0 <= k < i ensures f(cs[k]).Ok? {
      assert f(cs[k]) == OldRowOf(t, cs[k], mz, style);
    }
    assert f(cs[i]) == OldRowOf(t, cs[i], mz, style);
    FirstFailing(cs, f, i);
  }

  /** The body of interference() of interference_calculator.py. */
  method OldInterference(t: Table, atoms: seq<string>, mz: TargetArg, range: real, maxsize: int,
                         charge: OldChargeArg, sign: string, style: string)
    returns (r: Result<seq<OldRow>>)
    ensures r == OldInterferenceSpec(t, atoms, mz, range, maxsize, charge, sign, style)
  {
    var charges := if charge.OneCharge? then [charge.i] else charge.values;
    if !OldValidSign(sign) {
      return Err(OldSignError);
    }
    var pool := Pool(t, atoms);
    var target :- TargetMzOf(t, mz);
    var isotopeCombos, massCombos := Enumerate(pool, maxsize);
    var names := MapSeq(isotopeCombos, SpaceJoin);
    var masses := MapSeq(massCombos, RSum);
    var data;
    if Neutral(sign) {
      data := ChargeCopy(names, masses, 0, sign);
    } else {
      data :- ChargeData(names, masses, charges, sign);
    }
    assert OldCandidates(t, atoms, maxsize, charges, sign) == Ok(data);
    var kept := if target.Some? && target.value != Finite(0.0) then Window(data, target.value, range) else data;
    r := OldAnnotateRows(t, kept, target, style);
  }

  /** standard_ratio() of interference_calculator.py. */
  method OldStandardRatio(t: Table, atoms: seq<string>, style: string) returns (r: Result<seq<RatioRow>>)
    ensures r == OldStandardRatioSpec(t, atoms, style)
  {
    r := StandardRatioWithRender(t, atoms, style, true);
  }
}
