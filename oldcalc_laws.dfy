/** What the older interference() promises, and how it relates to the package version: the
    rows are exactly the kept candidates, with no target row; a target of 0 filters nothing;
    the sign 'O' is neutral; a formula target has the package's m/z; and, for a numeric or
    absent target, both versions give the same rows, except that the package labels them as
    non-target rows, appends its target row and reports an infinite rather than a zero
    resolving power when nothing is filtered. */
module OldCalculatorLaws {
  import opened Wrappers
  import opened Numeric
  import opened Text
  import opened IsotopeTable
  import opened Seqs
  import opened Formulas
  import opened Molecules
  import opened Interferences
  import opened OldCalculator

  // ---------------------------------------------------------------------------------------
  // Rows

  /** A successful search gives one row per kept candidate, in order and nothing else, with
      the candidate's charge and m/z, the difference and resolving power against the target,
      and the probability of the candidate's molecule. */
  lemma {:induction false} OldRows(t: Table, atoms: seq<string>, mz: Option<Float>, range: real, maxsize: int,
                charges: seq<int>, sign: string, style: string)
    requires OldSearch(t, atoms, mz, range, maxsize, charges, sign, style).Ok?
    ensures var rows := OldSearch(t, atoms, mz, range, maxsize, charges, sign, style).value;
            var kept := OldKept(OldCandidates(t, atoms, maxsize, charges, sign).value, mz, range);
            |rows| == |kept|
            && forall j :: 0 <= j < |kept| ==>
                 rows[j].charge == kept[j].charge && rows[j].mz == Finite(kept[j].mz)
                 && rows[j].diff == OldDiff(kept[j].mz, mz) && rows[j].mrp == OldResolving(kept[j].mz, mz)
                 && Construct(t, kept[j].molecule).Ok?
                 && rows[j].probability == Construct(t, kept[j].molecule).value.abundance
  {
    var cs := OldCandidates(t, atoms, maxsize, charges, sign).value;
    var kept := OldKept(cs, mz, range);
    var rows := OldAnnotated(t, kept, mz, style).value;
    forall j | 0 <= j < |kept|
      ensures Construct(t, kept[j].molecule).Ok?
              && rows[j] == OldRow(rows[j].molecule, kept[j].charge, Finite(kept[j].mz), OldDiff(kept[j].mz, mz),
                                   OldResolving(kept[j].mz, mz), Construct(t, kept[j].molecule).value.abundance)
    {
      OldRowFields(t, kept[j], mz, style, rows[j]);
    }
  }

  /** The fields of one successfully annotated candidate. */
  lemma OldRowFields(t: Table, c: Candidate, mz: Option<Float>, style: string, row: OldRow)
    requires OldRowOf(t, c, mz, style) == Ok(row)
    ensures Construct(t, c.molecule).Ok?
            && row == OldRow(row.molecule, c.charge, Finite(c.mz), OldDiff(c.mz, mz),
                             OldResolving(c.mz, mz), Construct(t, c.molecule).value.abundance)
  {
  }

  /** A nonzero target keeps exactly the candidates in its inclusive window; the difference is
      the signed distance and the resolving power the target over its absolute value. */
  lemma {:induction false} OldWindow(cs: seq<Candidate>, mz: Option<Float>, range: real)
    requires Filters(mz)
    ensures forall c :: c in OldKept(cs, mz, range) <==>
              c in cs && mz.value.Finite? && mz.value.v - range <= c.mz <= mz.value.v + range
    ensures forall c :: c in OldKept(cs, mz, range) ==>
              OldDiff(c.mz, mz) == Finite(c.mz - mz.value.v)
              && OldResolving(c.mz, mz) == Div(mz.value, Finite(Abs(c.mz - mz.value.v)))
  {
  }

  /** No target, or a target whose value is 0, keeps every candidate with difference and
      resolving power 0.0. */
  lemma {:induction false} OldNoFilter(cs: seq<Candidate>, mz: Option<Float>, range: real)
    requires !Filters(mz)
    ensures OldKept(cs, mz, range) == cs
    ensures forall x :: OldDiff(x, mz) == Finite(0.0) && OldResolving(x, mz) == Finite(0.0)
  {
  }

  /** The sign 'O' behaves like 'o': one uncharged copy whatever the charge list, even an
      empty one. */
  lemma {:induction false} CapitalO(t: Table, atoms: seq<string>, maxsize: int, charges: seq<int>)
    ensures OldCandidates(t, atoms, maxsize, charges, "O") == Candidates(t, atoms, maxsize, charges, "o")
    ensures OldCandidates(t, atoms, maxsize, charges, "O").Ok?
    ensures forall c :: c in OldCandidates(t, atoms, maxsize, charges, "O").value ==> c.charge == 0
  {
    var pool := Pool(t, atoms);
    var m := Sizes(maxsize);
    var names := MapSeq(IsotopeCombos(pool, m), SpaceJoin);
    var masses := MapSeq(MassCombos(pool, m), RSum);
    assert ChargeCopy(names, masses, 0, "O") == ChargeCopy(names, masses, 0, "o");
  }

  /** The sign is checked first; a formula target that does not parse fails next; a charged
      sign with an empty charge list fails when the copies are concatenated. */
  lemma {:induction false} OldArgumentErrors(t: Table, atoms: seq<string>, mz: TargetArg, range: real, maxsize: int,
                          charge: OldChargeArg, sign: string, style: string)
    ensures !OldValidSign(sign) ==>
              OldInterferenceSpec(t, atoms, mz, range, maxsize, charge, sign, style) == Err(OldSignError)
    ensures OldValidSign(sign) && TargetMz(t, mz).Err? ==>
              OldInterferenceSpec(t, atoms, mz, range, maxsize, charge, sign, style) == Err(TargetMz(t, mz).error)
    ensures OldValidSign(sign) && !Neutral(sign) && TargetMz(t, mz).Ok? && charge == ChargeList([]) ==>
              OldInterferenceSpec(t, atoms, mz, range, maxsize, charge, sign, style)
                == Err(ValueError("No objects to concatenate"))
  {
  }

  // ---------------------------------------------------------------------------------------
  // Targets

  /** A formula target has the m/z of the package's target (the molecule's own charge, not
      an inferred one, divides its mass), and fails exactly when its molecule does. */
  lemma {:induction false} FormulaTargetMz(t: Table, s: string, charges: seq<int>, sign: string, relabel: bool)
    requires s != [] && ParseFloat(s).None?
    ensures TargetMz(t, Text(s)).Err? <==> Construct(t, s).Err?
    ensures TargetMz(t, Text(s)).Err? ==> TargetMz(t, Text(s)).error == Construct(t, s).error
    ensures FormulaTarget(t, s, charges, sign, relabel).Ok? ==>
              TargetMz(t, Text(s)) == Ok(Some(FormulaTarget(t, s, charges, sign, relabel).value.mz))
  {
    var m := Construct(t, s);
    assert TargetMz(t, Text(s)) == if m.Ok? then Ok(Some(MoleculeMz(m.value))) else Err(m.error);
  }

  /** A numeric or absent target becomes a value that filters exactly when the package's
      target is active, at the same m/z. */
  lemma {:induction false} NumericTargetMz(t: Table, target: TargetArg, charges: seq<int>, sign: string, relabel: bool)
    requires target.NoTarget? || target.Number?
    ensures TargetMz(t, target).Ok? && ResolveTargetWith(t, target, charges, sign, relabel).Ok?
    ensures var info := ResolveTargetWith(t, target, charges, sign, relabel).value;
            var mz := TargetMz(t, target).value;
            info.active == Filters(mz) && (Filters(mz) ==> info.mz == mz.value)
  {
  }

  // ---------------------------------------------------------------------------------------
  // Agreement with the package version

  /** A package row that describes the same candidate as an old row: the formula, charge,
      m/z, difference and probability agree; the resolving power agrees when a target
      filters and is inf against 0.0 when none does. */
  predicate RowMatches(r: Row, o: OldRow, filtered: bool) {
    r.molecule == Some(o.molecule) && r.charge == o.charge && r.mz == o.mz && r.diff == o.diff
    && r.probability == o.probability && !r.target
    && (if filtered then r.mrp == o.mrp else r.mrp == PosInf && o.mrp == Finite(0.0))
  }

  /** The package's charge list of the same ints. */
  function IntCharges(charges: seq<int>): (r: seq<ChargeValue>)
    ensures |r| == |charges| && forall j :: 0 <= j < |charges| ==> r[j] == IntCharge(charges[j])
  {
    seq(|charges|, j requires 0 <= j < |charges| => IntCharge(charges[j]))
  }

  lemma {:induction false} IntChargesRead(charges: seq<int>)
    ensures Charges(Many(IntCharges(charges))) == Ok(charges)
  {
    var r := Charges(Many(IntCharges(charges)));
    assert r.Ok? by {
      forall j | 0 <= j < |charges| ensures IntOf(IntCharges(charges)[j]).Ok? {
        assert IntOf(IntCharge(charges[j])) == Ok(charges[j]);
      }
    }
    assert r.value == charges by {
      forall j | 0 <= j < |charges| ensures r.value[j] == charges[j] {
        assert IntOf(IntCharge(charges[j])) == Ok(r.value[j]);
      }
    }
  }

  /** One candidate: both versions build the same molecule, so they fail together with the
      same error or give matching rows. */
  lemma {:induction false} RowAgrees(t: Table, c: Candidate, info: TargetInfo, mz: Option<Float>, style: string)
    requires info.active == Filters(mz) && (Filters(mz) ==> info.mz == mz.value && mz.value.Finite?)
    ensures RowOf(t, c, info, style).Ok? <==> OldRowOf(t, c, mz, style).Ok?
    ensures RowOf(t, c, info, style).Err? ==> RowOf(t, c, info, style).error == OldRowOf(t, c, mz, style).error
    ensures RowOf(t, c, info, style).Ok? ==>
              RowMatches(RowOf(t, c, info, style).value, OldRowOf(t, c, mz, style).value, Filters(mz))
  {
    var m := Construct(t, c.molecule);
    if m.Ok? {
      var f := FormulaText(t, CompositionOf(m.value), StyleOptions(style));
      if f.Ok? {
        DiffAgrees(c.mz, info, mz);
        assert RowOf(t, c, info, style)
                 == Ok(Row(Some(f.value), c.charge, Finite(c.mz), Diff(c.mz, info), Resolving(c.mz, info),
                           m.value.abundance, false));
        assert OldRowOf(t, c, mz, style)
                 == Ok(OldRow(f.value, c.charge, Finite(c.mz), OldDiff(c.mz, mz), OldResolving(c.mz, mz),
                              m.value.abundance));
      }
    }
  }

  lemma {:induction false} DiffAgrees(x: real, info: TargetInfo, mz: Option<Float>)
    requires info.active == Filters(mz) && (Filters(mz) ==> info.mz == mz.value)
    ensures Diff(x, info) == OldDiff(x, mz)
    requires Filters(mz) ==> mz.value.Finite?
    ensures if Filters(mz) then Resolving(x, info) == OldResolving(x, mz)
            else Resolving(x, info) == PosInf && OldResolving(x, mz) == Finite(0.0)
  {
  }

  /** The kept candidates: the same first failure, or matching rows one for one. */
  lemma {:induction false} RowsAgree(t: Table, cs: seq<Candidate>, info: TargetInfo, mz: Option<Float>, style: string)
    requires info.active == Filters(mz) && (Filters(mz) ==> info.mz == mz.value)
    requires Filters(mz) && !mz.value.Finite? ==> cs == []
    ensures Annotated(t, cs, info, style).Ok? <==> OldAnnotated(t, cs, mz, style).Ok?
    ensures Annotated(t, cs, info, style).Err? ==>
              Annotated(t, cs, info, style).error == OldAnnotated(t, cs, mz, style).error
    ensures Annotated(t, cs, info, style).Ok? ==>
              |Annotated(t, cs, info, style).value| == |OldAnnotated(t, cs, mz, style).value| == |cs|
              && forall j :: 0 <= j < |cs| ==>
                   RowMatches(Annotated(t, cs, info, style).value[j], OldAnnotated(t, cs, mz, style).value[j],
                              Filters(mz))
  {
    var r := Annotated(t, cs, info, style);
    var o := OldAnnotated(t, cs, mz, style);
    forall j | 0 <= j < |cs|
      ensures RowOf(t, cs[j], info, style).Ok? <==> OldRowOf(t, cs[j], mz, style).Ok?
      ensures RowOf(t, cs[j], info, style).Err? ==> RowOf(t, cs[j], info, style).error == OldRowOf(t, cs[j], mz, style).error
      ensures RowOf(t, cs[j], info, style).Ok? ==>
                RowMatches(RowOf(t, cs[j], info, style).value, OldRowOf(t, cs[j], mz, style).value, Filters(mz))
    {
      RowAgrees(t, cs[j], info, mz, style);
    }
    if r.Err? {
      var j :| 0 <= j < |cs| && RowOf(t, cs[j], info, style) == Err(r.error)
               && forall k :: 0 <= k < j ==> RowOf(t, cs[k], info, style).Ok?;
      OldAnnotatedFailure(t, cs, mz, style, j);
    }
  }

  /** After the target: both versions enumerate the same candidates, keep the same ones, and
      give matching rows, the package adding its target row last. */
  lemma {:induction false} SearchAgrees(t: Table, atoms: seq<string>, info: TargetInfo, mz: Option<Float>, range: real, maxsize: int,
                     charges: seq<int>, sign: string, style: string)
    requires ValidSign(sign)
    requires info.active == Filters(mz) && (Filters(mz) ==> info.mz == mz.value)
    ensures var r := Search(t, atoms, info, range, maxsize, charges, sign, style);
            var o := OldSearch(t, atoms, mz, range, maxsize, charges, sign, style);
            (r.Ok? <==> o.Ok?) && (r.Err? ==> r.error == o.error)
            && (r.Ok? ==> |r.value| == |o.value| + 1 && r.value[|o.value|].target
                          && forall j :: 0 <= j < |o.value| ==> RowMatches(r.value[j], o.value[j], Filters(mz)))
  {
    assert OldCandidates(t, atoms, maxsize, charges, sign) == Candidates(t, atoms, maxsize, charges, sign);
    var cs := Candidates(t, atoms, maxsize, charges, sign);
    if cs.Ok? {
      var kept := Kept(cs.value, info, range);
      assert OldKept(cs.value, mz, range) == kept;
      if Filters(mz) && !mz.value.Finite? {
        EmptyWindow(cs.value, mz.value, range);
      }
      RowsAgree(t, kept, info, mz, style);
    }
  }

  /** An infinite or NaN target keeps nothing. */
  lemma EmptyWindow(cs: seq<Candidate>, target: Float, range: real)
    requires !target.Finite?
    ensures Window(cs, target, range) == []
  {
  }

  /** For a numeric or absent target and a list of int charges, the two versions fail
      together with the same error, or give the same rows as described by RowMatches, the
      package's rows ending in one target row. */
  lemma {:induction false} AgreesWithPackage(t: Table, atoms: seq<string>, target: TargetArg, range: real, maxsize: int,
                          charges: seq<int>, sign: string, style: string)
    requires target.NoTarget? || target.Number?
    requires ValidSign(sign)
    ensures var r := InterferenceSpec(t, atoms, target, range, maxsize, Many(IntCharges(charges)), sign, style);
            var o := OldInterferenceSpec(t, atoms, target, range, maxsize, ChargeList(charges), sign, style);
            (r.Ok? <==> o.Ok?) && (r.Err? ==> r.error == o.error)
            && (r.Ok? ==> |r.value| == |o.value| + 1 && r.value[|o.value|].target
                          && forall j :: 0 <= j < |o.value| ==> RowMatches(r.value[j], o.value[j], Truthy(target)))
  {
    IntChargesRead(charges);
    NumericTargetMz(t, target, charges, sign, true);
    var info := ResolveTargetWith(t, target, charges, sign, true).value;
    var mz := TargetMz(t, target).value;
    assert Filters(mz) == Truthy(target);
    assert InterferenceSpec(t, atoms, target, range, maxsize, Many(IntCharges(charges)), sign, style)
             == Search(t, atoms, info, range, maxsize, charges, sign, style);
    assert OldInterferenceSpec(t, atoms, target, range, maxsize, ChargeList(charges), sign, style)
             == OldSearch(t, atoms, mz, range, maxsize, charges, sign, style);
    SearchAgrees(t, atoms, info, mz, range, maxsize, charges, sign, style);
  }

  /** The older standard_ratio() renders the labels in every style, so it agrees with the
      package version in every style but 'plain', where the package keeps the keys. */
  lemma {:induction false} OldRatioAgrees(t: Table, atoms: seq<string>, style: string)
    ensures style != "plain" ==> OldStandardRatioSpec(t, atoms, style) == StandardRatioSpec(t, atoms, style)
    ensures OldStandardRatioSpec(t, atoms, style) == StandardRatioWith(t, atoms, style, true)
  {
  }
}
