/** The top-level main.py: the same interference() except that a target whose charge was
    filled in from the search keeps its label as given, and a standard_ratio() that renders
    the isotopes for every style, 'html' by default. */
module RootMain {
  import opened Wrappers
  import opened Numeric
  import opened Text
  import opened IsotopeTable
  import opened Interferences
  import opened Seqs
  import opened Molecules

  /** interference() of main.py. */
  function InterferenceSpec(t: Table, atoms: seq<string>, target: TargetArg, range: real, maxsize: int,
                            charge: ChargeArg, sign: string, style: string): Result<seq<Row>>
  {
    InterferenceWithSpec(t, atoms, target, range, maxsize, charge, sign, style, false)
  }

  method Interference(t: Table, atoms: seq<string>, target: TargetArg, range: real, maxsize: int,
                      charge: ChargeArg, sign: string, style: string)
    returns (r: Result<seq<Row>>)
    ensures r == InterferenceSpec(t, atoms, target, range, maxsize, charge, sign, style)
  {
    r := InterferenceWith(t, atoms, target, range, maxsize, charge, sign, style, false);
  }

  /** The default style of main.py's standard_ratio(). */
  const DefaultRatioStyle: string := "html"

  /** standard_ratio() of main.py. */
  function StandardRatioSpec(t: Table, atoms: seq<string>, style: string): Result<seq<RatioRow>> {
    StandardRatioWith(t, atoms, style, true)
  }

  method StandardRatio(t: Table, atoms: seq<string>, style: string) returns (r: Result<seq<RatioRow>>)
    ensures r == StandardRatioSpec(t, atoms, style)
  {
    r := StandardRatioWithRender(t, atoms, style, true);
  }

  /** A formula target keeps its text as its label. */
  lemma {:induction false} LabelKept(t: Table, s: string, charges: seq<int>, sign: string)
    requires ResolveTargetWith(t, Text(s), charges, sign, false).Ok?
    ensures ResolveTargetWith(t, Text(s), charges, sign, false).value.name == Some(s)
  {
    if Truthy(Text(s)) && ParseFloat(s).None? {
      FormulaTargetOf(t, s, charges, sign, false, Construct(t, s));
    }
  }

  /** The target a formula resolves to, given what constructing its molecule gives. */
  lemma {:induction false} FormulaTargetOf(t: Table, s: string, charges: seq<int>, sign: string, relabel: bool,
                                           mr: Result<MolState>)
    requires Construct(t, s) == mr
    ensures mr.Err? ==> FormulaTarget(t, s, charges, sign, relabel) == Err(mr.error)
    ensures mr.Ok? ==>
              var m := mr.value;
              var tsign := if m.chargeSign != "" then m.chargeSign else sign;
              if m.charge == 0 && charges == [] then
                FormulaTarget(t, s, charges, sign, relabel) == Err(LookupError("tuple index out of range"))
              else
                var tcharge := if m.charge != 0 then m.charge as int else charges[0];
                var inferred := m.chargeSign == "" || m.charge == 0;
                FormulaTarget(t, s, charges, sign, relabel)
                  == Ok(TargetInfo(Some(if relabel && inferred then s + ChargeSuffix(tcharge, tsign) else s),
                                   tcharge, MoleculeMz(m), m.abundance, true))
  {
  }

  /** The two versions resolve the same target, up to its label. */
  lemma {:induction false} SameTarget(t: Table, target: TargetArg, charges: seq<int>, sign: string)
    ensures var a := ResolveTargetWith(t, target, charges, sign, false);
            var b := ResolveTargetWith(t, target, charges, sign, true);
            a.Ok? == b.Ok?
            && (a.Err? ==> a.error == b.error)
            && (a.Ok? ==> a.value == b.value.(name := a.value.name))
  {
    if Truthy(target) && target.Text? && ParseFloat(target.s).None? {
      SameFormulaTarget(t, target.s, charges, sign);
    }
  }

  lemma {:induction false} SameFormulaTarget(t: Table, s: string, charges: seq<int>, sign: string)
    ensures var a := FormulaTarget(t, s, charges, sign, false);
            var b := FormulaTarget(t, s, charges, sign, true);
            a.Ok? == b.Ok?
            && (a.Err? ==> a.error == b.error)
            && (a.Ok? ==> a.value == b.value.(name := a.value.name))
  {
    FormulaTargetOf(t, s, charges, sign, false, Construct(t, s));
    FormulaTargetOf(t, s, charges, sign, true, Construct(t, s));
  }

  /** A row does not depend on the target's label. */
  lemma {:induction false} RowIgnoresLabel(t: Table, c: Candidate, info: TargetInfo, name: Option<string>, style: string)
    ensures RowOf(t, c, info, style) == RowOf(t, c, info.(name := name), style)
  {
    assert Diff(c.mz, info) == Diff(c.mz, info.(name := name));
    assert Resolving(c.mz, info) == Resolving(c.mz, info.(name := name));
  }

  /** Rows do not depend on the target's label. */
  lemma {:induction false} RowsIgnoreLabel(t: Table, kept: seq<Candidate>, info: TargetInfo, name: Option<string>, style: string)
    ensures Annotated(t, kept, info, style) == Annotated(t, kept, info.(name := name), style)
  {
    var other := info.(name := name);
    forall k | 0 <= k < |kept|
      ensures RowOfWith(t, info, style)(kept[k]) == RowOfWith(t, other, style)(kept[k])
    {
      RowIgnoresLabel(t, kept[k], info, name, style);
    }
    MapResultAgree(kept, RowOfWith(t, info, style), RowOfWith(t, other, style));
  }

  /** main.py and the package's main.py give the same interference rows and fail alike; only
      the target row's label may differ. */
  lemma {:induction false} VersionsAgree(t: Table, atoms: seq<string>, target: TargetArg, range: real, maxsize: int,
                      charge: ChargeArg, sign: string, style: string)
    ensures var a := InterferenceSpec(t, atoms, target, range, maxsize, charge, sign, style);
            var b := Interferences.InterferenceSpec(t, atoms, target, range, maxsize, charge, sign, style);
            a.Ok? == b.Ok?
            && (a.Err? ==> a.error == b.error)
            && (a.Ok? ==>
                  |a.value| == |b.value| && a.value[..|a.value| - 1] == b.value[..|b.value| - 1]
                  && a.value[|a.value| - 1] == b.value[|b.value| - 1].(molecule := a.value[|a.value| - 1].molecule))
  {
    SpecOutcome(t, atoms, target, range, maxsize, charge, sign, style, false);
    SpecOutcome(t, atoms, target, range, maxsize, charge, sign, style, true);
    var cs := Charges(charge);
    if cs.Ok? && ValidSign(sign) {
      SameTarget(t, target, cs.value, sign);
      var ia := ResolveTargetWith(t, target, cs.value, sign, false);
      var ib := ResolveTargetWith(t, target, cs.value, sign, true);
      if ia.Ok? {
        SearchIgnoresLabel(t, atoms, ib.value, ia.value.name, range, maxsize, cs.value, sign, style);
      }
    }
  }

  /** interference() checks the charges, then the sign, then the target, and then searches. */
  lemma SpecOutcome(t: Table, atoms: seq<string>, target: TargetArg, range: real, maxsize: int,
                    charge: ChargeArg, sign: string, style: string, relabel: bool)
    ensures var r := InterferenceWithSpec(t, atoms, target, range, maxsize, charge, sign, style, relabel);
            var cs := Charges(charge);
            (cs.Err? ==> r == Err(cs.error))
            && (cs.Ok? && !ValidSign(sign) ==> r == Err(SignError))
            && (cs.Ok? && ValidSign(sign) ==>
                  var info := ResolveTargetWith(t, target, cs.value, sign, relabel);
                  (info.Err? ==> r == Err(info.error))
                  && (info.Ok? ==> r == Search(t, atoms, info.value, range, maxsize, cs.value, sign, style)))
  {
  }

  /** The search keeps and annotates the same rows whatever the target's label. */
  lemma {:induction false} SearchIgnoresLabel(t: Table, atoms: seq<string>, info: TargetInfo, name: Option<string>, range: real,
                           maxsize: int, charges: seq<int>, sign: string, style: string)
    ensures var a := Search(t, atoms, info.(name := name), range, maxsize, charges, sign, style);
            var b := Search(t, atoms, info, range, maxsize, charges, sign, style);
            a.Ok? == b.Ok?
            && (a.Err? ==> a.error == b.error)
            && (a.Ok? ==>
                  |a.value| == |b.value| && a.value[..|a.value| - 1] == b.value[..|b.value| - 1]
                  && a.value[|a.value| - 1] == b.value[|b.value| - 1].(molecule := name))
  {
    var c := Candidates(t, atoms, maxsize, charges, sign);
    if c.Ok? {
      var kept := Kept(c.value, info, range);
      assert kept == Kept(c.value, info.(name := name), range);
      RowsIgnoreLabel(t, kept, info, name, style);
    }
  }
}
