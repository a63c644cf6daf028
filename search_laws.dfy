/** What interference() and standard_ratio() promise: the target row comes last and alone, a
    target keeps exactly the candidates in its window, every multiset of pool isotopes is a
    candidate exactly once, the electron correction of a candidate agrees with that of a
    formula target, and ratios are normalised to the element's most abundant isotope. */
module InterferenceLaws {
  import opened Wrappers
  import opened Numeric
  import opened Text
  import opened IsotopeTable
  import opened Seqs
  import opened Molecules
  import opened Combinations
  import opened Interferences
  import MoleculeLaws

  // ---------------------------------------------------------------------------------------
  // Rows

  /** A successful search ends with the one target row; every row before it is a kept
      candidate, with the candidate's charge and m/z, the difference and resolving power
      against the target, and the probability of the candidate's molecule. */
  lemma {:induction false} SearchRows(t: Table, atoms: seq<string>, info: TargetInfo, range: real, maxsize: int,
                   charges: seq<int>, sign: string, style: string)
    requires Search(t, atoms, info, range, maxsize, charges, sign, style).Ok?
    ensures var rows := Search(t, atoms, info, range, maxsize, charges, sign, style).value;
            var kept := Kept(Candidates(t, atoms, maxsize, charges, sign).value, info, range);
            |rows| == |kept| + 1
            && rows[|kept|] == TargetRow(info) && rows[|kept|].target
            && forall j :: 0 <= j < |kept| ==>
                 !rows[j].target && rows[j].charge == kept[j].charge && rows[j].mz == Finite(kept[j].mz)
                 && rows[j].diff == Diff(kept[j].mz, info) && rows[j].mrp == Resolving(kept[j].mz, info)
                 && Construct(t, kept[j].molecule).Ok?
                 && rows[j].probability == Construct(t, kept[j].molecule).value.abundance
  {
    var cs := Candidates(t, atoms, maxsize, charges, sign).value;
    var kept := Kept(cs, info, range);
    var rows := Annotated(t, kept, info, style).value;
    forall j | 0 <= j < |kept|
      ensures Construct(t, kept[j].molecule).Ok?
              && rows[j] == Row(rows[j].molecule, kept[j].charge, Finite(kept[j].mz), Diff(kept[j].mz, info),
                                Resolving(kept[j].mz, info), Construct(t, kept[j].molecule).value.abundance, false)
    {
      assert RowOf(t, kept[j], info, style) == Ok(rows[j]);
    }
  }

  /** With a target, a candidate is kept exactly when its m/z lies in the inclusive window,
      and the kept rows keep their order; the difference is the signed distance to the target
      and the resolving power the target over its absolute value. */
  lemma {:induction false} TargetWindow(cs: seq<Candidate>, info: TargetInfo, range: real)
    requires info.active
    ensures forall c :: c in Kept(cs, info, range) <==>
              c in cs && info.mz.Finite? && info.mz.v - range <= c.mz <= info.mz.v + range
    ensures forall c :: c in Kept(cs, info, range) ==>
              Diff(c.mz, info) == Finite(c.mz - info.mz.v)
              && Resolving(c.mz, info) == Div(info.mz, Finite(Abs(c.mz - info.mz.v)))
  {
  }

  /** Without a target nothing is filtered, every difference is 0 and every resolving power
      infinite. */
  lemma {:induction false} NoTargetNoWindow(cs: seq<Candidate>, info: TargetInfo, range: real)
    requires !info.active
    ensures Kept(cs, info, range) == cs
    ensures forall x :: Diff(x, info) == Finite(0.0) && Resolving(x, info) == PosInf
  {
  }

  /** A candidate exactly on the target needs infinite resolving power. */
  lemma {:induction false} OnTarget(x: real, info: TargetInfo)
    requires info.active && info.mz.Finite? && info.mz.v > 0.0 && x == info.mz.v
    ensures Diff(x, info) == Finite(0.0) && Resolving(x, info) == PosInf
  {
  }

  // ---------------------------------------------------------------------------------------
  // Candidates

  /** Every multiset of 1 to maxsize pool indices is the pick of exactly one enumerated
      combination, and the labels and masses of a combination come from the same isotopes in
      the same order. */
  lemma {:induction false} EveryPickOnce(pool: seq<Isotope>, maxsize: int, c: seq<nat>)
    requires 1 <= |c| <= maxsize && Within(c, 0, |pool|)
    ensures OnceIn(AllCombos(|pool|, Sizes(maxsize)), c)
  {
    AllExactlyOnce(|pool|, Sizes(maxsize), c);
  }

  /** Label j and mass j of the enumeration describe the same pick of 1 to m pool isotopes,
      in the same order; the pool holds exactly the table rows of the sample's elements. */
  lemma {:induction false} LabelsMatchMasses(t: Table, atoms: seq<string>, m: nat, j: nat)
    requires j < |AllCombos(|Pool(t, atoms)|, m)|
    ensures var pool := Pool(t, atoms);
            var pick := AllCombos(|pool|, m)[j];
            |IsotopeCombos(pool, m)[j]| == |MassCombos(pool, m)[j]| == |pick| && 1 <= |pick| <= m
            && forall i :: 0 <= i < |pick| ==>
                 pick[i] < |pool| && pool[pick[i]] in t && pool[pick[i]].element in atoms
                 && IsotopeCombos(pool, m)[j][i] == pool[pick[i]].key
                 && MassCombos(pool, m)[j][i] == pool[pick[i]].mass
  {
    var pool := Pool(t, atoms);
    var pick := AllCombos(|pool|, m)[j];
    assert IsotopeCombos(pool, m)[j] == KeysAt(pool, pick);
    assert MassCombos(pool, m)[j] == MassesAt(pool, pick);
    forall i | 0 <= i < |pick| ensures pool[pick[i]] in t && pool[pick[i]].element in atoms {
      assert pool[pick[i]] in pool;
    }
  }

  /** The copies for the charge list come one charge after another: entry i * n + j is the
      copy of neutral candidate j for charge i. */
  lemma {:induction false} CopiesOrder(names: seq<string>, masses: seq<real>, charges: seq<int>, sign: string,
                                       i: nat, j: nat)
    requires |names| == |masses| && i < |charges| && j < |names|
    ensures 0 <= i * |names| + j < |ChargeCopies(names, masses, charges, sign)|
    ensures ChargeCopies(names, masses, charges, sign)[i * |names| + j]
              == ChargeCopy(names, masses, charges[i], sign)[j]
    decreases |charges|
  {
    var w := |names|;
    var n := |charges| - 1;
    var init := charges[..n];
    var front := ChargeCopies(names, masses, init, sign);
    var last := ChargeCopy(names, masses, charges[n], sign);
    CopiesSplit(names, masses, charges, sign);
    if i < n {
      CopiesOrder(names, masses, init, sign, i, j);
      IndexBelow(i, n, w, j);
      assert init[i] == charges[i];
      ConcatLeft(front, last, i * w + j);
    } else {
      assert i == n;
      assert i * w + j == |front| + j;
      ConcatRight(front, last, j);
    }
  }

  /** The copies for a charge list are those for all but the last charge, then the copies
      for the last. */
  lemma {:induction false} CopiesSplit(names: seq<string>, masses: seq<real>, charges: seq<int>, sign: string)
    requires |names| == |masses| && charges != []
    ensures var n := |charges| - 1;
            ChargeCopies(names, masses, charges, sign)
              == ChargeCopies(names, masses, charges[..n], sign) + ChargeCopy(names, masses, charges[n], sign)
            && |ChargeCopies(names, masses, charges[..n], sign)| == n * |names|
  {
  }

  lemma {:induction false} ConcatLeft<T>(a: seq<T>, b: seq<T>, k: int)
    requires 0 <= k < |a|
    ensures (a + b)[k] == a[k]
  {
  }

  lemma {:induction false} ConcatRight<T>(a: seq<T>, b: seq<T>, k: int)
    requires 0 <= k < |b|
    ensures (a + b)[|a| + k] == b[k]
  {
  }

  lemma {:induction false} IndexBelow(i: nat, n: nat, w: nat, j: nat)
    requires i < n && j < w
    ensures 0 <= i * w + j < n * w
  {
    assert (i + 1) * w <= n * w;
  }

  /** Charge expansion of one neutral candidate: a zero charge leaves label and mass alone;
      otherwise the label gains the charge and the neutral mass is the m/z, with one electron
      mass put back for '+' or taken away otherwise, times the charge. */
  lemma {:induction false} ChargedMass(names: seq<string>, masses: seq<real>, ch: int, sign: string, j: nat)
    requires |names| == |masses| && j < |names|
    ensures var c := ChargeCopy(names, masses, ch, sign)[j];
            c.charge == ch
            && (ch == 0 ==> c.molecule == names[j] && c.mz == masses[j])
            && (ch != 0 ==>
                  c.molecule == names[j] + ChargeSuffix(ch, sign)
                  && (c.mz + (if sign == "+" then ElectronMass else -ElectronMass)) * ch as real == masses[j])
  {
    var c := ChargeCopy(names, masses, ch, sign)[j];
    if ch != 0 {
      var e := if sign == "+" then ElectronMass else -ElectronMass;
      assert c.mz + e == masses[j] / ch as real;
      DivTimes(masses[j], ch as real);
    }
  }

  /** The neutral signs make one uncharged copy whatever the charge list says; the other
      signs make one copy per charge and fail on an empty list. */
  lemma {:induction false} ChargedCases(names: seq<string>, masses: seq<real>, charges: seq<int>, sign: string)
    requires |names| == |masses|
    ensures sign == "o" || sign == "0" ==>
              Charged(names, masses, charges, sign).Ok?
              && forall j :: 0 <= j < |names| ==>
                   Charged(names, masses, charges, sign).value[j] == Candidate(names[j], masses[j], 0)
    ensures sign != "o" && sign != "0" ==>
              (Charged(names, masses, charges, sign).Ok? <==> charges != [])
              && (charges != [] ==> |Charged(names, masses, charges, sign).value| == |charges| * |names|)
  {
  }

  // ---------------------------------------------------------------------------------------
  // The target

  /** For a formula target with a charge the m/z is that of a charged candidate with the
      same neutral mass: the molecule's electron correction, divided by the charge, is the one
      electron mass the charge expansion applies, so the correction is made once either way. */
  lemma {:induction false} TargetMatchesCandidate(t: Table, s: string)
    requires Construct(t, s).Ok?
    requires Construct(t, s).value.charge > 0
    ensures var m := Construct(t, s).value;
            (m.chargeSign == "+" || m.chargeSign == "-")
            && MoleculeMz(m) == Finite(ChargedMz(ZipDot(m.masses, m.counts), m.charge, m.chargeSign))
  {
    MoleculeLaws.ConstructedConsistent(t, s);
    ConsistentMz(t, Construct(t, s).value);
  }

  lemma {:induction false} ConsistentMz(t: Table, m: MolState)
    requires MoleculeLaws.Consistent(t, m) && m.charge > 0 && (m.chargeSign == "+" || m.chargeSign == "-")
    ensures MoleculeMz(m) == Finite(ChargedMz(ZipDot(m.masses, m.counts), m.charge, m.chargeSign))
  {
    MoleculeLaws.ZipDotFull(m.masses, m.counts);
    ChargedMassMz(m.mass, Dot(m.masses, m.counts), m.charge, m.chargeSign);
  }

  /** A mass with the electron correction, divided by the charge, is the charged m/z. */
  lemma ChargedMassMz(mass: real, neutral: real, charge: nat, sign: string)
    requires charge > 0 && (sign == "+" || sign == "-")
    requires mass == neutral + ElectronShift(sign, charge)
    ensures mass / charge as real == ChargedMz(neutral, charge, sign)
  {
    var e := if sign == "+" then -ElectronMass else ElectronMass;
    assert mass == neutral + e * charge as real;
    ShiftedDivision(neutral, charge as real, e);
  }

  /** Dividing a shifted mass by the charge shifts the quotient. */
  lemma ShiftedDivision(n: real, c: real, e: real)
    requires c > 0.0
    ensures (n + e * c) / c == n / c + e
  {
    assert (n / c + e) * c == n + e * c;
  }

  /** A formula target takes the molecule's charge, or the first search charge when it has
      none. The label is the formula itself, with the charge the search filled in written on
      it only when relabelling. */
  lemma {:induction false} FormulaTargetCases(t: Table, s: string, charges: seq<int>, sign: string, relabel: bool)
    requires FormulaTarget(t, s, charges, sign, relabel).Ok?
    ensures var m := Construct(t, s).value;
            var info := FormulaTarget(t, s, charges, sign, relabel).value;
            var inferred := m.chargeSign == "" || m.charge == 0;
            info.active
            && (m.charge != 0 ==> info.charge == m.charge)
            && (m.charge == 0 ==> charges != [] && info.charge == charges[0])
            && (!relabel || !inferred ==> info.name == Some(s))
            && (relabel && inferred ==> info.name == Some(s + ChargeSuffix(info.charge, if m.chargeSign != "" then m.chargeSign else sign)))
            && info.abundance == m.abundance
  {
  }

  /** The charge text written onto a label is empty exactly for charge 0. */
  lemma {:induction false} SuffixEmpty(ch: int, sign: string)
    ensures ChargeSuffix(ch, sign) == [] <==> ch == 0
  {
    if ch != 0 {
      assert ChargeSuffix(ch, sign)[0] == ' ';
    }
  }

  /** A number, or a string float() reads, is a target of charge 0 and probability 1 at that
      m/z; a falsy target switches the window off with m/z 0 and probability 0. */
  lemma {:induction false} NumericTargets(t: Table, target: TargetArg, charges: seq<int>, sign: string, relabel: bool)
    ensures !Truthy(target) ==>
              ResolveTargetWith(t, target, charges, sign, relabel)
                == Ok(TargetInfo(LabelOf(target), 0, Finite(0.0), Finite(0.0), false))
    ensures target.Number? && Truthy(target) ==>
              ResolveTargetWith(t, target, charges, sign, relabel)
                == Ok(TargetInfo(Some(target.text), 0, target.value, Finite(1.0), true))
    ensures target.Text? && Truthy(target) && ParseFloat(target.s).Some? ==>
              ResolveTargetWith(t, target, charges, sign, relabel)
                == Ok(TargetInfo(Some(target.s), 0, ParseFloat(target.s).value, Finite(1.0), true))
  {
  }

  // ---------------------------------------------------------------------------------------
  // Arguments

  /** The charge argument is checked first, then the sign, and only then the target. */
  lemma {:induction false} ArgumentErrors(t: Table, atoms: seq<string>, target: TargetArg, range: real, maxsize: int,
                       charge: ChargeArg, sign: string, style: string, relabel: bool)
    ensures Charges(charge).Err? ==>
              InterferenceWithSpec(t, atoms, target, range, maxsize, charge, sign, style, relabel)
                == Err(Charges(charge).error)
    ensures Charges(charge).Ok? && !ValidSign(sign) ==>
              InterferenceWithSpec(t, atoms, target, range, maxsize, charge, sign, style, relabel) == Err(SignError)
    ensures charge.OtherType? ==>
              InterferenceWithSpec(t, atoms, target, range, maxsize, charge, sign, style, relabel)
                == Err(ValueError("charge must be given as a number or a list of numbers."))
  {
  }

  /** A successful interference() ends with its target row, and no other row is flagged. */
  lemma {:induction false} OneTargetRow(t: Table, atoms: seq<string>, target: TargetArg, range: real, maxsize: int,
                     charge: ChargeArg, sign: string, style: string, relabel: bool)
    requires InterferenceWithSpec(t, atoms, target, range, maxsize, charge, sign, style, relabel).Ok?
    ensures var rows := InterferenceWithSpec(t, atoms, target, range, maxsize, charge, sign, style, relabel).value;
            |rows| >= 1 && rows[|rows| - 1].target
            && forall j :: 0 <= j < |rows| - 1 ==> !rows[j].target
  {
    var charges := Charges(charge).value;
    var info := ResolveTargetWith(t, target, charges, sign, relabel).value;
    SearchRows(t, atoms, info, range, maxsize, charges, sign, style);
  }

  // ---------------------------------------------------------------------------------------
  // standard_ratio

  /** A known abundance divided by its element's positive maximum is between 0 and 1. */
  lemma {:induction false} RatioAtMostOne(data: seq<Isotope>, x: Isotope)
    requires x in data && x.abundance.Some? && x.abundance.value >= 0.0
    requires ElementMax(data, x.element).Finite? && ElementMax(data, x.element).v > 0.0
    ensures RatioOf(data, x).Finite? && 0.0 <= RatioOf(data, x).v <= 1.0
  {
    var mx := ElementMax(data, x.element).v;
    var a := x.abundance.value;
    var i :| 0 <= i < |data| && data[i] == x;
    assert a <= mx;
    assert RatioOf(data, x) == Finite(a / mx);
    DivAtMostOne(a, mx);
  }

  lemma {:induction false} DivAtMostOne(a: real, b: real)
    requires 0.0 <= a <= b && b > 0.0
    ensures 0.0 <= a / b <= 1.0
  {
    DivTimes(a, b);
  }

  lemma {:induction false} DivSelf(x: real)
    requires x != 0.0
    ensures x / x == 1.0
  {
  }

  lemma {:induction false} DivTimes(x: real, d: real)
    requires d != 0.0
    ensures (x / d) * d == x
  {
  }

  /** Some isotope of the element, the most abundant one, has ratio 1 when the maximum is
      non-zero. */
  lemma {:induction false} MaxRatioOne(data: seq<Isotope>, el: string)
    requires ElementMax(data, el).Finite? && ElementMax(data, el).v != 0.0
    ensures exists y :: y in data && y.element == el && RatioOf(data, y) == Finite(1.0)
  {
    var mx := ElementMax(data, el);
    var j :| 0 <= j < |data| && data[j].element == el && data[j].abundance == Some(mx.v);
    var y := data[j];
    assert OfOption(y.abundance) == mx;
    assert RatioOf(data, y) == Div(mx, mx);
    DivSelf(mx.v);
    assert y in data;
  }

  /** The inverse ratio times the ratio is 1 for a finite non-zero ratio. */
  lemma {:induction false} InverseRatio(data: seq<Isotope>, x: Isotope)
    requires RatioOf(data, x).Finite? && RatioOf(data, x).v != 0.0
    ensures InverseOf(data, x).Finite? && InverseOf(data, x).v * RatioOf(data, x).v == 1.0
  {
  }

  /** An element without any known abundance has NaN ratios. */
  lemma {:induction false} UnknownAbundance(data: seq<Isotope>, x: Isotope)
    requires forall j :: 0 <= j < |data| && data[j].element == x.element ==> data[j].abundance.None?
    ensures RatioOf(data, x).NaN? && InverseOf(data, x).NaN?
  {
  }

  /** The table has one row per isotope of the sample's elements, in table order, and keeps
      the isotope keys for the plain style. */
  lemma {:induction false} RatioTable(t: Table, atoms: seq<string>, style: string, render: bool)
    requires StandardRatioWith(t, atoms, style, render).Ok?
    ensures var rows := StandardRatioWith(t, atoms, style, render).value;
            var data := Pool(t, atoms);
            |rows| == |data|
            && forall j :: 0 <= j < |rows| ==>
                 data[j].element in atoms && rows[j].mass == data[j].mass
                 && rows[j].ratio == RatioOf(data, data[j]) && rows[j].inverse == InverseOf(data, data[j])
                 && (!render ==> rows[j].isotope == data[j].key)
  {
    var data := Pool(t, atoms);
    forall j | 0 <= j < |data| ensures data[j].element in atoms {
      assert data[j] in data;
    }
  }
}
