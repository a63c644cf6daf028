/** Properties of mass_interference(), standard_ratios() and relative_abundance() of
    masstable.py: NaN poisoning of the probability, the layout of the ions, the window, the
    sort, the normalisation by the element's highest abundance, and the agreement of
    relative_abundance with the row-aligned multinomial. */
module MassTableLaws {
  import opened Wrappers
  import opened Numeric
  import opened Text
  import opened IsotopeTable
  import opened Seqs
  import opened Units
  import opened Combinations
  import opened Interferences
  import opened MassTable
  import OldCalculator
  import LegacyMolecules
  import Abundance

  // ---------------------------------------------------------------------------------------
  // Probability

  /** Cells are finite or NaN, never infinite. */
  predicate CellValues(s: seq<Float>) {
    forall i :: 0 <= i < |s| ==> s[i].NaN? || s[i].Finite?
  }

  /** prod(skipna=False) of cells: NaN exactly when one of them is NaN, finite otherwise. */
  lemma {:induction false} NaNPoisons(s: seq<Float>)
    requires CellValues(s)
    ensures Product(s).NaN? <==> exists i :: 0 <= i < |s| && s[i].NaN?
    ensures !Product(s).NaN? ==> Product(s).Finite?
    decreases |s|
  {
    if s != [] {
      var n := |s| - 1;
      var init := s[..n];
      assert forall i :: 0 <= i < n ==> init[i] == s[i];
      NaNPoisons(init);
      assert Product(s) == Mul(Product(init), s[n]);
    }
  }

  /** The probability of a pick is NaN exactly when one of its isotopes has a NaN cell. */
  lemma {:induction false} PickProbability(pool: seq<Isotope>, minabundance: Option<real>, c: seq<nat>)
    requires Within(c, 0, |pool|)
    ensures var p := Product(CellsAt(Cells(pool, minabundance), c));
            (p.NaN? <==> exists i :: 0 <= i < |c| && Cell(pool[c[i]], minabundance).NaN?)
            && (!p.NaN? ==> p.Finite?)
  {
    var s := CellsAt(Cells(pool, minabundance), c);
    assert forall i :: 0 <= i < |c| ==> s[i] == Cell(pool[c[i]], minabundance);
    NaNPoisons(s);
  }

  /** With minabundance not truthy, an isotope without a known abundance makes the
      probability of every pick that holds it NaN. */
  lemma {:induction false} MissingAbundancePoisons(pool: seq<Isotope>, minabundance: Option<real>, c: seq<nat>, k: nat)
    requires Within(c, 0, |pool|) && k in c
    requires k < |pool| && pool[k].abundance.None?
    requires minabundance.None? || minabundance.value == 0.0
    ensures Product(CellsAt(Cells(pool, minabundance), c)).NaN?
  {
    PickProbability(pool, minabundance, c);
    var q :| 0 <= q < |c| && c[q] == k;
    assert Cell(pool[c[q]], minabundance).NaN?;
  }

  /** With a positive minabundance and no negative abundance in the pick, the probability is a
      finite, non-negative product. */
  lemma {:induction false} FilledProbabilityFinite(pool: seq<Isotope>, minabundance: Option<real>, c: seq<nat>)
    requires Within(c, 0, |pool|)
    requires minabundance.Some? && minabundance.value > 0.0
    requires forall i :: 0 <= i < |c| ==> pool[c[i]].abundance.None? || pool[c[i]].abundance.value >= 0.0
    ensures Product(CellsAt(Cells(pool, minabundance), c)).Finite?
    ensures Product(CellsAt(Cells(pool, minabundance), c)).v >= 0.0
  {
    var s := CellsAt(Cells(pool, minabundance), c);
    forall i | 0 <= i < |s| ensures s[i].Finite? && s[i].v >= 0.0 {
      assert s[i] == Cell(pool[c[i]], minabundance);
    }
    NonNegativeProduct(s);
  }

  /** A product of finite, non-negative factors is finite and non-negative. */
  lemma {:induction false} NonNegativeProduct(s: seq<Float>)
    requires forall i :: 0 <= i < |s| ==> s[i].Finite? && s[i].v >= 0.0
    ensures Product(s).Finite? && Product(s).v >= 0.0
    decreases |s|
  {
    if s != [] {
      var init := s[..|s| - 1];
      assert forall i :: 0 <= i < |init| ==> init[i] == s[i];
      NonNegativeProduct(init);
      var a, b := Product(init).v, s[|s| - 1].v;
      assert a * b >= 0.0 by { NonNegativeTimes(a, b); }
    }
  }

  lemma NonNegativeTimes(a: real, b: real)
    requires a >= 0.0 && b >= 0.0
    ensures a * b >= 0.0
  {
  }

  // ---------------------------------------------------------------------------------------
  // Ions

  /** The copies come one charge after another: entry i * n + j is copy j for charge i. */
  lemma {:induction false} CopiesLayout(names: seq<string>, masses: seq<real>, probs: seq<Float>,
                                        charges: seq<int>, sign: string, i: nat, j: nat)
    requires |names| == |masses| == |probs| && i < |charges| && j < |names|
    ensures i * |names| + j < |IonCopies(names, masses, probs, charges, sign)|
    ensures IonCopies(names, masses, probs, charges, sign)[i * |names| + j]
              == IonCopy(names, masses, probs, charges[i], sign)[j]
    decreases |charges|
  {
    var w := |names|;
    var n := |charges| - 1;
    var init := charges[..n];
    var front := IonCopies(names, masses, probs, init, sign);
    assert IonCopies(names, masses, probs, charges, sign) == front + IonCopy(names, masses, probs, charges[n], sign);
    assert |front| == n * w;
    if i < n {
      CopiesLayout(names, masses, probs, init, sign, i, j);
      IndexWithin(i, n, w, j);
      assert init[i] == charges[i];
    } else {
      assert i * w + j == |front| + j;
    }
  }

  lemma {:induction false} IndexWithin(i: nat, n: nat, w: nat, j: nat)
    requires i < n && j < w
    ensures 0 <= i * w + j < n * w
  {
    assert (i + 1) * w <= n * w;
  }

  /** The ion of one pick for one charge: its keys joined by spaces and the bracketed charge,
      its summed mass over the charge, and the plain product of its abundance cells. */
  function PickIon(pool: seq<Isotope>, pick: seq<nat>, c: int, sign: string, minabundance: Option<real>): Ion
    requires Within(pick, 0, |pool|)
  {
    Ion(SpaceJoin(KeysAt(pool, pick)) + Bracket(c, sign), c,
        Div(Finite(RSum(MassesAt(pool, pick))), Finite(c as real)),
        Product(CellsAt(Cells(pool, minabundance), pick)))
  }

  /** Entry j of the three columns is what pick j of the pool gives. */
  lemma {:induction false} PickColumns(pool: seq<Isotope>, m: nat, minabundance: Option<real>, j: nat)
    requires j < |AllCombos(|pool|, m)|
    ensures MapSeq(IsotopeCombos(pool, m), SpaceJoin)[j] == SpaceJoin(KeysAt(pool, AllCombos(|pool|, m)[j]))
    ensures MapSeq(MassCombos(pool, m), RSum)[j] == RSum(MassesAt(pool, AllCombos(|pool|, m)[j]))
    ensures MapSeq(AbundanceCombos(Cells(pool, minabundance), m), Product)[j]
              == Product(CellsAt(Cells(pool, minabundance), AllCombos(|pool|, m)[j]))
  {
    var picks := AllCombos(|pool|, m);
    assert IsotopeCombos(pool, m) == KeyRows(pool, picks);
    assert MassCombos(pool, m) == MassRows(pool, picks);
    var cells := Cells(pool, minabundance);
    assert AbundanceCombos(cells, m) == CellRows(cells, picks);
  }

  /** Row j of the copy for charge c. */
  lemma {:induction false} CopyAt(names: seq<string>, masses: seq<real>, probs: seq<Float>, c: int, sign: string, j: nat)
    requires |names| == |masses| == |probs| && j < |names|
    ensures IonCopy(names, masses, probs, c, sign)[j]
              == Ion(names[j] + Bracket(c, sign), c, Div(Finite(masses[j]), Finite(c as real)), probs[j])
  {
  }

  /** Ion i * w + j, for w picks, is pick j with charge i. */
  lemma {:induction false} IonLayout(pool: seq<Isotope>, maxsize: int, charges: seq<int>, sign: string, minabundance: Option<real>,
                  ions: seq<Ion>, i: nat, j: nat)
    requires IonsOf(pool, maxsize, charges, sign, minabundance) == Ok(ions)
    requires i < |charges| && j < |AllCombos(|pool|, Sizes(maxsize))|
    ensures 0 <= i * |AllCombos(|pool|, Sizes(maxsize))| + j < |ions|
    ensures ions[i * |AllCombos(|pool|, Sizes(maxsize))| + j]
              == PickIon(pool, AllCombos(|pool|, Sizes(maxsize))[j], charges[i], sign, minabundance)
  {
    var m := Sizes(maxsize);
    var names := MapSeq(IsotopeCombos(pool, m), SpaceJoin);
    var masses := MapSeq(MassCombos(pool, m), RSum);
    var probs := MapSeq(AbundanceCombos(Cells(pool, minabundance), m), Product);
    IonColumns(pool, maxsize, charges, sign, minabundance);
    var picks := AllCombos(|pool|, m);
    LayoutStep(ions, names, masses, probs, charges, sign, |picks|, i, j);
    PickColumns(pool, m, minabundance, j);
    PickIonOf(pool, picks[j], charges[i], sign, minabundance, names[j], masses[j], probs[j]);
  }

  /** The ions are the charge copies of the three columns. */
  lemma {:induction false} IonColumns(pool: seq<Isotope>, maxsize: int, charges: seq<int>, sign: string, minabundance: Option<real>)
    ensures var m := Sizes(maxsize);
            IonsOf(pool, maxsize, charges, sign, minabundance)
              == Ions(MapSeq(IsotopeCombos(pool, m), SpaceJoin), MapSeq(MassCombos(pool, m), RSum),
                      MapSeq(AbundanceCombos(Cells(pool, minabundance), m), Product), charges, sign)
  {
  }

  /** Entry i * w + j of the copies, as fields. */
  lemma {:induction false} LayoutStep(ions: seq<Ion>, names: seq<string>, masses: seq<real>, probs: seq<Float>,
                   charges: seq<int>, sign: string, w: nat, i: nat, j: nat)
    requires |names| == |masses| == |probs| == w && i < |charges| && j < w
    requires Ions(names, masses, probs, charges, sign) == Ok(ions)
    ensures 0 <= i * w + j < |ions|
    ensures ions[i * w + j]
              == Ion(names[j] + Bracket(charges[i], sign), charges[i],
                     Div(Finite(masses[j]), Finite(charges[i] as real)), probs[j])
  {
    assert ions == IonCopies(names, masses, probs, charges, sign);
    CopiesLayout(names, masses, probs, charges, sign, i, j);
    CopyAt(names, masses, probs, charges[i], sign, j);
    IndexWithin(i, |charges|, w, j);
  }


  lemma {:induction false} PickIonOf(pool: seq<Isotope>, pick: seq<nat>, c: int, sign: string, minabundance: Option<real>,
                  name: string, mass: real, prob: Float)
    requires Within(pick, 0, |pool|)
    requires name == SpaceJoin(KeysAt(pool, pick)) && mass == RSum(MassesAt(pool, pick))
    requires prob == Product(CellsAt(Cells(pool, minabundance), pick))
    ensures PickIon(pool, pick, c, sign, minabundance)
              == Ion(name + Bracket(c, sign), c, Div(Finite(mass), Finite(c as real)), prob)
  {
  }

  /** A charge list that is not empty always gives ions. */
  lemma {:induction false} IonsExist(pool: seq<Isotope>, maxsize: int, charges: seq<int>, sign: string, minabundance: Option<real>)
    requires charges != []
    ensures IonsOf(pool, maxsize, charges, sign, minabundance).Ok?
  {
  }

  /** A charge other than 0 divides the mass exactly; charge 1 writes only the sign. */
  lemma {:induction false} ChargedMzExact(mass: real, c: int, sign: string)
    requires c != 0
    ensures Div(Finite(mass), Finite(c as real)) == Finite(mass / c as real)
    ensures c == 1 ==> Bracket(c, sign) == " [" + sign + "]"
  {
  }

  /** The ions of a pick containing an isotope of unknown abundance have NaN probability when
      minabundance is not truthy, for every charge. */
  lemma {:induction false} UnknownAbundanceIon(pool: seq<Isotope>, maxsize: int, charges: seq<int>, sign: string,
                            minabundance: Option<real>, ions: seq<Ion>, i: nat, j: nat, k: nat)
    requires IonsOf(pool, maxsize, charges, sign, minabundance) == Ok(ions)
    requires i < |charges| && j < |AllCombos(|pool|, Sizes(maxsize))|
    requires k in AllCombos(|pool|, Sizes(maxsize))[j]
    requires k < |pool| && pool[k].abundance.None?
    requires minabundance.None? || minabundance.value == 0.0
    ensures 0 <= i * |AllCombos(|pool|, Sizes(maxsize))| + j < |ions|
    ensures ions[i * |AllCombos(|pool|, Sizes(maxsize))| + j].probability.NaN?
  {
    IonLayout(pool, maxsize, charges, sign, minabundance, ions, i, j);
    MissingAbundancePoisons(pool, minabundance, AllCombos(|pool|, Sizes(maxsize))[j], k);
  }

  // ---------------------------------------------------------------------------------------
  // Window, rows and sort

  /** For finite values the window is inclusive at both ends; a NaN m/z is never inside. */
  lemma {:induction false} WindowInclusive(x: real, mz: real, range: real)
    ensures InRange(Finite(x), Finite(mz), range) <==> mz - range <= x <= mz + range
    ensures !InRange(NaN, Finite(mz), range) && !InRange(Finite(x), NaN, range)
  {
  }

  /** A row carries its ion's charge, m/z and probability, with diff and MRP against the
      target. */
  predicate Matches(x: MassRow, ion: Ion, target: Option<Float>) {
    x.charge == ion.charge && x.mz == ion.mz && x.probability == ion.probability
    && x.diff == MzDiff(ion.mz, target) && x.mrp == Mrp(ion.mz, target)
  }

  /** After the sort, every row is the row of one of the converted ions, and there are as many
      rows as ions. */
  lemma {:induction false} SortedRowsFromIons(t: Table, ions: seq<Ion>, target: Option<Float>, style: string, rs: seq<MassRow>)
    requires RowsFor(t, ions, target, style) == Ok(rs)
    ensures |SortByMz(rs)| == |ions|
    ensures forall x :: x in SortByMz(rs) ==> exists j :: 0 <= j < |ions| && Matches(x, ions[j], target)
  {
    var rows := SortByMz(rs);
    assert |rows| == |rs| by {
      assert |multiset(rows)| == |multiset(rs)|;
    }
    forall x | x in rows ensures exists j :: 0 <= j < |ions| && Matches(x, ions[j], target) {
      RowOfIon(t, ions, target, style, rs, x);
    }
  }

  lemma {:induction false} RowOfIon(t: Table, ions: seq<Ion>, target: Option<Float>, style: string, rs: seq<MassRow>, x: MassRow)
    requires RowsFor(t, ions, target, style) == Ok(rs)
    requires x in SortByMz(rs)
    ensures exists j :: 0 <= j < |ions| && Matches(x, ions[j], target)
  {
    assert x in multiset(SortByMz(rs));
    assert x in multiset(rs);
    var j :| 0 <= j < |rs| && rs[j] == x;
    RowMatches(t, ions[j], target, style, x);
  }

  lemma {:induction false} RowMatches(t: Table, ion: Ion, target: Option<Float>, style: string, x: MassRow)
    requires RowFor(t, ion, target, style) == Ok(x)
    ensures Matches(x, ion, target)
  {
  }

  /** The result of mass_interference is sorted by m/z. With a target that filters, every row
      lies in the inclusive window and carries its signed difference and its resolving power;
      without one, difference and resolving power are 0. */
  lemma {:induction false} WindowedResult(t: Table, atoms: seq<string>, mz: TargetArg, range: real, maxsize: int,
                       charges: seq<int>, sign: string, minabundance: Option<real>, style: string,
                       target: Option<Float>, rows: seq<MassRow>)
    requires TargetMz(t, mz) == Ok(target)
    requires MassInterferenceSpec(t, atoms, mz, range, maxsize, charges, sign, minabundance, style) == Ok(rows)
    ensures SortedByMz(rows)
    ensures OldCalculator.Filters(target) ==>
              forall x :: x in rows ==>
                InRange(x.mz, target.value, range) && x.diff == Sub(x.mz, target.value)
                && x.mrp == Div(target.value, Magnitude(x.diff))
    ensures !OldCalculator.Filters(target) ==>
              forall x :: x in rows ==> x.diff == Finite(0.0) && x.mrp == Finite(0.0)
  {
    var pool := MassPool(t, atoms).value;
    var ions := IonsOf(pool, maxsize, charges, sign, minabundance).value;
    var kept := Selected(ions, target, range);
    var rs := RowsFor(t, kept, target, style).value;
    assert rows == SortByMz(rs);
    SortedRowsFromIons(t, kept, target, style, rs);
    forall x | x in rows
      ensures OldCalculator.Filters(target) ==>
                InRange(x.mz, target.value, range) && x.diff == Sub(x.mz, target.value)
                && x.mrp == Div(target.value, Magnitude(x.diff))
    {
      var j :| 0 <= j < |kept| && Matches(x, kept[j], target);
      assert kept[j] in kept;
    }
  }

  /** Without a target every ion is kept: one row per pick and charge. */
  lemma {:induction false} UnfilteredCount(t: Table, atoms: seq<string>, mz: TargetArg, range: real, maxsize: int,
                        charges: seq<int>, sign: string, minabundance: Option<real>, style: string,
                        rows: seq<MassRow>)
    requires !Truthy(mz) && atoms != []
    requires MassInterferenceSpec(t, atoms, mz, range, maxsize, charges, sign, minabundance, style) == Ok(rows)
    ensures |rows| == |charges| * |AllCombos(|MassPool(t, atoms).value|, Sizes(maxsize))|
  {
    var pool := MassPool(t, atoms).value;
    var ions := IonsOf(pool, maxsize, charges, sign, minabundance).value;
    assert Selected(ions, None, range) == ions;
    var rs := RowsFor(t, ions, None, style).value;
    SortedRowsFromIons(t, ions, None, style, rs);
    assert |ions| == |charges| * |AllCombos(|pool|, Sizes(maxsize))|;
  }

  /** The target of a formula that float() refuses is its molecule's mass over its charge, or
      its mass when it is neutral: no electron is added or taken away. */
  lemma {:induction false} FormulaTargetNoElectron(t: Table, s: string)
    requires s != [] && ParseFloat(s).None? && LegacyMolecules.Construct(t, s).Ok?
    ensures var m := LegacyMolecules.Construct(t, s).value;
            TargetMz(t, Text(s)) == Ok(Some(LegacyMz(m)))
            && (m.charge == 0 ==> LegacyMz(m) == Finite(m.mass))
            && LegacyMz(m).v * (if m.charge == 0 then 1 else m.charge) as real == m.mass
  {
  }

  // ---------------------------------------------------------------------------------------
  // standard_ratios

  lemma {:induction false} QuotientAtLeastOne(h: real, p: real)
    requires 0.0 < p <= h
    ensures h / p >= 1.0
  {
  }

  /** Every isotope of known positive abundance gets the inverse highest / abundance, which is
      at least 1. */
  lemma {:induction false} InverseAtLeastOne(t: Table, el: string, j: nat, p: real)
    requires j < |ElementRows(t, el)| && ElementRows(t, el)[j].abundance == Some(p) && p > 0.0
    ensures var h := ElementMax(ElementRows(t, el), el);
            h.Finite? && ElementData(t, el)[j].1 == Finite(h.v / p) && h.v / p >= 1.0
  {
    var rows := ElementRows(t, el);
    assert rows[j] in rows;
    var h := ElementMax(rows, el);
    assert !h.NaN?;
    assert p <= h.v;
    QuotientAtLeastOne(h.v, p);
  }

  /** The most abundant isotope of an element has inverse exactly 1. */
  lemma {:induction false} HighestIsOne(t: Table, el: string, j: nat)
    requires j < |ElementRows(t, el)|
    requires ElementMax(ElementRows(t, el), el).Finite? && ElementMax(ElementRows(t, el), el).v != 0.0
    requires ElementRows(t, el)[j].abundance == Some(ElementMax(ElementRows(t, el), el).v)
    ensures ElementData(t, el)[j].1 == Finite(1.0)
  {
    var h := ElementMax(ElementRows(t, el), el);
    assert ElementData(t, el)[j].1 == Div(h, Finite(h.v));
    SelfQuotient(h.v);
  }

  lemma {:induction false} SelfQuotient(h: real)
    requires h != 0.0
    ensures h / h == 1.0
  {
  }

  /** Every entry of the standard-ratio data is a row of a named element, with the inverse
      taken against its own element's highest abundance; and every row of every named
      element, alias rows included, is there. */
  lemma {:induction false} RatioDataRows(t: Table, atoms: seq<string>)
    ensures forall d :: d in RatioData(t, atoms) ==>
              d.0 in t && d.0.element in atoms
              && d.1 == Div(ElementMax(ElementRows(t, d.0.element), d.0.element), OfOption(d.0.abundance))
    ensures forall x :: x in t && x.element in atoms ==> exists d :: d in RatioData(t, atoms) && d.0 == x
    decreases |atoms|
  {
    if atoms != [] {
      var n := |atoms| - 1;
      var init := atoms[..n];
      var a := atoms[n];
      RatioDataRows(t, init);
      assert atoms == init + [a];
      var front := RatioData(t, init);
      var last := ElementData(t, a);
      assert RatioData(t, atoms) == front + last;
      var rows := ElementRows(t, a);
      forall d | d in last
        ensures d.0 in t && d.0.element == a
        ensures d.1 == Div(ElementMax(ElementRows(t, d.0.element), d.0.element), OfOption(d.0.abundance))
      {
        var j :| 0 <= j < |last| && last[j] == d;
        assert rows[j] in rows;
      }
      forall x | x in t && x.element in atoms ensures exists d :: d in RatioData(t, atoms) && d.0 == x {
        if x.element == a {
          var j :| 0 <= j < |rows| && rows[j] == x;
          assert last[j] in RatioData(t, atoms);
        } else {
          assert x.element in init;
          var d :| d in front && d.0 == x;
          assert d in RatioData(t, atoms);
        }
      }
    }
  }

  // ---------------------------------------------------------------------------------------
  // relative_abundance

  /** When every isotope has a row, the rows found are the lookup's rows and the counts are
      the counts given. */
  lemma {:induction false} PresentAllFound(t: Table, isot: seq<string>, stoich: seq<nat>)
    requires |isot| == |stoich|
    requires forall j :: 0 <= j < |isot| ==> FindKey(t, isot[j]).Some?
    ensures LookupAll(t, isot).Ok?
    ensures Present(t, isot, stoich) == (LookupAll(t, isot).value, stoich)
    decreases |isot|
  {
    if isot != [] {
      var n := |isot| - 1;
      var init, front := isot[..n], stoich[..n];
      assert forall j :: 0 <= j < |init| ==> init[j] == isot[j];
      PresentAllFound(t, init, front);
      assert stoich == front + [stoich[n]];
    }
  }

  /** For distinct isotopes relative_abundance agrees with the row-aligned multinomial of the
      package: the latter succeeds exactly when relative_abundance succeeds with every isotope
      found, and then with the same value. */
  lemma {:induction false} AgreesWithAligned(t: Table, isot: seq<string>, stoich: seq<nat>)
    requires Abundance.Distinct(isot)
    ensures Abundance.RelativeAbundance(t, isot, stoich).Ok? <==>
              MassRelativeAbundance(t, isot, stoich).Ok? && forall j :: 0 <= j < |isot| ==> FindKey(t, isot[j]).Some?
    ensures Abundance.RelativeAbundance(t, isot, stoich).Ok? ==>
              MassRelativeAbundance(t, isot, stoich) == Abundance.RelativeAbundance(t, isot, stoich)
  {
    if Abundance.RelativeAbundance(t, isot, stoich).Ok? {
      PresentAllFound(t, isot, stoich);
    }
  }

  /** A key the table lacks is skipped: appending it, with any count, changes nothing, as long
      as the list it joins is not empty. */
  lemma {:induction false} MissingIgnored(t: Table, isot: seq<string>, stoich: seq<nat>, k: string, n: nat)
    requires isot != []
    requires FindKey(t, k).None?
    ensures MassRelativeAbundance(t, isot + [k], stoich + [n]) == MassRelativeAbundance(t, isot, stoich)
  {
    var keys, counts := isot + [k], stoich + [n];
    assert keys[..|isot|] == isot && keys[|isot|] == k;
    assert NoneFound(t, keys) <==> NoneFound(t, isot) by {
      assert forall j :: 0 <= j < |isot| ==> keys[j] == isot[j];
    }
    if |keys| == |counts| {
      assert counts[..|stoich|] == stoich;
      assert Present(t, keys, counts) == Present(t, isot, stoich);
    }
  }

  /** relative_abundance(['12C', '99Xx'], [a, b]) with only the first isotope in the table is
      the probability of the first alone. */
  lemma {:induction false} PartlyMissing(t: Table, k: string, m: string, a: nat, b: nat)
    requires FindKey(t, k).Some? && FindKey(t, m).None?
    ensures MassRelativeAbundance(t, [k, m], [a, b]) == Ok(Pow(OfOption(t[FindKey(t, k).value].abundance), a))
  {
    assert [k, m] == [k] + [m] && [a, b] == [a] + [b];
    MissingIgnored(t, [k], [a], m, b);
    SingleIsotope(t, k, a);
  }

  lemma {:induction false} MulOne(x: Float)
    ensures Mul(Finite(1.0), x) == x
  {
  }

  /** A single isotope occurring n times has probability p^n. */
  lemma {:induction false} SingleIsotope(t: Table, k: string, n: nat)
    requires FindKey(t, k).Some?
    ensures MassRelativeAbundance(t, [k], [n]) == Ok(Pow(OfOption(t[FindKey(t, k).value].abundance), n))
  {
    var row := t[FindKey(t, k).value];
    LookupOne(t, k);
    PresentAllFound(t, [k], [n]);
    OneRowAbundance(row, n);
  }

  lemma {:induction false} LookupOne(t: Table, k: string)
    requires FindKey(t, k).Some?
    ensures LookupAll(t, [k]) == Ok([t[FindKey(t, k).value]])
  {
    var keys := [k];
    assert keys[0] == k;
    var r := LookupAll(t, keys);
    assert r.Ok? && |r.value| == 1 && r.value[0] == t[FindKey(t, k).value];
    assert r.value == [t[FindKey(t, k).value]];
  }

  lemma {:induction false} OneRowAbundance(row: Isotope, n: nat)
    ensures Abundance.AbundanceOf([row], [n]) == Pow(OfOption(row.abundance), n)
  {
    var rows, counts := [row], [n];
    assert rows[0] == row && counts[0] == n;
    Abundance.SinglesAbundance(rows, counts);
    var x := Pow(OfOption(row.abundance), n);
    var ps := Abundance.PowEach(rows, counts);
    assert |ps| == 1 && ps[0] == x;
    assert ps == [x];
    SingleProduct(x);
  }

  lemma {:induction false} SingleProduct(x: Float)
    ensures Product([x]) == x
  {
    var xs := [x];
    assert xs[..0] == [];
    MulOne(x);
  }
}
