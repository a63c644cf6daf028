/** mass_interference(), standard_ratios() and relative_abundance() of masstable.py, the oldest
    version of the search. Where it differs from the package: the pool is taken element by
    element and loses the alias rows H, D and T; a missing abundance is replaced by
    minabundance, or becomes NaN, which poisons the probability, when minabundance is not
    truthy; the probability is the plain product of the abundances; m/z is mass over charge
    without the electron; the charge is written onto the label in brackets; and the rows come
    back sorted by m/z. Formulas are read and written by the regex Molecule of the same file
    (module LegacyMolecules). */
module MassTable {
  import opened Wrappers
  import opened Numeric
  import opened Text
  import opened IsotopeTable
  import opened Seqs
  import opened Units
  import opened Combinations
  import opened Interferences
  import LegacyMolecules
  import OldCalculator
  import Abundance
  import Molecules

  /** pd.concat of an empty list. */
  const NothingToConcat: Error := ValueError("No objects to concatenate")

  // ---------------------------------------------------------------------------------------
  // The pool

  /** The alias rows of hydrogen, which query('index not in ("H", "D", "T")') drops. */
  predicate IsAlias(key: string) {
    key == "H" || key == "D" || key == "T"
  }

  /** masstable[masstable.element == a]: the rows of one element, in table order. */
  function ElementRows(t: Table, el: string): (r: seq<Isotope>)
    ensures |r| <= |t|
    ensures forall x :: x in r <==> x in t && x.element == el
    decreases |t|
  {
    if t == [] then []
    else
      assert forall x :: x in t <==> x == t[0] || x in t[1..];
      (if t[0].element == el then [t[0]] else []) + ElementRows(t[1..], el)
  }

  /** concat(picked_atoms): the rows of each atom in the order of the atoms, so that an element
      named twice is there twice. */
  function Picked(t: Table, atoms: seq<string>): (r: seq<Isotope>)
    ensures forall x :: x in r <==> x in t && x.element in atoms
    decreases |atoms|
  {
    if atoms == [] then []
    else
      var n := |atoms| - 1;
      assert forall a :: a in atoms <==> a in atoms[..n] || a == atoms[n] by {
        assert atoms == atoms[..n] + [atoms[n]];
      }
      Picked(t, atoms[..n]) + ElementRows(t, atoms[n])
  }

  /** The rows whose key is not an alias, in their order. */
  function WithoutAliases(rows: seq<Isotope>): (r: seq<Isotope>)
    ensures forall x :: x in r <==> x in rows && !IsAlias(x.key)
    decreases |rows|
  {
    if rows == [] then []
    else
      assert forall x :: x in rows <==> x == rows[0] || x in rows[1..];
      (if IsAlias(rows[0].key) then [] else [rows[0]]) + WithoutAliases(rows[1..])
  }

  /** picked_atoms: exactly the rows of the sample's elements that are not alias rows; no atom
      at all is pd.concat of nothing, which fails. */
  function MassPool(t: Table, atoms: seq<string>): (r: Result<seq<Isotope>>)
    ensures r.Err? <==> atoms == []
    ensures r.Ok? ==> forall x :: x in r.value <==> x in t && x.element in atoms && !IsAlias(x.key)
  {
    if atoms == [] then Err(NothingToConcat) else Ok(WithoutAliases(Picked(t, atoms)))
  }

  // ---------------------------------------------------------------------------------------
  // Abundances

  /** `if not minabundance: minabundance = -1`: None and 0 are not truthy. */
  function FillValue(minabundance: Option<real>): real {
    if minabundance.None? || minabundance.value == 0.0 then -1.0 else minabundance.value
  }

  /** An isotope's factor in the probability: its abundance, or the fill value when the table
      has none, and NaN when that is negative (abundances.where(abundances >= 0)). */
  function Cell(x: Isotope, minabundance: Option<real>): (f: Float)
    ensures x.abundance.Some? && x.abundance.value >= 0.0 ==> f == Finite(x.abundance.value)
    ensures x.abundance.None? && (minabundance.None? || minabundance.value <= 0.0) ==> f.NaN?
    ensures x.abundance.None? && minabundance.Some? && minabundance.value > 0.0 ==>
              f == Finite(minabundance.value)
    ensures f.NaN? || (f.Finite? && f.v >= 0.0)
  {
    var v := if x.abundance.Some? then x.abundance.value else FillValue(minabundance);
    if v >= 0.0 then Finite(v) else NaN
  }

  /** The abundance column of the pool after the fill. */
  function Cells(pool: seq<Isotope>, minabundance: Option<real>): (r: seq<Float>)
    ensures |r| == |pool| && forall i :: 0 <= i < |pool| ==> r[i] == Cell(pool[i], minabundance)
  {
    MapSeq(pool, (x: Isotope) => Cell(x, minabundance))
  }

  /** The abundance cells of a pick. */
  function CellsAt(cells: seq<Float>, c: seq<nat>): (r: seq<Float>)
    requires Within(c, 0, |cells|)
    ensures |r| == |c| && forall i :: 0 <= i < |c| ==> r[i] == cells[c[i]]
  {
    seq(|c|, i requires 0 <= i < |c| => cells[c[i]])
  }

  /** The abundance cells of each pick of a list. */
  function CellRows(cells: seq<Float>, cs: seq<seq<nat>>): (r: seq<seq<Float>>)
    requires AllWithin(cs, |cells|)
    ensures |r| == |cs| && forall j :: 0 <= j < |cs| ==> r[j] == CellsAt(cells, cs[j])
  {
    seq(|cs|, j requires 0 <= j < |cs| => CellsAt(cells, cs[j]))
  }

  /** abundance_combos: the cells of every pick of every size, in the order of the picks. */
  function AbundanceCombos(cells: seq<Float>, m: nat): (r: seq<seq<Float>>)
    ensures |r| == |AllCombos(|cells|, m)|
  {
    CellRows(cells, AllCombos(|cells|, m))
  }

  // ---------------------------------------------------------------------------------------
  // Ions

  /** A row before the window: label, charge, m/z and probability. */
  datatype Ion = Ion(molecule: string, charge: int, mz: Float, probability: Float)

  /** ' [' + c + chargesign + ']', where c is empty for a charge of 1 and str(charge) otherwise. */
  function Bracket(c: int, sign: string): string {
    " [" + (if c == 1 then "" else IntToString(c)) + sign + "]"
  }

  /** The rows for one charge: the label gains the bracket, and the m/z is the mass divided by
      the charge as numpy divides. */
  function IonCopy(names: seq<string>, masses: seq<real>, probs: seq<Float>, c: int, sign: string)
    : (r: seq<Ion>)
    requires |names| == |masses| == |probs|
    ensures |r| == |names|
  {
    seq(|names|, j requires 0 <= j < |names| =>
      Ion(names[j] + Bracket(c, sign), c, Div(Finite(masses[j]), Finite(c as real)), probs[j]))
  }

  /** concat([data] * len(charge)): one copy per charge, in the order of the charge list. */
  function IonCopies(names: seq<string>, masses: seq<real>, probs: seq<Float>, charges: seq<int>, sign: string)
    : (r: seq<Ion>)
    requires |names| == |masses| == |probs|
    ensures |r| == |charges| * |names|
    decreases |charges|
  {
    if charges == [] then []
    else
      var n := |charges| - 1;
      IonCopies(names, masses, probs, charges[..n], sign) + IonCopy(names, masses, probs, charges[n], sign)
  }

  /** Both branches of the charge handling; an empty charge list takes the second, whose
      concat of nothing fails. */
  function Ions(names: seq<string>, masses: seq<real>, probs: seq<Float>, charges: seq<int>, sign: string)
    : (r: Result<seq<Ion>>)
    requires |names| == |masses| == |probs|
    ensures r.Err? <==> charges == []
  {
    if charges == [] then Err(NothingToConcat) else Ok(IonCopies(names, masses, probs, charges, sign))
  }

  // ---------------------------------------------------------------------------------------
  // The target

  /** m/z of a formula target: its mass over its charge, charge 0 counting as 1; there is no
      electron term. */
  function LegacyMz(m: LegacyMolecules.LegacyState): (r: Float)
    ensures r.Finite? && r.v * (if m.charge == 0 then 1 else m.charge) as real == m.mass
  {
    var ch := if m.charge == 0 then 1 else m.charge;
    DivTimes(m.mass, ch as real);
    Finite(m.mass / ch as real)
  }

  lemma {:induction false} DivTimes(x: real, d: real)
    requires d != 0.0
    ensures (x / d) * d == x
  {
  }

  /** The first `if mz:`: a target that is not truthy stays as it is; otherwise float(mz), or
      the m/z of Molecule(mz) when float() refuses the text. */
  function TargetMz(t: Table, mz: TargetArg): (r: Result<Option<Float>>)
    ensures !Truthy(mz) ==> r == Ok(None)
    ensures mz.Number? && Truthy(mz) ==> r == Ok(Some(mz.value))
  {
    if !Truthy(mz) then Ok(None)
    else match mz
      case Number(v, _) => Ok(Some(v))
      case Text(s) =>
        match ParseFloat(s)
        case Some(v) => Ok(Some(v))
        case None =>
          var m :- LegacyMolecules.Construct(t, s);
          Ok(Some(LegacyMz(m)))
  }

  // ---------------------------------------------------------------------------------------
  // Window and rows

  /** 'mass/charge diff': the signed distance to the target, 0 when no target filters. */
  function MzDiff(x: Float, mz: Option<Float>): Float {
    if OldCalculator.Filters(mz) then Sub(x, mz.value) else Finite(0.0)
  }

  /** 'MRP': the target m/z over the distance's magnitude, 0 when no target filters. */
  function Mrp(x: Float, mz: Option<Float>): Float {
    if OldCalculator.Filters(mz) then Div(mz.value, Magnitude(Sub(x, mz.value))) else Finite(0.0)
  }

  /** (mass/charge >= mz - mzrange) & (mass/charge <= mz + mzrange), as IEEE comparisons. */
  predicate InRange(x: Float, mz: Float, range: real) {
    Le(Sub(mz, Finite(range)), x) && Le(x, Add(mz, Finite(range)))
  }

  /** The rows inside the window, in their order. */
  function InRangeOf(ions: seq<Ion>, mz: Float, range: real): (r: seq<Ion>)
    ensures |r| <= |ions|
    ensures forall x :: x in r <==> x in ions && InRange(x.mz, mz, range)
    decreases |ions|
  {
    if ions == [] then []
    else
      var n := |ions| - 1;
      assert forall x :: x in ions <==> x in ions[..n] || x == ions[n] by {
        assert ions == ions[..n] + [ions[n]];
      }
      InRangeOf(ions[..n], mz, range) + (if InRange(ions[n].mz, mz, range) then [ions[n]] else [])
  }

  /** The second `if mz:` tests the converted target: only a target other than 0 filters. */
  function Selected(ions: seq<Ion>, mz: Option<Float>, range: real): seq<Ion> {
    if OldCalculator.Filters(mz) then InRangeOf(ions, mz.value, range) else ions
  }

  /** One row of the result. */
  datatype MassRow = MassRow(molecule: string, charge: int, mz: Float, diff: Float, mrp: Float,
                             probability: Float)

  /** convert(s): Molecule(s).formula(style=formula_style). */
  function Converted(t: Table, s: string, style: string): Result<string> {
    var m :- LegacyMolecules.Construct(t, s);
    LegacyMolecules.LegacyFormulaText(m, LegacyMolecules.LegacyOptions(style, true, true, None))
  }

  function RowFor(t: Table, ion: Ion, mz: Option<Float>, style: string): Result<MassRow> {
    var f :- Converted(t, ion.molecule, style);
    Ok(MassRow(f, ion.charge, ion.mz, MzDiff(ion.mz, mz), Mrp(ion.mz, mz), ion.probability))
  }

  /** results['molecule'].apply(convert) with the other columns alongside; the first label
      that does not convert fails the call. */
  function RowsFor(t: Table, ions: seq<Ion>, mz: Option<Float>, style: string): (r: Result<seq<MassRow>>)
    ensures r.Ok? ==> |r.value| == |ions| && forall j :: 0 <= j < |ions| ==> RowFor(t, ions[j], mz, style) == Ok(r.value[j])
    ensures r.Err? ==> exists j :: 0 <= j < |ions| && RowFor(t, ions[j], mz, style) == Err(r.error)
  {
    MapResult(ions, (ion: Ion) => RowFor(t, ion, mz, style))
  }

  // ---------------------------------------------------------------------------------------
  // Sorting by m/z

  predicate SortedByMz(rows: seq<MassRow>) {
    forall i, j :: 0 <= i < j < |rows| ==> SortLe(rows[i].mz, rows[j].mz)
  }

  function InsertByMz(x: MassRow, rows: seq<MassRow>): (r: seq<MassRow>)
    ensures multiset(r) == multiset(rows) + multiset{x}
    decreases |rows|
  {
    if rows == [] || SortLe(x.mz, rows[0].mz) then [x] + rows
    else
      assert rows == [rows[0]] + rows[1..];
      [rows[0]] + InsertByMz(x, rows[1..])
  }

  lemma {:induction false} InsertSorted(x: MassRow, rows: seq<MassRow>)
    requires SortedByMz(rows)
    ensures SortedByMz(InsertByMz(x, rows))
    decreases |rows|
  {
    if rows == [] {
    } else if SortLe(x.mz, rows[0].mz) {
      forall e | e in rows ensures SortLe(x.mz, e.mz) {
        var k :| 0 <= k < |rows| && rows[k] == e;
        if k > 0 {
          SortLeTransitive(x.mz, rows[0].mz, e.mz);
        }
      }
      SortedCons(x, rows);
    } else {
      var tail := rows[1..];
      SortedTail(rows);
      InsertSorted(x, tail);
      var ins := InsertByMz(x, tail);
      SortLeTotal(x.mz, rows[0].mz);
      forall e | e in ins ensures SortLe(rows[0].mz, e.mz) {
        InsertMember(x, tail, e);
        if e != x {
          var k :| 0 <= k < |tail| && tail[k] == e;
          assert rows[k + 1] == e;
        }
      }
      SortedCons(rows[0], ins);
    }
  }

  lemma {:induction false} InsertMember(x: MassRow, rows: seq<MassRow>, e: MassRow)
    requires e in InsertByMz(x, rows)
    ensures e == x || e in rows
  {
    assert e in multiset(InsertByMz(x, rows));
  }

  lemma {:induction false} SortedTail(rows: seq<MassRow>)
    requires SortedByMz(rows) && rows != []
    ensures SortedByMz(rows[1..])
  {
    var tail := rows[1..];
    forall i, j | 0 <= i < j < |tail| ensures SortLe(tail[i].mz, tail[j].mz) {
      assert tail[i] == rows[i + 1] && tail[j] == rows[j + 1];
    }
  }

  lemma {:induction false} SortedCons(y: MassRow, rest: seq<MassRow>)
    requires SortedByMz(rest)
    requires forall e :: e in rest ==> SortLe(y.mz, e.mz)
    ensures SortedByMz([y] + rest)
  {
    var r := [y] + rest;
    forall i, j | 0 <= i < j < |r| ensures SortLe(r[i].mz, r[j].mz) {
      if i == 0 {
        assert r[j] == rest[j - 1];
      } else {
        assert r[i] == rest[i - 1] && r[j] == rest[j - 1];
      }
    }
  }

  /** results.sort(columns='mass/charge'): the same rows, ascending by m/z and NaN last. */
  function SortByMz(rows: seq<MassRow>): (r: seq<MassRow>)
    ensures SortedByMz(r)
    ensures multiset(r) == multiset(rows)
    decreases |rows|
  {
    if rows == [] then []
    else
      var rest := SortByMz(rows[1..]);
      assert rows == [rows[0]] + rows[1..];
      InsertSorted(rows[0], rest);
      InsertByMz(rows[0], rest)
  }

  // ---------------------------------------------------------------------------------------
  // mass_interference

  /** mass_interference(atoms, mz, mzrange, maxsize, charge, chargesign, minabundance,
      formula_style): the pool, the target, every pick of the pool up to maxsize atoms with its
      label, summed mass and product of abundances, one copy per charge, the window, the
      conversion of the kept labels, and the sort. */
  function MassInterferenceSpec(t: Table, atoms: seq<string>, mz: TargetArg, range: real, maxsize: int,
                                charges: seq<int>, sign: string, minabundance: Option<real>, style: string)
    : Result<seq<MassRow>>
  {
    var pool :- MassPool(t, atoms);
    var target :- TargetMz(t, mz);
    var ions :- IonsOf(pool, maxsize, charges, sign, minabundance);
    var rows :- RowsFor(t, Selected(ions, target, range), target, style);
    Ok(SortByMz(rows))
  }

  /** Every pick of the pool up to maxsize atoms, named by its keys joined with spaces, weighed
      by the sum of its masses and the product of its cells, one copy per charge. */
  function IonsOf(pool: seq<Isotope>, maxsize: int, charges: seq<int>, sign: string, minabundance: Option<real>)
    : Result<seq<Ion>>
  {
    var m := Sizes(maxsize);
    var names := MapSeq(IsotopeCombos(pool, m), SpaceJoin);
    var masses := MapSeq(MassCombos(pool, m), RSum);
    var probs := MapSeq(AbundanceCombos(Cells(pool, minabundance), m), Product);
    Ions(names, masses, probs, charges, sign)
  }

  /** The loop over the atoms that collects picked_atoms. */
  method PickLoop(t: Table, atoms: seq<string>) returns (picked: seq<Isotope>)
    ensures picked == Picked(t, atoms)
  {
    picked := [];
    for i := 0 to |atoms|
      invariant picked == Picked(t, atoms[..i])
    {
      assert atoms[..i + 1][..i] == atoms[..i];
      picked := picked + ElementRows(t, atoms[i]);
    }
    assert atoms[..|atoms|] == atoms;
  }

  /** The size loop that extends isotope_combos, mass_combos and abundance_combos together. */
  method EnumerateAll(pool: seq<Isotope>, cells: seq<Float>, maxsize: int)
    returns (isotopeCombos: seq<seq<string>>, massCombos: seq<seq<real>>, abundanceCombos: seq<seq<Float>>)
    requires |cells| == |pool|
    ensures isotopeCombos == IsotopeCombos(pool, Sizes(maxsize))
    ensures massCombos == MassCombos(pool, Sizes(maxsize))
    ensures abundanceCombos == AbundanceCombos(cells, Sizes(maxsize))
  {
    isotopeCombos, massCombos, abundanceCombos := [], [], [];
    var size := 1;
    while size <= maxsize
      invariant 1 <= size <= Sizes(maxsize) + 1
      invariant isotopeCombos == IsotopeCombos(pool, size - 1)
      invariant massCombos == MassCombos(pool, size - 1)
      invariant abundanceCombos == AbundanceCombos(cells, size - 1)
    {
      var picks := Combos(|pool|, size);
      CombosSplit(pool, size);
      CellCombosSplit(cells, size);
      isotopeCombos := isotopeCombos + KeyRows(pool, picks);
      massCombos := massCombos + MassRows(pool, picks);
      abundanceCombos := abundanceCombos + CellRows(cells, picks);
      size := size + 1;
    }
  }

  /** The cells of the picks up to size k are those up to k - 1 followed by those of size k. */
  lemma {:induction false} CellCombosSplit(cells: seq<Float>, k: nat)
    requires k >= 1
    ensures AbundanceCombos(cells, k) == AbundanceCombos(cells, k - 1) + CellRows(cells, Combos(|cells|, k))
  {
    var n := |cells|;
    assert AllCombos(n, k) == AllCombos(n, k - 1) + Combos(n, k);
  }

  /** The two branches on len(charge), the second a loop over the charges. */
  method ChargeExpand(names: seq<string>, masses: seq<real>, probs: seq<Float>, charges: seq<int>, sign: string)
    returns (r: Result<seq<Ion>>)
    requires |names| == |masses| == |probs|
    ensures r == Ions(names, masses, probs, charges, sign)
  {
    if |charges| == 1 {
      var copy := IonCopy(names, masses, probs, charges[0], sign);
      assert charges[..0] == [];
      assert IonCopies(names, masses, probs, charges, sign) == [] + copy;
      assert [] + copy == copy;
      r := Ok(copy);
    } else if charges == [] {
      r := Err(NothingToConcat);
    } else {
      var data: seq<Ion> := [];
      for i := 0 to |charges|
        invariant data == IonCopies(names, masses, probs, charges[..i], sign)
      {
        assert charges[..i + 1][..i] == charges[..i];
        data := data + IonCopy(names, masses, probs, charges[i], sign);
      }
      assert charges[..|charges|] == charges;
      r := Ok(data);
    }
  }

  /** mass_interference, step by step. */
  method MassInterference(t: Table, atoms: seq<string>, mz: TargetArg, range: real, maxsize: int,
                          charges: seq<int>, sign: string, minabundance: Option<real>, style: string)
    returns (r: Result<seq<MassRow>>)
    ensures r == MassInterferenceSpec(t, atoms, mz, range, maxsize, charges, sign, minabundance, style)
  {
    var picked := PickLoop(t, atoms);
    if atoms == [] {
      return Err(NothingToConcat);
    }
    var pool := WithoutAliases(picked);
    assert MassPool(t, atoms) == Ok(pool);
    var target := TargetMz(t, mz);
    if target.Err? {
      return Err(target.error);
    }
    var ions := IonsLoop(pool, maxsize, charges, sign, minabundance);
    if ions.Err? {
      return Err(ions.error);
    }
    var rows := RowsFor(t, Selected(ions.value, target.value, range), target.value, style);
    if rows.Err? {
      return Err(rows.error);
    }
    r := Ok(SortByMz(rows.value));
  }

  /** The ions of a pool: the size loop, the sums and products, and the charge branches. */
  method IonsLoop(pool: seq<Isotope>, maxsize: int, charges: seq<int>, sign: string, minabundance: Option<real>)
    returns (r: Result<seq<Ion>>)
    ensures r == IonsOf(pool, maxsize, charges, sign, minabundance)
  {
    var cells := Cells(pool, minabundance);
    var isotopeCombos, massCombos, abundanceCombos := EnumerateAll(pool, cells, maxsize);
    var names := MapSeq(isotopeCombos, SpaceJoin);
    var masses := MapSeq(massCombos, RSum);
    var probs := MapSeq(abundanceCombos, Product);
    r := ChargeExpand(names, masses, probs, charges, sign);
  }

  // ---------------------------------------------------------------------------------------
  // standard_ratios

  /** One row of the standard-ratio table: the rendered isotope, its mass, its abundance and
      the element's highest abundance divided by it. */
  datatype StandardRow = StandardRow(isotope: string, mass: real, abundance: Float, inverse: Float)

  /** eldata with its 'inverse' column for one atom: highest / abundance, where highest is the
      largest known abundance of the element. */
  function ElementData(t: Table, el: string): (r: seq<(Isotope, Float)>)
    ensures |r| == |ElementRows(t, el)|
    ensures forall j :: 0 <= j < |r| ==> r[j].0 == ElementRows(t, el)[j]
  {
    var rows := ElementRows(t, el);
    var highest := ElementMax(rows, el);
    MapSeq(rows, (x: Isotope) => (x, Div(highest, OfOption(x.abundance))))
  }

  /** concat(data): the atoms' rows one atom after another. */
  function RatioData(t: Table, atoms: seq<string>): (r: seq<(Isotope, Float)>)
    decreases |atoms|
  {
    if atoms == [] then []
    else
      var n := |atoms| - 1;
      RatioData(t, atoms[..n]) + ElementData(t, atoms[n])
  }

  /** convert(i): Molecule(i).formula(style=formula_style, show_charge=False). */
  function IsotopeLabel(t: Table, key: string, style: string): Result<string> {
    var m :- LegacyMolecules.Construct(t, key);
    LegacyMolecules.LegacyFormulaText(m, LegacyMolecules.LegacyOptions(style, true, false, None))
  }

  function StandardRowOf(t: Table, d: (Isotope, Float), style: string): Result<StandardRow> {
    var text :- IsotopeLabel(t, d.0.key, style);
    Ok(StandardRow(text, d.0.mass, OfOption(d.0.abundance), d.1))
  }

  /** standard_ratios(atoms, formula_style). */
  function StandardRatiosSpec(t: Table, atoms: seq<string>, style: string): (r: Result<seq<StandardRow>>)
    ensures atoms == [] ==> r == Err(NothingToConcat)
  {
    if atoms == [] then Err(NothingToConcat)
    else
      var data := RatioData(t, atoms);
      MapResult(data, (d: (Isotope, Float)) => StandardRowOf(t, d, style))
  }

  /** The loop over the atoms that collects data. */
  method RatioLoopOf(t: Table, atoms: seq<string>) returns (data: seq<(Isotope, Float)>)
    ensures data == RatioData(t, atoms)
  {
    data := [];
    for i := 0 to |atoms|
      invariant data == RatioData(t, atoms[..i])
    {
      assert atoms[..i + 1][..i] == atoms[..i];
      var rows := ElementRows(t, atoms[i]);
      var highest := ElementMax(rows, atoms[i]);
      var eldata := MapSeq(rows, (x: Isotope) => (x, Div(highest, OfOption(x.abundance))));
      data := data + eldata;
    }
    assert atoms[..|atoms|] == atoms;
  }

  method StandardRatios(t: Table, atoms: seq<string>, style: string) returns (r: Result<seq<StandardRow>>)
    ensures r == StandardRatiosSpec(t, atoms, style)
  {
    if atoms == [] {
      return Err(NothingToConcat);
    }
    var data := RatioLoopOf(t, atoms);
    r := MapResult(data, (d: (Isotope, Float)) => StandardRowOf(t, d, style));
  }

  // ---------------------------------------------------------------------------------------
  // relative_abundance

  /** What masstable.loc raises for a key it does not have. */
  const NotInIndex: Error := LookupError("not in index")

  /** No isotope of the list is in the table. */
  predicate NoneFound(t: Table, isot: seq<string>) {
    forall j :: 0 <= j < |isot| ==> FindKey(t, isot[j]).None?
  }

  /** The rows masstable.loc[isot] finds, in the isotopes' own order and repeats included, each
      with its own count. A key the table lacks gives a row of NaN whose main isotope
      value_counts drops, so it takes no part in any group. */
  function Present(t: Table, isot: seq<string>, stoich: seq<nat>): (r: (seq<Isotope>, seq<nat>))
    requires |isot| == |stoich|
    ensures |r.0| == |r.1| <= |isot|
    decreases |isot|
  {
    if isot == [] then ([], [])
    else
      var n := |isot| - 1;
      var rest := Present(t, isot[..n], stoich[..n]);
      match FindKey(t, isot[n])
      case None => rest
      case Some(i) => (rest.0 + [t[i]], rest.1 + [stoich[n]])
  }

  /** relative_abundance(isot, stoich): masstable.loc raises when it finds none of the keys;
      the count column must have one entry per key; the multinomial is taken over the rows
      found. */
  function MassRelativeAbundance(t: Table, isot: seq<string>, stoich: seq<nat>): (r: Result<Float>)
    ensures r.Err? <==> (isot != [] && NoneFound(t, isot)) || |isot| != |stoich|
    ensures isot != [] && NoneFound(t, isot) ==> r == Err(NotInIndex)
  {
    if isot != [] && NoneFound(t, isot) then Err(NotInIndex)
    else if |isot| != |stoich| then Err(Abundance.LengthMismatch)
    else
      var (rows, counts) := Present(t, isot, stoich);
      Ok(Abundance.AbundanceOf(rows, counts))
  }

  /** relative_abundance, step by step: the lookup, the count column, the loop over the
      parents and the product. */
  method RelativeAbundanceOf(t: Table, isot: seq<string>, stoich: seq<nat>) returns (r: Result<Float>)
    ensures r == MassRelativeAbundance(t, isot, stoich)
  {
    if isot != [] && NoneFound(t, isot) {
      return Err(NotInIndex);
    }
    if |isot| != |stoich| {
      return Err(Abundance.LengthMismatch);
    }
    var found := Present(t, isot, stoich);
    var rows, counts := found.0, found.1;
    var parents := Abundance.Parents(rows);
    var perElement := Molecules.GroupLoop(rows, counts, parents);
    var product := Molecules.ProductLoop(perElement);
    r := Ok(product);
  }
}
