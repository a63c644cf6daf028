/** interference() and standard_ratio() of interference_calculator/main.py. The isotope pool is
    the table rows of the sample's elements; every multiset of 1 to maxsize pool isotopes is a
    candidate ion, expanded over the charge list with the electron correction, kept when its
    m/z lies in the target window, annotated with its formula and probability, and followed by
    one target row. Pandas frames become sequences of row records. */
module Interferences {
  import opened Wrappers
  import opened Numeric
  import opened Text
  import opened IsotopeTable
  import opened Seqs
  import opened Formulas
  import opened Molecules
  import opened Combinations

  // ---------------------------------------------------------------------------------------
  // Arguments

  /** One value of the charge list, as int() receives it. */
  datatype ChargeValue = IntCharge(i: int) | RealCharge(r: real) | TextCharge(s: string)

  /** The charge argument: a single number or string, a list or tuple, or anything else. */
  datatype ChargeArg = Scalar(v: ChargeValue) | Many(values: seq<ChargeValue>) | OtherType

  /** The target argument: none at all, a number (with the text str() gives for it), or a
      string, which may spell a number or a formula. */
  datatype TargetArg = NoTarget | Number(value: Float, text: string) | Text(s: string)

  /** int() of a float: truncation toward zero. */
  function Truncate(r: real): (i: int)
    ensures r >= 0.0 ==> 0.0 <= i as real <= r < i as real + 1.0
    ensures r < 0.0 ==> i as real - 1.0 < r <= i as real <= 0.0
  {
    if r >= 0.0 then r.Floor else -((-r).Floor)
  }

  /** int(c) */
  function IntOf(v: ChargeValue): Result<int> {
    match v
    case IntCharge(i) => Ok(i)
    case RealCharge(r) => Ok(Truncate(r))
    case TextCharge(s) =>
      match ParseInt(s)
      case Some(i) => Ok(i)
      case None => Err(ValueError("invalid literal for int() with base 10"))
  }

  /** The charge normalisation: a list or tuple becomes its values as ints; a single value is
      passed through int() and then tuple(), which fails on an int; anything else is refused. */
  function Charges(arg: ChargeArg): (r: Result<seq<int>>)
    ensures arg.Scalar? ==> r.Err?
    ensures arg.OtherType? ==> r == Err(ValueError("charge must be given as a number or a list of numbers."))
    ensures arg.Many? ==> (r.Ok? <==> forall j :: 0 <= j < |arg.values| ==> IntOf(arg.values[j]).Ok?)
    ensures arg.Many? && r.Ok? ==>
              |r.value| == |arg.values| && forall j :: 0 <= j < |arg.values| ==> IntOf(arg.values[j]) == Ok(r.value[j])
  {
    match arg
    case Scalar(v) =>
      var _ :- IntOf(v);
      Err(TypeError("'int' object is not iterable"))
    case Many(vs) => MapResult(vs, IntOf)
    case OtherType => Err(ValueError("charge must be given as a number or a list of numbers."))
  }

  predicate ValidSign(sign: string) {
    sign == "+" || sign == "-" || sign == "o" || sign == "0"
  }

  const SignError: Error := ValueError("chargesign must be either \"+\", \"-\", \"o\", or \"0\".")

  /** The text added to a label for a charge: nothing for 0, the sign for 1, the number and
      the sign otherwise, after a space. */
  function ChargeSuffix(ch: int, sign: string): string {
    if ch == 0 then "" else if ch == 1 then " " + sign else " " + IntToString(ch) + sign
  }

  // ---------------------------------------------------------------------------------------
  // The target

  /** What interference() knows about its target: the target row's label, charge, m/z and
      probability, and whether a target was given at all (which switches the window on). */
  datatype TargetInfo = TargetInfo(name: Option<string>, charge: int, mz: Float, abundance: Float, active: bool)

  /** Python truth of the target argument. */
  predicate Truthy(target: TargetArg) {
    match target
    case NoTarget => false
    case Number(v, _) => v != Finite(0.0)
    case Text(s) => s != []
  }

  /** The target row's label for a target that is not truthy: the argument itself. */
  function LabelOf(target: TargetArg): Option<string> {
    match target
    case NoTarget => None
    case Number(_, text) => Some(text)
    case Text(s) => Some(s)
  }

  /** m/z of a molecule: its mass, divided by its charge when it has one. */
  function MoleculeMz(m: MolState): Float {
    if m.charge > 0 then Finite(m.mass / m.charge as real) else Finite(m.mass)
  }

  /** A formula target: the molecule's own sign and charge, or else the search's sign and the
      first search charge, in which case the inferred charge is written onto the label. */
  function FormulaTarget(t: Table, s: string, charges: seq<int>, sign: string, relabel: bool): Result<TargetInfo> {
    var m :- Construct(t, s);
    var tsign := if m.chargeSign != "" then m.chargeSign else sign;
    if m.charge == 0 && charges == [] then Err(LookupError("tuple index out of range"))
    else
      var tcharge := if m.charge != 0 then m.charge as int else charges[0];
      var inferred := m.chargeSign == "" || m.charge == 0;
      var name := if relabel && inferred then s + ChargeSuffix(tcharge, tsign) else s;
      Ok(TargetInfo(Some(name), tcharge, MoleculeMz(m), m.abundance, true))
  }

  /** Target resolution: no target gives m/z 0 and probability 0; a number, or a string that
      float() reads, gives that m/z with charge 0 and probability 1; any other string is a
      formula. */
  function ResolveTargetWith(t: Table, target: TargetArg, charges: seq<int>, sign: string, relabel: bool)
    : Result<TargetInfo>
  {
    if !Truthy(target) then Ok(TargetInfo(LabelOf(target), 0, Finite(0.0), Finite(0.0), false))
    else match target
      case Number(v, text) => Ok(TargetInfo(Some(text), 0, v, Finite(1.0), true))
      case Text(s) =>
        match ParseFloat(s)
        case Some(v) => Ok(TargetInfo(Some(s), 0, v, Finite(1.0), true))
        case None => FormulaTarget(t, s, charges, sign, relabel)
  }

  // ---------------------------------------------------------------------------------------
  // Candidates

  /** periodic_table[periodic_table['element'].isin(atoms)]: the rows of the sample's
      elements, in table order. */
  function Pool(t: Table, atoms: seq<string>): (r: seq<Isotope>)
    ensures |r| <= |t|
    ensures forall x :: x in r <==> x in t && x.element in atoms
    decreases |t|
  {
    if t == [] then []
    else
      assert forall x :: x in t <==> x == t[0] || x in t[1..];
      (if t[0].element in atoms then [t[0]] else []) + Pool(t[1..], atoms)
  }

  /** The isotope keys of a pick. */
  function KeysAt(pool: seq<Isotope>, c: seq<nat>): (r: seq<string>)
    requires Within(c, 0, |pool|)
    ensures |r| == |c| && forall i :: 0 <= i < |c| ==> r[i] == pool[c[i]].key
  {
    seq(|c|, i requires 0 <= i < |c| => pool[c[i]].key)
  }

  /** The masses of a pick. */
  function MassesAt(pool: seq<Isotope>, c: seq<nat>): (r: seq<real>)
    requires Within(c, 0, |pool|)
    ensures |r| == |c| && forall i :: 0 <= i < |c| ==> r[i] == pool[c[i]].mass
  {
    seq(|c|, i requires 0 <= i < |c| => pool[c[i]].mass)
  }

  /** range(1, maxsize + 1) as a count of sizes. */
  function Sizes(maxsize: int): nat {
    if maxsize < 1 then 0 else maxsize
  }

  /** isotope_combos: the keys of every pick of every size. */
  function IsotopeCombos(pool: seq<Isotope>, m: nat): (r: seq<seq<string>>)
    ensures |r| == |AllCombos(|pool|, m)|
  {
    KeyRows(pool, AllCombos(|pool|, m))
  }

  /** mass_combos: the masses of every pick of every size, in the same order. */
  function MassCombos(pool: seq<Isotope>, m: nat): (r: seq<seq<real>>)
    ensures |r| == |AllCombos(|pool|, m)|
  {
    MassRows(pool, AllCombos(|pool|, m))
  }

  predicate AllWithin(cs: seq<seq<nat>>, n: nat) {
    forall j :: 0 <= j < |cs| ==> Within(cs[j], 0, n)
  }

  /** The keys of each pick of a list. */
  function KeyRows(pool: seq<Isotope>, cs: seq<seq<nat>>): (r: seq<seq<string>>)
    requires AllWithin(cs, |pool|)
    ensures |r| == |cs| && forall j :: 0 <= j < |cs| ==> r[j] == KeysAt(pool, cs[j])
  {
    seq(|cs|, j requires 0 <= j < |cs| => KeysAt(pool, cs[j]))
  }

  /** The masses of each pick of a list. */
  function MassRows(pool: seq<Isotope>, cs: seq<seq<nat>>): (r: seq<seq<real>>)
    requires AllWithin(cs, |pool|)
    ensures |r| == |cs| && forall j :: 0 <= j < |cs| ==> r[j] == MassesAt(pool, cs[j])
  {
    seq(|cs|, j requires 0 <= j < |cs| => MassesAt(pool, cs[j]))
  }

  function RSum(s: seq<real>): real
    decreases |s|
  {
    if s == [] then 0.0 else RSum(s[..|s| - 1]) + s[|s| - 1]
  }

  function SpaceJoin(keys: seq<string>): string { Join(" ", keys) }

  /** A candidate ion: label, m/z and charge. */
  datatype Candidate = Candidate(molecule: string, mz: real, charge: int)

  /** mass / ch, less one electron mass for '+', plus one otherwise. */
  function ChargedMz(mass: real, ch: int, sign: string): real
    requires ch != 0
  {
    mass / ch as real + (if sign == "+" then -ElectronMass else ElectronMass)
  }

  /** One copy of the neutral candidates for one charge: a charge of 0 leaves them alone;
      otherwise the label gains the charge, and the mass is divided by the charge and has one
      electron mass taken off for '+' or added for '-'. */
  function ChargeCopy(names: seq<string>, masses: seq<real>, ch: int, sign: string): (r: seq<Candidate>)
    requires |names| == |masses|
    ensures |r| == |names|
  {
    seq(|names|, j requires 0 <= j < |names| =>
      if ch == 0 then Candidate(names[j], masses[j], 0)
      else Candidate(names[j] + ChargeSuffix(ch, sign), ChargedMz(masses[j], ch, sign), ch))
  }

  /** pd.concat of the copies, one per charge, in the order of the charge list. */
  function ChargeCopies(names: seq<string>, masses: seq<real>, charges: seq<int>, sign: string): (r: seq<Candidate>)
    requires |names| == |masses|
    ensures |r| == |charges| * |names|
    decreases |charges|
  {
    if charges == [] then []
    else
      var n := |charges| - 1;
      ChargeCopies(names, masses, charges[..n], sign) + ChargeCopy(names, masses, charges[n], sign)
  }

  /** The neutral signs keep one uncharged copy; the other signs need at least one charge
      (pd.concat of nothing fails). */
  function Charged(names: seq<string>, masses: seq<real>, charges: seq<int>, sign: string): (r: Result<seq<Candidate>>)
    requires |names| == |masses|
  {
    if sign == "o" || sign == "0" then Ok(ChargeCopy(names, masses, 0, sign))
    else if charges == [] then Err(ValueError("No objects to concatenate"))
    else Ok(ChargeCopies(names, masses, charges, sign))
  }

  /** The inclusive window around a target m/z; none of an infinite or NaN target. */
  predicate InWindow(x: real, target: Float, range: real) {
    target.Finite? && target.v - range <= x <= target.v + range
  }

  /** The rows whose m/z lies in the window, in their order. */
  function Window(cs: seq<Candidate>, target: Float, range: real): (r: seq<Candidate>)
    ensures forall x :: x in r <==> x in cs && InWindow(x.mz, target, range)
    decreases |cs|
  {
    if cs == [] then []
    else
      var n := |cs| - 1;
      assert forall x :: x in cs <==> x in cs[..n] || x == cs[n] by {
        assert cs == cs[..n] + [cs[n]];
      }
      Window(cs[..n], target, range) + (if InWindow(cs[n].mz, target, range) then [cs[n]] else [])
  }

  // ---------------------------------------------------------------------------------------
  // Rows

  /** One output row; the molecule cell is None only for a target row without a target. */
  datatype Row = Row(molecule: Option<string>, charge: int, mz: Float, diff: Float, mrp: Float,
                     probability: Float, target: bool)

  /** 'mass/charge diff' and 'MRP': against the target when there is one, 0.0 and inf when
      there is not. */
  function Diff(x: real, info: TargetInfo): Float {
    if info.active && info.mz.Finite? then Finite(x - info.mz.v) else Finite(0.0)
  }

  function Resolving(x: real, info: TargetInfo): Float {
    if info.active && info.mz.Finite? then Div(info.mz, Finite(Abs(x - info.mz.v))) else PosInf
  }

  /** The options formula(style=style) passes. */
  function StyleOptions(style: string): Options {
    Options(style, true, true, false, None)
  }

  /** One candidate's row: probability and formula from Molecule(label), m/z as expanded. */
  function RowOf(t: Table, c: Candidate, info: TargetInfo, style: string): Result<Row> {
    var m :- Construct(t, c.molecule);
    var f :- FormulaText(t, CompositionOf(m), StyleOptions(style));
    Ok(Row(Some(f), c.charge, Finite(c.mz), Diff(c.mz, info), Resolving(c.mz, info), m.abundance, false))
  }

  function RowOfWith(t: Table, info: TargetInfo, style: string): Candidate -> Result<Row> {
    c => RowOf(t, c, info, style)
  }

  function Annotated(t: Table, cs: seq<Candidate>, info: TargetInfo, style: string): (r: Result<seq<Row>>)
    ensures r.Ok? <==> forall j :: 0 <= j < |cs| ==> RowOf(t, cs[j], info, style).Ok?
    ensures r.Ok? ==> |r.value| == |cs| && forall j :: 0 <= j < |cs| ==> RowOf(t, cs[j], info, style) == Ok(r.value[j])
    ensures r.Err? ==> exists j :: 0 <= j < |cs| && RowOf(t, cs[j], info, style) == Err(r.error)
                          && forall k :: 0 <= k < j ==> RowOf(t, cs[k], info, style).Ok?
  {
    MapResult(cs, RowOfWith(t, info, style))
  }

  /** The row appended last: the target's label, charge, m/z and probability, diff 0, MRP inf. */
  function TargetRow(info: TargetInfo): Row {
    Row(info.name, info.charge, info.mz, Finite(0.0), PosInf, info.abundance, true)
  }

  /** The candidate ions before the window: every pick of the pool's isotopes, named by its
      keys joined with spaces and weighed by the sum of its masses, expanded over the charges. */
  function Candidates(t: Table, atoms: seq<string>, maxsize: int, charges: seq<int>, sign: string)
    : Result<seq<Candidate>>
  {
    var pool := Pool(t, atoms);
    var m := Sizes(maxsize);
    Charged(MapSeq(IsotopeCombos(pool, m), SpaceJoin), MapSeq(MassCombos(pool, m), RSum), charges, sign)
  }

  /** The candidates a target keeps: those in its window, or all of them without a target. */
  function Kept(cs: seq<Candidate>, info: TargetInfo, range: real): seq<Candidate> {
    if info.active then Window(cs, info.mz, range) else cs
  }

  /** Everything after the target is known: candidates, window, rows, and the target row. */
  function Search(t: Table, atoms: seq<string>, info: TargetInfo, range: real, maxsize: int,
                  charges: seq<int>, sign: string, style: string): (r: Result<seq<Row>>)
    ensures r.Ok? ==> |r.value| >= 1 && r.value[|r.value| - 1] == TargetRow(info)
  {
    var cs :- Candidates(t, atoms, maxsize, charges, sign);
    var rows :- Annotated(t, Kept(cs, info, range), info, style);
    Ok(rows + [TargetRow(info)])
  }

  /** interference(atoms, target, targetrange, maxsize, charge, chargesign, style): the
      charges are normalised, then the sign checked, then the target resolved, with or without
      writing an inferred charge onto the target's label. */
  function InterferenceWithSpec(t: Table, atoms: seq<string>, target: TargetArg, range: real, maxsize: int,
                                charge: ChargeArg, sign: string, style: string, relabel: bool): (r: Result<seq<Row>>)
    ensures r.Ok? ==> |r.value| >= 1 && r.value[|r.value| - 1].target
  {
    var charges :- Charges(charge);
    if !ValidSign(sign) then Err(SignError)
    else
      var info :- ResolveTargetWith(t, target, charges, sign, relabel);
      Search(t, atoms, info, range, maxsize, charges, sign, style)
  }

  /** The package version relabels. */
  function InterferenceSpec(t: Table, atoms: seq<string>, target: TargetArg, range: real, maxsize: int,
                            charge: ChargeArg, sign: string, style: string): Result<seq<Row>>
  {
    InterferenceWithSpec(t, atoms, target, range, maxsize, charge, sign, style, true)
  }

  // ---------------------------------------------------------------------------------------
  // standard_ratio

  /** One row of the standard-ratio table. */
  datatype RatioRow = RatioRow(isotope: string, mass: real, abundance: Float, ratio: Float,
                               inverse: Float, standard: string)

  /** abun.max() over one element's rows: the largest known abundance, NaN when none is
      known. */
  function ElementMax(rows: seq<Isotope>, el: string): (r: Float)
    ensures r.Finite? || r.NaN?
    ensures r.NaN? <==> forall j :: 0 <= j < |rows| && rows[j].element == el ==> rows[j].abundance.None?
    ensures r.Finite? ==> forall j :: 0 <= j < |rows| && rows[j].element == el && rows[j].abundance.Some? ==>
                            rows[j].abundance.value <= r.v
    ensures r.Finite? ==> exists j :: 0 <= j < |rows| && rows[j].element == el && rows[j].abundance == Some(r.v)
    decreases |rows|
  {
    if rows == [] then NaN
    else
      var n := |rows| - 1;
      var rest := ElementMax(rows[..n], el);
      assert forall j :: 0 <= j < n ==> rows[..n][j] == rows[j];
      var x := rows[n];
      if x.element != el || x.abundance.None? then rest
      else if rest.NaN? || rest.v < x.abundance.value then Finite(x.abundance.value)
      else rest
  }

  /** ratio = abun / abun.max() for the row's element. */
  function RatioOf(data: seq<Isotope>, x: Isotope): Float {
    Div(OfOption(x.abundance), ElementMax(data, x.element))
  }

  /** 1 / ratio */
  function InverseOf(data: seq<Isotope>, x: Isotope): Float {
    Div(Finite(1.0), RatioOf(data, x))
  }

  /** Molecule(i).formula(style=style, show_charge=False, all_isotopes=True) */
  function IsotopeText(t: Table, key: string, style: string): Result<string> {
    var m :- Construct(t, key);
    FormulaText(t, CompositionOf(m), Options(style, true, false, true, None))
  }

  function IsotopeTextOf(t: Table, style: string): Isotope -> Result<string> {
    (x: Isotope) => IsotopeText(t, x.key, style)
  }

  /** The isotope column: the keys, or their rendering when asked for. */
  function IsotopeColumn(t: Table, data: seq<Isotope>, style: string, render: bool): (r: Result<seq<string>>)
    ensures !render ==> r == Ok(MapSeq(data, (x: Isotope) => x.key))
  {
    if render then MapResult(data, IsotopeTextOf(t, style))
    else Ok(MapSeq(data, (x: Isotope) => x.key))
  }

  function RatioRows(data: seq<Isotope>, isotopes: seq<string>): (r: seq<RatioRow>)
    requires |isotopes| == |data|
    ensures |r| == |data|
  {
    seq(|data|, j requires 0 <= j < |data| =>
      RatioRow(isotopes[j], data[j].mass, OfOption(data[j].abundance), RatioOf(data, data[j]),
               InverseOf(data, data[j]), data[j].standard))
  }

  /** standard_ratio(atoms, style): the rows of the sample's elements, each with its
      abundance divided by the largest abundance of its element, and the inverse of that. */
  function StandardRatioWith(t: Table, atoms: seq<string>, style: string, render: bool): Result<seq<RatioRow>> {
    var data := Pool(t, atoms);
    var isotopes :- IsotopeColumn(t, data, style, render);
    Ok(RatioRows(data, isotopes))
  }

  /** The package version renders the isotopes for every style but 'plain'. */
  function StandardRatioSpec(t: Table, atoms: seq<string>, style: string): Result<seq<RatioRow>> {
    StandardRatioWith(t, atoms, style, style != "plain")
  }

  // ---------------------------------------------------------------------------------------
  // The loops

  /** The size loop that extends isotope_combos and mass_combos. */
  method Enumerate(pool: seq<Isotope>, maxsize: int) returns (isotopeCombos: seq<seq<string>>, massCombos: seq<seq<real>>)
    ensures isotopeCombos == IsotopeCombos(pool, Sizes(maxsize))
    ensures massCombos == MassCombos(pool, Sizes(maxsize))
  {
    isotopeCombos, massCombos := [], [];
    var size := 1;
    while size <= maxsize
      invariant 1 <= size <= Sizes(maxsize) + 1
      invariant isotopeCombos == IsotopeCombos(pool, size - 1)
      invariant massCombos == MassCombos(pool, size - 1)
    {
      var picks := Combos(|pool|, size);
      CombosSplit(pool, size);
      isotopeCombos := isotopeCombos + KeyRows(pool, picks);
      massCombos := massCombos + MassRows(pool, picks);
      size := size + 1;
    }
  }

  /** The picks of sizes up to k are those up to k - 1 followed by those of size k. */
  lemma {:induction false} CombosSplit(pool: seq<Isotope>, k: nat)
    requires k >= 1
    ensures IsotopeCombos(pool, k) == IsotopeCombos(pool, k - 1) + KeyRows(pool, Combos(|pool|, k))
    ensures MassCombos(pool, k) == MassCombos(pool, k - 1) + MassRows(pool, Combos(|pool|, k))
  {
    var n := |pool|;
    assert AllCombos(n, k) == AllCombos(n, k - 1) + Combos(n, k);
  }

  /** The loop over the charges that builds data_w_charge. */
  method ChargeLoop(names: seq<string>, masses: seq<real>, charges: seq<int>, sign: string) returns (data: seq<Candidate>)
    requires |names| == |masses|
    ensures data == ChargeCopies(names, masses, charges, sign)
  {
    data := [];
    for i := 0 to |charges|
      invariant data == ChargeCopies(names, masses, charges[..i], sign)
    {
      assert charges[..i + 1][..i] == charges[..i];
      data := data + ChargeCopy(names, masses, charges[i], sign);
    }
    assert charges[..|charges|] == charges;
  }

  /** The charge expansion: one uncharged copy for the neutral signs, the charge loop
      otherwise. */
  method ChargeData(names: seq<string>, masses: seq<real>, charges: seq<int>, sign: string)
    returns (r: Result<seq<Candidate>>)
    requires |names| == |masses|
    ensures r == Charged(names, masses, charges, sign)
  {
    if sign == "o" || sign == "0" {
      return Ok(ChargeCopy(names, masses, 0, sign));
    }
    var data := ChargeLoop(names, masses, charges, sign);
    if charges == [] {
      return Err(ValueError("No objects to concatenate"));
    }
    return Ok(data);
  }

  /** The loop that builds a Molecule for every kept row and collects its probability and
      formula. */
  method AnnotateRows(t: Table, kept: seq<Candidate>, info: TargetInfo, style: string) returns (r: Result<seq<Row>>)
    ensures r == Annotated(t, kept, info, style)
  {
    var rows: seq<Row> := [];
    for i := 0 to |kept|
      invariant |rows| == i
      invariant MappedPrefix(kept, RowOfWith(t, info, style), rows)
    {
      var row := AnnotateRow(t, kept[i], info, style);
      if row.Err? {
        MappedFailure(kept, RowOfWith(t, info, style), rows);
        return Err(row.error);
      }
      MappedStep(kept, RowOfWith(t, info, style), rows, row.value);
      rows := rows + [row.value];
    }
    MappedPass(kept, RowOfWith(t, info, style), rows);
    return Ok(rows);
  }

  /** One kept row: Molecule(label), its probability and its formula in the style. */
  method AnnotateRow(t: Table, c: Candidate, info: TargetInfo, style: string) returns (r: Result<Row>)
    ensures r == RowOf(t, c, info, style)
  {
    var m := New(t, c.molecule);
    if m.Err? {
      return Err(m.error);
    }
    var f := m.value.Formula(t, StyleOptions(style));
    if f.Err? {
      return Err(f.error);
    }
    return Ok(Row(Some(f.value), c.charge, Finite(c.mz), Diff(c.mz, info), Resolving(c.mz, info),
                  m.value.abundance, false));
  }

  /** The target resolution, building the Molecule of a formula target. */
  method TargetOf(t: Table, target: TargetArg, charges: seq<int>, sign: string, relabel: bool)
    returns (r: Result<TargetInfo>)
    ensures r == ResolveTargetWith(t, target, charges, sign, relabel)
  {
    if !Truthy(target) {
      return Ok(TargetInfo(LabelOf(target), 0, Finite(0.0), Finite(0.0), false));
    }
    match target {
      case Number(v, text) =>
        return Ok(TargetInfo(Some(text), 0, v, Finite(1.0), true));
      case Text(s) =>
        var number := ParseFloat(s);
        if number.Some? {
          return Ok(TargetInfo(Some(s), 0, number.value, Finite(1.0), true));
        }
        var mr := New(t, s);
        if mr.Err? {
          return Err(mr.error);
        }
        var m := mr.value;
        var tsign := if m.chargeSign != "" then m.chargeSign else sign;
        if m.charge == 0 && charges == [] {
          return Err(LookupError("tuple index out of range"));
        }
        var tcharge := if m.charge != 0 then m.charge as int else charges[0];
        var name := s;
        if relabel && (m.chargeSign == "" || m.charge == 0) {
          name := s + ChargeSuffix(tcharge, tsign);
        }
        var mz := if m.charge > 0 then Finite(m.mass / m.charge as real) else Finite(m.mass);
        return Ok(TargetInfo(Some(name), tcharge, mz, m.abundance, true));
    }
  }

  /** The body of interference(), with the relabelling of an inferred target charge. */
  method InterferenceWith(t: Table, atoms: seq<string>, target: TargetArg, range: real, maxsize: int,
                          charge: ChargeArg, sign: string, style: string, relabel: bool)
    returns (r: Result<seq<Row>>)
    ensures r == InterferenceWithSpec(t, atoms, target, range, maxsize, charge, sign, style, relabel)
  {
    var charges :- Charges(charge);
    if !ValidSign(sign) {
      return Err(SignError);
    }
    var info :- TargetOf(t, target, charges, sign, relabel);
    var pool := Pool(t, atoms);
    var isotopeCombos, massCombos := Enumerate(pool, maxsize);
    var names := MapSeq(isotopeCombos, SpaceJoin);
    var masses := MapSeq(massCombos, RSum);
    var data :- ChargeData(names, masses, charges, sign);
    assert Candidates(t, atoms, maxsize, charges, sign) == Ok(data);
    var kept := if info.active then Window(data, info.mz, range) else data;
    var rows :- AnnotateRows(t, kept, info, style);
    return Ok(rows + [TargetRow(info)]);
  }

  /** interference() of interference_calculator/main.py. */
  method Interference(t: Table, atoms: seq<string>, target: TargetArg, range: real, maxsize: int,
                      charge: ChargeArg, sign: string, style: string)
    returns (r: Result<seq<Row>>)
    ensures r == InterferenceSpec(t, atoms, target, range, maxsize, charge, sign, style)
  {
    r := InterferenceWith(t, atoms, target, range, maxsize, charge, sign, style, true);
  }

  /** The loop over the atoms that writes the ratio and inverse-ratio columns of each
      element's rows. */
  method RatioLoop(data: seq<Isotope>, atoms: seq<string>) returns (ratio: seq<Float>, inverse: seq<Float>)
    requires forall j :: 0 <= j < |data| ==> data[j].element in atoms
    ensures |ratio| == |inverse| == |data|
    ensures forall j :: 0 <= j < |data| ==> ratio[j] == RatioOf(data, data[j]) && inverse[j] == InverseOf(data, data[j])
  {
    ratio := seq(|data|, _ => Finite(1.0));
    inverse := seq(|data|, _ => Finite(1.0));
    for k := 0 to |atoms|
      invariant |ratio| == |inverse| == |data|
      invariant forall j :: 0 <= j < |data| ==>
                  if data[j].element in atoms[..k] then ratio[j] == RatioOf(data, data[j]) && inverse[j] == InverseOf(data, data[j])
                  else ratio[j] == Finite(1.0) && inverse[j] == Finite(1.0)
    {
      var a := atoms[k];
      var mx := ElementMax(data, a);
      ratio := seq(|data|, j requires 0 <= j < |data| && |ratio| == |data| =>
                 if data[j].element == a then Div(OfOption(data[j].abundance), mx) else ratio[j]);
      inverse := seq(|data|, j requires 0 <= j < |data| && |inverse| == |data| =>
                   if data[j].element == a then Div(Finite(1.0), ratio[j]) else inverse[j]);
      assert forall e :: e in atoms[..k + 1] <==> e in atoms[..k] || e == a by {
        assert atoms[..k + 1] == atoms[..k] + [a];
      }
    }
    assert atoms[..|atoms|] == atoms;
  }

  /** The loop that renders each isotope key as a formula. */
  method RenderLoop(t: Table, data: seq<Isotope>, style: string) returns (r: Result<seq<string>>)
    ensures r == IsotopeColumn(t, data, style, true)
  {
    var texts: seq<string> := [];
    for i := 0 to |data|
      invariant |texts| == i
      invariant MappedPrefix(data, IsotopeTextOf(t, style), texts)
    {
      var text := Render(t, data[i].key, style);
      if text.Err? {
        MappedFailure(data, IsotopeTextOf(t, style), texts);
        return Err(text.error);
      }
      MappedStep(data, IsotopeTextOf(t, style), texts, text.value);
      texts := texts + [text.value];
    }
    MappedPass(data, IsotopeTextOf(t, style), texts);
    return Ok(texts);
  }

  /** One isotope key: Molecule(key) rendered without the charge and with every mass number. */
  method Render(t: Table, key: string, style: string) returns (r: Result<string>)
    ensures r == IsotopeText(t, key, style)
  {
    var m := New(t, key);
    if m.Err? {
      return Err(m.error);
    }
    r := m.value.Formula(t, Options(style, true, false, true, None));
  }

  /** The body of standard_ratio(). */
  method StandardRatioWithRender(t: Table, atoms: seq<string>, style: string, render: bool)
    returns (r: Result<seq<RatioRow>>)
    ensures r == StandardRatioWith(t, atoms, style, render)
  {
    var data := Pool(t, atoms);
    var ratio, inverse := RatioLoop(data, atoms);
    var isotopes := MapSeq(data, (x: Isotope) => x.key);
    if render {
      var rendered :- RenderLoop(t, data, style);
      isotopes := rendered;
    }
    var rows := seq(|data|, j requires 0 <= j < |data| =>
      RatioRow(isotopes[j], data[j].mass, OfOption(data[j].abundance), ratio[j], inverse[j], data[j].standard));
    assert rows == RatioRows(data, isotopes);
    return Ok(rows);
  }

  /** standard_ratio() of interference_calculator/main.py. */
  method StandardRatio(t: Table, atoms: seq<string>, style: string) returns (r: Result<seq<RatioRow>>)
    ensures r == StandardRatioSpec(t, atoms, style)
  {
    r := StandardRatioWithRender(t, atoms, style, style != "plain");
  }
}
