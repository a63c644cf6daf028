/** The regular-expression Molecule of the root molecule.py; the Molecule class of masstable.py
    is the same code. parse() finds the units with re.findall over one of two patterns, takes a
    trailing charge token off them, rewrites the hydrogen aliases and fills in a missing mass
    number from the element's main isotope, counts the isotope keys, sorts them, looks each up
    in the table and adds up mass times count. formula() writes the units back through a
    template of six entries.

    The model states what parse() and formula() compute as functions of the attributes; the
    class computes the same attributes step by step and is proved to agree with them. */
module LegacyMolecules {
  import opened Wrappers
  import opened Text
  import opened Grammar
  import opened IsotopeTable
  import opened Seqs
  import opened Units
  import opened Templates
  import Formulas
  import Molecules

  // ---------------------------------------------------------------------------------------
  // The two patterns

  /** One match of re.findall: its three groups, "" for a group that took nothing. */
  datatype Groups = Groups(mass: string, symbol: string, count: string)

  predicate IsSign(c: char) { c == '+' || c == '-' }

  /** [A-Z][a-z]{0,2} at the start: a capital and as many as two lower-case letters after it,
      or 0 when there is no capital. */
  function SymbolLength(s: string): (n: nat)
    ensures n <= 3 && n <= |s|
    ensures n > 0 <==> s != [] && IsUpper(s[0])
  {
    if s != [] && IsUpper(s[0]) then
      if 1 < |s| && IsLower(s[1]) then (if 2 < |s| && IsLower(s[2]) then 3 else 2) else 1
    else 0
  }

  /** The second and third groups at the start of s, given the first group and the length
      of the match so far: a symbol (the second group's length is `len`), then digits. */
  function Rest(s: string, mass: string, len: nat, p: nat): (r: Option<(Groups, nat)>)
    requires p + len <= |s|
    ensures r.Some? ==> p + len <= r.value.1 <= |s|
  {
    if len == 0 then None
    else
      var c := LeadingDigits(s[p + len..]);
      Some((Groups(mass, s[p..p + len], s[p + len..p + len + c]), p + len + c))
  }

  /** (\d*)([A-Z][a-z]{0,2}|[+-])(\d*) matched at the start of s: the groups and the length of
      the match. A digit cannot start the second group, so the digits are taken greedily. */
  function IsotopeMatch(s: string): (r: Option<(Groups, nat)>)
    ensures r.Some? ==> 0 < r.value.1 <= |s|
  {
    var d := LeadingDigits(s);
    var len := if d < |s| && IsSign(s[d]) then 1 else SymbolLength(s[d..]);
    Rest(s, s[..d], len, d)
  }

  /** \[\d*[+-]\] at the start: its length, or 0. */
  function BracketChargeLength(s: string): (n: nat)
    ensures n <= |s|
    ensures n > 0 ==> s[0] == '[' && s[n - 1] == ']'
  {
    if s != [] && s[0] == '[' then
      var d := LeadingDigits(s[1..]);
      if d + 2 < |s| && IsSign(s[d + 1]) && s[d + 2] == ']' then d + 3 else 0
    else 0
  }

  /** The second group of the empirical pattern, [A-Z][a-z]{0,2}|\[\d*[+-]\], at the start. */
  function EmpiricalSymbolLength(s: string): (n: nat)
    ensures n <= |s|
  {
    var e := SymbolLength(s);
    if e > 0 then e else BracketChargeLength(s)
  }

  /** (?:\[(\d*)\])? at the start: the number of digits between the brackets, when the
      bracket closes right after them. */
  function MassPrefix(s: string): (r: Option<nat>)
    ensures r.Some? ==> r.value + 2 <= |s|
  {
    if s != [] && s[0] == '[' then
      var d := LeadingDigits(s[1..]);
      if d + 1 < |s| && s[d + 1] == ']' then Some(d) else None
    else None
  }

  /** (?:\[(\d*)\])?([A-Z][a-z]{0,2}|\[\d*[+-]\])(\d*) matched at the start of s. The optional
      mass prefix is tried first; when no second group follows it, the match is tried again
      without it. */
  function EmpiricalMatch(s: string): (r: Option<(Groups, nat)>)
    ensures r.Some? ==> 0 < r.value.1 <= |s|
  {
    var bare := Rest(s, "", EmpiricalSymbolLength(s), 0);
    match MassPrefix(s)
    case Some(d) =>
      var prefixed := Rest(s, s[1..d + 1], EmpiricalSymbolLength(s[d + 2..]), d + 2);
      if prefixed.Some? then prefixed else bare
    case None => bare
  }

  /** re.findall(pattern, s): the matches from left to right, the scan moving on by one
      character wherever no match starts. */
  function FindAll(s: string, empirical: bool): seq<Groups>
    decreases |s|
  {
    if s == [] then []
    else
      match if empirical then EmpiricalMatch(s) else IsotopeMatch(s)
      case Some((g, n)) => [g] + FindAll(s[n..], empirical)
      case None => FindAll(s[1..], empirical)
  }

  /** len(re.findall('[A-Z]', s)) */
  function UpperCount(s: string): nat
    decreases |s|
  {
    if s == [] then 0 else (if IsUpper(s[0]) then 1 else 0) + UpperCount(s[1..])
  }

  predicate EmpiricalChar(c: char) {
    IsAlpha(c) || IsDigit(c) || c == '[' || c == ']' || c == '+' || c == '-'
  }

  /** re.match('^[A-Za-z\d\[\]+-]+$', s) on a stripped string. */
  predicate EmpiricalText(s: string) {
    s != [] && forall i :: 0 <= i < |s| ==> EmpiricalChar(s[i])
  }

  /** Isotope notation for a single capital, or for any character outside the empirical set. */
  predicate IsotopeNotation(s: string) {
    UpperCount(s) == 1 || !EmpiricalText(s)
  }

  /** The units of the stripped input, by the pattern its notation selects. */
  function Scan(s: string): seq<Groups> {
    FindAll(s, !IsotopeNotation(s))
  }

  // ---------------------------------------------------------------------------------------
  // The charge token

  /** The units left after the charge test on the last one, the charge text and the sign
      text. No token stands for charge 0 and sign "". */
  datatype Split = Split(units: seq<Groups>, charge: string, sign: string)

  /** A last unit whose symbol holds '[' is a bracketed charge: ' []' stripped gives the sign
      text, '+-' stripped from that gives the charge digits. A symbol holding a sign is a bare
      charge whose digits are the first group. Either token is taken off the units. */
  function SplitCharge(units: seq<Groups>): (r: Split)
    requires units != []
    ensures |r.units| == |units| || r.units == units[..|units| - 1]
  {
    var last := units[|units| - 1];
    if '[' in last.symbol then
      var chsgn := StripChars(last.symbol, " []");
      Split(units[..|units| - 1], StripChars(chsgn, "+-"), chsgn)
    else if '+' in last.symbol || '-' in last.symbol then
      Split(units[..|units| - 1], last.mass, last.symbol)
    else Split(units, "", "")
  }

  /** `0 if charge == '' else int(charge)`, int() read on digit strings. */
  function ChargeValue(text: string): (r: Result<nat>)
    ensures r.Ok? <==> AllDigits(text)
  {
    if text == [] then Ok(0)
    else if AllDigits(text) then Ok(DigitsValue(text))
    else Err(IntError)
  }

  /** '+' when the sign text holds a '+', '-' otherwise, also when there was no token. */
  function SignOf(text: string): (r: string)
    ensures r == "+" || r == "-"
  {
    if '+' in text then "+" else "-"
  }

  // ---------------------------------------------------------------------------------------
  // Units

  const NotInTuple: Error := ValueError("tuple.index(x): x not in tuple")

  /** H without a mass is 1H; D and T are 2H and 3H whatever mass they carry. */
  function Alias(mass: string, symbol: string): (string, string) {
    if symbol == "H" && mass == "" then ("1", "H")
    else if symbol == "D" then ("2", "H")
    else if symbol == "T" then ("3", "H")
    else (mass, symbol)
  }

  /** main_isotopes[elements.index(el)].strip(el): the main isotope of the element's first
      row with the symbol's letters stripped from both ends. */
  function MainMass(t: Table, el: string): (r: Result<string>)
    ensures r.Err? <==> FindElement(t, el).None?
    ensures r.Err? ==> r.error == NotInTuple
  {
    match FindElement(t, el)
    case None => Err(NotInTuple)
    case Some(i) => Ok(StripChars(t[i].major, el))
  }

  /** One pass of the unit loop: the aliases, the main isotope for a missing mass, and the
      count read with int() (an empty count is 1). */
  function FixUnit(t: Table, g: Groups): (r: Result<Unit>)
    ensures r.Ok? ==> AllDigits(r.value.count) && r.value.count == g.count
  {
    var (m, el) := Alias(g.mass, g.symbol);
    var mass :- if m == "" then MainMass(t, el) else Ok(m);
    if AllDigits(g.count) then Ok(Unit(mass, el, g.count))
    else Err(FormatError("Stoichiometry not a number: " + mass + el + g.count))
  }

  /** The unit loop over all units: every fixed unit, or the error of the first that fails. */
  function FixAll(t: Table, gs: seq<Groups>): (r: Result<seq<Unit>>)
    ensures r.Ok? <==> forall j :: 0 <= j < |gs| ==> FixUnit(t, gs[j]).Ok?
    ensures r.Ok? ==> |r.value| == |gs| && forall j :: 0 <= j < |gs| ==> FixUnit(t, gs[j]) == Ok(r.value[j])
    ensures r.Ok? ==> CountDigits(r.value)
    ensures r.Err? ==> exists j :: 0 <= j < |gs| && FixUnit(t, gs[j]) == Err(r.error)
                          && forall k :: 0 <= k < j ==> FixUnit(t, gs[k]).Ok?
  {
    var r := MapResult(gs, g => FixUnit(t, g));
    assert r.Ok? ==> CountDigits(r.value) by {
      if r.Ok? {
        forall j | 0 <= j < |r.value| ensures AllDigits(r.value[j].count) {
          assert FixUnit(t, gs[j]) == Ok(r.value[j]);
        }
      }
    }
    r
  }

  /** iunits: each unit's key repeated count times. The repetition is kept as the unit with its
      count; a unit counted zero times adds nothing. */
  function Counted(us: seq<Unit>): (r: seq<Unit>)
    requires CountDigits(us)
    ensures CountDigits(r)
    ensures forall i :: 0 <= i < |r| ==> UnitCount(r[i]) > 0
    ensures forall l :: Total(r, l) == Total(us, l)
    ensures forall l :: HasLabel(r, l) <==> Total(us, l) > 0
    decreases |us|
  {
    if us == [] then []
    else
      var init := us[..|us| - 1];
      var u := us[|us| - 1];
      var r0 := Counted(init);
      if UnitCount(u) > 0 then
        SnocFacts(r0, u);
        r0 + [u]
      else r0
  }

  /** Appending a unit adds its count to its label's total and makes its label present. */
  lemma {:induction false} SnocFacts(r0: seq<Unit>, u: Unit)
    requires CountDigits(r0) && AllDigits(u.count)
    ensures CountDigits(r0 + [u])
    ensures forall l :: Total(r0 + [u], l) == Total(r0, l) + (if Label(u) == l then UnitCount(u) else 0)
    ensures forall l :: HasLabel(r0 + [u], l) <==> HasLabel(r0, l) || Label(u) == l
  {
    var r := r0 + [u];
    assert r[..|r| - 1] == r0;
    forall l ensures HasLabel(r, l) <==> HasLabel(r0, l) || Label(u) == l {
      if HasLabel(r0, l) {
        var i :| 0 <= i < |r0| && Label(r0[i]) == l;
        assert Label(r[i]) == l;
      }
      if Label(u) == l {
        assert Label(r[|r| - 1]) == l;
      }
      if HasLabel(r, l) {
        var i :| 0 <= i < |r| && Label(r[i]) == l;
        if i < |r0| {
          assert Label(r0[i]) == l;
        }
      }
    }
  }

  /** Counter(iunits) with its keys sorted: one entry per key counted more than zero times,
      in ascending key order, carrying the total count. */
  function Tally(us: seq<Unit>): (r: seq<Entry>)
    requires CountDigits(us)
    ensures SortedByLabel(r)
    ensures forall l :: CountOf(r, l) == Total(us, l)
    ensures forall l :: Find(r, l).Some? <==> Total(us, l) > 0
  {
    var m := Merge(Counted(us));
    var r := SortEntries(m);
    SortedDistinct(r);
    SameFinds(m, r);
    r
  }

  /** Two permutations of entries with distinct keys find the same counts. */
  lemma {:induction false} SameFinds(a: seq<Entry>, b: seq<Entry>)
    requires DistinctLabels(a) && DistinctLabels(b) && multiset(a) == multiset(b)
    ensures forall l :: CountOf(a, l) == CountOf(b, l)
    ensures forall l :: Find(a, l).Some? <==> Find(b, l).Some?
  {
    forall l ensures CountOf(a, l) == CountOf(b, l) && (Find(a, l).Some? <==> Find(b, l).Some?) {
      if Find(a, l).Some? {
        FoundIn(a, b, l);
      } else {
        NotFoundIn(a, b, l);
      }
    }
  }

  lemma {:induction false} FoundIn(a: seq<Entry>, b: seq<Entry>, l: string)
    requires DistinctLabels(b) && multiset(a) == multiset(b) && Find(a, l).Some?
    ensures Find(b, l).Some? && CountOf(a, l) == CountOf(b, l)
  {
    var i := Find(a, l).value;
    assert a[i] in multiset(b);
    var j :| 0 <= j < |b| && b[j] == a[i];
    FindDistinct(b, j);
  }

  lemma {:induction false} NotFoundIn(a: seq<Entry>, b: seq<Entry>, l: string)
    requires DistinctLabels(a) && multiset(a) == multiset(b) && Find(a, l).None?
    ensures Find(b, l).None?
  {
    if Find(b, l).Some? {
      FoundIn(b, a, l);
    }
  }

  function EntryKey(e: Entry): string { e.key }
  function EntryCount(e: Entry): nat { e.count }

  /** isotopes.index(key) */
  function KeyIndex(t: Table, key: string): (r: Result<nat>)
    ensures r.Ok? <==> FindKey(t, key).Some?
    ensures r.Ok? ==> r == Ok(FindKey(t, key).value) && r.value < |t| && t[r.value].key == key
    ensures r.Err? ==> r.error == NotInTuple
  {
    match FindKey(t, key)
    case None => Err(NotInTuple)
    case Some(i) => Ok(i)
  }

  /** The indices of the keys, or the error of the first key with no row. */
  function IndicesOf(t: Table, keys: seq<string>): (r: Result<seq<nat>>)
    ensures r.Ok? <==> forall j :: 0 <= j < |keys| ==> FindKey(t, keys[j]).Some?
    ensures r.Ok? ==> |r.value| == |keys|
    ensures r.Ok? ==> forall j :: 0 <= j < |keys| ==> r.value[j] == FindKey(t, keys[j]).value
    ensures r.Ok? ==> forall j :: 0 <= j < |keys| ==> r.value[j] < |t| && t[r.value[j]].key == keys[j]
    ensures r.Err? ==> r.error == NotInTuple
  {
    var r := MapResult(keys, k => KeyIndex(t, k));
    assert r.Err? ==> r.error == NotInTuple by {
      if r.Err? {
        var j :| 0 <= j < |keys| && KeyIndex(t, keys[j]) == Err(r.error);
      }
    }
    r
  }

  /** The table rows at the indices. */
  function Rows(t: Table, ix: seq<nat>): (r: seq<Isotope>)
    requires forall j :: 0 <= j < |ix| ==> ix[j] < |t|
    ensures |r| == |ix| && forall j :: 0 <= j < |ix| ==> r[j] == t[ix[j]]
  {
    seq(|ix|, j requires 0 <= j < |ix| => t[ix[j]])
  }

  function RowElement(r: Isotope): string { r.element }
  function RowUnitMass(r: Isotope): nat { r.a }

  // ---------------------------------------------------------------------------------------
  // The attributes and parse()

  /** The attributes of a Molecule: the input, mass, abundance, charge and sign, and the
      aligned tuples isotopes, stoichiometry, indices, elements, atomic_numbers, unit_masses,
      isotope_masses and abundances. */
  datatype LegacyState = LegacyState(
    input: string,
    mass: real,
    abundance: real,
    charge: nat,
    chargeSign: string,
    isotopes: seq<string>,
    stoichiometry: seq<nat>,
    indices: seq<nat>,
    elements: seq<string>,
    atomicNumbers: seq<nat>,
    unitMasses: seq<nat>,
    isotopeMasses: seq<real>,
    abundances: seq<Option<real>>)

  /** The attributes __init__ sets before it parses; the abundance stays at 1.0. */
  function LegacyFresh(input: string): LegacyState {
    LegacyState(input, 0.0, 1.0, 0, "", [], [], [], [], [], [], [], [])
  }

  /** The units parse() counts: the scan without its charge token, after the unit loop. */
  function FixedUnits(t: Table, molecule: string): Result<seq<Unit>> {
    var units := Scan(Strip(molecule));
    if units == [] then Err(IndexError)
    else
      var sc := SplitCharge(units);
      var _ :- ChargeValue(sc.charge);
      FixAll(t, sc.units)
  }

  /** parse(molecule) on the attributes s: the charge and sign, and the tuples from the sorted
      count of the units. */
  function ParseOf(t: Table, s: LegacyState, molecule: string): Result<LegacyState> {
    var units := Scan(Strip(molecule));
    if units == [] then Err(IndexError) else ParseSplit(t, s, SplitCharge(units))
  }

  /** The rest of parse() once the charge token is off: int() of the charge digits, the unit
      loop and the tuples. */
  function ParseSplit(t: Table, s: LegacyState, sc: Split): Result<LegacyState> {
    var charge :- ChargeValue(sc.charge);
    var fixed :- FixAll(t, sc.units);
    Assemble(t, s, charge, SignOf(sc.sign), fixed)
  }

  /** The attributes after the unit loop: the sorted count of the units, each key's row, and
      the mass grown by the sum of mass times count. */
  function Assemble(t: Table, s: LegacyState, charge: nat, sign: string, fixed: seq<Unit>): Result<LegacyState>
    requires CountDigits(fixed)
  {
    var entries := Tally(fixed);
    var keys := MapSeq(entries, EntryKey);
    var counts := MapSeq(entries, EntryCount);
    Lookup(t, s, charge, sign, keys, counts)
  }

  /** The indices, rows and columns of the keys, and the mass grown by their masses times
      the counts. */
  function Lookup(t: Table, s: LegacyState, charge: nat, sign: string, keys: seq<string>, counts: seq<nat>)
    : Result<LegacyState>
  {
    var ix :- IndicesOf(t, keys);
    var rows := Rows(t, ix);
    Ok(WithRows(s, charge, sign, keys, counts, ix, rows, s.mass + Molecules.ZipDot(MapSeq(rows, Molecules.RowMass), counts)))
  }

  /** The attributes set from the tuples: the columns of the rows and the new mass. */
  function WithRows(s: LegacyState, charge: nat, sign: string, keys: seq<string>, counts: seq<nat>,
                    ix: seq<nat>, rows: seq<Isotope>, mass: real): LegacyState
  {
    s.(charge := charge, chargeSign := sign, isotopes := keys, stoichiometry := counts,
       indices := ix, elements := MapSeq(rows, RowElement), atomicNumbers := MapSeq(rows, Molecules.RowZ),
       unitMasses := MapSeq(rows, RowUnitMass), isotopeMasses := MapSeq(rows, Molecules.RowMass),
       abundances := MapSeq(rows, Molecules.RowAbundance), mass := mass)
  }

  /** Molecule(molecule): the defaults, then parse(molecule). */
  function Construct(t: Table, molecule: string): Result<LegacyState> {
    ParseOf(t, LegacyFresh(molecule), molecule)
  }

  // ---------------------------------------------------------------------------------------
  // formula()

  /** The six entries of a formatting template. */
  datatype LegacyTemplate = LegacyTemplate(isotope: string, element: string, stoich: string,
                                           charge: string, minorJoin: string, majorJoin: string)

  const LegacyHtml: LegacyTemplate := LegacyTemplate("<sup>{}</sup>", "{}", "<sub>{}</sub>", "<sup>{}</sup>", "", "")

  const LegacyLatex: LegacyTemplate := LegacyTemplate("{{}}^{{{}}}", "{{{}}}", "_{{{}}}", "{{}}^{{{}}}", "", "")

  const LegacyIsotope: LegacyTemplate := LegacyTemplate("{}", "{}", "{}", "{}", "", " ")

  /** style, HtoD, show_charge and the custom template; an absent template is the default
      empty dict. */
  datatype LegacyOptions = LegacyOptions(style: string, htoD: bool, showCharge: bool,
                                         custom: Option<LegacyTemplate>)

  /** formula() called without arguments. */
  const LegacyDefaults: LegacyOptions := LegacyOptions("", true, true, None)

  /** The template of a style: html, latex, the custom dict (None when empty), and the isotope
      template for every other style; 'empirical' is not implemented. */
  function LegacyStyle(style: string, custom: Option<LegacyTemplate>): (r: Result<Option<LegacyTemplate>>)
    ensures r.Err? <==> style == "empirical"
    ensures style != "html" && style != "latex" && style != "empirical" && style != "custom" ==>
              r == Ok(Some(LegacyIsotope))
  {
    if style == "html" then Ok(Some(LegacyHtml))
    else if style == "latex" then Ok(Some(LegacyLatex))
    else if style == "empirical" then Err(NotImplemented("not yet"))
    else if style == "custom" then Ok(custom)
    else Ok(Some(LegacyIsotope))
  }

  /** The charge text: none when not shown or zero, the sign alone for one, digits and sign
      otherwise. */
  function ChargeUnit(charge: nat, sign: string, show: bool): string {
    if !show || charge == 0 then "" else if charge == 1 then sign else NatToString(charge) + sign
  }

  /** The HtoD rewrite: 1H, 2H and 3H lose their mass and become H, D and T. */
  function LegacyRename(um: string, el: string): (string, string) {
    if el == "H" && um == "1" then ("", "H")
    else if el == "H" && um == "2" then ("", "D")
    else if el == "H" && um == "3" then ("", "T")
    else (um, el)
  }

  /** The mass texts after the HtoD loop over zip(umass, elem). */
  function RenamedMasses(ums: seq<string>, els: seq<string>, htoD: bool): (r: seq<string>)
    ensures |r| == |ums|
  {
    seq(|ums|, i requires 0 <= i < |ums| => if htoD && i < |els| then LegacyRename(ums[i], els[i]).0 else ums[i])
  }

  /** The element symbols after the HtoD loop. */
  function RenamedElements(ums: seq<string>, els: seq<string>, htoD: bool): (r: seq<string>)
    ensures |r| == |els|
  {
    seq(|els|, i requires 0 <= i < |els| => if htoD && i < |ums| then LegacyRename(ums[i], els[i]).1 else els[i])
  }

  /** The mass, element and count texts of the units, zipped as the units loop reads them. */
  function Spelled(s: LegacyState, htoD: bool): seq<(string, string, string)> {
    var umass := MapSeq(s.unitMasses, NatToString);
    var stoich := MapSeq(s.stoichiometry, Formulas.CountText);
    Formulas.Zip3(RenamedMasses(umass, s.elements, htoD), RenamedElements(umass, s.elements, htoD), stoich)
  }

  /** One unit: the formatted mass (none when empty), element and count (none when empty),
      joined by the minor join. */
  function LegacyUnitText(templ: LegacyTemplate, u: (string, string, string)): Result<string> {
    var um :- if u.0 != "" then Format(templ.isotope, u.0) else Ok("");
    var el :- Format(templ.element, u.1);
    var st :- if u.2 != "" then Format(templ.stoich, u.2) else Ok("");
    Ok(Join(templ.minorJoin, [um, el, st]))
  }

  /** The units loop: every unit's text, or the error of the first that fails. */
  function LegacyUnitTexts(templ: LegacyTemplate, us: seq<(string, string, string)>): (r: Result<seq<string>>)
    ensures r.Ok? <==> forall j :: 0 <= j < |us| ==> LegacyUnitText(templ, us[j]).Ok?
    ensures r.Ok? ==> (|r.value| == |us| && forall j :: 0 <= j < |us| ==> LegacyUnitText(templ, us[j]) == Ok(r.value[j]))
    ensures r.Err? ==> exists j :: 0 <= j < |us| && LegacyUnitText(templ, us[j]) == Err(r.error)
                          && forall k :: 0 <= k < j ==> LegacyUnitText(templ, us[k]).Ok?
  {
    MapResult(us, u => LegacyUnitText(templ, u))
  }

  /** The key an empty template dict is first asked for, which raises KeyError: the first
      unit's isotope or element entry, else the charge entry, else the major join. */
  function FirstKey(us: seq<(string, string, string)>, charge: string): string {
    if us != [] then (if us[0].0 != "" then "'isotope'" else "'element'")
    else if charge != "" then "'charge'"
    else "'majorjoin'"
  }

  /** formula(style, HtoD, show_charge, template): the units and, when there is a charge
      text, the formatted charge, joined by the major join. */
  function LegacyFormulaText(s: LegacyState, o: LegacyOptions): Result<string> {
    var charge := ChargeUnit(s.charge, s.chargeSign, o.showCharge);
    var us := Spelled(s, o.htoD);
    var sel :- LegacyStyle(o.style, o.custom);
    match sel
    case None => Err(LookupError(FirstKey(us, charge)))
    case Some(templ) =>
      var units :- LegacyUnitTexts(templ, us);
      if charge == "" then Ok(Join(templ.majorJoin, units))
      else
        var ch :- Format(templ.charge, charge);
        Ok(Join(templ.majorJoin, units + [ch]))
  }

  // ---------------------------------------------------------------------------------------
  // The class

  class Molecule {
    var input: string
    var mass: real
    var abundance: real
    var charge: nat
    var chargeSign: string
    var isotopes: seq<string>
    var stoichiometry: seq<nat>
    var indices: seq<nat>
    var elements: seq<string>
    var atomicNumbers: seq<nat>
    var unitMasses: seq<nat>
    var isotopeMasses: seq<real>
    var abundances: seq<Option<real>>

    function State(): LegacyState
      reads this
    {
      LegacyState(input, mass, abundance, charge, chargeSign, isotopes, stoichiometry, indices,
                  elements, atomicNumbers, unitMasses, isotopeMasses, abundances)
    }

    /** The attribute defaults of __init__, before it parses. */
    constructor Init(molecule: string)
      ensures State() == LegacyFresh(molecule)
    {
      input := molecule;
      mass := 0.0;
      abundance := 1.0;
      charge := 0;
      chargeSign := "";
      isotopes := [];
      stoichiometry := [];
      indices := [];
      elements := [];
      atomicNumbers := [];
      unitMasses := [];
      isotopeMasses := [];
      abundances := [];
    }

    /** parse(molecule). On success the attributes are those ParseOf gives; on failure the
        error is the one ParseOf meets first. */
    method Parse(t: Table, molecule: string) returns (out: Outcome)
      modifies this
      ensures out.Pass? <==> ParseOf(t, old(State()), molecule).Ok?
      ensures out.Pass? ==> State() == ParseOf(t, old(State()), molecule).value
      ensures out.Fail? ==> ParseOf(t, old(State()), molecule) == Err(out.error) && State() == old(State())
    {
      var r := ParseValues(t, State(), molecule);
      if r.Err? {
        return Fail(r.error);
      }
      SetState(r.value);
      return Pass;
    }

    /** formula(style, HtoD, show_charge, template). */
    method Formula(o: LegacyOptions) returns (r: Result<string>)
      ensures r == LegacyFormulaText(State(), o)
    {
      r := FormulaValues(State(), o);
    }

    /** Every attribute takes its value from s. */
    method SetState(s: LegacyState)
      modifies this
      ensures input == s.input && mass == s.mass && abundance == s.abundance && charge == s.charge
      ensures chargeSign == s.chargeSign && isotopes == s.isotopes && stoichiometry == s.stoichiometry
      ensures indices == s.indices && elements == s.elements && atomicNumbers == s.atomicNumbers
      ensures unitMasses == s.unitMasses && isotopeMasses == s.isotopeMasses && abundances == s.abundances
    {
      SetScalars(s);
      SetColumns(s);
    }

    /** The input, mass, abundance, charge, sign, isotopes and stoichiometry from s. */
    method SetScalars(s: LegacyState)
      modifies this
      ensures input == s.input && mass == s.mass && abundance == s.abundance && charge == s.charge
      ensures chargeSign == s.chargeSign && isotopes == s.isotopes && stoichiometry == s.stoichiometry
      ensures indices == old(indices) && elements == old(elements) && atomicNumbers == old(atomicNumbers)
      ensures unitMasses == old(unitMasses) && isotopeMasses == old(isotopeMasses) && abundances == old(abundances)
    {
      input := s.input;
      mass := s.mass;
      abundance := s.abundance;
      charge := s.charge;
      chargeSign := s.chargeSign;
      isotopes := s.isotopes;
      stoichiometry := s.stoichiometry;
    }

    /** The indices, elements, atomic numbers, unit masses, isotope masses and abundances
        from s. */
    method SetColumns(s: LegacyState)
      modifies this
      ensures input == old(input) && mass == old(mass) && abundance == old(abundance) && charge == old(charge)
      ensures chargeSign == old(chargeSign) && isotopes == old(isotopes) && stoichiometry == old(stoichiometry)
      ensures indices == s.indices && elements == s.elements && atomicNumbers == s.atomicNumbers
      ensures unitMasses == s.unitMasses && isotopeMasses == s.isotopeMasses && abundances == s.abundances
    {
      indices := s.indices;
      elements := s.elements;
      atomicNumbers := s.atomicNumbers;
      unitMasses := s.unitMasses;
      isotopeMasses := s.isotopeMasses;
      abundances := s.abundances;
    }
  }

  /** Molecule(molecule): the defaults and parse(molecule). */
  method New(t: Table, molecule: string) returns (r: Result<Molecule>)
    ensures r.Ok? <==> Construct(t, molecule).Ok?
    ensures r.Ok? ==> fresh(r.value) && r.value.State() == Construct(t, molecule).value
    ensures r.Err? ==> Construct(t, molecule) == Err(r.error)
  {
    var m := new Molecule.Init(molecule);
    var parsed := m.Parse(t, molecule);
    if parsed.Fail? {
      return Err(parsed.error);
    }
    return Ok(m);
  }

  // ---------------------------------------------------------------------------------------
  // The procedures

  /** The body of parse() on the attribute values. */
  method ParseValues(t: Table, s: LegacyState, molecule: string) returns (r: Result<LegacyState>)
    ensures r == ParseOf(t, s, molecule)
  {
    var text := Strip(molecule);
    var units := FindAll(text, !IsotopeNotation(text));
    if units == [] {
      return Err(IndexError);
    }
    var rest, charge, chsgn := ChargeToken(units);
    r := SplitValues(t, s, rest, charge, chsgn);
  }

  /** The charge digits read with int(), the sign, the unit loop and the tuples. */
  method SplitValues(t: Table, s: LegacyState, rest: seq<Groups>, charge: string, chsgn: string)
    returns (r: Result<LegacyState>)
    ensures r == ParseSplit(t, s, Split(rest, charge, chsgn))
  {
    var z: nat;
    if charge == "" {
      z := 0;
    } else if AllDigits(charge) {
      z := DigitsValue(charge);
    } else {
      return Err(IntError);
    }
    var sign := if '+' in chsgn then "+" else "-";
    var fixed := UnitLoop(t, rest);
    if fixed.Err? {
      return Err(fixed.error);
    }
    r := AssembleValues(t, s, z, sign, fixed.value);
  }

  /** The tuples from the sorted count, the lookups and the mass loop. */
  method AssembleValues(t: Table, s: LegacyState, charge: nat, sign: string, fixed: seq<Unit>)
    returns (r: Result<LegacyState>)
    requires CountDigits(fixed)
    ensures r == Assemble(t, s, charge, sign, fixed)
  {
    var entries := Tally(fixed);
    var keys := MapSeq(entries, EntryKey);
    var counts := MapSeq(entries, EntryCount);
    r := LookupValues(t, s, charge, sign, keys, counts);
  }

  /** The key lookups, the column tuples and the mass loop. */
  method LookupValues(t: Table, s: LegacyState, charge: nat, sign: string, keys: seq<string>, counts: seq<nat>)
    returns (r: Result<LegacyState>)
    ensures r == Lookup(t, s, charge, sign, keys, counts)
  {
    var ix := IndicesOf(t, keys);
    if ix.Err? {
      return Err(ix.error);
    }
    var rows := Rows(t, ix.value);
    var masses := MapSeq(rows, Molecules.RowMass);
    var total := Molecules.SumMasses(s.mass, masses, counts);
    r := Ok(WithRows(s, charge, sign, keys, counts, ix.value, rows, total));
  }

  /** The charge test on the last unit, popping a charge token off the units. */
  method ChargeToken(units: seq<Groups>) returns (rest: seq<Groups>, charge: string, chsgn: string)
    requires units != []
    ensures SplitCharge(units) == Split(rest, charge, chsgn)
  {
    rest := units;
    var last := rest[|rest| - 1];
    if '[' in last.symbol {
      chsgn := StripChars(last.symbol, " []");
      charge := StripChars(chsgn, "+-");
      rest := rest[..|rest| - 1];
    } else if '+' in last.symbol || '-' in last.symbol {
      charge, chsgn := last.mass, last.symbol;
      rest := rest[..|rest| - 1];
    } else {
      charge, chsgn := "", "";
    }
  }

  /** The loop over the units: the aliases, the main isotope for a missing mass and the
      count, stopping at the first unit that fails. */
  method UnitLoop(t: Table, gs: seq<Groups>) returns (r: Result<seq<Unit>>)
    ensures r == FixAll(t, gs)
  {
    var fixed: seq<Unit> := [];
    for i := 0 to |gs|
      invariant |fixed| == i
      invariant forall k :: 0 <= k < i ==> FixUnit(t, gs[k]) == Ok(fixed[k])
    {
      var u := FixOne(t, gs[i]);
      if u.Err? {
        FixAllFailure(t, gs, i);
        return Err(u.error);
      }
      fixed := fixed + [u.value];
    }
    FixAllPass(t, gs, fixed);
    return Ok(fixed);
  }

  /** One pass of the unit loop, on the list u = [mass, symbol, count]. */
  method FixOne(t: Table, g: Groups) returns (r: Result<Unit>)
    ensures r == FixUnit(t, g)
  {
    var u0, u1 := g.mass, g.symbol;
    if u1 == "H" && u0 == "" {
      u0 := "1";
    } else if u1 == "D" {
      u0, u1 := "2", "H";
    } else if u1 == "T" {
      u0, u1 := "3", "H";
    }
    if u0 == "" {
      var idx := FindElement(t, u1);
      if idx.None? {
        return Err(NotInTuple);
      }
      u0 := StripChars(t[idx.value].major, u1);
    }
    if !AllDigits(g.count) {
      return Err(FormatError("Stoichiometry not a number: " + u0 + u1 + g.count));
    }
    return Ok(Unit(u0, u1, g.count));
  }

  lemma {:induction false} FixAllFailure(t: Table, gs: seq<Groups>, i: nat)
    requires i < |gs| && FixUnit(t, gs[i]).Err?
    requires forall k :: 0 <= k < i ==> FixUnit(t, gs[k]).Ok?
    ensures FixAll(t, gs) == Err(FixUnit(t, gs[i]).error)
  {
    var r := FixAll(t, gs);
    var j :| 0 <= j < |gs| && FixUnit(t, gs[j]) == Err(r.error)
             && forall k :: 0 <= k < j ==> FixUnit(t, gs[k]).Ok?;
  }

  lemma {:induction false} FixAllPass(t: Table, gs: seq<Groups>, fixed: seq<Unit>)
    requires |fixed| == |gs|
    requires forall k :: 0 <= k < |gs| ==> FixUnit(t, gs[k]) == Ok(fixed[k])
    ensures FixAll(t, gs) == Ok(fixed)
  {
    var r := FixAll(t, gs);
    assert r.Ok? by {
      forall j | 0 <= j < |gs| ensures FixUnit(t, gs[j]).Ok? {
        assert FixUnit(t, gs[j]) == Ok(fixed[j]);
      }
    }
    assert r.value == fixed;
  }

  /** The body of formula(): the charge text, the mass and count texts, the HtoD loop, the
      template, the units loop and the final join. */
  method FormulaValues(s: LegacyState, o: LegacyOptions) returns (r: Result<string>)
    ensures r == LegacyFormulaText(s, o)
  {
    var charge := ChargeUnit(s.charge, s.chargeSign, o.showCharge);
    var elem := s.elements;
    var umass := MapSeq(s.unitMasses, NatToString);
    var stoich := MapSeq(s.stoichiometry, Formulas.CountText);
    if o.htoD {
      umass, elem := HtoDLoop(umass, elem);
    }
    assert Formulas.Zip3(umass, elem, stoich) == Spelled(s, o.htoD);
    var sel := LegacyStyle(o.style, o.custom);
    if sel.Err? {
      return Err(sel.error);
    }
    if sel.value.None? {
      return Err(LookupError(FirstKey(Formulas.Zip3(umass, elem, stoich), charge)));
    }
    var templ := sel.value.value;
    var units := UnitsLoop(templ, Formulas.Zip3(umass, elem, stoich));
    if units.Err? {
      return Err(units.error);
    }
    var molecule := units.value;
    if charge != "" {
      var ch := Format(templ.charge, charge);
      if ch.Err? {
        return Err(ch.error);
      }
      molecule := molecule + [ch.value];
    }
    return Ok(Join(templ.majorJoin, molecule));
  }

  /** The HtoD loop over zip(umass, elem). */
  method HtoDLoop(umass0: seq<string>, elem0: seq<string>) returns (umass: seq<string>, elem: seq<string>)
    ensures umass == RenamedMasses(umass0, elem0, true)
    ensures elem == RenamedElements(umass0, elem0, true)
  {
    umass, elem := umass0, elem0;
    var n := 0;
    var m := Formulas.Min(|umass|, |elem|);
    while n < m
      invariant 0 <= n <= m
      invariant |umass| == |umass0| && |elem| == |elem0|
      invariant forall k :: 0 <= k < n ==> umass[k] == LegacyRename(umass0[k], elem0[k]).0
      invariant forall k :: 0 <= k < n ==> elem[k] == LegacyRename(umass0[k], elem0[k]).1
      invariant forall k :: n <= k < |umass| ==> umass[k] == umass0[k]
      invariant forall k :: n <= k < |elem| ==> elem[k] == elem0[k]
    {
      if elem[n] == "H" {
        if umass[n] == "1" {
          umass := umass[n := ""];
        } else if umass[n] == "2" {
          umass := umass[n := ""];
          elem := elem[n := "D"];
        } else if umass[n] == "3" {
          umass := umass[n := ""];
          elem := elem[n := "T"];
        }
      }
      n := n + 1;
    }
  }

  /** The units loop: each unit's text in turn, stopping at the first that fails. */
  method UnitsLoop(templ: LegacyTemplate, us: seq<(string, string, string)>) returns (r: Result<seq<string>>)
    ensures r == LegacyUnitTexts(templ, us)
  {
    var molecule: seq<string> := [];
    for i := 0 to |us|
      invariant |molecule| == i
      invariant forall k :: 0 <= k < i ==> LegacyUnitText(templ, us[k]) == Ok(molecule[k])
    {
      var u := LegacyUnitText(templ, us[i]);
      if u.Err? {
        UnitTextsFailure(templ, us, i);
        return Err(u.error);
      }
      molecule := molecule + [u.value];
    }
    UnitTextsPass(templ, us, molecule);
    return Ok(molecule);
  }

  lemma {:induction false} UnitTextsFailure(templ: LegacyTemplate, us: seq<(string, string, string)>, i: nat)
    requires i < |us| && LegacyUnitText(templ, us[i]).Err?
    requires forall k :: 0 <= k < i ==> LegacyUnitText(templ, us[k]).Ok?
    ensures LegacyUnitTexts(templ, us) == Err(LegacyUnitText(templ, us[i]).error)
  {
    var r := LegacyUnitTexts(templ, us);
    var j :| 0 <= j < |us| && LegacyUnitText(templ, us[j]) == Err(r.error)
             && forall k :: 0 <= k < j ==> LegacyUnitText(templ, us[k]).Ok?;
  }

  lemma {:induction false} UnitTextsPass(templ: LegacyTemplate, us: seq<(string, string, string)>, texts: seq<string>)
    requires |texts| == |us|
    requires forall k :: 0 <= k < |us| ==> LegacyUnitText(templ, us[k]) == Ok(texts[k])
    ensures LegacyUnitTexts(templ, us) == Ok(texts)
  {
    var r := LegacyUnitTexts(templ, us);
    assert r.Ok? by {
      forall j | 0 <= j < |us| ensures LegacyUnitText(templ, us[j]).Ok? {
        assert LegacyUnitText(templ, us[j]) == Ok(texts[j]);
      }
    }
    assert r.value == texts;
  }
}
