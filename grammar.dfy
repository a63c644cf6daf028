/** The two formula grammars of interference_calculator/molecule.py, as the parser combinator
    library evaluates them: ordered choice that commits to the first alternative that matches,
    a maximal-munch Word(nums), Word(lower, max=2) that fails outright when a third lower-case
    letter follows, and whitespace skipped in front of each item except inside a Combine.

    Every parser takes the input that is left and returns what it recognised together with the
    input left after it. */
module Grammar {
  import opened Wrappers
  import opened Text

  /** The parser library's default whitespace characters. */
  predicate IsBlank(c: char) { c == ' ' || c == '\n' || c == '\t' || c == '\r' }

  /** A parsed unit: atomic mass text, element symbol and count text; "" is an absent part. */
  datatype Unit = Unit(atomicMass: string, element: string, count: string)

  /** A parsed charge: count text and sign text; "" is an absent part. */
  datatype ChargeTok = ChargeTok(count: string, sign: string)

  datatype Parsed = Parsed(units: seq<Unit>, charge: ChargeTok)

  const NoCharge: ChargeTok := ChargeTok("", "")

  /** The input after its leading blanks. */
  function DropBlanks(s: string): (r: string)
    ensures |r| <= |s|
    ensures r != [] ==> !IsBlank(r[0])
    decreases |s|
  {
    if s != [] && IsBlank(s[0]) then DropBlanks(s[1..]) else s
  }

  /** The length of the leading run of digits (Word(nums) takes all of it). */
  function LeadingDigits(s: string): (n: nat)
    ensures n <= |s|
    decreases |s|
  {
    if s != [] && IsDigit(s[0]) then 1 + LeadingDigits(s[1..]) else 0
  }

  /** An element symbol: a capital and at most two lower-case letters. */
  predicate IsSymbol(e: string) {
    1 <= |e| <= 3 && IsUpper(e[0]) && forall i :: 1 <= i < |e| ==> IsLower(e[i])
  }

  lemma {:induction false} SymbolNoDigits(e: string)
    requires IsSymbol(e)
    ensures NoDigits(e) && !IsDigit(e[0])
  {
    forall i | 0 <= i < |e| ensures !IsDigit(e[i]) {
      if i > 0 {
        assert IsLower(e[i]);
      }
    }
  }

  /** Combine(Word(upper, exact=1) + Optional(Word(lower, max=2))): the length of the symbol at
      the start, 0 if there is none. When a third lower-case letter follows two, the optional
      part fails and only the capital is taken. */
  function ElementLength(s: string): (n: nat)
    ensures n <= 3 && n <= |s|
    ensures n > 0 <==> s != [] && IsUpper(s[0])
  {
    if s != [] && IsUpper(s[0]) then
      var l := if 1 < |s| && IsLower(s[1]) then (if 2 < |s| && IsLower(s[2]) then 2 else 1) else 0;
      if l == 0 || (1 + l < |s| && IsLower(s[1 + l])) then 1 else 1 + l
    else 0
  }

  /** Word(nums) as an optional part: the leading digits and the input after them. */
  function SplitDigits(s: string): (r: (string, string))
    ensures |r.0| + |r.1| == |s|
  {
    var k := LeadingDigits(s);
    (s[..k], s[k..])
  }

  /** The element symbol at the start ("" if there is none) and the input after it. */
  function SplitSymbol(s: string): (r: (string, string))
    ensures |r.0| + |r.1| == |s|
    ensures r.0 != [] <==> s != [] && IsUpper(s[0])
  {
    var n := ElementLength(s);
    (s[..n], s[n..])
  }

  // ---------------------------------------------------------------------------------------
  // Molecular notation, e.g. C2H5COOCH[15]NH3[+]

  /** Optional(Combine('[' + Word(nums) + ']')): the mass text and the input after it. */
  function BracketMass(s: string): (r: Option<(string, string)>)
    ensures r.Some? ==> |r.value.1| < |s|
  {
    if s != [] && s[0] == '[' then
      var n := LeadingDigits(s[1..]);
      if n > 0 && n + 1 < |s| && s[n + 1] == ']' then Some((s[1..n + 1], s[n + 2..])) else None
    else None
  }

  /** One unit: bracketed mass (no blanks in front of it), blanks, symbol, blanks, count. */
  function MolecularUnit(s: string): (r: Option<(Unit, string)>)
    ensures r.Some? ==> |r.value.1| < |s|
  {
    var (am, r1) := match BracketMass(s) case Some(x) => x case None => ("", s);
    SymbolAndCount(am, DropBlanks(r1))
  }

  /** The rest of a molecular unit once its mass is read: symbol, blanks, count. */
  function SymbolAndCount(am: string, s: string): (r: Option<(Unit, string)>)
    ensures r.Some? ==> |r.value.1| < |s|
  {
    var (el, r1) := SplitSymbol(s);
    if el == [] then None
    else
      var (c, r2) := SplitDigits(DropBlanks(r1));
      Some((Unit(am, el, c), r2))
  }

  /** OneOrMore(Group(unit)): every repetition skips blanks first; a repetition that fails
      leaves the input as the last unit left it. */
  function MolecularUnits(s: string): (r: (seq<Unit>, string))
    ensures |r.1| <= |s|
    ensures r.0 == [] ==> r.1 == s
    decreases |s|
  {
    match MolecularUnit(DropBlanks(s))
    case None => ([], s)
    case Some((u, rest)) =>
      var (us, r) := MolecularUnits(rest);
      ([u] + us, r)
  }

  /** Optional('[' + ("o" | "0" | Optional(Word(nums)) + ("+" | "-")) + ']'), with blanks allowed
      before each piece. The neutral alternative is tried first and, once it matches, the other
      is not tried; on any failure the charge is absent and only the leading blanks are gone. */
  function MolecularCharge(s: string): (r: (ChargeTok, string))
    ensures |r.1| <= |s|
  {
    var q := DropBlanks(s);
    if q != [] && q[0] == '[' then
      match ChargeBody(DropBlanks(q[1..]))
      case Some(x) => x
      case None => (NoCharge, q)
    else (NoCharge, q)
  }

  /** What follows the opening bracket of a charge, up to and including the closing one. */
  function ChargeBody(r: string): (x: Option<(ChargeTok, string)>)
    ensures x.Some? ==> |x.value.1| < |r|
  {
    if r != [] && (r[0] == 'o' || r[0] == '0') then
      match CloseBracket(r[1..])
      case Some(u) => Some((ChargeTok("", [r[0]]), u))
      case None => None
    else
      var (cnt, r1) := SplitDigits(r);
      var t := DropBlanks(r1);
      if t != [] && (t[0] == '+' || t[0] == '-') then
        match CloseBracket(t[1..])
        case Some(u) => Some((ChargeTok(cnt, [t[0]]), u))
        case None => None
      else None
  }

  /** Blanks and a closing bracket: the input after them. */
  function CloseBracket(s: string): (r: Option<string>)
    ensures r.Some? ==> |r.value| < |s|
  {
    var u := DropBlanks(s);
    if u != [] && u[0] == ']' then Some(u[1..]) else None
  }

  /** The molecular grammar with parseAll: one or more units, an optional charge, and nothing
      but blanks after them. */
  function ParseMolecular(s: string): (r: Option<Parsed>)
    ensures r.Some? ==> r.value.units != []
  {
    var (us, rest) := MolecularUnits(s);
    if us == [] then None
    else
      var (c, rest') := MolecularCharge(rest);
      if DropBlanks(rest') == [] then Some(Parsed(us, c)) else None
  }

  // ---------------------------------------------------------------------------------------
  // Isotope notation, e.g. 12C2 15N O3 2-

  /** The characters that are not delimiters: ASCII letters, digits, '+' and '-'. */
  predicate Kept(c: char) { IsAlnum(c) || c == '+' || c == '-' }

  /** The length of the leading run of delimiter characters. */
  function LeadingRun(s: string): (n: nat)
    ensures n <= |s|
    ensures n < |s| ==> Kept(s[n])
    decreases |s|
  {
    if s != [] && !Kept(s[0]) then 1 + LeadingRun(s[1..]) else 0
  }

  /** transformString of CharsNotIn(alphanums + '+-') replaced by ',': every maximal run of
      delimiter characters becomes one comma. */
  function Delimit(s: string): (r: string)
    decreases |s|
  {
    if s == [] then []
    else if Kept(s[0]) then [s[0]] + Delimit(s[1..])
    else [','] + Delimit(s[LeadingRun(s)..])
  }

  /** One unit: optional mass digits, symbol, optional count digits, optional comma. */
  function IsotopeUnit(d: string): (r: Option<(Unit, string)>)
    ensures r.Some? ==> |r.value.1| < |d|
  {
    var (am, r1) := SplitDigits(d);
    var (el, r2) := SplitSymbol(r1);
    if el == [] then None
    else
      var (c, r3) := SplitDigits(r2);
      Some((Unit(am, el, c), SkipComma(r3)))
  }

  /** Optional(Suppress(',')). */
  function SkipComma(d: string): (r: string)
    ensures |r| <= |d|
  {
    if d != [] && d[0] == ',' then d[1..] else d
  }

  function IsotopeUnits(d: string): (r: (seq<Unit>, string))
    ensures |r.1| <= |d|
    ensures r.0 == [] ==> r.1 == d
    decreases |d|
  {
    match IsotopeUnit(d)
    case None => ([], d)
    case Some((u, rest)) =>
      var (us, r) := IsotopeUnits(rest);
      ([u] + us, r)
  }

  /** Optional("o" | "0" | Optional(Word(nums)) + ("+" | "-")), committing to the neutral
      alternative once it matches. */
  function IsotopeCharge(d: string): (r: (ChargeTok, string))
  {
    if d != [] && (d[0] == 'o' || d[0] == '0') then (ChargeTok("", [d[0]]), d[1..])
    else
      var (cnt, r1) := SplitDigits(d);
      if r1 != [] && (r1[0] == '+' || r1[0] == '-') then (ChargeTok(cnt, [r1[0]]), r1[1..])
      else (NoCharge, d)
  }

  /** The isotope grammar with parseAll, applied to a delimited string. Such a string holds no
      blanks (see DelimitAlphabet), so the blank skipping in front of each item changes
      nothing there and is not written out. */
  function ParseIsotope(d: string): (r: Option<Parsed>)
    ensures r.Some? ==> r.value.units != []
  {
    var (us, rest) := IsotopeUnits(d);
    if us == [] then None
    else
      var (c, rest') := IsotopeCharge(rest);
      if rest' == [] then Some(Parsed(us, c)) else None
  }

  /** Molecular notation first; only when it does not take the whole input, the delimited
      string in isotope notation. */
  function ParseFormula(s: string): (r: Result<Parsed>)
    ensures r.Ok? ==> r.value.units != []
  {
    match ParseMolecular(s)
    case Some(m) => Ok(m)
    case None =>
      match ParseIsotope(Delimit(s))
      case Some(m) => Ok(m)
      case None => Err(ParseError(s))
  }
}
