/** The isotope reference table (periodic_table.csv of the package), passed in as a read-only
    sequence of rows. Lookups return the first matching row, as `df[mask].iloc[0]` does. */
module IsotopeTable {
  import opened Wrappers
  import opened Text

  /** One row: isotope key such as "13C", element symbol, atomic number Z, mass number A,
      exact mass, natural abundance (absent when unknown), the element's major isotope key,
      and the reference standard. */
  datatype Isotope = Isotope(
    key: string,
    element: string,
    z: nat,
    a: nat,
    mass: real,
    abundance: Option<real>,
    major: string,
    standard: string)

  type Table = seq<Isotope>

  /** Electron mass in u, the CODATA 2014 value. */
  const ElectronMass: real := 0.0005485799090

  /** Index of the first row with the given key. */
  function FindKey(t: Table, key: string): (r: Option<nat>)
    ensures r.Some? ==> r.value < |t| && t[r.value].key == key
    ensures r.Some? ==> forall j :: 0 <= j < r.value ==> t[j].key != key
    ensures r.None? ==> forall j :: 0 <= j < |t| ==> t[j].key != key
  {
    if t == [] then None
    else if t[0].key == key then Some(0)
    else match FindKey(t[1..], key)
      case None => None
      case Some(i) => Some(i + 1)
  }

  /** Index of the first row of the given element. */
  function FindElement(t: Table, el: string): (r: Option<nat>)
    ensures r.Some? ==> r.value < |t| && t[r.value].element == el
    ensures r.Some? ==> forall j :: 0 <= j < r.value ==> t[j].element != el
    ensures r.None? ==> forall j :: 0 <= j < |t| ==> t[j].element != el
  {
    if t == [] then None
    else if t[0].element == el then Some(0)
    else match FindElement(t[1..], el)
      case None => None
      case Some(i) => Some(i + 1)
  }

  /** `(table['major isotope'] == s).any()` */
  predicate IsMajorIsotope(t: Table, s: string) {
    exists i :: 0 <= i < |t| && t[i].major == s
  }

  /** Row keys are the mass number followed by the element symbol, as "12C". */
  predicate WellKeyed(r: Isotope) {
    r.element != [] && NoDigits(r.element) && r.key == NatToString(r.a) + r.element
  }

  /** What the table builder guarantees: keys are distinct and well formed, all rows of an
      element share one major isotope, and that major isotope is a row of the same element. */
  predicate ValidTable(t: Table) {
    (forall i :: 0 <= i < |t| ==> WellKeyed(t[i]))
    && (forall i, j :: 0 <= i < j < |t| ==> t[i].key != t[j].key)
    && (forall i, j :: 0 <= i < |t| && 0 <= j < |t| && t[i].element == t[j].element ==>
          t[i].major == t[j].major)
    && (forall i {:trigger t[i].major} :: 0 <= i < |t| ==>
          exists j :: 0 <= j < |t| && t[j].element == t[i].element && t[j].key == t[i].major)
  }

  /** In a valid table, the major isotope of an element, with the symbol stripped off, is the
      mass number of one of that element's rows. */
  lemma {:induction false} MajorMassNumber(t: Table, i: nat)
    requires ValidTable(t) && i < |t|
    ensures exists j :: 0 <= j < |t| && t[j].element == t[i].element && t[j].key == t[i].major
              && StripChars(t[i].major, t[i].element) == NatToString(t[j].a)
  {
    var j :| 0 <= j < |t| && t[j].element == t[i].element && t[j].key == t[i].major;
    assert WellKeyed(t[j]);
    StripCharsOfDigitsPrefix(NatToString(t[j].a), t[j].element);
  }

  /** Keys are unique in a valid table, so the first row with a key is the only one. */
  lemma {:induction false} FindKeyUnique(t: Table, i: nat)
    requires ValidTable(t) && i < |t|
    ensures FindKey(t, t[i].key) == Some(i)
  {
  }
}
