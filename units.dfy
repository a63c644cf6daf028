/** How interference_calculator/molecule.py turns parsed units into a molecule's entries: units
    with the same label are merged into one entry with the counts summed, the entries are taken
    in ascending label order, and each is resolved to an isotope against the reference table. */
module Units {
  import opened Wrappers
  import opened Text
  import opened Grammar
  import opened IsotopeTable

  /** One value of the merge dict, keyed by its label: mass text, element and summed count. */
  datatype Entry = Entry(key: string, atomicMass: string, element: string, count: nat)

  /** The dict key of a unit: its mass text followed by its element symbol. */
  function Label(u: Unit): string { u.atomicMass + u.element }

  predicate CountDigits(us: seq<Unit>) {
    forall i :: 0 <= i < |us| ==> AllDigits(us[i].count)
  }

  /** int(unit.get('count', 1)) */
  function UnitCount(u: Unit): nat
    requires AllDigits(u.count)
  {
    if u.count == [] then 1 else DigitsValue(u.count)
  }

  /** The position of a label among the entries (a dict lookup). */
  function Find(es: seq<Entry>, key: string): (r: Option<nat>)
    ensures r.Some? ==> r.value < |es| && es[r.value].key == key
    ensures r.Some? ==> forall j :: 0 <= j < r.value ==> es[j].key != key
    ensures r.None? ==> forall j :: 0 <= j < |es| ==> es[j].key != key
  {
    if es == [] then None
    else if es[0].key == key then Some(0)
    else match Find(es[1..], key)
      case None => None
      case Some(i) => Some(i + 1)
  }

  predicate DistinctLabels(es: seq<Entry>) {
    forall i, j :: 0 <= i < j < |es| ==> es[i].key != es[j].key
  }

  /** The count stored under a key, 0 when the key is not a key. */
  function CountOf(es: seq<Entry>, key: string): nat {
    match Find(es, key)
    case Some(i) => es[i].count
    case None => 0
  }

  /** The sum of the counts of the units that carry a key. */
  function Total(us: seq<Unit>, key: string): nat
    requires CountDigits(us)
    decreases |us|
  {
    if us == [] then 0
    else
      var u := us[|us| - 1];
      Total(us[..|us| - 1], key) + (if Label(u) == key then UnitCount(u) else 0)
  }

  predicate HasLabel(us: seq<Unit>, key: string) {
    exists i :: 0 <= i < |us| && Label(us[i]) == key
  }

  /** One pass of the merge loop: a new label is added with the unit's count, a known label
      has the count added to it. */
  function AddUnit(es: seq<Entry>, u: Unit): seq<Entry>
    requires AllDigits(u.count)
  {
    match Find(es, Label(u))
    case None => es + [Entry(Label(u), u.atomicMass, u.element, UnitCount(u))]
    case Some(i) => es[i := es[i].(count := es[i].count + UnitCount(u))]
  }

  /** In entries with distinct labels, any entry with the label is the one found. */
  lemma {:induction false} FindDistinct(es: seq<Entry>, j: nat)
    requires DistinctLabels(es) && j < |es|
    ensures Find(es, es[j].key) == Some(j)
  {
  }

  lemma {:induction false} AddUnitSpec(es: seq<Entry>, u: Unit)
    requires AllDigits(u.count) && DistinctLabels(es)
    ensures DistinctLabels(AddUnit(es, u))
    ensures forall l :: CountOf(AddUnit(es, u), l) ==
              CountOf(es, l) + (if l == Label(u) then UnitCount(u) else 0)
    ensures forall l :: Find(AddUnit(es, u), l).Some? <==> Find(es, l).Some? || l == Label(u)
  {
    var r := AddUnit(es, u);
    match Find(es, Label(u))
    case None =>
      forall l ensures CountOf(r, l) == CountOf(es, l) + (if l == Label(u) then UnitCount(u) else 0)
                    && (Find(r, l).Some? <==> Find(es, l).Some? || l == Label(u)) {
        if l == Label(u) {
          FindDistinct(r, |es|);
        } else if Find(es, l).Some? {
          FindDistinct(r, Find(es, l).value);
        }
      }
    case Some(i) =>
      forall l ensures CountOf(r, l) == CountOf(es, l) + (if l == Label(u) then UnitCount(u) else 0)
                    && (Find(r, l).Some? <==> Find(es, l).Some?) {
        if Find(es, l).Some? {
          FindDistinct(r, Find(es, l).value);
        }
      }
  }

  /** The merge loop over all units: one entry per distinct label, holding the sum of the
      counts of the units with that label (an absent count counts as 1). */
  function Merge(us: seq<Unit>): (r: seq<Entry>)
    requires CountDigits(us)
    ensures DistinctLabels(r)
    ensures forall l :: CountOf(r, l) == Total(us, l)
    ensures forall l :: Find(r, l).Some? <==> HasLabel(us, l)
    decreases |us|
  {
    if us == [] then []
    else
      var init := us[..|us| - 1];
      var u := us[|us| - 1];
      AddUnitSpec(Merge(init), u);
      assert forall l :: HasLabel(us, l) <==> HasLabel(init, l) || l == Label(u) by {
        forall l ensures HasLabel(us, l) <==> HasLabel(init, l) || l == Label(u) {
          if HasLabel(us, l) {
            var i :| 0 <= i < |us| && Label(us[i]) == l;
            if i < |init| {
              assert Label(init[i]) == l;
            }
          }
          if HasLabel(init, l) {
            var i :| 0 <= i < |init| && Label(init[i]) == l;
            assert Label(us[i]) == l;
          }
        }
      }
      AddUnit(Merge(init), u)
  }

  // ---------------------------------------------------------------------------------------
  // sorted(data.keys())

  predicate SortedByLabel(es: seq<Entry>) {
    forall i, j :: 0 <= i < j < |es| ==> LexLess(es[i].key, es[j].key)
  }

  lemma {:induction false} SortedCons(x: Entry, es: seq<Entry>)
    requires SortedByLabel(es)
    requires forall j :: 0 <= j < |es| ==> LexLess(x.key, es[j].key)
    ensures SortedByLabel([x] + es)
  {
    var r := [x] + es;
    forall i, j | 0 <= i < j < |r| ensures LexLess(r[i].key, r[j].key) {
      if i > 0 {
        assert r[i] == es[i - 1] && r[j] == es[j - 1];
      }
    }
  }

  function Insert(e: Entry, es: seq<Entry>): (r: seq<Entry>)
    requires SortedByLabel(es)
    requires forall j :: 0 <= j < |es| ==> es[j].key != e.key
    ensures SortedByLabel(r)
    ensures multiset(r) == multiset(es) + multiset{e}
    decreases |es|
  {
    if es == [] then [e]
    else if LexLess(e.key, es[0].key) then
      assert forall j :: 0 < j < |es| ==> LexLess(e.key, es[j].key) by {
        forall j | 0 < j < |es| ensures LexLess(e.key, es[j].key) {
          LexLessTransitive(e.key, es[0].key, es[j].key);
        }
      }
      SortedCons(e, es);
      [e] + es
    else
      var x := es[0];
      var tail := es[1..];
      LexLessTotal(e.key, x.key);
      assert forall j :: 0 <= j < |tail| ==> LexLess(x.key, tail[j].key) && tail[j].key != e.key;
      var t := Insert(e, tail);
      assert forall j :: 0 <= j < |t| ==> LexLess(x.key, t[j].key) by {
        forall j | 0 <= j < |t| ensures LexLess(x.key, t[j].key) {
          assert t[j] in multiset(t);
          assert t[j] == e || t[j] in tail;
        }
      }
      SortedCons(x, t);
      ConsSlice(es);
      [x] + t
  }

  lemma {:induction false} ConsSlice<T>(xs: seq<T>)
    requires xs != []
    ensures [xs[0]] + xs[1..] == xs
  {
  }

  /** sorted() applied to the keys, carrying each key's entry along: the entries in ascending
      label order. */
  function SortEntries(es: seq<Entry>): (r: seq<Entry>)
    requires DistinctLabels(es)
    ensures SortedByLabel(r)
    ensures multiset(r) == multiset(es)
    decreases |es|
  {
    if es == [] then []
    else
      var s := SortEntries(es[1..]);
      assert forall j :: 0 <= j < |s| ==> s[j].key != es[0].key by {
        forall j | 0 <= j < |s| ensures s[j].key != es[0].key {
          assert s[j] in multiset(es[1..]);
        }
      }
      ConsSlice(es);
      Insert(es[0], s)
  }

  lemma {:induction false} SortedDistinct(es: seq<Entry>)
    requires SortedByLabel(es)
    ensures DistinctLabels(es)
  {
    forall i, j | 0 <= i < j < |es| ensures es[i].key != es[j].key {
      LexLessIrreflexive(es[i].key);
    }
  }

  // ---------------------------------------------------------------------------------------
  // Resolution against the table

  /** An entry resolved to an isotope: integer mass number, element, count. */
  datatype Resolved = Resolved(atomicMass: int, element: string, count: nat)

  /** str(am) + el */
  function IsotopeKey(r: Resolved): string { IntToString(r.atomicMass) + r.element }

  /** D stands for mass 2 of H; an explicit mass text is read with int(); a missing mass is
      taken from the major isotope of the element's first table row, with the symbol's letters
      stripped from both ends. A missing element fails as the empty row selection does. */
  function Resolve(t: Table, e: Entry): Result<Resolved>
  {
    if e.element == "D" then Ok(Resolved(2, "H", e.count))
    else if e.atomicMass != [] then
      match ParseNat(e.atomicMass)
      case Some(n) => Ok(Resolved(n, e.element, e.count))
      case None => Err(ValueError("invalid literal for int() with base 10"))
    else
      match FindElement(t, e.element)
      case None => Err(LookupError("single positional indexer is out-of-bounds"))
      case Some(i) =>
        match ParseInt(StripChars(t[i].major, e.element))
        case Some(n) => Ok(Resolved(n, e.element, e.count))
        case None => Err(ValueError("invalid literal for int() with base 10"))
  }

  /** The resolution loop: every entry resolved, or the error of the first that fails. */
  function ResolveAll(t: Table, es: seq<Entry>): (r: Result<seq<Resolved>>)
    ensures r.Ok? <==> forall j :: 0 <= j < |es| ==> Resolve(t, es[j]).Ok?
    ensures r.Ok? ==> (|r.value| == |es|
                       && forall j :: 0 <= j < |es| ==> Resolve(t, es[j]) == Ok(r.value[j]))
    ensures r.Err? ==> exists j :: 0 <= j < |es| && Resolve(t, es[j]) == Err(r.error)
                          && forall k :: 0 <= k < j ==> Resolve(t, es[k]).Ok?
    decreases |es|
  {
    if es == [] then Ok([])
    else
      var init := es[..|es| - 1];
      assert forall j :: 0 <= j < |init| ==> init[j] == es[j];
      match ResolveAll(t, init)
      case Err(e) => Err(e)
      case Ok(rs) =>
        match Resolve(t, es[|es| - 1])
        case Err(e) => Err(e)
        case Ok(x) => Ok(rs + [x])
  }

  /** The table lookup loop: the row of each isotope key, or a failure at the first key that
      has no row. */
  function LookupAll(t: Table, keys: seq<string>): (r: Result<seq<Isotope>>)
    ensures r.Ok? <==> forall j :: 0 <= j < |keys| ==> FindKey(t, keys[j]).Some?
    ensures r.Ok? ==> (|r.value| == |keys|
                       && forall j :: 0 <= j < |keys| ==> r.value[j] == t[FindKey(t, keys[j]).value])
    ensures r.Err? ==> r.error == LookupError("single positional indexer is out-of-bounds")
    decreases |keys|
  {
    if keys == [] then Ok([])
    else
      var init := keys[..|keys| - 1];
      assert forall j :: 0 <= j < |init| ==> init[j] == keys[j];
      match LookupAll(t, init)
      case Err(e) => Err(e)
      case Ok(rows) =>
        match FindKey(t, keys[|keys| - 1])
        case None => Err(LookupError("single positional indexer is out-of-bounds"))
        case Some(i) => Ok(rows + [t[i]])
  }
}
