/** The relative abundance of a molecule (interference_calculator/molecule.py:271-317): the
    probability of drawing its isotopes from the natural isotope mixture. The rows are grouped
    by their element's major isotope; a group of one isotope contributes p^n, a group of several
    the multinomial probability n!/(c1!...ck!) p1^c1...pk^ck; the molecule's value is the product
    over the groups. */
module Abundance {
  import opened Wrappers
  import opened Numeric
  import opened IsotopeTable
  import opened Seqs
  import opened Units

  /** The distinct major isotopes of the rows, in the order they first occur (the keys of
      value_counts(); their order does not change the product). */
  function Parents(rows: seq<Isotope>): (ps: seq<string>)
    ensures forall i :: 0 <= i < |rows| ==> rows[i].major in ps
    ensures forall p :: p in ps ==> HasMajor(rows, p)
    ensures forall i, j :: 0 <= i < j < |ps| ==> ps[i] != ps[j]
    decreases |rows|
  {
    if rows == [] then []
    else
      var init := rows[..|rows| - 1];
      var ps := Parents(init);
      var m := rows[|rows| - 1].major;
      assert forall p :: HasMajor(init, p) ==> HasMajor(rows, p) by {
        forall p | HasMajor(init, p) ensures HasMajor(rows, p) {
          var i :| 0 <= i < |init| && init[i].major == p;
          assert rows[i].major == p;
        }
      }
      assert HasMajor(rows, m) by {
        assert rows[|rows| - 1].major == m;
      }
      assert forall i :: 0 <= i < |init| ==> rows[i] == init[i];
      if m in ps then ps else ps + [m]
  }

  predicate HasMajor(rows: seq<Isotope>, p: string) {
    exists i :: 0 <= i < |rows| && rows[i].major == p
  }

  /** The abundance (NaN when unknown) and count of each row of one parent group, in row
      order: `data[data['major isotope'] == el]`. */
  function Group(rows: seq<Isotope>, counts: seq<nat>, parent: string): (g: seq<(Float, nat)>)
    requires |rows| == |counts|
    ensures HasMajor(rows, parent) ==> g != []
    decreases |rows|
  {
    if rows == [] then []
    else
      var n := |rows| - 1;
      var init := Group(rows[..n], counts[..n], parent);
      assert HasMajor(rows, parent) && rows[n].major != parent ==> HasMajor(rows[..n], parent) by {
        if HasMajor(rows, parent) && rows[n].major != parent {
          var i :| 0 <= i < |rows| && rows[i].major == parent;
          assert rows[..n][i].major == parent;
        }
      }
      if rows[n].major == parent then init + [(OfOption(rows[n].abundance), counts[n])] else init
  }

  /** n, the total count of a group. */
  function GroupCount(g: seq<(Float, nat)>): nat
    decreases |g|
  {
    if g == [] then 0 else GroupCount(g[..|g| - 1]) + g[|g| - 1].1
  }

  /** factorial(d['count']).prod() */
  function FactorialProduct(g: seq<(Float, nat)>): (r: nat)
    ensures r >= 1
    decreases |g|
  {
    if g == [] then 1 else FactorialProduct(g[..|g| - 1]) * Factorial(g[|g| - 1].1)
  }

  /** (d['abundance'] ** d['count']).prod(): the pandas product skips NaN values. */
  function PowProduct(g: seq<(Float, nat)>): Float
    decreases |g|
  {
    if g == [] then Finite(1.0)
    else
      var x := Pow(g[|g| - 1].0, g[|g| - 1].1);
      if x.NaN? then PowProduct(g[..|g| - 1]) else Mul(PowProduct(g[..|g| - 1]), x)
  }

  /** One group's probability: p^n for a single isotope, the multinomial otherwise. */
  function GroupAbundance(g: seq<(Float, nat)>): Float
    requires g != []
  {
    if |g| == 1 then Pow(g[0].0, GroupCount(g))
    else Mul(Finite(Factorial(GroupCount(g)) as real / FactorialProduct(g) as real), PowProduct(g))
  }

  /** abun_per_el for the given parents, in order. */
  function GroupValues(rows: seq<Isotope>, counts: seq<nat>, parents: seq<string>): (r: seq<Float>)
    requires |rows| == |counts|
    requires forall p :: p in parents ==> HasMajor(rows, p)
    ensures |r| == |parents|
    decreases |parents|
  {
    if parents == [] then []
    else
      var n := |parents| - 1;
      GroupValues(rows, counts, parents[..n]) + [GroupAbundance(Group(rows, counts, parents[n]))]
  }

  /** numpy.prod(abun_per_el), counts paired with rows by position. */
  function AbundanceOf(rows: seq<Isotope>, counts: seq<nat>): Float
    requires |rows| == |counts|
  {
    Product(GroupValues(rows, counts, Parents(rows)))
  }

  /** `periodic_table[periodic_table['isotope'].isin(isotopes)]`: the table rows whose key is
      one of the isotopes, in table order. */
  function RowsIn(t: Table, keys: seq<string>): (r: seq<Isotope>)
    ensures |r| <= |t|
    ensures forall i :: 0 <= i < |r| ==> r[i].key in keys
    decreases |t|
  {
    if t == [] then []
    else (if t[0].key in keys then [t[0]] else []) + RowsIn(t[1..], keys)
  }

  const LengthMismatch: Error := ValueError("Length of values does not match length of index")

  /** relative_abundance as written: the counts, which follow the molecule's isotope order, are
      attached by position to the selected rows, which follow table order; a length difference
      (a repeated isotope) fails. */
  function AbundanceAsWritten(t: Table, isotopes: seq<string>, counts: seq<nat>): (r: Result<Float>)
    ensures r.Err? <==> |RowsIn(t, isotopes)| != |counts|
  {
    var data := RowsIn(t, isotopes);
    if |data| != |counts| then Err(LengthMismatch) else Ok(AbundanceOf(data, counts))
  }

  predicate Distinct(keys: seq<string>) {
    forall i, j :: 0 <= i < j < |keys| ==> keys[i] != keys[j]
  }

  /** relative_abundance with each count attached to its own isotope's row. It fails where
      the code does: on a repeated isotope, or one that has no row. */
  function RelativeAbundance(t: Table, isotopes: seq<string>, counts: seq<nat>): (r: Result<Float>)
  {
    match LookupAll(t, isotopes)
    case Err(_) => Err(LengthMismatch)
    case Ok(rows) =>
      if !Distinct(isotopes) || |rows| != |counts| then Err(LengthMismatch)
      else Ok(AbundanceOf(rows, counts))
  }

  // ---------------------------------------------------------------------------------------
  // Properties

  lemma {:induction false} GroupAbsent(rows: seq<Isotope>, counts: seq<nat>, parent: string)
    requires |rows| == |counts| && !HasMajor(rows, parent)
    ensures Group(rows, counts, parent) == []
    decreases |rows|
  {
    if rows != [] {
      var n := |rows| - 1;
      assert forall i :: 0 <= i < n ==> rows[..n][i] == rows[i];
      assert rows[n].major != parent;
      GroupAbsent(rows[..n], counts[..n], parent);
    }
  }

  predicate DistinctMajors(rows: seq<Isotope>) {
    forall i, j :: 0 <= i < j < |rows| ==> rows[i].major != rows[j].major
  }

  /** When no other row shares its parent, a row forms a group by itself. */
  lemma {:induction false} GroupSingle(rows: seq<Isotope>, counts: seq<nat>, j: nat)
    requires |rows| == |counts| && DistinctMajors(rows) && j < |rows|
    ensures Group(rows, counts, rows[j].major) == [(OfOption(rows[j].abundance), counts[j])]
    decreases |rows|
  {
    var n := |rows| - 1;
    var m := rows[j].major;
    if j == n {
      assert forall i :: 0 <= i < n ==> rows[..n][i] == rows[i];
      GroupAbsent(rows[..n], counts[..n], m);
    } else {
      assert rows[..n][j] == rows[j] && counts[..n][j] == counts[j];
      GroupSingle(rows[..n], counts[..n], j);
      assert rows[n].major != m;
    }
  }

  /** Each row's abundance raised to its own count. */
  function PowEach(rows: seq<Isotope>, counts: seq<nat>): (r: seq<Float>)
    requires |rows| == |counts|
    ensures |r| == |rows|
  {
    seq(|rows|, j requires 0 <= j < |rows| => Pow(OfOption(rows[j].abundance), counts[j]))
  }

  function Major(r: Isotope): string { r.major }

  lemma {:induction false} ParentsOfDistinct(rows: seq<Isotope>)
    requires DistinctMajors(rows)
    ensures Parents(rows) == MapSeq(rows, Major)
    decreases |rows|
  {
    if rows != [] {
      var n := |rows| - 1;
      ParentsOfDistinct(rows[..n]);
      assert rows[n].major !in MapSeq(rows[..n], Major);
      MapSeqAppend(rows[..n], rows[n], Major);
      assert rows[..n] + [rows[n]] == rows;
    }
  }

  lemma {:induction false} GroupValuesOfSingles(rows: seq<Isotope>, counts: seq<nat>, k: nat)
    requires |rows| == |counts| && DistinctMajors(rows) && k <= |rows|
    ensures forall p :: p in MapSeq(rows, Major)[..k] ==> HasMajor(rows, p)
    ensures GroupValues(rows, counts, MapSeq(rows, Major)[..k]) == PowEach(rows, counts)[..k]
    decreases k
  {
    var ps := MapSeq(rows, Major);
    assert forall p :: p in ps[..k] ==> HasMajor(rows, p) by {
      forall p | p in ps[..k] ensures HasMajor(rows, p) {
        var i :| 0 <= i < k && ps[..k][i] == p;
        assert rows[i].major == p;
      }
    }
    if k > 0 {
      GroupValuesOfSingles(rows, counts, k - 1);
      assert ps[..k][..k - 1] == ps[..k - 1];
      GroupSingle(rows, counts, k - 1);
      assert GroupCount([(OfOption(rows[k - 1].abundance), counts[k - 1])]) == counts[k - 1];
      assert PowEach(rows, counts)[..k] == PowEach(rows, counts)[..k - 1] + [PowEach(rows, counts)[k - 1]];
    }
  }

  /** When every parent group holds one isotope (no element appears with two isotopes), the
      abundance is the product of each isotope's abundance raised to its own count. */
  lemma {:induction false} SinglesAbundance(rows: seq<Isotope>, counts: seq<nat>)
    requires |rows| == |counts| && DistinctMajors(rows)
    ensures AbundanceOf(rows, counts) == Product(PowEach(rows, counts))
  {
    ParentsOfDistinct(rows);
    GroupValuesOfSingles(rows, counts, |rows|);
    assert MapSeq(rows, Major)[..|rows|] == MapSeq(rows, Major);
    assert PowEach(rows, counts)[..|rows|] == PowEach(rows, counts);
  }

  /** The group functions on a group of two isotopes. */
  lemma {:induction false} GroupOfTwo(a: (Float, nat), b: (Float, nat))
    ensures GroupCount([a, b]) == a.1 + b.1
    ensures FactorialProduct([a, b]) == Factorial(a.1) * Factorial(b.1)
    ensures a.0.Finite? && b.0.Finite? ==>
              PowProduct([a, b]) == Finite(RPow(a.0.v, a.1) * RPow(b.0.v, b.1))
  {
    var g: seq<(Float, nat)> := [a, b];
    var h: seq<(Float, nat)> := [a];
    assert g[..1] == h && h[..0] == [];
    assert GroupCount(h) == a.1;
    assert FactorialProduct(h) == Factorial(a.1);
    assert a.0.Finite? ==> PowProduct(h) == Finite(RPow(a.0.v, a.1)) by {
      if a.0.Finite? {
        assert Mul(Finite(1.0), Pow(a.0, a.1)) == Finite(1.0 * RPow(a.0.v, a.1));
      }
    }
  }

  lemma {:induction false} ParentsSnoc(rows: seq<Isotope>, x: Isotope)
    ensures Parents(rows + [x]) == Parents(rows) + (if x.major in Parents(rows) then [] else [x.major])
  {
    assert (rows + [x])[..|rows|] == rows;
  }

  lemma {:induction false} GroupSnoc(rows: seq<Isotope>, counts: seq<nat>, x: Isotope, c: nat, parent: string)
    requires |rows| == |counts|
    ensures Group(rows + [x], counts + [c], parent) ==
              Group(rows, counts, parent) + (if x.major == parent then [(OfOption(x.abundance), c)] else [])
  {
    assert (rows + [x])[..|rows|] == rows;
    assert (counts + [c])[..|counts|] == counts;
  }

  lemma {:induction false} ExampleParents(c: Isotope, o16: Isotope, o18: Isotope)
    requires c.major != o16.major && o16.major == o18.major
    ensures Parents([c, o16, o18]) == [c.major, o16.major]
  {
    ParentsTwo(c, o16);
    ParentsSnoc([c, o16], o18);
    assert o18.major in Parents([c, o16]);
    assert [c, o16] + [o18] == [c, o16, o18];
  }

  lemma {:induction false} ParentsTwo(c: Isotope, o: Isotope)
    requires c.major != o.major
    ensures Parents([c, o]) == [c.major, o.major]
  {
    ParentsOne(c);
    ParentsSnoc([c], o);
    assert [c] + [o] == [c, o];
  }

  lemma {:induction false} ParentsOne(c: Isotope)
    ensures Parents([c]) == [c.major]
  {
    var none: seq<Isotope> := [];
    ParentsSnoc(none, c);
    assert none + [c] == [c];
  }

  lemma {:induction false} ExampleGroup(c: Isotope, o16: Isotope, o18: Isotope, parent: string)
    ensures Group([c, o16, o18], [1, 2, 1], parent) ==
              (if c.major == parent then [(OfOption(c.abundance), 1)] else [])
              + (if o16.major == parent then [(OfOption(o16.abundance), 2)] else [])
              + (if o18.major == parent then [(OfOption(o18.abundance), 1)] else [])
  {
    var r0: seq<Isotope> := [];
    var k0: seq<nat> := [];
    var r1, k1 := r0 + [c], k0 + [1];
    var r2, k2 := r1 + [o16], k1 + [2];
    var r3, k3 := r2 + [o18], k2 + [1];
    GroupSnoc(r0, k0, c, 1, parent);
    GroupSnoc(r1, k1, o16, 2, parent);
    GroupSnoc(r2, k2, o18, 1, parent);
    var e: seq<(Float, nat)> := [];
    assert Group(r0, k0, parent) == e;
    assert r3 == [c, o16, o18] && k3 == [1, 2, 1];
  }

  lemma {:induction false} GroupValuesOfTwo(rows: seq<Isotope>, counts: seq<nat>, p: string, q: string)
    requires |rows| == |counts| && HasMajor(rows, p) && HasMajor(rows, q)
    ensures GroupValues(rows, counts, [p, q]) ==
              [GroupAbundance(Group(rows, counts, p)), GroupAbundance(Group(rows, counts, q))]
  {
    var ps := [p, q];
    assert ps[..1] == [p] && ps[..1][..0] == [];
  }

  lemma {:induction false} ProductOfTwo(a: Float, b: Float)
    ensures Product([a, b]) == Mul(Mul(Finite(1.0), a), b)
  {
    var vs := [a, b];
    assert vs[..1] == [a] && vs[..1][..0] == [];
  }

  /** The worked example of the source, 12C 16O2 18O: carbon is independent of oxygen, and the
      three oxygen atoms in two isotopes give 3!/(2!1!) p16^2 p18. */
  lemma {:induction false} MultinomialExample(c: Isotope, o16: Isotope, o18: Isotope, pc: real, p16: real, p18: real)
    requires c.major != o16.major && o16.major == o18.major
    requires c.abundance == Some(pc) && o16.abundance == Some(p16) && o18.abundance == Some(p18)
    ensures AbundanceOf([c, o16, o18], [1, 2, 1]) == Finite(pc * (3.0 * (p16 * p16 * p18)))
  {
    var x := 3.0 * (p16 * p16 * p18);
    ExampleValues(c, o16, o18, pc, p16, p18);
    ProductOfValues(pc, x);
  }

  /** The example's two groups, carbon first, and the abundance of each. */
  lemma {:induction false} ExampleValues(c: Isotope, o16: Isotope, o18: Isotope, pc: real, p16: real, p18: real)
    requires c.major != o16.major && o16.major == o18.major
    requires c.abundance == Some(pc) && o16.abundance == Some(p16) && o18.abundance == Some(p18)
    ensures var rows := [c, o16, o18];
            GroupValues(rows, [1, 2, 1], Parents(rows)) == [Finite(pc), Finite(3.0 * (p16 * p16 * p18))]
  {
    var rows := [c, o16, o18];
    var counts: seq<nat> := [1, 2, 1];
    ExampleParents(c, o16, o18);
    assert HasMajor(rows, c.major) by { assert rows[0].major == c.major; }
    assert HasMajor(rows, o16.major) by { assert rows[1].major == o16.major; }
    GroupValuesOfTwo(rows, counts, c.major, o16.major);
    CarbonGroup(c, o16, o18, pc);
    OxygenGroup(c, o16, o18, p16, p18);
  }

  lemma {:induction false} CarbonGroup(c: Isotope, o16: Isotope, o18: Isotope, pc: real)
    requires c.major != o16.major && o16.major == o18.major && c.abundance == Some(pc)
    ensures Group([c, o16, o18], [1, 2, 1], c.major) == [(Finite(pc), 1)]
    ensures GroupAbundance(Group([c, o16, o18], [1, 2, 1], c.major)) == Finite(pc)
  {
    ExampleGroup(c, o16, o18, c.major);
    SingleGroup(pc);
  }

  lemma {:induction false} OxygenGroup(c: Isotope, o16: Isotope, o18: Isotope, p16: real, p18: real)
    requires c.major != o16.major && o16.major == o18.major
    requires o16.abundance == Some(p16) && o18.abundance == Some(p18)
    ensures Group([c, o16, o18], [1, 2, 1], o16.major) == [(Finite(p16), 2), (Finite(p18), 1)]
    ensures GroupAbundance(Group([c, o16, o18], [1, 2, 1], o16.major)) == Finite(3.0 * (p16 * p16 * p18))
  {
    ExampleGroup(c, o16, o18, o16.major);
    MultinomialThree(p16, p18);
  }

  /** One isotope counted once contributes its abundance. */
  lemma {:induction false} SingleGroup(p: real)
    ensures GroupAbundance([(Finite(p), 1)]) == Finite(p)
  {
    var single: seq<(Float, nat)> := [(Finite(p), 1)];
    assert single[..0] == [];
    assert GroupCount(single) == 1;
    assert RPow(p, 1) == p;
  }

  lemma {:induction false} ProductOfValues(a: real, b: real)
    ensures Product([Finite(a), Finite(b)]) == Finite(a * b)
  {
    ProductOfTwo(Finite(a), Finite(b));
    assert Mul(Mul(Finite(1.0), Finite(a)), Finite(b)) == Finite(a * b);
  }

  lemma {:induction false} MultinomialThree(p16: real, p18: real)
    ensures GroupAbundance([(Finite(p16), 2), (Finite(p18), 1)]) == Finite(3.0 * (p16 * p16 * p18))
  {
    GroupOfTwo((Finite(p16), 2), (Finite(p18), 1));
    assert Factorial(3) == 6 && Factorial(2) == 2 && Factorial(1) == 1;
    assert RPow(p16, 1) == p16 && RPow(p18, 1) == p18;
    assert RPow(p16, 2) == p16 * RPow(p16, 1);
  }

  // ---------------------------------------------------------------------------------------
  // The count assignment of the code as written

  lemma {:induction false} ProductOfPowTwo(a: real, m: nat, b: real, n: nat)
    ensures Product([Pow(Finite(a), m), Pow(Finite(b), n)]) == Finite(RPow(a, m) * RPow(b, n))
  {
    var x, y := RPow(a, m), RPow(b, n);
    assert Pow(Finite(a), m) == Finite(x) && Pow(Finite(b), n) == Finite(y);
    ProductOfTwo(Finite(x), Finite(y));
    assert Mul(Finite(1.0), Finite(x)) == Finite(x);
  }

  lemma {:induction false} PowEachOfTwo(x: Isotope, y: Isotope, m: nat, n: nat, a: real, b: real)
    requires x.abundance == Some(a) && y.abundance == Some(b) && x.major != y.major
    ensures AbundanceOf([x, y], [m, n]) == Finite(RPow(a, m) * RPow(b, n))
  {
    SinglesAbundance([x, y], [m, n]);
    assert PowEach([x, y], [m, n]) == [Pow(Finite(a), m), Pow(Finite(b), n)];
    ProductOfPowTwo(a, m, b, n);
  }

  /** Two single-isotope elements whose isotopes the molecule lists in the opposite order to
      the table. Methane is such a molecule: CH4 yields the isotopes 12C, 1H with counts 1, 4,
      while the table lists 1H before 12C. As written, the first count goes to the first table
      row, so 1H receives the count 1 and 12C the count 4. */
  lemma {:induction false} SwappedCounts(h: Isotope, c: Isotope, ph: real, pc: real, m: nat, n: nat)
    requires h.key != c.key && h.major != c.major
    requires h.abundance == Some(ph) && c.abundance == Some(pc)
    ensures AbundanceAsWritten([h, c], [c.key, h.key], [m, n]) == Ok(Finite(RPow(ph, m) * RPow(pc, n)))
    ensures RelativeAbundance([h, c], [c.key, h.key], [m, n]) == Ok(Finite(RPow(pc, m) * RPow(ph, n)))
  {
    SwappedAsWritten(h, c, ph, pc, m, n);
    SwappedCorrected(h, c, ph, pc, m, n);
  }

  lemma {:induction false} SwappedAsWritten(h: Isotope, c: Isotope, ph: real, pc: real, m: nat, n: nat)
    requires h.key != c.key && h.major != c.major
    requires h.abundance == Some(ph) && c.abundance == Some(pc)
    ensures AbundanceAsWritten([h, c], [c.key, h.key], [m, n]) == Ok(Finite(RPow(ph, m) * RPow(pc, n)))
  {
    var t := [h, c];
    var keys := [c.key, h.key];
    assert t[1..] == [c] && t[1..][1..] == [];
    assert RowsIn(t, keys) == [h, c];
    PowEachOfTwo(h, c, m, n, ph, pc);
  }

  lemma {:induction false} SwappedCorrected(h: Isotope, c: Isotope, ph: real, pc: real, m: nat, n: nat)
    requires h.key != c.key && h.major != c.major
    requires h.abundance == Some(ph) && c.abundance == Some(pc)
    ensures RelativeAbundance([h, c], [c.key, h.key], [m, n]) == Ok(Finite(RPow(pc, m) * RPow(ph, n)))
  {
    var t := [h, c];
    var keys := [c.key, h.key];
    assert t[1..] == [c];
    assert FindKey(t, c.key) == Some(1);
    assert FindKey(t, h.key) == Some(0);
    LookupTwo(t, c.key, h.key);
    assert Distinct(keys);
    PowEachOfTwo(c, h, m, n, pc, ph);
  }

  /** With the natural abundances of 1H (0.999885) and 12C (0.9893), the code as written gives
      about 0.9578 for methane where about 0.9888 is meant. */
  lemma {:induction false} MethaneValues()
    ensures RPow(0.999885, 1) * RPow(0.9893, 4) < 0.958
    ensures RPow(0.9893, 1) * RPow(0.999885, 4) > 0.988
  {
    assert RPow(0.9893, 1) == 0.9893 && RPow(0.999885, 1) == 0.999885;
    assert RPow(0.9893, 2) == 0.9893 * 0.9893;
    assert RPow(0.9893, 4) == 0.9893 * 0.9893 * RPow(0.9893, 2);
    assert RPow(0.999885, 2) == 0.999885 * 0.999885;
    assert RPow(0.999885, 4) == 0.999885 * 0.999885 * RPow(0.999885, 2);
  }

  lemma {:induction false} LookupTwo(t: Table, k1: string, k2: string)
    requires FindKey(t, k1).Some? && FindKey(t, k2).Some?
    ensures LookupAll(t, [k1, k2]) == Ok([t[FindKey(t, k1).value], t[FindKey(t, k2).value]])
  {
    var keys := [k1, k2];
    var r1, r2 := t[FindKey(t, k1).value], t[FindKey(t, k2).value];
    var first := [k1];
    assert first[..0] == [];
    var noRows: seq<Isotope> := [];
    assert noRows + [r1] == [r1];
    assert LookupAll(t, first) == Ok([r1]);
    assert keys[..1] == first;
    assert [r1] + [r2] == [r1, r2];
  }

  // ---------------------------------------------------------------------------------------
  // When the isotopes are listed in table order, the two agree

  predicate UniqueKeys(t: Table) {
    forall i, j :: 0 <= i < j < |t| ==> t[i].key != t[j].key
  }

  /** Every isotope has a row, and the rows come in the order of the isotopes. */
  predicate InTableOrder(t: Table, keys: seq<string>) {
    (forall j :: 0 <= j < |keys| ==> FindKey(t, keys[j]).Some?)
    && forall i, j :: 0 <= i < j < |keys| ==> FindKey(t, keys[i]).value < FindKey(t, keys[j]).value
  }

  /** The row of each isotope, in the isotopes' order. */
  function RowsOf(t: Table, keys: seq<string>): (r: seq<Isotope>)
    requires forall j :: 0 <= j < |keys| ==> FindKey(t, keys[j]).Some?
    ensures |r| == |keys|
  {
    seq(|keys|, j requires 0 <= j < |keys| => t[FindKey(t, keys[j]).value])
  }

  lemma {:induction false} RowsInSameKeys(t: Table, keys: seq<string>, keys': seq<string>)
    requires forall i :: 0 <= i < |t| ==> (t[i].key in keys <==> t[i].key in keys')
    ensures RowsIn(t, keys) == RowsIn(t, keys')
    decreases |t|
  {
    if t != [] {
      assert forall i :: 0 <= i < |t[1..]| ==> t[1..][i] == t[i + 1];
      RowsInSameKeys(t[1..], keys, keys');
    }
  }

  lemma {:induction false} FindKeyTail(t: Table, k: string)
    requires t != [] && t[0].key != k
    ensures FindKey(t, k).Some? <==> FindKey(t[1..], k).Some?
    ensures FindKey(t, k).Some? ==> FindKey(t[1..], k).value == FindKey(t, k).value - 1
  {
  }

  lemma {:induction false} UniqueKeysTail(t: Table)
    requires t != [] && UniqueKeys(t)
    ensures UniqueKeys(t[1..])
    ensures forall i :: 0 <= i < |t[1..]| ==> t[1..][i].key != t[0].key
  {
    assert forall i :: 0 <= i < |t[1..]| ==> t[1..][i] == t[i + 1];
  }

  /** The first row's key is listed: it is the first key, and the rest are in order in the rest of the table. */
  lemma {:induction false} OrderHit(t: Table, keys: seq<string>)
    requires t != [] && UniqueKeys(t) && InTableOrder(t, keys) && t[0].key in keys
    ensures keys != [] && keys[0] == t[0].key
    ensures InTableOrder(t[1..], keys[1..])
    ensures RowsOf(t, keys) == [t[0]] + RowsOf(t[1..], keys[1..])
  {
    OrderHitFirst(t, keys);
    OrderHitRest(t, keys);
    OrderHitRows(t, keys);
  }

  lemma {:induction false} OrderHitFirst(t: Table, keys: seq<string>)
    requires t != [] && InTableOrder(t, keys) && t[0].key in keys
    ensures keys != [] && keys[0] == t[0].key
  {
    var i :| 0 <= i < |keys| && keys[i] == t[0].key;
    assert FindKey(t, keys[i]) == Some(0);
    assert forall j :: 0 < j < |keys| ==> FindKey(t, keys[0]).value < FindKey(t, keys[j]).value;
    assert i == 0;
  }

  lemma {:induction false} OrderHitRest(t: Table, keys: seq<string>)
    requires t != [] && UniqueKeys(t) && InTableOrder(t, keys) && keys != [] && keys[0] == t[0].key
    ensures InTableOrder(t[1..], keys[1..])
    ensures forall j :: 0 <= j < |keys| - 1 ==> FindKey(t[1..], keys[1..][j]).value == FindKey(t, keys[j + 1]).value - 1
  {
    var rest := keys[1..];
    assert FindKey(t, keys[0]) == Some(0);
    forall j | 0 <= j < |rest| ensures FindKey(t[1..], rest[j]).Some?
      && FindKey(t[1..], rest[j]).value == FindKey(t, keys[j + 1]).value - 1 {
      assert rest[j] == keys[j + 1];
      assert FindKey(t, keys[0]).value < FindKey(t, keys[j + 1]).value;
      FindKeyTail(t, rest[j]);
    }
    forall a, b | 0 <= a < b < |rest|
      ensures FindKey(t[1..], rest[a]).value < FindKey(t[1..], rest[b]).value {
      assert rest[a] == keys[a + 1] && rest[b] == keys[b + 1];
    }
  }

  lemma {:induction false} OrderHitRows(t: Table, keys: seq<string>)
    requires t != [] && InTableOrder(t, keys) && keys != [] && keys[0] == t[0].key
    requires InTableOrder(t[1..], keys[1..])
    requires forall j :: 0 <= j < |keys| - 1 ==> FindKey(t[1..], keys[1..][j]).value == FindKey(t, keys[j + 1]).value - 1
    ensures RowsOf(t, keys) == [t[0]] + RowsOf(t[1..], keys[1..])
  {
    var rest := keys[1..];
    assert FindKey(t, keys[0]) == Some(0);
    forall j | 0 <= j < |keys| ensures RowsOf(t, keys)[j] == ([t[0]] + RowsOf(t[1..], rest))[j] {
      if j > 0 {
        assert keys[j] == rest[j - 1];
      }
    }
  }

  /** The first row's key is not listed: the keys are in order in the rest of the table. */
  lemma {:induction false} OrderMiss(t: Table, keys: seq<string>)
    requires t != [] && InTableOrder(t, keys) && t[0].key !in keys
    ensures InTableOrder(t[1..], keys)
    ensures RowsOf(t, keys) == RowsOf(t[1..], keys)
  {
    forall j | 0 <= j < |keys| ensures FindKey(t[1..], keys[j]).Some?
      && FindKey(t[1..], keys[j]).value == FindKey(t, keys[j]).value - 1 {
      assert keys[j] != t[0].key;
      FindKeyTail(t, keys[j]);
    }
  }

  lemma {:induction false} RowsInTableOrder(t: Table, keys: seq<string>)
    requires UniqueKeys(t) && InTableOrder(t, keys)
    ensures RowsIn(t, keys) == RowsOf(t, keys)
    decreases |t|
  {
    if t == [] {
      assert keys == [];
    } else {
      UniqueKeysTail(t);
      if t[0].key in keys {
        OrderHit(t, keys);
        RowsInTableOrder(t[1..], keys[1..]);
        assert keys == [keys[0]] + keys[1..];
        RowsInSameKeys(t[1..], keys, keys[1..]);
      } else {
        OrderMiss(t, keys);
        RowsInTableOrder(t[1..], keys);
      }
    }
  }

  /** When the molecule lists its isotopes in the order of the table (and none is repeated),
      the code as written computes the intended value. */
  lemma {:induction false} AsWrittenInTableOrder(t: Table, isotopes: seq<string>, counts: seq<nat>)
    requires UniqueKeys(t) && InTableOrder(t, isotopes) && |isotopes| == |counts|
    ensures AbundanceAsWritten(t, isotopes, counts) == RelativeAbundance(t, isotopes, counts)
    ensures RelativeAbundance(t, isotopes, counts).Ok?
  {
    RowsInTableOrder(t, isotopes);
    assert Distinct(isotopes) by {
      forall i, j | 0 <= i < j < |isotopes| ensures isotopes[i] != isotopes[j] {
        assert FindKey(t, isotopes[i]).value < FindKey(t, isotopes[j]).value;
      }
    }
    var rows := LookupAll(t, isotopes).value;
    assert rows == RowsOf(t, isotopes);
  }
}
