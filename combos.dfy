/** itertools.combinations_with_replacement as the interference search uses it: the picks of k
    pool positions, each pick a non-decreasing sequence of positions, in lexicographic order.
    Every multiset of k positions is picked exactly once. */
module Combinations {
  /** A pick lists its positions in non-decreasing order. */
  predicate NonDecreasing(c: seq<nat>) {
    forall i, j :: 0 <= i < j < |c| ==> c[i] <= c[j]
  }

  /** Every position of the pick lies in lo..n-1. */
  predicate Within(c: seq<nat>, lo: nat, n: nat) {
    forall i :: 0 <= i < |c| ==> lo <= c[i] < n
  }

  /** No pick occurs twice. */
  predicate NoDuplicates<T(==)>(s: seq<T>) {
    forall i, j :: 0 <= i < j < |s| ==> s[i] != s[j]
  }

  /** Every pick with the position i put in front. */
  function Prefixed(i: nat, xss: seq<seq<nat>>): (r: seq<seq<nat>>)
    ensures |r| == |xss|
    ensures forall j :: 0 <= j < |xss| ==> r[j] == [i] + xss[j]
  {
    seq(|xss|, j requires 0 <= j < |xss| => [i] + xss[j])
  }

  /** The picks of k positions from lo..n-1, in the order itertools yields them: first those
      that start with lo, then those that start later. */
  function CombosFrom(lo: nat, n: nat, k: nat): (r: seq<seq<nat>>)
    ensures forall j :: 0 <= j < |r| ==> |r[j]| == k && NonDecreasing(r[j]) && Within(r[j], lo, n)
    decreases k, n - lo
  {
    if k == 0 then [[]]
    else if lo >= n then []
    else
      var first := CombosFrom(lo, n, k - 1);
      var rest := CombosFrom(lo + 1, n, k);
      assert forall j :: 0 <= j < |first| ==> NonDecreasing([lo] + first[j]) by {
        forall j | 0 <= j < |first| ensures NonDecreasing([lo] + first[j]) {
          var c := [lo] + first[j];
          forall a, b | 0 <= a < b < |c| ensures c[a] <= c[b] {
            if a > 0 {
              assert c[a] == first[j][a - 1] && c[b] == first[j][b - 1];
            } else {
              assert c[b] == first[j][b - 1];
            }
          }
        }
      }
      Prefixed(lo, first) + rest
  }

  /** combinations_with_replacement(range(n), k) */
  function Combos(n: nat, k: nat): seq<seq<nat>> {
    CombosFrom(0, n, k)
  }

  /** Every non-decreasing pick of k positions from lo..n-1 is among the picks. */
  lemma {:induction false} CombosComplete(lo: nat, n: nat, k: nat, c: seq<nat>)
    requires |c| == k && NonDecreasing(c) && Within(c, lo, n)
    ensures c in CombosFrom(lo, n, k)
    decreases k, n - lo
  {
    if k == 0 {
      assert c == [];
    } else if c[0] == lo {
      TailPick(c, lo, n);
      CombosComplete(lo, n, k - 1, c[1..]);
      PickStartingAt(lo, n, k, c);
    } else {
      LaterPick(c, lo, n);
      CombosComplete(lo + 1, n, k, c);
      PickStartingLater(lo, n, k, c);
    }
  }

  /** Dropping the first position of a pick leaves a pick. */
  lemma {:induction false} TailPick(c: seq<nat>, lo: nat, n: nat)
    requires c != [] && NonDecreasing(c) && Within(c, lo, n)
    ensures NonDecreasing(c[1..]) && Within(c[1..], lo, n) && c[0] < n
  {
    TailNonDecreasing(c);
    var tail := c[1..];
    forall i | 0 <= i < |tail| ensures lo <= tail[i] < n {
      assert tail[i] == c[i + 1];
    }
  }

  /** A pick that does not start at lo uses positions from lo+1 on. */
  lemma {:induction false} LaterPick(c: seq<nat>, lo: nat, n: nat)
    requires c != [] && NonDecreasing(c) && Within(c, lo, n) && c[0] != lo
    ensures Within(c, lo + 1, n)
  {
    forall i | 0 <= i < |c| ensures lo + 1 <= c[i] < n {
      assert c[0] <= c[i];
    }
  }

  lemma {:induction false} PickStartingAt(lo: nat, n: nat, k: nat, c: seq<nat>)
    requires k > 0 && lo < n && |c| == k && c[0] == lo && c[1..] in CombosFrom(lo, n, k - 1)
    ensures c in CombosFrom(lo, n, k)
  {
    var first := CombosFrom(lo, n, k - 1);
    var p := Prefixed(lo, first);
    assert CombosFrom(lo, n, k) == p + CombosFrom(lo + 1, n, k);
    var j :| 0 <= j < |first| && first[j] == c[1..];
    assert [lo] + c[1..] == c;
    assert p[j] == c;
  }

  lemma {:induction false} PickStartingLater(lo: nat, n: nat, k: nat, c: seq<nat>)
    requires k > 0 && lo < n && c in CombosFrom(lo + 1, n, k)
    ensures c in CombosFrom(lo, n, k)
  {
    var p := Prefixed(lo, CombosFrom(lo, n, k - 1));
    assert CombosFrom(lo, n, k) == p + CombosFrom(lo + 1, n, k);
  }

  lemma {:induction false} PrefixedNoDuplicates(i: nat, xss: seq<seq<nat>>)
    requires NoDuplicates(xss)
    ensures NoDuplicates(Prefixed(i, xss))
  {
    var r := Prefixed(i, xss);
    forall a, b | 0 <= a < b < |r| ensures r[a] != r[b] {
      assert r[a][1..] == xss[a] && r[b][1..] == xss[b];
    }
  }

  /** The picks are all different. */
  lemma {:induction false} CombosNoDuplicates(lo: nat, n: nat, k: nat)
    ensures NoDuplicates(CombosFrom(lo, n, k))
    decreases k, n - lo
  {
    if k > 0 && lo < n {
      var first := CombosFrom(lo, n, k - 1);
      var rest := CombosFrom(lo + 1, n, k);
      CombosNoDuplicates(lo, n, k - 1);
      CombosNoDuplicates(lo + 1, n, k);
      var p := Prefixed(lo, first);
      PrefixedNoDuplicates(lo, first);
      var r := p + rest;
      forall a, b | 0 <= a < b < |r| ensures r[a] != r[b] {
        if b >= |p| && a < |p| {
          assert r[a][0] == lo;
          assert Within(rest[b - |p|], lo + 1, n);
          assert r[b][0] >= lo + 1;
        } else if a >= |p| {
          assert r[a] == rest[a - |p|] && r[b] == rest[b - |p|];
        }
      }
    }
  }

  // ---------------------------------------------------------------------------------------
  // A multiset of positions is one pick

  lemma {:induction false} MinOfSorted(a: seq<nat>, x: nat)
    requires NonDecreasing(a) && a != [] && x in multiset(a)
    ensures a[0] <= x
  {
    var i :| 0 <= i < |a| && a[i] == x;
  }

  lemma {:induction false} TailNonDecreasing(a: seq<nat>)
    requires NonDecreasing(a) && a != []
    ensures NonDecreasing(a[1..])
  {
    forall i, j | 0 <= i < j < |a[1..]| ensures a[1..][i] <= a[1..][j] {
      assert a[1..][i] == a[i + 1] && a[1..][j] == a[j + 1];
    }
  }

  lemma {:induction false} HeadsEqual(a: seq<nat>, b: seq<nat>)
    requires NonDecreasing(a) && NonDecreasing(b) && multiset(a) == multiset(b) && a != []
    ensures |b| == |a| && b[0] == a[0]
  {
    assert |multiset(a)| == |a| && |multiset(b)| == |b|;
    assert a[0] in multiset(a) && b[0] in multiset(b);
    MinOfSorted(b, a[0]);
    MinOfSorted(a, b[0]);
  }

  lemma {:induction false} TailsSameMultiset(a: seq<nat>, b: seq<nat>)
    requires a != [] && b != [] && a[0] == b[0] && multiset(a) == multiset(b)
    ensures multiset(a[1..]) == multiset(b[1..])
  {
    assert a == [a[0]] + a[1..] && b == [b[0]] + b[1..];
    assert multiset(a) == multiset{a[0]} + multiset(a[1..]);
    assert multiset(b) == multiset{b[0]} + multiset(b[1..]);
    assert multiset(a[1..]) == multiset(a) - multiset{a[0]};
    assert multiset(b[1..]) == multiset(b) - multiset{b[0]};
  }

  /** Two picks in non-decreasing order with the same positions counted with multiplicity are
      the same pick. */
  lemma {:induction false} SortedUnique(a: seq<nat>, b: seq<nat>)
    requires NonDecreasing(a) && NonDecreasing(b) && multiset(a) == multiset(b)
    ensures a == b
    decreases |a|
  {
    if a == [] {
      assert |multiset(b)| == |b|;
    } else {
      HeadsEqual(a, b);
      TailsSameMultiset(a, b);
      TailNonDecreasing(a);
      TailNonDecreasing(b);
      SortedUnique(a[1..], b[1..]);
      assert a == [a[0]] + a[1..] && b == [b[0]] + b[1..];
    }
  }

  /** Insertion into a non-decreasing sequence. */
  function Insert(x: nat, s: seq<nat>): (r: seq<nat>)
    requires NonDecreasing(s)
    ensures NonDecreasing(r) && multiset(r) == multiset(s) + multiset{x}
    decreases |s|
  {
    if s == [] || x <= s[0] then
      assert forall i :: 0 <= i < |s| ==> x <= s[i] by {
        forall i | 0 <= i < |s| ensures x <= s[i] {
          assert s[0] <= s[i];
        }
      }
      [x] + s
    else
      TailNonDecreasing(s);
      var t := Insert(x, s[1..]);
      InsertAbove(x, s, t);
      assert s == [s[0]] + s[1..];
      [s[0]] + t
  }

  /** What an insertion behind the first element leaves is not below that element. */
  lemma {:induction false} InsertAbove(x: nat, s: seq<nat>, t: seq<nat>)
    requires NonDecreasing(s) && NonDecreasing(t) && s != [] && s[0] < x
    requires multiset(t) == multiset(s[1..]) + multiset{x}
    ensures NonDecreasing([s[0]] + t)
  {
    assert s == [s[0]] + s[1..];
    forall i | 0 <= i < |t| ensures s[0] <= t[i] {
      assert t[i] in multiset(t);
      if t[i] != x {
        assert t[i] in multiset(s);
        MinOfSorted(s, t[i]);
      }
    }
    var r := [s[0]] + t;
    forall a, b | 0 <= a < b < |r| ensures r[a] <= r[b] {
      assert r[b] == t[b - 1];
      if a > 0 {
        assert r[a] == t[a - 1];
      }
    }
  }

  /** sorted() on positions. */
  function Sort(c: seq<nat>): (r: seq<nat>)
    ensures NonDecreasing(r) && multiset(r) == multiset(c)
    decreases |c|
  {
    if c == [] then []
    else
      assert c == c[..|c| - 1] + [c[|c| - 1]];
      Insert(c[|c| - 1], Sort(c[..|c| - 1]))
  }

  lemma {:induction false} SortWithin(c: seq<nat>, n: nat)
    requires Within(c, 0, n)
    ensures |Sort(c)| == |c| && Within(Sort(c), 0, n)
  {
    var s := Sort(c);
    assert |s| == |multiset(s)| == |multiset(c)| == |c|;
    forall i | 0 <= i < |s| ensures s[i] < n {
      assert s[i] in multiset(c);
    }
  }

  /** Every multiset of k positions from 0..n-1 (given as any sequence listing it) is the
      multiset of exactly one pick. */
  lemma {:induction false} ExactlyOnce(n: nat, k: nat, c: seq<nat>)
    requires |c| == k && Within(c, 0, n)
    ensures OnceIn(Combos(n, k), c)
  {
    var r := Combos(n, k);
    SortWithin(c, n);
    CombosComplete(0, n, k, Sort(c));
    var j :| 0 <= j < |r| && r[j] == Sort(c);
    CombosNoDuplicates(0, n, k);
    forall a, b | 0 <= a < |r| && 0 <= b < |r| && multiset(r[a]) == multiset(c) && multiset(r[b]) == multiset(c)
      ensures a == b
    {
      SortedUnique(r[a], r[b]);
    }
  }

  // ---------------------------------------------------------------------------------------
  // All sizes

  /** The picks of every size from 1 to m, smaller sizes first. */
  function AllCombos(n: nat, m: nat): (r: seq<seq<nat>>)
    ensures forall j :: 0 <= j < |r| ==> 1 <= |r[j]| <= m && Within(r[j], 0, n)
  {
    if m == 0 then [] else AllCombos(n, m - 1) + Combos(n, m)
  }

  /** The multiset of c is the multiset of exactly one pick of r. */
  predicate OnceIn(r: seq<seq<nat>>, c: seq<nat>) {
    (exists j :: 0 <= j < |r| && multiset(r[j]) == multiset(c))
    && forall i, j ::
         0 <= i < |r| && 0 <= j < |r| && multiset(r[i]) == multiset(c) && multiset(r[j]) == multiset(c)
         ==> i == j
  }

  /** Every multiset of 1 to m positions is the multiset of exactly one pick of AllCombos. */
  lemma {:induction false} AllExactlyOnce(n: nat, m: nat, c: seq<nat>)
    requires 1 <= |c| <= m && Within(c, 0, n)
    ensures OnceIn(AllCombos(n, m), c)
  {
    if |c| == m {
      ExactlyOnce(n, m, c);
      OnceInLast(AllCombos(n, m - 1), Combos(n, m), c, m);
    } else {
      AllExactlyOnce(n, m - 1, c);
      OnceInInit(AllCombos(n, m - 1), Combos(n, m), c, m);
    }
  }

  lemma {:induction false} OnceInLast(init: seq<seq<nat>>, last: seq<seq<nat>>, c: seq<nat>, m: nat)
    requires |c| == m && OnceIn(last, c)
    requires forall j :: 0 <= j < |init| ==> |init[j]| < m
    requires forall j :: 0 <= j < |last| ==> |last[j]| == m
    ensures OnceIn(init + last, c)
  {
    var r := init + last;
    var j :| 0 <= j < |last| && multiset(last[j]) == multiset(c);
    assert r[|init| + j] == last[j];
    forall a, b | 0 <= a < |r| && 0 <= b < |r| && multiset(r[a]) == multiset(c) && multiset(r[b]) == multiset(c)
      ensures a == b
    {
      SizeOfPick(init, last, r, a, c, m);
      SizeOfPick(init, last, r, b, c, m);
      assert r[a] == last[a - |init|] && r[b] == last[b - |init|];
    }
  }

  lemma {:induction false} OnceInInit(init: seq<seq<nat>>, last: seq<seq<nat>>, c: seq<nat>, m: nat)
    requires |c| < m && OnceIn(init, c)
    requires forall j :: 0 <= j < |init| ==> |init[j]| < m
    requires forall j :: 0 <= j < |last| ==> |last[j]| == m
    ensures OnceIn(init + last, c)
  {
    var r := init + last;
    var j :| 0 <= j < |init| && multiset(init[j]) == multiset(c);
    assert r[j] == init[j];
    forall a, b | 0 <= a < |r| && 0 <= b < |r| && multiset(r[a]) == multiset(c) && multiset(r[b]) == multiset(c)
      ensures a == b
    {
      SizeOfPick(init, last, r, a, c, m);
      SizeOfPick(init, last, r, b, c, m);
      assert r[a] == init[a] && r[b] == init[b];
    }
  }

  /** Picks of the last size come after all the smaller ones. */
  lemma {:induction false} SizeOfPick(init: seq<seq<nat>>, last: seq<seq<nat>>, r: seq<seq<nat>>, a: nat, c: seq<nat>, m: nat)
    requires r == init + last && a < |r| && multiset(r[a]) == multiset(c)
    requires forall j :: 0 <= j < |init| ==> |init[j]| < m
    requires forall j :: 0 <= j < |last| ==> |last[j]| == m
    ensures a < |init| <==> |c| < m
  {
    assert |r[a]| == |multiset(r[a])| == |multiset(c)| == |c|;
    if a >= |init| {
      assert r[a] == last[a - |init|];
    }
  }
}
