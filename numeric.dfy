/** Numbers as the Python code sees them: masses and abundances are reals, factorials naturals,
    and the IEEE special values that pandas and numpy produce (inf, -inf, NaN) are explicit
    variants. Rounding is not modelled. */
module Numeric {
  import opened Wrappers

  /** A float column value: a finite real or one of the IEEE special values. */
  datatype Float = Finite(v: real) | PosInf | NegInf | NaN

  /** A missing table value becomes NaN, as pandas reads an empty cell. */
  function OfOption(o: Option<real>): (f: Float)
    ensures o.None? <==> f.NaN?
    ensures o.Some? ==> f == Finite(o.value)
  {
    match o
    case None => NaN
    case Some(x) => Finite(x)
  }

  /** The sign of a non-NaN value: -1, 0 or 1. */
  function Sign(a: Float): (r: int)
    requires !a.NaN?
    ensures -1 <= r <= 1
  {
    match a
    case Finite(x) => if x > 0.0 then 1 else if x < 0.0 then -1 else 0
    case PosInf => 1
    case NegInf => -1
  }

  /** IEEE multiplication: NaN is absorbing, and an infinite factor gives an infinity of the
      product's sign, or NaN when the other factor is zero. */
  function Mul(a: Float, b: Float): (r: Float)
    ensures a.Finite? && b.Finite? ==> r == Finite(a.v * b.v)
    ensures a.NaN? || b.NaN? ==> r.NaN?
  {
    if a.NaN? || b.NaN? then NaN
    else if a.Finite? && b.Finite? then Finite(a.v * b.v)
    else
      var sign := Sign(a) * Sign(b);
      if sign > 0 then PosInf else if sign < 0 then NegInf else NaN
  }

  /** numpy division of float arrays: no exception, x/0 is +-inf or NaN. Signed zero is not modelled. */
  function Div(a: Float, b: Float): (r: Float)
    ensures a.Finite? && b.Finite? && b.v != 0.0 ==> r == Finite(a.v / b.v)
    ensures a.Finite? && b == Finite(0.0) ==>
              r == (if a.v > 0.0 then PosInf else if a.v < 0.0 then NegInf else NaN)
    ensures a.NaN? || b.NaN? ==> r.NaN?
  {
    match (a, b)
    case (NaN, _) => NaN
    case (_, NaN) => NaN
    case (Finite(x), Finite(y)) =>
      if y != 0.0 then Finite(x / y)
      else if x > 0.0 then PosInf else if x < 0.0 then NegInf else NaN
    case (Finite(_), _) => Finite(0.0)
    case (PosInf, Finite(y)) => if y < 0.0 then NegInf else PosInf
    case (NegInf, Finite(y)) => if y < 0.0 then PosInf else NegInf
    case (_, _) => NaN
  }

  /** Python's float ** int for a non-negative exponent; x ** 0 is 1.0 even for NaN. */
  function Pow(a: Float, n: nat): (r: Float)
    ensures n == 0 ==> r == Finite(1.0)
    ensures a.Finite? ==> r == Finite(RPow(a.v, n))
    ensures a.NaN? && n > 0 ==> r.NaN?
  {
    if n == 0 then Finite(1.0)
    else match a
      case Finite(x) => Finite(RPow(x, n))
      case NaN => NaN
      case PosInf => PosInf
      case NegInf => if n % 2 == 0 then PosInf else NegInf
  }

  /** The product of a column, as numpy.prod: 1.0 for an empty column. */
  function Product(s: seq<Float>): (r: Float)
    ensures s == [] ==> r == Finite(1.0)
    decreases |s|
  {
    if s == [] then Finite(1.0) else Mul(Product(s[..|s| - 1]), s[|s| - 1])
  }

  /** IEEE negation. */
  function Neg(a: Float): (r: Float)
    ensures a.Finite? <==> r.Finite?
    ensures a.Finite? ==> r.v == -a.v
  {
    match a
    case Finite(x) => Finite(-x)
    case PosInf => NegInf
    case NegInf => PosInf
    case NaN => NaN
  }

  /** IEEE addition: NaN is absorbing, an infinity wins over a finite value, and the sum of
      the two infinities is NaN. */
  function Add(a: Float, b: Float): (r: Float)
    ensures a.Finite? && b.Finite? ==> r == Finite(a.v + b.v)
    ensures a.NaN? || b.NaN? ==> r.NaN?
  {
    match (a, b)
    case (NaN, _) => NaN
    case (_, NaN) => NaN
    case (Finite(x), Finite(y)) => Finite(x + y)
    case (PosInf, NegInf) => NaN
    case (NegInf, PosInf) => NaN
    case (PosInf, _) => PosInf
    case (_, PosInf) => PosInf
    case (NegInf, _) => NegInf
    case (_, NegInf) => NegInf
  }

  /** IEEE subtraction. */
  function Sub(a: Float, b: Float): (r: Float)
    ensures a.Finite? && b.Finite? ==> r == Finite(a.v - b.v)
    ensures a.NaN? || b.NaN? ==> r.NaN?
  {
    Add(a, Neg(b))
  }

  /** numpy.abs of a float. */
  function Magnitude(a: Float): (r: Float)
    ensures a.Finite? ==> r == Finite(Abs(a.v))
    ensures a.NaN? <==> r.NaN?
  {
    match a
    case Finite(x) => Finite(Abs(x))
    case NaN => NaN
    case _ => PosInf
  }

  /** IEEE comparison, false whenever NaN is involved. */
  predicate Le(a: Float, b: Float) {
    match (a, b)
    case (NaN, _) => false
    case (_, NaN) => false
    case (NegInf, _) => true
    case (_, PosInf) => true
    case (Finite(x), Finite(y)) => x <= y
    case (_, _) => false
  }

  /** The order pandas sorts a float column in: -inf, finite ascending, +inf, NaN last. */
  predicate SortLe(a: Float, b: Float) {
    b.NaN? || (!a.NaN? && Le(a, b))
  }

  lemma {:induction false} SortLeTotal(a: Float, b: Float)
    ensures SortLe(a, b) || SortLe(b, a)
  {
  }

  lemma {:induction false} SortLeTransitive(a: Float, b: Float, c: Float)
    requires SortLe(a, b) && SortLe(b, c)
    ensures SortLe(a, c)
  {
  }

  function RPow(p: real, n: nat): real
  {
    if n == 0 then 1.0 else p * RPow(p, n - 1)
  }

  function Factorial(n: nat): (r: nat)
    ensures r >= 1
  {
    if n == 0 then 1 else n * Factorial(n - 1)
  }

  function Abs(x: real): (r: real)
    ensures r >= 0.0 && (r == x || r == -x)
  {
    if x < 0.0 then -x else x
  }

  lemma {:induction false} RPowAdd(p: real, a: nat, b: nat)
    ensures RPow(p, a + b) == RPow(p, a) * RPow(p, b)
  {
    if a > 0 {
      RPowAdd(p, a - 1, b);
    }
  }

  lemma {:induction false} RPowNonNeg(p: real, n: nat)
    requires p >= 0.0
    ensures RPow(p, n) >= 0.0
  {
    if n > 0 {
      RPowNonNeg(p, n - 1);
    }
  }

  lemma {:induction false} RPowAtMostOne(p: real, n: nat)
    requires 0.0 <= p <= 1.0
    ensures 0.0 <= RPow(p, n) <= 1.0
  {
    if n > 0 {
      RPowAtMostOne(p, n - 1);
      var q := RPow(p, n - 1);
      assert RPow(p, n) == p * q;
      assert 0.0 <= p * q <= q by {
        assert 0.0 <= p * q;
        assert p * q <= 1.0 * q;
      }
    }
  }
}
