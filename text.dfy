/** The string operations the Python code relies on: ASCII character classes, decimal
    conversion (int(), str(), float()), str.strip, str.split, str.join and the code-point
    order that sorted() uses on strings. */
module Text {
  import opened Wrappers
  import opened Numeric

  predicate IsDigit(c: char) { '0' <= c <= '9' }
  predicate IsUpper(c: char) { 'A' <= c <= 'Z' }
  predicate IsLower(c: char) { 'a' <= c <= 'z' }
  predicate IsAlpha(c: char) { IsUpper(c) || IsLower(c) }
  predicate IsAlnum(c: char) { IsAlpha(c) || IsDigit(c) }

  /** The ASCII characters for which Python's str.isspace() holds (what str.strip() removes). */
  predicate IsSpace(c: char) {
    c == ' ' || c == '\t' || c == '\n' || c == '\r' || c == '\U{0B}' || c == '\U{0C}'
    || c == '\U{1C}' || c == '\U{1D}' || c == '\U{1E}' || c == '\U{1F}'
  }

  predicate AllDigits(s: string) { forall i :: 0 <= i < |s| ==> IsDigit(s[i]) }

  predicate NoDigits(s: string) { forall i :: 0 <= i < |s| ==> !IsDigit(s[i]) }

  function DigitValue(c: char): nat
    requires IsDigit(c)
  {
    (c as int - '0' as int) as nat
  }

  function DigitChar(d: nat): (c: char)
    requires d < 10
    ensures IsDigit(c) && DigitValue(c) == d
  {
    ('0' as int + d) as char
  }

  /** Value of a string of decimal digits, read left to right. */
  function DigitsValue(s: string): nat
    requires AllDigits(s)
    decreases |s|
  {
    if s == [] then 0 else 10 * DigitsValue(s[..|s| - 1]) + DigitValue(s[|s| - 1])
  }

  /** int(s) for a string of ASCII digits; anything else (including "") fails, as int() does. */
  function ParseNat(s: string): (r: Option<nat>)
    ensures r.Some? <==> s != [] && AllDigits(s)
  {
    if s != [] && AllDigits(s) then Some(DigitsValue(s)) else None
  }

  /** str(n) for a natural number: the shortest decimal representation. */
  function NatToString(n: nat): (s: string)
    ensures s != [] && AllDigits(s)
    decreases n
  {
    if n < 10 then [DigitChar(n)] else NatToString(n / 10) + [DigitChar(n % 10)]
  }

  /** str(i) for any integer. */
  function IntToString(i: int): string
  {
    if i < 0 then "-" + NatToString(-i) else NatToString(i)
  }

  lemma {:induction false} NatToStringRoundTrip(n: nat)
    ensures ParseNat(NatToString(n)) == Some(n)
    decreases n
  {
    var s := NatToString(n);
    if n >= 10 {
      NatToStringRoundTrip(n / 10);
      assert s[..|s| - 1] == NatToString(n / 10);
      assert DigitsValue(s) == 10 * (n / 10) + n % 10;
    } else {
      assert s[..|s| - 1] == [];
      assert DigitsValue(s) == n;
    }
  }

  /** The first character of str(n) is a zero only for n == 0. */
  lemma {:induction false} NatToStringNoLeadingZero(n: nat)
    ensures NatToString(n)[0] == '0' <==> n == 0
    decreases n
  {
    if n >= 10 {
      NatToStringNoLeadingZero(n / 10);
    }
  }

  /** Python int(): optional surrounding whitespace, an optional sign, then ASCII digits. */
  function ParseInt(s: string): (r: Option<int>)
    ensures r.Some? ==> Strip(s) != []
  {
    var t := Strip(s);
    if t != [] && (t[0] == '-' || t[0] == '+') then
      match ParseNat(t[1..])
      case Some(n) => Some(if t[0] == '-' then -(n as int) else n as int)
      case None => None
    else
      match ParseNat(t)
      case Some(n) => Some(n)
      case None => None
  }

  // ---------------------------------------------------------------------------------------
  // str.strip

  function LStripBy(s: string, drop: char -> bool): (r: string)
    ensures |r| <= |s| && r == s[|s| - |r|..]
    ensures r != [] ==> !drop(r[0])
    decreases |s|
  {
    if s != [] && drop(s[0]) then LStripBy(s[1..], drop) else s
  }

  function RStripBy(s: string, drop: char -> bool): (r: string)
    ensures |r| <= |s| && r == s[..|r|]
    ensures r != [] ==> !drop(r[|r| - 1])
    decreases |s|
  {
    if s != [] && drop(s[|s| - 1]) then RStripBy(s[..|s| - 1], drop) else s
  }

  /** str.strip(): leading and trailing whitespace removed. */
  function Strip(s: string): (r: string)
    ensures |r| <= |s|
    ensures r != [] ==> !IsSpace(r[0]) && !IsSpace(r[|r| - 1])
  {
    RStripBy(LStripBy(s, IsSpace), IsSpace)
  }

  /** str.lstrip(chars) */
  function LStripChars(s: string, chars: string): (r: string)
    ensures |r| <= |s| && r == s[|s| - |r|..]
    ensures r != [] ==> r[0] !in chars
    decreases |s|
  {
    if s != [] && s[0] in chars then LStripChars(s[1..], chars) else s
  }

  /** str.rstrip(chars) */
  function RStripChars(s: string, chars: string): (r: string)
    ensures |r| <= |s| && r == s[..|r|]
    ensures r != [] ==> r[|r| - 1] !in chars
    decreases |s|
  {
    if s != [] && s[|s| - 1] in chars then RStripChars(s[..|s| - 1], chars) else s
  }

  /** str.strip(chars): leading and trailing characters that occur in chars removed. */
  function StripChars(s: string, chars: string): (r: string)
    ensures |r| <= |s|
    ensures r != [] ==> r[0] !in chars && r[|r| - 1] !in chars
  {
    RStripChars(LStripChars(s, chars), chars)
  }

  lemma {:induction false} StripCharsOfDigitsPrefix(d: string, el: string)
    requires d != [] && AllDigits(d) && NoDigits(el) && el != []
    ensures StripChars(d + el, el) == d
  {
    var s := d + el;
    assert s[0] !in el;
    assert LStripChars(s, el) == s;
    RStripAllOf(d, el, el);
  }

  lemma {:induction false} RStripAllOf(d: string, tail: string, el: string)
    requires d != [] && d[|d| - 1] !in el
    requires forall i :: 0 <= i < |tail| ==> tail[i] in el
    ensures RStripChars(d + tail, el) == d
    decreases |tail|
  {
    if tail != [] {
      var s := d + tail;
      assert s[..|s| - 1] == d + tail[..|tail| - 1];
      RStripAllOf(d, tail[..|tail| - 1], el);
    } else {
      assert d + tail == d;
    }
  }

  // ---------------------------------------------------------------------------------------
  // str.join and str.split

  /** sep.join(parts) */
  function Join(sep: string, parts: seq<string>): (r: string)
    ensures parts == [] ==> r == []
    ensures |parts| == 1 ==> r == parts[0]
    decreases |parts|
  {
    if parts == [] then []
    else if |parts| == 1 then parts[0]
    else parts[0] + sep + Join(sep, parts[1..])
  }

  lemma {:induction false} JoinPrepend(sep: string, p: string, parts: seq<string>)
    requires parts != []
    ensures Join(sep, [p] + parts) == p + sep + Join(sep, parts)
  {
    assert ([p] + parts)[1..] == parts;
  }

  /** Whether sep occurs in s at position i. */
  predicate OccursAt(s: string, sep: string, i: nat) {
    i + |sep| <= |s| && s[i..i + |sep|] == sep
  }

  /** The position of the first occurrence of sep in s at or after `from`, or |s| if none. */
  function FindFrom(s: string, sep: string, from: nat): (k: nat)
    requires sep != [] && from <= |s|
    ensures from <= k <= |s|
    ensures k < |s| ==> OccursAt(s, sep, k)
    ensures forall j :: from <= j < k ==> !OccursAt(s, sep, j)
    decreases |s| - from
  {
    if from + |sep| > |s| then
      assert forall j :: from <= j < |s| ==> !OccursAt(s, sep, j);
      |s|
    else if s[from..from + |sep|] == sep then from
    else FindFrom(s, sep, from + 1)
  }

  /** s.split(sep) for a non-empty separator: the pieces between non-overlapping occurrences,
      found left to right. */
  function Split(s: string, sep: string): (r: seq<string>)
    requires sep != []
    ensures |r| >= 1
    decreases |s|
  {
    var k := FindFrom(s, sep, 0);
    if k == |s| then [s] else [s[..k]] + Split(s[k + |sep|..], sep)
  }

  /** Splitting and re-joining with the same separator gives back the string. */
  lemma {:induction false} SplitJoin(s: string, sep: string)
    requires sep != []
    ensures Join(sep, Split(s, sep)) == s
    decreases |s|
  {
    var k := FindFrom(s, sep, 0);
    if k < |s| {
      var rest := s[k + |sep|..];
      SplitJoin(rest, sep);
      JoinPrepend(sep, s[..k], Split(rest, sep));
      ThreeSlices(s, k, k + |sep|);
    }
  }

  lemma {:induction false} ThreeSlices(s: string, i: nat, j: nat)
    requires i <= j <= |s|
    ensures s == s[..i] + s[i..j] + s[j..]
  {
  }

  /** No piece of a split contains the separator. */
  lemma {:induction false} SplitPiecesFree(s: string, sep: string, i: nat, j: nat)
    requires sep != []
    requires i < |Split(s, sep)|
    ensures !OccursAt(Split(s, sep)[i], sep, j)
    decreases |s|
  {
    var k := FindFrom(s, sep, 0);
    if k < |s| {
      if i == 0 {
        if OccursAt(s[..k], sep, j) {
          assert s[..k][j..j + |sep|] == s[j..j + |sep|];
          assert OccursAt(s, sep, j);
        }
      } else {
        SplitPiecesFree(s[k + |sep|..], sep, i - 1, j);
      }
    }
  }

  // ---------------------------------------------------------------------------------------
  // Python's string order (lexicographic by code point)

  predicate LexLess(a: string, b: string)
    decreases |a|
  {
    if a == [] then b != []
    else b != [] && (a[0] < b[0] || (a[0] == b[0] && LexLess(a[1..], b[1..])))
  }

  lemma {:induction false} LexLessIrreflexive(a: string)
    ensures !LexLess(a, a)
    decreases |a|
  {
    if a != [] {
      LexLessIrreflexive(a[1..]);
    }
  }

  lemma {:induction false} LexLessTransitive(a: string, b: string, c: string)
    requires LexLess(a, b) && LexLess(b, c)
    ensures LexLess(a, c)
    decreases |a|
  {
    if a != [] && a[0] == b[0] && b[0] == c[0] {
      LexLessTransitive(a[1..], b[1..], c[1..]);
    }
  }

  lemma {:induction false} LexLessTotal(a: string, b: string)
    ensures a == b || LexLess(a, b) || LexLess(b, a)
    decreases |a|
  {
    if a != [] && b != [] && a[0] == b[0] {
      LexLessTotal(a[1..], b[1..]);
      if a[1..] == b[1..] {
        assert a == [a[0]] + a[1..] && b == [b[0]] + b[1..];
      }
    }
  }

  lemma {:induction false} LexLessAsymmetric(a: string, b: string)
    requires LexLess(a, b)
    ensures !LexLess(b, a)
  {
    if LexLess(b, a) {
      LexLessTransitive(a, b, a);
      LexLessIrreflexive(a);
    }
  }

  // ---------------------------------------------------------------------------------------
  // Python float()

  function ToLowerChar(c: char): char
  {
    if IsUpper(c) then (c as int + 32) as char else c
  }

  function ToLower(s: string): (r: string)
    ensures |r| == |s|
  {
    seq(|s|, i requires 0 <= i < |s| => ToLowerChar(s[i]))
  }

  /** The end of the run of digits that starts at from. */
  function DigitEnd(s: string, from: nat): (k: nat)
    requires from <= |s|
    ensures from <= k <= |s|
    ensures AllDigits(s[from..k])
    ensures k < |s| ==> !IsDigit(s[k])
    decreases |s| - from
  {
    if from < |s| && IsDigit(s[from]) then DigitEnd(s, from + 1) else from
  }

  function Pow10(e: nat): (r: real)
    ensures r >= 1.0
  {
    if e == 0 then 1.0 else 10.0 * Pow10(e - 1)
  }

  /** An unsigned decimal literal: digits with an optional fraction and an optional exponent,
      with at least one digit in the mantissa. */
  function ParseUnsignedDecimal(t: string): Option<real>
  {
    var a := DigitEnd(t, 0);
    var intPart := t[..a];
    var (fracPart, b) :=
      if a < |t| && t[a] == '.' then (t[a + 1..DigitEnd(t, a + 1)], DigitEnd(t, a + 1)) else ([], a);
    if intPart == [] && fracPart == [] then None
    else
      var mantissa := DigitsValue(intPart) as real
                      + DigitsValue(fracPart) as real / Pow10(|fracPart|);
      if b == |t| then Some(mantissa)
      else if t[b] == 'e' || t[b] == 'E' then
        var rest := t[b + 1..];
        var (neg, digits) :=
          if rest != [] && (rest[0] == '-' || rest[0] == '+') then (rest[0] == '-', rest[1..])
          else (false, rest);
        match ParseNat(digits)
        case None => None
        case Some(e) => Some(if neg then mantissa / Pow10(e) else mantissa * Pow10(e))
      else None
  }

  /** The special spellings float() accepts after the sign: inf, infinity and nan, in any case. */
  function SpecialFloat(body: string, neg: bool): (r: Option<Float>)
    ensures r.Some? ==> !r.value.Finite?
  {
    var low := ToLower(body);
    if low == "inf" || low == "infinity" then Some(if neg then NegInf else PosInf)
    else if low == "nan" then Some(NaN)
    else None
  }

  lemma {:induction false} SpecialFloatNeedsLetter(body: string, neg: bool)
    requires body == [] || (ToLowerChar(body[0]) != 'i' && ToLowerChar(body[0]) != 'n')
    ensures SpecialFloat(body, neg) == None
  {
    var low := ToLower(body);
    if body != [] {
      assert low[0] == ToLowerChar(body[0]);
    }
    assert low != "inf" && low != "infinity" && low != "nan" by {
      if low != [] {
        assert "inf"[0] == 'i' && "infinity"[0] == 'i' && "nan"[0] == 'n';
      }
    }
  }

  /** Python float(s) for a string: surrounding whitespace, an optional sign, then a decimal
      literal or one of inf, infinity, nan (in any case). */
  function ParseFloat(s: string): (r: Option<Float>)
    ensures r.Some? ==> Strip(s) != []
  {
    var t := Strip(s);
    if t == [] then None
    else
      var neg := t[0] == '-';
      var body := if t[0] == '-' || t[0] == '+' then t[1..] else t;
      match SpecialFloat(body, neg)
      case Some(f) => Some(f)
      case None =>
        match ParseUnsignedDecimal(body)
        case None => None
        case Some(x) => Some(Finite(if neg then -x else x))
  }

  /** Strip leaves alone a string that neither starts nor ends with whitespace. */
  lemma {:induction false} StripUnpadded(s: string)
    requires s != [] && !IsSpace(s[0]) && !IsSpace(s[|s| - 1])
    ensures Strip(s) == s
  {
    assert LStripBy(s, IsSpace) == s;
  }

  /** Strip keeps the first character when it is not whitespace. */
  /** int(str(n)) == n */
  lemma {:induction false} ParseIntOfNat(n: nat)
    ensures ParseInt(NatToString(n)) == Some(n)
  {
    var s := NatToString(n);
    assert !IsSpace(s[0]) && !IsSpace(s[|s| - 1]);
    StripUnpadded(s);
    NatToStringRoundTrip(n);
  }

  /** A run of digits followed by a word that starts with a non-digit splits in one way only. */
  lemma {:induction false} DigitsPrefixSplit(d1: string, e1: string, d2: string, e2: string)
    requires AllDigits(d1) && AllDigits(d2)
    requires e1 != [] && !IsDigit(e1[0]) && e2 != [] && !IsDigit(e2[0])
    requires d1 + e1 == d2 + e2
    ensures d1 == d2 && e1 == e2
    decreases |d1|
  {
    if d1 == [] {
      assert (d2 + e2)[0] == e1[0];
      assert d2 == [];
      assert d1 + e1 == e1 && d2 + e2 == e2;
    } else {
      assert (d1 + e1)[0] == d1[0];
      assert (d2 + e2)[0] == d1[0];
      assert d2 != [];
      assert (d1 + e1)[1..] == d1[1..] + e1;
      assert (d2 + e2)[1..] == d2[1..] + e2;
      DigitsPrefixSplit(d1[1..], e1, d2[1..], e2);
      assert d1 == [d1[0]] + d1[1..];
      assert d2 == [d2[0]] + d2[1..];
    }
  }

  lemma {:induction false} StripKeepsFirst(s: string)
    requires s != [] && !IsSpace(s[0])
    ensures Strip(s) != [] && Strip(s)[0] == s[0]
  {
    assert LStripBy(s, IsSpace) == s;
    RStripKeepsFirst(s, IsSpace);
  }

  lemma {:induction false} RStripKeepsFirst(s: string, drop: char -> bool)
    requires s != [] && !drop(s[0])
    ensures RStripBy(s, drop) != [] && RStripBy(s, drop)[0] == s[0]
    decreases |s|
  {
    if drop(s[|s| - 1]) {
      RStripKeepsFirst(s[..|s| - 1], drop);
    }
  }

  /** A plain digit string parses as the number it spells, as float("28") == 28.0. */
  lemma {:induction false} ParseFloatOfDigits(d: string)
    requires d != [] && AllDigits(d)
    ensures ParseFloat(d) == Some(Finite(DigitsValue(d) as real))
  {
    StripUnpadded(d);
    SpecialFloatNeedsLetter(d, false);
    DigitEndAll(d, 0);
    assert d[..|d|] == d;
    assert ParseUnsignedDecimal(d) == Some(DigitsValue(d) as real);
  }

  lemma {:induction false} DigitEndAll(d: string, from: nat)
    requires AllDigits(d) && from <= |d|
    ensures DigitEnd(d, from) == |d|
    decreases |d| - from
  {
    if from < |d| {
      DigitEndAll(d, from + 1);
    }
  }

  /** A formula such as "CO" is not a number: float() fails on it. */
  lemma {:induction false} ParseFloatRejectsLetterStart(s: string)
    requires s != [] && IsUpper(s[0]) && ToLowerChar(s[0]) != 'i' && ToLowerChar(s[0]) != 'n'
    ensures ParseFloat(s) == None
  {
    StripKeepsFirst(s);
    var t := Strip(s);
    SpecialFloatNeedsLetter(t, t[0] == '-');
    assert DigitEnd(t, 0) == 0;
  }
}
