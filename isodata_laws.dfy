/** What the builder of the reference table promises: every row of an element carries the
    same main isotope, which is the key of one of that element's rows, chosen by largest
    known abundance and otherwise by least unit mass; hydrogen, deuterium and tritium give
    their alias rows; and a block written as `name=value` lines reads back its values. */
module IsotopeDataLaws {
  import opened Wrappers
  import opened Numeric
  import opened Text
  import opened IsotopeData

  // ---------------------------------------------------------------------------------------
  // Main isotopes

  /** The main isotope of a row's element is the key of a row of that element. */
  lemma {:induction false} MainIsOwnRow(rows: seq<Record>, i: nat)
    requires i < |rows|
    ensures exists j :: 0 <= j < |rows| && rows[j].element == rows[i].element
                        && rows[j].key == MainOf(rows, rows[i].element)
  {
    var el := rows[i].element;
    match MaxAbundanceAt(rows, el) {
      case Some(k) =>
        assert rows[k].element == el && rows[k].key == MainOf(rows, el);
      case None =>
        var k := MinMassAt(rows, el).value;
        assert rows[k].element == el && rows[k].key == MainOf(rows, el);
    }
  }

  /** The rule: with a known abundance for the element, the first row of largest known
      abundance; without one, the first row of least unit mass. */
  lemma {:induction false} MainRule(rows: seq<Record>, el: string)
    requires exists i :: 0 <= i < |rows| && rows[i].element == el
    ensures exists k :: 0 <= k < |rows| && rows[k].element == el && rows[k].key == MainOf(rows, el)
             && if exists j :: 0 <= j < |rows| && Known(rows[j], el) then
                  Known(rows[k], el)
                  && (forall j :: 0 <= j < |rows| && Known(rows[j], el) ==>
                        Le(rows[j].abundance.value, rows[k].abundance.value))
                  && (forall j :: 0 <= j < k && Known(rows[j], el) ==>
                        !Le(rows[k].abundance.value, rows[j].abundance.value))
                else
                  (forall j :: 0 <= j < |rows| && rows[j].element == el ==> rows[k].a <= rows[j].a)
                  && (forall j :: 0 <= j < k && rows[j].element == el ==> rows[k].a < rows[j].a)
  {
    match MaxAbundanceAt(rows, el) {
      case Some(k) =>
        assert rows[k].key == MainOf(rows, el);
      case None =>
        var k := MinMassAt(rows, el).value;
        assert rows[k].key == MainOf(rows, el);
    }
  }

  /** All rows of an element share its main isotope, which is the key of a row of that
      element. */
  predicate MainsConsistent(t: seq<Record>) {
    MainsAgreeIn(t) && MainsAreRows(t)
  }

  /** Rows of one element name the same main isotope. */
  predicate MainsAgreeIn(t: seq<Record>) {
    forall i, j :: 0 <= i < |t| && 0 <= j < |t| && t[i].element == t[j].element ==> t[i].major == t[j].major
  }

  /** Each main isotope is the key of a row of the same element. */
  predicate MainsAreRows(t: seq<Record>) {
    forall i :: 0 <= i < |t| ==> HasMainRow(t, i)
  }

  /** Row i's main isotope is the key of a row of its element. */
  predicate HasMainRow(t: seq<Record>, i: nat)
    requires i < |t|
  {
    exists j :: 0 <= j < |t| && t[j].element == t[i].element && t[j].key == t[i].major
  }

  /** The built table keeps that invariant. */
  lemma {:induction false} BuiltTableValid(text: string)
    requires BuildTable(text).Ok?
    ensures MainsConsistent(BuildTable(text).value)
  {
    var rows := AllRecords(Blocks(text)).value;
    assert BuildTable(text).value == WithMains(rows);
    MainsValid(rows);
  }

  lemma {:induction false} MainsValid(rows: seq<Record>)
    ensures MainsConsistent(WithMains(rows))
  {
    var t := WithMains(rows);
    MainsOwnRows(rows);
    MainsAgree(rows);
  }

  /** Every main isotope is the key of a row of the same element. */
  lemma {:induction false} MainsOwnRows(rows: seq<Record>)
    ensures MainsAreRows(WithMains(rows))
  {
    var t := WithMains(rows);
    forall i | 0 <= i < |t|
      ensures HasMainRow(t, i)
    {
      MainIsOwnRow(rows, i);
      var j :| 0 <= j < |rows| && rows[j].element == rows[i].element && rows[j].key == MainOf(rows, rows[i].element);
      assert t[j].element == t[i].element && t[j].key == t[i].major;
    }
  }

  /** Rows of one element share their main isotope. */
  lemma {:induction false} MainsAgree(rows: seq<Record>)
    ensures MainsAgreeIn(WithMains(rows))
  {
    var t := WithMains(rows);
    forall i, j | 0 <= i < |t| && 0 <= j < |t| && t[i].element == t[j].element
      ensures t[i].major == t[j].major
    {
      assert t[i].major == MainOf(rows, rows[i].element) && t[i].element == rows[i].element;
      assert t[j].major == MainOf(rows, rows[j].element) && t[j].element == rows[j].element;
    }
  }

  // ---------------------------------------------------------------------------------------
  // Rows of a block

  /** Every row of a block carries its numbers; H, D and T blocks give two rows of element
      H, the first an alias keyed by unit mass and H, and every other block one row keyed by
      unit mass and symbol. */
  lemma {:induction false} BlockRows(z: int, element: string, a: int, mass: Float, abundance: Option<Float>)
    ensures var rs := RowsOf(z, element, a, mass, abundance);
            var hydrogen := element == "H" || element == "D" || element == "T";
            (forall r :: r in rs ==> r.z == z && r.a == a && r.mass == mass && r.abundance == abundance && r.major == [])
            && (|rs| == 2 <==> hydrogen) && (|rs| == 1 <==> !hydrogen)
            && (hydrogen ==> rs[0].element == rs[1].element == "H" && rs[1].key == element
                             && rs[0].key == (if element == "H" then "1H" else IntToString(a) + "H"))
            && (!hydrogen ==> rs[0].element == element && rs[0].key == IntToString(a) + element)
  {
  }

  /** Fields read as numbers give the block's rows; lines after the fifth are ignored. */
  lemma {:induction false} NumericFields(z: nat, element: string, a: nat, massText: string, abundanceText: string, rest: seq<string>)
    requires NumberBefore(massText).Some?
    ensures FromFields([NatToString(z), element, NatToString(a), massText, abundanceText] + rest)
              == Ok(RowsOf(z, element, a, NumberBefore(massText).value, NumberBefore(abundanceText)))
  {
    var data := [NatToString(z), element, NatToString(a), massText, abundanceText] + rest;
    ParseIntOfNat(z);
    ParseIntOfNat(a);
    assert At(data, 0) == Ok(NatToString(z)) && IntField(NatToString(z)) == Ok(z);
    assert At(data, 1) == Ok(element);
    assert At(data, 2) == Ok(NatToString(a)) && IntField(NatToString(a)) == Ok(a);
    assert At(data, 3) == Ok(massText) && At(data, 4) == Ok(abundanceText);
  }

  /** Fewer than five fields fail with IndexError, unless int() or float() fails first. */
  lemma {:induction false} MissingField(data: seq<string>)
    requires |data| < 5
    ensures FromFields(data).Err?
    ensures FromFields(data).error == IndexError || FromFields(data).error == IntError
            || FromFields(data).error == FloatError
  {
    if |data| == 0 {
      assert At(data, 0) == Err(IndexError);
    } else if IntField(data[0]).Err? {
      assert IntField(data[0]) == Err(IntError);
    } else if |data| <= 2 {
      assert At(data, 2) == Err(IndexError);
    } else if IntField(data[2]).Err? {
      assert IntField(data[2]) == Err(IntError);
    } else if |data| == 3 {
      assert At(data, 3) == Err(IndexError);
    } else {
      assert At(data, 4) == Err(IndexError);
    }
  }

  // ---------------------------------------------------------------------------------------
  // Reading back a block

  /** A block of `name=value` lines. */
  function Rendered(names: seq<string>, values: seq<string>): string
    requires |names| == |values|
  {
    Join("\n", seq(|names|, i requires 0 <= i < |names| => names[i] + "=" + values[i]))
  }

  /** A block of lines whose names and values hold no '=' and no newline reads back the
      stripped values. */
  lemma {:induction false} FieldsRoundTrip(names: seq<string>, values: seq<string>)
    requires |names| == |values| >= 1
    requires forall i :: 0 <= i < |names| ==> '=' !in names[i] && '\n' !in names[i]
    requires forall i :: 0 <= i < |values| ==> '=' !in values[i] && '\n' !in values[i]
    ensures Fields(Split(Rendered(names, values), "\n")) == Ok(seq(|values|, i requires 0 <= i < |values| => Strip(values[i])))
  {
    var lines := seq(|names|, i requires 0 <= i < |names| => names[i] + "=" + values[i]);
    forall i | 0 <= i < |lines| ensures '\n' !in lines[i] {
      assert lines[i] == names[i] + "=" + values[i];
    }
    JoinSplit('\n', lines);
    var stripped := seq(|values|, i requires 0 <= i < |values| => Strip(values[i]));
    forall i | 0 <= i < |lines| ensures FieldOf(lines[i]) == Ok(stripped[i]) {
      JoinSplit('=', [names[i], values[i]]);
      assert Join("=", [names[i], values[i]]) == lines[i];
    }
    FieldsPass(lines, stripped);
  }

  /** Splitting at a character that no part holds undoes joining with it. */
  lemma {:induction false} JoinSplit(c: char, parts: seq<string>)
    requires parts != []
    requires forall i :: 0 <= i < |parts| ==> c !in parts[i]
    ensures Split(Join([c], parts), [c]) == parts
    decreases |parts|
  {
    var p := parts[0];
    FirstAt(c, p, if |parts| == 1 then [] else [c] + Join([c], parts[1..]));
    if |parts| == 1 {
      assert p + [] == p;
    } else {
      var rest := Join([c], parts[1..]);
      var s := p + [c] + rest;
      assert Join([c], parts) == s;
      assert p + ([c] + rest) == s;
      assert s[|p| + 1..] == rest;
      assert s[..|p|] == p;
      JoinSplit(c, parts[1..]);
      assert [p] + parts[1..] == parts;
    }
  }

  /** The first occurrence of c in p followed by the tail is where the tail starts, when
      the tail does not start after the end or starts with c. */
  lemma {:induction false} FirstAt(c: char, p: string, tail: string)
    requires c !in p
    requires tail == [] || tail[0] == c
    ensures FindFrom(p + tail, [c], 0) == |p|
  {
    var s := p + tail;
    forall j | 0 <= j < |p| ensures !OccursAt(s, [c], j) {
      assert s[j..j + 1] == [p[j]];
      assert p[j] in p;
    }
    if tail != [] {
      assert s[|p|..|p| + 1] == [c];
      assert OccursAt(s, [c], |p|);
    }
  }
}
