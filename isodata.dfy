/** The reference-table builder of isotope_data.py (copied unchanged in masstable.py): the
    HTML parser that collects the text of <pre> elements, the parser of its blank-line
    separated `name = value` blocks into isotope rows, with the extra alias rows of hydrogen,
    deuterium and tritium, and the choice of every element's main isotope. The download, the
    HTML tokenizer and the database are not part of the model: the tokenizer's events and
    the downloaded text are parameters. */
module IsotopeData {
  import opened Wrappers
  import opened Numeric
  import opened Text
  import opened Seqs

  // ---------------------------------------------------------------------------------------
  // HTMLPreParser

  /** The callbacks the HTML tokenizer makes, in document order. */
  datatype Event = StartTag(tag: string) | Data(data: string) | EndTag(tag: string)

  datatype PreState = PreState(inPre: bool, text: string)

  /** One callback: a 'pre' start tag sets the flag, a 'pre' end tag clears it, other tags
      change nothing, and data is appended only while the flag is set. */
  function Step(s: PreState, e: Event): PreState {
    match e
    case StartTag(tag) => PreState(s.inPre || tag == "pre", s.text)
    case Data(d) => PreState(s.inPre, if s.inPre then s.text + d else s.text)
    case EndTag(tag) => PreState(s.inPre && tag != "pre", s.text)
  }

  /** The state after the events, one callback after another. */
  function Run(s: PreState, events: seq<Event>): PreState
    decreases |events|
  {
    if events == [] then s
    else Step(Run(s, events[..|events| - 1]), events[|events| - 1])
  }

  /** The text of the data events that arrive inside <pre>, read from the front: an
      independent statement of what the parser collects. */
  function Collected(inPre: bool, events: seq<Event>): string
    decreases |events|
  {
    if events == [] then []
    else match events[0]
      case StartTag(tag) => Collected(inPre || tag == "pre", events[1..])
      case Data(d) => (if inPre then d else []) + Collected(inPre, events[1..])
      case EndTag(tag) => Collected(inPre && tag != "pre", events[1..])
  }

  class PreParser {
    var inPre: bool
    var text: string

    constructor ()
      ensures !inPre && text == []
    {
      inPre := false;
      text := [];
    }

    function State(): PreState
      reads this
    {
      PreState(inPre, text)
    }

    /** handle_starttag */
    method HandleStartTag(tag: string)
      modifies this
      ensures inPre == (old(inPre) || tag == "pre") && text == old(text)
    {
      if tag == "pre" {
        inPre := true;
      }
    }

    /** handle_data */
    method HandleData(data: string)
      modifies this
      ensures inPre == old(inPre) && text == old(text) + (if old(inPre) then data else [])
    {
      if inPre {
        text := text + data;
      }
    }

    /** handle_endtag */
    method HandleEndTag(tag: string)
      modifies this
      ensures inPre == (old(inPre) && tag != "pre") && text == old(text)
    {
      if tag == "pre" {
        inPre := false;
      }
    }

    /** feed(): the callbacks for the events, in order. */
    method Feed(events: seq<Event>)
      modifies this
      ensures State() == Run(old(State()), events)
    {
      ghost var s0 := State();
      for i := 0 to |events|
        invariant State() == Run(s0, events[..i])
      {
        assert events[..i + 1][..i] == events[..i];
        match events[i] {
          case StartTag(tag) => HandleStartTag(tag);
          case Data(d) => HandleData(d);
          case EndTag(tag) => HandleEndTag(tag);
        }
      }
      assert events[..|events|] == events;
    }
  }

  /** Feeding two pieces one after the other is feeding them joined. */
  lemma {:induction false} RunAppend(s: PreState, a: seq<Event>, b: seq<Event>)
    ensures Run(s, a + b) == Run(Run(s, a), b)
    decreases |b|
  {
    if b != [] {
      var n := |b| - 1;
      assert (a + b)[..|a + b| - 1] == a + b[..n];
      assert (a + b)[|a + b| - 1] == b[n];
      RunAppend(s, a, b[..n]);
    } else {
      assert a + b == a;
    }
  }

  /** The parser's text is the text it started with followed by the data inside <pre>. */
  lemma {:induction false} RunCollects(s: PreState, events: seq<Event>)
    ensures Run(s, events).text == s.text + Collected(s.inPre, events)
    decreases |events|
  {
    if events != [] {
      var first := Step(s, events[0]);
      assert Run(s, [events[0]]) == first by {
        assert [events[0]][..0] == [];
      }
      RunAppend(s, [events[0]], events[1..]);
      assert [events[0]] + events[1..] == events;
      RunCollects(first, events[1..]);
    }
  }

  /** Without a 'pre' start tag nothing is collected from a fresh parser. */
  lemma {:induction false} NoPreNoText(events: seq<Event>)
    requires forall i :: 0 <= i < |events| ==> events[i] != StartTag("pre")
    ensures Run(PreState(false, []), events) == PreState(false, [])
    decreases |events|
  {
    if events != [] {
      NoPreNoText(events[..|events| - 1]);
    }
  }

  // ---------------------------------------------------------------------------------------
  // Blocks and fields

  /** One row of the built table: key (the frame's index), atomic number, element, unit
      mass, isotope mass, abundance (None when float() refuses it) and main isotope. */
  datatype Record = Record(key: string, z: int, element: string, a: int, mass: Float,
                           abundance: Option<Float>, major: string)

  /** text.split('\n\n')[1:-1]: the blocks between the first and the last. */
  function Blocks(text: string): (r: seq<string>)
    ensures var parts := Split(text, "\n\n");
            |r| == (if |parts| >= 2 then |parts| - 2 else 0)
            && forall i :: 0 <= i < |r| ==> r[i] == parts[i + 1]
  {
    var parts := Split(text, "\n\n");
    if |parts| >= 2 then parts[1..|parts| - 1] else []
  }

  /** line.split('=')[1].strip(): the value after the first '=', up to any second one. */
  function FieldOf(line: string): Result<string> {
    var parts := Split(line, "=");
    if |parts| >= 2 then Ok(Strip(parts[1])) else Err(IndexError)
  }

  /** The fields of a block's lines, one per line; a line without '=' fails. */
  function Fields(lines: seq<string>): (r: Result<seq<string>>)
    ensures r.Ok? <==> forall j :: 0 <= j < |lines| ==> FieldOf(lines[j]).Ok?
    ensures r.Ok? ==> |r.value| == |lines| && forall j :: 0 <= j < |lines| ==> FieldOf(lines[j]) == Ok(r.value[j])
    ensures r.Err? ==> exists j :: 0 <= j < |lines| && FieldOf(lines[j]) == Err(r.error)
                          && forall k :: 0 <= k < j ==> FieldOf(lines[k]).Ok?
  {
    MapResult(lines, FieldOf)
  }

  function At(data: seq<string>, i: nat): Result<string> {
    if i < |data| then Ok(data[i]) else Err(IndexError)
  }

  function IntField(s: string): Result<int> {
    match ParseInt(s)
    case Some(i) => Ok(i)
    case None => Err(IntError)
  }

  /** float() of the text before any '(' (the uncertainty). */
  function NumberBefore(s: string): Option<Float> {
    ParseFloat(Split(s, "(")[0])
  }

  /** The rows of one block: an ordinary block gives one row keyed by unit mass and symbol;
      a block of H, D or T gives an alias row keyed 1H, 2H or 3H and then a row keyed H, D
      or T, both of element H. */
  function RowsOf(z: int, element: string, a: int, mass: Float, abundance: Option<Float>): seq<Record> {
    if element == "H" then
      [Record("1H", z, "H", a, mass, abundance, ""), Record("H", z, "H", a, mass, abundance, "")]
    else if element == "D" || element == "T" then
      [Record(IntToString(a) + "H", z, "H", a, mass, abundance, ""), Record(element, z, "H", a, mass, abundance, "")]
    else
      [Record(IntToString(a) + element, z, element, a, mass, abundance, "")]
  }

  /** Fields in the order atomic number, symbol, unit mass, mass, abundance; each access to a
      missing field fails, as do int() and the mass's float(); an unreadable abundance is
      None. */
  function FromFields(data: seq<string>): Result<seq<Record>> {
    var d0 :- At(data, 0);
    var z :- IntField(d0);
    var element :- At(data, 1);
    var d2 :- At(data, 2);
    var a :- IntField(d2);
    var d3 :- At(data, 3);
    var mass :- (match NumberBefore(d3) case Some(m) => Ok(m) case None => Err(FloatError));
    var d4 :- At(data, 4);
    Ok(RowsOf(z, element, a, mass, NumberBefore(d4)))
  }

  function BlockRecords(block: string): Result<seq<Record>> {
    var data :- Fields(Split(block, "\n"));
    FromFields(data)
  }

  /** The rows of all blocks, in order; the first block that fails decides the error. */
  function AllRecords(blocks: seq<string>): Result<seq<Record>>
    decreases |blocks|
  {
    if blocks == [] then Ok([])
    else
      var n := |blocks| - 1;
      var front :- AllRecords(blocks[..n]);
      var last :- BlockRecords(blocks[n]);
      Ok(front + last)
  }

  // ---------------------------------------------------------------------------------------
  // Main isotopes

  /** A row of element el whose abundance pandas does not count as null. */
  predicate Known(r: Record, el: string) {
    r.element == el && r.abundance.Some? && !r.abundance.value.NaN?
  }

  /** abundance.argmax() over the rows of el: the first row of largest known abundance, or
      None when all of them are null. */
  function MaxAbundanceAt(rows: seq<Record>, el: string): (r: Option<nat>)
    ensures r.None? <==> forall j :: 0 <= j < |rows| ==> !Known(rows[j], el)
    ensures r.Some? ==>
              r.value < |rows| && Known(rows[r.value], el)
              && (forall j :: 0 <= j < |rows| && Known(rows[j], el) ==>
                    Le(rows[j].abundance.value, rows[r.value].abundance.value))
              && (forall j :: 0 <= j < r.value && Known(rows[j], el) ==>
                    !Le(rows[r.value].abundance.value, rows[j].abundance.value))
    decreases |rows|
  {
    if rows == [] then None
    else
      var n := |rows| - 1;
      var b := MaxAbundanceAt(rows[..n], el);
      assert forall j :: 0 <= j < n ==> rows[..n][j] == rows[j];
      if !Known(rows[n], el) then b
      else if b.None? || !Le(rows[n].abundance.value, rows[b.value].abundance.value) then Some(n)
      else b
  }

  /** unit_mass.argmin() over the rows of el: the first row of least unit mass. */
  function MinMassAt(rows: seq<Record>, el: string): (r: Option<nat>)
    ensures r.None? <==> forall j :: 0 <= j < |rows| ==> rows[j].element != el
    ensures r.Some? ==>
              r.value < |rows| && rows[r.value].element == el
              && (forall j :: 0 <= j < |rows| && rows[j].element == el ==> rows[r.value].a <= rows[j].a)
              && (forall j :: 0 <= j < r.value && rows[j].element == el ==> rows[r.value].a < rows[j].a)
    decreases |rows|
  {
    if rows == [] then None
    else
      var n := |rows| - 1;
      var b := MinMassAt(rows[..n], el);
      assert forall j :: 0 <= j < n ==> rows[..n][j] == rows[j];
      if rows[n].element != el then b
      else if b.None? || rows[n].a < rows[b.value].a then Some(n)
      else b
  }

  /** The main isotope of el: the key of its most abundant row, or of its lightest row when
      no abundance of it is known. */
  function MainOf(rows: seq<Record>, el: string): string {
    match MaxAbundanceAt(rows, el)
    case Some(i) => rows[i].key
    case None =>
      match MinMassAt(rows, el)
      case Some(i) => rows[i].key
      case None => []
  }

  /** d.element.unique(): the elements in order of first appearance. */
  function UniqueElements(rows: seq<Record>): (r: seq<string>)
    ensures forall x :: x in r <==> exists i :: 0 <= i < |rows| && rows[i].element == x
    decreases |rows|
  {
    if rows == [] then []
    else
      var n := |rows| - 1;
      var u := UniqueElements(rows[..n]);
      assert forall i :: 0 <= i < n ==> rows[..n][i] == rows[i];
      if rows[n].element in u then u else u + [rows[n].element]
  }

  /** The built table: every row's main isotope is that of its element. */
  function WithMains(rows: seq<Record>): (r: seq<Record>)
    ensures |r| == |rows| && forall i :: 0 <= i < |rows| ==> r[i] == rows[i].(major := MainOf(rows, rows[i].element))
  {
    seq(|rows|, i requires 0 <= i < |rows| => rows[i].(major := MainOf(rows, rows[i].element)))
  }

  /** The table update() stores for the downloaded text. */
  function BuildTable(text: string): Result<seq<Record>> {
    var rows :- AllRecords(Blocks(text));
    Ok(WithMains(rows))
  }

  // ---------------------------------------------------------------------------------------
  // The procedures

  /** The loop over one block's lines that collects their fields, then the rows. */
  method BlockLoop(block: string) returns (r: Result<seq<Record>>)
    ensures r == BlockRecords(block)
  {
    var lines := Split(block, "\n");
    var data: seq<string> := [];
    for i := 0 to |lines|
      invariant |data| == i
      invariant forall k :: 0 <= k < i ==> FieldOf(lines[k]) == Ok(data[k])
    {
      var parts := Split(lines[i], "=");
      if |parts| < 2 {
        FieldsFailure(lines, i);
        return Err(IndexError);
      }
      data := data + [Strip(parts[1])];
    }
    FieldsPass(lines, data);
    r := FromFields(data);
  }

  lemma {:induction false} FieldsFailure(lines: seq<string>, i: nat)
    requires i < |lines| && FieldOf(lines[i]).Err?
    requires forall k :: 0 <= k < i ==> FieldOf(lines[k]).Ok?
    ensures Fields(lines) == Err(FieldOf(lines[i]).error)
  {
    var r := Fields(lines);
    var j :| 0 <= j < |lines| && FieldOf(lines[j]) == Err(r.error)
             && forall k :: 0 <= k < j ==> FieldOf(lines[k]).Ok?;
  }

  lemma {:induction false} FieldsPass(lines: seq<string>, data: seq<string>)
    requires |data| == |lines|
    requires forall k :: 0 <= k < |data| ==> FieldOf(lines[k]) == Ok(data[k])
    ensures Fields(lines) == Ok(data)
  {
    var r := Fields(lines);
    assert r.Ok? by {
      forall j | 0 <= j < |lines| ensures FieldOf(lines[j]).Ok? {
        assert FieldOf(lines[j]) == Ok(data[j]);
      }
    }
    assert r.value == data;
  }

  /** The writes d.loc[sel, 'main_isotope'] = main_isotope, one element after another. */
  method MainColumn(rows: seq<Record>) returns (mains: seq<string>)
    ensures |mains| == |rows|
    ensures forall i :: 0 <= i < |rows| ==> mains[i] == MainOf(rows, rows[i].element)
  {
    var elements := UniqueElements(rows);
    mains := seq(|rows|, i => []);
    for k := 0 to |elements|
      invariant |mains| == |rows|
      invariant forall i :: 0 <= i < |rows| ==>
                  mains[i] == if rows[i].element in elements[..k] then MainOf(rows, rows[i].element) else []
    {
      var el := elements[k];
      var main := MainOf(rows, el);
      assert elements[..k + 1] == elements[..k] + [el];
      for i := 0 to |rows|
        invariant |mains| == |rows|
        invariant forall j :: 0 <= j < |rows| ==>
                    mains[j] == if rows[j].element in elements[..k] || (j < i && rows[j].element == el)
                                then MainOf(rows, rows[j].element) else []
      {
        if rows[i].element == el {
          mains := mains[i := main];
        }
      }
    }
    forall i | 0 <= i < |rows| ensures rows[i].element in elements[..|elements|] {
      assert elements[..|elements|] == elements;
    }
  }

  /** update(): the blocks of the collected text, the loop over their lines, the alias rows,
      and the main-isotope column. */
  method Update(text: string) returns (r: Result<seq<Record>>)
    ensures r == BuildTable(text)
  {
    var blocks := Blocks(text);
    var table: seq<Record> := [];
    for k := 0 to |blocks|
      invariant AllRecords(blocks[..k]) == Ok(table)
    {
      assert blocks[..k + 1][..k] == blocks[..k];
      var rows := BlockLoop(blocks[k]);
      if rows.Err? {
        assert AllRecords(blocks[..k + 1]) == Err(rows.error);
        AllRecordsStop(blocks, k + 1);
        return Err(rows.error);
      }
      table := table + rows.value;
    }
    assert blocks[..|blocks|] == blocks;
    var mains := MainColumn(table);
    r := Ok(WithColumn(table, mains));
    assert WithColumn(table, mains) == WithMains(table);
  }

  function WithColumn(rows: seq<Record>, mains: seq<string>): (r: seq<Record>)
    requires |mains| == |rows|
    ensures |r| == |rows| && forall i :: 0 <= i < |rows| ==> r[i] == rows[i].(major := mains[i])
  {
    seq(|rows|, i requires 0 <= i < |rows| => rows[i].(major := mains[i]))
  }

  /** Once a prefix of the blocks fails, so do all of them, with the same error. */
  lemma {:induction false} AllRecordsStop(blocks: seq<string>, k: nat)
    requires k <= |blocks| && AllRecords(blocks[..k]).Err?
    ensures AllRecords(blocks) == AllRecords(blocks[..k])
    decreases |blocks| - k
  {
    if k < |blocks| {
      var n := |blocks[..k + 1]| - 1;
      assert blocks[..k + 1][..n] == blocks[..k];
      AllRecordsStop(blocks, k + 1);
    } else {
      assert blocks[..k] == blocks;
    }
  }
}
