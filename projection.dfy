/**
 * The projector: what a `format` lambda makes of a dumped object, and the
 * TSV and JSON text the dump methods hand to the sink. The text of each TSV
 * dump is specified as a table (`DumpTable`, `WrittenTable`) rendered by
 * `Tsv.Render`; the methods below build the same text the way the writer
 * lambdas in Dumper.cs do, record by record.
 */
module Projection {
  import opened Wrappers
  import opened Tsv
  import opened Values

  /** One public member of a projected object: its name and its value. */
  datatype Field = Field(name: string, value: Value)

  /**
   * What a `format` lambda returns, as CsvHelper and Json.NET see it: a
   * scalar (a string, say), or an object whose readable members are listed
   * in declaration order.
   */
  datatype Projected = Scalar(value: Value) | Record(fields: seq<Field>)
  {
    /** The member names CsvHelper's WriteHeader enumerates (a scalar has none). */
    function Names(): seq<string> {
      match this
      case Scalar(_) => []
      case Record(fs) => seq(|fs|, i requires 0 <= i < |fs| => fs[i].name)
    }

    /** The cells of one data record: the member values, or the scalar as a single field. */
    function Cells(): seq<string> {
      match this
      case Scalar(v) => [Show(v)]
      case Record(fs) => seq(|fs|, i requires 0 <= i < |fs| => Show(fs[i].value))
    }
  }

  /**
   * The element type of a dump decides how its projections are written:
   * `typeof(T) == typeof(string)` writes each projection as one field,
   * any other type has its members reflected. A projection fits when it is
   * the kind its element type is written as.
   */
  predicate Fits(p: Projected, elementIsString: bool) {
    p.Scalar? == elementIsString
  }

  /** Every name and value of the projection is written verbatim. */
  predicate PlainShape(p: Projected) {
    match p
    case Scalar(v) => PlainValue(v)
    case Record(fs) => forall f <- fs :: Plain(f.name) && PlainValue(f.value)
  }

  /** The header record DumpTsv derives from a projection. */
  function HeaderFields(p: Projected, elementIsString: bool): seq<string> {
    if elementIsString then ["string"] else p.Names()
  }

  /**
   * The records DumpTsv writes: when asked for, a header taken from the
   * first element's projection, then one record per element, in order.
   */
  function DumpTable<T>(target: seq<T>, format: T -> Projected, elementIsString: bool, writeHeader: bool)
    : seq<seq<string>>
  {
    (if writeHeader && |target| > 0 then [HeaderFields(format(target[0]), elementIsString)] else [])
    + Records(target, format)
  }

  /** One record per element, in order. */
  function Records<T>(target: seq<T>, format: T -> Projected): seq<seq<string>> {
    seq(|target|, i requires 0 <= i < |target| => format(target[i]).Cells())
  }

  /** An inner sequence given to WriteTsv: values written one per field, or a string, written as one field. */
  datatype Row = Items(items: seq<Value>) | Chars(text: string)

  function RowFields(r: Row): seq<string> {
    match r
    case Items(vs) => seq(|vs|, i requires 0 <= i < |vs| => Show(vs[i]))
    case Chars(s) => [s]
  }

  predicate PlainRow(r: Row) {
    match r
    case Items(vs) => forall v <- vs :: PlainValue(v)
    case Chars(s) => Plain(s)
  }

  /** The records WriteTsv writes: the header when one is given, then one record per row. */
  function WrittenTable(target: seq<Row>, header: Option<seq<string>>): seq<seq<string>> {
    (if header.Some? then [header.value] else []) + RowRecords(target)
  }

  /** One record per row, in order. */
  function RowRecords(target: seq<Row>): seq<seq<string>> {
    seq(|target|, i requires 0 <= i < |target| => RowFields(target[i]))
  }

  /** Json.NET's compact text of a projection: members in declaration order, no whitespace. */
  function Json(p: Projected): string {
    match p
    case Scalar(v) => JsonScalar(v)
    case Record(fs) => "{" + JsonMembers(fs) + "}"
  }

  function JsonMembers(fs: seq<Field>): string {
    if |fs| == 0 then ""
    else if |fs| == 1 then JsonMember(fs[0])
    else JsonMembers(fs[..|fs| - 1]) + "," + JsonMember(fs[|fs| - 1])
  }

  function JsonMember(f: Field): string {
    "\"" + f.name + "\":" + JsonScalar(f.value)
  }

  /**
   * Text Json.NET writes between quotes as it is: no quote, backslash or
   * character below space, and none of the line separators NEL (U+0085),
   * U+2028 and U+2029, which it also escapes.
   */
  predicate JsonPlainText(s: string) {
    forall c <- s :: c != '"' && c != '\\' && c >= ' ' && c != '\U{0085}' && c != '\U{2028}' && c != '\U{2029}'
  }

  /** A projection whose member names and string values all need no JSON escaping. */
  predicate JsonPlain(p: Projected) {
    match p
    case Scalar(v) => v.VStr? ==> JsonPlainText(v.s)
    case Record(fs) => forall f <- fs :: JsonPlainText(f.name) && (f.value.VStr? ==> JsonPlainText(f.value.s))
  }

  // ---------------------------------------------------------------------
  // The writer lambdas

  /** A WriteField call per field, then NextRecord: CsvHelper puts the delimiter before every field but the first. */
  method WriteFields(fields: seq<string>) returns (line: string)
    ensures line == TsvLine(fields)
  {
    line := "";
    for j := 0 to |fields|
      invariant line == Join(fields[..j])
    {
      assert fields[..j + 1][..j] == fields[..j];
      if j > 0 {
        line := line + "\t";
      }
      line := line + fields[j];
    }
    assert fields[..|fields|] == fields;
    line := line + "\r\n";
  }

  /** The text DumpTsv's writer lambda produces (Dumper.cs, the loop over `target` with its `isFirst` flag). */
  method DumpTsvText<T>(target: seq<T>, format: T -> Projected, elementIsString: bool, writeHeader: bool)
    returns (text: string)
    requires forall i :: 0 <= i < |target| ==> Fits(format(target[i]), elementIsString)
    ensures text == Render(DumpTable(target, format, elementIsString, writeHeader))
  {
    text := "";
    var isFirst := true;
    for i := 0 to |target|
      invariant isFirst <==> i == 0
      invariant text == Render(DumpTable(target[..i], format, elementIsString, writeHeader))
    {
      var v := format(target[i]);
      var header := "";
      if isFirst {
        isFirst := false;
        if writeHeader {
          if elementIsString {
            header := TsvLine(["string"]);
          } else {
            header := TsvLine(v.Names());
          }
        }
      }
      var record;
      if elementIsString {
        record := TsvLine([Show(v.value)]);
      } else {
        record := TsvLine(v.Cells());
      }
      DumpStep(target, i, format, elementIsString, writeHeader);
      text := text + header + record;
    }
    assert target[..|target|] == target;
  }

  /** The text WriteTsv's writer lambda produces (Dumper.cs, the header loop, then the nested loops over rows and fields). */
  method WriteTsvText(target: seq<Row>, header: Option<seq<string>>) returns (text: string)
    ensures text == Render(WrittenTable(target, header))
  {
    text := "";
    if header.Some? {
      text := WriteFields(header.value);
    }
    WrittenEmpty(target, header);
    for i := 0 to |target|
      invariant text == Render(WrittenTable(target[..i], header))
    {
      var line := WriteRow(target[i]);
      text := text + line;
      WrittenStep(target, i, header);
    }
    assert target[..|target|] == target;
  }

  /** One inner sequence of WriteTsv: a string as one field, anything else one field per value. */
  method WriteRow(r: Row) returns (line: string)
    ensures line == TsvLine(RowFields(r))
  {
    match r {
      case Chars(s) =>
        line := WriteFields([s]);
      case Items(vs) =>
        line := WriteFields(seq(|vs|, j requires 0 <= j < |vs| => Show(vs[j])));
    }
  }

  // ---------------------------------------------------------------------
  // Properties of the dumped text

  /** Writing one more record appends exactly its line. */
  lemma RenderSnoc(table: seq<seq<string>>, row: seq<string>)
    ensures Render(table + [row]) == Render(table) + TsvLine(row)
  {
    assert (table + [row])[..|table|] == table;
  }

  lemma RenderOne(row: seq<string>)
    ensures Render([row]) == TsvLine(row)
  {
    assert [row][..0] == [];
  }

  lemma RecordsSnoc<T>(xs: seq<T>, x: T, format: T -> Projected)
    ensures Records(xs + [x], format) == Records(xs, format) + [format(x).Cells()]
  {
  }

  /** One more element adds its record, preceded by the header when it is the first element. */
  lemma DumpTableSnoc<T>(xs: seq<T>, x: T, format: T -> Projected, elementIsString: bool, writeHeader: bool)
    ensures Render(DumpTable(xs + [x], format, elementIsString, writeHeader))
         == Render(DumpTable(xs, format, elementIsString, writeHeader))
            + (if writeHeader && xs == [] then TsvLine(HeaderFields(format(x), elementIsString)) else "")
            + TsvLine(format(x).Cells())
  {
    var ys := xs + [x];
    var cells := format(x).Cells();
    RecordsSnoc(xs, x, format);
    if writeHeader && xs == [] {
      var h := HeaderFields(format(x), elementIsString);
      assert DumpTable(ys, format, elementIsString, writeHeader) == [h] + [cells];
      assert DumpTable(xs, format, elementIsString, writeHeader) == [];
      RenderSnoc([h], cells);
      RenderSnoc([], h);
    } else {
      var head := if writeHeader && |xs| > 0 then [HeaderFields(format(xs[0]), elementIsString)] else [];
      assert writeHeader && |xs| > 0 ==> ys[0] == xs[0];
      assert DumpTable(ys, format, elementIsString, writeHeader) == (head + Records(xs, format)) + [cells];
      RenderSnoc(head + Records(xs, format), cells);
    }
  }

  lemma RowRecordsSnoc(rows: seq<Row>, r: Row)
    ensures RowRecords(rows + [r]) == RowRecords(rows) + [RowFields(r)]
  {
  }

  /** The text the dump of the first `i + 1` elements adds to that of the first `i`. */
  lemma DumpStep<T>(target: seq<T>, i: nat, format: T -> Projected, elementIsString: bool, writeHeader: bool)
    requires i < |target|
    ensures Render(DumpTable(target[..i + 1], format, elementIsString, writeHeader))
         == Render(DumpTable(target[..i], format, elementIsString, writeHeader))
            + (if writeHeader && i == 0 then TsvLine(HeaderFields(format(target[i]), elementIsString)) else "")
            + TsvLine(format(target[i]).Cells())
  {
    assert target[..i + 1] == target[..i] + [target[i]];
    DumpTableSnoc(target[..i], target[i], format, elementIsString, writeHeader);
  }

  /** One more row adds exactly its record. */
  lemma WrittenTableSnoc(rows: seq<Row>, r: Row, header: Option<seq<string>>)
    ensures Render(WrittenTable(rows + [r], header)) == Render(WrittenTable(rows, header)) + TsvLine(RowFields(r))
  {
    RowRecordsSnoc(rows, r);
    var head := if header.Some? then [header.value] else [];
    assert WrittenTable(rows + [r], header) == (head + RowRecords(rows)) + [RowFields(r)];
    RenderSnoc(head + RowRecords(rows), RowFields(r));
  }

  /** The text the first `i + 1` rows add to that of the first `i`. */
  lemma WrittenStep(target: seq<Row>, i: nat, header: Option<seq<string>>)
    requires i < |target|
    ensures Render(WrittenTable(target[..i + 1], header))
         == Render(WrittenTable(target[..i], header)) + TsvLine(RowFields(target[i]))
  {
    assert target[..i + 1] == target[..i] + [target[i]];
    WrittenTableSnoc(target[..i], target[i], header);
  }

  /** Before any row, WriteTsv has written its header line, if it was given one. */
  lemma WrittenEmpty(target: seq<Row>, header: Option<seq<string>>)
    ensures Render(WrittenTable(target[..0], header)) == if header.Some? then TsvLine(header.value) else ""
  {
    assert target[..0] == [];
    assert WrittenTable([], header) == if header.Some? then [header.value] else [];
    if header.Some? {
      RenderSnoc([], header.value);
    }
  }

  /** An empty sequence dumps no text at all, not even a header. */
  lemma DumpEmpty<T>(format: T -> Projected, elementIsString: bool, writeHeader: bool)
    ensures Render(DumpTable([], format, elementIsString, writeHeader)) == ""
  {
    assert DumpTable([], format, elementIsString, writeHeader) == [];
  }

  /** DumpTsvRecord's text: the header of the element's projection when asked for, then its one record. */
  lemma DumpSingle<T>(x: T, format: T -> Projected, elementIsString: bool, writeHeader: bool)
    ensures Render(DumpTable([x], format, elementIsString, writeHeader))
         == (if writeHeader then TsvLine(HeaderFields(format(x), elementIsString)) else "")
            + TsvLine(format(x).Cells())
  {
    DumpTableSnoc([], x, format, elementIsString, writeHeader);
    assert [] + [x] == [x];
    DumpEmpty(format, elementIsString, writeHeader);
  }

  /** The header of a dump is the first element's header line, followed by the dump without a header. */
  lemma DumpHeaderFirst<T>(xs: seq<T>, format: T -> Projected, elementIsString: bool)
    requires |xs| > 0
    ensures Render(DumpTable(xs, format, elementIsString, true))
         == TsvLine(HeaderFields(format(xs[0]), elementIsString)) + Render(DumpTable(xs, format, elementIsString, false))
  {
    var h := HeaderFields(format(xs[0]), elementIsString);
    var rows := Records(xs, format);
    assert DumpTable(xs, format, elementIsString, false) == rows;
    assert DumpTable(xs, format, elementIsString, true) == [h] + rows;
    RenderConcat([h], rows);
    RenderOne(h);
  }

  /**
   * Dumping two sequences without header, one after the other, writes the
   * same text as dumping their concatenation: separate DumpTsvRecord calls
   * accumulate the same file a single DumpTsv call writes.
   */
  lemma DumpConcat<T>(xs: seq<T>, ys: seq<T>, format: T -> Projected, elementIsString: bool)
    ensures Render(DumpTable(xs + ys, format, elementIsString, false))
         == Render(DumpTable(xs, format, elementIsString, false)) + Render(DumpTable(ys, format, elementIsString, false))
  {
    assert DumpTable(xs + ys, format, elementIsString, false) == Records(xs + ys, format);
    assert DumpTable(xs, format, elementIsString, false) == Records(xs, format);
    assert DumpTable(ys, format, elementIsString, false) == Records(ys, format);
    RecordsConcat(xs, ys, format);
    RenderConcat(Records(xs, format), Records(ys, format));
  }

  lemma RecordsConcat<T>(xs: seq<T>, ys: seq<T>, format: T -> Projected)
    ensures Records(xs + ys, format) == Records(xs, format) + Records(ys, format)
  {
  }

  /** The records of a string-element dump: the literal header "string", then each projection as a single field. */
  lemma StringDumpTable<T>(xs: seq<T>, format: T -> Projected, writeHeader: bool)
    requires forall i :: 0 <= i < |xs| ==> format(xs[i]).Scalar?
    ensures var t := DumpTable(xs, format, true, writeHeader);
            var h := if writeHeader && |xs| > 0 then 1 else 0;
      && |t| == h + |xs|
      && (h == 1 ==> t[0] == ["string"])
      && forall i :: 0 <= i < |xs| ==> t[h + i] == [Show(format(xs[i]).value)]
  {
  }

  /** Every projection has the member names of the first one. */
  predicate SameShape<T>(xs: seq<T>, format: T -> Projected)
    requires |xs| > 0
  {
    forall i :: 0 <= i < |xs| ==> format(xs[i]).Record? && format(xs[i]).Names() == format(xs[0]).Names()
  }

  /** Each cell a plain projection contributes is written verbatim. */
  lemma CellsPlain(p: Projected)
    requires PlainShape(p)
    ensures forall c <- p.Cells() :: Plain(c)
    ensures forall n <- p.Names() :: Plain(n)
  {
    match p
    case Scalar(v) =>
      ShowPlain(v);
    case Record(fs) =>
      forall j | 0 <= j < |fs| ensures Plain(Show(fs[j].value)) && Plain(fs[j].name) {
        assert fs[j] in fs;
        ShowPlain(fs[j].value);
      }
  }

  /** A dump of plain, non-empty record projections is a table the reader recovers. */
  lemma DumpTablePlain<T>(xs: seq<T>, format: T -> Projected)
    requires |xs| > 0
    requires forall i :: 0 <= i < |xs| ==> format(xs[i]).Record? && PlainShape(format(xs[i])) && |format(xs[i]).fields| > 0
    ensures ParseTable(Render(DumpTable(xs, format, false, true))) == DumpTable(xs, format, false, true)
  {
    var table := DumpTable(xs, format, false, true);
    forall k | 0 <= k < |table| ensures |table[k]| > 0 && forall c <- table[k] :: Plain(c) {
      var x := if k == 0 then xs[0] else xs[k - 1];
      CellsPlain(format(x));
    }
    ParseRender(table);
  }

  /**
   * Header/record alignment: reading a DumpTsv file back, the cell of
   * element `i` in column `j` is that element's `j`-th member value, and the
   * header above it is that member's name.
   */
  lemma DumpReadBack<T>(xs: seq<T>, format: T -> Projected)
    requires |xs| > 0 && SameShape(xs, format)
    requires forall i :: 0 <= i < |xs| ==> PlainShape(format(xs[i])) && |format(xs[i]).fields| > 0
    ensures var t := ParseTable(Render(DumpTable(xs, format, false, true)));
      && |t| == |xs| + 1
      && forall i, j :: 0 <= i < |xs| && 0 <= j < |format(xs[i]).fields| ==>
           var f := format(xs[i]).fields[j];
           j < |t[0]| && j < |t[i + 1]| && t[0][j] == f.name && Read(KindOf(f.value), t[i + 1][j]) == f.value
  {
    var table := DumpTable(xs, format, false, true);
    DumpTablePlain(xs, format);
    forall i, j | 0 <= i < |xs| && 0 <= j < |format(xs[i]).fields|
      ensures j < |table[0]| && table[0][j] == format(xs[i]).fields[j].name
      ensures j < |table[i + 1]| && Read(KindOf(format(xs[i]).fields[j].value), table[i + 1][j]) == format(xs[i]).fields[j].value
    {
      var p := format(xs[i]);
      assert table[i + 1] == p.Cells();
      assert table[0] == format(xs[0]).Names() == p.Names();
      ReadShow(p.fields[j].value);
    }
  }

  /** WriteTsvRecord's text: the one record of its row. */
  lemma SingleRow(r: Row)
    ensures Render(WrittenTable([r], None)) == TsvLine(RowFields(r))
  {
    assert WrittenTable([r], None) == [RowFields(r)];
    RenderSnoc([], RowFields(r));
  }

  /** WriteTsvHeader's text: one record holding exactly the given names. */
  lemma HeaderRow(header: seq<string>)
    ensures Render(WrittenTable([Items(seq(|header|, i requires 0 <= i < |header| => VStr(header[i])))], None))
         == TsvLine(header)
  {
    var r := Items(seq(|header|, i requires 0 <= i < |header| => VStr(header[i])));
    assert RowFields(r) == header;
    WrittenTableSnoc([], r, None);
    assert [] + [r] == [r];
  }

  /** WriteTsv with a header writes that header line, then what WriteTsv without one writes. */
  lemma WrittenHeaderFirst(rows: seq<Row>, header: seq<string>)
    ensures Render(WrittenTable(rows, Some(header))) == TsvLine(header) + Render(WrittenTable(rows, None))
  {
    var body := RowRecords(rows);
    assert WrittenTable(rows, None) == body;
    RenderConcat([header], body);
    RenderSnoc([], header);
  }

  /** The values of a record projection, in member order. */
  function ValuesOf(p: Projected): seq<Value>
    requires p.Record?
  {
    seq(|p.fields|, i requires 0 <= i < |p.fields| => p.fields[i].value)
  }

  /**
   * WriteTsv with the first element's member names as its header and the
   * member values as its rows writes the same text as DumpTsv over the
   * records themselves, whether or not the elements share their members.
   */
  lemma WriteMatchesDump<T>(xs: seq<T>, format: T -> Projected)
    requires |xs| > 0 && forall i :: 0 <= i < |xs| ==> format(xs[i]).Record?
    ensures Render(WrittenTable(seq(|xs|, i requires 0 <= i < |xs| && format(xs[i]).Record? => Items(ValuesOf(format(xs[i])))),
                                Some(format(xs[0]).Names())))
         == Render(DumpTable(xs, format, false, true))
  {
    var rows := seq(|xs|, i requires 0 <= i < |xs| && format(xs[i]).Record? => Items(ValuesOf(format(xs[i]))));
    forall i | 0 <= i < |xs| ensures RowFields(rows[i]) == format(xs[i]).Cells() {
    }
    assert WrittenTable(rows, Some(format(xs[0]).Names())) == DumpTable(xs, format, false, true);
  }
}
