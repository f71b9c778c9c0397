/**
 * The unit tests of ObjectExtensionsTest.cs, stated on the model: the
 * sample objects, the text each test expects in its dump file, and client
 * methods that drive a `Dumper` through the same calls.
 */
module Scenarios {
  import opened Wrappers
  import opened Tsv
  import opened Values
  import opened Projection
  import opened Dump
  import ObjectExtensions

  /** `new { A = i, B = true, C = "Sample" + i }`. */
  function Sample(i: int, c: string): Projected {
    Record([Field("A", VInt(i)), Field("B", VBool(true)), Field("C", VStr(c))])
  }

  /** The three samples the TSV tests dump. */
  function Samples(): seq<Projected> {
    [Sample(1, "Sample1"), Sample(2, "Sample2"), Sample(3, "Sample3")]
  }

  /** `object[] { i, true, "Sample" + i }`. */
  function SampleRow(i: int, c: string): Row {
    Items([VInt(i), VBool(true), VStr(c)])
  }

  function SampleRows(): seq<Row> {
    [SampleRow(1, "Sample1"), SampleRow(2, "Sample2"), SampleRow(3, "Sample3")]
  }

  /** `a => a`, and the view of an anonymous object that is already a projection. */
  function AsIs(p: Projected): Projected {
    p
  }

  /**
   * `a => new { a.N1, a.N2, ... }`: an anonymous object whose members are
   * the listed members of `p`, in the order the initializer lists them.
   */
  function Select(p: Projected, names: seq<string>): Projected {
    match p
    case Scalar(_) => p
    case Record(fs) => Record(Pick(fs, names))
  }

  function Pick(fs: seq<Field>, names: seq<string>): seq<Field> {
    if names == [] then [] else MemberNamed(fs, names[0]) + Pick(fs, names[1..])
  }

  /** The member named `n`, when `fs` has one. */
  function MemberNamed(fs: seq<Field>, n: string): seq<Field> {
    if fs == [] then [] else if fs[0].name == n then [fs[0]] else MemberNamed(fs[1..], n)
  }

  const HEADER_LINE := "A\tB\tC\r\n"
  const LINE_1 := "1\tTrue\tSample1\r\n"
  const LINE_2 := "2\tTrue\tSample2\r\n"
  const LINE_3 := "3\tTrue\tSample3\r\n"
  const EXPECTED_TSV := HEADER_LINE + LINE_1 + LINE_2 + LINE_3

  lemma SmallDecimals()
    ensures DecimalText(1) == "1" && DecimalText(2) == "2" && DecimalText(3) == "3"
    ensures DecimalText(10) == "10"
  {
    assert Digits(10) == Digits(1) + [DigitChar(0)];
  }

  /** A record of three fields. */
  lemma Line3(a: string, b: string, c: string)
    ensures TsvLine([a, b, c]) == a + "\t" + b + "\t" + c + "\r\n"
  {
    assert [a, b, c][..2] == [a, b];
    assert [a, b][..1] == [a];
    assert Join([a]) == a;
    assert Join([a, b]) == a + "\t" + b;
    assert Join([a, b, c]) == Join([a, b]) + "\t" + c;
  }

  /** The cells of a sample object and of a sample row are the same three fields. */
  lemma SampleCells(i: int, c: string)
    ensures Sample(i, c).Names() == ["A", "B", "C"]
    ensures Sample(i, c).Cells() == RowFields(SampleRow(i, c)) == [DecimalText(i), "True", c]
  {
  }

  /** The data line of a sample, written from the object or from the row. */
  lemma SampleLine(i: int, c: string)
    ensures TsvLine(Sample(i, c).Cells()) == TsvLine(RowFields(SampleRow(i, c)))
         == DecimalText(i) + "\t" + "True" + "\t" + c + "\r\n"
  {
    SampleCells(i, c);
    Line3(DecimalText(i), "True", c);
  }

  lemma HeaderText()
    ensures TsvLine(["A", "B", "C"]) == HEADER_LINE
  {
    Line3("A", "B", "C");
  }

  lemma Line1Text()
    ensures TsvLine(Samples()[0].Cells()) == TsvLine(RowFields(SampleRows()[0])) == LINE_1
  {
    SmallDecimals();
    SampleLine(1, "Sample1");
  }

  lemma Line2Text()
    ensures TsvLine(Samples()[1].Cells()) == TsvLine(RowFields(SampleRows()[1])) == LINE_2
  {
    SmallDecimals();
    SampleLine(2, "Sample2");
  }

  lemma Line3Text()
    ensures TsvLine(Samples()[2].Cells()) == TsvLine(RowFields(SampleRows()[2])) == LINE_3
  {
    SmallDecimals();
    SampleLine(3, "Sample3");
  }

  /** The header line and the data line of each sample. */
  lemma SampleLines()
    ensures TsvLine(Samples()[0].Names()) == TsvLine(["A", "B", "C"]) == HEADER_LINE
    ensures TsvLine(Samples()[0].Cells()) == TsvLine(RowFields(SampleRows()[0])) == LINE_1
    ensures TsvLine(Samples()[1].Cells()) == TsvLine(RowFields(SampleRows()[1])) == LINE_2
    ensures TsvLine(Samples()[2].Cells()) == TsvLine(RowFields(SampleRows()[2])) == LINE_3
  {
    SampleCells(1, "Sample1");
    HeaderText();
    Line1Text();
    Line2Text();
    Line3Text();
  }

  lemma PlainSample(i: int, c: string)
    requires Plain(c)
    ensures PlainShape(Sample(i, c)) && PlainRow(SampleRow(i, c))
  {
  }

  /** The samples are plain, records, and all of the first one's shape. */
  lemma SamplesShape()
    ensures SameShape(Samples(), AsIs)
    ensures forall i :: 0 <= i < 3 ==> PlainShape(Samples()[i]) && Fits(Samples()[i], false)
    ensures forall r <- SampleRows() :: PlainRow(r)
  {
    SampleCells(1, "Sample1");
    SampleCells(2, "Sample2");
    SampleCells(3, "Sample3");
    PlainSample(1, "Sample1");
    PlainSample(2, "Sample2");
    PlainSample(3, "Sample3");
  }

  /*
   * Chain3, DumpChain3 and JsonSampleLiteral are steps on strings alone:
   * kept apart from the lemmas about tables and JSON, the solver meets the
   * literal concatenations without the table definitions in scope.
   */

  /** Three appends after a start `r0`. */
  lemma Chain3(r0: string, r1: string, r2: string, r3: string, a: string, b: string, c: string)
    requires r1 == r0 + a && r2 == r1 + b && r3 == r2 + c
    ensures r3 == r0 + a + b + c
  {
  }

  /** Three dump steps from an empty start: the header, if any, comes with the first line only. */
  lemma DumpChain3(r0: string, r1: string, r2: string, r3: string, h: string, a: string, b: string, c: string)
    requires r0 == "" && r1 == r0 + h + a && r2 == r1 + "" + b && r3 == r2 + "" + c
    ensures r3 == h + a + b + c
  {
    assert r1 == h + a;
    assert r2 == r1 + b;
  }

  /** The dump of three elements: the optional header, then their three lines. */
  lemma DumpThree<T>(xs: seq<T>, format: T -> Projected, writeHeader: bool)
    requires |xs| == 3
    ensures Render(DumpTable(xs, format, false, writeHeader))
         == (if writeHeader then TsvLine(HeaderFields(format(xs[0]), false)) else "")
            + TsvLine(format(xs[0]).Cells()) + TsvLine(format(xs[1]).Cells()) + TsvLine(format(xs[2]).Cells())
  {
    assert xs[..0] == [];
    assert xs[..3] == xs;
    DumpEmpty(format, false, writeHeader);
    DumpStep(xs, 0, format, false, writeHeader);
    DumpStep(xs, 1, format, false, writeHeader);
    DumpStep(xs, 2, format, false, writeHeader);
    DumpChain3(Render(DumpTable(xs[..0], format, false, writeHeader)),
               Render(DumpTable(xs[..1], format, false, writeHeader)),
               Render(DumpTable(xs[..2], format, false, writeHeader)),
               Render(DumpTable(xs[..3], format, false, writeHeader)),
               if writeHeader then TsvLine(HeaderFields(format(xs[0]), false)) else "",
               TsvLine(format(xs[0]).Cells()), TsvLine(format(xs[1]).Cells()), TsvLine(format(xs[2]).Cells()));
  }

  /** What WriteTsv writes for three rows: the optional header, then their three lines. */
  lemma WrittenThree(rows: seq<Row>, header: Option<seq<string>>)
    requires |rows| == 3
    ensures Render(WrittenTable(rows, header))
         == (if header.Some? then TsvLine(header.value) else "")
            + TsvLine(RowFields(rows[0])) + TsvLine(RowFields(rows[1])) + TsvLine(RowFields(rows[2]))
  {
    assert rows[..3] == rows;
    WrittenEmpty(rows, header);
    WrittenStep(rows, 0, header);
    WrittenStep(rows, 1, header);
    WrittenStep(rows, 2, header);
    Chain3(Render(WrittenTable(rows[..0], header)), Render(WrittenTable(rows[..1], header)),
           Render(WrittenTable(rows[..2], header)), Render(WrittenTable(rows[..3], header)),
           TsvLine(RowFields(rows[0])), TsvLine(RowFields(rows[1])), TsvLine(RowFields(rows[2])));
  }

  /** TestExtensionsMethod_DumpTsv_anonymous: the header, then the three records. */
  lemma DumpTsvSample()
    ensures Render(DumpTable(Samples(), AsIs, false, true)) == EXPECTED_TSV
  {
    DumpThree(Samples(), AsIs, true);
    SampleLines();
  }

  /** TestExtensionsMethod_WriteTsv_anonymous: no header argument, so only the data lines. */
  lemma WriteTsvSample()
    ensures Render(WrittenTable(SampleRows(), None)) == LINE_1 + LINE_2 + LINE_3
  {
    WrittenThree(SampleRows(), None);
    SampleLines();
  }

  /** `new { A = 10, B = true, C = "Sample" }`. */
  function JsonSample(): Projected {
    Record([Field("A", VInt(10)), Field("B", VBool(true)), Field("C", VStr("Sample"))])
  }

  /** `new { A = 10, C = "Sample" }`, the object the formatted dump is compared with. */
  function FormattedSample(): Projected {
    Record([Field("A", VInt(10)), Field("C", VStr("Sample"))])
  }

  /** A record of three members, compact. */
  lemma JsonOfThree(f: Field, g: Field, h: Field)
    ensures Json(Record([f, g, h])) == "{" + (JsonMember(f) + "," + JsonMember(g) + "," + JsonMember(h)) + "}"
  {
    assert [f, g, h][..2] == [f, g];
    assert [f, g][..1] == [f];
    assert JsonMembers([f]) == JsonMember(f);
    assert JsonMembers([f, g]) == JsonMember(f) + "," + JsonMember(g);
  }

  lemma SampleMembers()
    ensures JsonMember(JsonSample().fields[0]) == "\"A\":10"
    ensures JsonMember(JsonSample().fields[1]) == "\"B\":true"
    ensures JsonMember(JsonSample().fields[2]) == "\"C\":\"Sample\""
  {
    SmallDecimals();
  }

  lemma JsonSampleLiteral()
    ensures "{" + ("\"A\":10" + "," + "\"B\":true" + "," + "\"C\":\"Sample\"") + "}"
         == "{\"A\":10,\"B\":true,\"C\":\"Sample\"}"
  {
  }

  /** TesExtensiontsMethod_ToJson_anonymous: the members in declaration order, compact. */
  lemma JsonSampleText()
    ensures Json(JsonSample()) == "{\"A\":10,\"B\":true,\"C\":\"Sample\"}"
  {
    var fs := JsonSample().fields;
    JsonOfThree(fs[0], fs[1], fs[2]);
    assert JsonSample() == Record([fs[0], fs[1], fs[2]]);
    SampleMembers();
    JsonSampleLiteral();
  }

  /** The JSON test objects need no escaping. */
  lemma JsonSamplePlain()
    ensures JsonPlain(JsonSample()) && JsonPlain(FormattedSample())
  {
    assert forall c <- "Sample" :: c in "Sample";
  }

  /** `a => new { a.A, a.C }` keeps A and C, in that order. */
  lemma SelectAC()
    ensures Select(JsonSample(), ["A", "C"]) == FormattedSample()
  {
    var fs := JsonSample().fields;
    assert MemberNamed(fs, "A") == [fs[0]];
    assert MemberNamed(fs[2..], "C") == [fs[2]];
    assert MemberNamed(fs, "C") == [fs[2]];
    assert Pick(fs, ["C"]) == [fs[2]];
  }

  /** `a => new { a.C, a.A }` lists C first: the initializer, not the source type, orders the members. */
  lemma SelectCA()
    ensures Select(JsonSample(), ["C", "A"]) == Record([Field("C", VStr("Sample")), Field("A", VInt(10))])
  {
    var fs := JsonSample().fields;
    assert MemberNamed(fs, "A") == [fs[0]];
    assert MemberNamed(fs[2..], "C") == [fs[2]];
    assert MemberNamed(fs, "C") == [fs[2]];
    assert Pick(fs, ["A"]) == [fs[0]];
  }

  /** The DumpTsv test, driven through the extension method on an enabled dumper. */
  method DumpTsvTest() {
    var d := new Dumper(true, Some("TestResults/dump"), map[], {});
    var name := "TestExtensionsMethod_DumpTsv_anonymous";
    SamplesShape();
    ObjectExtensions.DumpTsv(d, Samples(), name, AsIs, false, Some(AsIs));
    var f := d.GetDumpFile(name, ".tsv");
    DumpTsvSample();
    assert f in d.files && d.files[f] == EXPECTED_TSV;
  }

  /** One DumpTsvRecord call (no header) on a file that holds `text` appends the record's line. */
  method AppendRecord(d: Dumper, x: Projected, name: string, f: FilePath, ghost text: string)
    requires d.Active() && f == FilePath(d.folder.value, name + ".tsv")
    requires d.files == map[f := text]
    requires Fits(x, false) && PlainShape(x)
    modifies d`files, d`dirs
    ensures d.Active() && d.folder == old(d.folder)
    ensures d.files == map[f := text + TsvLine(x.Cells())]
  {
    ghost var files0, dirs0 := d.files, d.dirs;
    ObjectExtensions.DumpTsvRecord(d, x, name, AsIs, false, Some(AsIs));
    ghost var piece := (if false then TsvLine(HeaderFields(x, false)) else "") + TsvLine(x.Cells());
    assert d.Dumped(files0, dirs0, name, ".tsv", piece);
    assert piece == TsvLine(x.Cells());
  }

  /** The text after `i + 1` records is the text after `i` and one more line. */
  lemma AppendStep(text: string, xs: seq<Projected>, i: nat)
    requires i < |xs|
    ensures text + Render(DumpTable(xs[..i + 1], AsIs, false, false))
         == (text + Render(DumpTable(xs[..i], AsIs, false, false))) + TsvLine(xs[i].Cells())
  {
    DumpStep(xs, i, AsIs, false, false);
    assert AsIs(xs[i]) == xs[i];
    var done := Render(DumpTable(xs[..i], AsIs, false, false));
    var line := TsvLine(xs[i].Cells());
    assert Render(DumpTable(xs[..i + 1], AsIs, false, false)) == done + line;
    assert (text + done) + line == text + (done + line);
  }

  /** DumpTsvRecord on each element in turn appends the header-less dump of the sequence. */
  method AppendRecords(d: Dumper, xs: seq<Projected>, name: string, f: FilePath, ghost text: string)
    requires d.Active() && f == FilePath(d.folder.value, name + ".tsv")
    requires d.files == map[f := text]
    requires forall i :: 0 <= i < |xs| ==> Fits(xs[i], false) && PlainShape(xs[i])
    modifies d`files, d`dirs
    ensures d.files == map[f := text + Render(DumpTable(xs, AsIs, false, false))]
  {
    assert xs[..0] == [];
    DumpEmpty(AsIs, false, false);
    assert text + Render(DumpTable(xs[..0], AsIs, false, false)) == text;
    for i := 0 to |xs|
      invariant d.Active() && d.folder == old(d.folder)
      invariant d.files == map[f := text + Render(DumpTable(xs[..i], AsIs, false, false))]
    {
      AppendRecord(d, xs[i], name, f, text + Render(DumpTable(xs[..i], AsIs, false, false)));
      AppendStep(text, xs, i);
    }
    assert xs[..|xs|] == xs;
  }

  /** The DumpTsvHeader/DumpTsvRecord test: the file accumulates the same text. */
  method DumpTsvHeaderRecordTest() {
    var d := new Dumper(true, Some("TestResults/dump"), map[], {});
    var name := "TestExtensionsMethods_DumpTsvHeader_DumpTsvRecord_anonymous";
    var f := FilePath("TestResults/dump", name + ".tsv");
    var xs := Samples();
    SamplesShape();
    ObjectExtensions.DumpTsvHeader(d, xs[0], name, AsIs, Some(AsIs));
    assert d.files == map[f := TsvLine(xs[0].Names())];
    AppendRecords(d, xs, name, f, TsvLine(xs[0].Names()));
    DumpHeaderFirst(xs, AsIs, false);
    DumpTsvSample();
    assert d.files[f] == EXPECTED_TSV;
  }

  /** One WriteTsvRecord call on a file that holds `text` appends the row's line. */
  method AppendRow(d: Dumper, r: Row, name: string, f: FilePath, ghost text: string)
    requires d.Active() && f == FilePath(d.folder.value, name + ".tsv")
    requires d.files == map[f := text]
    requires PlainRow(r)
    modifies d`files, d`dirs
    ensures d.Active() && d.folder == old(d.folder)
    ensures d.files == map[f := text + TsvLine(RowFields(r))]
  {
    ObjectExtensions.WriteTsvRecord(d, r, name);
  }

  /** The WriteTsvHeader/WriteTsvRecord test. */
  method WriteTsvHeaderRecordTest() {
    var d := new Dumper(true, Some("TestResults/dump"), map[], {});
    var name := "TestExtensionsMethods_WriteTsvHeader_WriteTsvRecord_anonymous";
    var f := FilePath("TestResults/dump", name + ".tsv");
    var rows := SampleRows();
    SamplesShape();
    ObjectExtensions.WriteTsvHeader(d, ["A", "B", "C"], name);
    assert d.files == map[f := TsvLine(["A", "B", "C"])];
    AppendRow(d, rows[0], name, f, TsvLine(["A", "B", "C"]));
    AppendRow(d, rows[1], name, f, TsvLine(["A", "B", "C"]) + TsvLine(RowFields(rows[0])));
    AppendRow(d, rows[2], name, f,
              TsvLine(["A", "B", "C"]) + TsvLine(RowFields(rows[0])) + TsvLine(RowFields(rows[1])));
    SampleLines();
    assert d.files[f] == EXPECTED_TSV;
  }

  /** The WriteTsv test: only data lines. */
  method WriteTsvTest() {
    var d := new Dumper(true, Some("TestResults/dump"), map[], {});
    var name := "TestExtensionsMethod_WriteTsv_anonymous";
    SamplesShape();
    ObjectExtensions.WriteTsv(d, SampleRows(), name);
    var f := d.GetDumpFile(name, ".tsv");
    WriteTsvSample();
    assert f in d.files && d.files[f] == LINE_1 + LINE_2 + LINE_3;
  }

  /** The DumpJson test with a selecting format: the file holds the JSON of the formatted object, with no line break. */
  method DumpJsonTest() {
    var d := new Dumper(true, Some("TestResults/dump"), map[], {});
    var name := "TestExtensionsMethod_DumpJson_anonymousWithFormat";
    var selectAC := p => Select(p, ["A", "C"]);
    assert selectAC(JsonSample()) == Select(JsonSample(), ["A", "C"]);
    SelectAC();
    JsonSamplePlain();
    ObjectExtensions.DumpJson(d, JsonSample(), name, AsIs, Some(selectAC));
    var f := d.GetDumpFile(name, ".json");
    assert f in d.files && d.files[f] == Json(FormattedSample());
  }

  /** Test_IsEnabled_ValueCanBeChangeed: the flag takes each value it is set to, and only the flag changes. */
  method IsEnabledTest() {
    var d := new Dumper(true, Some("TestResults/dump"), map[], {});
    assert d.isEnabled;
    d.SetEnabled(true);
    assert d.isEnabled;
    d.SetEnabled(false);
    assert !d.isEnabled && d.folder == Some("TestResults/dump");
    d.SetEnabled(true);
    assert d.isEnabled;
    d.SetEnabled(false);
    assert !d.isEnabled && d.files == map[] && d.dirs == {};
  }

  /** Asking for the same dump file twice gives the same path, and the folder is added once at most. */
  method GetDumpFileTwice(d: Dumper, name: string) returns (first: FilePath, second: FilePath)
    requires d.folder.Some?
    modifies d`dirs
    ensures first == second == FilePath(d.folder.value, name + ".txt")
    ensures d.dirs == if d.isEnabled then old(d.dirs) + {d.folder.value} else old(d.dirs)
  {
    first := d.GetDumpFile(name);
    second := d.GetDumpFile(name);
  }

  /** With output disabled, nothing is created or written, whatever is dumped. */
  method DisabledTest() {
    var d := new Dumper(false, Some("TestResults/dump"), map[], {});
    ObjectExtensions.DumpJson(d, JsonSample(), "disabled", AsIs);
    ObjectExtensions.DumpTsv(d, Samples(), "disabled", AsIs, false);
    ObjectExtensions.WriteTsv(d, SampleRows(), "disabled", Some(["A", "B", "C"]));
    var f := d.GetDumpFile("disabled");
    assert f == FilePath("TestResults/dump", "disabled.txt");
    assert d.files == map[] && d.dirs == {};
  }
}
