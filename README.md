# Surviveplus.Dumper in Dafny

A model of the dump library `Net.Surviveplus.Dump`. The library appends
a JSON or tab-separated dump of .NET objects to files under a dump folder.
The model has two parts.

- **The dump sink.** `Dumper.IsEnabled`, `Dumper.Folder` and the part of the
  filesystem the library touches are the fields of one `Dump.Dumper`
  object: `isEnabled`, `folder`, `files` (path to text) and `dirs`.
  - `GetDumpFile` names `folder/name+extension` and creates the folder only
    while dumping is enabled.
  - `WriteTextFile` is a guarded, append-only write.
  - Every dump method ends in the predicate `Dumped`. Either the writes went
    through, so the folder exists and exactly the dump's text was appended to
    its file with every other file unchanged, or nothing changed at all.
- **The projector.** This is the text each dump appends.
  - A `format` lambda maps an element to a `Projected` value: a scalar, or a
    record of named members in declaration order.
  - A TSV dump is specified as a table of records (`DumpTable`,
    `WrittenTable`), rendered by `Tsv.Render`. Fields are tab-joined and every
    record ends with `"\r\n"`.
  - The methods `DumpTsvText` and `WriteTsvText` build the same text the way
    the writer lambdas do, with the `isFirst` flag and the nested loops. They
    are proved equal to the table's rendering.
  - Beside the writer stands a reader (`Split`, `Lines`, `ParseTable`, `Read`).
    It is proved to recover every table of plain, non-empty records. For the
    header-on record dump (`DumpTablePlain`, `DumpReadBack`) it also recovers
    every cell value, so the header and the records of a dump line up.
  - JSON is a compact encoder for the scalar kinds the tests use. It is
    used only on projections that need no escaping (`JsonPlain`).
- **`ObjectExtensions`.** Each extension method makes one `Dumper` call with
  the defaults filled in. A null `format` becomes the object as it is, passed
  as the parameter `reflect`.
- **`Scenarios`.** Replays the unit tests of `ObjectExtensionsTest.cs` and
  `DumperTest.cs` as client methods and proves the exact text each test
  expects in its file.

## Model

| member | source | states |
|---|---|---|
| Dump.Dumper.constructor | Surviveplus.Dumper/Surviveplus.Dumper/Dumper.cs:20-26 | the initial `IsEnabled` and `Folder` (the application settings, given as parameters) and the filesystem as found |
| Dump.Dumper.SetEnabled | Surviveplus.Dumper/Surviveplus.Dumper/Dumper.cs:20 | setting `IsEnabled` changes that flag alone |
| Dump.Dumper.SetFolder | Surviveplus.Dumper/Surviveplus.Dumper/Dumper.cs:26 | setting `Folder` (null as None) changes that field alone |
| Dump.Dumper.GetDumpFile | Surviveplus.Dumper/Surviveplus.Dumper/Dumper.cs:52-64 | the file is `folder/name+extension` (extension `.txt` by default); the folder is added to the directories exactly when enabled, and nothing else changes |
| Dump.Appended | Surviveplus.Dumper/Surviveplus.Dumper/Dumper.cs:100-105 | FileMode.Append: the file exists afterwards and holds its old text (or nothing) followed by the new text; every other file keeps its text |
| Dump.AppendTwice | Surviveplus.Dumper/Surviveplus.Dumper/Dumper.cs:101 | two appends to one file equal one append of both texts: nothing is ever truncated |
| Dump.Dumper.WriteTextFile | Surviveplus.Dumper/Surviveplus.Dumper/Dumper.cs:94-107 | disabled, no folder or no action: files and directories are unchanged; otherwise the folder exists and exactly the action's text is appended to the dump file |
| Dump.Dumper.DumpJson | Surviveplus.Dumper/Surviveplus.Dumper/Dumper.cs:139-145 | for a projection with no text to escape, appends exactly the JSON of `format(target)` to `name.json`, with no line break, or changes nothing when writes do not go through |
| Dump.Dumper.DumpTsvHeader | Surviveplus.Dumper/Surviveplus.Dumper/Dumper.cs:181-193 | appends one line holding the member names of the projection, and no data |
| Dump.Dumper.DumpTsvRecord | Surviveplus.Dumper/Surviveplus.Dumper/Dumper.cs:233-236 | is DumpTsv of `[target]`: the header line if asked for, then the element's one record |
| Dump.Dumper.DumpTsv | Surviveplus.Dumper/Surviveplus.Dumper/Dumper.cs:276-314 | appends the rendering of `DumpTable`: the first projection's header when `writeHeader`, then one record per element in order; the file is opened even for an empty sequence |
| Dump.Dumper.WriteTsvHeader | Surviveplus.Dumper/Surviveplus.Dumper/Dumper.cs:328-331 | WriteTsv of the single row `header` appends exactly the line of those names |
| Dump.Dumper.WriteTsvRecord | Surviveplus.Dumper/Surviveplus.Dumper/Dumper.cs:349-352 | WriteTsv of the single row `values` appends exactly that row's line |
| Dump.Dumper.WriteTsv | Surviveplus.Dumper/Surviveplus.Dumper/Dumper.cs:380-416 | appends the rendering of `WrittenTable`: the header line when one is given, then one line per row |
| Projection.WriteFields | Surviveplus.Dumper/Surviveplus.Dumper/Dumper.cs:390-394 | a WriteField per field with the delimiter between fields, then NextRecord, produce `TsvLine(fields)` |
| Projection.DumpTsvText | Surviveplus.Dumper/Surviveplus.Dumper/Dumper.cs:283-311 | the `isFirst` loop writes exactly `Render(DumpTable(...))`: the header only before the first element |
| Projection.WriteRow | Surviveplus.Dumper/Surviveplus.Dumper/Dumper.cs:399-411 | a string row is one field; any other row is one field per value |
| Projection.WriteTsvText | Surviveplus.Dumper/Surviveplus.Dumper/Dumper.cs:388-413 | the header loop and the nested row loops write exactly `Render(WrittenTable(...))` |
| Projection.DumpStep | Surviveplus.Dumper/Surviveplus.Dumper/Dumper.cs:284-309 | each element adds its record, preceded by the header exactly when it is the first and `writeHeader` holds |
| Projection.DumpEmpty | Surviveplus.Dumper/Surviveplus.Dumper/Dumper.cs:283-311 | an empty sequence dumps no text, not even a header |
| Projection.DumpSingle | Surviveplus.Dumper/Surviveplus.Dumper/Dumper.cs:233-236 | the dump of `[x]` is the optional header line followed by x's record |
| Projection.DumpHeaderFirst | Surviveplus.Dumper/Surviveplus.Dumper/Dumper.cs:287-300 | a dump with header is the first element's header line followed by the same dump without header |
| Projection.DumpConcat | Surviveplus.Dumper/Surviveplus.Dumper.Test/ObjectExtensionsTest.cs:67-71 | header-less dumps of two sequences, one after the other, write the dump of their concatenation: record-by-record calls accumulate what one DumpTsv writes |
| Projection.StringDumpTable | Surviveplus.Dumper/Surviveplus.Dumper/Dumper.cs:291-294 | for string elements the header is the literal `string` and each element is a single field |
| Projection.CellsPlain | Surviveplus.Dumper/Surviveplus.Dumper/Dumper.cs:297-307 | every name and cell of a plain projection is written verbatim |
| Projection.DumpTablePlain | Surviveplus.Dumper/Surviveplus.Dumper/Dumper.cs:280-311 | reading a header-on DumpTsv text of plain, non-empty records gives back the table of header and records |
| Projection.DumpReadBack | Surviveplus.Dumper/Surviveplus.Dumper/Dumper.cs:297-307 | read back, column j of element i's record holds its j-th member value, under the header of that member's name |
| Projection.SingleRow | Surviveplus.Dumper/Surviveplus.Dumper/Dumper.cs:349-352 | the one-row table without a header renders as that row's line |
| Projection.HeaderRow | Surviveplus.Dumper/Surviveplus.Dumper/Dumper.cs:328-331 | the names written as a row render as the line of exactly those names |
| Projection.WrittenEmpty | Surviveplus.Dumper/Surviveplus.Dumper/Dumper.cs:388-395 | before any row only the header line, if given, has been written, so a header is written even with no rows |
| Projection.WrittenStep | Surviveplus.Dumper/Surviveplus.Dumper/Dumper.cs:397-413 | each row adds exactly its line |
| Projection.WrittenHeaderFirst | Surviveplus.Dumper/Surviveplus.Dumper/Dumper.cs:388-395 | WriteTsv with a header writes that line, then what WriteTsv without a header writes |
| Projection.WriteMatchesDump | Surviveplus.Dumper/Surviveplus.Dumper.Test/ObjectExtensionsTest.cs:118-133 | WriteTsv with the first element's member names as header and the member values as rows writes what DumpTsv writes for the records, whatever members the later elements have |
| Tsv.SplitJoin | Surviveplus.Dumper/Surviveplus.Dumper/Dumper.cs:280 | splitting a record at the tab delimiter recovers its fields |
| Tsv.LinesRender | Surviveplus.Dumper/Surviveplus.Dumper/Dumper.cs:309 | every NextRecord ends one line: the reader finds one line per record |
| Tsv.ParseRender | Surviveplus.Dumper/Surviveplus.Dumper/Dumper.cs:280-311 | a table of plain, non-empty records is read back exactly from its TSV text |
| Tsv.RenderConcat | Surviveplus.Dumper/Surviveplus.Dumper/Dumper.cs:101 | writing two tables one after the other writes the concatenated table |
| Values.Digits | Surviveplus.Dumper/Surviveplus.Dumper.Test/ObjectExtensionsTest.cs:65 | an integer cell is decimal digits without leading zeros |
| Values.DecimalRoundTrip | Surviveplus.Dumper/Surviveplus.Dumper.Test/ObjectExtensionsTest.cs:65 | the decimal text of every integer reads back as that integer |
| Values.ReadShow | Surviveplus.Dumper/Surviveplus.Dumper.Test/ObjectExtensionsTest.cs:65 | every cell (decimal, `True`/`False`, string) reads back as the value it was written from |
| Values.ShowPlain | Surviveplus.Dumper/Surviveplus.Dumper/Dumper.cs:307 | integers and booleans always make verbatim cells; a string does exactly when it is plain |
| ObjectExtensions.DumpJson | Surviveplus.Dumper/Surviveplus.Dumper/ObjectExtensions.cs:33-36 | a null format dumps the object itself; a given format is passed through |
| ObjectExtensions.DumpTsvHeader | Surviveplus.Dumper/Surviveplus.Dumper/ObjectExtensions.cs:45-48 | the header of the object itself, or of the given format's projection |
| ObjectExtensions.DumpTsvRecord | Surviveplus.Dumper/Surviveplus.Dumper/ObjectExtensions.cs:58-61 | the identity format by default, and no header unless `writeHeader` is given |
| ObjectExtensions.DumpTsv | Surviveplus.Dumper/Surviveplus.Dumper/ObjectExtensions.cs:71-74 | the identity format by default, and a header unless `writeHeader` is false |
| ObjectExtensions.WriteTsvHeader | Surviveplus.Dumper/Surviveplus.Dumper/ObjectExtensions.cs:82-85 | the receiver becomes the header line |
| ObjectExtensions.WriteTsvRecord | Surviveplus.Dumper/Surviveplus.Dumper/ObjectExtensions.cs:93-96 | the receiver becomes one record |
| ObjectExtensions.WriteTsv | Surviveplus.Dumper/Surviveplus.Dumper/ObjectExtensions.cs:98-101 | no header by default, so only the data lines are written |
| Scenarios.SampleLines | Surviveplus.Dumper/Surviveplus.Dumper.Test/ObjectExtensionsTest.cs:61-65 | the sample objects and the sample rows give the lines `A\tB\tC`, `1\tTrue\tSample1`, and so on |
| Scenarios.DumpThree | Surviveplus.Dumper/Surviveplus.Dumper/Dumper.cs:283-311 | three elements dump as the optional header and their three lines |
| Scenarios.WrittenThree | Surviveplus.Dumper/Surviveplus.Dumper/Dumper.cs:388-413 | three rows write as the optional header and their three lines |
| Scenarios.DumpTsvSample | Surviveplus.Dumper/Surviveplus.Dumper.Test/ObjectExtensionsTest.cs:84-104 | `sample.DumpTsv(name, a => a)` writes exactly the expected header and three records |
| Scenarios.WriteTsvSample | Surviveplus.Dumper/Surviveplus.Dumper.Test/ObjectExtensionsTest.cs:138-159 | `sample.WriteTsv(name)` writes exactly the three data lines |
| Scenarios.JsonSampleText | Surviveplus.Dumper/Surviveplus.Dumper.Test/ObjectExtensionsTest.cs:19-27 | the sample object's JSON is `{"A":10,"B":true,"C":"Sample"}` |
| Scenarios.SelectAC | Surviveplus.Dumper/Surviveplus.Dumper.Test/ObjectExtensionsTest.cs:37-42 | the format `a => new { a.A, a.C }` gives the object `new { A = 10, C = "Sample" }` the test compares with |
| Scenarios.GetDumpFileTwice | Surviveplus.Dumper/Surviveplus.Dumper/Dumper.cs:52-64 | asking twice gives the same file and adds the folder at most once |

The client methods of `Scenarios` replay the tests. `DumpTsvTest`,
`DumpTsvHeaderRecordTest`, `WriteTsvHeaderRecordTest`, `WriteTsvTest` and
`DumpJsonTest` drive an enabled `Dumper` through the extension methods and
assert the file text each test expects. `IsEnabledTest` replays
`DumperTest.cs`. `DisabledTest` checks that a disabled dumper creates and
writes nothing.

## Left out

- `ToJson` (`ObjectExtensions.cs:21-24`) calls Json.NET, which is not part of this model. `Projection.Json` is a compact encoder for integers, booleans and strings. It knows no other value kinds and has no nested objects. It does no escaping, so it agrees with Json.NET only on `JsonPlain` projections: no quote, backslash, character below space, NEL (U+0085), U+2028 or U+2029 in a name or string value.
- Dump.Dumper.DumpJson: requires `JsonPlain(format(target))` while writes go through, and so does `ObjectExtensions.DumpJson`. Dumps of text that Json.NET would escape are not modelled.
- Tsv.ParseRender: the reader needs every record to be non-empty. A record with no fields is rendered as a bare line break, which reads back as one empty field. The writer side (`DumpTsvText`, `WriteTsvText`, `Render`) has no such limit.
- CsvHelper's quoting and escaping are not modelled. Every dump method requires plain names and cells while writes go through. A plain field holds no tab, quote, CR or LF, and has no leading or trailing space. CsvHelper would quote such fields, and its rules for that are not visible here.
- CsvHelper's reflection over `v.GetType()` is not modelled. A projection lists its members explicitly, and `reflect` stands for the object as the serializers see it.
- Dump.Dumper.DumpTsv: the `typeof(T) == typeof(string)` test becomes the parameter `elementIsString`. Each projection is required to be a scalar exactly when the elements are strings. How CsvHelper writes a scalar projection of a non-string element as a record, or a string element whose projection is a record (an object), is not modelled. Integer and boolean projections of string elements are modelled and written as their cell text.
- Dump.Dumper.DumpTsvHeader: requires a record projection while writes go through. `WriteHeader` of a scalar type is CsvHelper behaviour that is not visible here. Unlike `DumpTsv`, this method has no `string` special case in `Dumper.cs:181-193`, and the model follows the code.
- Real filesystem details are abstracted to a map from paths to text and a set of directories. This covers `FileStream`, `StreamWriter`, UTF-8 encoding and its byte-order mark, `Path.Combine` and `FullName` normalisation, and the creation of parent directories above the dump folder. Names are taken to contain no path separators.
- Settings loading (`Properties.Settings.Default`, `Dumper.cs:20, 26`) is replaced by the constructor's parameters.
- Exceptions are not modelled. I/O failures, a `format` that returns null in the TSV dumps (`v.GetType()` and `WriteRecord` throw), and a null `Folder` in `GetDumpFile` are left out. The last one is a precondition of `GetDumpFile`.
- Dump.Dumper.DumpJson: a `format` that returns null is not modelled. There it is no exception: `ToJson` is an extension method, so Json.NET writes the text `null`. A `Projected` value is never null.
- Values.Show: the TSV cell text is the `ToString` of the culture the tests run under. The CsvHelper configuration sets no culture, so under another culture the sign of a negative integer or other number formatting could differ. That culture dependence is not modelled.
- The static state is shared and unsynchronised in the source. Concurrent dumps are not modelled.
- `format` is a pure total function here. "A disabled dump never evaluates `format`" is modelled by applying `format` only under the same guard that `WriteTextFile` checks. Its evaluation has no observable effect in the model.
- Test scaffolding (`TestContext`, `Debug.WriteLine`) is not modelled. The app-config default check in `DumperTest.cs:11-18` depends on the settings file and is also left out.
