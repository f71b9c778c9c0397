/**
 * The extension methods of `ObjectExtensions`: each makes one `Dumper`
 * call, supplying the defaults. A null `format` becomes `a => a`, which
 * dumps the object as it is; `reflect` is that object as the serializers
 * see it (its public members in declaration order).
 */
module ObjectExtensions {
  import opened Wrappers
  import opened Tsv
  import opened Projection
  import opened Dump

  /** `format == null ? a => a : format`. */
  function FormatOrSelf<T>(format: Option<T -> Projected>, reflect: T -> Projected): T -> Projected {
    if format.Some? then format.value else reflect
  }

  method DumpJson<T>(d: Dumper, me: T, name: string, reflect: T -> Projected, format: Option<T -> Projected> := None)
    requires d.Active() ==> JsonPlain(FormatOrSelf(format, reflect)(me))
    modifies d`files, d`dirs
    ensures format.None? ==> d.Dumped(old(d.files), old(d.dirs), name, ".json", Json(reflect(me)))
    ensures format.Some? ==> d.Dumped(old(d.files), old(d.dirs), name, ".json", Json(format.value(me)))
  {
    d.DumpJson(me, name, FormatOrSelf(format, reflect));
  }

  method DumpTsvHeader<T>(d: Dumper, me: T, name: string, reflect: T -> Projected, format: Option<T -> Projected> := None)
    requires d.Active() ==> FormatOrSelf(format, reflect)(me).Record? && PlainShape(FormatOrSelf(format, reflect)(me))
    modifies d`files, d`dirs
    ensures format.None? ==> d.Dumped(old(d.files), old(d.dirs), name, ".tsv", TsvLine(reflect(me).Names()))
    ensures format.Some? ==> d.Dumped(old(d.files), old(d.dirs), name, ".tsv", TsvLine(format.value(me).Names()))
  {
    d.DumpTsvHeader(me, name, FormatOrSelf(format, reflect));
  }

  /** Without a header unless `writeHeader` is given. */
  method DumpTsvRecord<T>(d: Dumper, me: T, name: string, reflect: T -> Projected, elementIsString: bool,
                          format: Option<T -> Projected> := None, writeHeader: bool := false)
    requires d.Active() ==> Fits(FormatOrSelf(format, reflect)(me), elementIsString)
                            && PlainShape(FormatOrSelf(format, reflect)(me))
    modifies d`files, d`dirs
    ensures format.None? ==> d.Dumped(old(d.files), old(d.dirs), name, ".tsv",
                                      (if writeHeader then TsvLine(HeaderFields(reflect(me), elementIsString)) else "")
                                      + TsvLine(reflect(me).Cells()))
    ensures format.Some? ==> d.Dumped(old(d.files), old(d.dirs), name, ".tsv",
                                      (if writeHeader then TsvLine(HeaderFields(format.value(me), elementIsString)) else "")
                                      + TsvLine(format.value(me).Cells()))
  {
    d.DumpTsvRecord(me, name, FormatOrSelf(format, reflect), elementIsString, writeHeader);
  }

  /** With a header unless `writeHeader` is false. */
  method DumpTsv<T>(d: Dumper, me: seq<T>, name: string, reflect: T -> Projected, elementIsString: bool,
                    format: Option<T -> Projected> := None, writeHeader: bool := true)
    requires d.Active() ==> forall i :: 0 <= i < |me| ==>
                              Fits(FormatOrSelf(format, reflect)(me[i]), elementIsString)
                              && PlainShape(FormatOrSelf(format, reflect)(me[i]))
    modifies d`files, d`dirs
    ensures format.None? ==> d.Dumped(old(d.files), old(d.dirs), name, ".tsv",
                                      Render(DumpTable(me, reflect, elementIsString, writeHeader)))
    ensures format.Some? ==> d.Dumped(old(d.files), old(d.dirs), name, ".tsv",
                                      Render(DumpTable(me, format.value, elementIsString, writeHeader)))
  {
    d.DumpTsv(me, name, FormatOrSelf(format, reflect), elementIsString, writeHeader);
  }

  /** The receiver becomes the header record. */
  method WriteTsvHeader(d: Dumper, me: seq<string>, name: string)
    requires d.Active() ==> forall h <- me :: Plain(h)
    modifies d`files, d`dirs
    ensures d.Dumped(old(d.files), old(d.dirs), name, ".tsv", TsvLine(me))
  {
    d.WriteTsvHeader(name, me);
  }

  method WriteTsvRecord(d: Dumper, me: Row, name: string)
    requires d.Active() ==> PlainRow(me)
    modifies d`files, d`dirs
    ensures d.Dumped(old(d.files), old(d.dirs), name, ".tsv", TsvLine(RowFields(me)))
  {
    d.WriteTsvRecord(me, name);
  }

  /** Without a header unless one is given. */
  method WriteTsv(d: Dumper, me: seq<Row>, name: string, header: Option<seq<string>> := None)
    requires d.Active() ==> (forall r <- me :: PlainRow(r)) && (header.Some? ==> forall h <- header.value :: Plain(h))
    modifies d`files, d`dirs
    ensures d.Dumped(old(d.files), old(d.dirs), name, ".tsv", Render(WrittenTable(me, header)))
    ensures header.None? ==> d.Dumped(old(d.files), old(d.dirs), name, ".tsv", Render(RowRecords(me)))
  {
    d.WriteTsv(me, name, header);
    assert WrittenTable(me, None) == RowRecords(me);
  }
}
