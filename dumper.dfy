/**
 * The dump sink and the dump methods of `Dumper`. The static state of the
 * C# class (`IsEnabled`, `Folder`) and the part of the filesystem it touches
 * (`files`, `dirs`) are the fields of one `Dumper` object; each dump method
 * appends the text its writer lambda would write, or changes nothing.
 */
module Dump {
  import opened Wrappers
  import opened Tsv
  import opened Values
  import opened Projection

  /** A file as `Path.Combine(folder, fileName)` names it. */
  datatype FilePath = FilePath(folder: string, fileName: string)

  /** The files after `text` is appended to `p` in FileMode.Append (creating it when absent). */
  function Appended(files: map<FilePath, string>, p: FilePath, text: string): (r: map<FilePath, string>)
    ensures r.Keys == files.Keys + {p}
    ensures p in files ==> r[p] == files[p] + text
    ensures p !in files ==> r[p] == text
    ensures forall q <- files.Keys :: q != p ==> r[q] == files[q]
  {
    files[p := (if p in files then files[p] else "") + text]
  }

  /** Appending `a` and then `b` leaves the file as appending `a + b` does: nothing is overwritten. */
  lemma AppendTwice(files: map<FilePath, string>, p: FilePath, a: string, b: string)
    ensures Appended(Appended(files, p, a), p, b) == Appended(files, p, a + b)
  {
    var before := if p in files then files[p] else "";
    assert before + a + b == before + (a + b);
  }

  class Dumper {
    /** `Dumper.IsEnabled`. */
    var isEnabled: bool
    /** `Dumper.Folder`; None stands for null. */
    var folder: Option<string>
    /** The text of every existing file. */
    var files: map<FilePath, string>
    /** The existing directories. */
    var dirs: set<string>

    /** The initial settings (read from the application settings in the source) and the filesystem as found. */
    constructor (isEnabled: bool, folder: Option<string>, files: map<FilePath, string>, dirs: set<string>)
      ensures this.isEnabled == isEnabled && this.folder == folder
      ensures this.files == files && this.dirs == dirs
    {
      this.isEnabled := isEnabled;
      this.folder := folder;
      this.files := files;
      this.dirs := dirs;
    }

    /** `Dumper.IsEnabled = value`. */
    method SetEnabled(value: bool)
      modifies this`isEnabled
      ensures isEnabled == value
    {
      isEnabled := value;
    }

    /** `Dumper.Folder = value`, with None for null. */
    method SetFolder(value: Option<string>)
      modifies this`folder
      ensures folder == value
    {
      folder := value;
    }

    /** Writes go through: output is enabled and a folder is set. */
    predicate Active()
      reads this
    {
      isEnabled && folder.Some?
    }

    /**
     * The state after one guarded write of `text` to `name + extension`,
     * from the files and directories `files0` and `dirs0` before it: when
     * writes go through, the folder exists and the text is appended; when
     * not, nothing has changed.
     */
    predicate Dumped(files0: map<FilePath, string>, dirs0: set<string>, name: string, extension: string, text: string)
      reads this
    {
      if Active() then
        dirs == dirs0 + {folder.value} && files == Appended(files0, FilePath(folder.value, name + extension), text)
      else
        dirs == dirs0 && files == files0
    }

    /** The dump file `folder/name+extension`; its folder is created only while output is enabled. */
    method GetDumpFile(name: string, extension: string := ".txt") returns (file: FilePath)
      requires folder.Some?
      modifies this`dirs
      ensures file == FilePath(folder.value, name + extension)
      ensures dirs == if isEnabled then old(dirs) + {folder.value} else old(dirs)
    {
      file := FilePath(folder.value, name + extension);
      if isEnabled && file.folder !in dirs {
        dirs := dirs + {file.folder};
      }
    }

    /**
     * Appends what `action` writes to the dump file; does nothing at all
     * when output is disabled, no folder is set or there is no action.
     */
    method WriteTextFile(name: string, extension: string, action: Option<string>)
      modifies this`files, this`dirs
      ensures action.Some? ==> Dumped(old(files), old(dirs), name, extension, action.value)
      ensures action.None? ==> files == old(files) && dirs == old(dirs)
    {
      if !isEnabled {
        return;
      }
      if folder.None? {
        return;
      }
      if action.None? {
        return;
      }
      var file := GetDumpFile(name, extension);
      var text := if file in files then files[file] else "";
      files := files[file := text + action.value];
    }

    /*
     * In each dump method below, `format` is applied inside the writer
     * lambda, which WriteTextFile runs only once its guards pass; the model
     * applies it under the same guard, so a disabled dump never projects.
     */

    /** Appends the JSON text of the projected target to `name.json`, with no line break. */
    method DumpJson<T>(target: T, name: string, format: T -> Projected)
      requires Active() ==> JsonPlain(format(target))
      modifies this`files, this`dirs
      ensures Dumped(old(files), old(dirs), name, ".json", Json(format(target)))
    {
      if Active() {
        WriteTextFile(name, ".json", Some(Json(format(target))));
      }
    }

    /** Appends one header record: the member names of the projected target, and no data. */
    method DumpTsvHeader<T>(target: T, name: string, format: T -> Projected)
      requires Active() ==> format(target).Record? && PlainShape(format(target))
      modifies this`files, this`dirs
      ensures Dumped(old(files), old(dirs), name, ".tsv", TsvLine(format(target).Names()))
    {
      if Active() {
        var v := format(target);
        var text := WriteFields(v.Names());
        WriteTextFile(name, ".tsv", Some(text));
      }
    }

    /** DumpTsv over the one-element sequence `[target]`. */
    method DumpTsvRecord<T>(target: T, name: string, format: T -> Projected, elementIsString: bool,
                            writeHeader: bool := false)
      requires Active() ==> Fits(format(target), elementIsString) && PlainShape(format(target))
      modifies this`files, this`dirs
      ensures Dumped(old(files), old(dirs), name, ".tsv",
                     (if writeHeader then TsvLine(HeaderFields(format(target), elementIsString)) else "")
                     + TsvLine(format(target).Cells()))
    {
      DumpTsv([target], name, format, elementIsString, writeHeader);
      DumpSingle(target, format, elementIsString, writeHeader);
    }

    /**
     * Appends the TSV dump of `target`: a header from the first projection
     * when `writeHeader` holds, then one record per element. The file is
     * opened (and so created) even when `target` is empty.
     */
    method DumpTsv<T>(target: seq<T>, name: string, format: T -> Projected, elementIsString: bool,
                      writeHeader: bool := true)
      requires Active() ==> forall i :: 0 <= i < |target| ==>
                              Fits(format(target[i]), elementIsString) && PlainShape(format(target[i]))
      modifies this`files, this`dirs
      ensures Dumped(old(files), old(dirs), name, ".tsv", Render(DumpTable(target, format, elementIsString, writeHeader)))
    {
      if Active() {
        var text := DumpTsvText(target, format, elementIsString, writeHeader);
        WriteTextFile(name, ".tsv", Some(text));
      }
    }

    /** WriteTsv of the single row `header`, without a header argument: the names as one record. */
    method WriteTsvHeader(name: string, header: seq<string>)
      requires Active() ==> forall h <- header :: Plain(h)
      modifies this`files, this`dirs
      ensures Dumped(old(files), old(dirs), name, ".tsv", TsvLine(header))
    {
      var row := Items(seq(|header|, i requires 0 <= i < |header| => VStr(header[i])));
      WriteTsv([row], name);
      HeaderRow(header);
    }

    /** WriteTsv of the single row `values`, without a header argument. */
    method WriteTsvRecord(values: Row, name: string)
      requires Active() ==> PlainRow(values)
      modifies this`files, this`dirs
      ensures Dumped(old(files), old(dirs), name, ".tsv", TsvLine(RowFields(values)))
    {
      WriteTsv([values], name);
      SingleRow(values);
    }

    /** Appends the header record when one is given (even with no rows), then one record per row. */
    method WriteTsv(target: seq<Row>, name: string, header: Option<seq<string>> := None)
      requires Active() ==> (forall r <- target :: PlainRow(r)) && (header.Some? ==> forall h <- header.value :: Plain(h))
      modifies this`files, this`dirs
      ensures Dumped(old(files), old(dirs), name, ".tsv", Render(WrittenTable(target, header)))
    {
      if Active() {
        var text := WriteTsvText(target, header);
        WriteTextFile(name, ".tsv", Some(text));
      }
    }
  }
}
