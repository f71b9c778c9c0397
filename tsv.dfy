/**
 * The tab-separated text the dumps produce, as CsvHelper writes it with
 * `Delimiter = "\t"`: fields of one record joined by a tab, every record
 * ended by "\r\n". Beside the writer stands a reader (`Split`, `Lines`,
 * `ParseTable`) and the proof that it recovers every table whose fields the
 * writer emits verbatim.
 */
module Tsv {

  /** A field CsvHelper writes as it is, without quoting or escaping. */
  predicate Plain(f: string) {
    && '\t' !in f && '"' !in f && '\r' !in f && '\n' !in f
    && (|f| > 0 ==> f[0] != ' ' && f[|f| - 1] != ' ')
  }

  /** Every field of every record is plain. */
  predicate PlainTable(table: seq<seq<string>>) {
    forall row <- table :: forall f <- row :: Plain(f)
  }

  /** The fields of one record, separated by tabs (what successive WriteField calls produce). */
  function Join(fields: seq<string>): string {
    if |fields| == 0 then ""
    else if |fields| == 1 then fields[0]
    else Join(fields[..|fields| - 1]) + "\t" + fields[|fields| - 1]
  }

  /** One record, terminated as NextRecord terminates it. */
  function TsvLine(fields: seq<string>): string {
    Join(fields) + "\r\n"
  }

  /** A table written record after record. */
  function Render(table: seq<seq<string>>): string {
    if table == [] then "" else Render(table[..|table| - 1]) + TsvLine(table[|table| - 1])
  }

  /** The index of the last `c` in `s`, or -1 when there is none. */
  function LastIndexOf(s: string, c: char): (k: int)
    ensures -1 <= k < |s|
    ensures 0 <= k ==> s[k] == c
    ensures forall j :: k < j < |s| ==> s[j] != c
  {
    if s == [] then -1
    else if s[|s| - 1] == c then |s| - 1
    else LastIndexOf(s[..|s| - 1], c)
  }

  /** The reader's view of one record: the text between tabs. */
  function Split(line: string): (fields: seq<string>)
    ensures |fields| > 0
    decreases |line|
  {
    var k := LastIndexOf(line, '\t');
    if k < 0 then [line] else Split(line[..k]) + [line[k + 1..]]
  }

  /** The reader's view of a text: the records it holds, each without its "\r\n". */
  function Lines(text: string): seq<string>
    decreases |text|
  {
    if |text| < 2 then []
    else
      var body := text[..|text| - 2];
      var k := LastIndexOf(body, '\n');
      Lines(text[..k + 1]) + [body[k + 1..]]
  }

  /** The table a reader recovers from a text. */
  function ParseTable(text: string): seq<seq<string>> {
    var lines := Lines(text);
    seq(|lines|, i requires 0 <= i < |lines| => Split(lines[i]))
  }

  /** Where the last `c` of `a + b` is, when `b` holds none. */
  lemma LastIndexOfPrefix(a: string, b: string, c: char)
    requires c !in b
    ensures LastIndexOf(a + b, c) == LastIndexOf(a, c)
    decreases |b|
  {
    if b == [] {
      assert a + b == a;
    } else {
      var b' := b[..|b| - 1];
      assert b[|b| - 1] in b;
      assert (a + b)[..|a + b| - 1] == a + b';
      LastIndexOfPrefix(a, b', c);
    }
  }

  /** A written table is empty or ends with the "\n" of its last record. */
  lemma RenderEnd(table: seq<seq<string>>)
    ensures LastIndexOf(Render(table), '\n') == |Render(table)| - 1
  {
    if table != [] {
      var front := Render(table[..|table| - 1]);
      assert Render(table) == front + (Join(table[|table| - 1]) + "\r\n");
    }
  }

  /** Joining fields that hold no tab and splitting the line again gives the fields back. */
  lemma {:induction false} SplitJoin(fields: seq<string>)
    requires |fields| > 0
    requires forall f <- fields :: '\t' !in f
    ensures Split(Join(fields)) == fields
  {
    if |fields| > 1 {
      var init, last := fields[..|fields| - 1], fields[|fields| - 1];
      var line := Join(fields);
      assert line == Join(init) + "\t" + last;
      LastIndexOfPrefix(Join(init) + "\t", last, '\t');
      assert LastIndexOf(line, '\t') == |Join(init)| by {
        assert (Join(init) + "\t")[|Join(init)|] == '\t';
      }
      assert line[..|Join(init)|] == Join(init);
      assert line[|Join(init)| + 1..] == last;
      forall f <- init ensures '\t' !in f {
        assert f in fields;
      }
      SplitJoin(init);
      assert init + [last] == fields;
    } else {
      assert fields[0] in fields;
    }
  }

  /** A line break never occurs inside a record whose fields hold none. */
  lemma {:induction false} JoinHasNoBreak(fields: seq<string>)
    requires forall f <- fields :: '\n' !in f
    ensures '\n' !in Join(fields)
  {
    if |fields| > 1 {
      JoinHasNoBreak(fields[..|fields| - 1]);
      assert fields[|fields| - 1] in fields;
    } else if |fields| == 1 {
      assert fields[0] in fields;
    }
  }

  /** A line without a break, appended with its "\r\n" after complete lines, is read as one more line. */
  lemma LinesSnoc(front: string, line: string)
    requires front == [] || LastIndexOf(front, '\n') == |front| - 1
    requires '\n' !in line
    ensures Lines(front + line + "\r\n") == Lines(front) + [line]
  {
    var text := front + line + "\r\n";
    var body := text[..|text| - 2];
    assert body == front + line;
    LastIndexOfPrefix(front, line, '\n');
    assert text[..|front|] == front;
    assert body[|front|..] == line;
  }

  /** The lines of the records of `table`, each without its "\r\n". */
  function Joined(table: seq<seq<string>>): seq<string> {
    seq(|table|, i requires 0 <= i < |table| => Join(table[i]))
  }

  lemma JoinedSnoc(table: seq<seq<string>>)
    requires table != []
    ensures Joined(table) == Joined(table[..|table| - 1]) + [Join(table[|table| - 1])]
  {
  }

  /** The reader finds one line per record written, holding that record's joined fields. */
  lemma {:induction false} LinesRender(table: seq<seq<string>>)
    requires forall row <- table :: forall f <- row :: '\n' !in f
    ensures Lines(Render(table)) == Joined(table)
  {
    if table != [] {
      var init, last := table[..|table| - 1], table[|table| - 1];
      assert Render(table) == Render(init) + Join(last) + "\r\n";
      assert last in table;
      JoinHasNoBreak(last);
      RenderEnd(init);
      LinesSnoc(Render(init), Join(last));
      forall row <- init ensures row in table {
      }
      LinesRender(init);
      JoinedSnoc(table);
    }
  }

  /** Reading back a written table whose records are non-empty and whose fields are plain gives the table. */
  lemma ParseRender(table: seq<seq<string>>)
    requires PlainTable(table)
    requires forall row <- table :: |row| > 0
    ensures ParseTable(Render(table)) == table
  {
    LinesRender(table);
    forall i | 0 <= i < |table|
      ensures Split(Join(table[i])) == table[i]
    {
      assert table[i] in table;
      SplitJoin(table[i]);
    }
  }

  /** Writing two tables one after the other writes the concatenated table. */
  lemma {:induction false} RenderConcat(a: seq<seq<string>>, b: seq<seq<string>>)
    ensures Render(a + b) == Render(a) + Render(b)
  {
    if b != [] {
      var init := b[..|b| - 1];
      assert (a + b)[..|a + b| - 1] == a + init;
      RenderConcat(a, init);
    } else {
      assert a + b == a;
    }
  }
}
