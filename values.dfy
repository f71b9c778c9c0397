/**
 * The scalar member values a dump carries, and the text each becomes: in a
 * TSV cell the `ToString` of the culture the tests run under (decimal
 * integers with a `-` sign, `True`/`False`, strings as they are), in JSON
 * the literal Json.NET writes.
 */
module Values {
  import opened Tsv

  datatype Value = VInt(i: int) | VBool(b: bool) | VStr(s: string)

  /** The kind of a value, which a reader of the text must be told. */
  datatype Kind = IntKind | BoolKind | StrKind

  function KindOf(v: Value): Kind {
    match v
    case VInt(_) => IntKind
    case VBool(_) => BoolKind
    case VStr(_) => StrKind
  }

  function DigitChar(d: nat): (c: char)
    requires d < 10
    ensures '0' <= c <= '9' && (c as int - '0' as int) == d
  {
    ('0' as int + d) as char
  }

  /** The decimal digits of a natural number, most significant first, without leading zeros. */
  function Digits(n: nat): (s: string)
    ensures |s| > 0
    ensures forall c <- s :: '0' <= c <= '9'
    ensures |s| > 1 ==> s[0] != '0'
  {
    if n < 10 then [DigitChar(n)] else Digits(n / 10) + [DigitChar(n % 10)]
  }

  /** An integer as Int32.ToString writes it: a minus sign, then the digits of its magnitude. */
  function DecimalText(n: int): string {
    if n < 0 then "-" + Digits(-n) else Digits(n)
  }

  function DigitsValue(s: string): nat {
    if s == [] then 0
    else
      var d := s[|s| - 1] as int - '0' as int;
      DigitsValue(s[..|s| - 1]) * 10 + (if 0 <= d then d else 0)
  }

  /** The reader's view of a decimal integer. */
  function ParseDecimal(s: string): int {
    if |s| > 0 && s[0] == '-' then -(DigitsValue(s[1..]) as int) else DigitsValue(s)
  }

  lemma {:induction false} DigitsRoundTrip(n: nat)
    ensures DigitsValue(Digits(n)) == n
  {
    if n >= 10 {
      var s := Digits(n);
      assert s[..|s| - 1] == Digits(n / 10);
      DigitsRoundTrip(n / 10);
    }
  }

  /** Reading an integer's decimal text gives the integer back. */
  lemma DecimalRoundTrip(n: int)
    ensures ParseDecimal(DecimalText(n)) == n
  {
    if n < 0 {
      assert DecimalText(n)[1..] == Digits(-n);
      DigitsRoundTrip(-n);
    } else {
      assert Digits(n)[0] in Digits(n);
      DigitsRoundTrip(n);
    }
  }

  /** The text of a value in a TSV cell. */
  function Show(v: Value): string {
    match v
    case VInt(i) => DecimalText(i)
    case VBool(b) => if b then "True" else "False"
    case VStr(s) => s
  }

  /** The reader's view of a cell whose kind it knows. */
  function Read(k: Kind, cell: string): Value {
    match k
    case IntKind => VInt(ParseDecimal(cell))
    case BoolKind => VBool(cell == "True")
    case StrKind => VStr(cell)
  }

  /** Reading a cell back as the kind it was written from recovers the value. */
  lemma ReadShow(v: Value)
    ensures Read(KindOf(v), Show(v)) == v
  {
    if v.VInt? {
      DecimalRoundTrip(v.i);
    }
  }

  /** A value whose cell CsvHelper writes verbatim. */
  predicate PlainValue(v: Value) {
    v.VStr? ==> Plain(v.s)
  }

  /** Integers and booleans always make plain cells; strings do when they are plain themselves. */
  lemma ShowPlain(v: Value)
    ensures PlainValue(v) <==> Plain(Show(v))
  {
    if v.VInt? {
      var t := DecimalText(v.i);
      forall c <- t ensures c == '-' || '0' <= c <= '9' {
        if v.i >= 0 {
          assert c in Digits(v.i);
        } else if c != '-' {
          assert t == "-" + Digits(-v.i);
          assert c in Digits(-v.i);
        }
      }
      assert '\t' !in t && '"' !in t && '\r' !in t && '\n' !in t;
      assert |t| > 0 && t[0] in t && t[|t| - 1] in t;
    }
  }

  /** A value as a JSON literal: Json.NET's `true`/`false`, decimal numbers, and strings in double quotes. */
  function JsonScalar(v: Value): string {
    match v
    case VInt(i) => DecimalText(i)
    case VBool(b) => if b then "true" else "false"
    case VStr(s) => "\"" + s + "\""
  }
}
