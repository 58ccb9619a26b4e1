/** The CSV export of orders, and a reader for it that follows section 2 of RFC 4180 with `;` between fields. */
module Csv {
  import opened Wrappers

  const BOM := "\U{FEFF}"
  const CRLF := "\r\n"

  // ----- The printer -----

  predicate IsSpecial(c: char) {
    c in {';', '"', '\n', '\r'}
  }

  predicate NeedsQuotes(text: string) {
    exists i :: 0 <= i < |text| && IsSpecial(text[i])
  }

  function Doubled(text: string): string {
    if text == "" then "" else (if text[0] == '"' then "\"\"" else [text[0]]) + Doubled(text[1..])
  }

  function Escape(text: string): string {
    if NeedsQuotes(text) then "\"" + Doubled(text) + "\"" else text
  }

  function Join(parts: seq<string>, separator: string): string {
    if parts == [] then "" else if |parts| == 1 then parts[0] else parts[0] + separator + Join(parts[1..], separator)
  }

  function Escaped(row: seq<string>): seq<string> {
    seq(|row|, i requires 0 <= i < |row| => Escape(row[i]))
  }

  function Line(row: seq<string>): string {
    Join(Escaped(row), ";")
  }

  function Body(rows: seq<seq<string>>): string {
    Join(seq(|rows|, i requires 0 <= i < |rows| => Line(rows[i])), CRLF)
  }

  /** The columns of the export. */
  const HEADER: seq<string> := [
    "Número", "Fecha", "Cliente", "Email", "Estado", "Estado de pago", "Productos", "Total",
    "Método de envío", "Dirección", "Transportista", "Seguimiento"
  ]

  /** The file: a byte order mark, the header and one line per order. */
  function Export(orders: seq<seq<string>>): string {
    BOM + Body([HEADER] + orders)
  }

  // ----- The reader -----

  datatype Read<T> = Read(value: T, rest: string)

  /** A field without quotes: up to the separator, the line break or the end. Quotes and bare line breaks are not allowed in it. */
  function ReadPlain(s: string): (r: Option<Read<string>>)
    ensures r.Some? ==> |r.value.rest| <= |s|
  {
    if s == "" || s[0] == ';' || (|s| > 1 && s[..2] == CRLF) then Some(Read("", s))
    else if s[0] in {'"', '\n', '\r'} then None
    else match ReadPlain(s[1..])
      case None => None
      case Some(r) => Some(Read([s[0]] + r.value, r.rest))
  }

  /** The inside of a quoted field, after its opening quote: two quotes stand for one; a single one closes it. */
  function ReadQuoted(s: string): (r: Option<Read<string>>)
    ensures r.Some? ==> |r.value.rest| < |s|
  {
    if s == "" then None
    else if s[0] == '"' && (|s| == 1 || s[1] != '"') then Some(Read("", s[1..]))
    else
      var width := if s[0] == '"' then 2 else 1;
      match ReadQuoted(s[width..])
      case None => None
      case Some(r) => Some(Read([s[0]] + r.value, r.rest))
  }

  function ReadField(s: string): (r: Option<Read<string>>)
    ensures r.Some? ==> |r.value.rest| <= |s|
  {
    if s != "" && s[0] == '"' then ReadQuoted(s[1..]) else ReadPlain(s)
  }

  /** Fields separated by `;`. */
  function ReadRecord(s: string): (r: Option<Read<seq<string>>>)
    ensures r.Some? ==> |r.value.rest| <= |s|
    decreases |s|
  {
    match ReadField(s)
    case None => None
    case Some(field) =>
      if field.rest == "" || field.rest[0] != ';' then Some(Read([field.value], field.rest))
      else match ReadRecord(field.rest[1..])
        case None => None
        case Some(others) => Some(Read([field.value] + others.value, others.rest))
  }

  /** Records separated by line breaks; the last one may have one too. */
  function ReadRecords(s: string): Option<seq<seq<string>>>
    decreases |s|
  {
    match ReadRecord(s)
    case None => None
    case Some(first) =>
      if first.rest == "" || first.rest == CRLF then Some([first.value])
      else if |first.rest| < 2 || first.rest[..2] != CRLF then None
      else match ReadRecords(first.rest[2..])
        case None => None
        case Some(others) => Some([first.value] + others)
  }

  /** A byte order mark at the start is not part of the text. */
  function ReadFile(s: string): Option<seq<seq<string>>> {
    ReadRecords(if |s| > 0 && s[..1] == BOM then s[1..] else s)
  }

  // ----- Reading what was printed -----

  /** What can follow a field: a separator, a line break, or the end. */
  predicate EndsField(rest: string) {
    rest == "" || rest[0] == ';' || (|rest| > 1 && rest[..2] == CRLF)
  }

  lemma {:induction false} PlainReadsBack(text: string, rest: string)
    requires !NeedsQuotes(text) && EndsField(rest)
    ensures ReadPlain(text + rest) == Some(Read(text, rest))
  {
    if text == "" {
      assert text + rest == rest;
    } else {
      var s := text + rest;
      assert !IsSpecial(text[0]) && s[0] == text[0] && s[1..] == text[1..] + rest;
      assert |s| > 1 ==> s[..2][0] == s[0] != CRLF[0];
      assert forall i :: 0 <= i < |text[1..]| ==> text[1..][i] == text[i + 1];
      PlainReadsBack(text[1..], rest);
      assert [text[0]] + text[1..] == text;
    }
  }

  lemma {:induction false} QuotedReadsBack(text: string, rest: string)
    requires EndsField(rest)
    ensures ReadQuoted(Doubled(text) + "\"" + rest) == Some(Read(text, rest))
  {
    var s := Doubled(text) + "\"" + rest;
    if text == "" {
      assert s == "\"" + rest && s[1..] == rest;
    } else {
      QuotedReadsBack(text[1..], rest);
      var tail := Doubled(text[1..]) + "\"" + rest;
      assert [text[0]] + text[1..] == text;
      if text[0] == '"' {
        assert s == "\"\"" + tail && s[2..] == tail;
      } else {
        assert s == [text[0]] + tail && s[1..] == tail;
      }
    }
  }

  /** A text that needs no quotes does not look like one that has them. */
  lemma PlainStart(text: string, rest: string)
    requires !NeedsQuotes(text) && EndsField(rest)
    ensures text + rest == "" || (text + rest)[0] != '"'
  {
    if text == "" {
      assert text + rest == rest;
      assert |rest| > 1 && rest[..2] == CRLF ==> rest[0] == rest[..2][0];
    } else {
      assert !IsSpecial(text[0]);
    }
  }

  /** Any field reads back, whatever it contains. */
  lemma FieldReadsBack(text: string, rest: string)
    requires EndsField(rest)
    ensures ReadField(Escape(text) + rest) == Some(Read(text, rest))
  {
    var s := Escape(text) + rest;
    if NeedsQuotes(text) {
      Unquoted(Doubled(text), rest);
      QuotedReadsBack(text, rest);
      assert ReadField(s) == ReadQuoted(s[1..]);
    } else {
      PlainStart(text, rest);
      PlainReadsBack(text, rest);
      assert ReadField(s) == ReadPlain(s);
    }
  }

  lemma Unquoted(inside: string, rest: string)
    ensures var s := "\"" + inside + "\"" + rest; s != "" && s[0] == '"' && s[1..] == inside + "\"" + rest
  {}

  lemma LineSplits(row: seq<string>, rest: string)
    requires |row| > 1
    ensures Line(row) + rest == Escape(row[0]) + (";" + (Line(row[1..]) + rest))
  {
    assert Escaped(row)[1..] == Escaped(row[1..]);
  }

  lemma LastFieldReadsBack(text: string, rest: string)
    requires rest == "" || (|rest| > 1 && rest[..2] == CRLF)
    ensures ReadRecord(Escape(text) + rest) == Some(Read([text], rest))
  {
    FieldReadsBack(text, rest);
    assert rest != "" ==> rest[0] == rest[..2][0];
  }

  lemma NextFieldReadsBack(text: string, others: seq<string>, line: string, rest: string)
    requires ReadRecord(line) == Some(Read(others, rest))
    ensures ReadRecord(Escape(text) + (";" + line)) == Some(Read([text] + others, rest))
  {
    FieldReadsBack(text, ";" + line);
    assert (";" + line)[1..] == line;
  }

  lemma {:induction false} RecordReadsBack(row: seq<string>, rest: string)
    requires row != [] && (rest == "" || (|rest| > 1 && rest[..2] == CRLF))
    ensures ReadRecord(Line(row) + rest) == Some(Read(row, rest))
  {
    if |row| == 1 {
      assert [row[0]] == row && Line(row) == Escape(row[0]);
      LastFieldReadsBack(row[0], rest);
    } else {
      RecordReadsBack(row[1..], rest);
      NextFieldReadsBack(row[0], row[1..], Line(row[1..]) + rest, rest);
      LineSplits(row, rest);
      assert [row[0]] + row[1..] == row;
    }
  }

  /** A line of two fields or more is never empty. */
  lemma LineNotEmpty(row: seq<string>)
    requires |row| >= 2
    ensures Line(row) != ""
  {}

  lemma {:induction false} BodyReadsBack(rows: seq<seq<string>>)
    requires rows != [] && forall i :: 0 <= i < |rows| ==> |rows[i]| >= 2
    ensures ReadRecords(Body(rows)) == Some(rows)
    decreases |rows|
  {
    var lines := seq(|rows|, i requires 0 <= i < |rows| => Line(rows[i]));
    if |rows| == 1 {
      RecordReadsBack(rows[0], "");
      assert Body(rows) == Line(rows[0]) + "" && [rows[0]] == rows;
    } else {
      var tail := Body(rows[1..]);
      assert lines[1..] == seq(|rows[1..]|, i requires 0 <= i < |rows[1..]| => Line(rows[1..][i]));
      assert Body(rows) == Line(rows[0]) + (CRLF + tail);
      RecordReadsBack(rows[0], CRLF + tail);
      BodyReadsBack(rows[1..]);
      assert (CRLF + tail)[2..] == tail;
      BodyNotEmpty(rows[1..]);
      assert [rows[0]] + rows[1..] == rows;
    }
  }

  lemma BodyNotEmpty(rows: seq<seq<string>>)
    requires rows != [] && |rows[0]| >= 2
    ensures Body(rows) != ""
  {
    LineNotEmpty(rows[0]);
  }

  /** The export reads back to the header and exactly the rows exported, for any contents of the fields. */
  lemma ExportReadsBack(orders: seq<seq<string>>)
    requires forall i :: 0 <= i < |orders| ==> |orders[i]| == |HEADER|
    ensures ReadFile(Export(orders)) == Some([HEADER] + orders)
  {
    var rows := [HEADER] + orders;
    assert Export(orders)[..1] == BOM && Export(orders)[1..] == Body(rows);
    BodyReadsBack(rows);
  }

  /** So no two exports of different rows are the same file. */
  lemma ExportIsInjective(a: seq<seq<string>>, b: seq<seq<string>>)
    requires forall i :: 0 <= i < |a| ==> |a[i]| == |HEADER|
    requires forall i :: 0 <= i < |b| ==> |b[i]| == |HEADER|
    requires Export(a) == Export(b)
    ensures a == b
  {
    ExportReadsBack(a);
    ExportReadsBack(b);
    assert ([HEADER] + a)[1..] == a && ([HEADER] + b)[1..] == b;
  }
}
