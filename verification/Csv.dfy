/**
  The audit script's CSV printer, a strict parser for section 2 of RFC 4180 (with LF line ends),
  and exactly when parsing undoes printing.
*/
module Csv {
  import opened Options

  // ---------------------------------------------------------------- the printer

  predicate IsSpecial(c: char) {
    c == '"' || c == ',' || c == '\n' || c == '\r'
  }

  predicate Plain(s: string) {
    forall i :: 0 <= i < |s| ==> !IsSpecial(s[i])
  }

  function Doubled(c: char): string {
    if c == '"' then "\"\"" else [c]
  }

  function DoubleQuotes(s: string): string {
    if s == "" then "" else Doubled(s[0]) + DoubleQuotes(s[1..])
  }

  /** `None` stands for null and undefined; other values are given by their string form. */
  function CsvEscape(v: Option<string>): string {
    var s := v.GetOr("");
    if Plain(s) then s else "\"" + DoubleQuotes(s) + "\""
  }

  type Row = map<string, Option<string>>

  function Cell(row: Row, header: string): Option<string> {
    if header in row then row[header] else None
  }

  function Join(parts: seq<string>, separator: string): string {
    if parts == [] then ""
    else if |parts| == 1 then parts[0]
    else parts[0] + separator + Join(parts[1..], separator)
  }

  function Cells(headers: seq<string>, row: Row): seq<Option<string>> {
    seq(|headers|, i requires 0 <= i < |headers| => Cell(row, headers[i]))
  }

  function Escaped(cells: seq<Option<string>>): seq<string> {
    seq(|cells|, i requires 0 <= i < |cells| => CsvEscape(cells[i]))
  }

  function Lines(headers: seq<string>, rows: seq<Row>): seq<string> {
    [Join(headers, ",")] + seq(|rows|, i requires 0 <= i < |rows| => Join(Escaped(Cells(headers, rows[i])), ","))
  }

  function CsvText(headers: seq<string>, rows: seq<Row>): string {
    Join(Lines(headers, rows), "\n") + "\n"
  }

  /** The text the script writes to the file. */
  method WriteCsv(headers: seq<string>, rows: seq<Row>) returns (text: string)
    ensures text == CsvText(headers, rows)
    ensures ParseCsv(text) == Some(Table(headers, rows)) <==>
      headers != [] && forall i :: 0 <= i < |headers| ==> Plain(headers[i])
  {
    var lines := [Join(headers, ",")];
    for n := 0 to |rows|
      invariant lines == Lines(headers, rows[..n])
    {
      assert rows[..n + 1][..n] == rows[..n];
      lines := lines + [Join(Escaped(Cells(headers, rows[n])), ",")];
    }
    assert rows[..|rows|] == rows;
    text := Join(lines, "\n") + "\n";
    PrintedTableParsesBack(headers, rows);
  }

  // ---------------------------------------------------------------- the parser

  datatype Parsed<+T> = Fail | Parsed(value: T, rest: string)

  /** Unquoted text runs up to the next quote, comma, LF or CR. */
  function TakePlain(s: string): (r: (string, string))
    ensures s == r.0 + r.1 && Plain(r.0)
  {
    if s == "" || IsSpecial(s[0]) then ("", s)
    else var (f, rest) := TakePlain(s[1..]); ([s[0]] + f, rest)
  }

  /** Reads quoted text behind its opening quote; a doubled quote stands for one. */
  function ParseQuoted(s: string): (r: Parsed<string>)
    ensures r.Parsed? ==> |r.rest| < |s|
  {
    if s == "" then Fail
    else if s[0] != '"' then
      match ParseQuoted(s[1..])
      case Fail => Fail
      case Parsed(f, rest) => Parsed([s[0]] + f, rest)
    else if |s| > 1 && s[1] == '"' then
      match ParseQuoted(s[2..])
      case Fail => Fail
      case Parsed(f, rest) => Parsed("\"" + f, rest)
    else Parsed("", s[1..])
  }

  function ParseField(s: string): (r: Parsed<string>)
    ensures r.Parsed? ==> |r.rest| <= |s|
  {
    if s != "" && s[0] == '"' then ParseQuoted(s[1..])
    else var (f, rest) := TakePlain(s); Parsed(f, rest)
  }

  /** One record: fields separated by commas, ended by LF or by the end of the text. */
  function ParseRecord(s: string): (r: Parsed<seq<string>>)
    ensures r.Parsed? && s != "" ==> |r.rest| < |s|
    decreases |s|
  {
    match ParseField(s)
    case Fail => Fail
    case Parsed(f, rest) =>
      if rest == "" then Parsed([f], "")
      else if rest[0] == '\n' then Parsed([f], rest[1..])
      else if rest[0] != ',' then Fail
      else match ParseRecord(rest[1..])
        case Fail => Fail
        case Parsed(fs, rest') => Parsed([f] + fs, rest')
  }

  function ParseCsv(text: string): Option<seq<seq<string>>>
    decreases |text|
  {
    if text == "" then Some([])
    else match ParseRecord(text)
      case Fail => None
      case Parsed(record, rest) =>
        match ParseCsv(rest)
        case None => None
        case Some(records) => Some([record] + records)
  }

  /** A row's text under a header; a missing, undefined or null entry reads as "". */
  ghost function Shown(row: Row, header: string): string {
    if header in row && row[header].Some? then row[header].value else ""
  }

  /** What a reader should get back: the header row, then for each row its text under each header. */
  ghost function Table(headers: seq<string>, rows: seq<Row>): seq<seq<string>> {
    [headers] + seq(|rows|, i requires 0 <= i < |rows| =>
      seq(|headers|, j requires 0 <= j < |headers| => Shown(rows[i], headers[j])))
  }

  ghost function Values(cells: seq<Option<string>>): seq<string> {
    seq(|cells|, i requires 0 <= i < |cells| => cells[i].GetOr(""))
  }

  // ---------------------------------------------------------------- parsing undoes printing

  predicate EndsField(rest: string) {
    rest != "" && (rest[0] == ',' || rest[0] == '\n')
  }

  lemma {:induction false} TakePlainTakesAll(s: string, rest: string)
    requires Plain(s) && EndsField(rest)
    ensures TakePlain(s + rest) == (s, rest)
  {
    if s == "" {
      assert s + rest == rest;
    } else {
      assert (s + rest)[1..] == s[1..] + rest;
      assert s == [s[0]] + s[1..];
      TakePlainTakesAll(s[1..], rest);
    }
  }

  lemma QuotedCharParses(c: char, tail: string)
    requires ParseQuoted(tail).Parsed?
    ensures ParseQuoted(Doubled(c) + tail) ==
      Parsed([c] + ParseQuoted(tail).value, ParseQuoted(tail).rest)
  {
  }

  lemma ConcatAssociates(a: string, b: string, c: string)
    ensures (a + b) + c == a + (b + c)
  {
  }

  lemma DoubleQuotesCons(s: string, close: string)
    requires s != ""
    ensures DoubleQuotes(s) + close == Doubled(s[0]) + (DoubleQuotes(s[1..]) + close)
    ensures s == [s[0]] + s[1..]
  {
    ConcatAssociates(Doubled(s[0]), DoubleQuotes(s[1..]), close);
  }

  lemma {:induction false} QuotedTextParses(s: string, rest: string)
    requires EndsField(rest)
    ensures ParseQuoted(DoubleQuotes(s) + ("\"" + rest)) == Parsed(s, rest)
  {
    var close := "\"" + rest;
    assert close[1..] == rest;
    if s == "" {
      assert DoubleQuotes(s) + close == close;
    } else {
      QuotedTextParses(s[1..], rest);
      QuotedCharParses(s[0], DoubleQuotes(s[1..]) + close);
      DoubleQuotesCons(s, close);
    }
  }

  lemma FieldParses(v: Option<string>, rest: string)
    requires EndsField(rest)
    ensures ParseField(CsvEscape(v) + rest) == Parsed(v.GetOr(""), rest)
  {
    var s := v.GetOr("");
    if Plain(s) {
      TakePlainTakesAll(s, rest);
      assert s == "" || (s + rest)[0] == s[0];
    } else {
      QuotedTextParses(s, rest);
      var tail := DoubleQuotes(s) + ("\"" + rest);
      assert CsvEscape(v) + rest == "\"" + tail;
      assert ("\"" + tail)[1..] == tail;
    }
  }

  lemma LastFieldParses(v: Option<string>, rest: string)
    ensures ParseRecord(CsvEscape(v) + ("\n" + rest)) == Parsed([v.GetOr("")], rest)
  {
    FieldParses(v, "\n" + rest);
    assert ("\n" + rest)[1..] == rest;
  }

  lemma LeadingFieldParses(v: Option<string>, tail: string)
    requires ParseRecord(tail).Parsed?
    ensures ParseRecord(CsvEscape(v) + ("," + tail)) ==
      Parsed([v.GetOr("")] + ParseRecord(tail).value, ParseRecord(tail).rest)
  {
    FieldParses(v, "," + tail);
    assert ("," + tail)[1..] == tail;
  }

  lemma CellsCons(cells: seq<Option<string>>)
    requires cells != []
    ensures Escaped(cells) == [CsvEscape(cells[0])] + Escaped(cells[1..])
    ensures Values(cells) == [cells[0].GetOr("")] + Values(cells[1..])
  {
  }

  lemma JoinCons(part: string, parts: seq<string>, separator: string, end: string)
    requires parts != []
    ensures Join([part] + parts, separator) + end == part + (separator + (Join(parts, separator) + end))
  {
  }

  lemma {:induction false} RecordParses(cells: seq<Option<string>>, rest: string)
    requires cells != []
    ensures ParseRecord(Join(Escaped(cells), ",") + ("\n" + rest)) == Parsed(Values(cells), rest)
  {
    CellsCons(cells);
    if |cells| == 1 {
      assert Escaped(cells) == [CsvEscape(cells[0])];
      assert Values(cells) == [cells[0].GetOr("")];
      LastFieldParses(cells[0], rest);
    } else {
      RecordParses(cells[1..], rest);
      LeadingFieldParses(cells[0], Join(Escaped(cells[1..]), ",") + ("\n" + rest));
      JoinCons(CsvEscape(cells[0]), Escaped(cells[1..]), ",", "\n" + rest);
    }
  }

  ghost function Terminated(lines: seq<string>): string {
    if lines == [] then "" else lines[0] + ("\n" + Terminated(lines[1..]))
  }

  lemma {:induction false} JoinedLinesAreTerminated(lines: seq<string>)
    requires lines != []
    ensures Join(lines, "\n") + "\n" == Terminated(lines)
  {
    if |lines| == 1 {
      assert Terminated(lines[1..]) == "";
      assert "\n" + "" == "\n";
    } else {
      JoinedLinesAreTerminated(lines[1..]);
      assert (lines[0] + "\n" + Join(lines[1..], "\n")) + "\n" == lines[0] + ("\n" + (Join(lines[1..], "\n") + "\n"));
    }
  }

  lemma {:induction false} RowsParse(headers: seq<string>, rows: seq<Row>)
    requires headers != []
    ensures ParseCsv(Terminated(Lines(headers, rows)[1..])) == Some(Table(headers, rows)[1..])
    decreases |rows|
  {
    var lines, table := Lines(headers, rows)[1..], Table(headers, rows)[1..];
    if rows != [] {
      var cells := Cells(headers, rows[0]);
      assert lines[0] == Join(Escaped(cells), ",");
      assert Values(cells) == Table(headers, rows)[1];
      assert lines[1..] == Lines(headers, rows[1..])[1..];
      assert table == [Values(cells)] + Table(headers, rows[1..])[1..];
      RecordParses(cells, Terminated(lines[1..]));
      RowsParse(headers, rows[1..]);
    }
  }

  lemma PlainHeadersParseBack(headers: seq<string>, rows: seq<Row>)
    requires headers != [] && forall i :: 0 <= i < |headers| ==> Plain(headers[i])
    ensures ParseCsv(CsvText(headers, rows)) == Some(Table(headers, rows))
  {
    var lines, table := Lines(headers, rows), Table(headers, rows);
    var cells := seq(|headers|, i requires 0 <= i < |headers| => Some(headers[i]));
    assert Escaped(cells) == headers == Values(cells);
    JoinedLinesAreTerminated(lines);
    RecordParses(cells, Terminated(lines[1..]));
    RowsParse(headers, rows);
    assert table == [headers] + table[1..];
  }

  // ---------------------------------------------------------------- nothing else parses back

  ghost predicate AllQuotes(s: string) {
    forall i :: 0 <= i < |s| ==> s[i] == '"'
  }

  /** Leading quotes in parsed content were written twice. */
  lemma {:induction false} QuotesWereDoubled(s: string, j: nat)
    requires ParseQuoted(s).Parsed? && j <= |ParseQuoted(s).value| && AllQuotes(ParseQuoted(s).value[..j])
    ensures 2 * j <= |s| && forall i :: 0 <= i < 2 * j ==> s[i] == '"'
  {
    if j > 0 {
      var c := ParseQuoted(s).value;
      assert c[..j][0] == '"';
      assert c == "\"" + ParseQuoted(s[2..]).value;
      assert c[1..][..j - 1] == c[..j][1..];
      QuotesWereDoubled(s[2..], j - 1);
      forall i | 2 <= i < 2 * j ensures s[i] == '"' {
        assert s[i] == s[2..][i - 2];
      }
    }
  }

  /** A raw field cannot be read back through the quoted form. */
  lemma RawFieldIsNotQuoted(h: string, rest: string)
    requires EndsField(rest)
    requires ParseField(h + rest).Parsed? && ParseField(h + rest).value == h
    ensures (h + rest)[0] != '"'
  {
    var text := h + rest;
    if text[0] == '"' {
      var u := text[1..];
      var j := 0;
      while j < |h|
        invariant j <= |h|
        invariant AllQuotes(h[..j])
      {
        QuotesWereDoubled(u, j);
        assert text[j] == h[j] && (j > 0 ==> u[j - 1] == text[j]);
        j := j + 1;
      }
      assert text[|h|] == rest[0] && u[|h| - 1] == text[|h|];
      QuotesWereDoubled(u, |h|);
    }
  }

  lemma RawFieldIsPlain(h: string, rest: string)
    requires EndsField(rest)
    requires ParseField(h + rest).Parsed? && ParseField(h + rest).value == h
    ensures Plain(h) && ParseField(h + rest) == Parsed(h, rest)
  {
    RawFieldIsNotQuoted(h, rest);
    assert Plain(h);
    TakePlainTakesAll(h, rest);
  }

  lemma {:induction false} HeadersParseBackOnlyIfPlain(headers: seq<string>, rest: string)
    requires headers != []
    requires var r := ParseRecord(Join(headers, ",") + ("\n" + rest)); r.Parsed? && r.value == headers
    ensures forall i :: 0 <= i < |headers| ==> Plain(headers[i])
  {
    var h := headers[0];
    var text := Join(headers, ",") + ("\n" + rest);
    var tail := if |headers| == 1 then "\n" + rest else "," + (Join(headers[1..], ",") + ("\n" + rest));
    assert text == h + tail;
    RawFieldIsPlain(h, tail);
    if |headers| > 1 {
      assert tail[1..] == Join(headers[1..], ",") + ("\n" + rest);
      HeadersParseBackOnlyIfPlain(headers[1..], rest);
    }
  }

  /**
    Printing then parsing gives back the table, with null read as "", exactly when there is a
    header and no header contains a quote, comma, LF or CR. Cell texts are arbitrary.
   */
  lemma PrintedTableParsesBack(headers: seq<string>, rows: seq<Row>)
    ensures ParseCsv(CsvText(headers, rows)) == Some(Table(headers, rows)) <==>
      headers != [] && forall i :: 0 <= i < |headers| ==> Plain(headers[i])
  {
    var lines, table := Lines(headers, rows), Table(headers, rows);
    if headers != [] && forall i :: 0 <= i < |headers| ==> Plain(headers[i]) {
      PlainHeadersParseBack(headers, rows);
    } else if ParseCsv(CsvText(headers, rows)) == Some(table) {
      JoinedLinesAreTerminated(lines);
      var record := ParseRecord(CsvText(headers, rows));
      assert table[0] == headers;
      assert record.value == headers;
      assert |record.value| > 0;
      HeadersParseBackOnlyIfPlain(headers, Terminated(lines[1..]));
      assert false;
    }
  }

  /** A header with a comma is read back as two headers. */
  lemma CommaSplitsHeader(a: string, b: string, rows: seq<Row>)
    requires Plain(a) && Plain(b)
    ensures var record := ParseRecord(CsvText([a + "," + b], rows));
      record.Parsed? && record.value == [a, b]
    ensures ParseCsv(CsvText([a + "," + b], rows)) != Some(Table([a + "," + b], rows))
  {
    var header := a + "," + b;
    var lines := Lines([header], rows);
    JoinedLinesAreTerminated(lines);
    var cells := [Some(a), Some(b)];
    assert Escaped(cells) == [a, b] == Values(cells);
    assert Join([a, b], ",") == header by { assert [a, b][1..] == [b]; }
    RecordParses(cells, Terminated(lines[1..]));
    assert header[|a|] == ',';
    PrintedTableParsesBack([header], rows);
  }

  /** The field of any row under any header is read back as the row's own text. */
  lemma FieldsReadBack(headers: seq<string>, rows: seq<Row>, i: nat, j: nat)
    requires headers != [] && forall k :: 0 <= k < |headers| ==> Plain(headers[k])
    requires i < |rows| && j < |headers|
    ensures var read := ParseCsv(CsvText(headers, rows));
      && read.Some? && |read.value| == |rows| + 1 && read.value[0] == headers
      && |read.value[i + 1]| == |headers|
      && (forall v :: headers[j] in rows[i] && rows[i][headers[j]] == Some(v) ==> read.value[i + 1][j] == v)
      && (headers[j] !in rows[i] || rows[i][headers[j]] == None ==> read.value[i + 1][j] == "")
  {
    PrintedTableParsesBack(headers, rows);
  }

  ghost function CountQuotes(s: string): nat {
    if s == "" then 0 else (if s[0] == '"' then 1 else 0) + CountQuotes(s[1..])
  }

  lemma {:induction false} DoubleQuotesLength(s: string)
    ensures |DoubleQuotes(s)| == |s| + CountQuotes(s)
  {
    if s != "" {
      DoubleQuotesLength(s[1..]);
    }
  }

  /**
    Cells are quoted only when they must be: a text without quote, comma, LF and CR is printed as
    it is, any other between two quotes, its own quotes doubled.
   */
  lemma EscapeIsMinimal(v: string)
    ensures (forall i :: 0 <= i < |v| ==> v[i] !in {'"', ',', '\n', '\r'}) ==> CsvEscape(Some(v)) == v
    ensures (exists i :: 0 <= i < |v| && v[i] in {'"', ',', '\n', '\r'}) ==>
      var printed := CsvEscape(Some(v));
      |printed| == |v| + 2 + CountQuotes(v) && printed[0] == '"' == printed[|printed| - 1]
    ensures CsvEscape(None) == ""
  {
    DoubleQuotesLength(v);
  }

  /** Two tables under the same plain headers print alike only if all their cells read alike. */
  lemma PrintingIsInjective(headers: seq<string>, rows: seq<Row>, others: seq<Row>)
    requires headers != [] && forall i :: 0 <= i < |headers| ==> Plain(headers[i])
    requires CsvText(headers, rows) == CsvText(headers, others)
    ensures Table(headers, rows) == Table(headers, others)
  {
    PrintedTableParsesBack(headers, rows);
    PrintedTableParsesBack(headers, others);
  }
}
