/**
 * The CSV writer and, as its reference, a reader for section 2 of RFC 4180. A reader's text data
 * is any character but comma, quote, CR and LF: the exports hold accented text.
 */
module Csv {
  import opened Base

  const CRLF := "\r\n"
  const BYTE_ORDER_MARK := ['\U{FEFF}']

  /** A cell before it is written: null and undefined are None. */
  type Cell = Option<string>

  predicate StartsFormula(s: string) {
    s != [] && s[0] in {'=', '+', '-', '@'}
  }

  predicate IsSpecial(c: char) {
    c == ',' || c == '"' || c == '\n' || c == '\r'
  }

  predicate NeedsQuotes(s: string) {
    exists k :: 0 <= k < |s| && IsSpecial(s[k])
  }

  function Doubled(s: string): string {
    if s == [] then [] else (if s[0] == '"' then "\"\"" else [s[0]]) + Doubled(s[1..])
  }

  /** The text a cell stands for: an apostrophe guards a leading formula character. */
  function Guarded(cell: Cell): string {
    match cell
    case None => ""
    case Some(s) => if StartsFormula(s) then "'" + s else s
  }

  function Quoted(s: string): string {
    if NeedsQuotes(s) then "\"" + Doubled(s) + "\"" else s
  }

  function Escaped(cell: Cell): string {
    Quoted(Guarded(cell))
  }

  function EscapedAll(row: seq<Cell>): seq<string> {
    seq(|row|, k requires 0 <= k < |row| => Escaped(row[k]))
  }

  function Join(parts: seq<string>, separator: string): string {
    if parts == [] then []
    else if |parts| == 1 then parts[0]
    else parts[0] + (separator + Join(parts[1..], separator))
  }

  function Line(row: seq<Cell>): string {
    Join(EscapedAll(row), ",")
  }

  function Lines(rows: seq<seq<Cell>>): seq<string> {
    seq(|rows|, k requires 0 <= k < |rows| => Line(rows[k]))
  }

  function Body(rows: seq<seq<Cell>>): string {
    Join(Lines(rows), CRLF) + CRLF
  }

  function ToCsv(headers: seq<Cell>, rows: seq<seq<Cell>>): string {
    BYTE_ORDER_MARK + Body([headers] + rows)
  }

  // ----- Reading: section 2 of RFC 4180 -----------------------------------------------------------

  datatype Read<T> = Got(value: T, rest: string) | Malformed

  /** The inside of a quoted field, up to its closing quote. */
  function ReadQuoted(text: string): (r: Read<string>)
    ensures r.Got? ==> |r.rest| < |text|
  {
    if text == [] then Malformed
    else if text[0] != '"' then
      match ReadQuoted(text[1..])
      case Malformed => Malformed
      case Got(s, rest) => Got([text[0]] + s, rest)
    else if |text| >= 2 && text[1] == '"' then
      match ReadQuoted(text[2..])
      case Malformed => Malformed
      case Got(s, rest) => Got("\"" + s, rest)
    else Got("", text[1..])
  }

  /** The characters that are no text data. */
  const DELIMITERS := ",\"\r\n"

  function ReadBare(text: string): (r: Read<string>)
    ensures r.Got? && |r.rest| <= |text|
  {
    if text == [] || text[0] in DELIMITERS then Got("", text)
    else
      var r := ReadBare(text[1..]);
      Got([text[0]] + r.value, r.rest)
  }

  function ReadField(text: string): (r: Read<string>)
    ensures r.Got? ==> |r.rest| <= |text|
  {
    if text != [] && text[0] == '"' then ReadQuoted(text[1..]) else ReadBare(text)
  }

  function ReadRecord(text: string): (r: Read<seq<string>>)
    ensures r.Got? ==> |r.rest| <= |text| && r.value != []
    decreases |text|
  {
    match ReadField(text)
    case Malformed => Malformed
    case Got(field, rest) =>
      if rest != [] && rest[0] == ',' then
        match ReadRecord(rest[1..])
        case Malformed => Malformed
        case Got(fields, end) => Got([field] + fields, end)
      else Got([field], rest)
  }

  /** Records end with CRLF; the last one may omit it. */
  function ReadFile(text: string): (r: Option<seq<seq<string>>>)
    ensures r.Some? ==> forall k :: 0 <= k < |r.value| ==> r.value[k] != []
    decreases |text|
  {
    match ReadRecord(text)
    case Malformed => None
    case Got(record, rest) =>
      if rest == [] || rest == CRLF then Some([record])
      else if |rest| > 2 && rest[..2] == CRLF then
        match ReadFile(rest[2..])
        case None => None
        case Some(records) => Some([record] + records)
      else None
  }

  // ----- One field ------------------------------------------------------------------------------------

  /** What may follow a written field: the end, a comma or a line break. */
  predicate EndsField(rest: string) {
    rest == [] || rest[0] == ',' || rest[0] == '\r'
  }

  lemma Reassociate(a: string, b: string, c: string, d: string)
    ensures (a + b) + c == a + (b + c)
    ensures (a + b) + c + d == a + (b + c + d)
    ensures (a + (b + c)) + d == a + (b + (c + d))
  {
  }

  lemma {:induction false} ReadsDoubled(s: string, rest: string)
    requires rest == [] || rest[0] != '"'
    ensures ReadQuoted(Doubled(s) + "\"" + rest) == Got(s, rest)
  {
    if s == [] {
      assert Doubled(s) + "\"" + rest == "\"" + rest;
      assert ("\"" + rest)[1..] == rest;
    } else {
      var after := Doubled(s[1..]) + "\"" + rest;
      ReadsDoubled(s[1..], rest);
      assert s == [s[0]] + s[1..];
      if s[0] == '"' {
        Reassociate("\"\"", Doubled(s[1..]), "\"", rest);
        assert ("\"\"" + after)[2..] == after;
      } else {
        Reassociate([s[0]], Doubled(s[1..]), "\"", rest);
        assert ([s[0]] + after)[1..] == after;
      }
    }
  }

  lemma {:induction false} DoublingGrows(s: string)
    ensures |Doubled(s)| >= |s|
  {
    if s != [] {
      DoublingGrows(s[1..]);
    }
  }

  lemma {:induction false} ReadsBare(s: string, rest: string)
    requires !NeedsQuotes(s) && EndsField(rest)
    ensures ReadBare(s + rest) == Got(s, rest)
  {
    if s == [] {
      assert s + rest == rest;
    } else {
      assert !IsSpecial(s[0]);
      assert !NeedsQuotes(s[1..]) by {
        forall k | 0 <= k < |s| - 1 ensures !IsSpecial(s[1..][k]) {
          assert s[1..][k] == s[k + 1];
        }
      }
      ReadsBare(s[1..], rest);
      assert (s + rest)[1..] == s[1..] + rest;
      assert s == [s[0]] + s[1..];
    }
  }

  lemma ReadsQuoted(s: string, rest: string)
    requires rest == [] || rest[0] != '"'
    ensures ReadField("\"" + Doubled(s) + "\"" + rest) == Got(s, rest)
  {
    ReadsDoubled(s, rest);
    Reassociate("\"", Doubled(s), "\"", rest);
    var inside := Doubled(s) + "\"" + rest;
    assert ("\"" + inside)[1..] == inside;
  }

  lemma ReadsUnquoted(s: string, rest: string)
    requires !NeedsQuotes(s) && EndsField(rest)
    ensures ReadField(s + rest) == Got(s, rest)
  {
    ReadsBare(s, rest);
    if s != [] {
      assert !IsSpecial(s[0]);
    } else {
      assert s + rest == rest;
    }
  }

  /** A written cell reads back as its guarded text, whatever it contains; only a delimiter in it brings quotes. */
  lemma ReadsField(cell: Cell, rest: string)
    requires EndsField(rest)
    ensures ReadField(Escaped(cell) + rest) == Got(Guarded(cell), rest)
    ensures Escaped(cell) == Guarded(cell) <==> forall k :: 0 <= k < |Guarded(cell)| ==> Guarded(cell)[k] !in DELIMITERS
  {
    DoublingGrows(Guarded(cell));
    if NeedsQuotes(Guarded(cell)) {
      ReadsQuoted(Guarded(cell), rest);
    } else {
      ReadsUnquoted(Guarded(cell), rest);
    }
  }

  // ----- Rows and files ----------------------------------------------------------------------------

  function GuardedRow(row: seq<Cell>): seq<string> {
    seq(|row|, k requires 0 <= k < |row| => Guarded(row[k]))
  }

  function GuardedRows(rows: seq<seq<Cell>>): seq<seq<string>> {
    seq(|rows|, k requires 0 <= k < |rows| => GuardedRow(rows[k]))
  }

  predicate EndsLine(rest: string) {
    rest == [] || rest[0] == '\r'
  }

  lemma JoinHead(parts: seq<string>, separator: string, rest: string)
    requires |parts| > 1
    ensures Join(parts, separator) + rest == parts[0] + (separator + (Join(parts[1..], separator) + rest))
  {
    Reassociate(parts[0], separator, Join(parts[1..], separator), rest);
  }

  lemma LineHead(row: seq<Cell>, rest: string)
    requires row != []
    ensures |row| == 1 ==> Line(row) == Escaped(row[0])
    ensures |row| > 1 ==> Line(row) + rest == Escaped(row[0]) + ("," + (Line(row[1..]) + rest))
  {
    if |row| > 1 {
      JoinHead(EscapedAll(row), ",", rest);
      assert EscapedAll(row)[1..] == EscapedAll(row[1..]);
    }
  }

  lemma GuardedRowHead(row: seq<Cell>)
    requires row != []
    ensures GuardedRow(row) == [Guarded(row[0])] + GuardedRow(row[1..])
    ensures |row| == 1 ==> GuardedRow(row) == [Guarded(row[0])]
  {
  }

  lemma ReadRecordStep(text: string, field: string, after: string)
    requires ReadField(text) == Got(field, "," + after) && ReadRecord(after).Got?
    ensures ReadRecord(text) == Got([field] + ReadRecord(after).value, ReadRecord(after).rest)
  {
    assert ("," + after)[1..] == after;
  }

  lemma {:induction false} ReadsLine(row: seq<Cell>, rest: string)
    requires row != [] && EndsLine(rest)
    ensures ReadRecord(Line(row) + rest) == Got(GuardedRow(row), rest)
  {
    LineHead(row, rest);
    GuardedRowHead(row);
    if |row| == 1 {
      ReadsField(row[0], rest);
    } else {
      var after := Line(row[1..]) + rest;
      ReadsField(row[0], "," + after);
      ReadsLine(row[1..], rest);
      ReadRecordStep(Line(row) + rest, Guarded(row[0]), after);
    }
  }

  predicate NonEmptyRows(rows: seq<seq<Cell>>) {
    forall k :: 0 <= k < |rows| ==> rows[k] != []
  }

  lemma ReadFileStep(line: string, record: seq<string>, after: string)
    requires after != [] && ReadRecord(line + (CRLF + after)) == Got(record, CRLF + after)
    requires ReadFile(after).Some?
    ensures ReadFile(line + (CRLF + after)) == Some([record] + ReadFile(after).value)
  {
    var rest := CRLF + after;
    assert rest[..2] == CRLF && rest[2..] == after && |rest| > 2;
  }

  lemma BodyHead(rows: seq<seq<Cell>>)
    requires rows != []
    ensures |rows| == 1 ==> Body(rows) == Line(rows[0]) + CRLF
    ensures |rows| > 1 ==> Body(rows) == Line(rows[0]) + (CRLF + Body(rows[1..])) && Body(rows[1..]) != []
  {
    if |rows| > 1 {
      JoinHead(Lines(rows), CRLF, CRLF);
      assert Lines(rows)[1..] == Lines(rows[1..]);
    }
  }

  lemma GuardedRowsHead(rows: seq<seq<Cell>>)
    requires rows != []
    ensures GuardedRows(rows) == [GuardedRow(rows[0])] + GuardedRows(rows[1..])
    ensures |rows| == 1 ==> GuardedRows(rows) == [GuardedRow(rows[0])]
  {
  }

  lemma {:induction false} ReadsBody(rows: seq<seq<Cell>>)
    requires rows != [] && NonEmptyRows(rows)
    ensures ReadFile(Body(rows)) == Some(GuardedRows(rows))
  {
    GuardedRowsHead(rows);
    BodyHead(rows);
    if |rows| == 1 {
      ReadsLine(rows[0], CRLF);
    } else {
      var after := Body(rows[1..]);
      ReadsLine(rows[0], CRLF + after);
      ReadsBody(rows[1..]);
      ReadFileStep(Line(rows[0]), GuardedRow(rows[0]), after);
    }
  }

  /** What an empty row is read as: one record of one empty field. */
  function Padded(rows: seq<seq<Cell>>): seq<seq<Cell>> {
    seq(|rows|, k requires 0 <= k < |rows| => if rows[k] == [] then [None] else rows[k])
  }

  lemma PaddedWritesTheSame(rows: seq<seq<Cell>>)
    ensures Body(Padded(rows)) == Body(rows)
  {
    forall k | 0 <= k < |rows| ensures Line(Padded(rows)[k]) == Line(rows[k]) {
      assert EscapedAll([None]) == [""] && EscapedAll([]) == [];
    }
    assert Lines(Padded(rows)) == Lines(rows);
  }

  // ----- The writer -----------------------------------------------------------------------------------

  method EscapeField(value: Cell) returns (s: string)
    ensures s == Escaped(value)
  {
    if value.None? {
      return "";
    }
    s := value.value;
    if StartsFormula(s) {
      s := "'" + s;
    }
    var special := HasSpecial(s);
    if special {
      s := "\"" + Doubled(s) + "\"";
    }
  }

  method HasSpecial(s: string) returns (found: bool)
    ensures found == NeedsQuotes(s)
  {
    for i := 0 to |s|
      invariant forall k :: 0 <= k < i ==> !IsSpecial(s[k])
    {
      if IsSpecial(s[i]) {
        return true;
      }
    }
    return false;
  }

  method EscapeRow(row: seq<Cell>) returns (line: string)
    ensures line == Line(row)
  {
    var fields: seq<string> := [];
    for i := 0 to |row|
      invariant fields == EscapedAll(row[..i])
    {
      var field := EscapeField(row[i]);
      fields := fields + [field];
      assert EscapedAll(row[..i + 1]) == EscapedAll(row[..i]) + [Escaped(row[i])];
    }
    assert row[..|row|] == row;
    line := Join(fields, ",");
  }

  lemma LinesPush(headers: seq<Cell>, rows: seq<seq<Cell>>, i: nat)
    requires i < |rows|
    ensures Lines([headers] + rows[..i + 1]) == Lines([headers] + rows[..i]) + [Line(rows[i])]
  {
    assert [headers] + rows[..i + 1] == ([headers] + rows[..i]) + [rows[i]];
  }

  /** The export: a byte order mark, then every line ended by CRLF. */
  method WriteCsv(headers: seq<Cell>, rows: seq<seq<Cell>>) returns (csv: string)
    ensures csv == ToCsv(headers, rows)
  {
    var header := EscapeRow(headers);
    var lines := [header];
    for i := 0 to |rows|
      invariant lines == Lines([headers] + rows[..i])
    {
      var line := EscapeRow(rows[i]);
      LinesPush(headers, rows, i);
      lines := lines + [line];
    }
    assert rows[..|rows|] == rows;
    csv := BYTE_ORDER_MARK + Join(lines, CRLF) + CRLF;
    Reassociate(BYTE_ORDER_MARK, Join(lines, CRLF), CRLF, "");
  }

  /**
   * Whatever the cells contain, a reader of section 2 of RFC 4180 gets back from the export, after
   * its byte order mark, every row and field written, each as its guarded text; an empty row comes
   * back as one empty field, so what was written is what is read if and only if no row was empty.
   */
  lemma PrintParse(headers: seq<Cell>, rows: seq<seq<Cell>>)
    ensures var csv, all := ToCsv(headers, rows), [headers] + rows;
      && csv[..1] == BYTE_ORDER_MARK
      && ReadFile(csv[1..]) == Some(GuardedRows(Padded(all)))
      && (ReadFile(csv[1..]) == Some(GuardedRows(all)) <==> NonEmptyRows(all))
  {
    var all := [headers] + rows;
    assert ToCsv(headers, rows)[1..] == Body(all);
    PaddedWritesTheSame(all);
    ReadsBody(Padded(all));
    if NonEmptyRows(all) {
      assert Padded(all) == all;
    } else {
      var k :| 0 <= k < |all| && all[k] == [];
      assert |GuardedRows(all)[k]| == 0 && |GuardedRows(Padded(all))[k]| == 1;
    }
  }

  // ----- The guard --------------------------------------------------------------------------------------

  /** Only would-be formulas are altered, and then no longer are any. */
  /** A spreadsheet would read the text as a formula. */
  predicate OpensFormula(s: string) {
    |s| > 0 && (s[0] == '=' || s[0] == '+' || s[0] == '-' || s[0] == '@')
  }

  lemma GuardExactly(s: string)
    ensures !OpensFormula(Guarded(Some(s)))
    ensures Guarded(Some(s)) == s <==> !OpensFormula(s)
  {
    if OpensFormula(s) {
      assert Guarded(Some(s))[0] == '\'';
      assert |Guarded(Some(s))| != |s|;
    }
  }

  /** No field a reader gets back from an export opens a formula, whatever was exported. */
  lemma NoFieldReadsAsFormula(headers: seq<Cell>, rows: seq<seq<Cell>>)
    ensures ReadFile(ToCsv(headers, rows)[1..]).Some?
    ensures forall record, field ::
      record in ReadFile(ToCsv(headers, rows)[1..]).value && field in record ==> !OpensFormula(field)
  {
    PrintParse(headers, rows);
    var all := Padded([headers] + rows);
    forall record, field | record in GuardedRows(all) && field in record ensures !OpensFormula(field) {
      var k :| 0 <= k < |all| && record == GuardedRow(all[k]);
      var j :| 0 <= j < |record| && field == record[j];
      if all[k][j].Some? {
        GuardExactly(all[k][j].value);
      }
    }
  }

  /** Takes the guarding apostrophe off again. */
  function Unguarded(s: string): string {
    if s != [] && s[0] == '\'' && OpensFormula(s[1..]) then s[1..] else s
  }

  /** A cell's text can be recovered exactly unless it already looked guarded. */
  lemma UnguardExactly(s: string)
    ensures Unguarded(Guarded(Some(s))) == s <==> !(s != [] && s[0] == '\'' && OpensFormula(s[1..]))
  {
    if OpensFormula(s) {
      assert ("'" + s)[1..] == s;
    } else if s != [] && s[0] == '\'' && OpensFormula(s[1..]) {
      assert |s[1..]| != |s|;
    }
  }
}
