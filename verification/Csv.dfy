/** CSV export (dashboard/lib/utils/csv.ts) against a reader written from section 2 of RFC 4180:
    records separated by CRLF, an optional line break after the last one, fields separated by
    commas, and a field either bare or quoted with doubled quotes. */
module Csv {
  import opened Basics

  const CRLF := "\r\n"

  predicate IsSpecial(c: char) { c == '"' || c == ',' || c == '\n' || c == '\r' }

  predicate NeedsQuotes(s: string) { exists i :: 0 <= i < |s| && IsSpecial(s[i]) }

  function QuoteChar(c: char): string { if c == '"' then "\"\"" else [c] }

  function DoubleQuotes(s: string): string {
    if s == "" then "" else QuoteChar(s[0]) + DoubleQuotes(s[1..])
  }

  function EscapeField(s: string): string {
    if NeedsQuotes(s) then "\"" + DoubleQuotes(s) + "\"" else s
  }

  // ---------------------------------------------------------------- the writer

  datatype Column = Column(key: string, header: string)

  /** A row's fields as text; a missing key, null and undefined all print as nothing. */
  type Row = map<string, Option<string>>

  function Cell(row: Row, c: Column): string {
    if c.key in row && row[c.key].Some? then row[c.key].value else ""
  }

  function Headers(columns: seq<Column>): seq<string> {
    seq(|columns|, i requires 0 <= i < |columns| => columns[i].header)
  }

  function Cells(row: Row, columns: seq<Column>): seq<string> {
    seq(|columns|, i requires 0 <= i < |columns| => Cell(row, columns[i]))
  }

  /** The table a reader should get back: the header, then one record per row. */
  function Table(rows: seq<Row>, columns: seq<Column>): seq<seq<string>> {
    [Headers(columns)] + seq(|rows|, i requires 0 <= i < |rows| => Cells(rows[i], columns))
  }

  function Line(fields: seq<string>): string {
    Join(seq(|fields|, i requires 0 <= i < |fields| => EscapeField(fields[i])), ",")
  }

  function Print(table: seq<seq<string>>): string {
    Join(seq(|table|, i requires 0 <= i < |table| => Line(table[i])), CRLF)
  }

  method ToCsv(rows: seq<Row>, columns: seq<Column>) returns (text: string)
    ensures text == Print(Table(rows, columns))
  {
    var lines := [Line(Headers(columns))];
    for i := 0 to |rows|
      invariant |lines| == i + 1
      invariant forall k :: 0 <= k <= i ==> lines[k] == Line(Table(rows, columns)[k])
    {
      lines := lines + [Line(Cells(rows[i], columns))];
    }
    var table := Table(rows, columns);
    assert lines == seq(|table|, i requires 0 <= i < |table| => Line(table[i]));
    return Join(lines, CRLF);
  }

  // ---------------------------------------------------------------- the reader

  /** A field and the input after it. */
  datatype Field = Field(text: string, rest: string)

  /** Bare text runs to the next special character. */
  function ReadBare(s: string): Field {
    if s == "" || IsSpecial(s[0]) then Field("", s)
    else var f := ReadBare(s[1..]); Field([s[0]] + f.text, f.rest)
  }

  /** After an opening quote: a doubled quote is a quote, a single one ends the field. */
  function ReadQuoted(s: string): Option<Field> {
    if s == "" then None
    else if s[0] != '"' then
      match ReadQuoted(s[1..])
      case None => None
      case Some(f) => Some(Field([s[0]] + f.text, f.rest))
    else if |s| >= 2 && s[1] == '"' then
      match ReadQuoted(s[2..])
      case None => None
      case Some(f) => Some(Field("\"" + f.text, f.rest))
    else Some(Field("", s[1..]))
  }

  function ReadField(s: string): Option<Field> {
    if s != "" && s[0] == '"' then ReadQuoted(s[1..]) else Some(ReadBare(s))
  }

  predicate StartsWithBreak(s: string) { |s| >= 2 && s[0] == '\r' && s[1] == '\n' }

  lemma {:induction false} BareShrinks(s: string)
    ensures |ReadBare(s).rest| <= |s|
  {
    if s != "" && !IsSpecial(s[0]) { BareShrinks(s[1..]); }
  }

  lemma {:induction false} QuotedShrinks(s: string)
    ensures ReadQuoted(s).Some? ==> |ReadQuoted(s).value.rest| < |s|
    decreases |s|
  {
    if s != "" && s[0] != '"' { QuotedShrinks(s[1..]); }
    else if |s| >= 2 && s[1] == '"' { QuotedShrinks(s[2..]); }
  }

  lemma FieldShrinks(s: string)
    ensures ReadField(s).Some? ==> |ReadField(s).value.rest| <= |s|
  {
    BareShrinks(s);
    if s != "" { QuotedShrinks(s[1..]); }
  }

  /** The records of the input, reading on from the start of a field. */
  function Read(s: string): Option<seq<seq<string>>>
    decreases |s|
  {
    match ReadField(s)
    case None => None
    case Some(f) =>
      FieldShrinks(s);
      if f.rest != "" && f.rest[0] == ',' then
        match Read(f.rest[1..])
        case None => None
        case Some(t) => if t == [] then None else Some([[f.text] + t[0]] + t[1..])
      else if f.rest == "" || f.rest == CRLF then Some([[f.text]])
      else if StartsWithBreak(f.rest) then
        match Read(f.rest[2..])
        case None => None
        case Some(t) => Some([[f.text]] + t)
      else None
  }

  // ---------------------------------------------------------------- one field

  /** What may follow a field in a file: nothing, a comma, or a line break. */
  predicate EndsField(rest: string) { rest == "" || rest[0] == ',' || StartsWithBreak(rest) }

  lemma {:induction false} BareRoundTrip(x: string, rest: string)
    requires !NeedsQuotes(x) && EndsField(rest)
    ensures ReadBare(x + rest) == Field(x, rest)
    decreases |x|
  {
    if x == "" {
      assert x + rest == rest;
    } else {
      assert !IsSpecial(x[0]);
      assert forall i :: 0 <= i < |x[1..]| ==> x[1..][i] == x[i + 1];
      BareRoundTrip(x[1..], rest);
      assert (x + rest)[1..] == x[1..] + rest;
    }
  }

  lemma ReadQuotedChar(c: char, s: string, f: Field)
    requires ReadQuoted(s) == Some(f)
    ensures ReadQuoted(QuoteChar(c) + s) == Some(Field([c] + f.text, f.rest))
  {
    var t := QuoteChar(c) + s;
    if c == '"' { assert t[2..] == s; } else { assert t[1..] == s; }
  }

  lemma ReadQuotedEnd(rest: string)
    requires EndsField(rest)
    ensures ReadQuoted("\"" + rest) == Some(Field("", rest))
  {
    assert ("\"" + rest)[1..] == rest;
  }

  lemma Regroup(a: string, b: string, c: string)
    ensures a + b + c == a + (b + c)
  {
  }

  lemma {:induction false} QuotedRoundTrip(x: string, rest: string)
    requires EndsField(rest)
    ensures ReadQuoted(DoubleQuotes(x) + ("\"" + rest)) == Some(Field(x, rest))
    decreases |x|
  {
    var end := "\"" + rest;
    if x == "" {
      ReadQuotedEnd(rest);
      assert "" + end == end;
    } else {
      var c, tail := x[0], x[1..];
      QuotedRoundTrip(tail, rest);
      ReadQuotedChar(c, DoubleQuotes(tail) + end, Field(tail, rest));
      Regroup(QuoteChar(c), DoubleQuotes(tail), end);
      assert x == [c] + tail;
    }
  }

  lemma OpenQuote(q: string, f: Field)
    requires ReadQuoted(q) == Some(f)
    ensures ReadField("\"" + q) == Some(f)
  {
    assert ("\"" + q)[1..] == q;
  }

  lemma QuotedFieldRoundTrip(x: string, rest: string)
    requires EndsField(rest)
    ensures ReadField("\"" + DoubleQuotes(x) + "\"" + rest) == Some(Field(x, rest))
  {
    QuotedRoundTrip(x, rest);
    OpenQuote(DoubleQuotes(x) + ("\"" + rest), Field(x, rest));
    Regroup("\"", DoubleQuotes(x), "\"" + rest);
    Regroup("\"" + DoubleQuotes(x), "\"", rest);
  }

  lemma BareFieldRoundTrip(x: string, rest: string)
    requires !NeedsQuotes(x) && EndsField(rest)
    ensures ReadField(x + rest) == Some(Field(x, rest))
  {
    BareRoundTrip(x, rest);
    if x != "" { assert (x + rest)[0] == x[0] && !IsSpecial(x[0]); }
  }

  lemma FieldRoundTrip(x: string, rest: string)
    requires EndsField(rest)
    ensures ReadField(EscapeField(x) + rest) == Some(Field(x, rest))
  {
    if NeedsQuotes(x) { QuotedFieldRoundTrip(x, rest); } else { BareFieldRoundTrip(x, rest); }
  }

  // ---------------------------------------------------------------- one record, then a file

  /** The records after one that ends where `rest` begins; a final line break ends the file. */
  function ReadOn(rest: string): Option<seq<seq<string>>>
    requires rest == "" || StartsWithBreak(rest)
  {
    if rest == "" || rest == CRLF then Some([]) else Read(rest[2..])
  }

  lemma LineOne(x: string)
    ensures Line([x]) == EscapeField(x)
  {
  }

  lemma PrintOne(r: seq<string>)
    ensures Print([r]) == Line(r)
  {
  }

  lemma LineCons(x: string, tail: seq<string>)
    requires tail != []
    ensures Line([x] + tail) == EscapeField(x) + "," + Line(tail)
  {
    var fs := [x] + tail;
    var parts := seq(|fs|, i requires 0 <= i < |fs| => EscapeField(fs[i]));
    assert parts[1..] == seq(|tail|, i requires 0 <= i < |tail| => EscapeField(tail[i]));
  }

  /** A record's last field. */
  lemma ReadLastField(x: string, rest: string)
    requires rest == "" || StartsWithBreak(rest)
    ensures Read(EscapeField(x) + rest) ==
      match ReadOn(rest) { case None => None case Some(t) => Some([[x]] + t) }
  {
    FieldRoundTrip(x, rest);
    var one: seq<seq<string>> := [[x]];
    assert one + [] == one;
  }

  /** A field followed by a comma. */
  lemma ReadFirstField(x: string, more: string)
    ensures Read(EscapeField(x) + "," + more) ==
      match Read(more) {
        case None => None
        case Some(t) => if t == [] then None else Some([[x] + t[0]] + t[1..])
      }
  {
    assert EscapeField(x) + "," + more == EscapeField(x) + ("," + more);
    FieldRoundTrip(x, "," + more);
    assert ("," + more)[1..] == more;
  }

  lemma {:induction false} RecordRoundTrip(fields: seq<string>, rest: string)
    requires fields != [] && (rest == "" || StartsWithBreak(rest))
    ensures Read(Line(fields) + rest) ==
      match ReadOn(rest) { case None => None case Some(t) => Some([fields] + t) }
    decreases |fields|
  {
    var x, tail := fields[0], fields[1..];
    if tail == [] {
      assert fields == [x];
      LineOne(x);
      ReadLastField(x, rest);
    } else {
      assert fields == [x] + tail;
      LineCons(x, tail);
      assert Line(fields) + rest == EscapeField(x) + "," + (Line(tail) + rest);
      ReadFirstField(x, Line(tail) + rest);
      RecordRoundTrip(tail, rest);
      if ReadOn(rest).Some? {
        var t := ReadOn(rest).value;
        assert ([tail] + t)[0] == tail && ([tail] + t)[1..] == t;
      }
    }
  }

  lemma PrintCons(r: seq<string>, tail: seq<seq<string>>)
    requires tail != []
    ensures Print([r] + tail) == Line(r) + (CRLF + Print(tail))
  {
    var t := [r] + tail;
    var parts := seq(|t|, i requires 0 <= i < |t| => Line(t[i]));
    assert parts[1..] == seq(|tail|, i requires 0 <= i < |tail| => Line(tail[i]));
    assert Line(r) + CRLF + Print(tail) == Line(r) + (CRLF + Print(tail));
  }

  lemma EscapedIsEmptyIff(x: string)
    ensures EscapeField(x) == "" <==> x == ""
  {
  }

  lemma LineIsEmptyIff(r: seq<string>)
    requires r != []
    ensures Line(r) == "" <==> r == [""]
  {
    EscapedIsEmptyIff(r[0]);
    if |r| == 1 {
      assert r == [r[0]];
    } else {
      assert r == [r[0]] + r[1..];
      LineCons(r[0], r[1..]);
      assert |Line(r)| >= 1;
    }
  }

  lemma PrintIsEmptyIff(t: seq<seq<string>>)
    requires t != [] && forall i :: 0 <= i < |t| ==> t[i] != []
    ensures Print(t) == "" <==> t == [[""]]
  {
    LineIsEmptyIff(t[0]);
    if |t| == 1 {
      assert t == [t[0]];
    } else {
      assert t == [t[0]] + t[1..];
      PrintCons(t[0], t[1..]);
      assert |Print(t)| >= 2;
    }
  }

  /** A last record that is one empty field prints as a final line break, which reads as nothing. */
  function Seen(t: seq<seq<string>>): seq<seq<string>> {
    if |t| >= 2 && t[|t| - 1] == [""] then t[..|t| - 1] else t
  }

  lemma {:induction false} ReadPrinted(t: seq<seq<string>>)
    requires t != [] && forall i :: 0 <= i < |t| ==> t[i] != []
    ensures Read(Print(t)) == Some(Seen(t))
    decreases |t|
  {
    var r, tail := t[0], t[1..];
    if tail == [] {
      assert t == [r];
      PrintOne(r);
      RecordRoundTrip(r, "");
      assert [r] + [] == [r];
      assert Line(r) + "" == Line(r);
    } else {
      assert t == [r] + tail;
      PrintCons(r, tail);
      PrintIsEmptyIff(tail);
      ReadPrinted(tail);
      ReadNextRecord(r, Print(tail));
      if tail != [[""]] { assert [r] + Seen(tail) == Seen(t); } else { assert Seen(t) == [r]; }
    }
  }

  /** A record, a line break and what follows; nothing more is seen after a final line break. */
  lemma ReadNextRecord(r: seq<string>, more: string)
    requires r != []
    ensures Read(Line(r) + (CRLF + more)) ==
      if more == "" then Some([r]) else match Read(more) { case None => None case Some(t) => Some([r] + t) }
  {
    var rest := CRLF + more;
    assert rest[2..] == more && (rest == CRLF <==> more == "");
    RecordRoundTrip(r, rest);
    assert [r] + [] == [r];
  }

  lemma {:induction false} RecordsHaveFields(s: string)
    ensures Read(s).Some? ==> Read(s).value != [] && Read(s).value[0] != []
    decreases |s|
  {
  }

  lemma TableShape(rows: seq<Row>, columns: seq<Column>)
    ensures var t := Table(rows, columns);
      && |t| == |rows| + 1
      && (forall i :: 0 <= i < |t| ==> |t[i]| == |columns|)
      && (rows != [] && |columns| == 1 ==> t[|rows|] == [Cell(rows[|rows| - 1], columns[0])])
  {
    var t := Table(rows, columns);
    assert t[0] == Headers(columns);
    assert forall i :: 1 <= i < |t| ==> t[i] == Cells(rows[i - 1], columns);
  }

  lemma SeenAllIff(t: seq<seq<string>>)
    requires t != []
    ensures Seen(t) == t <==> |t| == 1 || t[|t| - 1] != [""]
  {
  }

  /** Reading a written table gives the table back exactly when there are two or more columns, or
      one column whose last record is not an empty field (the header alone may be empty). */
  lemma CsvRoundTripIff(rows: seq<Row>, columns: seq<Column>)
    ensures Read(Print(Table(rows, columns))) == Some(Table(rows, columns)) <==>
      |columns| >= 2 || (|columns| == 1 && (rows == [] || Cell(rows[|rows| - 1], columns[0]) != ""))
  {
    var t := Table(rows, columns);
    TableShape(rows, columns);
    if columns == [] {
      RecordsHaveFields(Print(t));
      assert |t[0]| == 0;
    } else {
      ReadPrinted(t);
      SeenAllIff(t);
      assert |t[|t| - 1]| == |columns|;
    }
  }

  /** One column and one row without that key: the record is lost to the reader. */
  lemma EmptyLastFieldIsLost(key: string, header: string)
    requires header != ""
    ensures Table([map[]], [Column(key, header)]) == [[header], [""]]
    ensures Read(Print(Table([map[]], [Column(key, header)]))) == Some([[header]])
  {
    var columns := [Column(key, header)];
    var t := Table([map[]], columns);
    assert Headers(columns) == [header] && Cells(map[], columns) == [""];
    assert t[0] == Headers(columns) && t[1] == Cells(map[], columns);
    ReadPrinted(t);
    assert t[..1] == [[header]];
  }

  /** A field is written bare exactly when it has no comma, quote or line break. */
  lemma BareIff(s: string)
    ensures EscapeField(s) == s <==> forall i :: 0 <= i < |s| ==> s[i] !in {',', '"', '\n', '\r'}
    ensures EscapeField(s) != s ==> |EscapeField(s)| >= 2 && EscapeField(s)[0] == '"'
  {
    DoubledIsLonger(s);
    if NeedsQuotes(s) {
      var i :| 0 <= i < |s| && IsSpecial(s[i]);
      assert |EscapeField(s)| == |DoubleQuotes(s)| + 2;
    }
  }

  lemma {:induction false} DoubledIsLonger(s: string)
    ensures |DoubleQuotes(s)| >= |s|
    decreases |s|
  {
    if s == "" {
    } else {
      DoubledIsLonger(s[1..]);
    }
  }

  /** Where the round trip holds, a reader finds the headers in the first record, and in record i + 1,
      column j what row i holds under the key of column j: nothing if the key is missing or null. */
  lemma CellsReadBack(rows: seq<Row>, columns: seq<Column>, i: nat, j: nat)
    requires i < |rows| && j < |columns|
    requires |columns| >= 2 || Cell(rows[|rows| - 1], columns[0]) != ""
    ensures var t := Read(Print(Table(rows, columns)));
      && t.Some? && |t.value| == |rows| + 1 && |t.value[0]| == |columns| && |t.value[i + 1]| == |columns|
      && t.value[0][j] == columns[j].header
      && (columns[j].key in rows[i] && rows[i][columns[j].key].Some? ==>
            t.value[i + 1][j] == rows[i][columns[j].key].value)
      && (columns[j].key !in rows[i] || rows[i][columns[j].key].None? ==> t.value[i + 1][j] == "")
  {
    CsvRoundTripIff(rows, columns);
    TableShape(rows, columns);
    assert Table(rows, columns)[0] == Headers(columns) && Table(rows, columns)[i + 1] == Cells(rows[i], columns);
  }
}
