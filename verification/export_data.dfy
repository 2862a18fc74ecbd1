/** The export of transactions: the flat rows `prepareTransactionData`
    builds, and the text `exportToCSV` assembles from rows. Writing the
    file and the spreadsheet export are library calls and not modelled;
    `JSON.stringify` of a single value and date formatting are
    parameters. */
module ExportData {
  import opened Wrappers
  import opened Text
  import Js
  import opened Views

  /** A plain object: its fields in insertion order. */
  type Row = seq<(string, Js.Value)>

  function RowKeys(row: Row): (r: seq<string>)
    ensures |r| == |row|
    ensures forall i :: 0 <= i < |row| ==> r[i] == row[i].0
  {
    seq(|row|, i requires 0 <= i < |row| => row[i].0)
  }

  /** `row[fieldName]`: the field's value, or `undefined` when absent. */
  function Lookup(row: Row, key: string): (v: Js.Value)
    ensures key !in RowKeys(row) ==> v == Js.Undefined
    ensures |row| > 0 && row[0].0 == key ==> v == row[0].1
    decreases |row|
  {
    if |row| == 0 then Js.Undefined
    else if row[0].0 == key then row[0].1
    else Lookup(row[1..], key)
  }

  const COLUMNS: seq<string> := ["Date", "Type", "Amount", "Description", "Category", "Account"]

  /** One exported row: the formatted date, the type, amount and
      description as they are, and the category and account names with
      their fallbacks. */
  function PrepareRow(t: TxView, formatDate: int -> string): (row: Row)
    ensures RowKeys(row) == COLUMNS
  {
    [ ("Date", Js.Str(formatDate(t.date))),
      ("Type", Js.Str(t.kind)),
      ("Amount", Js.Num(Js.Finite(t.amount))),
      ("Description", Js.Str(t.description)),
      ("Category", Js.Str(CategoryLabel(t))),
      ("Account", Js.Str(AccountLabel(t))) ]
  }

  /** What each column of an exported row reads back as. */
  lemma PreparedFields(t: TxView, formatDate: int -> string)
    ensures var row := PrepareRow(t, formatDate);
            && Lookup(row, "Date") == Js.Str(formatDate(t.date))
            && Lookup(row, "Type") == Js.Str(t.kind)
            && Lookup(row, "Amount") == Js.Num(Js.Finite(t.amount))
            && Lookup(row, "Description") == Js.Str(t.description)
            && Lookup(row, "Category") == Js.Str(CategoryLabel(t))
            && Lookup(row, "Account") == Js.Str(AccountLabel(t))
            && (t.category.None? ==> Lookup(row, "Category") == Js.Str(UNCATEGORIZED))
            && (t.account.None? ==> Lookup(row, "Account") == Js.Str(UNKNOWN_ACCOUNT))
  {
    var row := PrepareRow(t, formatDate);
    assert Lookup(row, "Type") == Lookup(row[1..], "Type");
    assert Lookup(row, "Amount") == Lookup(row[1..], "Amount") == Lookup(row[2..], "Amount");
    assert Lookup(row, "Description") == Lookup(row[1..], "Description") == Lookup(row[2..], "Description")
        == Lookup(row[3..], "Description");
    assert Lookup(row, "Category") == Lookup(row[1..], "Category") == Lookup(row[2..], "Category")
        == Lookup(row[3..], "Category") == Lookup(row[4..], "Category");
    assert Lookup(row, "Account") == Lookup(row[1..], "Account") == Lookup(row[2..], "Account")
        == Lookup(row[3..], "Account") == Lookup(row[4..], "Account") == Lookup(row[5..], "Account");
  }

  /** `prepareTransactionData`: one row per transaction, in order. */
  function Prepare(ts: seq<TxView>, formatDate: int -> string): (rows: seq<Row>)
    ensures |rows| == |ts|
    ensures forall i :: 0 <= i < |ts| ==> rows[i] == PrepareRow(ts[i], formatDate)
  {
    seq(|ts|, i requires 0 <= i < |ts| => PrepareRow(ts[i], formatDate))
  }

  /** `JSON.stringify(value, replacer)` with the replacer that turns null
      into `''`: undefined produces no text (and `join` prints nothing for
      it), null is written as the empty string, anything else as
      `encode` writes it. */
  function Cell(v: Js.Value, encode: Js.Value -> string): string {
    match v
    case Undefined => ""
    case Null => encode(Js.Str(""))
    case _ => encode(v)
  }

  /** One data line's fields, in header order. */
  function Cells(row: Row, header: seq<string>, encode: Js.Value -> string): (r: seq<string>)
    ensures |r| == |header|
    ensures forall j :: 0 <= j < |header| ==> r[j] == Cell(Lookup(row, header[j]), encode)
  {
    seq(|header|, j requires 0 <= j < |header| => Cell(Lookup(row, header[j]), encode))
  }

  function Lines(data: seq<Row>, header: seq<string>, encode: Js.Value -> string): (r: seq<string>)
    ensures |r| == |data|
    ensures forall i :: 0 <= i < |data| ==> r[i] == Join(Cells(data[i], header, encode), ",")
  {
    seq(|data|, i requires 0 <= i < |data| => Join(Cells(data[i], header, encode), ","))
  }

  /** `exportToCSV`'s text: the header line from the first row's keys, then
      one line per row, joined by CRLF. With no rows `data[0]` is
      undefined and the export throws, modelled as `None`. */
  function Csv(data: seq<Row>, encode: Js.Value -> string): (r: Option<string>)
    ensures r.Some? <==> |data| > 0
  {
    if |data| == 0 then None
    else
      var header := RowKeys(data[0]);
      Some(Join([Join(header, ",")] + Lines(data, header, encode), "\r\n"))
  }

  const CRLF: string := "\r\n"

  /** Text free of line breaks and commas. */
  predicate Plain(s: string) {
    AvoidsChars(s, CRLF) && AvoidsChars(s, ",")
  }

  lemma {:induction false} JoinAvoids(parts: seq<string>, sep: string, chars: string)
    requires forall j :: 0 <= j < |parts| ==> AvoidsChars(parts[j], chars)
    requires AvoidsChars(sep, chars)
    ensures AvoidsChars(Join(parts, sep), chars)
    decreases |parts|
  {
    if |parts| > 1 {
      JoinAvoids(parts[1..], sep, chars);
      var rest := Join(parts[1..], sep);
      var s := parts[0] + sep + rest;
      forall k | 0 <= k < |s| ensures s[k] !in chars {
        if k < |parts[0]| {
          assert s[k] == parts[0][k];
        } else if k < |parts[0]| + |sep| {
          assert s[k] == sep[k - |parts[0]|];
        } else {
          assert s[k] == rest[k - |parts[0]| - |sep|];
        }
      }
    }
  }

  /** When no key and no written cell holds a line break or a comma, the
      text splits back into `data.length + 1` lines: the header line, then
      each row's line, which splits back into one field per header key in
      header order. */
  lemma CsvReadsBack(data: seq<Row>, encode: Js.Value -> string)
    requires |data| > 0 && |data[0]| > 0
    requires forall j :: 0 <= j < |data[0]| ==> Plain(data[0][j].0)
    requires forall i, j :: 0 <= i < |data| && 0 <= j < |data[0]| ==> Plain(Cell(Lookup(data[i], data[0][j].0), encode))
    ensures var header := RowKeys(data[0]);
            var lines := Split(Csv(data, encode).value, CRLF);
            && |lines| == |data| + 1
            && Split(lines[0], ",") == header
            && forall i :: 0 <= i < |data| ==> Split(lines[i + 1], ",") == Cells(data[i], header, encode)
  {
    var header := RowKeys(data[0]);
    var body := Lines(data, header, encode);
    var all := [Join(header, ",")] + body;
    assert AvoidsChars(",", CRLF);
    JoinAvoids(header, ",", CRLF);
    SplitJoin(header, ",");
    forall i | 0 <= i < |data|
      ensures AvoidsChars(body[i], CRLF) && Split(body[i], ",") == Cells(data[i], header, encode)
    {
      var cells := Cells(data[i], header, encode);
      JoinAvoids(cells, ",", CRLF);
      SplitJoin(cells, ",");
    }
    SplitJoin(all, CRLF);
  }

  /** The header of an export of transactions: the column names joined by
      commas. */
  const HEADER_LINE: string := Join(COLUMNS, ",")

  lemma HeaderLinePlain()
    ensures AvoidsChars(HEADER_LINE, CRLF)
  {
    assert AvoidsChars(",", CRLF);
    forall j | 0 <= j < |COLUMNS| ensures AvoidsChars(COLUMNS[j], CRLF) {
    }
    JoinAvoids(COLUMNS, ",", CRLF);
  }

  /** Exporting prepared transactions writes the six fixed column names as
      the header line. */
  lemma PreparedHeader(ts: seq<TxView>, formatDate: int -> string, encode: Js.Value -> string)
    requires |ts| > 0
    ensures Split(Csv(Prepare(ts, formatDate), encode).value, CRLF)[0] == HEADER_LINE
  {
    var data := Prepare(ts, formatDate);
    var header := RowKeys(data[0]);
    assert header == COLUMNS;
    HeaderLinePlain();
    var rest := Join(Lines(data, header, encode), CRLF);
    var all := [HEADER_LINE] + Lines(data, header, encode);
    assert all[1..] == Lines(data, header, encode);
    var text := HEADER_LINE + CRLF + rest;
    assert Csv(data, encode).value == text;
    FindFromSkips(HEADER_LINE, CRLF, rest, 0);
    assert text[..|HEADER_LINE|] == HEADER_LINE;
  }
}
