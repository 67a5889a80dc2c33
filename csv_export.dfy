/**
 * The CSV export of the admin page: a fixed header line, then one line per stored
 * record, with the metrics JSON quoted and its quotes doubled.
 */
module CsvExport {
  import opened Wrappers
  import opened Text

  /**
   * A record as the export selects it. `season` and `teamNumber` are None when the
   * stored number is null (the form stores a NaN `parseInt` result as null).
   * `metricsJson` is the `JSON.stringify` text of the metrics (None when they are
   * null), which this model takes as given.
   */
  datatype ExportRow = ExportRow(season: Option<int>, eventCode: string, matchKey: string, teamNumber: Option<int>,
                                 scoutId: Option<string>, createdAt: string, metricsJson: Option<string>)

  const HeaderColumns: seq<string> :=
    ["season", "event_code", "match_key", "team_number", "scout_id", "created_at", "metrics_json"]

  /** The first line of the export: the column names joined by commas. */
  const HeaderLine: string := Join(HeaderColumns, ',')

  /** Lower-case letters and underscores only. */
  predicate Word(s: string) {
    forall j :: 0 <= j < |s| ==> 'a' <= s[j] <= 'z' || s[j] == '_'
  }

  /** No column name holds a comma or a line break, so the header splits back into them. */
  lemma HeaderColumnsSplit()
    ensures forall i :: 0 <= i < |HeaderColumns| ==> ',' !in HeaderColumns[i] && '\n' !in HeaderColumns[i]
    ensures Split(HeaderLine, ',') == HeaderColumns
  {
    assert forall i :: 0 <= i < |HeaderColumns| ==> Word(HeaderColumns[i]) by {
      var h := HeaderColumns;
      assert Word(h[0]) && Word(h[1]) && Word(h[2]) && Word(h[3]);
      assert Word(h[4]) && Word(h[5]) && Word(h[6]);
    }
    forall i | 0 <= i < |HeaderColumns| ensures ',' !in HeaderColumns[i] && '\n' !in HeaderColumns[i] {
      assert Word(HeaderColumns[i]);
    }
    SplitJoin(HeaderColumns, ',');
  }

  /** `replaceAll('"', '""')`. */
  function Escape(s: string): (r: string)
    ensures |r| >= |s|
    ensures '"' !in s ==> r == s
  {
    if s == [] then []
    else (if s[0] == '"' then "\"\"" else [s[0]]) + Escape(s[1..])
  }

  /** Reading a quoted CSV field back: each `""` collapses to `"`. */
  function Unescape(s: string): string {
    if |s| >= 2 && s[0] == '"' && s[1] == '"' then "\"" + Unescape(s[2..])
    else if s == [] then []
    else [s[0]] + Unescape(s[1..])
  }

  lemma {:induction false} UnescapeEscape(s: string)
    ensures Unescape(Escape(s)) == s
  {
    if s != [] {
      UnescapeEscape(s[1..]);
      var e := Escape(s);
      if s[0] == '"' {
        assert e == "\"\"" + Escape(s[1..]);
        assert e[2..] == Escape(s[1..]);
      } else {
        assert e == [s[0]] + Escape(s[1..]);
        assert e[1..] == Escape(s[1..]);
        assert s == [s[0]] + s[1..];
      }
    }
  }

  /** The metrics column: `JSON.stringify(r.metrics || {})`, quotes doubled, in quotes. */
  function MetricsCell(r: ExportRow): (c: string)
    ensures |c| >= 2 && c[0] == '"' && c[|c| - 1] == '"'
    ensures Unescape(c[1..|c| - 1]) == r.metricsJson.GetOr("{}")
  {
    var json := r.metricsJson.GetOr("{}");
    UnescapeEscape(json);
    var c := "\"" + Escape(json) + "\"";
    assert c[1..|c| - 1] == Escape(json);
    c
  }

  /** A nullable number as `join` prints it: null as the empty string. */
  function NumberCell(n: Option<int>): (c: string)
    ensures n.None? <==> c == ""
  {
    match n
    case None => ""
    case Some(k) => IntToString(k)
  }

  /** A printed cell parses back to its number, and an empty cell to none. */
  lemma NumberCellParses(n: Option<int>)
    ensures ParseInt10(NumberCell(n)) == n
  {
    if n.Some? {
      ParseIntOfIntToString(n.value);
    }
  }

  /** A number cell holds only digits and a minus sign. */
  lemma NumberCellChars(n: Option<int>, c: char)
    requires c in NumberCell(n)
    ensures IsDigit(c) || c == '-'
  {
    IntToStringChars(n.value, c);
  }

  /** The seven cells of a record's line; a null number or scout id prints as empty. */
  function Cells(r: ExportRow): seq<string> {
    [NumberCell(r.season), r.eventCode, r.matchKey, NumberCell(r.teamNumber),
     r.scoutId.GetOr(""), r.createdAt, MetricsCell(r)]
  }

  function Line(r: ExportRow): string {
    Join(Cells(r), ',')
  }

  /** `rows.map(...)`: one line per record, in record order. */
  function RecordLines(rows: seq<ExportRow>): (ls: seq<string>)
    ensures |ls| == |rows|
    ensures forall i :: 0 <= i < |rows| ==> ls[i] == Line(rows[i])
  {
    if rows == [] then []
    else
      var init := RecordLines(rows[..|rows| - 1]);
      var r := init + [Line(rows[|rows| - 1])];
      assert forall i :: 0 <= i < |rows| - 1 ==> r[i] == init[i] && rows[..|rows| - 1][i] == rows[i];
      r
  }

  /** The header line, then the record lines. */
  function Lines(rows: seq<ExportRow>): seq<string> {
    [HeaderLine] + RecordLines(rows)
  }

  /** The exported text: the lines joined by newlines. */
  function Csv(rows: seq<ExportRow>): string {
    Join(Lines(rows), '\n')
  }

  /** The number the status line reports. */
  function ExportedCount(rows: seq<ExportRow>): nat {
    |rows|
  }

  /** No text column of the record holds a comma. */
  predicate CommaFree(r: ExportRow) {
    ',' !in r.eventCode && ',' !in r.matchKey && ',' !in r.scoutId.GetOr("") && ',' !in r.createdAt
  }

  /** No column of the record, metrics JSON included, holds a line break. */
  predicate SingleLine(r: ExportRow) {
    && '\n' !in r.eventCode && '\n' !in r.matchKey && '\n' !in r.scoutId.GetOr("")
    && '\n' !in r.createdAt && '\n' !in r.metricsJson.GetOr("{}")
  }

  /** A record whose text columns hold no comma reads back as its first six columns. */
  lemma ColumnsRecovered(r: ExportRow)
    requires CommaFree(r)
    ensures |Split(Line(r), ',')| >= 7
    ensures Split(Line(r), ',')[..6] ==
      [NumberCell(r.season), r.eventCode, r.matchKey, NumberCell(r.teamNumber), r.scoutId.GetOr(""), r.createdAt]
  {
    var cells := Cells(r);
    LeadingCellsCommaFree(r);
    SplitJoinLeading(cells, ',', 6);
    assert cells[..6] ==
      [NumberCell(r.season), r.eventCode, r.matchKey, NumberCell(r.teamNumber), r.scoutId.GetOr(""), r.createdAt];
  }

  lemma LeadingCellsCommaFree(r: ExportRow)
    requires CommaFree(r)
    ensures forall i :: 0 <= i < 6 ==> ',' !in Cells(r)[i]
  {
    if ',' in NumberCell(r.season) {
      NumberCellChars(r.season, ',');
    }
    if ',' in NumberCell(r.teamNumber) {
      NumberCellChars(r.teamNumber, ',');
    }
  }

  lemma EscapeChars(s: string, c: char)
    requires c in Escape(s)
    ensures c in s
  {
    if s != [] && c != s[0] {
      assert c in Escape(s[1..]);
      EscapeChars(s[1..], c);
    }
  }

  lemma LineSingle(r: ExportRow)
    requires SingleLine(r)
    ensures '\n' !in Line(r)
  {
    var cells := Cells(r);
    if '\n' in Line(r) {
      JoinChars(cells, ',', '\n');
      var i :| 0 <= i < |cells| && '\n' in cells[i];
      if i == 0 {
        NumberCellChars(r.season, '\n');
      } else if i == 3 {
        NumberCellChars(r.teamNumber, '\n');
      } else if i == 6 {
        var json := r.metricsJson.GetOr("{}");
        assert '\n' in Escape(json);
        EscapeChars(json, '\n');
      }
    }
  }

  /**
   * The export splits back, line by line, into the header and one line per record,
   * so the reported count is the number of data lines.
   */
  lemma CsvLines(rows: seq<ExportRow>)
    requires forall i :: 0 <= i < |rows| ==> SingleLine(rows[i])
    ensures Split(Csv(rows), '\n') == Lines(rows)
    ensures |Split(Csv(rows), '\n')| == ExportedCount(rows) + 1
  {
    var ls := Lines(rows);
    forall i | 0 <= i < |ls| ensures '\n' !in ls[i] {
      if i > 0 {
        LineSingle(rows[i - 1]);
      } else {
        HeaderColumnsSplit();
        if '\n' in HeaderLine {
          JoinChars(HeaderColumns, ',', '\n');
        }
      }
    }
    SplitJoin(ls, '\n');
  }
}
