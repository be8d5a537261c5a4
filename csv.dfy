/** The hand-written CSV parser of the task board (`parseCSV`): a character
    scanner that splits the text into rows of trimmed cells, followed by a
    pass that turns every row after the first into a record keyed by the
    first row's cells. */
module Csv {
  import opened Wrappers
  import opened Text

  /** One row of trimmed cells. */
  type Row = seq<string>

  /** A record maps each header name to its cell, or to `None` (JavaScript's
      `undefined`) when the row was too short to have that cell. */
  type Record = map<string, Option<string>>

  predicate IsLineBreak(c: char) {
    c == '\r' || c == '\n'
  }

  // ---------------------------------------------------------------------------
  // Phase 1: the scanner
  // ---------------------------------------------------------------------------

  /** The scanner's mutable state: the quote flag, the untrimmed cell being
      accumulated, the cells of the current row and the finished rows. */
  datatype ScanState = ScanState(inQuotes: bool, cell: string, row: Row, rows: seq<Row>)

  const Start := ScanState(false, "", [], [])

  /** A row is pending when the untrimmed cell is non-empty or the row already has cells. */
  predicate HasPending(st: ScanState) {
    st.cell != "" || |st.row| > 0
  }

  /** What an unquoted line break and the end of the input do: close the
      pending row, if there is one, with the trimmed cell as its last cell. */
  function EndRow(st: ScanState): (r: ScanState)
    ensures r.inQuotes == st.inQuotes
    ensures !HasPending(r)
    ensures HasPending(st) ==> r.rows == st.rows + [st.row + [Trim(st.cell)]]
    ensures !HasPending(st) ==> r == st
  {
    if HasPending(st) then ScanState(st.inQuotes, "", [], st.rows + [st.row + [Trim(st.cell)]])
    else st
  }

  /** One iteration of the scanner on the non-empty rest `s` of the text:
      the new state and how many characters were consumed. A quote toggles
      the quote flag, except that a second quote right after a quote inside
      quotes adds one literal quote and both are consumed; an unquoted comma
      closes the cell; an unquoted CR or LF ends the pending row; every other
      character is cell content. */
  function Step(s: string, st: ScanState): (r: (ScanState, nat))
    requires s != []
    ensures 1 <= r.1 <= |s|
    ensures r.1 == (if s[0] == '"' && st.inQuotes && |s| > 1 && s[1] == '"' then 2 else 1)
  {
    if s[0] == '"' then
      if st.inQuotes && |s| > 1 && s[1] == '"' then (st.(cell := st.cell + ['"']), 2)
      else (st.(inQuotes := !st.inQuotes), 1)
    else if s[0] == ',' && !st.inQuotes then (st.(cell := "", row := st.row + [Trim(st.cell)]), 1)
    else if IsLineBreak(s[0]) && !st.inQuotes then (EndRow(st), 1)
    else (st.(cell := st.cell + [s[0]]), 1)
  }

  /** The scanner over the rest `s` of the text, from state `st`: the rows
      already emitted stay in front of the final rows. */
  function Scan(s: string, st: ScanState): (r: ScanState)
    ensures st.rows <= r.rows
    decreases |s|
  {
    if s == [] then st
    else
      var next := Step(s, st);
      assert st.rows <= next.0.rows;
      Scan(s[next.1..], next.0)
  }

  /** One unfolding of the scanner. */
  lemma ScanStep(s: string, st: ScanState)
    requires s != []
    ensures Scan(s, st) == Scan(s[Step(s, st).1..], Step(s, st).0)
  {
  }

  // The scanner's laws, one per kind of character.

  /** A quote toggles quoted mode and is not copied into the cell, unless it
      is the first of a doubled quote inside quoted mode. */
  lemma ScanQuote(rest: string, st: ScanState)
    requires !(st.inQuotes && rest != [] && rest[0] == '"')
    ensures Scan(['"'] + rest, st) == Scan(rest, st.(inQuotes := !st.inQuotes))
  {
    var s := ['"'] + rest;
    assert s[1..] == rest;
    ScanStep(s, st);
  }

  /** A doubled quote inside quoted mode adds exactly one literal quote and
      consumes both characters; quoted mode goes on. */
  lemma ScanDoubledQuote(rest: string, st: ScanState)
    requires st.inQuotes
    ensures Scan(['"', '"'] + rest, st) == Scan(rest, st.(cell := st.cell + ['"']))
  {
    var s := ['"', '"'] + rest;
    assert s[2..] == rest;
    ScanStep(s, st);
  }

  /** An unquoted comma closes the cell, trimmed, and starts an empty one. */
  lemma ScanComma(rest: string, st: ScanState)
    requires !st.inQuotes
    ensures Scan([','] + rest, st) == Scan(rest, st.(cell := "", row := st.row + [Trim(st.cell)]))
  {
    var s := [','] + rest;
    assert s[1..] == rest;
    ScanStep(s, st);
  }

  /** An unquoted CR or LF ends the pending row, if there is one, and does
      nothing otherwise. */
  lemma ScanLineBreak(c: char, rest: string, st: ScanState)
    requires IsLineBreak(c) && !st.inQuotes
    ensures Scan([c] + rest, st) == Scan(rest, EndRow(st))
  {
    var s := [c] + rest;
    assert s[1..] == rest;
    ScanStep(s, st);
  }

  /** Every other character, and inside quoted mode also commas and line
      breaks, is appended to the cell verbatim. */
  lemma ScanContent(c: char, rest: string, st: ScanState)
    requires c != '"'
    requires st.inQuotes || (c != ',' && !IsLineBreak(c))
    ensures Scan([c] + rest, st) == Scan(rest, st.(cell := st.cell + [c]))
  {
    var s := [c] + rest;
    assert s[1..] == rest;
    ScanStep(s, st);
  }

  /** The rows of `text`: the scan from the start, with the pending row
      flushed at the end of the input. Every row has at least one cell. */
  function SplitRows(text: string): (rows: seq<Row>)
    ensures forall k :: 0 <= k < |rows| ==> |rows[k]| > 0
  {
    ScanKeepsRows(text, Start);
    EndRow(Scan(text, Start)).rows
  }

  /** The scanner only appends rows, and every row it appends has a cell. */
  lemma {:induction false} ScanKeepsRows(s: string, st: ScanState)
    ensures |st.rows| <= |Scan(s, st).rows| && Scan(s, st).rows[..|st.rows|] == st.rows
    ensures (forall k :: 0 <= k < |st.rows| ==> |st.rows[k]| > 0) ==>
              forall k :: 0 <= k < |Scan(s, st).rows| ==> |Scan(s, st).rows[k]| > 0
    decreases |s|
  {
    if s != [] {
      var next := Step(s, st);
      ScanKeepsRows(s[next.1..], next.0);
      assert next.0.rows[..|st.rows|] == st.rows;
    }
  }

  // ---------------------------------------------------------------------------
  // Phase 2: header and records
  // ---------------------------------------------------------------------------

  predicate IsWrapped(v: string) {
    |v| > 0 && v[0] == '"' && v[|v| - 1] == '"'
  }

  /** A value that starts and ends with a quote loses its first and last
      character (a lone quote becomes empty); any other value is unchanged. */
  function StripQuotes(v: string): (r: string)
    ensures IsWrapped(v) ==> |r| == (if |v| >= 2 then |v| - 2 else 0) && r == v[1..1 + |r|]
    ensures !IsWrapped(v) ==> r == v
  {
    if IsWrapped(v) then (if |v| >= 2 then v[1..|v| - 1] else "") else v
  }

  /** The value stored for column `k` of `row`: absent when the row is short. */
  function CellValue(row: Row, k: nat): (v: Option<string>)
    ensures v.Some? <==> k < |row|
    ensures v.Some? ==> v.value == StripQuotes(row[k])
  {
    if k < |row| then Some(StripQuotes(row[k])) else None
  }

  /** The record after the first `n` header names have been assigned, in
      order, so a later duplicate name overwrites an earlier one. */
  function FillRecord(headers: Row, row: Row, n: nat): (obj: Record)
    requires n <= |headers|
    ensures obj.Keys == set h | h in headers[..n]
  {
    if n == 0 then map[]
    else
      assert headers[..n] == headers[..n - 1] + [headers[n - 1]];
      FillRecord(headers, row, n - 1)[headers[n - 1] := CellValue(row, n - 1)]
  }

  /** The record built from one data row: exactly the header names as keys. */
  function RecordOf(headers: Row, row: Row): (obj: Record)
    ensures obj.Keys == set h | h in headers
  {
    assert headers[..|headers|] == headers;
    FillRecord(headers, row, |headers|)
  }

  /** The first row is the header; every later row becomes one record. */
  function Records(rows: seq<Row>): (recs: seq<Record>)
    ensures |recs| == if rows == [] then 0 else |rows| - 1
    ensures forall j :: 0 <= j < |recs| ==> recs[j] == RecordOf(rows[0], rows[j + 1])
  {
    if rows == [] then []
    else seq(|rows| - 1, j requires 0 <= j < |rows| - 1 => RecordOf(rows[0], rows[j + 1]))
  }

  /** What `parseCSV` returns for `text`: every record is keyed by exactly
      the names of the header row. */
  function Parse(text: string): (recs: seq<Record>)
    ensures forall j :: 0 <= j < |recs| ==>
              SplitRows(text) != [] && recs[j].Keys == set h | h in SplitRows(text)[0]
  {
    Records(SplitRows(text))
  }

  /** The parser as the source runs it: the scanning loop, then the loop
      that fills one record per data row. */
  method ParseCsv(text: string) returns (records: seq<Record>)
    ensures records == Parse(text)
  {
    var rows := ScanRows(text);
    records := BuildRecords(rows);
  }

  /** The scanning loop: one pass over the text with a mutable quote flag,
      cell, row and row list, and an index that skips the second quote of an
      escaped pair; the pending row is flushed after the loop. */
  method ScanRows(text: string) returns (rows: seq<Row>)
    ensures rows == SplitRows(text)
  {
    rows := [];
    var row: Row := [];
    var currentCell := "";
    var inQuotes := false;
    var i := 0;
    while i < |text|
      invariant 0 <= i <= |text|
      invariant Scan(text[i..], ScanState(inQuotes, currentCell, row, rows)) == Scan(text, Start)
      decreases |text| - i
    {
      ghost var rest := text[i..];
      ghost var before := ScanState(inQuotes, currentCell, row, rows);
      var c := text[i];
      if c == '"' {
        if inQuotes && i + 1 < |text| && text[i + 1] == '"' {
          currentCell := currentCell + ['"'];
          i := i + 1;
        } else {
          inQuotes := !inQuotes;
        }
      } else if c == ',' && !inQuotes {
        row := row + [Trim(currentCell)];
        currentCell := "";
      } else if (c == '\r' || c == '\n') && !inQuotes {
        if currentCell != "" || |row| > 0 {
          row := row + [Trim(currentCell)];
          rows := rows + [row];
          row := [];
          currentCell := "";
        }
      } else {
        currentCell := currentCell + [c];
      }
      i := i + 1;
      assert Step(rest, before) == (ScanState(inQuotes, currentCell, row, rows), |rest| - |text[i..]|);
      assert rest[|rest| - |text[i..]|..] == text[i..];
    }
    if currentCell != "" || |row| > 0 {
      row := row + [Trim(currentCell)];
      rows := rows + [row];
    }
  }

  /** The record-building loop: the first row is the header, and for every
      later row a record is filled header by header. */
  method BuildRecords(rows: seq<Row>) returns (records: seq<Record>)
    ensures records == Records(rows)
  {
    records := [];
    if |rows| > 0 {
      var headers := rows[0];
      var j := 1;
      while j < |rows|
        invariant 1 <= j <= |rows|
        invariant records == Records(rows)[..j - 1]
      {
        var obj: Record := map[];
        var k := 0;
        while k < |headers|
          invariant 0 <= k <= |headers|
          invariant obj == FillRecord(headers, rows[j], k)
        {
          var val := if k < |rows[j]| then Some(StripQuotes(rows[j][k])) else None;
          obj := obj[headers[k] := val];
          k := k + 1;
        }
        assert obj == Records(rows)[j - 1];
        TakeOneMore(Records(rows), j - 1);
        records := records + [obj];
        j := j + 1;
      }
      assert Records(rows)[..j - 1] == Records(rows);
    }
  }

  // Small sequence identities, stated apart so that proofs busy with the
  // scanner need not discover them.

  lemma TakeOneMore<T>(s: seq<T>, n: nat)
    requires n < |s|
    ensures s[..n] + [s[n]] == s[..n + 1]
  {
  }

  lemma EmptyLaws<T>(s: seq<T>)
    ensures [] + s == s && s + [] == s
  {
  }

  lemma Uncons(s: string)
    requires s != []
    ensures s == [s[0]] + s[1..]
    ensures '"' !in s ==> '"' !in s[1..]
  {
  }
}
