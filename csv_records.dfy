/** Properties of the header and record phase, and of whole parses. */
module CsvRecords {
  import opened Wrappers
  import opened Text
  import opened Csv
  import opened CsvQuoting
  import opened CsvUnquoted

  predicate LastOccurrence(headers: Row, k: nat)
    requires k < |headers|
  {
    forall j :: k < j < |headers| ==> headers[j] != headers[k]
  }

  lemma {:induction false} FillField(headers: Row, row: Row, n: nat, k: nat)
    requires k < n <= |headers|
    requires forall j :: k < j < n ==> headers[j] != headers[k]
    ensures FillRecord(headers, row, n)[headers[k]] == CellValue(row, k)
    decreases n
  {
    var prev := FillRecord(headers, row, n - 1);
    assert FillRecord(headers, row, n) == prev[headers[n - 1] := CellValue(row, n - 1)];
    if n - 1 != k {
      assert headers[n - 1] != headers[k];
      FillField(headers, row, n - 1, k);
    }
  }

  /** The key at index `k` maps to cell `k` (quotes stripped), unless the same
      name occurs again later in the header, whose column then wins; a row too
      short to have cell `k` leaves the key undefined rather than empty. */
  lemma RecordField(headers: Row, row: Row, k: nat)
    requires k < |headers| && LastOccurrence(headers, k)
    ensures RecordOf(headers, row)[headers[k]] ==
              if k < |row| then Some(StripQuotes(row[k])) else None
  {
    FillField(headers, row, |headers|, k);
  }

  lemma {:induction false} FillIgnoresExtra(headers: Row, row: Row, n: nat)
    requires n <= |headers| < |row|
    ensures FillRecord(headers, row, n) == FillRecord(headers, row[..|headers|], n)
    decreases n
  {
    if n > 0 {
      FillIgnoresExtra(headers, row, n - 1);
    }
  }

  /** Cells beyond the header's length are dropped. */
  lemma ExtraCellsDropped(headers: Row, row: Row)
    requires |row| > |headers|
    ensures RecordOf(headers, row) == RecordOf(headers, row[..|headers|])
  {
    FillIgnoresExtra(headers, row, |headers|);
  }

  /** Empty input has no header and gives no records. */
  lemma EmptyInput()
    ensures Parse("") == []
  {
  }

  /** A header line alone, with or without a final line break, gives no records. */
  lemma HeaderOnly(h: string)
    requires '"' !in h && NoLineBreak(h)
    ensures Parse(h) == []
    ensures Parse(h + "\n") == []
  {
    UnquotedRows(h);
    LinesWithoutBreak(h);
    UnquotedRows(h + "\n");
    LinesAtBreak(h, '\n', "");
    assert h + ("\n" + "") == h + "\n";
    LinesWithoutBreak("");
  }

  /** A plain, non-empty first line becomes the one-cell header row. */
  lemma ScanHeaderLine(h: string, rest: string)
    requires h != "" && Plain(h)
    ensures Scan(h + ("\n" + rest), Start) == Scan(rest, ScanState(false, "", [], [[Trim(h)]]))
  {
    var st1 := ScanState(false, h, [], []);
    ScanPlain(h, "\n" + rest, Start);
    assert Start.(cell := Start.cell + h) == st1;
    assert "\n" + rest == ['\n'] + rest;
    ScanLineBreak('\n', rest, st1);
    assert st1.row + [Trim(h)] == [Trim(h)];
    assert EndRow(st1) == ScanState(false, "", [], [[Trim(h)]]);
  }

  lemma RoundTripRows(h: string, v: string)
    requires h != "" && Plain(h)
    ensures SplitRows(h + ("\n" + Quote(v))) ==
              if v == "" then [[Trim(h)]] else [[Trim(h)], [Trim(v)]]
  {
    var st2 := ScanState(false, "", [], [[Trim(h)]]);
    ScanHeaderLine(h, Quote(v));
    EmptyLaws(Quote(v));
    EmptyLaws(v);
    EmptyLaws([Trim(v)]);
    QuotedField(v, [], st2);
    var st3 := ScanState(false, v, [], [[Trim(h)]]);
    assert st2.(cell := st2.cell + v) == st3;
  }

  /** A header line and one data line holding a single field written the CSV
      way (in quotes, inner quotes doubled): the value comes back trimmed, with
      a surrounding quote pair stripped; it may hold commas, quotes and line
      breaks. An empty quoted field leaves no pending row, so no record. */
  lemma QuotedValueRoundTrip(h: string, v: string)
    requires h != "" && Plain(h)
    ensures Parse(h + ("\n" + Quote(v))) ==
              if v == "" then [] else [map[Trim(h) := Some(StripQuotes(Trim(v)))]]
  {
    RoundTripRows(h, v);
    if v != "" {
      assert RecordOf([Trim(h)], [Trim(v)]) == map[Trim(h) := Some(StripQuotes(Trim(v)))];
    }
  }

  /** So a non-empty value without surrounding whitespace comes back exactly,
      unless it both starts and ends with a quote. */
  lemma QuotedValueExact(h: string, v: string)
    requires h != "" && Plain(h)
    requires v != "" && Trim(v) == v && !IsWrapped(v)
    ensures Parse(h + ("\n" + Quote(v))) == [map[Trim(h) := Some(v)]]
  {
    QuotedValueRoundTrip(h, v);
  }
}
