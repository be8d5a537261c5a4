/** What the scanner does with quotes: a field written the usual CSV way
    (wrapped in quotes, inner quotes doubled) is read back as its value, and
    inside quotes commas and line breaks are ordinary content. */
module CsvQuoting {
  import opened Text
  import opened Csv

  /** Doubles every quote of `v`. */
  function Escape(v: string): (e: string)
    ensures |e| >= |v|
  {
    if v == [] then []
    else if v[0] == '"' then ['"', '"'] + Escape(v[1..])
    else [v[0]] + Escape(v[1..])
  }

  /** `v` written as a quoted CSV field. */
  function Quote(v: string): string {
    ['"'] + Escape(v) + ['"']
  }

  /** Inside quotes, the escaped form of a non-empty value starts by adding
      the value's first character to the cell. */
  lemma EscapedHead(v: string, rest: string, st: ScanState)
    requires st.inQuotes && v != []
    ensures Scan(Escape(v) + rest, st) == Scan(Escape(v[1..]) + rest, st.(cell := st.cell + [v[0]]))
  {
    if v[0] == '"' {
      assert Escape(v) + rest == ['"', '"'] + (Escape(v[1..]) + rest);
      ScanDoubledQuote(Escape(v[1..]) + rest, st);
    } else {
      assert Escape(v) + rest == [v[0]] + (Escape(v[1..]) + rest);
      ScanContent(v[0], Escape(v[1..]) + rest, st);
    }
  }

  /** Inside quotes, each doubled quote adds one literal quote and consumes
      both characters, every other character but a quote is content, and the
      closing quote (not followed by another quote) leaves quoted mode. */
  lemma {:induction false} ScanEscaped(v: string, rest: string, st: ScanState)
    requires st.inQuotes
    requires rest == [] || rest[0] != '"'
    ensures Scan(Escape(v) + (['"'] + rest), st) == Scan(rest, st.(inQuotes := false, cell := st.cell + v))
    decreases |v|
  {
    if v == [] {
      SeqFacts(st.cell, v, ['"'] + rest);
      ScanQuote(rest, st);
    } else {
      var st' := st.(cell := st.cell + [v[0]]);
      EscapedHead(v, ['"'] + rest, st);
      ScanEscaped(v[1..], rest, st');
      SeqFacts(st.cell, v, rest);
    }
  }

  lemma SeqFacts(c: string, v: string, t: string)
    ensures v == [] ==> Escape(v) + t == t && c + v == c
    ensures v != [] ==> (c + [v[0]]) + v[1..] == c + v
  {
  }

  /** A quoted field, followed by anything but another quote, adds exactly its
      value to the cell (commas, quotes and line breaks included) and leaves
      the scanner outside quotes. */
  lemma QuotedField(v: string, rest: string, st: ScanState)
    requires !st.inQuotes
    requires rest == [] || rest[0] != '"'
    ensures Scan(Quote(v) + rest, st) == Scan(rest, st.(cell := st.cell + v))
  {
    QuoteShape(v, rest);
    ScanQuote(Escape(v) + (['"'] + rest), st);
    ScanEscaped(v, rest, st.(inQuotes := true));
    assert st.(inQuotes := true).(inQuotes := false, cell := st.cell + v) == st.(cell := st.cell + v);
  }

  lemma QuoteShape(v: string, rest: string)
    ensures Quote(v) + rest == ['"'] + (Escape(v) + (['"'] + rest))
  {
  }

  /** Inside quotes, text without a quote is content, commas and CR/LF included. */
  lemma {:induction false} InsideQuotes(v: string, st: ScanState)
    requires st.inQuotes
    requires '"' !in v
    ensures Scan(v, st) == st.(cell := st.cell + v)
    decreases |v|
  {
    if v == [] {
      assert st.cell + v == st.cell;
    } else {
      assert v[0] in v;
      assert forall k :: 0 <= k < |v| - 1 ==> v[1..][k] == v[k + 1];
      InsideQuotes(v[1..], st.(cell := st.cell + [v[0]]));
      assert st.cell + [v[0]] + v[1..] == st.cell + v;
    }
  }

  /** An unterminated quote is closed by the end of the input: everything after
      it becomes one cell, and nothing at all when nothing follows it. */
  lemma UnterminatedQuote(v: string)
    requires '"' !in v
    ensures SplitRows(['"'] + v) == if v == [] then [] else [[Trim(v)]]
  {
    var open := ScanState(true, "", [], []);
    ScanQuote(v, Start);
    assert Start.(inQuotes := !Start.inQuotes) == open;
    InsideQuotes(v, open);
    EmptyLaws(v);
    EmptyLaws([Trim(v)]);
    var last := ScanState(true, v, [], []);
    assert Scan(['"'] + v, Start) == last;
  }

  /** A character that is neither a quote, a comma nor a line break. */
  predicate IsPlain(c: char) {
    c != '"' && c != ',' && !IsLineBreak(c)
  }

  predicate Plain(v: string) {
    forall i :: 0 <= i < |v| ==> IsPlain(v[i])
  }

  /** Outside quotes, plain text is appended to the cell. */
  lemma {:induction false} ScanPlain(v: string, rest: string, st: ScanState)
    requires !st.inQuotes && Plain(v)
    ensures Scan(v + rest, st) == Scan(rest, st.(cell := st.cell + v))
    decreases |v|
  {
    if v == [] {
      EmptyLaws(rest);
      EmptyLaws(st.cell);
    } else {
      PlainHead(v, rest, st.cell);
      ScanContent(v[0], v[1..] + rest, st);
      ScanPlain(v[1..], rest, st.(cell := st.cell + [v[0]]));
    }
  }

  lemma PlainHead(v: string, rest: string, cell: string)
    requires v != [] && Plain(v)
    ensures v + rest == [v[0]] + (v[1..] + rest)
    ensures cell + [v[0]] + v[1..] == cell + v
    ensures IsPlain(v[0]) && Plain(v[1..])
  {
    assert IsPlain(v[0]);
  }

  /** Without quotes in it, the escaped form of a value is the value itself. */
  lemma {:induction false} EscapeWithoutQuotes(v: string)
    requires '"' !in v
    ensures Escape(v) == v
    decreases |v|
  {
    if v != [] {
      assert v[0] in v;
      assert '"' !in v[1..];
      EscapeWithoutQuotes(v[1..]);
      assert v == [v[0]] + v[1..];
    }
  }

  /** A plain cell and then an unquoted comma: one more closed cell. */
  lemma CellThenComma(v: string, rest: string, row: Row, rows: seq<Row>)
    requires Plain(v)
    ensures Scan(v + ([','] + rest), ScanState(false, "", row, rows)) ==
              Scan(rest, ScanState(false, "", row + [Trim(v)], rows))
  {
    var st := ScanState(false, "", row, rows);
    ScanPlain(v, [','] + rest, st);
    assert st.cell + v == v;
    ScanComma(rest, st.(cell := v));
  }

  /** A plain cell and then an unquoted line break: the row is finished. */
  lemma CellThenBreak(v: string, c: char, rest: string, row: Row, rows: seq<Row>)
    requires Plain(v) && IsLineBreak(c)
    requires v != "" || |row| > 0
    ensures Scan(v + ([c] + rest), ScanState(false, "", row, rows)) ==
              Scan(rest, ScanState(false, "", [], rows + [row + [Trim(v)]]))
  {
    var st := ScanState(false, "", row, rows);
    ScanPlain(v, [c] + rest, st);
    assert st.cell + v == v;
    ScanLineBreak(c, rest, st.(cell := v));
  }
}
