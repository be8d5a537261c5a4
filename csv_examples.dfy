/** Whole parses of small inputs. */
module CsvExamples {
  import opened Wrappers
  import opened Text
  import opened Csv
  import opened CsvQuoting
  import opened CsvRecords

  lemma TrimWord(w: string)
    requires w != [] && !IsWhitespace(w[0]) && !IsWhitespace(w[|w| - 1])
    ensures Trim(w) == w
  {
    var e: string := [];
    assert e + w + e == w;
    TrimPadded(e, w, e);
  }

  /** Appending to a row or a row list one element at a time, as the
      scanner does, written as sequence displays. */
  lemma Appends<T>(a: seq<T>, x: T, y: T, z: T)
    ensures [] + a == a && a + [] == a
    ensures a + [x] + [y] == a + [x, y]
    ensures [] + [x] == [x] && [] + [x, y] == [x, y]
    ensures [x] + [y] == [x, y] && [x] + [y, z] == [x, y, z]
  {
  }

  /** A quoted cell read from the start of a cell. */
  lemma QuotedCell(v: string, rest: string, row: Row, rows: seq<Row>)
    requires rest == [] || rest[0] != '"'
    ensures Scan(Quote(v) + rest, ScanState(false, "", row, rows)) ==
              Scan(rest, ScanState(false, v, row, rows))
  {
    var st := ScanState(false, "", row, rows);
    QuotedField(v, rest, st);
    assert st.cell + v == v;
  }

  /** Two plain cells `a,b` ended by LF. */
  lemma TwoCellLine(a: string, b: string, rest: string, row: Row, rows: seq<Row>)
    requires Plain(a) && Plain(b) && b != ""
    ensures Scan(a + ([','] + (b + (['\n'] + rest))), ScanState(false, "", row, rows)) ==
              Scan(rest, ScanState(false, "", [], rows + [row + [Trim(a), Trim(b)]]))
  {
    CellThenComma(a, b + (['\n'] + rest), row, rows);
    CellThenBreak(b, '\n', rest, row + [Trim(a)], rows);
    Appends(row, Trim(a), Trim(b), Trim(b));
    EmptyLaws([',']);
  }

  /** A line of plain cells `a,b,c` ended by LF. */
  lemma ThreeCellLine(a: string, b: string, c: string, rest: string, rows: seq<Row>)
    requires Plain(a) && Plain(b) && Plain(c) && c != ""
    ensures Scan(a + ([','] + (b + ([','] + (c + (['\n'] + rest))))), ScanState(false, "", [], rows)) ==
              Scan(rest, ScanState(false, "", [], rows + [[Trim(a), Trim(b), Trim(c)]]))
  {
    CellThenComma(a, b + ([','] + (c + (['\n'] + rest))), [], rows);
    Appends([], Trim(a), Trim(b), Trim(c));
    TwoCellLine(b, c, rest, [Trim(a)], rows);
  }

  /** The last line `x,"v",` after the rows `rows`. */
  lemma QuotedMiddleLine(x: string, v: string, rows: seq<Row>)
    requires Plain(x)
    ensures EndRow(Scan(x + ([','] + (Quote(v) + [','])), ScanState(false, "", [], rows))).rows ==
              rows + [[Trim(x), Trim(v), ""]]
  {
    CellThenComma(x, Quote(v) + [','], [], rows);
    Appends([], Trim(x), Trim(v), "");
    QuotedCell(v, [','], [Trim(x)], rows);
    Appends([Trim(x)], Trim(v), "", "");
    EmptyLaws([',']);
    ScanComma([], ScanState(false, v, [Trim(x)], rows));
    assert Trim("") == "";
  }

  lemma TwoRows(headers: Row, row: Row)
    ensures Records([headers, row]) == [RecordOf(headers, row)]
  {
  }

  /** The record of a three-cell row under a three-name header, as a map display. */
  lemma RecordOf3(h1: string, h2: string, h3: string, c1: string, c2: string, c3: string)
    ensures RecordOf([h1, h2, h3], [c1, c2, c3]) ==
              map[h1 := Some(StripQuotes(c1)), h2 := Some(StripQuotes(c2)), h3 := Some(StripQuotes(c3))]
  {
    var hs := [h1, h2, h3];
    var row := [c1, c2, c3];
    assert FillRecord(hs, row, 1) == map[h1 := Some(StripQuotes(c1))];
    assert FillRecord(hs, row, 2) == FillRecord(hs, row, 1)[h2 := Some(StripQuotes(c2))];
  }

  /** The rows of `h1,h2,h3` LF `x,"v",`. */
  lemma QuotedCommaRows(h1: string, h2: string, h3: string, x: string, v: string)
    requires Plain(h1) && Plain(h2) && Plain(h3) && h3 != "" && Plain(x)
    ensures SplitRows(h1 + ([','] + (h2 + ([','] + (h3 + (['\n'] + (x + ([','] + (Quote(v) + [','])))))))))
              == [[Trim(h1), Trim(h2), Trim(h3)], [Trim(x), Trim(v), ""]]
  {
    var data := x + ([','] + (Quote(v) + [',']));
    var header := [Trim(h1), Trim(h2), Trim(h3)];
    ThreeCellLine(h1, h2, h3, data, []);
    Appends([], header, [Trim(x), Trim(v), ""], []);
    QuotedMiddleLine(x, v, [header]);
  }

  /** A name or value that trimming leaves unchanged. */
  predicate Unpadded(w: string) {
    w != [] && !IsWhitespace(w[0]) && !IsWhitespace(w[|w| - 1])
  }

  /** One record from a header line and a data line whose middle cell is quoted and
      whose last cell is empty: the comma inside the quotes is content. */
  lemma QuotedCommaLine(h1: string, h2: string, h3: string, x: string, v: string)
    requires Plain(h1) && Plain(h2) && Plain(h3) && Plain(x)
    requires Unpadded(h1) && Unpadded(h2) && Unpadded(h3) && Unpadded(x) && Unpadded(v)
    requires !IsWrapped(x) && !IsWrapped(v)
    ensures Parse(h1 + ([','] + (h2 + ([','] + (h3 + (['\n'] + (x + ([','] + (Quote(v) + [','])))))))))
              == [map[h1 := Some(x), h2 := Some(v), h3 := Some("")]]
  {
    QuotedCommaRows(h1, h2, h3, x, v);
    TrimWord(h1);
    TrimWord(h2);
    TrimWord(h3);
    TrimWord(x);
    TrimWord(v);
    TwoRows([h1, h2, h3], [x, v, ""]);
    RecordOf3(h1, h2, h3, x, v, "");
  }

  lemma QuotedFixBug()
    ensures Quote("Fix, bug") == "\"Fix, bug\""
  {
    EscapeWithoutQuotes("Fix, bug");
  }

  lemma SplitQuotedCommaText(v: string)
    requires v == "\"Fix, bug\""
    ensures "ID,Task,Notes\n1,\"Fix, bug\"," ==
              "ID" + ([','] + ("Task" + ([','] + ("Notes" + (['\n'] + ("1" + ([','] + (v + [',']))))))))
  {
  }

  lemma QuotedCommaNames()
    ensures Plain("ID") && Plain("Task") && Plain("Notes") && Plain("1")
    ensures Unpadded("ID") && Unpadded("Task") && Unpadded("Notes")
  {
  }

  lemma QuotedCommaValues()
    ensures Unpadded("1") && Unpadded("Fix, bug")
    ensures !IsWrapped("1") && !IsWrapped("Fix, bug")
  {
  }

  /** `"Fix, bug"` is one cell, and the final unquoted comma leaves an empty last
      cell. */
  lemma QuotedCommaExample()
    ensures Parse("ID,Task,Notes\n1,\"Fix, bug\",") ==
              [map["ID" := Some("1"), "Task" := Some("Fix, bug"), "Notes" := Some("")]]
  {
    QuotedFixBug();
    QuotedCommaNames();
    QuotedCommaValues();
    SplitQuotedCommaText(Quote("Fix, bug"));
    QuotedCommaLine("ID", "Task", "Notes", "1", "Fix, bug");
  }

  /** The rows of `h1,h2` LF `x,"v"`. */
  lemma QuotedLastRows(h1: string, h2: string, x: string, v: string)
    requires Plain(h1) && Plain(h2) && h2 != "" && Plain(x)
    ensures SplitRows(h1 + ([','] + (h2 + (['\n'] + (x + ([','] + Quote(v)))))))
              == [[Trim(h1), Trim(h2)], [Trim(x), Trim(v)]]
  {
    var header := [Trim(h1), Trim(h2)];
    TwoCellLine(h1, h2, x + ([','] + Quote(v)), [], []);
    Appends([], Trim(h1), Trim(h2), Trim(h2));
    Appends([], header, [Trim(x), Trim(v)], []);
    CellThenComma(x, Quote(v), [], [header]);
    Appends([], Trim(x), Trim(v), Trim(v));
    EmptyLaws(Quote(v));
    QuotedCell(v, [], [Trim(x)], [header]);
  }

  /** A header line of two names and a data line whose last cell is quoted and
      ends the input without a line break. */
  lemma QuotedLastLine(h1: string, h2: string, x: string, v: string)
    requires Plain(h1) && Plain(h2) && Plain(x)
    requires Unpadded(h1) && Unpadded(h2) && Unpadded(x) && Unpadded(v)
    requires !IsWrapped(x) && !IsWrapped(v)
    ensures Parse(h1 + ([','] + (h2 + (['\n'] + (x + ([','] + Quote(v)))))))
              == [map[h1 := Some(x), h2 := Some(v)]]
  {
    QuotedLastRows(h1, h2, x, v);
    TrimWord(h1);
    TrimWord(h2);
    TrimWord(x);
    TrimWord(v);
    TwoRows([h1, h2], [x, v]);
    assert FillRecord([h1, h2], [x, v], 1) == map[h1 := Some(x)];
  }

  /** Escaping works character by character. */
  lemma {:induction false} EscapeAppend(a: string, b: string)
    ensures Escape(a + b) == Escape(a) + Escape(b)
    decreases |a|
  {
    if a == [] {
      assert a + b == b;
    } else {
      assert (a + b)[1..] == a[1..] + b;
      EscapeAppend(a[1..], b);
    }
  }

  /** A quoted word after a quote-free prefix: both quotes are doubled. */
  lemma EscapeQuotedWord(a: string, b: string)
    requires '"' !in a && '"' !in b
    ensures Escape(a + (['"'] + (b + ['"']))) == a + (['"', '"'] + (b + ['"', '"']))
  {
    EscapeAppend(a, ['"'] + (b + ['"']));
    EscapeAppend(['"'], b + ['"']);
    EscapeAppend(b, ['"']);
    EscapeWithoutQuotes(a);
    EscapeWithoutQuotes(b);
  }

  lemma HiFacts()
    ensures "He said \"hi\"" == "He said " + (['"'] + ("hi" + ['"']))
    ensures '"' !in "He said " && '"' !in "hi"
    ensures ['"'] + ("He said " + (['"', '"'] + ("hi" + ['"', '"']))) + ['"'] == "\"He said \"\"hi\"\"\""
  {
  }

  lemma QuotedHi()
    ensures Quote("He said \"hi\"") == "\"He said \"\"hi\"\"\""
  {
    HiFacts();
    EscapeQuotedWord("He said ", "hi");
  }

  lemma SplitEscapedText(v: string)
    requires v == "\"He said \"\"hi\"\"\""
    ensures "ID,Task\n1,\"He said \"\"hi\"\"\"" == "ID" + ([','] + ("Task" + (['\n'] + ("1" + ([','] + v)))))
  {
  }

  lemma EscapedQuoteFacts()
    ensures Plain("ID") && Plain("Task") && Plain("1")
    ensures Unpadded("ID") && Unpadded("Task") && Unpadded("1") && Unpadded("He said \"hi\"")
    ensures !IsWrapped("1") && !IsWrapped("He said \"hi\"")
  {
  }

  /** A doubled quote inside a quoted field is one quote character of the value. */
  lemma EscapedQuoteExample()
    ensures Parse("ID,Task\n1,\"He said \"\"hi\"\"\"") == [map["ID" := Some("1"), "Task" := Some("He said \"hi\"")]]
  {
    QuotedHi();
    EscapedQuoteFacts();
    SplitEscapedText(Quote("He said \"hi\""));
    QuotedLastLine("ID", "Task", "1", "He said \"hi\"");
  }

  lemma QuotedWordFacts()
    ensures Quote("\"hi\"") == "\"\"\"hi\"\"\""
    ensures "ID\n\"\"\"hi\"\"\"" == "ID" + ("\n" + "\"\"\"hi\"\"\"")
    ensures Plain("ID") && Unpadded("ID") && Unpadded("\"hi\"")
    ensures StripQuotes("\"hi\"") == "hi"
  {
  }

  /** A value that itself starts and ends with a quote, written the CSV way,
      comes back without those quotes: the field `"""hi"""` reads as `hi`, not
      as `"hi"`, because the quote pair produced by the doubled quotes is then
      stripped as if it were the field's own. */
  lemma WrappedValueLosesQuotes()
    ensures Parse("ID\n\"\"\"hi\"\"\"") == [map["ID" := Some("hi")]]
  {
    QuotedWordFacts();
    QuotedValueRoundTrip("ID", "\"hi\"");
    TrimWord("ID");
    TrimWord("\"hi\"");
  }
}
