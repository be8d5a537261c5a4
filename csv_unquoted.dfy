/** A reference reading of text without quotes, independent of the scanner:
    cut the text at every CR and every LF, drop the empty lines, cut each
    remaining line at every comma and trim each piece. On such text the
    scanner produces exactly these rows. */
module CsvUnquoted {
  import opened Text
  import opened Csv

  /** The length of the first line of `s`: the index of its first CR or LF, or |s|. */
  function LineLength(s: string): (k: nat)
    ensures k <= |s|
    ensures forall i :: 0 <= i < k ==> !IsLineBreak(s[i])
    ensures k < |s| ==> IsLineBreak(s[k])
  {
    if s == [] || IsLineBreak(s[0]) then 0 else 1 + LineLength(s[1..])
  }

  /** `s` cut at every CR and at every LF; a CRLF leaves an empty line between them. */
  function Lines(s: string): (ls: seq<string>)
    ensures |ls| >= 1
    decreases |s|
  {
    var k := LineLength(s);
    if k == |s| then [s] else [s[..k]] + Lines(s[k + 1..])
  }

  /** `p` cut at every comma. */
  function Fields(p: string): (fs: seq<string>)
    ensures |fs| >= 1
  {
    if p == [] then [""]
    else
      var q := Fields(p[..|p| - 1]);
      if p[|p| - 1] == ',' then q + [""]
      else q[..|q| - 1] + [q[|q| - 1] + [p[|p| - 1]]]
  }

  function TrimAll(fs: seq<string>): (ts: seq<string>)
    ensures |ts| == |fs|
    ensures forall i :: 0 <= i < |fs| ==> ts[i] == Trim(fs[i])
  {
    seq(|fs|, i requires 0 <= i < |fs| => Trim(fs[i]))
  }

  lemma TrimAllLast(fs: seq<string>)
    requires |fs| >= 1
    ensures TrimAll(fs) == TrimAll(fs[..|fs| - 1]) + [Trim(fs[|fs| - 1])]
  {
    var a, b := TrimAll(fs), TrimAll(fs[..|fs| - 1]) + [Trim(fs[|fs| - 1])];
    assert |a| == |b|;
    forall i | 0 <= i < |a| ensures a[i] == b[i] {
      if i < |fs| - 1 {
        assert b[i] == TrimAll(fs[..|fs| - 1])[i];
        assert fs[..|fs| - 1][i] == fs[i];
      }
    }
  }

  /** One row per non-empty line: its fields, trimmed. */
  function LineRows(ls: seq<string>): seq<Row> {
    if ls == [] then []
    else (if ls[0] == "" then [] else [TrimAll(Fields(ls[0]))]) + LineRows(ls[1..])
  }

  function ReferenceRows(text: string): seq<Row> {
    LineRows(Lines(text))
  }

  predicate NoLineBreak(p: string) {
    forall i :: 0 <= i < |p| ==> !IsLineBreak(p[i])
  }

  /** `st` is where the scanner stands after reading the unquoted line prefix
      `p`: outside quotes, the closed fields of `p` (trimmed) in the row, its
      open field in the cell, and a pending row exactly when `p` is non-empty. */
  predicate After(st: ScanState, p: string) {
    var fs := Fields(p);
    !st.inQuotes && st.row == TrimAll(fs[..|fs| - 1]) && st.cell == fs[|fs| - 1]
    && (p == "" <==> !HasPending(st))
  }

  lemma {:induction false} LineLengthPrefix(p: string, s: string)
    requires NoLineBreak(p)
    ensures LineLength(p + s) == |p| + LineLength(s)
    decreases |p|
  {
    if p == [] {
      assert p + s == s;
    } else {
      assert (p + s)[1..] == p[1..] + s;
      LineLengthPrefix(p[1..], s);
    }
  }

  /** The line ends at a line break: it is the first line, and the rest after
      the break gives the remaining lines. */
  lemma LinesAtBreak(p: string, c: char, rest: string)
    requires NoLineBreak(p) && IsLineBreak(c)
    ensures ReferenceRows(p + ([c] + rest)) ==
              (if p == "" then [] else [TrimAll(Fields(p))]) + ReferenceRows(rest)
  {
    var s := p + ([c] + rest);
    LineLengthPrefix(p, [c] + rest);
    assert LineLength([c] + rest) == 0;
    SplitAtBreak(p, c, rest);
    assert Lines(s) == [p] + Lines(rest);
    LineRowsCons(p, Lines(rest));
  }

  lemma SplitAtBreak(p: string, c: char, rest: string)
    ensures (p + ([c] + rest))[..|p|] == p
    ensures (p + ([c] + rest))[|p| + 1..] == rest
  {
  }

  lemma LineRowsCons(p: string, ls: seq<string>)
    ensures LineRows([p] + ls) == (if p == "" then [] else [TrimAll(Fields(p))]) + LineRows(ls)
  {
    assert ([p] + ls)[1..] == ls;
  }

  /** The lines of a text without line breaks: the text itself. */
  lemma LinesWithoutBreak(p: string)
    requires NoLineBreak(p)
    ensures ReferenceRows(p) == if p == "" then [] else [TrimAll(Fields(p))]
  {
    LineLengthPrefix(p, "");
    assert p + "" == p;
    assert Lines(p) == [p];
    LineRowsOne(p);
  }

  lemma LineRowsOne(p: string)
    ensures LineRows([p]) == if p == "" then [] else [TrimAll(Fields(p))]
  {
    var ls := [p];
    assert ls[1..] == [];
    var first: seq<Row> := if p == "" then [] else [TrimAll(Fields(p))];
    assert first + [] == first;
  }

  lemma FieldsComma(p: string)
    ensures Fields(p + [',']) == Fields(p) + [""]
  {
    assert (p + [','])[..|p|] == p;
  }

  lemma FieldsChar(p: string, c: char)
    requires c != ','
    ensures var q := Fields(p); Fields(p + [c]) == q[..|q| - 1] + [q[|q| - 1] + [c]]
  {
    assert (p + [c])[..|p|] == p;
  }

  /** At the end of the input, the pending row of `p` is its trimmed fields. */
  lemma EndAfter(st: ScanState, p: string)
    requires NoLineBreak(p) && After(st, p)
    ensures EndRow(st).rows == st.rows + ReferenceRows(p)
  {
    LinesWithoutBreak(p);
    if p != "" {
      TrimAllLast(Fields(p));
    }
  }

  /** A comma closes the open field of `p`. */
  lemma CommaAfter(st: ScanState, p: string)
    requires After(st, p)
    ensures After(st.(cell := "", row := st.row + [Trim(st.cell)]), p + [','])
  {
    var fs := Fields(p);
    FieldsComma(p);
    TrimAllLast(fs);
    ClosedField(fs);
  }

  lemma ClosedField(fs: seq<string>)
    ensures (fs + [""])[..|fs|] == fs
    ensures (fs + [""])[|fs|] == ""
  {
  }

  /** Any other character extends the open field of `p`. */
  lemma CharAfter(st: ScanState, p: string, c: char)
    requires After(st, p) && c != ','
    ensures After(st.(cell := st.cell + [c]), p + [c])
  {
    var fs := Fields(p);
    FieldsChar(p, c);
    assert Fields(p + [c])[..|fs| - 1] == fs[..|fs| - 1];
  }

  /** A line break closes the line `p`, if it is non-empty, and starts an empty one. */
  lemma BreakAfter(st: ScanState, p: string, c: char, rest: string)
    requires NoLineBreak(p) && IsLineBreak(c) && After(st, p)
    ensures EndRow(st).rows + ReferenceRows(rest) == st.rows + ReferenceRows(p + ([c] + rest))
  {
    LinesAtBreak(p, c, rest);
    if p != "" {
      TrimAllLast(Fields(p));
    }
  }

  /** After a line break the scanner stands at the start of an empty line. */
  lemma LineStart(st: ScanState)
    requires !st.inQuotes
    ensures After(EndRow(st), "")
  {
    assert Fields("") == [""];
  }

  lemma Reassociate(p: string, c: char, rest: string)
    ensures (p + [c]) + rest == p + ([c] + rest)
  {
  }

  lemma {:induction false} ScanUnquoted(s: string, p: string, st: ScanState)
    requires '"' !in s && NoLineBreak(p)
    requires After(st, p)
    ensures EndRow(Scan(s, st)).rows == st.rows + ReferenceRows(p + s)
    decreases |s|, 1
  {
    if s == [] {
      EmptyLaws(p);
      EndAfter(st, p);
    } else if IsLineBreak(s[0]) {
      UnquotedBreak(s, p, st);
    } else {
      UnquotedChar(s, p, st);
    }
  }

  lemma {:induction false} UnquotedBreak(s: string, p: string, st: ScanState)
    requires '"' !in s && NoLineBreak(p) && s != [] && IsLineBreak(s[0])
    requires After(st, p)
    ensures EndRow(Scan(s, st)).rows == st.rows + ReferenceRows(p + s)
    decreases |s|, 0
  {
    var c, rest := s[0], s[1..];
    Uncons(s);
    ScanLineBreak(c, rest, st);
    BreakAfter(st, p, c, rest);
    LineStart(st);
    ScanUnquoted(rest, "", EndRow(st));
    EmptyLaws(rest);
  }

  lemma {:induction false} UnquotedChar(s: string, p: string, st: ScanState)
    requires '"' !in s && NoLineBreak(p) && s != [] && !IsLineBreak(s[0])
    requires After(st, p)
    ensures EndRow(Scan(s, st)).rows == st.rows + ReferenceRows(p + s)
    decreases |s|, 0
  {
    var c, rest := s[0], s[1..];
    Uncons(s);
    var st' := if c == ',' then st.(cell := "", row := st.row + [Trim(st.cell)])
               else st.(cell := st.cell + [c]);
    if c == ',' {
      ScanComma(rest, st);
      CommaAfter(st, p);
    } else {
      ScanContent(c, rest, st);
      CharAfter(st, p, c);
    }
    ScanUnquoted(rest, p + [c], st');
    Reassociate(p, c, rest);
  }

  /** On text without quotes the scanner's rows are the reference rows: every
      CR and every LF ends a line, empty lines (so also the LF of a CRLF) give
      no row, a line of spaces gives one empty cell, and a last line without a
      line break is kept. */
  lemma UnquotedRows(text: string)
    requires '"' !in text
    ensures SplitRows(text) == ReferenceRows(text)
  {
    assert Fields("") == [""];
    assert After(Start, "");
    ScanUnquoted(text, "", Start);
    assert "" + text == text;
  }
}
