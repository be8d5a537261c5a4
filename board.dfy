/** The board: which parsed records are shown, in which priority column each
    one lands, and the local status update made when a card is finished or
    undone. */
module Board {
  import opened Wrappers
  import opened Csv

  /** Reading a field of a record: a missing key reads as undefined, like a
      short row's value. */
  function Get(rec: Record, field: string): (v: Option<string>)
    ensures field in rec ==> v == rec[field]
    ensures field !in rec ==> v == None
  {
    if field in rec then rec[field] else None
  }

  /** The record has a non-empty `Unique_ID` (a truthy value): the field is
      present, defined and not the empty string. */
  predicate HasId(rec: Record)
    ensures HasId(rec) <==> "Unique_ID" in rec && rec["Unique_ID"].Some? && rec["Unique_ID"].value != ""
  {
    Get(rec, "Unique_ID").Some? && Get(rec, "Unique_ID").value != ""
  }

  /** The record's `Status` is exactly "Complete"; a missing status is not. */
  predicate IsComplete(rec: Record)
    ensures IsComplete(rec) <==> "Status" in rec && rec["Status"] == Some("Complete")
  {
    Get(rec, "Status") == Some("Complete")
  }

  /** The record's `Unique_ID` is `id`; a record without one matches no id. */
  predicate Matches(rec: Record, id: string)
    ensures Matches(rec, id) <==> "Unique_ID" in rec && rec["Unique_ID"] == Some(id)
  {
    Get(rec, "Unique_ID") == Some(id)
  }

  // ---------------------------------------------------------------------------
  // Filtering

  /** The tests the board filters records by. */
  datatype Test =
    | WithId                     // the record has an id
    | Open(showComplete: bool)   // the record is shown given the checkbox
    | InColumn(column: string)   // the record belongs in this column

  const Columns: seq<string> := ["High", "Medium", "Low"]

  /** The column a shown card goes to: its priority when that is one of the
      three column names, otherwise "Low". */
  function PriorityColumn(rec: Record): (c: string)
    ensures c in Columns
    ensures Get(rec, "Priority").Some? && Get(rec, "Priority").value in Columns ==>
              c == Get(rec, "Priority").value
    ensures !(Get(rec, "Priority").Some? && Get(rec, "Priority").value in Columns) ==> c == "Low"
  {
    var p := Get(rec, "Priority");
    if p.Some? && p.value in Columns then p.value else "Low"
  }

  predicate Passes(rec: Record, t: Test) {
    match t
    case WithId => HasId(rec)
    case Open(showComplete) => showComplete || !IsComplete(rec)
    case InColumn(column) => PriorityColumn(rec) == column
  }

  /** The records of `rs` that pass `t`, in their original order. */
  function Filter(rs: seq<Record>, t: Test): (r: seq<Record>)
    ensures |r| <= |rs|
    ensures forall i :: 0 <= i < |r| ==> Passes(r[i], t)
    ensures forall x :: x in r <==> x in rs && Passes(x, t)
    decreases |rs|
  {
    if rs == [] then []
    else
      var rest := Filter(rs[1..], t);
      assert forall x :: x in rs <==> x == rs[0] || x in rs[1..];
      if Passes(rs[0], t) then [rs[0]] + rest else rest
  }

  /** `a` is `b` with some elements left out, the others kept in order. */
  predicate IsSubsequence(a: seq<Record>, b: seq<Record>)
    decreases |b|
  {
    if a == [] then true
    else if b == [] then false
    else (a[0] == b[0] && IsSubsequence(a[1..], b[1..])) || IsSubsequence(a, b[1..])
  }

  lemma {:induction false} FilterIsSubsequence(rs: seq<Record>, t: Test)
    ensures IsSubsequence(Filter(rs, t), rs)
    decreases |rs|
  {
    if rs != [] {
      FilterIsSubsequence(rs[1..], t);
      if Passes(rs[0], t) {
        assert ([rs[0]] + Filter(rs[1..], t))[1..] == Filter(rs[1..], t);
      }
    }
  }

  lemma {:induction false} FilterAppend(rs: seq<Record>, x: Record, t: Test)
    ensures Filter(rs + [x], t) == Filter(rs, t) + (if Passes(x, t) then [x] else [])
    decreases |rs|
  {
    if rs == [] {
      assert rs + [x] == [x];
      assert [x][1..] == [];
    } else {
      assert (rs + [x])[1..] == rs[1..] + [x];
      FilterAppend(rs[1..], x, t);
    }
  }

  /** One more card changes only the column it belongs in. */
  lemma DealOne(done: seq<Record>, card: Record)
    ensures var c := PriorityColumn(card);
            && Filter(done + [card], InColumn("High")) ==
                 Filter(done, InColumn("High")) + (if c == "High" then [card] else [])
            && Filter(done + [card], InColumn("Medium")) ==
                 Filter(done, InColumn("Medium")) + (if c == "Medium" then [card] else [])
            && Filter(done + [card], InColumn("Low")) ==
                 Filter(done, InColumn("Low")) + (if c == "Low" then [card] else [])
  {
    FilterAppend(done, card, InColumn("High"));
    FilterAppend(done, card, InColumn("Medium"));
    FilterAppend(done, card, InColumn("Low"));
  }

  /** What the board shows, before the date sort: records with an id, and of
      those only the open ones unless finished work is shown too; with
      finished work shown, the status filter drops nothing. */
  function Displayed(rs: seq<Record>, showComplete: bool): (r: seq<Record>)
    ensures |r| <= |rs|
    ensures showComplete ==> r == Filter(rs, WithId)
  {
    var withId := Filter(rs, WithId);
    if showComplete then FilterKeepsAll(withId, Open(true)); Filter(withId, Open(showComplete))
    else Filter(withId, Open(showComplete))
  }

  /** A record is shown exactly when it has an id and is not hidden as complete. */
  lemma DisplayedMembers(rs: seq<Record>, showComplete: bool, x: Record)
    ensures x in Displayed(rs, showComplete) <==>
              x in rs && HasId(x) && (showComplete || !IsComplete(x))
  {
  }

  /** The shown records keep their relative order: the filter only drops. */
  lemma DisplayedIsSubsequence(rs: seq<Record>, showComplete: bool)
    ensures IsSubsequence(Displayed(rs, showComplete), rs)
  {
    var withId := Filter(rs, WithId);
    FilterIsSubsequence(rs, WithId);
    FilterIsSubsequence(withId, Open(showComplete));
    SubsequenceTrans(Displayed(rs, showComplete), withId, rs);
  }

  lemma {:induction false} SubsequenceTrans(a: seq<Record>, b: seq<Record>, c: seq<Record>)
    requires IsSubsequence(a, b) && IsSubsequence(b, c)
    ensures IsSubsequence(a, c)
    decreases |c|
  {
    if a != [] {
      assert b != [] && c != [];
      if b[0] == c[0] && IsSubsequence(b[1..], c[1..]) {
        if a[0] == b[0] && IsSubsequence(a[1..], b[1..]) {
          SubsequenceTrans(a[1..], b[1..], c[1..]);
        } else {
          SubsequenceTrans(a, b[1..], c[1..]);
        }
      } else {
        SubsequenceTrans(a, b, c[1..]);
      }
    }
  }

  /** Every shown card has an id, and none is complete when finished work is hidden. */
  lemma DisplayedAreOpen(rs: seq<Record>, showComplete: bool)
    ensures forall x :: x in Displayed(rs, showComplete) ==> HasId(x)
    ensures !showComplete ==> forall x :: x in Displayed(rs, showComplete) ==> !IsComplete(x)
  {
    var d := Displayed(rs, showComplete);
    forall x | x in d ensures HasId(x) && (showComplete || !IsComplete(x)) {
      DisplayedMembers(rs, showComplete, x);
    }
  }

  /** A test that every record passes keeps the whole sequence; so with
      finished work shown the second filter keeps everything. */
  lemma {:induction false} FilterKeepsAll(rs: seq<Record>, t: Test)
    requires forall i :: 0 <= i < |rs| ==> Passes(rs[i], t)
    ensures Filter(rs, t) == rs
    decreases |rs|
  {
    if rs != [] {
      FilterKeepsAll(rs[1..], t);
      assert rs == [rs[0]] + rs[1..];
    }
  }

  /** Of three records with ids whose statuses are Complete, Pending and
      Complete, only the pending one is shown while finished work is hidden,
      and all three are shown otherwise. */
  lemma HideCompleteExample(a: Record, b: Record, c: Record)
    requires HasId(a) && HasId(b) && HasId(c)
    requires Get(a, "Status") == Some("Complete")
    requires Get(b, "Status") == Some("Pending")
    requires Get(c, "Status") == Some("Complete")
    ensures Displayed([a, b, c], false) == [b]
    ensures Displayed([a, b, c], true) == [a, b, c]
  {
    var rs := [a, b, c];
    FilterKeepsAll(rs, WithId);
    FilterKeepsAll(rs, Open(true));
    var hiding := Open(false);
    assert [c][1..] == [];
    assert Filter([c], hiding) == [];
    assert [b, c][1..] == [c];
    assert Filter([b, c], hiding) == [b];
    assert rs[1..] == [b, c];
  }

  /** The cards of one column: the shown cards whose priority column it is.
      A name other than the three columns' gets no cards. */
  function Column(rs: seq<Record>, showComplete: bool, column: string): (r: seq<Record>)
    ensures forall x :: x in r <==> x in Displayed(rs, showComplete) && PriorityColumn(x) == column
    ensures column !in Columns ==> r == []
  {
    var cards := Filter(Displayed(rs, showComplete), InColumn(column));
    assert cards != [] ==> cards[0] in cards;
    cards
  }

  /** The three columns share out the shown cards: every card lands in exactly one. */
  lemma {:induction false} ColumnsPartition(rs: seq<Record>)
    ensures |Filter(rs, InColumn("High"))| + |Filter(rs, InColumn("Medium"))|
              + |Filter(rs, InColumn("Low"))| == |rs|
    decreases |rs|
  {
    if rs != [] {
      ColumnsPartition(rs[1..]);
    }
  }

  lemma ColumnCount(rs: seq<Record>, showComplete: bool)
    ensures |Column(rs, showComplete, "High")| + |Column(rs, showComplete, "Medium")|
              + |Column(rs, showComplete, "Low")| == |Displayed(rs, showComplete)|
  {
    ColumnsPartition(Displayed(rs, showComplete));
  }

  // ---------------------------------------------------------------------------
  // The status update

  /** The index of the first record whose id is `id`, if any. */
  function FirstMatch(rs: seq<Record>, id: string): (r: Option<nat>)
    ensures r.Some? ==> r.value < |rs| && Matches(rs[r.value], id)
    ensures r.Some? ==> forall j :: 0 <= j < r.value ==> !Matches(rs[j], id)
    ensures r.None? ==> forall j :: 0 <= j < |rs| ==> !Matches(rs[j], id)
    decreases |rs|
  {
    if rs == [] then None
    else if Matches(rs[0], id) then Some(0)
    else
      match FirstMatch(rs[1..], id)
      case None => None
      case Some(k) => Some(k + 1)
  }

  /** The records after the first one whose id is `id` has its status set. */
  function WithStatus(rs: seq<Record>, id: string, newStatus: string): (r: seq<Record>)
    ensures |r| == |rs|
    ensures FirstMatch(rs, id).None? ==> r == rs
    ensures FirstMatch(rs, id).Some? ==>
              var k := FirstMatch(rs, id).value;
              r[k] == rs[k]["Status" := Some(newStatus)] &&
              forall j :: 0 <= j < |rs| && j != k ==> r[j] == rs[j]
  {
    match FirstMatch(rs, id)
    case None => rs
    case Some(k) => rs[k := rs[k]["Status" := Some(newStatus)]]
  }

  /** The update leaves ids alone, so the same record still matches first. */
  lemma MatchKept(rs: seq<Record>, id: string, newStatus: string)
    ensures FirstMatch(WithStatus(rs, id, newStatus), id) == FirstMatch(rs, id)
  {
    var r := WithStatus(rs, id, newStatus);
    forall j | 0 <= j < |rs|
      ensures Matches(r[j], id) == Matches(rs[j], id)
    {
      assert Get(r[j], "Unique_ID") == Get(rs[j], "Unique_ID");
    }
    FirstMatchSame(rs, r, id);
  }

  lemma {:induction false} FirstMatchSame(a: seq<Record>, b: seq<Record>, id: string)
    requires |a| == |b|
    requires forall j :: 0 <= j < |a| ==> Matches(a[j], id) == Matches(b[j], id)
    ensures FirstMatch(a, id) == FirstMatch(b, id)
    decreases |a|
  {
    if a != [] {
      FirstMatchSame(a[1..], b[1..], id);
    }
  }

  /** Setting the same status twice is setting it once. */
  lemma StatusIdempotent(rs: seq<Record>, id: string, newStatus: string)
    ensures WithStatus(WithStatus(rs, id, newStatus), id, newStatus) == WithStatus(rs, id, newStatus)
  {
    MatchKept(rs, id, newStatus);
    var r := WithStatus(rs, id, newStatus);
    if FirstMatch(rs, id).Some? {
      var k := FirstMatch(rs, id).value;
      assert r[k]["Status" := Some(newStatus)] == r[k];
    }
  }

  /** Finishing and then undoing a card restores the records when the undo
      sets the status the record had before. */
  lemma UndoRestores(rs: seq<Record>, id: string, newStatus: string, previous: string)
    requires FirstMatch(rs, id).Some?
    requires Get(rs[FirstMatch(rs, id).value], "Status") == Some(previous)
    ensures WithStatus(WithStatus(rs, id, newStatus), id, previous) == rs
  {
    MatchKept(rs, id, newStatus);
    var k := FirstMatch(rs, id).value;
    var r := WithStatus(WithStatus(rs, id, newStatus), id, previous);
    assert r[k] == rs[k]["Status" := Some(newStatus)]["Status" := Some(previous)];
    assert r[k] == rs[k];
  }

  /** After the update the matched record is shown with finished work hidden
      exactly when its new status is not "Complete" (given it has an id). */
  lemma UpdatedVisibility(rs: seq<Record>, id: string, newStatus: string)
    requires id != "" && FirstMatch(rs, id).Some?
    ensures var r := WithStatus(rs, id, newStatus);
            var k := FirstMatch(rs, id).value;
            r[k] in Displayed(r, false) <==> newStatus != "Complete"
  {
    var r := WithStatus(rs, id, newStatus);
    var k := FirstMatch(rs, id).value;
    assert Get(r[k], "Status") == Some(newStatus);
    assert Get(r[k], "Unique_ID") == Some(id);
    DisplayedMembers(r, false, r[k]);
  }

  // ---------------------------------------------------------------------------
  // The page's data

  /** The page's list of records, as last loaded and locally updated. */
  class RecordStore {
    var records: seq<Record>

    /** The page starts with no records. */
    constructor()
      ensures records == []
    {
      records := [];
    }

    /** The records become those parsed from the loaded sheet text. */
    method Load(text: string)
      modifies this
      ensures records == Parse(text)
    {
      records := ParseCsv(text);
    }

    /** The first record with the given id gets the new status; if there is
        none, nothing changes. */
    method SetStatus(id: string, newStatus: string)
      modifies this
      ensures records == WithStatus(old(records), id, newStatus)
    {
      var k := FirstMatch(records, id);
      if k.Some? {
        records := records[k.value := records[k.value]["Status" := Some(newStatus)]];
      }
    }

    /** Deals the shown cards into the three columns, in the order they are shown. */
    method Render(showComplete: bool) returns (high: seq<Record>, medium: seq<Record>, low: seq<Record>)
      ensures high == Column(records, showComplete, "High")
      ensures medium == Column(records, showComplete, "Medium")
      ensures low == Column(records, showComplete, "Low")
    {
      var shown := Displayed(records, showComplete);
      high, medium, low := [], [], [];
      var i := 0;
      while i < |shown|
        invariant 0 <= i <= |shown|
        invariant high == Filter(shown[..i], InColumn("High"))
        invariant medium == Filter(shown[..i], InColumn("Medium"))
        invariant low == Filter(shown[..i], InColumn("Low"))
      {
        var card := shown[i];
        TakeOneMore(shown, i);
        DealOne(shown[..i], card);
        var column := PriorityColumn(card);
        if column == "High" {
          high := high + [card];
        } else if column == "Medium" {
          medium := medium + [card];
        } else {
          low := low + [card];
        }
        i := i + 1;
      }
      assert shown[..i] == shown;
    }
  }
}
