/** Alignment of the two downloaded `Close` columns (main.py:13-18): the empty
    check, the column-wise outer join on the date index, and the dropping of
    every row where either price is missing. */
module Alignment {
  import opened Common

  /** One row of a downloaded column: a trading date and its closing price,
      which may be missing. */
  datatype Obs = Obs(date: int, close: Option<real>)

  /** One row of the joined frame: the date and both columns' cells. */
  datatype Row = Row(date: int, first: Option<real>, second: Option<real>)

  /** One row of the aligned panel: the date and two defined prices. */
  datatype Bar = Bar(date: int, first: real, second: real)

  /** The dates of a column are strictly increasing (as the market-data
      provider delivers them: sorted, no duplicates). */
  predicate Increasing(s: seq<Obs>)
  {
    forall i, j :: 0 <= i < j < |s| ==> s[i].date < s[j].date
  }

  predicate RowsIncreasing(rows: seq<Row>)
  {
    forall i, j :: 0 <= i < j < |rows| ==> rows[i].date < rows[j].date
  }

  predicate BarsIncreasing(bars: seq<Bar>)
  {
    forall i, j :: 0 <= i < j < |bars| ==> bars[i].date < bars[j].date
  }

  /** Every date of the column comes after `d`. */
  predicate After(s: seq<Obs>, d: int)
  {
    forall i :: 0 <= i < |s| ==> d < s[i].date
  }

  predicate RowsAfter(rows: seq<Row>, d: int)
  {
    forall i :: 0 <= i < |rows| ==> d < rows[i].date
  }

  function Dates(s: seq<Obs>): set<int>
  {
    if s == [] then {} else {s[0].date} + Dates(s[1..])
  }

  function RowDates(rows: seq<Row>): set<int>
  {
    if rows == [] then {} else {rows[0].date} + RowDates(rows[1..])
  }

  function BarDates(bars: seq<Bar>): set<int>
  {
    if bars == [] then {} else {bars[0].date} + BarDates(bars[1..])
  }

  /** The cell a column holds for date `d`: `None` when the date is absent
      from the column or its price is missing. */
  function Lookup(s: seq<Obs>, d: int): Option<real>
  {
    if s == [] then None
    else if s[0].date == d then s[0].close
    else Lookup(s[1..], d)
  }

  /** The column-wise concatenation on the date index (main.py:16): the outer
      join of two date-sorted columns, one row per date of either column, with
      `None` in the cells a column lacks. */
  function OuterJoin(s1: seq<Obs>, s2: seq<Obs>): (rows: seq<Row>)
    ensures |s1| <= |rows| && |s2| <= |rows| && |rows| <= |s1| + |s2|
    decreases |s1| + |s2|
  {
    if s1 == [] && s2 == [] then []
    else if s2 == [] || (s1 != [] && s1[0].date < s2[0].date) then
      [Row(s1[0].date, s1[0].close, None)] + OuterJoin(s1[1..], s2)
    else if s1 == [] || s2[0].date < s1[0].date then
      [Row(s2[0].date, None, s2[0].close)] + OuterJoin(s1, s2[1..])
    else
      [Row(s1[0].date, s1[0].close, s2[0].close)] + OuterJoin(s1[1..], s2[1..])
  }

  predicate Complete(r: Row)
  {
    r.first.Some? && r.second.Some?
  }

  function ToBar(r: Row): Bar
    requires Complete(r)
  {
    Bar(r.date, r.first.value, r.second.value)
  }

  /** Dropping incomplete rows (main.py:18): the rows with both cells
      defined, in their order. */
  function DropNa(rows: seq<Row>): (bars: seq<Bar>)
    ensures |bars| <= |rows|
  {
    if rows == [] then []
    else (if Complete(rows[0]) then [ToBar(rows[0])] else []) + DropNa(rows[1..])
  }

  /** main.py:13-18: reject an empty column, then join and drop incomplete
      rows. A panel with no rows is not rejected here. */
  function Align(data1: seq<Obs>, data2: seq<Obs>): (r: Result<seq<Bar>>)
    ensures r.Err? <==> data1 == [] || data2 == []
    ensures r.Err? ==> r.error == DataError
  {
    if data1 == [] || data2 == [] then Err(DataError)
    else Ok(DropNa(OuterJoin(data1, data2)))
  }

  /** The panel's first price column. */
  function Column1(panel: seq<Bar>): (c: seq<real>)
    ensures |c| == |panel|
  {
    seq(|panel|, t requires 0 <= t < |panel| => panel[t].first)
  }

  /** The panel's second price column. */
  function Column2(panel: seq<Bar>): (c: seq<real>)
    ensures |c| == |panel|
  {
    seq(|panel|, t requires 0 <= t < |panel| => panel[t].second)
  }

  /** The panel's date index. */
  function Index(panel: seq<Bar>): (ix: seq<int>)
    ensures |ix| == |panel|
  {
    seq(|panel|, t requires 0 <= t < |panel| => panel[t].date)
  }

  // ---------------------------------------------------------------------
  // Facts about a single column

  lemma {:induction false} IncreasingTail(s: seq<Obs>)
    requires Increasing(s) && s != []
    ensures Increasing(s[1..]) && After(s[1..], s[0].date)
  {
  }

  lemma {:induction false} AfterTail(s: seq<Obs>, d: int)
    requires After(s, d) && s != []
    ensures After(s[1..], d)
  {
  }

  /** A date before every date of the column finds nothing. */
  lemma {:induction false} LookupBefore(s: seq<Obs>, d: int)
    requires After(s, d)
    ensures Lookup(s, d) == None
  {
    if s != [] {
      AfterTail(s, d);
      LookupBefore(s[1..], d);
    }
  }

  /** A defined cell belongs to a date of the column. */
  lemma {:induction false} LookupFound(s: seq<Obs>, d: int)
    requires Lookup(s, d).Some?
    ensures d in Dates(s)
  {
    if s != [] && s[0].date != d {
      LookupFound(s[1..], d);
    }
  }

  lemma {:induction false} DatesAfter(s: seq<Obs>, d: int, e: int)
    requires After(s, d) && e in Dates(s)
    ensures d < e
  {
    if s[0].date != e {
      AfterTail(s, d);
      DatesAfter(s[1..], d, e);
    }
  }

  // ---------------------------------------------------------------------
  // The outer join

  /** Every joined date is one of the columns' dates. */
  lemma {:induction false} OuterJoinDates(s1: seq<Obs>, s2: seq<Obs>)
    ensures RowDates(OuterJoin(s1, s2)) == Dates(s1) + Dates(s2)
    decreases |s1| + |s2|
  {
    if s1 == [] && s2 == [] {
    } else if s2 == [] || (s1 != [] && s1[0].date < s2[0].date) {
      OuterJoinDates(s1[1..], s2);
    } else if s1 == [] || s2[0].date < s1[0].date {
      OuterJoinDates(s1, s2[1..]);
    } else {
      OuterJoinDates(s1[1..], s2[1..]);
    }
  }

  lemma {:induction false} RowDatesAfter(rows: seq<Row>, d: int)
    requires forall e :: e in RowDates(rows) ==> d < e
    ensures RowsAfter(rows, d)
  {
    if rows != [] {
      assert RowDates(rows) == {rows[0].date} + RowDates(rows[1..]);
      assert d < rows[0].date;
      RowDatesAfter(rows[1..], d);
      forall i | 0 <= i < |rows| ensures d < rows[i].date {
        if i > 0 {
          assert rows[i] == rows[1..][i - 1];
        }
      }
    }
  }

  /** One merge step: the first joined row, the columns left after it, and
      what the step preserves of the two columns. */
  lemma JoinHead(s1: seq<Obs>, s2: seq<Obs>) returns (head: Row, t1: seq<Obs>, t2: seq<Obs>)
    requires Increasing(s1) && Increasing(s2) && (s1 != [] || s2 != [])
    ensures OuterJoin(s1, s2) == [head] + OuterJoin(t1, t2)
    ensures |t1| + |t2| < |s1| + |s2|
    ensures Increasing(t1) && Increasing(t2) && After(t1, head.date) && After(t2, head.date)
    ensures head.first == Lookup(s1, head.date) && head.second == Lookup(s2, head.date)
    ensures forall d :: head.date < d ==> Lookup(s1, d) == Lookup(t1, d) && Lookup(s2, d) == Lookup(t2, d)
  {
    if s2 == [] || (s1 != [] && s1[0].date < s2[0].date) {
      head, t1, t2 := Row(s1[0].date, s1[0].close, None), s1[1..], s2;
      IncreasingTail(s1);
      if s2 != [] {
        assert After(s2, head.date);
        LookupBefore(s2, head.date);
      }
    } else if s1 == [] || s2[0].date < s1[0].date {
      head, t1, t2 := Row(s2[0].date, None, s2[0].close), s1, s2[1..];
      IncreasingTail(s2);
      if s1 != [] {
        assert After(s1, head.date);
        LookupBefore(s1, head.date);
      }
    } else {
      head, t1, t2 := Row(s1[0].date, s1[0].close, s2[0].close), s1[1..], s2[1..];
      IncreasingTail(s1);
      IncreasingTail(s2);
    }
  }

  /** The joined rows are sorted by date, and each row carries exactly the
      cell that each column holds for its date. */
  lemma {:induction false} OuterJoinRows(s1: seq<Obs>, s2: seq<Obs>)
    requires Increasing(s1) && Increasing(s2)
    ensures var rows := OuterJoin(s1, s2);
      && RowsIncreasing(rows)
      && forall i :: 0 <= i < |rows| ==>
           rows[i].first == Lookup(s1, rows[i].date) && rows[i].second == Lookup(s2, rows[i].date)
    decreases |s1| + |s2|
  {
    if s1 != [] || s2 != [] {
      var rows := OuterJoin(s1, s2);
      var head, t1, t2 := JoinHead(s1, s2);
      var rest := OuterJoin(t1, t2);
      OuterJoinRows(t1, t2);
      OuterJoinDates(t1, t2);
      forall e | e in RowDates(rest) ensures head.date < e {
        if e in Dates(t1) {
          DatesAfter(t1, head.date, e);
        } else {
          DatesAfter(t2, head.date, e);
        }
      }
      RowDatesAfter(rest, head.date);
      forall i | 0 <= i < |rows|
        ensures rows[i].first == Lookup(s1, rows[i].date) && rows[i].second == Lookup(s2, rows[i].date)
      {
        if i > 0 {
          assert rows[i] == rest[i - 1];
        }
      }
    }
  }

  // ---------------------------------------------------------------------
  // dropna

  /** `dropna` on a non-empty frame: the first row's bar, if it is complete,
      followed by `dropna` of the rest. */
  lemma DropNaUnfold(rows: seq<Row>)
    requires rows != []
    ensures Complete(rows[0]) ==> DropNa(rows) == [ToBar(rows[0])] + DropNa(rows[1..])
    ensures !Complete(rows[0]) ==> DropNa(rows) == DropNa(rows[1..])
  {
  }

  /** `dropna` keeps order: it works row by row on a concatenation. */
  lemma {:induction false} DropNaAppend(a: seq<Row>, b: seq<Row>)
    ensures DropNa(a + b) == DropNa(a) + DropNa(b)
  {
    if a == [] {
      assert a + b == b;
    } else {
      assert (a + b)[0] == a[0];
      assert (a + b)[1..] == a[1..] + b;
      DropNaAppend(a[1..], b);
      DropNaUnfold(a + b);
      DropNaUnfold(a);
    }
  }

  /** `dropna` on a single row keeps it exactly when both cells are defined. */
  lemma DropNaSingle(r: Row)
    ensures DropNa([r]) == if Complete(r) then [ToBar(r)] else []
  {
  }

  /** The kept dates are exactly the dates of the complete rows. */
  lemma {:induction false} DropNaDates(rows: seq<Row>, d: int)
    ensures d in BarDates(DropNa(rows)) <==>
      exists i :: 0 <= i < |rows| && rows[i].date == d && Complete(rows[i])
  {
    if rows != [] {
      var rest := DropNa(rows[1..]);
      DropNaDates(rows[1..], d);
      DropNaUnfold(rows);
      if Complete(rows[0]) {
        var bars := [ToBar(rows[0])] + rest;
        assert bars[0] == ToBar(rows[0]) && bars[1..] == rest;
        assert BarDates(bars) == {rows[0].date} + BarDates(rest);
      }
      if d in BarDates(rest) {
        var i :| 0 <= i < |rows[1..]| && rows[1..][i].date == d && Complete(rows[1..][i]);
        assert rows[i + 1] == rows[1..][i];
      }
      if exists i :: 0 <= i < |rows| && rows[i].date == d && Complete(rows[i]) {
        var i :| 0 <= i < |rows| && rows[i].date == d && Complete(rows[i]);
        if i > 0 {
          assert rows[1..][i - 1] == rows[i];
        }
      }
    }
  }

  /** Every kept bar is the bar of a complete input row: the `k`-th kept bar
      comes from row `i`. */
  lemma {:induction false} DropNaOrigin(rows: seq<Row>, k: nat) returns (i: nat)
    requires k < |DropNa(rows)|
    ensures i < |rows| && Complete(rows[i]) && ToBar(rows[i]) == DropNa(rows)[k]
  {
    var rest := DropNa(rows[1..]);
    DropNaUnfold(rows);
    if Complete(rows[0]) && k == 0 {
      i := 0;
    } else {
      var k' := if Complete(rows[0]) then k - 1 else k;
      assert DropNa(rows)[k] == rest[k'];
      var j := DropNaOrigin(rows[1..], k');
      assert rows[j + 1] == rows[1..][j];
      i := j + 1;
    }
  }

  /** Rows sorted by date give bars sorted by date. */
  lemma {:induction false} DropNaSorted(rows: seq<Row>)
    requires RowsIncreasing(rows)
    ensures BarsIncreasing(DropNa(rows))
  {
    if rows != [] {
      var bars, rest := DropNa(rows), DropNa(rows[1..]);
      assert RowsIncreasing(rows[1..]);
      DropNaSorted(rows[1..]);
      DropNaUnfold(rows);
      if Complete(rows[0]) {
        forall k | 0 <= k < |rest| ensures rows[0].date < rest[k].date {
          var i := DropNaOrigin(rows[1..], k);
          assert rows[i + 1] == rows[1..][i];
        }
        forall j, k | 0 <= j < k < |bars| ensures bars[j].date < bars[k].date {
          assert bars[k] == rest[k - 1];
          if j > 0 {
            assert bars[j] == rest[j - 1];
          }
        }
      }
    }
  }

  // ---------------------------------------------------------------------
  // The aligned panel

  /** main.py:13-18 for non-empty, date-sorted columns: the panel is sorted by
      date, every bar holds the two columns' defined prices for its date, and
      a date is kept exactly when both columns have a defined price for it. */
  lemma AlignedPanel(data1: seq<Obs>, data2: seq<Obs>)
    requires data1 != [] && data2 != []
    requires Increasing(data1) && Increasing(data2)
    ensures Align(data1, data2).Ok?
    ensures var panel := Align(data1, data2).value;
      && BarsIncreasing(panel)
      && (forall t :: 0 <= t < |panel| ==>
            Lookup(data1, panel[t].date) == Some(panel[t].first) &&
            Lookup(data2, panel[t].date) == Some(panel[t].second))
      && (forall d :: d in BarDates(panel) <==>
            Lookup(data1, d).Some? && Lookup(data2, d).Some?)
  {
    var rows := OuterJoin(data1, data2);
    var panel := DropNa(rows);
    OuterJoinRows(data1, data2);
    OuterJoinDates(data1, data2);
    DropNaSorted(rows);
    forall t | 0 <= t < |panel|
      ensures Lookup(data1, panel[t].date) == Some(panel[t].first)
      ensures Lookup(data2, panel[t].date) == Some(panel[t].second)
    {
      var i := DropNaOrigin(rows, t);
    }
    forall d ensures d in BarDates(panel) <==> Lookup(data1, d).Some? && Lookup(data2, d).Some? {
      DropNaDates(rows, d);
      if Lookup(data1, d).Some? && Lookup(data2, d).Some? {
        LookupFound(data1, d);
        var i := RowDatesMember(rows, d);
        assert Complete(rows[i]);
      }
    }
  }

  /** A joined date is the date of some row, the `i`-th. */
  lemma {:induction false} RowDatesMember(rows: seq<Row>, d: int) returns (i: nat)
    requires d in RowDates(rows)
    ensures i < |rows| && rows[i].date == d
  {
    if rows[0].date == d {
      i := 0;
    } else {
      var j := RowDatesMember(rows[1..], d);
      assert rows[j + 1] == rows[1..][j];
      i := j + 1;
    }
  }

  /** For date-sorted downloads the panel is empty exactly when no date has a
      defined price in both columns. */
  lemma EmptyPanelIffNoCommonDate(data1: seq<Obs>, data2: seq<Obs>)
    requires data1 != [] && data2 != []
    requires Increasing(data1) && Increasing(data2)
    ensures Align(data1, data2).Ok?
    ensures |Align(data1, data2).value| == 0 <==>
      forall d :: !(Lookup(data1, d).Some? && Lookup(data2, d).Some?)
  {
    AlignedPanel(data1, data2);
    var panel := Align(data1, data2).value;
    if |panel| == 0 {
      assert BarDates(panel) == {};
    } else {
      var d := panel[0].date;
      assert BarDates(panel) == {d} + BarDates(panel[1..]);
      assert Lookup(data1, d).Some? && Lookup(data2, d).Some?;
    }
  }
}
