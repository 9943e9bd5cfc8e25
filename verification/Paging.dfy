/** Cursor paging of the history tables. A page is what the query's WHERE keeps, sorted and cut off;
    the WHERE is evaluated in SQL's three-valued logic, and NULL sort values come last in both
    directions. */
module Paging {
  import opened JobTypes

  /** A row of the filtered result: its sort value, and the id that breaks ties. */
  datatype Row = Row(value: Option<int>, id: int)

  /** `_cursor_key`: [1 if the value is NULL else 0, the value, the id]. */
  datatype Key = Key(nullRank: int, value: Option<int>, id: int)

  function KeyOf(row: Row): Key {
    Key(if row.value.None? then 1 else 0, row.value, row.id)
  }

  // ---------------------------------------------------------------- three-valued logic

  datatype Truth = Yes | No | Unknown

  function Lift(b: bool): Truth { if b then Yes else No }

  function And(a: Truth, b: Truth): Truth {
    if a.No? || b.No? then No else if a.Yes? && b.Yes? then Yes else Unknown
  }

  function Or(a: Truth, b: Truth): Truth {
    if a.Yes? || b.Yes? then Yes else if a.No? && b.No? then No else Unknown
  }

  /** A comparison with NULL is neither true nor false. */
  function Beyond(a: Option<int>, b: Option<int>, descending: bool): Truth {
    if a.None? || b.None? then Unknown else Lift(if descending then a.value < b.value else a.value > b.value)
  }

  function Equal(a: Option<int>, b: Option<int>): Truth {
    if a.None? || b.None? then Unknown else Lift(a.value == b.value)
  }

  function IsNull(a: Option<int>): int { if a.None? then 1 else 0 }

  /** The page condition as the queries write it. */
  function PageWhere(row: Row, cursor: Key, descending: bool): Truth {
    var idBeyond := Lift(if descending then row.id < cursor.id else row.id > cursor.id);
    Or(Lift(IsNull(row.value) > cursor.nullRank),
       And(Lift(IsNull(row.value) == cursor.nullRank),
           Or(And(Lift(cursor.nullRank == 0),
                  Or(Beyond(row.value, cursor.value, descending), And(Equal(row.value, cursor.value), idBeyond))),
              And(Lift(cursor.nullRank == 1), idBeyond))))
  }

  // ---------------------------------------------------------------- the order the queries sort by

  predicate Comes(a: Row, b: Row, descending: bool) {
    if a.value.None? != b.value.None? then b.value.None?
    else if a.value != b.value then
      if descending then a.value.value > b.value.value else a.value.value < b.value.value
    else if descending then a.id > b.id
    else a.id < b.id
  }

  /** A row passes the page condition exactly when it comes strictly after the cursor's row. */
  lemma WhereIsStrictlyAfter(row: Row, cursor: Row, descending: bool)
    ensures PageWhere(row, KeyOf(cursor), descending).Yes? <==> Comes(cursor, row, descending)
  {
  }

  predicate Sorted(rows: seq<Row>, descending: bool) {
    forall i, j :: 0 <= i < j < |rows| ==> Comes(rows[i], rows[j], descending)
  }

  lemma ComesIsTotal(a: Row, b: Row, c: Row, descending: bool)
    ensures !Comes(a, a, descending)
    ensures a != b ==> Comes(a, b, descending) || Comes(b, a, descending)
    ensures Comes(a, b, descending) && Comes(b, c, descending) ==> Comes(a, c, descending)
  {
  }

  lemma SomeMember(rows: seq<Row>) returns (row: Row)
    requires rows != []
    ensures row in rows
  {
    row := rows[0];
  }

  /** There is only one way to sort a set of rows. */
  lemma {:induction false} SortedIsUnique(s: seq<Row>, t: seq<Row>, descending: bool)
    requires Sorted(s, descending) && Sorted(t, descending)
    requires forall row :: row in s <==> row in t
    ensures s == t
  {
    if s == [] || t == [] {
      if s != t {
        var row := SomeMember(if s == [] then t else s);
        assert false;
      }
    } else {
      FirstIsLeast(s, t, descending);
      forall row ensures row in s[1..] <==> row in t[1..] {
        TailHasTheRest(s, row, descending);
        TailHasTheRest(t, row, descending);
      }
      SortedIsUnique(s[1..], t[1..], descending);
      assert s == [s[0]] + s[1..] && t == [t[0]] + t[1..];
    }
  }

  lemma FirstIsLeast(s: seq<Row>, t: seq<Row>, descending: bool)
    requires Sorted(s, descending) && Sorted(t, descending) && s != [] && t != []
    requires forall row :: row in s <==> row in t
    ensures s[0] == t[0]
  {
    assert s[0] in t && t[0] in s;
    var i :| 0 <= i < |t| && t[i] == s[0];
    var j :| 0 <= j < |s| && s[j] == t[0];
    ComesIsTotal(s[0], t[0], s[0], descending);
  }

  lemma TailHasTheRest(s: seq<Row>, row: Row, descending: bool)
    requires Sorted(s, descending) && s != []
    ensures row in s[1..] <==> row in s && row != s[0]
  {
  }

  // ---------------------------------------------------------------- sorting

  function Insert(row: Row, rows: seq<Row>, descending: bool): (r: seq<Row>)
    ensures |r| == |rows| + 1
  {
    if rows == [] || Comes(row, rows[0], descending) then [row] + rows
    else [rows[0]] + Insert(row, rows[1..], descending)
  }

  function Sort(rows: seq<Row>, descending: bool): (r: seq<Row>)
    ensures |r| == |rows|
  {
    if rows == [] then [] else Insert(rows[0], Sort(rows[1..], descending), descending)
  }

  predicate Distinct(rows: seq<Row>) {
    forall i, j :: 0 <= i < j < |rows| ==> rows[i].id != rows[j].id
  }

  lemma {:induction false} InsertHas(row: Row, rows: seq<Row>, descending: bool, x: Row)
    ensures x in Insert(row, rows, descending) <==> x == row || x in rows
  {
    if rows != [] && !Comes(row, rows[0], descending) {
      InsertHas(row, rows[1..], descending, x);
      assert rows == [rows[0]] + rows[1..];
    }
  }

  lemma {:induction false} InsertSorts(row: Row, rows: seq<Row>, descending: bool)
    requires Sorted(rows, descending) && row !in rows
    ensures Sorted(Insert(row, rows, descending), descending)
  {
    if rows == [] {
    } else if Comes(row, rows[0], descending) {
      forall k | 0 <= k < |rows| ensures Comes(row, rows[k], descending) {
        ComesIsTotal(row, rows[0], rows[k], descending);
      }
    } else {
      var rest := Insert(row, rows[1..], descending);
      InsertSorts(row, rows[1..], descending);
      ComesIsTotal(row, rows[0], row, descending);
      forall k | 0 <= k < |rest| ensures Comes(rows[0], rest[k], descending) {
        InsertHas(row, rows[1..], descending, rest[k]);
      }
    }
  }

  lemma {:induction false} SortHas(rows: seq<Row>, descending: bool, x: Row)
    ensures x in Sort(rows, descending) <==> x in rows
  {
    if rows != [] {
      SortHas(rows[1..], descending, x);
      InsertHas(rows[0], Sort(rows[1..], descending), descending, x);
      assert rows == [rows[0]] + rows[1..];
    }
  }

  lemma {:induction false} SortSorts(rows: seq<Row>, descending: bool)
    requires Distinct(rows)
    ensures Sorted(Sort(rows, descending), descending)
  {
    if rows != [] {
      SortSorts(rows[1..], descending);
      SortHas(rows[1..], descending, rows[0]);
      InsertSorts(rows[0], Sort(rows[1..], descending), descending);
    }
  }

  // ---------------------------------------------------------------- pages

  function Kept(rows: seq<Row>, after: Option<Key>, descending: bool): seq<Row> {
    if rows == [] then []
    else (if after.None? || PageWhere(rows[0], after.value, descending).Yes? then [rows[0]] else [])
         + Kept(rows[1..], after, descending)
  }

  function Take(rows: seq<Row>, limit: nat): seq<Row> {
    if |rows| <= limit then rows else rows[..limit]
  }

  /** One query: filter, sort, cut off. */
  function Page(rows: seq<Row>, after: Option<Key>, descending: bool, limit: nat): seq<Row> {
    Take(Sort(Kept(rows, after, descending), descending), limit)
  }

  lemma {:induction false} KeptHas(rows: seq<Row>, after: Option<Key>, descending: bool, x: Row)
    ensures x in Kept(rows, after, descending)
            <==> x in rows && (after.Some? ==> PageWhere(x, after.value, descending).Yes?)
  {
    if rows != [] {
      KeptHas(rows[1..], after, descending, x);
      assert rows == [rows[0]] + rows[1..];
    }
  }

  lemma {:induction false} KeptDistinct(rows: seq<Row>, after: Option<Key>, descending: bool)
    requires Distinct(rows)
    ensures Distinct(Kept(rows, after, descending))
  {
    if rows != [] {
      var rest := Kept(rows[1..], after, descending);
      KeptDistinct(rows[1..], after, descending);
      forall k | 0 <= k < |rest| ensures rest[k].id != rows[0].id {
        KeptHas(rows[1..], after, descending, rest[k]);
        var j :| 0 <= j < |rows[1..]| && rows[1..][j] == rest[k];
        assert rows[j + 1] == rest[k];
      }
    }
  }

  /** What is kept after the row at place `k - 1` of the sorted list is the list from `k` on. */
  lemma AfterCursorIsTheRest(rows: seq<Row>, descending: bool, k: nat)
    requires Distinct(rows) && k <= |rows|
    ensures var s := Sort(rows, descending);
            Sort(Kept(rows, if k == 0 then None else Some(KeyOf(s[k - 1])), descending), descending) == s[k..]
  {
    var s := Sort(rows, descending);
    var after := if k == 0 then None else Some(KeyOf(s[k - 1]));
    var kept := Kept(rows, after, descending);
    SortSorts(rows, descending);
    KeptDistinct(rows, after, descending);
    SortSorts(kept, descending);
    forall x ensures x in Sort(kept, descending) <==> x in s[k..] {
      SortHas(kept, descending, x);
      KeptHas(rows, after, descending, x);
      SortHas(rows, descending, x);
      if k > 0 {
        WhereIsStrictlyAfter(x, s[k - 1], descending);
      }
      RestIsAfter(s, descending, k, x);
    }
    SortedIsUnique(Sort(kept, descending), s[k..], descending);
  }

  lemma RestIsAfter(s: seq<Row>, descending: bool, k: nat, x: Row)
    requires Sorted(s, descending) && k <= |s|
    ensures x in s[k..] <==> x in s && (k > 0 ==> Comes(s[k - 1], x, descending))
  {
  }

  function CursorAt(s: seq<Row>, k: nat): Option<Key>
    requires k <= |s|
  {
    if k == 0 then None else Some(KeyOf(s[k - 1]))
  }

  function PageEnd(s: seq<Row>, k: nat, limit: nat): (end: nat)
    requires k <= |s|
    ensures k <= end <= |s|
  {
    if k + limit < |s| then k + limit else |s|
  }

  /** A page is the next stretch of the sorted list, as long as asked for or all that is left. */
  lemma PageAt(rows: seq<Row>, descending: bool, limit: nat, k: nat)
    requires Distinct(rows) && k <= |rows|
    ensures var s := Sort(rows, descending);
            && Page(rows, CursorAt(s, k), descending, limit) == s[k..PageEnd(s, k, limit)]
            && PageEnd(s, k, limit) == if k + limit <= |rows| then k + limit else |rows|
  {
    AfterCursorIsTheRest(rows, descending, k);
  }

  /** Asking for page after page, each from the last row of the one before, until one comes back
      empty or `pages` more have been read. */
  function Walk(page: Option<Key> -> seq<Row>, after: Option<Key>, pages: nat): seq<Row>
    decreases pages
  {
    var next := page(after);
    if next == [] || pages == 0 then next
    else next + Walk(page, Some(KeyOf(next[|next| - 1])), pages - 1)
  }

  lemma {:induction false} WalkFrom(page: Option<Key> -> seq<Row>, s: seq<Row>, limit: nat, k: nat, pages: nat)
    requires limit > 0 && k <= |s| && pages >= |s| - k
    requires forall j: nat :: j <= |s| ==> page(CursorAt(s, j)) == s[j..PageEnd(s, j, limit)]
    ensures Walk(page, CursorAt(s, k), pages) == s[k..]
    decreases pages
  {
    var next := PageEnd(s, k, limit);
    if k < |s| {
      assert page(CursorAt(s, k))[next - k - 1] == s[next - 1];
      WalkFrom(page, s, limit, next, pages - 1);
      assert s[k..] == s[k..next] + s[next..];
    }
  }

  /** Page by page, in either direction and with any page size, a client sees exactly the sorted
      list: no row twice, none left out, none out of order. */
  lemma PagesAreTheSortedList(rows: seq<Row>, descending: bool, limit: nat)
    requires Distinct(rows) && limit > 0
    ensures Walk(after => Page(rows, after, descending, limit), None, |rows|) == Sort(rows, descending)
    ensures Sorted(Sort(rows, descending), descending)
    ensures forall row :: row in Sort(rows, descending) <==> row in rows
  {
    var s := Sort(rows, descending);
    forall j: nat | j <= |s| ensures Page(rows, CursorAt(s, j), descending, limit) == s[j..PageEnd(s, j, limit)] {
      PageAt(rows, descending, limit, j);
    }
    WalkFrom(after => Page(rows, after, descending, limit), s, limit, 0, |rows|);
    assert s[0..] == s;
    SortSorts(rows, descending);
    forall row ensures row in s <==> row in rows {
      SortHas(rows, descending, row);
    }
  }

  // ---------------------------------------------------------------- sorting by duration

  /** A job as the duration sort sees it: each page's query reads the clock again. */
  datatype TimedJob = TimedJob(id: int, startedAt: int, endedAt: Option<int>)

  function DurationRow(job: TimedJob, now: int): Row {
    Row(Some((if job.endedAt.Some? then job.endedAt.value else now) - job.startedAt), job.id)
  }

  /** Shortest first, the last job of a page comes again on the next exactly when it is running and
      the clock has moved on. */
  lemma DurationRepeatsExactlyWhen(job: TimedJob, now: int, later: int)
    requires now <= later
    ensures PageWhere(DurationRow(job, later), KeyOf(DurationRow(job, now)), false).Yes?
            <==> job.endedAt.None? && now < later
  {
  }

  /** Longest first, a job due after the cursor is passed over exactly when it is running and has
      meanwhile grown up to the cursor's duration or, with an id not below the cursor's, to it. */
  lemma DurationSkipsExactlyWhen(job: TimedJob, cursor: Row, now: int, later: int)
    requires now <= later && cursor.value.Some?
    requires PageWhere(DurationRow(job, now), KeyOf(cursor), true).Yes?
    ensures !PageWhere(DurationRow(job, later), KeyOf(cursor), true).Yes?
            <==> job.endedAt.None? && now < later
                 && (later - job.startedAt > cursor.value.value
                     || (later - job.startedAt == cursor.value.value && job.id >= cursor.id))
  {
  }
}
