/**
 Cursor pagination: `Client.Query` in backend/internal/storage/victorialogs/client.go:131-151
 with the limit and cursor handling of backend/internal/query/builder.go, and a client that
 follows `next_cursor` to the end. The store is a fixed sequence of matching rows, newest
 first, whose order among rows of one time does not change between requests.
 */
module Pagination {
  import opened Sequences
  import opened Wrappers

  datatype Row = Row(id: string, time: int)

  /** A cursor is the time of the last row of a page. */
  datatype Query = Query(limit: int, cursor: Option<int>)

  datatype Page = Page(data: seq<Row>, truncated: bool, next: Option<int>) | InvalidLimit

  ghost predicate NewestFirst(rows: seq<Row>) {
    forall i, j :: 0 <= i < j < |rows| ==> rows[i].time >= rows[j].time
  }

  /** The first position from `i` on with a row strictly before the cursor. */
  function Skip(rows: seq<Row>, i: nat, c: int): (j: nat)
    requires i <= |rows|
    ensures i <= j <= |rows|
    ensures forall k :: i <= k < j ==> rows[k].time >= c
    ensures j < |rows| ==> rows[j].time < c
    decreases |rows| - i
  {
    if i == |rows| || rows[i].time < c then i else Skip(rows, i + 1, c)
  }

  /** Where the rows that match a query begin: on a sorted store, rows strictly before the
      cursor are those from `Skip` on. */
  function Start(rows: seq<Row>, cursor: Option<int>): (j: nat)
    ensures j <= |rows|
  {
    match cursor case None => 0 case Some(c) => Skip(rows, 0, c)
  }

  lemma StartIsFilter(rows: seq<Row>, c: int, i: nat)
    requires NewestFirst(rows) && i < |rows|
    ensures rows[i].time < c <==> i >= Start(rows, Some(c))
  {
    var j := Skip(rows, 0, c);
    if i > j { assert rows[j].time >= rows[i].time; }
  }

  /** `Validate`'s limit test, which turns 0 into 100 on its own copy only. */
  predicate LimitAccepted(limit: int) {
    var checked := if limit == 0 then 100 else limit;
    1 <= checked <= 1000
  }

  /** The page that starts at a position. */
  ghost predicate IsPage(page: Page, rows: seq<Row>, from: nat, limit: nat)
    requires from <= |rows|
  {
    && page.Page?
    && page.truncated == (from + limit < |rows|)
    && page.data == (if from + limit < |rows| then rows[from..from + limit] else rows[from..])
    && page.next == (if from + limit < |rows| && limit > 0 then Some(rows[from + limit - 1].time) else None)
  }

  /** `Client.Query`: ask for one row more than the limit, cut it off, and remember the last
      time as the cursor of the next page. */
  method ClientQuery(rows: seq<Row>, q: Query) returns (page: Page)
    ensures page.InvalidLimit? <==> q.limit < 0 || q.limit > 1000
    ensures q.limit >= 0 && page.Page? ==> IsPage(page, rows, Start(rows, q.cursor), q.limit)
  {
    if !LimitAccepted(q.limit) {
      return InvalidLimit;
    }
    var from := Start(rows, q.cursor);
    var answer := if |rows| - from > q.limit + 1 then rows[from..from + q.limit + 1] else rows[from..];
    var data, truncated, next := answer, false, None;
    if |answer| > q.limit {
      data, truncated := answer[..q.limit], true;
    }
    if truncated && |data| > 0 {
      next := Some(data[|data| - 1].time);
    }
    return Page.Page(data, truncated, next);
  }

  /** The default limit of 100 never reaches the client: with limit 0 every query that
      matches rows is truncated to nothing and has no cursor. */
  method QueryWithoutLimit(rows: seq<Row>, cursor: Option<int>) returns (page: Page)
    ensures page == Page.Page([], Start(rows, cursor) < |rows|, None)
  {
    page := ClientQuery(rows, Query(0, cursor));
    assert page.data == [];
  }

  /* ---------- A run over all pages ---------- */

  /** Where the page after a truncated one starts. */
  function NextStart(rows: seq<Row>, from: nat, limit: nat): (n: nat)
    requires 0 < limit && from + limit < |rows|
    ensures from + limit <= n <= |rows|
  {
    Skip(rows, from + limit, rows[from + limit - 1].time)
  }

  lemma SkipIs(rows: seq<Row>, i: nat, c: int, j: nat)
    requires i <= j <= |rows| && (forall k :: i <= k < j ==> rows[k].time >= c)
    requires j < |rows| ==> rows[j].time < c
    ensures Skip(rows, i, c) == j
  {
  }

  /** Searching the whole store for the cursor finds the same place. */
  lemma CursorFindsNext(rows: seq<Row>, from: nat, limit: nat)
    requires NewestFirst(rows) && 0 < limit && from + limit < |rows|
    ensures Start(rows, Some(rows[from + limit - 1].time)) == NextStart(rows, from, limit)
  {
    SkipIs(rows, 0, rows[from + limit - 1].time, NextStart(rows, from, limit));
  }

  /** The positions that following the cursors from a position visits. */
  function Visited(rows: seq<Row>, from: nat, limit: nat): seq<nat>
    requires 0 < limit && from <= |rows|
    decreases |rows| - from
  {
    if from + limit >= |rows| then Range(from, |rows|)
    else Range(from, from + limit) + Visited(rows, NextStart(rows, from, limit), limit)
  }

  /** Positions are visited in increasing order: nothing twice, newest first. */
  lemma {:induction false} VisitedIncreases(rows: seq<Row>, from: nat, limit: nat)
    requires 0 < limit && from <= |rows|
    ensures forall i :: 0 <= i < |Visited(rows, from, limit)| ==> from <= Visited(rows, from, limit)[i] < |rows|
    ensures forall i, j :: 0 <= i < j < |Visited(rows, from, limit)| ==>
              Visited(rows, from, limit)[i] < Visited(rows, from, limit)[j]
    decreases |rows| - from
  {
    if from + limit < |rows| { VisitedIncreases(rows, NextStart(rows, from, limit), limit); }
  }

  /** `done` are the rows of the positions before the page that starts at `from`. */
  ghost predicate Collected(rows: seq<Row>, limit: nat, before: seq<nat>, from: nat, done: seq<Row>)
    requires 0 < limit && from <= |rows|
  {
    && Inside(rows, before) && done == ElementsAt(rows, before)
    && Visited(rows, 0, limit) == before + Visited(rows, from, limit)
  }

  lemma CollectPage(rows: seq<Row>, limit: nat, before: seq<nat>, from: nat, done: seq<Row>)
    requires 0 < limit && from + limit < |rows| && Collected(rows, limit, before, from, done)
    ensures Collected(rows, limit, before + Range(from, from + limit), NextStart(rows, from, limit),
                      done + rows[from..from + limit])
  {
    AppendRange(rows, before, from, from + limit);
    Regroup(before, Range(from, from + limit), Visited(rows, NextStart(rows, from, limit), limit));
  }

  lemma CollectLastPage(rows: seq<Row>, limit: nat, before: seq<nat>, from: nat, done: seq<Row>)
    requires 0 < limit && from <= |rows| <= from + limit && Collected(rows, limit, before, from, done)
    ensures Inside(rows, Visited(rows, 0, limit))
    ensures done + rows[from..] == ElementsAt(rows, Visited(rows, 0, limit))
  {
    AppendRange(rows, before, from, |rows|);
  }

  /** Following `next_cursor` until there is none ends, with the rows of the visited positions. */
  method FollowCursors(rows: seq<Row>, limit: nat) returns (all: seq<Row>)
    requires 1 <= limit <= 1000 && NewestFirst(rows)
    ensures Inside(rows, Visited(rows, 0, limit))
    ensures all == ElementsAt(rows, Visited(rows, 0, limit))
  {
    var page := ClientQuery(rows, Query(limit, None));
    all := page.data;
    ghost var from, before: seq<nat>, done: seq<Row> := 0, [], [];
    while page.next.Some?
      invariant from <= |rows| && IsPage(page, rows, from, limit)
      invariant Collected(rows, limit, before, from, done)
      invariant all == done + page.data
      decreases |rows| - from
    {
      CursorFindsNext(rows, from, limit);
      CollectPage(rows, limit, before, from, done);
      from, before, done := NextStart(rows, from, limit), before + Range(from, from + limit), all;
      page := ClientQuery(rows, Query(limit, page.next));
      all := all + page.data;
    }
    CollectLastPage(rows, limit, before, from, done);
  }

  /* ---------- What the run misses ---------- */

  /** Whether a position is the last one of a truncated page. */
  predicate EndsPage(rows: seq<Row>, from: nat, limit: nat, e: nat)
    requires 0 < limit && from <= |rows|
    decreases |rows| - from
  {
    from + limit < |rows| &&
    (e == from + limit - 1 || EndsPage(rows, NextStart(rows, from, limit), limit, e))
  }

  lemma {:induction false} EndsPageInside(rows: seq<Row>, from: nat, limit: nat, e: nat)
    requires 0 < limit && from <= |rows| && EndsPage(rows, from, limit, e)
    ensures from <= e < |rows| - 1
    decreases |rows| - from
  {
    if e != from + limit - 1 { EndsPageInside(rows, NextStart(rows, from, limit), limit, e); }
  }

  /** A row is missed exactly when it comes after the last row of a truncated page and has
      the same time. */
  lemma {:induction false} MissedIff(rows: seq<Row>, from: nat, limit: nat, i: nat)
    requires NewestFirst(rows) && 0 < limit && from <= i < |rows|
    ensures i !in Visited(rows, from, limit) <==>
            exists e: nat :: EndsPage(rows, from, limit, e) && e < i && rows[e].time == rows[i].time
    decreases |rows| - from
  {
    if from + limit >= |rows| {
      assert Range(from, |rows|)[i - from] == i;
    } else {
      var n, last := NextStart(rows, from, limit), from + limit - 1;
      VisitedIncreases(rows, n, limit);
      if i <= last {
        assert Range(from, from + limit)[i - from] == i;
        forall e: nat | EndsPage(rows, from, limit, e) ensures e >= last {
          if e != last { EndsPageInside(rows, n, limit, e); }
        }
      } else if i < n {
        assert rows[last].time == rows[i].time;
        assert EndsPage(rows, from, limit, last);
      } else {
        MissedIff(rows, n, limit, i);
        assert rows[i].time < rows[last].time by {
          assert rows[n].time >= rows[i].time || n == i;
        }
        MissedLater(rows, from, limit, i);
      }
    }
  }

  /** A row on a later page can only be missed because of a later page. */
  lemma MissedLater(rows: seq<Row>, from: nat, limit: nat, i: nat)
    requires 0 < limit && from + limit < |rows| && NextStart(rows, from, limit) <= i < |rows|
    requires rows[i].time < rows[from + limit - 1].time
    ensures (exists e: nat :: EndsPage(rows, from, limit, e) && e < i && rows[e].time == rows[i].time) <==>
            (exists e: nat ::
               EndsPage(rows, NextStart(rows, from, limit), limit, e) && e < i && rows[e].time == rows[i].time)
    ensures i in Visited(rows, from, limit) <==> i in Visited(rows, NextStart(rows, from, limit), limit)
  {
    var n := NextStart(rows, from, limit);
    forall e: nat | EndsPage(rows, n, limit, e) ensures EndsPage(rows, from, limit, e) {}
    assert i !in Range(from, from + limit);
  }

  /** Some truncated page ends between two rows of one time. */
  ghost predicate SplitsTie(rows: seq<Row>, limit: nat, e: nat)
    requires 0 < limit
  {
    EndsPage(rows, 0, limit, e) && e + 1 < |rows| && rows[e].time == rows[e + 1].time
  }

  /** The run is complete exactly when no truncated page ends between two rows of one time. */
  lemma CompleteIffNoSplit(rows: seq<Row>, limit: nat)
    requires NewestFirst(rows) && 0 < limit
    ensures (forall i :: 0 <= i < |rows| ==> i in Visited(rows, 0, limit)) <==>
            (forall e: nat :: !SplitsTie(rows, limit, e))
  {
    if e: nat :| SplitsTie(rows, limit, e) {
      MissedIff(rows, 0, limit, e + 1);
      assert e + 1 !in Visited(rows, 0, limit);
    } else {
      forall i | 0 <= i < |rows| ensures i in Visited(rows, 0, limit) {
        MissedIff(rows, 0, limit, i);
        if i !in Visited(rows, 0, limit) {
          var e: nat :| EndsPage(rows, 0, limit, e) && e < i && rows[e].time == rows[i].time;
          assert rows[e].time >= rows[e + 1].time && (e + 1 == i || rows[e + 1].time >= rows[i].time);
          assert SplitsTie(rows, limit, e);
        }
      }
    }
  }

  ghost predicate DistinctTimes(rows: seq<Row>) {
    forall i, j :: 0 <= i < j < |rows| ==> rows[i].time != rows[j].time
  }

  /** With distinct times the run is the full sorted result. */
  lemma DistinctTimesAreComplete(rows: seq<Row>, limit: nat)
    requires NewestFirst(rows) && 0 < limit
    requires DistinctTimes(rows)
    ensures Visited(rows, 0, limit) == Range(0, |rows|)
  {
    VisitedAll(rows, 0, limit);
  }

  lemma NextPageFollows(rows: seq<Row>, from: nat, limit: nat)
    requires NewestFirst(rows) && 0 < limit && from + limit < |rows|
    requires DistinctTimes(rows)
    ensures NextStart(rows, from, limit) == from + limit
  {
    assert rows[from + limit].time < rows[from + limit - 1].time;
    SkipIs(rows, from + limit, rows[from + limit - 1].time, from + limit);
  }

  lemma {:induction false} VisitedAll(rows: seq<Row>, from: nat, limit: nat)
    requires NewestFirst(rows) && 0 < limit && from <= |rows|
    requires DistinctTimes(rows)
    ensures Visited(rows, from, limit) == Range(from, |rows|)
    decreases |rows| - from
  {
    if from + limit < |rows| {
      NextPageFollows(rows, from, limit);
      VisitedAll(rows, from + limit, limit);
      RangesJoin(from, from + limit, |rows|);
      assert Visited(rows, from, limit) == Range(from, from + limit) + Range(from + limit, |rows|);
    }
  }
}
