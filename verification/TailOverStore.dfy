/**
 The live tail over a store that only gains newer rows: every row at most once, in time
 order, and none of an untruncated window missing.
 */
module TailOverStore {
  import opened LiveTail
  import opened Sequences

  const WINDOW := 30_000_000_000
  const LIMIT := 1000

  /** A store that grows at its end: rows in time order, with distinct keys. */
  ghost predicate StoreOk(log: seq<Row>) {
    && (forall i, j :: 0 <= i < j < |log| ==> log[i].time <= log[j].time)
    && (forall i, j :: 0 <= i < j < |log| ==> log[i].key != log[j].key)
  }

  /** A poll at time `now`, when the first `size` rows are in the store; or one that failed. */
  datatype Visit = Lost | At(size: nat, now: int)

  /** How many of the first `n` rows are older than `t`. */
  function Before(log: seq<Row>, n: nat, t: int): (k: nat)
    requires n <= |log|
    ensures k <= n
  {
    if n == 0 then 0 else if log[n - 1].time < t then n else Before(log, n - 1, t)
  }

  /** The window [now - 30 s, now] and the part of it that fits the limit, as positions. */
  function WindowStart(log: seq<Row>, v: Visit): nat
    requires v.At? && v.size <= |log|
  {
    Before(log, v.size, v.now - WINDOW)
  }

  function High(log: seq<Row>, v: Visit): nat
    requires v.At? && v.size <= |log|
  {
    Before(log, v.size, v.now + 1)
  }

  function Low(log: seq<Row>, v: Visit): nat
    requires v.At? && v.size <= |log|
  {
    var lo, hi := WindowStart(log, v), High(log, v);
    if hi >= LIMIT && lo < hi - LIMIT then hi - LIMIT else lo
  }

  predicate Truncated(log: seq<Row>, v: Visit)
    requires v.At? && v.size <= |log|
  {
    High(log, v) > WindowStart(log, v) + LIMIT
  }

  function Reverse(rows: seq<Row>): seq<Row> {
    if rows == [] then [] else Reverse(rows[1..]) + [rows[0]]
  }

  /** The newest rows of the window, newest first: what `Query` with limit 1000 answers. */
  function AnswerOf(log: seq<Row>, v: Visit): Poll
    requires v.At? ==> v.size <= |log|
  {
    if v.Lost? then Failed
    else
      BeforeGrows(log, v.size, v.size, v.now - WINDOW, v.now + 1);
      Answer(Reverse(log[Low(log, v)..High(log, v)]))
  }

  function Answers(log: seq<Row>, visits: seq<Visit>): (polls: seq<Poll>)
    requires forall i :: 0 <= i < |visits| && visits[i].At? ==> visits[i].size <= |log|
    ensures |polls| == |visits|
  {
    if visits == [] then []
    else Answers(log, visits[..|visits| - 1]) + [AnswerOf(log, visits[|visits| - 1])]
  }

  /** Neither the store nor the clock goes back. */
  ghost predicate VisitsOk(log: seq<Row>, visits: seq<Visit>) {
    && (forall i :: 0 <= i < |visits| && visits[i].At? ==> visits[i].size <= |log|)
    && (forall i, j :: 0 <= i < j < |visits| && visits[i].At? && visits[j].At? ==>
          visits[i].size <= visits[j].size && visits[i].now <= visits[j].now)
  }

  lemma {:induction false} BeforeGrows(log: seq<Row>, n: nat, m: nat, t: int, u: int)
    requires n <= m <= |log| && t <= u
    ensures Before(log, n, t) <= Before(log, m, u)
    decreases m, n
  {
    if n < m {
      if log[m - 1].time >= u { BeforeGrows(log, n, m - 1, t, u); }
    } else if n > 0 && log[n - 1].time >= u {
      BeforeGrows(log, n - 1, m - 1, t, u);
    }
  }

  /* ---------- The emitted rows as positions in the store ---------- */

  /** Positions that were emitted: increasing, below `hi`, and ending in all of `lo..hi`. */
  ghost predicate EmittedUpTo(log: seq<Row>, idx: seq<nat>, lo: nat, hi: nat) {
    && lo <= hi <= |log| && hi - lo <= LIMIT && hi - lo <= |idx|
    && (forall i :: 0 <= i < |idx| ==> idx[i] < hi)
    && (forall i, j :: 0 <= i < j < |idx| ==> idx[i] < idx[j])
    && idx[|idx| - (hi - lo)..] == Range(lo, hi)
  }

  lemma {:induction false} MarkDownIsUpwards(marks: seq<Row>, rows: seq<Row>)
    requires rows != []
    ensures MarkDown(marks, Reverse(rows)) == MarkDown(Mark(marks, rows[0]), Reverse(rows[1..]))
  {
    var data := Reverse(rows);
    assert data[|data| - 1] == rows[0] && data[..|data| - 1] == Reverse(rows[1..]);
  }

  /** Rows that were emitted within the last 4096 are skipped. */
  lemma {:induction false} SkipsOverlap(log: seq<Row>, idx: seq<nat>, lo: nat, hi: nat, a: nat, b: nat)
    requires StoreOk(log) && EmittedUpTo(log, idx, lo, hi) && lo <= a <= hi <= b <= |log|
    ensures MarkDown(ElementsAt(log, idx), Reverse(log[a..b])) == MarkDown(ElementsAt(log, idx), Reverse(log[hi..b]))
    decreases hi - a
  {
    if a < hi {
      var marks := ElementsAt(log, idx);
      assert log[a..b][1..] == log[a + 1..b];
      MarkDownIsUpwards(marks, log[a..b]);
      assert idx[|idx| - (hi - lo)..][a - lo] == a;
      assert marks[|idx| - hi + a] == log[a];
      assert Remembered(marks, log[a].key);
      SkipsOverlap(log, idx, lo, hi, a + 1, b);
    }
  }

  /** A row above everything emitted is new, so it is emitted. */
  lemma MarksNew(log: seq<Row>, idx: seq<nat>, a: nat)
    requires StoreOk(log) && a < |log| && forall i :: 0 <= i < |idx| ==> idx[i] < a
    ensures Mark(ElementsAt(log, idx), log[a]) == ElementsAt(log, idx + Range(a, a + 1))
  {
    var marks := ElementsAt(log, idx);
    forall i | 0 <= i < |marks| ensures marks[i].key != log[a].key {
      assert marks[i] == log[idx[i]];
    }
    AppendRange(log, idx, a, a + 1);
    assert log[a..a + 1] == [log[a]];
  }

  lemma OneThenRest(idx: seq<nat>, a: nat, b: nat)
    requires a < b
    ensures idx + Range(a, a + 1) + Range(a + 1, b) == idx + Range(a, b)
  {
    RangesJoin(a, a + 1, b);
    Regroup(idx, Range(a, a + 1), Range(a + 1, b));
  }

  lemma {:induction false} EmitsNew(log: seq<Row>, idx: seq<nat>, a: nat, b: nat)
    requires StoreOk(log) && a <= b <= |log|
    requires forall i :: 0 <= i < |idx| ==> idx[i] < a
    ensures MarkDown(ElementsAt(log, idx), Reverse(log[a..b])) == ElementsAt(log, idx + Range(a, b))
    decreases b - a
  {
    if a == b {
      assert log[a..b] == [] && idx + Range(a, b) == idx;
    } else {
      var rows := log[a..b];
      assert rows[0] == log[a] && rows[1..] == log[a + 1..b];
      MarkDownIsUpwards(ElementsAt(log, idx), rows);
      MarksNew(log, idx, a);
      EmitsNew(log, idx + Range(a, a + 1), a + 1, b);
      OneThenRest(idx, a, b);
    }
  }

  lemma NewPositions(log: seq<Row>, idx: seq<nat>, lo: nat, hi: nat, lo': nat, hi': nat, from: nat)
    requires EmittedUpTo(log, idx, lo, hi)
    requires lo <= lo' <= hi' <= |log| && hi <= hi' && hi' - lo' <= LIMIT
    requires from == if lo' < hi then hi else lo'
    ensures EmittedUpTo(log, idx + Range(from, hi'), lo', hi')
  {
    var idx' := idx + Range(from, hi');
    var last := idx'[|idx'| - (hi' - lo')..];
    forall k | 0 <= k < hi' - lo' ensures last[k] == lo' + k {
      if lo' + k < hi {
        assert idx[|idx| - (hi - lo)..][lo' + k - lo] == lo' + k;
      }
    }
    assert last == Range(lo', hi');
  }

  lemma NewPositionsAre(log: seq<Row>, idx: seq<nat>, lo': nat, hi': nat, from: nat, p: nat)
    requires lo' <= from <= hi' && EmittedUpTo(log, idx + Range(from, hi'), lo', hi')
    ensures p in idx + Range(from, hi') <==> p in idx || lo' <= p < hi'
  {
    var idx' := idx + Range(from, hi');
    if lo' <= p < hi' {
      assert p == idx'[|idx'| - (hi' - lo')..][p - lo'];
    }
  }

  /** One answered poll extends the emitted positions by what is new in its window. */
  lemma PollExtends(log: seq<Row>, idx: seq<nat>, lo: nat, hi: nat, lo': nat, hi': nat) returns (idx': seq<nat>)
    requires StoreOk(log) && EmittedUpTo(log, idx, lo, hi)
    requires lo <= lo' <= hi' <= |log| && hi <= hi' && hi' - lo' <= LIMIT
    ensures EmittedUpTo(log, idx', lo', hi')
    ensures MarkDown(ElementsAt(log, idx), Reverse(log[lo'..hi'])) == ElementsAt(log, idx')
    ensures forall p: nat :: p in idx' <==> p in idx || lo' <= p < hi'
  {
    var from := if lo' < hi then hi else lo';
    if lo' < hi {
      SkipsOverlap(log, idx, lo, hi, lo', hi');
    }
    EmitsNew(log, idx, from, hi');
    NewPositions(log, idx, lo, hi, lo', hi', from);
    idx' := idx + Range(from, hi');
    forall p: nat ensures p in idx' <==> p in idx || lo' <= p < hi' {
      NewPositionsAre(log, idx, lo', hi', from, p);
    }
  }

  /** The positions of the last answered poll. */
  function LastLow(log: seq<Row>, visits: seq<Visit>): nat
    requires forall i :: 0 <= i < |visits| && visits[i].At? ==> visits[i].size <= |log|
  {
    if visits == [] then 0
    else if visits[|visits| - 1].At? then Low(log, visits[|visits| - 1])
    else LastLow(log, visits[..|visits| - 1])
  }

  function LastHigh(log: seq<Row>, visits: seq<Visit>): nat
    requires forall i :: 0 <= i < |visits| && visits[i].At? ==> visits[i].size <= |log|
  {
    if visits == [] then 0
    else if visits[|visits| - 1].At? then High(log, visits[|visits| - 1])
    else LastHigh(log, visits[..|visits| - 1])
  }

  /** Both ends of the answered windows only move forward. */
  lemma {:induction false} WindowsAdvance(log: seq<Row>, visits: seq<Visit>, v: Visit)
    requires VisitsOk(log, visits + [v]) && v.At?
    ensures forall i :: 0 <= i < |visits| && visits[i].At? ==> visits[i].size <= |log|
    ensures v.size <= |log|
    ensures LastLow(log, visits) <= Low(log, v) && LastHigh(log, visits) <= High(log, v)
  {
    assert (visits + [v])[|visits|] == v;
    forall i | 0 <= i < |visits| ensures (visits + [v])[i] == visits[i] {}
    if visits != [] {
      var init, last := visits[..|visits| - 1], visits[|visits| - 1];
      if last.At? {
        BeforeGrows(log, last.size, v.size, last.now - WINDOW, v.now - WINDOW);
        BeforeGrows(log, last.size, v.size, last.now + 1, v.now + 1);
      } else {
        forall i | 0 <= i < |init| ensures (init + [v])[i] == (visits + [v])[i] {}
        WindowsAdvance(log, init, v);
      }
    }
  }

  lemma TailStep(log: seq<Row>, visits: seq<Visit>, v: Visit)
    requires forall i :: 0 <= i < |visits| && visits[i].At? ==> visits[i].size <= |log|
    requires v.At? ==> v.size <= |log|
    ensures var before := Tail(Answers(log, visits));
            Tail(Answers(log, visits + [v])) ==
              match AnswerOf(log, v) { case Failed => before case Answer(data) => MarkDown(before, data) }
  {
    var all := visits + [v];
    assert all[..|all| - 1] == visits && all[|all| - 1] == v;
    var polls := Answers(log, all);
    assert polls == Answers(log, visits) + [AnswerOf(log, v)];
    assert polls[..|polls| - 1] == Answers(log, visits);
  }

  /** Some answered poll has the position among the rows it returns. */
  ghost predicate Covered(log: seq<Row>, visits: seq<Visit>, p: nat)
    requires forall i :: 0 <= i < |visits| && visits[i].At? ==> visits[i].size <= |log|
  {
    exists i :: 0 <= i < |visits| && Returns(log, visits[i], p)
  }

  ghost predicate Returns(log: seq<Row>, v: Visit, p: nat)
    requires v.At? ==> v.size <= |log|
  {
    v.At? && Low(log, v) <= p < High(log, v)
  }

  lemma CoveredNext(log: seq<Row>, init: seq<Visit>, last: Visit, p: nat)
    requires forall i :: 0 <= i < |init| && init[i].At? ==> init[i].size <= |log|
    requires last.At? ==> last.size <= |log|
    ensures Covered(log, init + [last], p) <==> Covered(log, init, p) || Returns(log, last, p)
  {
    var visits := init + [last];
    if i :| 0 <= i < |init| && Returns(log, init[i], p) {
      assert visits[i] == init[i];
    }
    if Returns(log, last, p) {
      assert visits[|init|] == last;
    }
  }

  /** The whole run, by induction over the polls. */
  lemma {:induction false} TailPositions(log: seq<Row>, visits: seq<Visit>) returns (idx: seq<nat>)
    requires StoreOk(log) && VisitsOk(log, visits)
    ensures EmittedUpTo(log, idx, LastLow(log, visits), LastHigh(log, visits))
    ensures Tail(Answers(log, visits)) == ElementsAt(log, idx)
    ensures forall p: nat :: p in idx <==> Covered(log, visits, p)
  {
    if visits == [] {
      return [];
    }
    var init, last := visits[..|visits| - 1], visits[|visits| - 1];
    assert visits == init + [last];
    idx := TailPositions(log, init);
    TailStep(log, init, last);
    forall p: nat ensures Covered(log, visits, p) <==> Covered(log, init, p) || Returns(log, last, p) {
      CoveredNext(log, init, last, p);
    }
    if last.At? {
      WindowsAdvance(log, init, last);
      LowBelowHigh(log, last);
      idx := PollExtends(log, idx, LastLow(log, init), LastHigh(log, init), Low(log, last), High(log, last));
    }
  }

  lemma LowBelowHigh(log: seq<Row>, v: Visit)
    requires v.At? && v.size <= |log|
    ensures WindowStart(log, v) <= Low(log, v) <= High(log, v) <= |log|
    ensures High(log, v) - Low(log, v) <= LIMIT
    ensures !Truncated(log, v) ==> Low(log, v) == WindowStart(log, v)
  {
    BeforeGrows(log, v.size, v.size, v.now - WINDOW, v.now + 1);
  }

  /** Over any run of polls of any length each row is emitted at most once and rows come in
      time order, although the memory of sent keys is bounded. */
  lemma AtMostOnceInOrder(log: seq<Row>, visits: seq<Visit>)
    requires StoreOk(log) && VisitsOk(log, visits)
    ensures var out := Tail(Answers(log, visits));
            && (forall i, j :: 0 <= i < j < |out| ==> out[i].key != out[j].key && out[i].time <= out[j].time)
            && (forall i :: 0 <= i < |out| ==> out[i] in log)
  {
    var idx := TailPositions(log, visits);
    var out := ElementsAt(log, idx);
    forall i, j | 0 <= i < j < |out| ensures out[i].key != out[j].key && out[i].time <= out[j].time {
      assert idx[i] < idx[j];
    }
  }

  /** Exactly the rows that some answered poll returned are emitted. */
  lemma EmittedIff(log: seq<Row>, visits: seq<Visit>, p: nat)
    requires StoreOk(log) && VisitsOk(log, visits) && p < |log|
    ensures log[p] in Tail(Answers(log, visits)) <==> Covered(log, visits, p)
  {
    var idx := TailPositions(log, visits);
    var out := ElementsAt(log, idx);
    if log[p] in out {
      var i :| 0 <= i < |out| && out[i] == log[p];
      assert log[idx[i]].key == log[p].key;
      assert idx[i] == p;
    }
    if p in idx {
      var i :| 0 <= i < |idx| && idx[i] == p;
      assert out[i] == log[p];
    }
  }

  /** A row that was in the window of an answered poll and is never emitted: that poll was
      truncated, and the client was sent a `gap` event. */
  lemma MissedRowHasGap(log: seq<Row>, visits: seq<Visit>, n: nat, p: nat)
    requires StoreOk(log) && VisitsOk(log, visits) && n < |visits| && visits[n].At?
    requires p < visits[n].size && visits[n].now - WINDOW <= log[p].time <= visits[n].now
    requires log[p] !in Tail(Answers(log, visits))
    ensures Truncated(log, visits[n])
  {
    EmittedIff(log, visits, p);
    if !Truncated(log, visits[n]) {
      WindowPosition(log, visits[n], p);
    }
  }

  lemma WindowPosition(log: seq<Row>, v: Visit, p: nat)
    requires StoreOk(log) && v.At? && p < v.size <= |log| && !Truncated(log, v)
    requires v.now - WINDOW <= log[p].time <= v.now
    ensures Low(log, v) <= p < High(log, v)
  {
    LowBelowHigh(log, v);
    BeforeIsExact(log, v.size, v.now - WINDOW, p);
    BeforeIsExact(log, v.size, v.now + 1, p);
  }

  lemma EmittedHas(log: seq<Row>, idx: seq<nat>, lo: nat, hi: nat, p: nat)
    requires EmittedUpTo(log, idx, lo, hi) && lo <= p < hi
    ensures log[p] in ElementsAt(log, idx)
  {
    assert idx[|idx| - (hi - lo)..][p - lo] == p;
    assert ElementsAt(log, idx)[|idx| - hi + p] == log[p];
  }

  /** After a poll that was answered without truncation, every row that the store then held
      in its 30 second window has been emitted. */
  lemma UntruncatedPollIsComplete(log: seq<Row>, visits: seq<Visit>, v: Visit, p: nat)
    requires StoreOk(log) && VisitsOk(log, visits + [v])
    requires v.At? && p < v.size <= |log| && !Truncated(log, v)
    requires v.now - WINDOW <= log[p].time <= v.now
    ensures log[p] in Tail(Answers(log, visits + [v]))
  {
    var idx := TailPositions(log, visits + [v]);
    WindowPosition(log, v, p);
    EmittedHas(log, idx, Low(log, v), High(log, v), p);
  }

  /** The bounded memory does the work of an unbounded one. */
  lemma NoRowIsForgotten(log: seq<Row>, visits: seq<Visit>)
    requires StoreOk(log) && VisitsOk(log, visits)
    ensures Tail(Answers(log, visits)) == ForeverTail(Answers(log, visits))
  {
    AtMostOnceInOrder(log, visits);
    BoundedIsUnboundedIff(Answers(log, visits));
  }

  lemma {:induction false} BeforeIsExact(log: seq<Row>, n: nat, t: int, p: nat)
    requires StoreOk(log) && p < n <= |log|
    ensures p < Before(log, n, t) <==> log[p].time < t
  {
    if log[n - 1].time >= t && p < n - 1 {
      BeforeIsExact(log, n - 1, t, p);
    }
  }
}
