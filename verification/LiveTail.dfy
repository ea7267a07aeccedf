/**
 The live tail of backend/internal/api/server.go:314-356: overlapping polls, de-duplicated
 by a map of at most 4096 keys with first-in first-out eviction.
 */
module LiveTail {

  /** A row, with the key that `tailKey` gives it. */
  datatype Row = Row(key: string, time: int)

  /** A poll fails, or answers with rows, newest first. */
  datatype Poll = Failed | Answer(data: seq<Row>)

  const MEMORY := 4096

  /* ---------- What the loop computes ---------- */

  function Oldest(n: nat): nat { if n > MEMORY then n - MEMORY else 0 }

  /** Whether a key is among the last 4096 marked ones. */
  predicate Remembered(marks: seq<Row>, key: string) {
    exists i :: Oldest(|marks|) <= i < |marks| && marks[i].key == key
  }

  function Mark(marks: seq<Row>, row: Row): seq<Row> {
    if Remembered(marks, row.key) then marks else marks + [row]
  }

  /** Rows are taken from the end of the answer, the oldest first. */
  function MarkDown(marks: seq<Row>, data: seq<Row>): seq<Row>
    decreases |data|
  {
    if data == [] then marks else MarkDown(Mark(marks, data[|data| - 1]), data[..|data| - 1])
  }

  function Tail(polls: seq<Poll>): seq<Row> {
    if polls == [] then []
    else
      var before, last := Tail(polls[..|polls| - 1]), polls[|polls| - 1];
      if last.Failed? then before else MarkDown(before, last.data)
  }

  function Keys(rows: seq<Row>): (keys: seq<string>)
    ensures |keys| == |rows| && forall i :: 0 <= i < |keys| ==> keys[i] == rows[i].key
  {
    seq(|rows|, i requires 0 <= i < |rows| => rows[i].key)
  }

  /** Two rows with one key are more than 4096 marks apart. */
  ghost predicate Separated(marks: seq<Row>) {
    forall i, j :: 0 <= i < j < |marks| && marks[i].key == marks[j].key ==> j - i > MEMORY
  }

  lemma MarkSeparates(marks: seq<Row>, row: Row)
    requires Separated(marks)
    ensures Separated(Mark(marks, row))
  {
  }

  lemma {:induction false} MarkDownSeparates(marks: seq<Row>, data: seq<Row>)
    requires Separated(marks)
    ensures Separated(MarkDown(marks, data))
    decreases |data|
  {
    if data != [] {
      MarkSeparates(marks, data[|data| - 1]);
      MarkDownSeparates(Mark(marks, data[|data| - 1]), data[..|data| - 1]);
    }
  }

  /** Whatever the polls answer, between two emissions of one key lie at least 4096 others. */
  lemma {:induction false} TailSeparates(polls: seq<Poll>)
    ensures Separated(Tail(polls))
  {
    if polls != [] {
      TailSeparates(polls[..|polls| - 1]);
      if polls[|polls| - 1].Answer? {
        MarkDownSeparates(Tail(polls[..|polls| - 1]), polls[|polls| - 1].data);
      }
    }
  }

  /* ---------- Compared with a memory that never forgets ---------- */

  predicate Sent(marks: seq<Row>, key: string) {
    exists i :: 0 <= i < |marks| && marks[i].key == key
  }

  function Forever(marks: seq<Row>, row: Row): seq<Row> {
    if Sent(marks, row.key) then marks else marks + [row]
  }

  function ForeverDown(marks: seq<Row>, data: seq<Row>): seq<Row>
    decreases |data|
  {
    if data == [] then marks else ForeverDown(Forever(marks, data[|data| - 1]), data[..|data| - 1])
  }

  function ForeverTail(polls: seq<Poll>): seq<Row> {
    if polls == [] then []
    else
      var before, last := ForeverTail(polls[..|polls| - 1]), polls[|polls| - 1];
      if last.Failed? then before else ForeverDown(before, last.data)
  }

  ghost predicate Distinct(marks: seq<Row>) {
    forall i, j :: 0 <= i < j < |marks| ==> marks[i].key != marks[j].key
  }

  lemma {:induction false} MarkDownGrows(marks: seq<Row>, data: seq<Row>)
    ensures marks <= MarkDown(marks, data)
    decreases |data|
  {
    if data != [] { MarkDownGrows(Mark(marks, data[|data| - 1]), data[..|data| - 1]); }
  }

  lemma {:induction false} ForeverDownDistinct(marks: seq<Row>, data: seq<Row>)
    requires Distinct(marks)
    ensures Distinct(ForeverDown(marks, data))
    decreases |data|
  {
    if data != [] { ForeverDownDistinct(Forever(marks, data[|data| - 1]), data[..|data| - 1]); }
  }

  /** A key that was sent and forgotten is marked again, and is then there twice. */
  lemma ForgottenRepeats(marks: seq<Row>, row: Row)
    requires !Remembered(marks, row.key) && Sent(marks, row.key)
    ensures !Distinct(Mark(marks, row))
  {
    var i :| 0 <= i < |marks| && marks[i].key == row.key;
    var more := Mark(marks, row);
    assert more[i].key == more[|marks|].key;
  }

  /** As long as no key is repeated, both memories mark the same rows. */
  lemma {:induction false} SameDown(marks: seq<Row>, data: seq<Row>)
    requires Distinct(MarkDown(marks, data))
    ensures Distinct(marks) && MarkDown(marks, data) == ForeverDown(marks, data)
    decreases |data|
  {
    MarkDownGrows(marks, data);
    if data != [] {
      var row := data[|data| - 1];
      var more := Mark(marks, row);
      SameDown(more, data[..|data| - 1]);
      if !Remembered(marks, row.key) && Sent(marks, row.key) {
        ForgottenRepeats(marks, row);
        assert false;
      }
    }
  }

  /** The bounded memory agrees with an unbounded one exactly when no key is emitted twice. */
  lemma {:induction false} BoundedIsUnboundedIff(polls: seq<Poll>)
    ensures Distinct(Tail(polls)) <==> Tail(polls) == ForeverTail(polls)
    ensures Distinct(ForeverTail(polls))
  {
    if polls != [] {
      var init, last := polls[..|polls| - 1], polls[|polls| - 1];
      BoundedIsUnboundedIff(init);
      if last.Answer? {
        ForeverDownDistinct(ForeverTail(init), last.data);
        if Distinct(Tail(polls)) {
          SameDown(Tail(init), last.data);
        }
      }
    }
  }

  /** Rows of one answer: a key that was sent before is among the last 4096 first sendings. */
  ghost predicate RecentDown(marks: seq<Row>, data: seq<Row>)
    decreases |data|
  {
    data == [] ||
    (var row := data[|data| - 1];
     (Sent(marks, row.key) ==> Remembered(marks, row.key)) && RecentDown(Forever(marks, row), data[..|data| - 1]))
  }

  /** Whenever a key arrives again, at most 4096 keys were first sent since its own first
      sending, that one included. Only the answers and the unbounded memory are looked at. */
  ghost predicate Recent(polls: seq<Poll>) {
    polls == [] ||
    (var init, last := polls[..|polls| - 1], polls[|polls| - 1];
     Recent(init) && (last.Failed? || RecentDown(ForeverTail(init), last.data)))
  }

  lemma {:induction false} SameDownIff(marks: seq<Row>, data: seq<Row>)
    requires Distinct(marks)
    ensures MarkDown(marks, data) == ForeverDown(marks, data) <==> RecentDown(marks, data)
    decreases |data|
  {
    if data != [] {
      var row, rest := data[|data| - 1], data[..|data| - 1];
      if Sent(marks, row.key) && !Remembered(marks, row.key) {
        ForgottenRepeats(marks, row);
        MarkDownGrows(Mark(marks, row), rest);
        ForeverDownDistinct(marks, data);
        assert !Distinct(MarkDown(marks, data));
      } else {
        assert Mark(marks, row) == Forever(marks, row);
        SameDownIff(Forever(marks, row), rest);
      }
    }
  }

  /** The bounded memory agrees with an unbounded one exactly when no key comes back after
      more than 4096 first sendings. */
  lemma {:induction false} BoundedIsEnoughIff(polls: seq<Poll>)
    ensures Tail(polls) == ForeverTail(polls) <==> Recent(polls)
  {
    if polls != [] {
      var init, last := polls[..|polls| - 1], polls[|polls| - 1];
      BoundedIsEnoughIff(init);
      BoundedIsUnboundedIff(init);
      BoundedIsUnboundedIff(polls);
      if last.Answer? {
        MarkDownGrows(Tail(init), last.data);
        SameDownIff(ForeverTail(init), last.data);
      }
    }
  }

  /* ---------- The loop ---------- */

  /** `seen` and `order` agree, hold no key twice, and are the last marks. */
  ghost predicate Agree(seen: set<string>, order: seq<string>, marks: seq<Row>) {
    && order == Keys(marks[Oldest(|marks|)..])
    && seen == (set k | k in order)
    && Separated(marks)
  }

  lemma SeenIsRemembered(seen: set<string>, order: seq<string>, marks: seq<Row>, key: string)
    requires Agree(seen, order, marks)
    ensures key in seen <==> Remembered(marks, key)
  {
    var o := Oldest(|marks|);
    if key in seen {
      var i :| 0 <= i < |order| && order[i] == key;
      assert marks[o + i].key == key;
    }
    if Remembered(marks, key) {
      var i :| o <= i < |marks| && marks[i].key == key;
      assert order[i - o] == key;
    }
  }

  /** Adding a key and evicting the oldest one. */
  method Remember(seen: set<string>, order: seq<string>, row: Row, ghost marks: seq<Row>)
    returns (seen': set<string>, order': seq<string>)
    requires Agree(seen, order, marks) && row.key !in seen
    ensures Agree(seen', order', marks + [row])
    ensures |order'| <= MEMORY
  {
    SeenIsRemembered(seen, order, marks, row.key);
    ghost var o, longer := Oldest(|marks|), marks + [row];
    MarkSeparates(marks, row);
    seen', order' := seen + {row.key}, order + [row.key];
    assert order' == Keys(longer[o..]);
    if |order'| > MEMORY {
      var evicted := order'[0];
      assert Oldest(|longer|) == o + 1;
      forall i | 1 <= i < |order'| ensures order'[i] != evicted {
        assert longer[o + i].key == order'[i] && longer[o].key == evicted;
      }
      assert forall k :: k in order' <==> k == evicted || k in order'[1..];
      seen', order' := seen' - {evicted}, order'[1..];
      assert order' == Keys(longer[o + 1..]);
    } else {
      assert Oldest(|longer|) == o;
    }
  }

  /** One answered poll: the `for` loop from the last row to the first. */
  method HandlePoll(seen: set<string>, order: seq<string>, data: seq<Row>, ghost marks: seq<Row>)
    returns (seen': set<string>, order': seq<string>, emitted: seq<Row>)
    requires Agree(seen, order, marks)
    ensures marks + emitted == MarkDown(marks, data)
    ensures Agree(seen', order', marks + emitted)
  {
    seen', order', emitted := seen, order, [];
    assert marks + [] == marks;
    assert data[..|data|] == data;
    var i: nat := |data|;
    while i > 0
      invariant i <= |data|
      invariant Agree(seen', order', marks + emitted)
      invariant MarkDown(marks, data) == MarkDown(marks + emitted, data[..i])
    {
      ghost var now := marks + emitted;
      assert data[..i][..i - 1] == data[..i - 1];
      i := i - 1;
      var row := data[i];
      SeenIsRemembered(seen', order', now, row.key);
      if row.key !in seen' {
        seen', order' := Remember(seen', order', row, now);
        assert marks + (emitted + [row]) == now + [row];
        emitted := emitted + [row];
      }
    }
  }

  /** The tail over any sequence of polls emits exactly the marked rows, and never holds more
      than 4096 keys. */
  method RunTail(polls: seq<Poll>) returns (emitted: seq<Row>)
    ensures emitted == Tail(polls)
    ensures Separated(emitted)
  {
    var seen: set<string>, order: seq<string> := {}, [];
    emitted := [];
    for n := 0 to |polls|
      invariant Agree(seen, order, emitted)
      invariant emitted == Tail(polls[..n])
      invariant |order| <= MEMORY
    {
      assert polls[..n + 1][..n] == polls[..n];
      if polls[n].Answer? {
        var more;
        seen, order, more := HandlePoll(seen, order, polls[n].data, emitted);
        emitted := emitted + more;
      }
    }
    assert polls[..|polls|] == polls;
  }
}
