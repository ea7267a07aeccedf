/**
 The plain first-in first-out queue that `frameQueue` stands for, bounded by a number of
 frames and a number of bytes. The class in FrameQueue.dfy is proved against it, and the
 pipeline state machine in Pipeline.dfy uses it as its queue.
 */
module Fifo {
  import opened Sequences

  /** A received frame: an identity, its payload length, and the size that its log entry
      counts for in a batch once it is parsed (a function of the payload). */
  datatype Frame = Frame(id: nat, size: nat, entrySize: nat)

  datatype Limits = Limits(maxEvents: int, maxBytes: int)

  /** `channel` numbers the broadcast channel that waiters hold: every smaller number is closed. */
  datatype Queue = Queue(live: seq<Frame>, closed: bool, channel: nat)

  datatype EnqueueOutcome = Admitted | Oversized | RejectedClosed | Blocked(channel: nat)

  datatype DequeueOutcome = Item(frame: Frame) | DrainedClosed | Idle(channel: nat)

  function Bytes(frames: seq<Frame>): nat {
    if frames == [] then 0 else frames[0].size + Bytes(frames[1..])
  }

  lemma {:induction false} BytesAppend(frames: seq<Frame>, f: Frame)
    ensures Bytes(frames + [f]) == Bytes(frames) + f.size
  {
    if frames == [] {
      assert frames + [f] == [f];
    } else {
      assert (frames + [f])[1..] == frames[1..] + [f];
      BytesAppend(frames[1..], f);
    }
  }

  predicate Fits(q: Queue, f: Frame, limits: Limits) {
    |q.live| < limits.maxEvents && Bytes(q.live) + f.size <= limits.maxBytes
  }

  predicate Within(q: Queue, limits: Limits) {
    |q.live| <= limits.maxEvents && Bytes(q.live) <= limits.maxBytes
  }

  /** One pass through the critical section of `enqueue`, preceded by its size test. */
  function Enqueue(q: Queue, f: Frame, limits: Limits): (r: (Queue, EnqueueOutcome))
    ensures Within(q, limits) ==> Within(r.0, limits)
  {
    if f.size > limits.maxBytes then (q, Oversized)
    else if q.closed then (q, RejectedClosed)
    else if Fits(q, f, limits) then
      BytesAppend(q.live, f);
      (q.(live := q.live + [f], channel := q.channel + 1), Admitted)
    else (q, Blocked(q.channel))
  }

  /** One pass through the critical section of `dequeue`. */
  function Dequeue(q: Queue): (r: (Queue, DequeueOutcome))
    ensures |r.0.live| <= |q.live| && Bytes(r.0.live) <= Bytes(q.live)
  {
    if q.live != [] then
      (q.(live := q.live[1..], channel := q.channel + 1), Item(q.live[0]))
    else if q.closed then (q, DrainedClosed)
    else (q, Idle(q.channel))
  }

  function Close(q: Queue): Queue {
    if q.closed then q else q.(closed := true, channel := q.channel + 1)
  }

  /** There is room for one more frame: one more event and its bytes stay within the limits. */
  predicate HasRoom(live: seq<Frame>, f: Frame, limits: Limits) {
    |live + [f]| <= limits.maxEvents && Bytes(live + [f]) <= limits.maxBytes
  }

  /** Each answer of `enqueue`, with its exact condition: a frame that has room in an open queue is
      admitted behind the others, one larger than the whole queue is refused at once, and only a
      frame without room in an open queue waits. */
  lemma EnqueueAnswers(q: Queue, f: Frame, limits: Limits)
    ensures var (q', answer) := Enqueue(q, f, limits);
            && (answer == Oversized <==> f.size > limits.maxBytes)
            && (answer == RejectedClosed <==> f.size <= limits.maxBytes && q.closed)
            && (answer == Admitted <==> !q.closed && HasRoom(q.live, f, limits))
            && (answer == Blocked(q.channel) <==>
                  f.size <= limits.maxBytes && !q.closed && !HasRoom(q.live, f, limits))
            && q' == if answer == Admitted then Queue(q.live + [f], false, q.channel + 1) else q
  {
    BytesAppend(q.live, f);
  }

  /** Each answer of `dequeue`, with its exact condition. */
  lemma DequeueAnswers(q: Queue)
    ensures var (q', answer) := Dequeue(q);
            && (answer.Item? <==> |q.live| > 0)
            && (answer.Item? ==> q.live == [answer.frame] + q'.live && q'.channel == q.channel + 1)
            && (answer == DrainedClosed <==> |q.live| == 0 && q.closed)
            && (answer == Idle(q.channel) <==> |q.live| == 0 && !q.closed)
            && q'.closed == q.closed && (!answer.Item? ==> q' == q)
  {
  }

  /* ---------- Whole runs of operations ---------- */

  datatype Op = OpEnqueue(frame: Frame) | OpDequeue | OpClose | OpUsage

  datatype Out =
    | Enqueued(outcome: EnqueueOutcome)
    | Dequeued(result: DequeueOutcome)
    | Closed
    | Usage(events: int, bytes: int)

  const EMPTY := Queue([], false, 0)

  function Perform(q: Queue, op: Op, limits: Limits): (Queue, Out) {
    match op
    case OpEnqueue(f) => var (q', o) := Enqueue(q, f, limits); (q', Enqueued(o))
    case OpDequeue => var (q', o) := Dequeue(q); (q', Dequeued(o))
    case OpClose => (Close(q), Closed)
    case OpUsage => (q, Usage(|q.live|, Bytes(q.live)))
  }

  /** The queue and the answers after the first operations of a run. */
  function Run(ops: seq<Op>, limits: Limits): (r: (Queue, seq<Out>))
    ensures |r.1| == |ops|
  {
    if ops == [] then (EMPTY, [])
    else
      var before := Run(ops[..|ops| - 1], limits);
      var (q, out) := Perform(before.0, ops[|ops| - 1], limits);
      (q, before.1 + [out])
  }

  function EnteredBy(op: Op, out: Out): seq<Frame> {
    if op.OpEnqueue? && out == Enqueued(Admitted) then [op.frame] else []
  }

  function LeftBy(out: Out): seq<Frame> {
    if out.Dequeued? && out.result.Item? then [out.result.frame] else []
  }

  /** The frames that a run admitted, in order. */
  function Entered(ops: seq<Op>, outs: seq<Out>): seq<Frame>
    requires |ops| == |outs|
  {
    if ops == [] then []
    else
      var n := |ops| - 1;
      Entered(ops[..n], outs[..n]) + EnteredBy(ops[n], outs[n])
  }

  /** The frames that a run handed out, in order. */
  function Left(outs: seq<Out>): seq<Frame> {
    if outs == [] then []
    else
      var n := |outs| - 1;
      Left(outs[..n]) + LeftBy(outs[n])
  }

  lemma PerformIsFifo(q: Queue, op: Op, limits: Limits)
    requires Within(q, limits)
    ensures var (q', out) := Perform(q, op, limits);
            LeftBy(out) + q'.live == q.live + EnteredBy(op, out) && Within(q', limits)
  {
  }

  /** Over every run: what left, followed by what is still inside, is exactly what entered,
      in the same order, and both limits hold. */
  lemma {:induction false} RunIsFifo(ops: seq<Op>, limits: Limits)
    requires limits.maxEvents >= 0 && limits.maxBytes >= 0
    ensures var (q, outs) := Run(ops, limits);
            && Left(outs) + q.live == Entered(ops, outs)
            && Within(q, limits)
  {
    if ops != [] {
      var n := |ops| - 1;
      RunIsFifo(ops[..n], limits);
      RunNext(ops, limits);
      var (p, pouts) := Run(ops[..n], limits);
      var (q, outs) := Run(ops, limits);
      PerformIsFifo(p, ops[n], limits);
      Regroup(Left(pouts), LeftBy(outs[n]), q.live);
      Regroup(Left(pouts), p.live, EnteredBy(ops[n], outs[n]));
    }
  }

  /** A closed queue stays closed over every continuation of a run. */
  lemma {:induction false} ClosedStays(ops: seq<Op>, n: nat, limits: Limits)
    requires n <= |ops| && Run(ops[..n], limits).0.closed
    ensures Run(ops, limits).0.closed
    decreases |ops|
  {
    if n < |ops| {
      var m := |ops| - 1;
      assert ops[..m][..n] == ops[..n];
      ClosedStays(ops[..m], n, limits);
    } else {
      assert ops[..n] == ops;
    }
  }

  lemma RunNext(ops: seq<Op>, limits: Limits)
    requires ops != []
    ensures var m := |ops| - 1;
            var before, after := Run(ops[..m], limits), Run(ops, limits);
            after.1[..m] == before.1 && (after.0, after.1[m]) == Perform(before.0, ops[m], limits)
  {
  }

  lemma EnteredNext(ops: seq<Op>, limits: Limits)
    requires ops != []
    ensures var init, op := ops[..|ops| - 1], ops[|ops| - 1];
            Entered(ops, Run(ops, limits).1) ==
            Entered(init, Run(init, limits).1) + EnteredBy(op, Perform(Run(init, limits).0, op, limits).1)
  {
    RunNext(ops, limits);
  }

  lemma ClosedAdmitsNothing(q: Queue, op: Op, limits: Limits)
    requires q.closed
    ensures EnteredBy(op, Perform(q, op, limits).1) == []
  {
  }

  /** The frames that a run admits on a new queue. */
  function EnteredIn(ops: seq<Op>, limits: Limits): seq<Frame> { Entered(ops, Run(ops, limits).1) }

  lemma NothingEntersClosed(ops: seq<Op>, limits: Limits)
    requires ops != [] && Run(ops[..|ops| - 1], limits).0.closed
    ensures EnteredIn(ops, limits) == EnteredIn(ops[..|ops| - 1], limits)
  {
    var m := |ops| - 1;
    EnteredNext(ops, limits);
    ClosedAdmitsNothing(Run(ops[..m], limits).0, ops[m], limits);
  }

  /** After `close` nothing enters. */
  lemma {:induction false} NothingEntersAfterClose(ops: seq<Op>, n: nat, limits: Limits)
    requires n <= |ops| && Run(ops[..n], limits).0.closed
    ensures EnteredIn(ops, limits) == EnteredIn(ops[..n], limits)
    decreases |ops|
  {
    if n < |ops| {
      var init := ops[..|ops| - 1];
      assert init[..n] == ops[..n];
      ClosedStays(init, n, limits);
      NothingEntersAfterClose(init, n, limits);
      NothingEntersClosed(ops, limits);
    } else {
      assert ops[..n] == ops;
    }
  }

  /** Once closed, `dequeue` reports so exactly when every frame that ever entered was
      handed out: no frame is withheld and none is lost. */
  lemma ClosedQueueDrains(ops: seq<Op>, limits: Limits)
    requires limits.maxEvents >= 0 && limits.maxBytes >= 0
    requires Run(ops, limits).0.closed
    ensures Dequeue(Run(ops, limits).0).1 == DrainedClosed
            <==> Left(Run(ops, limits).1) == Entered(ops, Run(ops, limits).1)
  {
    RunIsFifo(ops, limits);
    var (q, outs) := Run(ops, limits);
    assert |Left(outs)| + |q.live| == |Entered(ops, outs)|;
  }
}
