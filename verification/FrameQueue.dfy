/**
 The bounded frame queue of backend/internal/ingestion/queue.go, with its backing slice,
 read index and lazy compaction.
 */
module FrameQueues {
  import opened Fifo

  /** A slot of the backing slice: dequeued slots are overwritten by the zero value. */
  datatype Slot = Zero | Used(frame: Frame)

  const COMPACT_ABOVE := 1024

  ghost predicate UsedFrom(items: seq<Slot>, head: nat) {
    head <= |items| && forall k :: head <= k < |items| ==> items[k].Used?
  }

  /** The frames in the slots from `head` on. */
  ghost function LiveOf(items: seq<Slot>, head: nat): (live: seq<Frame>)
    requires UsedFrom(items, head)
    ensures |live| == |items| - head
    ensures forall i :: 0 <= i < |live| ==> live[i] == items[head + i].frame
  {
    seq(|items| - head, i requires 0 <= i < |items| - head => items[head + i].frame)
  }

  class FrameQueue {
    const limits: Limits
    var items: seq<Slot>
    var head: nat
    var bytes: int
    var closed: bool
    var changed: nat

    /** Every frame admitted and every frame handed out, and the slots copied by compaction. */
    ghost var entered: seq<Frame>
    ghost var left: seq<Frame>
    ghost var copied: nat

    ghost function Live(): seq<Frame>
      reads this`items, this`head
      requires UsedFrom(items, head)
    {
      LiveOf(items, head)
    }

    /** The plain queue this object stands for. */
    ghost function Abstract(): Queue
      reads this`items, this`head, this`closed, this`changed
      requires UsedFrom(items, head)
    {
      Queue(Live(), closed, changed)
    }

    ghost predicate Valid()
      reads this
    {
      // Between compactions the dead prefix is short or smaller than the live part.
      AlmostValid() && (head <= COMPACT_ABOVE || 2 * head < |items|)
    }

    /** What is valid but for the length of the dead prefix. */
    ghost predicate AlmostValid()
      reads this
    {
      && limits.maxEvents >= 0 && limits.maxBytes >= 0
      && UsedFrom(items, head)
      && (forall k :: 0 <= k < head ==> items[k].Zero?)
      && bytes == Bytes(Live())
      && Within(Abstract(), limits)
      // First in, first out over the whole life of the queue.
      && left + Live() == entered
      // Every copied slot is paid for by a dequeue.
      && copied + head <= |left|
    }

    /** The backing slice never outgrows the limits: a dead prefix of 1024 slots or of fewer
        slots than are live, followed by at most maxEvents live ones. */
    lemma BackingIsBounded()
      requires Valid()
      ensures |items| <= limits.maxEvents +
                         (if limits.maxEvents > COMPACT_ABOVE then limits.maxEvents else COMPACT_ABOVE)
      ensures copied <= |left|
    {
      assert |Live()| == |items| - head;
    }

    constructor (maxEvents: int, maxBytes: int)
      requires maxEvents >= 0 && maxBytes >= 0
      ensures Valid() && Abstract() == EMPTY
      ensures limits == Limits(maxEvents, maxBytes)
      ensures entered == [] && left == [] && copied == 0
    {
      limits := Limits(maxEvents, maxBytes);
      items, head, bytes, closed, changed := [], 0, 0, false, 0;
      entered, left, copied := [], [], 0;
    }

    method NotifyLocked()
      modifies this`changed
      ensures changed == old(changed) + 1
    {
      changed := changed + 1;
    }

    /** The size test and one pass through the loop body of `enqueue`. */
    method TryEnqueue(f: Frame) returns (outcome: EnqueueOutcome)
      requires Valid()
      modifies this
      ensures Valid()
      ensures (Abstract(), outcome) == Enqueue(old(Abstract()), f, limits)
      ensures entered == if outcome.Admitted? then old(entered) + [f] else old(entered)
      ensures left == old(left) && copied == old(copied)
    {
      if f.size > limits.maxBytes {
        return Oversized;
      }
      if closed {
        return RejectedClosed;
      }
      assert |Live()| == |items| - head;
      if |items| - head < limits.maxEvents && bytes + f.size <= limits.maxBytes {
        ghost var before := Live();
        items := items + [Used(f)];
        bytes := bytes + f.size;
        NotifyLocked();
        entered := entered + [f];
        assert Live() == before + [f];
        BytesAppend(before, f);
        return Admitted;
      }
      return Blocked(changed);
    }

    /** Takes the first live frame and zeroes its slot. */
    method TakeHead() returns (f: Frame)
      requires Valid() && head < |items|
      modifies this`items, this`head, this`bytes, this`left
      ensures AlmostValid()
      ensures head == old(head) + 1 && |items| == old(|items|)
      ensures [f] + Live() == old(Live()) && left == old(left) + [f]
    {
      ghost var before := Live();
      var item := items[head];
      assert before[0] == item.frame;
      items := items[head := Zero];
      head := head + 1;
      bytes := bytes - item.frame.size;
      left := left + [item.frame];
      assert Live() == before[1..];
      f := item.frame;
    }

    /** One pass through the loop body of `dequeue`. */
    method TryDequeue() returns (outcome: DequeueOutcome)
      requires Valid()
      modifies this
      ensures Valid()
      ensures (Abstract(), outcome) == Dequeue(old(Abstract()))
      ensures left == if outcome.Item? then old(left) + [outcome.frame] else old(left)
      ensures entered == old(entered)
      ensures copied <= old(copied) + old(|items|) - old(head)
    {
      assert |Live()| == |items| - head;
      if head < |items| {
        var f := TakeHead();
        if head > COMPACT_ABOVE && head * 2 >= |items| {
          Compact();
        }
        NotifyLocked();
        return Item(f);
      }
      if closed {
        return DrainedClosed;
      }
      return Idle(changed);
    }

    /** Moves the live slots to a fresh slice; nothing observable changes. */
    method Compact()
      requires UsedFrom(items, head)
      modifies this`items, this`head, this`copied
      ensures head == 0 && |items| == old(|items| - head)
      ensures UsedFrom(items, head)
      ensures Live() == old(Live())
      ensures copied == old(copied) + old(|items|) - old(head)
    {
      copied := copied + (|items| - head);
      items := items[head..];
      head := 0;
      assert Live() == old(Live());
    }

    method Shut()
      requires Valid()
      modifies this`closed, this`changed
      ensures Valid()
      ensures Abstract() == Close(old(Abstract()))
    {
      if !closed {
        closed := true;
        NotifyLocked();
      }
    }

    method UsageNow() returns (events: int, total: int)
      requires Valid()
      ensures events == |Live()| && total == Bytes(Live())
    {
      events, total := |items| - head, bytes;
    }
  }

  /** Any sequence of operations on a new queue gives, operation by operation, the answers of
      the plain queue: head index, zeroed slots and compaction cannot be observed. */
  method Replay(ops: seq<Op>, maxEvents: int, maxBytes: int) returns (outs: seq<Out>)
    requires maxEvents >= 0 && maxBytes >= 0
    ensures outs == Run(ops, Limits(maxEvents, maxBytes)).1
  {
    var q := new FrameQueue(maxEvents, maxBytes);
    outs := [];
    for i := 0 to |ops|
      invariant q.Valid() && q.limits == Limits(maxEvents, maxBytes) && fresh(q)
      invariant (q.Abstract(), outs) == Run(ops[..i], q.limits)
    {
      assert ops[..i + 1][..i] == ops[..i];
      match ops[i]
      case OpEnqueue(f) =>
        var o := q.TryEnqueue(f);
        outs := outs + [Enqueued(o)];
      case OpDequeue =>
        var o := q.TryDequeue();
        outs := outs + [Dequeued(o)];
      case OpClose =>
        q.Shut();
        outs := outs + [Closed];
      case OpUsage =>
        var e, b := q.UsageNow();
        outs := outs + [Usage(e, b)];
    }
    assert ops[..|ops|] == ops;
  }
}
