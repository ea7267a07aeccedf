/**
 What every reachable state of the pipeline satisfies: limits, wake-ups, the order in which
 channels are closed, batch limits, and the account of every frame.
 */
module PipelineSafety {
  import opened Fifo
  import opened Pipeline

  /* ---------- The invariant ---------- */

  ghost predicate Bounded(cfg: Config, s: State) {
    && cfg.Valid() && |s.parsing.workers| == cfg.workers
    && Within(s.queue, cfg.limits)
    && |s.parsed.entries| <= PARSED_CAPACITY
  }

  /** A worker that holds the current channel has every reason to wait. */
  ghost predicate WorkersAwake(q: Queue, workers: seq<Worker>) {
    forall w :: 0 <= w < |workers| && workers[w].Parked? ==>
      && workers[w].channel <= q.channel
      && (workers[w].channel == q.channel ==> q.live == [] && !q.closed)
  }

  /** And so has a producer. */
  ghost predicate ProducersAwake(limits: Limits, q: Queue, producers: seq<Producer>) {
    forall p :: 0 <= p < |producers| && producers[p].Waiting? ==>
      && producers[p].channel <= q.channel
      && (producers[p].channel == q.channel ==> !q.closed && !Fits(q, producers[p].frame, limits))
  }

  predicate Ending(b: Batcher) {
    b.Finished? || ((b.Appending? || b.BackingOff?) && (b.after.Return? || b.after.DrainReturn?))
  }

  /** `Stop` clears `accepting`, closes the queue, and returns after the batch worker. */
  ghost predicate StopOrder(c: Control, q: Queue, b: Batcher) {
    && (c.stop.NotCalled? <==> c.accepting)
    && (q.closed <==> !c.stop.NotCalled? && !c.stop.Refusing?)
    && (c.stop.ForcedAwait? || c.stop.ReturnedErr? ==> c.cancelled)
    && (c.stop.ReturnedNil? || c.stop.ReturnedErr? ==> b.Finished?)
    && (b.Draining? ==> c.cancelled)
  }

  /** `parsed` is closed after the last worker left; the batch worker ends after that. */
  ghost predicate CloseOrder(c: Channel, workers: seq<Worker>, t: Storing) {
    && (c.closed ==> AllExited(workers))
    && (Ending(t.batcher) ==> c.closed && c.entries == [] && t.batch == [])
  }

  /** Without cancellation a worker leaves only an empty closed queue. */
  ghost predicate LeaveOrder(cancelled: bool, q: Queue, workers: seq<Worker>) {
    !cancelled ==> forall w :: 0 <= w < |workers| && workers[w].Exited? ==> q.closed && q.live == []
  }

  ghost predicate BatchSized(cfg: Config, group: seq<Frame>) {
    && 1 <= |group| <= cfg.maxBatchEvents
    && (|group| == 1 || EntryBytes(group) <= cfg.maxBatchBytes)
  }

  /** Between two iterations the held batch is under both limits; what is handed to storage
      is not empty and, outside the cancel drain, within both limits or a single entry. */
  ghost predicate Batches(cfg: Config, t: Storing) {
    match t.batcher
    case Select => |t.batch| < cfg.maxBatchEvents && EntryBytes(t.batch) < cfg.maxBatchBytes
    case Appending(group, attempt, after) =>
      && t.batch == [] && group != [] && 1 <= attempt <= cfg.maxAttempts
      && (after.DrainReturn? || BatchSized(cfg, group))
    case BackingOff(group, attempt, after) =>
      && t.batch == [] && group != [] && 1 <= attempt < cfg.maxAttempts
      && (after.DrainReturn? || BatchSized(cfg, group))
    case _ => true
  }

  /** Counting one frame: received = inside `Submit` + rejected + admitted. */
  ghost predicate AdmissionCount(k: Intake, f: Frame) {
    k.received[f] == InProducers(k.producers, f) + k.rejected[f] + k.admitted[f]
  }

  ghost predicate WorkerCount(admitted: multiset<Frame>, live: seq<Frame>, g: Parsing, f: Frame) {
    admitted[f] == multiset(live)[f] + InWorkers(g.workers, f)
                   + g.parserDrops[f] + g.normalizationDrops[f] + multiset(g.sent)[f]
  }

  ghost predicate StorageCount(t: Storing, f: Frame) {
    multiset(t.handed)[f] == multiset(InFlight(t.batcher))[f] + t.stored[f] + t.drops[f]
  }

  ghost predicate Accounts(s: State) {
    && (forall f :: AdmissionCount(s.intake, f))
    && (forall f :: WorkerCount(s.intake.admitted, s.queue.live, s.parsing, f))
    && (forall f :: StorageCount(s.storing, f))
  }

  /** Everything the batch worker received, in order. */
  function Line(t: Storing): seq<Frame> {
    t.handed + t.batch + InHand(t.batcher)
  }

  /** Entries reach storage in the order in which the workers sent them. */
  ghost predicate BatchOrder(sent: seq<Frame>, c: Channel, t: Storing) {
    sent == Line(t) + c.entries
  }

  ghost predicate Inv(cfg: Config, s: State) {
    && Bounded(cfg, s)
    && WorkersAwake(s.queue, s.parsing.workers)
    && ProducersAwake(cfg.limits, s.queue, s.intake.producers)
    && StopOrder(s.control, s.queue, s.storing.batcher)
    && CloseOrder(s.parsed, s.parsing.workers, s.storing)
    && LeaveOrder(s.control.cancelled, s.queue, s.parsing.workers)
    && Batches(cfg, s.storing)
    && BatchOrder(s.parsing.sent, s.parsed, s.storing)
    && Accounts(s)
  }

  /* ---------- Replacing one goroutine's state ---------- */

  lemma {:induction false} ProducerUpdate(ps: seq<Producer>, i: nat, x: Producer, f: Frame)
    requires i < |ps|
    ensures InProducers(ps[i := x], f) + InProducer(ps[i], f) == InProducers(ps, f) + InProducer(x, f)
  {
    var qs := ps[i := x];
    if i == 0 {
      assert qs[1..] == ps[1..];
    } else {
      assert qs[1..] == ps[1..][i - 1 := x];
      ProducerUpdate(ps[1..], i - 1, x, f);
    }
  }

  lemma {:induction false} WorkerUpdate(ws: seq<Worker>, i: nat, x: Worker, f: Frame)
    requires i < |ws|
    ensures InWorkers(ws[i := x], f) + InWorker(ws[i], f) == InWorkers(ws, f) + InWorker(x, f)
  {
    var vs := ws[i := x];
    if i == 0 {
      assert vs[1..] == ws[1..];
    } else {
      assert vs[1..] == ws[1..][i - 1 := x];
      WorkerUpdate(ws[1..], i - 1, x, f);
    }
  }

  lemma {:induction false} NoProducerHolds(ps: seq<Producer>, f: Frame)
    requires forall p :: 0 <= p < |ps| ==> ps[p].Outside?
    ensures InProducers(ps, f) == 0
  {
    if ps != [] { NoProducerHolds(ps[1..], f); }
  }

  lemma {:induction false} NoWorkerHolds(ws: seq<Worker>, f: Frame)
    requires forall w :: 0 <= w < |ws| ==> ws[w].Ready? || ws[w].Exited?
    ensures InWorkers(ws, f) == 0
  {
    if ws != [] { NoWorkerHolds(ws[1..], f); }
  }

  /* ---------- The invariant holds at the start and is kept by every step ---------- */

  lemma InitInv(cfg: Config, s: State)
    requires Init(cfg, s)
    ensures Inv(cfg, s)
  {
    forall f
      ensures AdmissionCount(s.intake, f) && WorkerCount(s.intake.admitted, s.queue.live, s.parsing, f)
    {
      NoProducerHolds(s.intake.producers, f);
      NoWorkerHolds(s.parsing.workers, f);
    }
  }

  lemma ProducerCounts(cfg: Config, q: Queue, k: Intake, accepting: bool, p: nat, m: ProducerMove, f: Frame)
    requires p < |k.producers| && ProducerCan(q.channel, k.producers[p], m)
    requires AdmissionCount(k, f)
    ensures var (q', k') := ProducerStep(q, k, accepting, cfg.limits, p, m);
            && AdmissionCount(k', f)
            && multiset(q'.live)[f] + k.admitted[f] == multiset(q.live)[f] + k'.admitted[f]
  {
    var k' := ProducerStep(q, k, accepting, cfg.limits, p, m).1;
    var x := k'.producers[p];
    assert k'.producers == k.producers[p := x];
    ProducerUpdate(k.producers, p, x, f);
    match m
    case Arrive(_) =>
    case EnqueuePass =>
    case ProducerWake =>
    case GiveUp =>
  }

  lemma ProducerQueue(cfg: Config, q: Queue, k: Intake, accepting: bool, p: nat, m: ProducerMove)
    requires p < |k.producers| && ProducerCan(q.channel, k.producers[p], m)
    requires Within(q, cfg.limits) && ProducersAwake(cfg.limits, q, k.producers)
    ensures var (q', k') := ProducerStep(q, k, accepting, cfg.limits, p, m);
            && Within(q', cfg.limits) && ProducersAwake(cfg.limits, q', k'.producers)
            && q'.closed == q.closed
            && (q' == q || (!q.closed && q'.channel == q.channel + 1))
  {
  }

  lemma ProducerInv(cfg: Config, s: State, p: nat, m: ProducerMove)
    requires Inv(cfg, s) && Enabled(s, ByProducer(p, m))
    ensures Inv(cfg, Apply(cfg, s, ByProducer(p, m)))
  {
    var t := Apply(cfg, s, ByProducer(p, m));
    ProducerQueue(cfg, s.queue, s.intake, s.control.accepting, p, m);
    assert Accounts(t) by {
      forall f
        ensures AdmissionCount(t.intake, f) && WorkerCount(t.intake.admitted, t.queue.live, t.parsing, f)
      {
        ProducerCounts(cfg, s.queue, s.intake, s.control.accepting, p, m, f);
        assert WorkerCount(s.intake.admitted, s.queue.live, s.parsing, f);
      }
    }
  }

  lemma DequeueCounts(q: Queue, g: Parsing, admitted: multiset<Frame>, w: nat, f: Frame)
    requires w < |g.workers| && WorkerCan(q.channel, true, false, g.workers[w], DequeuePass)
    requires WorkerCount(admitted, q.live, g, f)
    ensures var x := WorkerNext(q, g.workers[w], DequeuePass);
            WorkerCount(admitted, Dequeue(q).0.live, g.(workers := g.workers[w := x]), f)
  {
    WorkerUpdate(g.workers, w, WorkerNext(q, g.workers[w], DequeuePass), f);
    if q.live != [] {
      assert q.live == [q.live[0]] + q.live[1..];
    }
  }

  lemma WorkerCounts(q: Queue, g: Parsing, admitted: multiset<Frame>, room: bool, cancelled: bool,
                     w: nat, m: WorkerMove, f: Frame)
    requires w < |g.workers| && WorkerCan(q.channel, room, cancelled, g.workers[w], m)
    requires WorkerCount(admitted, q.live, g, f)
    ensures WorkerCount(admitted, if m.DequeuePass? then Dequeue(q).0.live else q.live, WorkerStep(g, q, w, m), f)
  {
    if m.DequeuePass? {
      DequeueCounts(q, g, admitted, w, f);
    } else {
      WorkerUpdate(g.workers, w, WorkerNext(q, g.workers[w], m), f);
    }
  }

  lemma WorkerQueue(q: Queue, g: Parsing, room: bool, cancelled: bool, w: nat, m: WorkerMove)
    requires w < |g.workers| && WorkerCan(q.channel, room, cancelled, g.workers[w], m)
    requires WorkersAwake(q, g.workers) && LeaveOrder(cancelled, q, g.workers)
    ensures var q' := if m.DequeuePass? then Dequeue(q).0 else q;
            && WorkersAwake(q', WorkerStep(g, q, w, m).workers)
            && LeaveOrder(cancelled, q', WorkerStep(g, q, w, m).workers)
  {
  }

  lemma DequeueKeepsProducers(limits: Limits, q: Queue, producers: seq<Producer>)
    requires ProducersAwake(limits, q, producers)
    ensures ProducersAwake(limits, Dequeue(q).0, producers)
  {
  }

  lemma WorkerOrder(c: Channel, workers: seq<Worker>, sent: seq<Frame>, t: Storing, w: nat, x: Worker)
    requires w < |workers| && !workers[w].Exited? && CloseOrder(c, workers, t) && BatchOrder(sent, c, t)
    ensures CloseOrder(c, workers[w := x], t) && !c.closed
    ensures forall f :: CloseOrder(c.(entries := c.entries + [f]), workers[w := x], t)
    ensures forall f :: BatchOrder(sent + [f], c.(entries := c.entries + [f]), t)
  {
    assert !c.closed;
    forall f ensures BatchOrder(sent + [f], c.(entries := c.entries + [f]), t) {
      assert Line(t) + (c.entries + [f]) == (Line(t) + c.entries) + [f];
    }
  }

  lemma WorkerInv(cfg: Config, s: State, w: nat, m: WorkerMove)
    requires Inv(cfg, s) && Enabled(s, ByWorker(w, m))
    ensures Inv(cfg, Apply(cfg, s, ByWorker(w, m)))
  {
    var t := Apply(cfg, s, ByWorker(w, m));
    var room := |s.parsed.entries| < PARSED_CAPACITY;
    WorkerQueue(s.queue, s.parsing, room, s.control.cancelled, w, m);
    DequeueKeepsProducers(cfg.limits, s.queue, s.intake.producers);
    var x := WorkerNext(s.queue, s.parsing.workers[w], m);
    WorkerOrder(s.parsed, s.parsing.workers, s.parsing.sent, s.storing, w, x);
    assert Accounts(t) by {
      forall f ensures WorkerCount(t.intake.admitted, t.queue.live, t.parsing, f) {
        WorkerCounts(s.queue, s.parsing, s.intake.admitted, room, s.control.cancelled, w, m, f);
      }
    }
  }

  /* The batch worker: `flush` and its continuations keep the line and the account. */

  lemma AddKeeps(cfg: Config, t: Storing, e: Frame)
    ensures Line(Add(cfg, t, e)) == t.handed + t.batch + [e]
  {
    assert t.handed + (t.batch + [e]) == t.handed + t.batch + [e];
  }

  lemma ResumeKeeps(cfg: Config, t: Storing, after: After)
    ensures Line(Resume(cfg, t, after)) == t.handed + t.batch + if after.AddThen? then [after.entry] else []
  {
    if after.AddThen? { AddKeeps(cfg, t, after.entry); }
  }

  lemma FlushKeeps(cfg: Config, t: Storing, after: After)
    ensures Line(Flush(cfg, t, after)) == t.handed + t.batch + if after.AddThen? then [after.entry] else []
  {
    ResumeKeeps(cfg, t, after);
  }

  lemma BatcherLine(cfg: Config, c: Channel, t: Storing, cancelled: bool, m: BatcherMove)
    requires BatcherCan(c, t.batcher, cancelled, m) && Batches(cfg, t)
    ensures Line(BatcherStep(cfg, c, t, cancelled, m))
            == Line(t) + if m.Receive? || m.DrainReceive? then [c.entries[0]] else []
  {
    match m
    case Receive => FlushKeeps(cfg, t, AddThen(c.entries[0])); AddKeeps(cfg, t, c.entries[0]);
    case ReceiveClosed => FlushKeeps(cfg, t, Return);
    case Tick => FlushKeeps(cfg, t, Loop);
    case DrainClosed => FlushKeeps(cfg, t, DrainReturn);
    case AppendOk =>
      ResumeKeeps(cfg, t.(stored := t.stored + multiset(t.batcher.group)), t.batcher.after);
    case AppendError =>
      ResumeKeeps(cfg, t.(drops := t.drops + multiset(t.batcher.group)), t.batcher.after);
    case _ =>
  }

  /** Nothing in flight: every entry handed over has an outcome. */
  ghost predicate Settled(t: Storing, f: Frame) {
    multiset(t.handed)[f] == t.stored[f] + t.drops[f]
  }

  lemma FlushCounts(cfg: Config, t: Storing, after: After, f: Frame)
    requires Settled(t, f)
    ensures StorageCount(HandOver(t, after), f)
    ensures StorageCount(Resume(cfg, t, after), f)
  {
    if after.AddThen? { AddCounts(cfg, t, after.entry, f); }
  }

  lemma AddCounts(cfg: Config, t: Storing, e: Frame, f: Frame)
    requires Settled(t, f)
    ensures StorageCount(Add(cfg, t, e), f)
  {
  }

  lemma BatcherCounts(cfg: Config, c: Channel, t: Storing, cancelled: bool, m: BatcherMove, f: Frame)
    requires BatcherCan(c, t.batcher, cancelled, m) && StorageCount(t, f)
    ensures StorageCount(BatcherStep(cfg, c, t, cancelled, m), f)
  {
    match m
    case Receive => FlushCounts(cfg, t, AddThen(c.entries[0]), f); AddCounts(cfg, t, c.entries[0], f);
    case ReceiveClosed => FlushCounts(cfg, t, Return, f);
    case Tick => FlushCounts(cfg, t, Loop, f);
    case DrainClosed => FlushCounts(cfg, t, DrainReturn, f);
    case AppendOk =>
      var t' := t.(stored := t.stored + multiset(t.batcher.group));
      assert Settled(t', f);
      FlushCounts(cfg, t', t.batcher.after, f);
    case AppendError =>
      var t' := t.(drops := t.drops + multiset(t.batcher.group));
      assert Settled(t', f);
      FlushCounts(cfg, t', t.batcher.after, f);
    case _ =>
  }

  lemma AddBatches(cfg: Config, t: Storing, e: Frame)
    requires cfg.Valid() && |t.batch| < cfg.maxBatchEvents
    requires t.batch == [] || EntryBytes(t.batch) + e.entrySize <= cfg.maxBatchBytes
    ensures Batches(cfg, Add(cfg, t, e))
  {
    EntryBytesAppend(t.batch, e);
  }

  lemma ResumeBatches(cfg: Config, t: Storing, after: After)
    requires cfg.Valid() && t.batch == []
    ensures Batches(cfg, Resume(cfg, t, after))
  {
    if after.AddThen? { AddBatches(cfg, t, after.entry); }
  }

  lemma BatcherBatches(cfg: Config, c: Channel, t: Storing, cancelled: bool, m: BatcherMove)
    requires cfg.Valid() && Batches(cfg, t) && BatcherCan(c, t.batcher, cancelled, m)
    ensures Batches(cfg, BatcherStep(cfg, c, t, cancelled, m))
  {
    match m
    case Receive =>
      var entry := c.entries[0];
      if t.batch == [] || EntryBytes(t.batch) + entry.entrySize <= cfg.maxBatchBytes {
        AddBatches(cfg, t, entry);
      }
    case AppendOk => ResumeBatches(cfg, t.(stored := t.stored + multiset(t.batcher.group)), t.batcher.after);
    case AppendError => ResumeBatches(cfg, t.(drops := t.drops + multiset(t.batcher.group)), t.batcher.after);
    case _ =>
  }

  predicate Ends(after: After) { after.Return? || after.DrainReturn? }

  lemma AddDoesNotEnd(cfg: Config, t: Storing, e: Frame)
    ensures !Ending(Add(cfg, t, e).batcher)
  {
  }

  lemma ResumeEnds(cfg: Config, t: Storing, after: After)
    requires t.batch == []
    ensures Ending(Resume(cfg, t, after).batcher) <==> Ends(after)
    ensures Ends(after) ==> Resume(cfg, t, after).batch == []
  {
    if after.AddThen? { AddDoesNotEnd(cfg, t, after.entry); }
  }

  lemma FlushEnds(cfg: Config, t: Storing, after: After)
    ensures Ending(Flush(cfg, t, after).batcher) <==> Ends(after)
    ensures Ends(after) ==> Flush(cfg, t, after).batch == []
  {
    if t.batch == [] { ResumeEnds(cfg, t, after); }
  }

  lemma BatcherCloseOrder(cfg: Config, c: Channel, workers: seq<Worker>, t: Storing, cancelled: bool, m: BatcherMove)
    requires Batches(cfg, t) && CloseOrder(c, workers, t) && BatcherCan(c, t.batcher, cancelled, m)
    ensures CloseOrder(if m.Receive? || m.DrainReceive? then c.(entries := c.entries[1..]) else c, workers,
                       BatcherStep(cfg, c, t, cancelled, m))
  {
    match m
    case Receive => FlushEnds(cfg, t, AddThen(c.entries[0])); AddDoesNotEnd(cfg, t, c.entries[0]);
    case ReceiveClosed => FlushEnds(cfg, t, Return);
    case Tick => FlushEnds(cfg, t, Loop);
    case DrainClosed => FlushEnds(cfg, t, DrainReturn);
    case AppendOk => ResumeEnds(cfg, t.(stored := t.stored + multiset(t.batcher.group)), t.batcher.after);
    case AppendError => ResumeEnds(cfg, t.(drops := t.drops + multiset(t.batcher.group)), t.batcher.after);
    case _ =>
  }

  lemma BatcherStopOrder(cfg: Config, k: Control, q: Queue, c: Channel, t: Storing, m: BatcherMove)
    requires StopOrder(k, q, t.batcher) && BatcherCan(c, t.batcher, k.cancelled, m)
    ensures StopOrder(k, q, BatcherStep(cfg, c, t, k.cancelled, m).batcher)
  {
  }

  lemma BatcherOrder(cfg: Config, sent: seq<Frame>, c: Channel, t: Storing, cancelled: bool, m: BatcherMove)
    requires BatcherCan(c, t.batcher, cancelled, m) && Batches(cfg, t) && BatchOrder(sent, c, t)
    ensures BatchOrder(sent, if m.Receive? || m.DrainReceive? then c.(entries := c.entries[1..]) else c,
                       BatcherStep(cfg, c, t, cancelled, m))
  {
    BatcherLine(cfg, c, t, cancelled, m);
    if m.Receive? || m.DrainReceive? {
      assert c.entries == [c.entries[0]] + c.entries[1..];
    }
  }

  lemma BatcherInv(cfg: Config, s: State, m: BatcherMove)
    requires Inv(cfg, s) && Enabled(s, ByBatcher(m))
    ensures Inv(cfg, Apply(cfg, s, ByBatcher(m)))
  {
    var t := Apply(cfg, s, ByBatcher(m));
    BatcherBatches(cfg, s.parsed, s.storing, s.control.cancelled, m);
    BatcherCloseOrder(cfg, s.parsed, s.parsing.workers, s.storing, s.control.cancelled, m);
    BatcherStopOrder(cfg, s.control, s.queue, s.parsed, s.storing, m);
    BatcherOrder(cfg, s.parsing.sent, s.parsed, s.storing, s.control.cancelled, m);
    assert Accounts(t) by {
      forall f ensures StorageCount(t.storing, f) {
        BatcherCounts(cfg, s.parsed, s.storing, s.control.cancelled, m, f);
      }
    }
  }

  lemma StepInv(cfg: Config, s: State, step: Step)
    requires Inv(cfg, s) && Enabled(s, step)
    ensures Inv(cfg, Apply(cfg, s, step))
  {
    match step
    case ByProducer(p, m) => ProducerInv(cfg, s, p, m);
    case ByWorker(w, m) => WorkerInv(cfg, s, w, m);
    case ByBatcher(m) => BatcherInv(cfg, s, m);
    case ByStop(m) =>
    case CloseParsed =>
    case ParentCancel =>
  }

  lemma {:induction false} RunInv(cfg: Config, states: seq<State>, steps: seq<Step>, i: nat)
    requires IsRun(cfg, states, steps) && i < |states|
    ensures Inv(cfg, states[i])
  {
    if i == 0 {
      InitInv(cfg, states[0]);
    } else {
      RunInv(cfg, states, steps, i - 1);
      StepInv(cfg, states[i - 1], steps[i - 1]);
    }
  }
}
