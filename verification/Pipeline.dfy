/**
 The ingestion pipeline of backend/internal/ingestion/pipeline.go as a state machine: any
 number of producers calling `Submit`, the bounded queue with its broadcast channel, the
 parse workers, the 64-slot channel `parsed`, the batch worker with its retry loop, and
 `Stop`. A step is one atomic action of one goroutine; timers, cancellation, parse results
 and backend answers are free choices.
 */
module Pipeline {
  import opened Fifo

  /** The settings that config.go insists on before a pipeline is built. */
  datatype Config = Config(limits: Limits, workers: nat, maxBatchEvents: nat, maxBatchBytes: nat, maxAttempts: nat) {
    predicate Valid() {
      && limits.maxEvents > 0 && limits.maxBytes > 0
      && workers > 0 && maxBatchEvents > 0 && maxBatchBytes > 0 && maxAttempts > 0
    }
  }

  const PARSED_CAPACITY := 64

  /** A caller of `Submit`: outside, past the `accepting` test, or waiting on a channel. */
  datatype Producer = Outside | Trying(frame: Frame) | Waiting(frame: Frame, channel: nat)

  datatype Worker = Ready | Parked(channel: nat) | Holding(frame: Frame) | Sending(frame: Frame) | Exited

  /** What the batch worker does once `flush` has returned. */
  datatype After = Loop | AddThen(entry: Frame) | Return | DrainReturn

  datatype Batcher =
    | Select
    | Appending(group: seq<Frame>, attempt: nat, after: After)
    | BackingOff(group: seq<Frame>, attempt: nat, after: After)
    | Draining
    | Finished

  datatype StopCall = NotCalled | Refusing | AwaitDone | ForcedAwait | ReturnedNil | ReturnedErr

  /** `Submit` and its counters. */
  datatype Intake = Intake(
    producers: seq<Producer>, received: multiset<Frame>, rejected: multiset<Frame>, admitted: multiset<Frame>)

  /** The parse workers, what they dropped, and what they sent on, in order. */
  datatype Parsing = Parsing(
    workers: seq<Worker>, parserDrops: multiset<Frame>, normalizationDrops: multiset<Frame>, sent: seq<Frame>)

  datatype Channel = Channel(entries: seq<Frame>, closed: bool)

  /** The batch worker, what it handed to storage, in order, and with which outcome. */
  datatype Storing = Storing(
    batch: seq<Frame>, batcher: Batcher, handed: seq<Frame>, stored: multiset<Frame>, drops: multiset<Frame>)

  datatype Control = Control(accepting: bool, cancelled: bool, stop: StopCall)

  datatype State = State(
    queue: Queue, intake: Intake, parsing: Parsing, parsed: Channel, storing: Storing, control: Control)

  datatype ProducerMove = Arrive(f: Frame) | EnqueuePass | ProducerWake | GiveUp

  datatype WorkerMove =
    | DequeuePass | WorkerWake | WorkerCancel | ParseFail | NormalizeFail | ParseOk | Send | SendCancel

  datatype BatcherMove =
    | Receive | ReceiveClosed | Tick | BatchCancel | DrainReceive | DrainClosed
    | AppendOk | AppendError | BackoffOver

  datatype StopMove = Refuse | CloseQueue | Done | Timeout | ForcedDone

  datatype Step =
    | ByProducer(p: nat, producerMove: ProducerMove)
    | ByWorker(w: nat, workerMove: WorkerMove)
    | ByBatcher(batcherMove: BatcherMove)
    | ByStop(stopMove: StopMove)
    | CloseParsed
    | ParentCancel

  function EntryBytes(entries: seq<Frame>): nat {
    if entries == [] then 0 else EntryBytes(entries[..|entries| - 1]) + entries[|entries| - 1].entrySize
  }

  lemma EntryBytesAppend(entries: seq<Frame>, e: Frame)
    ensures EntryBytes(entries + [e]) == EntryBytes(entries) + e.entrySize
  {
    assert (entries + [e])[..|entries|] == entries;
  }

  predicate AllExited(workers: seq<Worker>) {
    forall w :: 0 <= w < |workers| ==> workers[w].Exited?
  }

  ghost predicate Init(cfg: Config, s: State) {
    && cfg.Valid()
    && s.queue == EMPTY
    && s.intake == Intake(s.intake.producers, multiset{}, multiset{}, multiset{})
    && (forall p :: 0 <= p < |s.intake.producers| ==> s.intake.producers[p].Outside?)
    && s.parsing == Parsing(s.parsing.workers, multiset{}, multiset{}, [])
    && |s.parsing.workers| == cfg.workers
    && (forall w :: 0 <= w < |s.parsing.workers| ==> s.parsing.workers[w].Ready?)
    && s.parsed == Channel([], false)
    && s.storing == Storing([], Select, [], multiset{}, multiset{})
    && s.control == Control(true, false, NotCalled)
  }

  /* ---------- Producers: Submit and the loop of enqueue ---------- */

  /** A channel with a smaller number than the queue's current one is closed. */
  predicate ProducerCan(channel: nat, pr: Producer, move: ProducerMove) {
    match move
    case Arrive(_) => pr.Outside?
    case EnqueuePass => pr.Trying?
    case ProducerWake => pr.Waiting? && pr.channel < channel
    case GiveUp => pr.Waiting?
  }

  function ProducerStep(q: Queue, k: Intake, accepting: bool, limits: Limits, p: nat, move: ProducerMove)
    : (Queue, Intake)
    requires p < |k.producers| && ProducerCan(q.channel, k.producers[p], move)
  {
    match move
    case Arrive(f) =>
      if accepting
      then (q, k.(received := k.received + multiset{f}, producers := k.producers[p := Trying(f)]))
      else (q, k.(received := k.received + multiset{f}, rejected := k.rejected + multiset{f}))
    case EnqueuePass =>
      var f := k.producers[p].frame;
      var (q', outcome) := Enqueue(q, f, limits);
      (match outcome
       case Admitted => (q', k.(producers := k.producers[p := Outside], admitted := k.admitted + multiset{f}))
       case Blocked(channel) => (q', k.(producers := k.producers[p := Waiting(f, channel)]))
       case _ => (q', k.(producers := k.producers[p := Outside], rejected := k.rejected + multiset{f})))
    case ProducerWake => (q, k.(producers := k.producers[p := Trying(k.producers[p].frame)]))
    case GiveUp =>
      (q, k.(producers := k.producers[p := Outside], rejected := k.rejected + multiset{k.producers[p].frame}))
  }

  /* ---------- Parse workers ---------- */

  predicate WorkerCan(channel: nat, room: bool, cancelled: bool, wk: Worker, move: WorkerMove) {
    match move
    case DequeuePass => wk.Ready?
    case WorkerWake => wk.Parked? && wk.channel < channel
    case WorkerCancel => wk.Parked? && cancelled
    case ParseFail => wk.Holding?
    case NormalizeFail => wk.Holding?
    case ParseOk => wk.Holding?
    case Send => wk.Sending? && room
    case SendCancel => wk.Sending? && cancelled
  }

  /** The worker's next state. */
  function WorkerNext(q: Queue, wk: Worker, move: WorkerMove): Worker
    requires exists room, cancelled :: WorkerCan(q.channel, room, cancelled, wk, move)
  {
    match move
    case DequeuePass =>
      (match Dequeue(q).1
       case Item(f) => Holding(f)
       case DrainedClosed => Exited
       case Idle(channel) => Parked(channel))
    case WorkerWake => Ready
    case WorkerCancel => Exited
    case ParseFail => Ready
    case NormalizeFail => Ready
    case ParseOk => Sending(wk.frame)
    case Send => Ready
    case SendCancel => Exited
  }

  function WorkerStep(g: Parsing, q: Queue, w: nat, move: WorkerMove): Parsing
    requires w < |g.workers|
    requires exists room, cancelled :: WorkerCan(q.channel, room, cancelled, g.workers[w], move)
  {
    var wk := g.workers[w];
    var g' := g.(workers := g.workers[w := WorkerNext(q, wk, move)]);
    match move
    case ParseFail => g'.(parserDrops := g.parserDrops + multiset{wk.frame})
    case NormalizeFail => g'.(normalizationDrops := g.normalizationDrops + multiset{wk.frame})
    case SendCancel => g'.(normalizationDrops := g.normalizationDrops + multiset{wk.frame})
    case Send => g'.(sent := g.sent + [wk.frame])
    case _ => g'
  }

  /* ---------- The batch worker ---------- */

  predicate BatcherCan(c: Channel, b: Batcher, cancelled: bool, move: BatcherMove) {
    match move
    case Receive => b.Select? && c.entries != []
    case ReceiveClosed => b.Select? && c.entries == [] && c.closed
    case Tick => b.Select?
    case BatchCancel => b.Select? && cancelled
    case DrainReceive => b.Draining? && c.entries != []
    case DrainClosed => b.Draining? && c.entries == [] && c.closed
    case AppendOk => b.Appending?
    case AppendError => b.Appending?
    case BackoffOver => b.BackingOff?
  }

  /** Hands the batch to `appendWithRetry`. */
  function HandOver(t: Storing, after: After): Storing {
    t.(batcher := Appending(t.batch, 1, after), handed := t.handed + t.batch, batch := [])
  }

  /** Appends a received entry to the batch and flushes when a limit is reached. */
  function Add(cfg: Config, t: Storing, entry: Frame): Storing {
    var batch := t.batch + [entry];
    if |batch| >= cfg.maxBatchEvents || EntryBytes(batch) >= cfg.maxBatchBytes
    then HandOver(t.(batch := batch), Loop)
    else t.(batcher := Select, batch := batch)
  }

  function Resume(cfg: Config, t: Storing, after: After): Storing {
    match after
    case Loop => t.(batcher := Select)
    case AddThen(entry) => Add(cfg, t, entry)
    case Return => t.(batcher := Finished)
    case DrainReturn => t.(batcher := Finished)
  }

  /** `flush`: an empty batch is not handed over. */
  function Flush(cfg: Config, t: Storing, after: After): Storing {
    if t.batch == [] then Resume(cfg, t, after) else HandOver(t, after)
  }

  function BatcherStep(cfg: Config, c: Channel, t: Storing, cancelled: bool, move: BatcherMove): Storing
    requires BatcherCan(c, t.batcher, cancelled, move)
  {
    match move
    case Receive =>
      var entry := c.entries[0];
      if t.batch != [] && (|t.batch| >= cfg.maxBatchEvents ||
                           EntryBytes(t.batch) + entry.entrySize > cfg.maxBatchBytes)
      then Flush(cfg, t, AddThen(entry))
      else Add(cfg, t, entry)
    case ReceiveClosed => Flush(cfg, t, Return)
    case Tick => Flush(cfg, t, Loop)
    case BatchCancel => t.(batcher := Draining)
    case DrainReceive => t.(batch := t.batch + [c.entries[0]])
    case DrainClosed => Flush(cfg, t, DrainReturn)
    case AppendOk => Resume(cfg, t.(stored := t.stored + multiset(t.batcher.group)), t.batcher.after)
    case AppendError =>
      if t.batcher.attempt == cfg.maxAttempts || cancelled
      then Resume(cfg, t.(drops := t.drops + multiset(t.batcher.group)), t.batcher.after)
      else t.(batcher := BackingOff(t.batcher.group, t.batcher.attempt, t.batcher.after))
    case BackoffOver => t.(batcher := Appending(t.batcher.group, t.batcher.attempt + 1, t.batcher.after))
  }

  /* ---------- Stop ---------- */

  predicate StopCan(b: Batcher, c: StopCall, move: StopMove) {
    match move
    case Refuse => c.NotCalled?
    case CloseQueue => c.Refusing?
    case Done => c.AwaitDone? && b.Finished?
    case Timeout => c.AwaitDone?
    case ForcedDone => c.ForcedAwait? && b.Finished?
  }

  function StopStep(c: Control, move: StopMove): Control {
    match move
    case Refuse => c.(accepting := false, stop := Refusing)
    case CloseQueue => c.(stop := AwaitDone)
    case Done => c.(stop := ReturnedNil)
    case Timeout => c.(cancelled := true, stop := ForcedAwait)
    case ForcedDone => c.(stop := ReturnedErr)
  }

  /* ---------- The whole pipeline ---------- */

  predicate Enabled(s: State, step: Step) {
    match step
    case ByProducer(p, m) =>
      p < |s.intake.producers| && ProducerCan(s.queue.channel, s.intake.producers[p], m)
    case ByWorker(w, m) =>
      && w < |s.parsing.workers|
      && WorkerCan(s.queue.channel, |s.parsed.entries| < PARSED_CAPACITY, s.control.cancelled, s.parsing.workers[w], m)
    case ByBatcher(m) => BatcherCan(s.parsed, s.storing.batcher, s.control.cancelled, m)
    case ByStop(m) => StopCan(s.storing.batcher, s.control.stop, m)
    case CloseParsed => AllExited(s.parsing.workers) && !s.parsed.closed
    case ParentCancel => !s.control.cancelled
  }

  function Apply(cfg: Config, s: State, step: Step): State
    requires Enabled(s, step)
  {
    match step
    case ByProducer(p, m) =>
      var (q, k) := ProducerStep(s.queue, s.intake, s.control.accepting, cfg.limits, p, m);
      s.(queue := q, intake := k)
    case ByWorker(w, m) =>
      s.(queue := if m.DequeuePass? then Dequeue(s.queue).0 else s.queue,
         parsing := WorkerStep(s.parsing, s.queue, w, m),
         parsed := if m.Send? then s.parsed.(entries := s.parsed.entries + [s.parsing.workers[w].frame]) else s.parsed)
    case ByBatcher(m) =>
      s.(storing := BatcherStep(cfg, s.parsed, s.storing, s.control.cancelled, m),
         parsed := if m.Receive? || m.DrainReceive? then s.parsed.(entries := s.parsed.entries[1..]) else s.parsed)
    case ByStop(m) =>
      s.(control := StopStep(s.control, m), queue := if m.CloseQueue? then Close(s.queue) else s.queue)
    case CloseParsed => s.(parsed := s.parsed.(closed := true))
    case ParentCancel => s.(control := s.control.(cancelled := true))
  }

  /** A run: a first state and the states that the steps lead through. */
  ghost predicate IsRun(cfg: Config, states: seq<State>, steps: seq<Step>) {
    && |states| == |steps| + 1
    && Init(cfg, states[0])
    && forall i :: 0 <= i < |steps| ==>
         Enabled(states[i], steps[i]) && states[i + 1] == Apply(cfg, states[i], steps[i])
  }

  /* ---------- What the stages hold ---------- */

  /** How often a frame is inside `Submit`. */
  function InProducer(p: Producer, f: Frame): nat {
    if !p.Outside? && p.frame == f then 1 else 0
  }

  /** How often a frame is in the hands of the worker. */
  function InWorker(w: Worker, f: Frame): nat {
    if (w.Holding? || w.Sending?) && w.frame == f then 1 else 0
  }

  function InProducers(producers: seq<Producer>, f: Frame): nat {
    if producers == [] then 0 else InProducer(producers[0], f) + InProducers(producers[1..], f)
  }

  function InWorkers(workers: seq<Worker>, f: Frame): nat {
    if workers == [] then 0 else InWorker(workers[0], f) + InWorkers(workers[1..], f)
  }

  /** The entry the batch worker has received but not yet put in a batch. */
  function InHand(b: Batcher): seq<Frame> {
    if (b.Appending? || b.BackingOff?) && b.after.AddThen? then [b.after.entry] else []
  }

  function InFlight(b: Batcher): seq<Frame> {
    if b.Appending? || b.BackingOff? then b.group else []
  }

  function Dropped(s: State): multiset<Frame> {
    s.parsing.parserDrops + s.parsing.normalizationDrops + s.storing.drops
  }
}
