/**
 The one batch of the cancel drain: no bound while the queue is open, and a bound for what
 is inside once the queue is closed.
 */
module DrainBatch {
  import opened Fifo
  import opened Pipeline
  import opened PipelineSafety
  import opened PipelineDrain
  import opened PipelineStop

  /* ---------- No bound while the queue is open ---------- */

  /** Nobody has called `Stop`, the queue is empty, and every worker is at its start. */
  ghost predicate Open(cfg: Config, s: State) {
    && s.control.accepting && s.control.stop.NotCalled?
    && s.queue.live == [] && !s.queue.closed
    && |s.intake.producers| == 1 && s.intake.producers[0].Outside?
    && s.parsing.workers == Mixed(0, cfg.workers, Exited, Ready)
    && !s.parsed.closed
  }

  /** The context is cancelled and the batch worker drains, while everything else goes on. */
  ghost predicate DrainsOpen(cfg: Config, s: State) {
    Open(cfg, s) && s.control.cancelled && s.parsed.entries == [] && s.storing.batcher.Draining?
  }

  /** A frame enters the open, empty queue. */
  lemma FrameEnters(cfg: Config, s: State, f: Frame) returns (s1: State, s2: State)
    requires cfg.Valid() && f.size <= cfg.limits.maxBytes && Open(cfg, s)
    ensures Enabled(s, ByProducer(0, Arrive(f))) && s1 == Apply(cfg, s, ByProducer(0, Arrive(f)))
    ensures Enabled(s1, ByProducer(0, EnqueuePass)) && s2 == Apply(cfg, s1, ByProducer(0, EnqueuePass))
    ensures s2 == s.(queue := s2.queue, intake := s2.intake)
    ensures s2.queue.live == [f] && !s2.queue.closed && s2.intake.producers == [Outside]
  {
    s1 := Apply(cfg, s, ByProducer(0, Arrive(f)));
    s2 := Apply(cfg, s1, ByProducer(0, EnqueuePass));
    assert s2.queue.live == [f];
  }

  /** A worker takes it, parses it and sends it on. */
  lemma FrameIsSent(cfg: Config, s: State, f: Frame) returns (s1: State, s2: State, s3: State)
    requires cfg.Valid() && s.queue.live == [f] && |s.parsed.entries| < PARSED_CAPACITY
    requires s.parsing.workers == Mixed(0, cfg.workers, Exited, Ready)
    ensures Enabled(s, ByWorker(0, DequeuePass)) && s1 == Apply(cfg, s, ByWorker(0, DequeuePass))
    ensures Enabled(s1, ByWorker(0, ParseOk)) && s2 == Apply(cfg, s1, ByWorker(0, ParseOk))
    ensures Enabled(s2, ByWorker(0, Send)) && s3 == Apply(cfg, s2, ByWorker(0, Send))
    ensures s3 == s.(queue := s3.queue, parsing := s3.parsing,
                     parsed := s.parsed.(entries := s.parsed.entries + [f]))
    ensures s3.queue.live == [] && s3.queue.closed == s.queue.closed && s3.parsing.workers == s.parsing.workers
  {
    s1 := Apply(cfg, s, ByWorker(0, DequeuePass));
    assert s1.parsing.workers[0] == Holding(f) && s1.queue.live == [];
    s2 := Apply(cfg, s1, ByWorker(0, ParseOk));
    s3 := Apply(cfg, s2, ByWorker(0, Send));
    assert s3.parsing.workers == s.parsing.workers;
  }

  /** One more frame goes all the way into the channel. */
  lemma OneMore(cfg: Config, s: State, f: Frame) returns (states: seq<State>, steps: seq<Step>)
    requires cfg.Valid() && f.size <= cfg.limits.maxBytes && Open(cfg, s) && |s.parsed.entries| < PARSED_CAPACITY
    ensures IsPath(cfg, states, steps) && states[0] == s && ParentAlive(steps)
    ensures var t := states[|steps|];
            && Open(cfg, t) && t.control == s.control && t.storing == s.storing
            && t.parsed.entries == s.parsed.entries + [f]
  {
    var s1, s2 := FrameEnters(cfg, s, f);
    var s3, s4, s5 := FrameIsSent(cfg, s2, f);
    states := [s, s1, s2, s3, s4, s5];
    steps := [ByProducer(0, Arrive(f)), ByProducer(0, EnqueuePass), ByWorker(0, DequeuePass), ByWorker(0, ParseOk),
              ByWorker(0, Send)];
  }

  /** A run, one frame longer. */
  lemma RunWithOneMore(cfg: Config, states: seq<State>, steps: seq<Step>, f: Frame)
    returns (states': seq<State>, steps': seq<Step>)
    requires IsRun(cfg, states, steps) && f.size <= cfg.limits.maxBytes
    requires Open(cfg, states[|steps|]) && |states[|steps|].parsed.entries| < PARSED_CAPACITY
    ensures IsRun(cfg, states', steps') && (ParentAlive(steps) ==> ParentAlive(steps'))
    ensures var s, t := states[|steps|], states'[|steps'|];
            && Open(cfg, t) && t.control == s.control && t.storing == s.storing
            && t.parsed.entries == s.parsed.entries + [f]
  {
    var more, next := OneMore(cfg, states[|steps|], f);
    RunThenPath(cfg, states, steps, more, next);
    states', steps' := states + more[1..], steps + next;
  }

  /** A run, one step longer. */
  lemma RunWithStep(cfg: Config, states: seq<State>, steps: seq<Step>, step: Step)
    returns (states': seq<State>, steps': seq<Step>)
    requires IsRun(cfg, states, steps) && Enabled(states[|steps|], step)
    ensures IsRun(cfg, states', steps') && states'[|steps'|] == Apply(cfg, states[|steps|], step)
    ensures ParentAlive(steps) && !step.ParentCancel? ==> ParentAlive(steps')
  {
    RunExtend(cfg, states, steps, step, Apply(cfg, states[|steps|], step));
    states', steps' := states + [Apply(cfg, states[|steps|], step)], steps + [step];
  }

  function Copies(f: Frame, n: nat): (s: seq<Frame>)
    ensures |s| == n
  {
    seq(n, _ => f)
  }

  lemma {:induction false} RunToDraining(cfg: Config, f: Frame, n: nat) returns (states: seq<State>, steps: seq<Step>)
    requires cfg.Valid() && f.size <= cfg.limits.maxBytes
    ensures IsRun(cfg, states, steps)
    ensures DrainsOpen(cfg, states[|steps|]) && states[|steps|].storing.batch == Copies(f, n)
  {
    if n == 0 {
      states, steps := RunToParked(cfg, 0);
      states, steps := RunWithStep(cfg, states, steps, ParentCancel);
      states, steps := RunWithStep(cfg, states, steps, ByBatcher(BatchCancel));
      assert states[|steps|].parsing.workers == Mixed(0, cfg.workers, Exited, Ready);
    } else {
      states, steps := RunToDraining(cfg, f, n - 1);
      states, steps := RunWithOneMore(cfg, states, steps, f);
      assert states[|steps|].parsed.entries == [f];
      states, steps := RunWithStep(cfg, states, steps, ByBatcher(DrainReceive));
      assert Copies(f, n - 1) + [f] == Copies(f, n);
    }
  }

  /** On a closed and empty queue every ready worker leaves. */
  lemma {:induction false} WorkersLeave(cfg: Config, s: State, k: nat) returns (states: seq<State>, steps: seq<Step>)
    requires s.queue.live == [] && s.queue.closed && k <= cfg.workers
    requires s.parsing.workers == Mixed(0, cfg.workers, Exited, Ready)
    ensures IsPath(cfg, states, steps) && states[0] == s && ParentAlive(steps)
    ensures states[|steps|] ==
            s.(parsing := s.parsing.(workers := Mixed(k, cfg.workers, Exited, Ready)))
  {
    if k == 0 {
      return [s], [];
    }
    states, steps := WorkersLeave(cfg, s, k - 1);
    var step := ByWorker(k - 1, DequeuePass);
    var t := s.(parsing := s.parsing.(workers := Mixed(k, cfg.workers, Exited, Ready)));
    assert t.parsing.workers == states[|steps|].parsing.workers[k - 1 := Exited];
    PathExtend(cfg, states, steps, step, t);
    states, steps := states + [t], steps + [step];
  }

  /** For every configuration and every number a run hands a batch of that many entries to
      storage: the cancel drain knows no limit. */
  lemma DrainBatchIsUnlimited(cfg: Config, f: Frame, n: nat) returns (states: seq<State>, steps: seq<Step>)
    requires cfg.Valid() && f.size <= cfg.limits.maxBytes && n > 0
    ensures IsRun(cfg, states, steps)
    ensures states[|steps|].storing.batcher == Appending(Copies(f, n), 1, DrainReturn)
  {
    states, steps := RunToDraining(cfg, f, n);
    states, steps := RunWithStep(cfg, states, steps, ByStop(Refuse));
    states, steps := RunWithStep(cfg, states, steps, ByStop(CloseQueue));
    states, steps := RunToDrainClosed(cfg, states, steps);
  }

  /** The workers leave, the channel is closed, and the batch is handed over. */
  lemma RunToDrainClosed(cfg: Config, states: seq<State>, steps: seq<Step>)
    returns (states': seq<State>, steps': seq<Step>)
    requires IsRun(cfg, states, steps)
    requires var s := states[|steps|];
             && s.queue.live == [] && s.queue.closed && s.parsing.workers == Mixed(0, cfg.workers, Exited, Ready)
             && s.parsed == Channel([], false) && s.storing.batcher.Draining? && s.storing.batch != []
    ensures IsRun(cfg, states', steps') && (ParentAlive(steps) ==> ParentAlive(steps'))
    ensures states'[|steps'|].storing.batcher == Appending(states[|steps|].storing.batch, 1, DrainReturn)
  {
    var more, next := WorkersLeave(cfg, states[|steps|], cfg.workers);
    RunThenPath(cfg, states, steps, more, next);
    states', steps' := states + more[1..], steps + next;
    states', steps' := RunWithStep(cfg, states', steps', CloseParsed);
    states', steps' := RunWithStep(cfg, states', steps', ByBatcher(DrainClosed));
  }

  /* ---------- The bound once the queue is closed ---------- */

  predicate Holds(w: Worker) { w.Holding? || w.Sending? }

  function HeldByWorkers(workers: seq<Worker>): (n: nat)
    ensures n <= |workers|
  {
    if workers == [] then 0 else (if Holds(workers[0]) then 1 else 0) + HeldByWorkers(workers[1..])
  }

  lemma {:induction false} HeldUpdate(ws: seq<Worker>, i: nat, x: Worker)
    requires i < |ws|
    ensures HeldByWorkers(ws[i := x]) + (if Holds(ws[i]) then 1 else 0)
            == HeldByWorkers(ws) + (if Holds(x) then 1 else 0)
  {
    if i == 0 {
      assert ws[i := x][1..] == ws[1..];
    } else {
      assert ws[i := x][1..] == ws[1..][i - 1 := x];
      HeldUpdate(ws[1..], i - 1, x);
    }
  }

  predicate DrainInFlight(b: Batcher) { (b.Appending? || b.BackingOff?) && b.after.DrainReturn? }

  /** What the batch worker holds that can be, or is, in the batch of a cancel drain. */
  function BatcherLoad(t: Storing): nat {
    |t.batch| + |InHand(t.batcher)| + if DrainInFlight(t.batcher) then |t.batcher.group| else 0
  }

  /** Everything that can still get there. */
  function Load(s: State): nat {
    |s.queue.live| + HeldByWorkers(s.parsing.workers) + |s.parsed.entries| + BatcherLoad(s.storing)
  }

  lemma ResumeLoad(cfg: Config, t: Storing, after: After)
    requires t.batch == []
    ensures BatcherLoad(Resume(cfg, t, after)) <= if after.AddThen? then 1 else 0
  {
  }

  lemma BatcherLoadFalls(cfg: Config, c: Channel, t: Storing, cancelled: bool, m: BatcherMove)
    requires Batches(cfg, t) && BatcherCan(c, t.batcher, cancelled, m)
    ensures BatcherLoad(BatcherStep(cfg, c, t, cancelled, m))
            <= BatcherLoad(t) + if m.Receive? || m.DrainReceive? then 1 else 0
  {
    match m
    case AppendOk => ResumeLoad(cfg, t.(stored := t.stored + multiset(t.batcher.group)), t.batcher.after);
    case AppendError => ResumeLoad(cfg, t.(drops := t.drops + multiset(t.batcher.group)), t.batcher.after);
    case _ =>
  }

  /** Nothing enters a closed queue, so no step adds to the load. */
  lemma LoadFalls(cfg: Config, s: State, step: Step)
    requires Inv(cfg, s) && s.queue.closed && Enabled(s, step)
    ensures Apply(cfg, s, step).queue.closed && Load(Apply(cfg, s, step)) <= Load(s)
  {
    match step
    case ByWorker(w, m) =>
      var x := WorkerNext(s.queue, s.parsing.workers[w], m);
      assert Apply(cfg, s, step).parsing.workers == s.parsing.workers[w := x];
      HeldUpdate(s.parsing.workers, w, x);
    case ByBatcher(m) => BatcherLoadFalls(cfg, s.parsed, s.storing, s.control.cancelled, m);
    case _ =>
  }

  lemma {:induction false} PathLoad(cfg: Config, states: seq<State>, steps: seq<Step>)
    requires IsPath(cfg, states, steps) && Inv(cfg, states[0]) && states[0].queue.closed
    ensures Load(states[|steps|]) <= Load(states[0])
  {
    if steps != [] {
      StepInv(cfg, states[0], steps[0]);
      LoadFalls(cfg, states[0], steps[0]);
      PathTail(cfg, states, steps);
      PathLoad(cfg, states[1..], steps[1..]);
    }
  }

  /** Once the queue is closed, the batch of a cancel drain holds at most what is inside; if the
      drain had not begun by then, that is at most the four capacities together. */
  lemma DrainBatchBound(cfg: Config, states: seq<State>, steps: seq<Step>)
    requires IsPath(cfg, states, steps) && Inv(cfg, states[0]) && states[0].queue.closed
    requires DrainInFlight(states[|steps|].storing.batcher)
    ensures var s, group := states[0], states[|steps|].storing.batcher.group;
            && |group| <= Load(s)
            && (!s.storing.batcher.Draining? && !DrainInFlight(s.storing.batcher) ==>
                  |group| <= Capacities(cfg))
  {
    PathLoad(cfg, states, steps);
  }

  /* ---------- Runs in which only Stop cancels ---------- */

  function Capacities(cfg: Config): int {
    cfg.limits.maxEvents + cfg.workers + PARSED_CAPACITY + cfg.maxBatchEvents
  }

  /** A drain has a cancelled context behind it, and what a closed queue leaves inside fits
      into the four capacities. */
  ghost predicate Tame(cfg: Config, s: State) {
    && (s.control.cancelled ==> s.control.stop.ForcedAwait? || s.control.stop.ReturnedErr?)
    && (s.storing.batcher.Draining? || DrainInFlight(s.storing.batcher) ==> s.control.cancelled)
    && (s.queue.closed ==> Load(s) <= Capacities(cfg))
  }

  lemma BatcherTame(cfg: Config, c: Channel, t: Storing, cancelled: bool, m: BatcherMove)
    requires BatcherCan(c, t.batcher, cancelled, m)
    requires t.batcher.Draining? || DrainInFlight(t.batcher) ==> cancelled
    ensures var b := BatcherStep(cfg, c, t, cancelled, m).batcher; b.Draining? || DrainInFlight(b) ==> cancelled
  {
  }

  lemma TameStays(cfg: Config, s: State, step: Step)
    requires Inv(cfg, s) && Tame(cfg, s) && Enabled(s, step) && !step.ParentCancel?
    ensures Tame(cfg, Apply(cfg, s, step))
  {
    if step.ByBatcher? {
      BatcherTame(cfg, s.parsed, s.storing, s.control.cancelled, step.batcherMove);
    }
    if s.queue.closed {
      LoadFalls(cfg, s, step);
    }
  }

  lemma {:induction false} RunIsTame(cfg: Config, states: seq<State>, steps: seq<Step>, i: nat)
    requires IsRun(cfg, states, steps) && ParentAlive(steps) && i < |states|
    ensures Tame(cfg, states[i])
  {
    if i > 0 {
      RunIsTame(cfg, states, steps, i - 1);
      RunInv(cfg, states, steps, i - 1);
      assert steps[i - 1] in steps;
      TameStays(cfg, states[i - 1], steps[i - 1]);
    }
  }

  /** As long as the parent context lives, the batch of the drain is at most the four capacities
      together, in every state of every run. */
  lemma DrainBatchFitsCapacities(cfg: Config, states: seq<State>, steps: seq<Step>, i: nat)
    requires IsRun(cfg, states, steps) && ParentAlive(steps) && i < |states|
    requires DrainInFlight(states[i].storing.batcher)
    ensures |states[i].storing.batcher.group| <= Capacities(cfg)
  {
    RunIsTame(cfg, states, steps, i);
    RunInv(cfg, states, steps, i);
  }

  lemma {:induction false} CopiesGrow(f: Frame, n: nat, k: nat)
    requires n <= k
    ensures EntryBytes(Copies(f, n)) <= EntryBytes(Copies(f, k))
    ensures EntryBytes(Copies(f, n)) + f.entrySize == EntryBytes(Copies(f, n + 1))
    decreases k - n
  {
    assert Copies(f, n) + [f] == Copies(f, n + 1);
    EntryBytesAppend(Copies(f, n), f);
    if n < k { CopiesGrow(f, n + 1, k); }
  }

  /** The batch worker holds `n` entries and waits for more. */
  lemma {:induction false} RunToHeld(cfg: Config, f: Frame, n: nat) returns (states: seq<State>, steps: seq<Step>)
    requires cfg.Valid() && f.size <= cfg.limits.maxBytes && n < cfg.maxBatchEvents
    requires EntryBytes(Copies(f, cfg.maxBatchEvents - 1)) < cfg.maxBatchBytes
    ensures IsRun(cfg, states, steps) && ParentAlive(steps)
    ensures var s := states[|steps|];
            && Open(cfg, s) && !s.control.cancelled && s.parsed.entries == []
            && s.storing.batcher.Select? && s.storing.batch == Copies(f, n)
  {
    if n == 0 {
      states, steps := RunToParked(cfg, 0);
      assert states[|steps|].parsing.workers == Mixed(0, cfg.workers, Exited, Ready);
    } else {
      states, steps := RunToHeld(cfg, f, n - 1);
      states, steps := RunWithOneMore(cfg, states, steps, f);
      HeldGrows(cfg, states[|steps|], f, n);
      states, steps := RunWithStep(cfg, states, steps, ByBatcher(Receive));
    }
  }

  /** One entry joins the held batch. */
  lemma HeldGrows(cfg: Config, s: State, f: Frame, n: nat)
    requires 0 < n < cfg.maxBatchEvents && EntryBytes(Copies(f, cfg.maxBatchEvents - 1)) < cfg.maxBatchBytes
    requires s.parsed == Channel([] + [f], false) && s.storing.batcher.Select? && s.storing.batch == Copies(f, n - 1)
    ensures var t := Apply(cfg, s, ByBatcher(Receive));
            && t == s.(parsed := Channel([], false), storing := t.storing)
            && t.storing.batcher.Select? && t.storing.batch == Copies(f, n)
  {
    CopiesGrow(f, n - 1, n);
    CopiesGrow(f, n, cfg.maxBatchEvents - 1);
    assert Copies(f, n - 1) + [f] == Copies(f, n);
  }

  /** The limit is exceeded all the same: at the deadline of `Stop` the batch worker holds one
      entry less than the limit, and two are in the channel. */
  lemma DeadlineExceedsLimit(cfg: Config, f: Frame) returns (states: seq<State>, steps: seq<Step>)
    requires cfg.Valid() && f.size <= cfg.limits.maxBytes
    requires EntryBytes(Copies(f, cfg.maxBatchEvents - 1)) < cfg.maxBatchBytes
    ensures IsRun(cfg, states, steps) && ParentAlive(steps)
    ensures var b := states[|steps|].storing.batcher; DrainInFlight(b) && |b.group| == cfg.maxBatchEvents + 1
  {
    states, steps := RunToTwoMore(cfg, f);
    states, steps := RunWithStep(cfg, states, steps, ByBatcher(DrainReceive));
    states, steps := RunWithStep(cfg, states, steps, ByBatcher(DrainReceive));
    states, steps := RunToDrainClosed(cfg, states, steps);
  }

  /** The deadline has passed, one entry less than the limit is held, and two are in the channel. */
  lemma RunToTwoMore(cfg: Config, f: Frame) returns (states: seq<State>, steps: seq<Step>)
    requires cfg.Valid() && f.size <= cfg.limits.maxBytes
    requires EntryBytes(Copies(f, cfg.maxBatchEvents - 1)) < cfg.maxBatchBytes
    ensures IsRun(cfg, states, steps) && ParentAlive(steps)
    ensures var s := states[|steps|];
            && s.queue.live == [] && s.queue.closed && s.parsing.workers == Mixed(0, cfg.workers, Exited, Ready)
            && s.parsed == Channel([f, f], false) && s.storing.batcher.Draining?
            && |s.storing.batch| == cfg.maxBatchEvents - 1
  {
    states, steps := RunToHeld(cfg, f, cfg.maxBatchEvents - 1);
    states, steps := RunWithOneMore(cfg, states, steps, f);
    states, steps := RunWithOneMore(cfg, states, steps, f);
    assert states[|steps|].parsed.entries == [f, f];
    states, steps := RunWithStep(cfg, states, steps, ByStop(Refuse));
    states, steps := RunWithStep(cfg, states, steps, ByStop(CloseQueue));
    states, steps := RunWithStep(cfg, states, steps, ByStop(Timeout));
    states, steps := RunWithStep(cfg, states, steps, ByBatcher(BatchCancel));
  }
}
