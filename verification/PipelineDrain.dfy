/**
 The main results about the pipeline: every frame is accounted for in every reachable state,
 no wake-up is lost, and draining after `Stop` cannot get stuck and ends.
 */
module PipelineDrain {
  import opened Fifo
  import opened Pipeline
  import opened PipelineSafety

  /* ---------- Conservation ---------- */

  /** The places past admission where a frame can be. */
  function InPipeline(s: State, f: Frame): nat {
    multiset(s.queue.live)[f] + InWorkers(s.parsing.workers, f) + multiset(s.parsed.entries)[f]
    + multiset(InHand(s.storing.batcher))[f] + multiset(s.storing.batch)[f] + multiset(InFlight(s.storing.batcher))[f]
  }

  /** In every state of every run, every frame received is inside `Submit`, rejected or
      admitted, and every frame admitted is in exactly one stage or has exactly one outcome. */
  lemma Conservation(cfg: Config, states: seq<State>, steps: seq<Step>, i: nat, f: Frame)
    requires IsRun(cfg, states, steps) && i < |states|
    ensures var s := states[i];
            && s.intake.received[f] == InProducers(s.intake.producers, f) + s.intake.rejected[f] + s.intake.admitted[f]
            && s.intake.admitted[f] == InPipeline(s, f) + s.storing.stored[f] + Dropped(s)[f]
  {
    RunInv(cfg, states, steps, i);
    var s := states[i];
    assert AdmissionCount(s.intake, f);
    assert WorkerCount(s.intake.admitted, s.queue.live, s.parsing, f);
    assert StorageCount(s.storing, f);
    assert multiset(s.parsing.sent)[f] ==
           multiset(s.storing.handed)[f] + multiset(s.storing.batch)[f]
           + multiset(InHand(s.storing.batcher))[f] + multiset(s.parsed.entries)[f];
  }

  /** In every state of every run the queue, the channel and the batch respect their limits,
      and storage sees the entries in the order in which the workers sent them. */
  lemma LimitsAndOrder(cfg: Config, states: seq<State>, steps: seq<Step>, i: nat)
    requires IsRun(cfg, states, steps) && i < |states|
    ensures var s := states[i];
            && Within(s.queue, cfg.limits) && |s.parsed.entries| <= PARSED_CAPACITY
            && Batches(cfg, s.storing)
            && s.parsing.sent == s.storing.handed + s.storing.batch + InHand(s.storing.batcher) + s.parsed.entries
  {
    RunInv(cfg, states, steps, i);
  }

  /* ---------- Wake-ups and channel use ---------- */

  /** A waiting worker can wake, or the queue is open and empty. A waiting producer can wake,
      or the queue is open and has no room for its frame. */
  lemma NoLostWakeUp(cfg: Config, states: seq<State>, steps: seq<Step>, i: nat)
    requires IsRun(cfg, states, steps) && i < |states|
    ensures var s := states[i];
            && (forall w :: 0 <= w < |s.parsing.workers| && s.parsing.workers[w].Parked? ==>
                  Enabled(s, ByWorker(w, WorkerWake)) || (s.queue.live == [] && !s.queue.closed))
            && (forall p :: 0 <= p < |s.intake.producers| && s.intake.producers[p].Waiting? ==>
                  || Enabled(s, ByProducer(p, ProducerWake))
                  || (!s.queue.closed && !HasRoom(s.queue.live, s.intake.producers[p].frame, cfg.limits)))
  {
    RunInv(cfg, states, steps, i);
    var s := states[i];
    forall p | 0 <= p < |s.intake.producers| && s.intake.producers[p].Waiting?
      ensures Fits(s.queue, s.intake.producers[p].frame, cfg.limits) <==>
              HasRoom(s.queue.live, s.intake.producers[p].frame, cfg.limits)
    {
      BytesAppend(s.queue.live, s.intake.producers[p].frame);
    }
  }

  /** No worker can send on `parsed` once it is closed, and nothing is received after the end. */
  lemma NoSendOnClosedChannel(cfg: Config, states: seq<State>, steps: seq<Step>, i: nat, w: nat)
    requires IsRun(cfg, states, steps) && i < |steps|
    requires steps[i] == ByWorker(w, Send)
    ensures !states[i].parsed.closed && !Ending(states[i].storing.batcher)
  {
    RunInv(cfg, states, steps, i);
  }

  /* ---------- Draining ends: the measure ---------- */

  function ProducerRank(p: Producer): nat {
    match p case Outside => 0 case Trying(_) => 1 case Waiting(_, _) => 2
  }

  function WorkerRank(w: Worker): nat {
    match w case Exited => 0 case Ready => 1 case Parked(_) => 2 case Sending(_) => 3 case Holding(_) => 4
  }

  function ProducersRank(ps: seq<Producer>): nat {
    if ps == [] then 0 else ProducerRank(ps[0]) + ProducersRank(ps[1..])
  }

  function WorkersRank(ws: seq<Worker>): nat {
    if ws == [] then 0 else WorkerRank(ws[0]) + WorkersRank(ws[1..])
  }

  lemma {:induction false} ProducersRankUpdate(ps: seq<Producer>, i: nat, x: Producer)
    requires i < |ps|
    ensures ProducersRank(ps[i := x]) + ProducerRank(ps[i]) == ProducersRank(ps) + ProducerRank(x)
  {
    if i == 0 {
      assert ps[i := x][1..] == ps[1..];
    } else {
      assert ps[i := x][1..] == ps[1..][i - 1 := x];
      ProducersRankUpdate(ps[1..], i - 1, x);
    }
  }

  lemma {:induction false} WorkersRankUpdate(ws: seq<Worker>, i: nat, x: Worker)
    requires i < |ws|
    ensures WorkersRank(ws[i := x]) + WorkerRank(ws[i]) == WorkersRank(ws) + WorkerRank(x)
  {
    if i == 0 {
      assert ws[i := x][1..] == ws[1..];
    } else {
      assert ws[i := x][1..] == ws[1..][i - 1 := x];
      WorkersRankUpdate(ws[1..], i - 1, x);
    }
  }

  function StopRank(c: StopCall): nat {
    match c case AwaitDone => 2 case ForcedAwait => 1 case _ => 0
  }

  /** Work before the batch worker. */
  function Upstream(s: State): nat {
    ProducersRank(s.intake.producers) + WorkersRank(s.parsing.workers)
    + 4 * |s.queue.live| + |s.parsed.entries|
    + StopRank(s.control.stop) + (if s.control.cancelled then 0 else 1) + (if s.parsed.closed then 0 else 1)
  }

  /** Work of the batch worker, not counting attempts. */
  function Batching(t: Storing): nat {
    2 * |t.batch| + 2 * |InHand(t.batcher)| +
    match t.batcher
    case Select => 2
    case Draining => 1
    case Finished => 0
    case Appending(_, _, after) => if Ending(t.batcher) then 1 else 3
    case BackingOff(_, _, after) => if Ending(t.batcher) then 1 else 3
  }

  /** Attempts left for the batch in flight. */
  function Attempts(cfg: Config, b: Batcher): int {
    match b
    case Appending(_, attempt, _) => 2 * (cfg.maxAttempts - attempt) + 1
    case BackingOff(_, attempt, _) => 2 * (cfg.maxAttempts - attempt)
    case _ => 0
  }

  /** Lexicographic descent of (upstream work, batching work, attempts). */
  predicate Descends(cfg: Config, s: State, t: State) {
    || Upstream(t) < Upstream(s)
    || (Upstream(t) == Upstream(s) && Batching(t.storing) < Batching(s.storing))
    || (&& Upstream(t) == Upstream(s) && Batching(t.storing) == Batching(s.storing)
        && 0 <= Attempts(cfg, t.storing.batcher) < Attempts(cfg, s.storing.batcher))
  }

  /** The steps that do no work: a caller turned away, and a timer firing on an empty batch. */
  predicate IdleStep(s: State, step: Step) {
    || (step.ByProducer? && step.producerMove.Arrive?)
    || (step == ByBatcher(Tick) && s.storing.batch == [])
  }

  lemma ProducerDescends(cfg: Config, s: State, p: nat, m: ProducerMove)
    requires Inv(cfg, s) && s.queue.closed && Enabled(s, ByProducer(p, m)) && !m.Arrive?
    ensures Descends(cfg, s, Apply(cfg, s, ByProducer(p, m)))
  {
    var t := Apply(cfg, s, ByProducer(p, m));
    var x := t.intake.producers[p];
    assert t.intake.producers == s.intake.producers[p := x];
    ProducersRankUpdate(s.intake.producers, p, x);
  }

  lemma WorkerDescends(cfg: Config, s: State, w: nat, m: WorkerMove)
    requires Inv(cfg, s) && s.queue.closed && Enabled(s, ByWorker(w, m))
    ensures Descends(cfg, s, Apply(cfg, s, ByWorker(w, m)))
  {
    var t := Apply(cfg, s, ByWorker(w, m));
    var x := WorkerNext(s.queue, s.parsing.workers[w], m);
    assert t.parsing.workers == s.parsing.workers[w := x];
    WorkersRankUpdate(s.parsing.workers, w, x);
  }

  lemma ResumeShrinks(cfg: Config, t: Storing, t': Storing)
    requires t.batcher.Appending? && t.batch == t'.batch == []
    ensures Batching(Resume(cfg, t', t.batcher.after)) < Batching(t)
  {
  }

  /** Seen from the batch worker: either it took an entry from the channel, or its own
      measure falls. */
  lemma BatcherShrinks(cfg: Config, c: Channel, t: Storing, cancelled: bool, m: BatcherMove)
    requires Batches(cfg, t) && BatcherCan(c, t.batcher, cancelled, m)
    requires !m.Receive? && !m.DrainReceive? && (m.Tick? ==> t.batch != [])
    ensures var t' := BatcherStep(cfg, c, t, cancelled, m);
            || Batching(t') < Batching(t)
            || (Batching(t') == Batching(t) && 0 <= Attempts(cfg, t'.batcher) < Attempts(cfg, t.batcher))
  {
    match m
    case AppendOk => ResumeShrinks(cfg, t, t.(stored := t.stored + multiset(t.batcher.group)));
    case AppendError => ResumeShrinks(cfg, t, t.(drops := t.drops + multiset(t.batcher.group)));
    case _ =>
  }

  lemma BatcherDescends(cfg: Config, s: State, m: BatcherMove)
    requires Inv(cfg, s) && Enabled(s, ByBatcher(m)) && !IdleStep(s, ByBatcher(m))
    ensures Descends(cfg, s, Apply(cfg, s, ByBatcher(m)))
  {
    if !m.Receive? && !m.DrainReceive? {
      BatcherShrinks(cfg, s.parsed, s.storing, s.control.cancelled, m);
    }
  }

  /** Once the queue is closed every step that does work descends, and every other step
      leaves the measure alone. */
  lemma StepDescends(cfg: Config, s: State, step: Step)
    requires Inv(cfg, s) && s.queue.closed && Enabled(s, step)
    ensures Apply(cfg, s, step).queue.closed
    ensures !IdleStep(s, step) ==> Descends(cfg, s, Apply(cfg, s, step))
    ensures IdleStep(s, step) ==> var t := Apply(cfg, s, step);
            Upstream(t) == Upstream(s) && t.storing == s.storing
  {
    match step
    case ByProducer(p, m) => if !m.Arrive? { ProducerDescends(cfg, s, p, m); }
    case ByWorker(w, m) => WorkerDescends(cfg, s, w, m);
    case ByBatcher(m) => if !IdleStep(s, step) { BatcherDescends(cfg, s, m); }
    case ByStop(m) =>
    case CloseParsed =>
    case ParentCancel =>
  }

  /* ---------- Draining cannot get stuck ---------- */

  /** Without the wake-up invariant a parked worker would have no step here. */
  lemma WorkerProgress(cfg: Config, s: State, w: nat) returns (m: WorkerMove)
    requires Inv(cfg, s) && s.queue.closed && s.parsed.entries == []
    requires w < |s.parsing.workers| && !s.parsing.workers[w].Exited?
    ensures Enabled(s, ByWorker(w, m))
  {
    match s.parsing.workers[w]
    case Ready => m := DequeuePass;
    case Parked(_) => m := WorkerWake;
    case Holding(_) => m := ParseOk;
    case Sending(_) => m := Send;
  }

  predicate StopReturned(s: State) { s.control.stop.ReturnedNil? || s.control.stop.ReturnedErr? }

  /** After the queue is closed, some step that does work is possible until `Stop` returns. */
  lemma Progress(cfg: Config, s: State) returns (step: Step)
    requires Inv(cfg, s) && s.queue.closed && !StopReturned(s)
    ensures Enabled(s, step) && !IdleStep(s, step)
  {
    if s.storing.batcher.Finished? {
      step := ByStop(if s.control.stop.AwaitDone? then Done else ForcedDone);
    } else if s.storing.batcher.Appending? {
      step := ByBatcher(AppendOk);
    } else if s.storing.batcher.BackingOff? {
      step := ByBatcher(BackoffOver);
    } else if s.parsed.entries != [] {
      step := ByBatcher(if s.storing.batcher.Select? then Receive else DrainReceive);
    } else if s.parsed.closed {
      step := ByBatcher(if s.storing.batcher.Select? then ReceiveClosed else DrainClosed);
    } else if AllExited(s.parsing.workers) {
      step := CloseParsed;
    } else {
      var w :| 0 <= w < |s.parsing.workers| && !s.parsing.workers[w].Exited?;
      var m := WorkerProgress(cfg, s, w);
      step := ByWorker(w, m);
    }
  }

  predicate Stopping(s: State) { s.queue.closed && !StopReturned(s) }

  /** At time `n` the scheduler picks a step that does work. */
  ghost predicate Works(cfg: Config, sched: (nat, State) -> Step, n: nat) {
    forall s :: Inv(cfg, s) && Stopping(s) ==> !IdleStep(s, sched(n, s))
  }

  ghost predicate WorksLater(cfg: Config, sched: (nat, State) -> Step, n: nat) {
    exists due: nat :: n <= due && Works(cfg, sched, due)
  }

  /** A scheduler may look at the time and the whole state; until `Stop` has returned it picks
      any steps that can happen, idle ones too, as long as working steps never stop coming. */
  ghost predicate Schedules(cfg: Config, sched: (nat, State) -> Step) {
    && (forall n: nat, s :: Inv(cfg, s) && Stopping(s) ==> Enabled(s, sched(n, s)))
    && (forall n: nat :: WorksLater(cfg, sched, n))
  }

  ghost predicate IsPath(cfg: Config, states: seq<State>, steps: seq<Step>) {
    && |states| == |steps| + 1
    && forall i :: 0 <= i < |steps| ==>
         Enabled(states[i], steps[i]) && states[i + 1] == Apply(cfg, states[i], steps[i])
  }

  ghost predicate Follows(sched: (nat, State) -> Step, n: nat, states: seq<State>, steps: seq<Step>) {
    |states| == |steps| + 1 && forall i :: 0 <= i < |steps| ==> steps[i] == sched(n + i, states[i])
  }

  lemma PathCons(cfg: Config, s: State, step: Step, states: seq<State>, steps: seq<Step>)
    requires Enabled(s, step) && IsPath(cfg, states, steps) && states[0] == Apply(cfg, s, step)
    ensures IsPath(cfg, [s] + states, [step] + steps)
    ensures ([s] + states)[0] == s && ([s] + states)[|[step] + steps|] == states[|steps|]
  {
    var longer, more := [s] + states, [step] + steps;
    forall i | 0 <= i < |more|
      ensures Enabled(longer[i], more[i]) && longer[i + 1] == Apply(cfg, longer[i], more[i])
    {
      if i > 0 {
        assert longer[i] == states[i - 1] && more[i] == steps[i - 1];
      }
    }
  }

  lemma FollowsCons(sched: (nat, State) -> Step, n: nat, s: State, states: seq<State>, steps: seq<Step>)
    requires Follows(sched, n + 1, states, steps)
    ensures Follows(sched, n, [s] + states, [sched(n, s)] + steps)
  {
    var longer, more := [s] + states, [sched(n, s)] + steps;
    forall i | 0 <= i < |more| ensures more[i] == sched(n + i, longer[i]) {
      if i > 0 {
        assert more[i] == steps[i - 1] == sched(n + 1 + (i - 1), states[i - 1]);
      }
    }
  }

  /** Whatever the scheduler does, `Stop` returns after finitely many steps. */
  lemma DrainCompletes(cfg: Config, s: State, sched: (nat, State) -> Step, n: nat)
    returns (states: seq<State>, steps: seq<Step>)
    requires Inv(cfg, s) && s.queue.closed && Schedules(cfg, sched)
    ensures IsPath(cfg, states, steps) && states[0] == s
    ensures Follows(sched, n, states, steps)
    ensures var t := states[|steps|]; StopReturned(t) && t.storing.batcher.Finished? && Inv(cfg, t)
  {
    assert WorksLater(cfg, sched, n);
    var due: nat :| n <= due && Works(cfg, sched, due);
    states, steps := DrainFrom(cfg, s, sched, n, due);
  }

  lemma ReturnedIsFinished(cfg: Config, s: State)
    requires Inv(cfg, s) && StopReturned(s)
    ensures s.storing.batcher.Finished?
  {
  }

  /** One step: it lowers the measure, or it is idle and the working step is still due. */
  lemma NextStep(cfg: Config, s: State, sched: (nat, State) -> Step, n: nat, due: nat) returns (t: State, next: nat)
    requires Inv(cfg, s) && Stopping(s) && Schedules(cfg, sched) && n <= due && Works(cfg, sched, due)
    ensures Enabled(s, sched(n, s)) && t == Apply(cfg, s, sched(n, s)) && Inv(cfg, t) && t.queue.closed
    ensures n + 1 <= next && Works(cfg, sched, next)
    ensures Descends(cfg, s, t) || (Upstream(t) == Upstream(s) && t.storing == s.storing && next == due)
  {
    var step := sched(n, s);
    StepDescends(cfg, s, step);
    StepInv(cfg, s, step);
    t, next := Apply(cfg, s, step), due;
    if !IdleStep(s, step) {
      assert WorksLater(cfg, sched, n + 1);
      next :| n + 1 <= next && Works(cfg, sched, next);
    }
  }

  /** The next working step is due at time `due`; until then idle steps leave the measure alone. */
  lemma {:induction false} DrainFrom(cfg: Config, s: State, sched: (nat, State) -> Step, n: nat, due: nat)
    returns (states: seq<State>, steps: seq<Step>)
    requires Inv(cfg, s) && s.queue.closed && Schedules(cfg, sched) && n <= due && Works(cfg, sched, due)
    ensures IsPath(cfg, states, steps) && states[0] == s
    ensures Follows(sched, n, states, steps)
    ensures var t := states[|steps|]; StopReturned(t) && t.storing.batcher.Finished? && Inv(cfg, t)
    decreases Upstream(s), Batching(s.storing), Attempts(cfg, s.storing.batcher), due - n
  {
    if StopReturned(s) {
      ReturnedIsFinished(cfg, s);
      return [s], [];
    }
    var t, next := NextStep(cfg, s, sched, n, due);
    var rest, more := DrainFrom(cfg, t, sched, n + 1, next);
    PathCons(cfg, s, sched(n, s), rest, more);
    FollowsCons(sched, n, s, rest, more);
    states, steps := [s] + rest, [sched(n, s)] + more;
  }
}
