/**
 What the counters of the pipeline mean: each is the number of steps of a certain kind, told
 from the step and the state before it, without looking at what the step does. And `Submit`
 refuses every frame that comes after `accepting` was cleared.
 */
module PipelineCounters {
  import opened Fifo
  import opened Pipeline
  import opened PipelineSafety

  datatype Counter = Received | Rejected | Admitted | ParserDrops | NormalizationDrops | Sent | Stored | StorageDrops

  function Value(s: State, k: Counter, f: Frame): nat {
    match k
    case Received => s.intake.received[f]
    case Rejected => s.intake.rejected[f]
    case Admitted => s.intake.admitted[f]
    case ParserDrops => s.parsing.parserDrops[f]
    case NormalizationDrops => s.parsing.normalizationDrops[f]
    case Sent => multiset(s.parsing.sent)[f]
    case Stored => s.storing.stored[f]
    case StorageDrops => s.storing.drops[f]
  }

  /** The steps of `Submit` that count a frame: it arrives; it is refused because the pipeline is
      draining, the frame is too large, the queue is closed or the wait is over; it is admitted
      because the queue is open and has room. */
  predicate SubmitCounts(cfg: Config, s: State, p: nat, m: ProducerMove, k: Counter, f: Frame)
    requires Enabled(s, ByProducer(p, m))
  {
    match k
    case Received => m == Arrive(f)
    case Rejected =>
      || (m == Arrive(f) && !s.control.accepting)
      || (m.EnqueuePass? && s.intake.producers[p].frame == f && (f.size > cfg.limits.maxBytes || s.queue.closed))
      || (m.GiveUp? && s.intake.producers[p].frame == f)
    case Admitted =>
      && m.EnqueuePass? && s.intake.producers[p].frame == f
      && !s.queue.closed && HasRoom(s.queue.live, f, cfg.limits)
    case _ => false
  }

  /** The steps of a worker that count the frame in its hands. */
  predicate WorkerMoveCounts(m: WorkerMove, k: Counter) {
    match k
    case ParserDrops => m.ParseFail?
    case NormalizationDrops => m.NormalizeFail? || m.SendCancel?
    case Sent => m.Send?
    case _ => false
  }

  /** The answers of the backend that settle the batch in flight: a success, and a failure of the
      last attempt or after a cancellation. */
  predicate AnswerCounts(cfg: Config, b: Batcher, cancelled: bool, m: BatcherMove, k: Counter) {
    match k
    case Stored => m.AppendOk? && b.Appending?
    case StorageDrops => m.AppendError? && b.Appending? && (b.attempt == cfg.maxAttempts || cancelled)
    case _ => false
  }

  /** By how much a step raises a counter for a frame. */
  function Raises(cfg: Config, s: State, step: Step, k: Counter, f: Frame): nat
    requires Enabled(s, step)
  {
    match step
    case ByProducer(p, m) => if SubmitCounts(cfg, s, p, m, k, f) then 1 else 0
    case ByWorker(w, m) => if WorkerMoveCounts(m, k) && s.parsing.workers[w].frame == f then 1 else 0
    case ByBatcher(m) =>
      if AnswerCounts(cfg, s.storing.batcher, s.control.cancelled, m, k)
      then multiset(s.storing.batcher.group)[f] else 0
    case _ => 0
  }

  lemma SubmitRaises(cfg: Config, s: State, p: nat, m: ProducerMove, k: Counter, f: Frame)
    requires Enabled(s, ByProducer(p, m))
    ensures Value(Apply(cfg, s, ByProducer(p, m)), k, f) == Value(s, k, f) + Raises(cfg, s, ByProducer(p, m), k, f)
  {
    if m.EnqueuePass? {
      EnqueueAnswers(s.queue, s.intake.producers[p].frame, cfg.limits);
    }
  }

  lemma AnswerRaises(cfg: Config, c: Channel, t: Storing, cancelled: bool, m: BatcherMove, f: Frame)
    requires BatcherCan(c, t.batcher, cancelled, m)
    ensures var t' := BatcherStep(cfg, c, t, cancelled, m);
            && t'.stored[f] == t.stored[f] +
                 (if AnswerCounts(cfg, t.batcher, cancelled, m, Stored) then multiset(t.batcher.group)[f] else 0)
            && t'.drops[f] == t.drops[f] +
                 (if AnswerCounts(cfg, t.batcher, cancelled, m, StorageDrops) then multiset(t.batcher.group)[f] else 0)
  {
  }

  lemma WorkerRaises(cfg: Config, s: State, w: nat, m: WorkerMove, k: Counter, f: Frame)
    requires Enabled(s, ByWorker(w, m))
    ensures Value(Apply(cfg, s, ByWorker(w, m)), k, f) == Value(s, k, f) + Raises(cfg, s, ByWorker(w, m), k, f)
  {
  }

  lemma StepRaises(cfg: Config, s: State, step: Step, k: Counter, f: Frame)
    requires Enabled(s, step)
    ensures Value(Apply(cfg, s, step), k, f) == Value(s, k, f) + Raises(cfg, s, step, k, f)
  {
    match step
    case ByProducer(p, m) => SubmitRaises(cfg, s, p, m, k, f);
    case ByWorker(w, m) => WorkerRaises(cfg, s, w, m, k, f);
    case ByBatcher(m) => AnswerRaises(cfg, s.parsed, s.storing, s.control.cancelled, m, f);
    case _ =>
  }

  /** How often the first `n` steps of a run count a frame. */
  ghost function Count(cfg: Config, states: seq<State>, steps: seq<Step>, n: nat, k: Counter, f: Frame): nat
    requires IsRun(cfg, states, steps) && n <= |steps|
  {
    if n == 0 then 0
    else Count(cfg, states, steps, n - 1, k, f) + Raises(cfg, states[n - 1], steps[n - 1], k, f)
  }

  /** In every state of every run each counter is the number of steps so far that it stands for. */
  lemma {:induction false} CountersCount(
      cfg: Config, states: seq<State>, steps: seq<Step>, n: nat, k: Counter, f: Frame)
    requires IsRun(cfg, states, steps) && n <= |steps|
    ensures Value(states[n], k, f) == Count(cfg, states, steps, n, k, f)
  {
    if n > 0 {
      CountersCount(cfg, states, steps, n - 1, k, f);
      StepRaises(cfg, states[n - 1], steps[n - 1], k, f);
    }
  }

  /* ---------- Submit refuses while the pipeline is draining ---------- */

  /** A frame that can still be admitted: it is, or it is inside `Submit`. */
  function InOrAdmitted(k: Intake, f: Frame): nat { k.admitted[f] + InProducers(k.producers, f) }

  lemma RefusingStep(cfg: Config, s: State, step: Step, f: Frame)
    requires Enabled(s, step) && !s.control.accepting
    ensures var t := Apply(cfg, s, step);
            !t.control.accepting && InOrAdmitted(t.intake, f) <= InOrAdmitted(s.intake, f)
  {
    if step.ByProducer? {
      var t, p := Apply(cfg, s, step), step.p;
      assert t.intake.producers == s.intake.producers[p := t.intake.producers[p]];
      ProducerUpdate(s.intake.producers, p, t.intake.producers[p], f);
    }
  }

  /** Once `accepting` is cleared, only frames that were inside `Submit` by then are admitted. */
  lemma {:induction false} NoAdmissionWhileRefusing(
      cfg: Config, states: seq<State>, steps: seq<Step>, i: nat, j: nat, f: Frame)
    requires IsRun(cfg, states, steps) && i <= j < |states| && !states[i].control.accepting
    ensures !states[j].control.accepting && InOrAdmitted(states[j].intake, f) <= InOrAdmitted(states[i].intake, f)
    decreases j - i
  {
    if i < j {
      NoAdmissionWhileRefusing(cfg, states, steps, i, j - 1, f);
      RefusingStep(cfg, states[j - 1], steps[j - 1], f);
    }
  }

  /** A frame that first comes after that is never admitted: every one of its arrivals is rejected. */
  lemma LateFrameIsRejected(cfg: Config, states: seq<State>, steps: seq<Step>, i: nat, j: nat, f: Frame)
    requires IsRun(cfg, states, steps) && i <= j < |states| && !states[i].control.accepting
    requires states[i].intake.received[f] == 0
    ensures states[j].intake.admitted[f] == 0 && InProducers(states[j].intake.producers, f) == 0
    ensures states[j].intake.rejected[f] == states[j].intake.received[f]
  {
    RunInv(cfg, states, steps, i);
    RunInv(cfg, states, steps, j);
    NoAdmissionWhileRefusing(cfg, states, steps, i, j, f);
    assert AdmissionCount(states[i].intake, f) && AdmissionCount(states[j].intake, f);
  }

  /** While it is set, an arriving frame goes on to the queue. */
  lemma AcceptedFrameIsTried(cfg: Config, s: State, p: nat, f: Frame)
    requires Enabled(s, ByProducer(p, Arrive(f)))
    ensures Apply(cfg, s, ByProducer(p, Arrive(f))).intake.producers[p] == Trying(f) <==> s.control.accepting
  {
  }
}
