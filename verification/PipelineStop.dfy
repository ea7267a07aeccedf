/**
 What `Stop` has accounted for when it returns, and exactly when a frame can be lost.
 */
module PipelineStop {
  import opened Fifo
  import opened Pipeline
  import opened PipelineSafety
  import opened PipelineDrain

  /** When the batch worker has ended, the only frames without an outcome are those left in
      the queue, and there are such frames only after a cancellation. */
  lemma FinishedAccount(cfg: Config, states: seq<State>, steps: seq<Step>, i: nat)
    requires IsRun(cfg, states, steps) && i < |states| && states[i].storing.batcher.Finished?
    ensures var s := states[i];
            && (forall f :: s.intake.admitted[f] == multiset(s.queue.live)[f] + s.storing.stored[f] + Dropped(s)[f])
            && (s.intake.admitted == s.storing.stored + Dropped(s) <==> s.queue.live == [])
            && (s.queue.live != [] ==> s.control.cancelled)
  {
    RunInv(cfg, states, steps, i);
    var s := states[i];
    forall f
      ensures s.intake.admitted[f] == multiset(s.queue.live)[f] + s.storing.stored[f] + Dropped(s)[f]
    {
      Conservation(cfg, states, steps, i, f);
      NoWorkerHolds(s.parsing.workers, f);
    }
    if s.queue.live != [] {
      var f := s.queue.live[0];
      assert f in multiset(s.queue.live);
    }
    assert s.parsing.workers[0].Exited?;
  }

  /** If `Stop` returned nil and the context was not cancelled, everything admitted is
      stored or counted as dropped, and every stage is empty. */
  lemma StopNilAccountsForAll(cfg: Config, states: seq<State>, steps: seq<Step>, i: nat)
    requires IsRun(cfg, states, steps) && i < |states|
    requires states[i].control.stop.ReturnedNil? && !states[i].control.cancelled
    ensures var s := states[i];
            && s.intake.admitted == s.storing.stored + Dropped(s)
            && s.queue.live == [] && AllExited(s.parsing.workers)
            && s.parsed == Channel([], true) && s.storing.batch == [] && s.storing.batcher.Finished?
  {
    RunInv(cfg, states, steps, i);
    FinishedAccount(cfg, states, steps, i);
  }

  /* ---------- Exactly when a frame can be lost ---------- */

  /** The workers that are about to call `dequeue` or are at the top of its loop: they look
      at the queue before they look at the context. */
  function ReadyCount(workers: seq<Worker>): nat {
    if workers == [] then 0 else (if workers[0].Ready? then 1 else 0) + ReadyCount(workers[1..])
  }

  /** Each queued frame has a worker about to take it. */
  predicate Covered(s: State) { |s.queue.live| <= ReadyCount(s.parsing.workers) }

  /** How many queued frames have no such worker. */
  function Excess(s: State): nat {
    if Covered(s) then 0 else |s.queue.live| - ReadyCount(s.parsing.workers)
  }

  predicate Lost(s: State) { s.storing.batcher.Finished? && s.queue.live != [] }

  lemma {:induction false} ReadyUpdate(ws: seq<Worker>, i: nat, x: Worker)
    requires i < |ws|
    ensures ReadyCount(ws[i := x]) + (if ws[i].Ready? then 1 else 0) == ReadyCount(ws) + (if x.Ready? then 1 else 0)
  {
    if i == 0 {
      assert ws[i := x][1..] == ws[1..];
    } else {
      assert ws[i := x][1..] == ws[1..][i - 1 := x];
      ReadyUpdate(ws[1..], i - 1, x);
    }
  }

  lemma {:induction false} NoneReady(ws: seq<Worker>)
    requires forall w :: 0 <= w < |ws| ==> !ws[w].Ready?
    ensures ReadyCount(ws) == 0
  {
    if ws != [] { NoneReady(ws[1..]); }
  }

  lemma WorkerReady(cfg: Config, s: State, w: nat, m: WorkerMove)
    requires Enabled(s, ByWorker(w, m))
    ensures var t := Apply(cfg, s, ByWorker(w, m));
            var x := WorkerNext(s.queue, s.parsing.workers[w], m);
            ReadyCount(t.parsing.workers) + (if s.parsing.workers[w].Ready? then 1 else 0)
            == ReadyCount(s.parsing.workers) + (if x.Ready? then 1 else 0)
  {
    var x := WorkerNext(s.queue, s.parsing.workers[w], m);
    assert Apply(cfg, s, ByWorker(w, m)).parsing.workers == s.parsing.workers[w := x];
    ReadyUpdate(s.parsing.workers, w, x);
  }

  /** Once the queue is closed, no step adds to the excess; in particular covered frames stay
      covered. */
  lemma ExcessFalls(cfg: Config, s: State, step: Step)
    requires s.queue.closed && Enabled(s, step)
    ensures Apply(cfg, s, step).queue.closed && Excess(Apply(cfg, s, step)) <= Excess(s)
  {
    if step.ByWorker? {
      WorkerReady(cfg, s, step.w, step.workerMove);
    }
  }

  /** So no path ends with more frames left. */
  lemma {:induction false} LossIsBounded(cfg: Config, states: seq<State>, steps: seq<Step>)
    requires IsPath(cfg, states, steps) && Inv(cfg, states[0]) && states[0].queue.closed
    ensures var t := states[|steps|];
            Inv(cfg, t) && (t.storing.batcher.Finished? ==> |t.queue.live| <= Excess(states[0]))
  {
    if steps == [] {
      ExcessIsLeft(cfg, states[0]);
    } else {
      StepInv(cfg, states[0], steps[0]);
      ExcessFalls(cfg, states[0], steps[0]);
      PathTail(cfg, states, steps);
      LossIsBounded(cfg, states[1..], steps[1..]);
    }
  }

  lemma PathTail(cfg: Config, states: seq<State>, steps: seq<Step>)
    requires IsPath(cfg, states, steps) && steps != []
    ensures IsPath(cfg, states[1..], steps[1..])
    ensures states[1] == Apply(cfg, states[0], steps[0])
  {
    forall i | 0 <= i < |steps| - 1
      ensures Enabled(states[1..][i], steps[1..][i])
      ensures states[1..][i + 1] == Apply(cfg, states[1..][i], steps[1..][i])
    {
      assert states[1..][i] == states[i + 1] && steps[1..][i] == steps[i + 1];
    }
  }

  /** At the end the excess is what is left in the queue. */
  lemma ExcessIsLeft(cfg: Config, s: State)
    requires Inv(cfg, s)
    ensures s.storing.batcher.Finished? ==> Excess(s) == |s.queue.live|
  {
    if s.storing.batcher.Finished? {
      NoneReady(s.parsing.workers);
    }
  }

  /** A step after which the workers will leave as many frames behind as before. */
  lemma LosingWorker(cfg: Config, s: State, w: nat) returns (m: WorkerMove)
    requires s.control.cancelled && s.queue.closed && w < |s.parsing.workers| && !s.parsing.workers[w].Exited?
    ensures Enabled(s, ByWorker(w, m)) && Excess(Apply(cfg, s, ByWorker(w, m))) == Excess(s)
  {
    match s.parsing.workers[w] {
      case Ready => m := DequeuePass;
      case Parked(_) => m := WorkerCancel;
      case Holding(_) => m := ParseOk;
      case Sending(_) => m := SendCancel;
    }
    WorkerReady(cfg, s, w, m);
  }

  lemma LosingStep(cfg: Config, s: State) returns (step: Step)
    requires s.control.cancelled && s.queue.closed && !s.storing.batcher.Finished?
    ensures Enabled(s, step) && !IdleStep(s, step)
    ensures var t := Apply(cfg, s, step); Excess(t) == Excess(s) && t.control == s.control && t.intake == s.intake
  {
    if w :| 0 <= w < |s.parsing.workers| && !s.parsing.workers[w].Exited? {
      var m := LosingWorker(cfg, s, w);
      step := ByWorker(w, m);
    } else if !s.parsed.closed {
      step := CloseParsed;
    } else {
      match s.storing.batcher
      case Select => step := ByBatcher(BatchCancel);
      case Draining => step := ByBatcher(if s.parsed.entries != [] then DrainReceive else DrainClosed);
      case Appending(_, _, _) => step := ByBatcher(AppendOk);
      case BackingOff(_, _, _) => step := ByBatcher(BackoffOver);
    }
  }

  /** The batch worker has ended and `n` frames are in no counter. */
  predicate Leaves(s: State, n: nat) { s.storing.batcher.Finished? && |s.queue.live| == n }

  lemma {:induction false} LosingPath(cfg: Config, s: State) returns (states: seq<State>, steps: seq<Step>)
    requires Inv(cfg, s) && s.queue.closed && s.control.cancelled
    ensures IsPath(cfg, states, steps) && states[0] == s
    ensures var t := states[|steps|]; Leaves(t, Excess(s)) && t.control == s.control && t.intake == s.intake
    decreases Upstream(s), Batching(s.storing), Attempts(cfg, s.storing.batcher)
  {
    if s.storing.batcher.Finished? {
      ExcessIsLeft(cfg, s);
      return [s], [];
    }
    var step := LosingStep(cfg, s);
    StepDescends(cfg, s, step);
    StepInv(cfg, s, step);
    states, steps := LosingPath(cfg, Apply(cfg, s, step));
    PathCons(cfg, s, step, states, steps);
    states, steps := [s] + states, [step] + steps;
  }

  ghost predicate Reaches(cfg: Config, s: State, states: seq<State>, steps: seq<Step>) {
    IsPath(cfg, states, steps) && states[0] == s
  }

  ghost predicate CanLeave(cfg: Config, s: State, n: nat) {
    exists states, steps :: Reaches(cfg, s, states, steps) && Leaves(states[|steps|], n)
  }

  /** From a state in which the queue is closed, the worst case is exact: some run loses as many
      frames as are queued beyond the workers about to dequeue, and none loses more. */
  lemma WorstLoss(cfg: Config, s: State)
    requires Inv(cfg, s) && s.queue.closed
    ensures CanLeave(cfg, s, Excess(s)) && forall n: nat :: CanLeave(cfg, s, n) ==> n <= Excess(s)
  {
    var states, steps := CancelAndLose(cfg, s);
    assert Reaches(cfg, s, states, steps);
    forall n: nat | CanLeave(cfg, s, n) ensures n <= Excess(s) {
      var ss, ts :| Reaches(cfg, s, ss, ts) && Leaves(ss[|ts|], n);
      LossIsBounded(cfg, ss, ts);
    }
  }

  ghost predicate CanLose(cfg: Config, s: State) {
    exists states, steps :: Reaches(cfg, s, states, steps) && Lost(states[|steps|])
  }

  /** From a state in which the queue is closed a frame can end up in no counter if and only
      if more frames are queued than workers are about to dequeue: at the deadline of `Stop`,
      before it, and after it. */
  lemma LossIff(cfg: Config, s: State)
    requires Inv(cfg, s) && s.queue.closed
    ensures CanLose(cfg, s) <==> |s.queue.live| > ReadyCount(s.parsing.workers)
  {
    forall states: seq<State>, steps: seq<Step> | Reaches(cfg, s, states, steps)
      ensures states[|steps|].storing.batcher.Finished? ==> |states[|steps|].queue.live| <= Excess(s)
    {
      LossIsBounded(cfg, states, steps);
    }
    var states, steps := CancelAndLose(cfg, s);
    assert Reaches(cfg, s, states, steps);
  }

  /** The context is cancelled, if it is not yet, and then the frames are lost. */
  lemma CancelAndLose(cfg: Config, s: State) returns (states: seq<State>, steps: seq<Step>)
    requires Inv(cfg, s) && s.queue.closed
    ensures IsPath(cfg, states, steps) && states[0] == s
    ensures var t := states[|steps|];
            Leaves(t, Excess(s)) && t.intake == s.intake && t.control == s.control.(cancelled := true)
  {
    if s.control.cancelled {
      states, steps := LosingPath(cfg, s);
    } else {
      StepInv(cfg, s, ParentCancel);
      states, steps := LosingPath(cfg, Apply(cfg, s, ParentCancel));
      PathCons(cfg, s, ParentCancel, states, steps);
      states, steps := [s] + states, [ParentCancel] + steps;
    }
  }

  /* ---------- What Stop can return with ---------- */

  lemma PathExtend(cfg: Config, states: seq<State>, steps: seq<Step>, step: Step, t: State)
    requires IsPath(cfg, states, steps)
    requires Enabled(states[|steps|], step) && Apply(cfg, states[|steps|], step) == t
    ensures IsPath(cfg, states + [t], steps + [step])
  {
    var longer, more := states + [t], steps + [step];
    forall i | 0 <= i < |more|
      ensures Enabled(longer[i], more[i]) && longer[i + 1] == Apply(cfg, longer[i], more[i])
    {
      if i < |steps| {
        assert Enabled(states[i], steps[i]) && states[i + 1] == Apply(cfg, states[i], steps[i]);
      }
    }
  }

  /** While `Stop` waits, both of its answers can come with a frame lost: an error after its own
      deadline, and nil after the parent context was cancelled. */
  lemma StopAndLose(cfg: Config, s: State, answer: StopCall) returns (states: seq<State>, steps: seq<Step>)
    requires Inv(cfg, s) && s.control.stop.AwaitDone?
    requires answer == ReturnedNil || answer == ReturnedErr
    ensures IsPath(cfg, states, steps) && states[0] == s
    ensures var t := states[|steps|]; Leaves(t, Excess(s)) && t.intake == s.intake && t.control.stop == answer
  {
    var last := ByStop(if answer.ReturnedNil? then Done else ForcedDone);
    if answer.ReturnedNil? {
      states, steps := CancelAndLose(cfg, s);
    } else {
      StepInv(cfg, s, ByStop(Timeout));
      states, steps := LosingPath(cfg, Apply(cfg, s, ByStop(Timeout)));
      PathCons(cfg, s, ByStop(Timeout), states, steps);
      states, steps := [s] + states, [ByStop(Timeout)] + steps;
    }
    var t := Apply(cfg, states[|steps|], last);
    PathExtend(cfg, states, steps, last, t);
    states, steps := states + [t], steps + [last];
  }

  ghost predicate CanAnswerAndLose(cfg: Config, s: State, answer: StopCall) {
    exists states: seq<State>, steps: seq<Step> ::
      Reaches(cfg, s, states, steps) && states[|steps|].control.stop == answer && states[|steps|].queue.live != []
  }

  /** While `Stop` waits: it can return, with nil or with an error, and leave an admitted frame
      uncounted, if and only if more frames are queued than workers are about to dequeue. */
  lemma StopLosesIff(cfg: Config, s: State, answer: StopCall)
    requires Inv(cfg, s) && s.control.stop.AwaitDone? && (answer == ReturnedNil || answer == ReturnedErr)
    ensures CanAnswerAndLose(cfg, s, answer) <==> |s.queue.live| > ReadyCount(s.parsing.workers)
  {
    forall states: seq<State>, steps: seq<Step> |
      Reaches(cfg, s, states, steps) && states[|steps|].control.stop == answer
      ensures |states[|steps|].queue.live| <= Excess(s)
    {
      LossIsBounded(cfg, states, steps);
    }
    var states, steps := StopAndLose(cfg, s, answer);
    assert Reaches(cfg, s, states, steps);
  }

  /* ---------- Runs in which only Stop cancels ---------- */

  /** `main` cancels the parent context only after `Stop` has returned. */
  ghost predicate ParentAlive(steps: seq<Step>) { ParentCancel !in steps }

  lemma {:induction false} OnlyTimeoutCancels(cfg: Config, states: seq<State>, steps: seq<Step>, i: nat)
    requires IsRun(cfg, states, steps) && ParentAlive(steps) && i < |states|
    ensures states[i].control.cancelled ==> states[i].control.stop.ForcedAwait? || states[i].control.stop.ReturnedErr?
  {
    if i > 0 {
      OnlyTimeoutCancels(cfg, states, steps, i - 1);
      assert Enabled(states[i - 1], steps[i - 1]) && steps[i - 1] in steps;
    }
  }

  /** Then a nil answer of `Stop` means that nothing is lost. */
  lemma NilMeansNothingLost(cfg: Config, states: seq<State>, steps: seq<Step>, i: nat)
    requires IsRun(cfg, states, steps) && ParentAlive(steps) && i < |states|
    requires states[i].control.stop.ReturnedNil?
    ensures var s := states[i]; s.intake.admitted == s.storing.stored + Dropped(s) && s.queue.live == []
  {
    OnlyTimeoutCancels(cfg, states, steps, i);
    StopNilAccountsForAll(cfg, states, steps, i);
  }

  /* ---------- Such a run from the start ---------- */

  lemma RunExtend(cfg: Config, states: seq<State>, steps: seq<Step>, step: Step, t: State)
    requires IsRun(cfg, states, steps)
    requires Enabled(states[|steps|], step) && Apply(cfg, states[|steps|], step) == t
    ensures IsRun(cfg, states + [t], steps + [step])
  {
    PathExtend(cfg, states, steps, step, t);
  }

  lemma RunThenPath(cfg: Config, states: seq<State>, steps: seq<Step>, more: seq<State>, next: seq<Step>)
    requires IsRun(cfg, states, steps) && IsPath(cfg, more, next) && more[0] == states[|steps|]
    ensures IsRun(cfg, states + more[1..], steps + next)
    ensures (states + more[1..])[|steps + next|] == more[|next|]
  {
    var all, every := states + more[1..], steps + next;
    forall i | 0 <= i < |every|
      ensures Enabled(all[i], every[i]) && all[i + 1] == Apply(cfg, all[i], every[i])
    {
      if i < |steps| {
        assert all[i] == states[i] && all[i + 1] == states[i + 1] && every[i] == steps[i];
      } else {
        var j := i - |steps|;
        assert all[i] == more[j] && all[i + 1] == more[j + 1] && every[i] == next[j];
      }
    }
  }

  const NONE: multiset<Frame> := multiset{}

  /** The first `k` workers in one state and the others in another. */
  function Mixed(k: nat, n: nat, x: Worker, y: Worker): seq<Worker>
    requires k <= n
  {
    seq(n, i => if i < k then x else y)
  }

  /** Nothing has arrived, and the first `k` workers wait on the first channel. */
  function IdleState(cfg: Config, k: nat): State
    requires k <= cfg.workers
  {
    State(EMPTY, Intake([Outside], NONE, NONE, NONE),
          Parsing(Mixed(k, cfg.workers, Parked(0), Ready), NONE, NONE, []),
          Channel([], false), Storing([], Select, [], NONE, NONE), Control(true, false, NotCalled))
  }

  /** Every worker finds the queue empty and waits. */
  lemma {:induction false} RunToParked(cfg: Config, k: nat) returns (states: seq<State>, steps: seq<Step>)
    requires cfg.Valid() && k <= cfg.workers
    ensures IsRun(cfg, states, steps) && states[|steps|] == IdleState(cfg, k) && ParentAlive(steps)
  {
    if k == 0 {
      states, steps := [IdleState(cfg, 0)], [];
    } else {
      states, steps := RunToParked(cfg, k - 1);
      var step, t := ByWorker(k - 1, DequeuePass), IdleState(cfg, k);
      assert t.parsing.workers == states[|steps|].parsing.workers[k - 1 := Parked(0)];
      RunExtend(cfg, states, steps, step, t);
      states, steps := states + [t], steps + [step];
    }
  }

  /** Then a frame is admitted, and `Stop` closes the queue and waits. */
  lemma RunToStop(cfg: Config, f: Frame) returns (states: seq<State>, steps: seq<Step>)
    requires cfg.Valid() && f.size <= cfg.limits.maxBytes
    ensures IsRun(cfg, states, steps)
    ensures var s := states[|steps|];
            && s.control.stop.AwaitDone? && s.intake.admitted == multiset{f} && !Covered(s)
  {
    states, steps := RunToParked(cfg, cfg.workers);
    var s1 := states[|steps|];
    var s2 := s1.(intake := Intake([Trying(f)], multiset{f}, NONE, NONE));
    RunExtend(cfg, states, steps, ByProducer(0, Arrive(f)), s2);
    states, steps := states + [s2], steps + [ByProducer(0, Arrive(f))];
    assert [] + [f] == [f];
    var s3 := s2.(queue := Queue([f], false, 1), intake := Intake([Outside], multiset{f}, NONE, multiset{f}));
    RunExtend(cfg, states, steps, ByProducer(0, EnqueuePass), s3);
    states, steps := states + [s3], steps + [ByProducer(0, EnqueuePass)];
    var s4 := s3.(control := Control(false, false, Refusing));
    RunExtend(cfg, states, steps, ByStop(Refuse), s4);
    states, steps := states + [s4], steps + [ByStop(Refuse)];
    var s5 := s4.(control := Control(false, false, AwaitDone), queue := Queue([f], true, 2));
    RunExtend(cfg, states, steps, ByStop(CloseQueue), s5);
    states, steps := states + [s5], steps + [ByStop(CloseQueue)];
    NoneReady(s5.parsing.workers);
  }

  /** If one frame was admitted and something is lost, that frame is lost. */
  lemma LoneFrameIsLost(cfg: Config, states: seq<State>, steps: seq<Step>, f: Frame)
    requires IsRun(cfg, states, steps) && Lost(states[|steps|])
    requires states[|steps|].intake.admitted == multiset{f}
    ensures var s := states[|steps|];
            multiset(s.queue.live) == multiset{f} && s.storing.stored == multiset{} && Dropped(s) == multiset{}
  {
    FinishedAccount(cfg, states, steps, |steps|);
    var s := states[|steps|];
    var live := multiset(s.queue.live);
    assert s.queue.live[0] in live;
    forall g ensures live[g] == multiset{f}[g] && s.storing.stored[g] == 0 && Dropped(s)[g] == 0 {
      assert multiset{f}[g] == live[g] + s.storing.stored[g] + Dropped(s)[g];
      assert multiset{f}[s.queue.live[0]] >= live[s.queue.live[0]];
    }
  }

  /** The claim of docs/configuration.md:34 fails: for every configuration and every frame
      that fits, a stop can return with the frame in no counter, with an error after its
      deadline, and even with nil when the parent context was cancelled. */
  lemma StopCanLoseAFrame(cfg: Config, f: Frame, answer: StopCall) returns (states: seq<State>, steps: seq<Step>)
    requires cfg.Valid() && f.size <= cfg.limits.maxBytes && (answer == ReturnedNil || answer == ReturnedErr)
    ensures IsRun(cfg, states, steps)
    ensures var s := states[|steps|];
            && s.control.stop == answer && s.intake.admitted == multiset{f}
            && multiset(s.queue.live) == multiset{f} && s.storing.stored == multiset{} && Dropped(s) == multiset{}
  {
    states, steps := RunToStop(cfg, f);
    RunInv(cfg, states, steps, |steps|);
    var more, next := StopAndLose(cfg, states[|steps|], answer);
    RunThenPath(cfg, states, steps, more, next);
    states, steps := states + more[1..], steps + next;
    LoneFrameIsLost(cfg, states, steps, f);
  }
}
