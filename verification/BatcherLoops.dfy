/**
 The batch worker of the state machine takes the steps of the loops: batching as in
 BatchWorker.dfy, and retrying as in Retry.dfy.
 */
module BatcherLoops {
  import opened Fifo
  import opened Pipeline
  import opened BatchWorker
  import Retry

  /* ---------- Batching ---------- */

  /** The state of the loop's locals, with `handed` flattened. */
  ghost predicate Matches(t: Storing, p: BatchWorker.Progress) {
    t.batcher.Select? && t.batch == p.held && t.handed == Flatten(p.groups)
  }

  /** The end of the append that a flush has started: `PlayIsRetry` shows that every sequence of
      attempts ends like this. */
  function EndAppend(cfg: Config, t: Storing, outcome: Retry.Outcome): Storing {
    if t.batcher.Appending? then Resume(cfg, Settle(t, t.batcher.group, outcome), t.batcher.after) else t
  }

  /** One event can start two appends: one before the entry and one after it. */
  function EndAppends(cfg: Config, t: Storing, first: Retry.Outcome, second: Retry.Outcome): Storing {
    EndAppend(cfg, EndAppend(cfg, t, first), second)
  }

  /** A tick, and the append it starts, is `flush`, whatever becomes of the append. */
  lemma TickIsFlush(cfg: Config, c: Channel, t: Storing, cancelled: bool, p: BatchWorker.Progress,
                    outcome: Retry.Outcome)
    requires Matches(t, p)
    ensures Matches(EndAppend(cfg, BatcherStep(cfg, c, t, cancelled, Tick), outcome), Flushed(p))
  {
    FlattenAppend(p.groups, p.held);
  }

  lemma AddIsGrown(cfg: Config, t: Storing, p: BatchWorker.Progress, e: Frame, outcome: Retry.Outcome)
    requires t.batch == p.held && t.handed == Flatten(p.groups)
    ensures Matches(EndAppend(cfg, Add(cfg, t, e), outcome), Grown(cfg, p, e))
  {
    FlattenAppend(p.groups, p.held + [e]);
  }

  /** A crowded batch is handed over first, and then the entry is added. */
  lemma EndThenAdd(cfg: Config, t: Storing, e: Frame, outcome: Retry.Outcome)
    ensures var t1 := HandOver(t, AddThen(e));
            EndAppend(cfg, t1, outcome) == Add(cfg, Settle(t1, t.batch, outcome), e)
  {
  }

  /** A received entry, and the appends it starts, is one round of the loop, whatever becomes
      of the appends. */
  lemma ReceiveIsJoined(cfg: Config, c: Channel, t: Storing, cancelled: bool, p: BatchWorker.Progress,
                        first: Retry.Outcome, second: Retry.Outcome)
    requires Matches(t, p) && c.entries != []
    ensures Matches(EndAppends(cfg, BatcherStep(cfg, c, t, cancelled, Receive), first, second),
                    Joined(cfg, p, c.entries[0]))
  {
    var e, t1 := c.entries[0], BatcherStep(cfg, c, t, cancelled, Receive);
    if Crowded(cfg, p.held, e) {
      assert t1 == HandOver(t, AddThen(e));
      EndThenAdd(cfg, t, e, first);
      FlattenAppend(p.groups, p.held);
      AddIsGrown(cfg, Settle(t1, t.batch, first), Flushed(p), e, second);
    } else {
      assert t1 == Add(cfg, t, e);
      AddIsGrown(cfg, t, p, e, first);
    }
  }

  /* ---------- Retrying ---------- */

  /** The steps of the state machine for one batch, as the world decides them. */
  function Play(cfg: Config, t: Storing, world: Retry.World, a: nat): Storing
    requires t.batcher.Appending? && t.batcher.attempt == a
    decreases cfg.maxAttempts - a
  {
    var none := Channel([], false);
    if !world.fails(a) then BatcherStep(cfg, none, t, world.done(a), AppendOk)
    else
      var t1 := BatcherStep(cfg, none, t, world.done(a), AppendError);
      if a >= cfg.maxAttempts || !t1.batcher.BackingOff? then t1
      else Play(cfg, BatcherStep(cfg, none, t1, world.done(a), BackoffOver), world, a + 1)
  }

  /** They end as the loop does: the whole batch stored once or dropped once, and then what
      the batch worker was about to do. */
  lemma {:induction false} PlayIsRetry(cfg: Config, t: Storing, p: Retry.Policy, world: Retry.World, a: nat)
    requires cfg.maxAttempts == p.maxAttempts && 1 <= a <= cfg.maxAttempts
    requires t.batcher.Appending? && t.batcher.attempt == a
    ensures Play(cfg, t, world, a) ==
            Resume(cfg, Settle(t, t.batcher.group, Retry.Outcomes(p, world, a).0), t.batcher.after)
    decreases cfg.maxAttempts - a
  {
    if world.fails(a) && a < cfg.maxAttempts && !world.done(a) {
      var t2 := t.(batcher := Appending(t.batcher.group, a + 1, t.batcher.after));
      PlayAgain(cfg, t, world, a);
      PlayIsRetry(cfg, t2, p, world, a + 1);
      ResumeForgetsBatcher(cfg, Settle(t, t.batcher.group, Retry.Outcomes(p, world, a).0), t2.batcher, t.batcher.after);
    } else {
      PlayOnce(cfg, t, world, a);
    }
  }

  /** A failed attempt with others to come leads to the next attempt. */
  lemma PlayAgain(cfg: Config, t: Storing, world: Retry.World, a: nat)
    requires t.batcher.Appending? && t.batcher.attempt == a < cfg.maxAttempts && world.fails(a) && !world.done(a)
    ensures Play(cfg, t, world, a) ==
            Play(cfg, t.(batcher := Appending(t.batcher.group, a + 1, t.batcher.after)), world, a + 1)
  {
    FailsOnce(cfg, t, a);
  }

  lemma FailsOnce(cfg: Config, t: Storing, a: nat)
    requires t.batcher.Appending? && t.batcher.attempt == a < cfg.maxAttempts
    ensures var t1 := BatcherStep(cfg, Channel([], false), t, false, AppendError);
            && t1 == t.(batcher := BackingOff(t.batcher.group, a, t.batcher.after))
            && BatcherStep(cfg, Channel([], false), t1, false, BackoffOver)
               == t.(batcher := Appending(t.batcher.group, a + 1, t.batcher.after))
  {
  }

  /** Any other attempt is the last. */
  lemma PlayOnce(cfg: Config, t: Storing, world: Retry.World, a: nat)
    requires t.batcher.Appending? && t.batcher.attempt == a <= cfg.maxAttempts
    requires !world.fails(a) || a == cfg.maxAttempts || world.done(a)
    ensures var outcome := if world.fails(a) then Retry.Dropped else Retry.Stored;
            Play(cfg, t, world, a) == Resume(cfg, Settle(t, t.batcher.group, outcome), t.batcher.after)
  {
  }

  function Settle(t: Storing, group: seq<Frame>, outcome: Retry.Outcome): Storing {
    match outcome
    case Stored => t.(stored := t.stored + multiset(group))
    case Dropped => t.(drops := t.drops + multiset(group))
  }

  lemma ResumeForgetsBatcher(cfg: Config, t: Storing, b: Batcher, after: After)
    ensures Resume(cfg, t.(batcher := b), after) == Resume(cfg, t, after)
  {
  }
}
