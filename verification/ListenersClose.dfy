/**
 `Close` of the listener manager ends: every step but new traffic lowers a measure.
 */
module ListenersClose {
  import opened Listeners

  /** Steps with which work arrives: a datagram, a connection, a frame read from a connection. */
  predicate Traffic(step: Step) {
    || (step.ByLoop? && (step.loopMove.UdpRead? || step.loopMove.Accept?))
    || (step.ByHandler? && step.handlerMove.Submit?)
  }

  /* ---------- The measure ---------- */

  function PhaseRank(p: Phase): nat {
    match p
    case Gone => 0
    case Released => 1
    case Untracked => 2
    case Returned => 3
    case Serving => 4
    case Submitting => 5
  }

  /** A tracked connection still has to become a handler. */
  function LoopRank(l: Loop): nat {
    match l
    case Left => 0
    case Blocked => 1
    case UdpSubmitting => 2
    case Tracked(_) => 6
    case Acquired(_) => 7
    case Holding(_) => 8
  }

  function LoopsWork(loops: seq<Loop>): nat {
    if loops == [] then 0 else LoopRank(loops[0]) + LoopsWork(loops[1..])
  }

  ghost function HandlersWork(handlers: map<nat, Handler>): nat {
    if handlers == map[] then 0
    else
      var c :| c in handlers;
      PhaseRank(handlers[c].phase) + HandlersWork(handlers - {c})
  }

  ghost function Work(s: State): nat { LoopsWork(s.loops) + HandlersWork(s.handlers) }

  function Stage(c: Closing): nat {
    match c
    case NotCalled => 5
    case ClosingListeners(_) => 4
    case AwaitLoops => 3
    case ClosingConns(_) => 2
    case AwaitHandlers => 1
    case Returned => 0
  }

  function Pending(c: Closing): nat {
    match c case ClosingListeners(listeners) => |listeners| case ClosingConns(conns) => |conns| case _ => 0
  }

  ghost predicate Lowers(s: State, t: State) {
    || Work(t) < Work(s)
    || (Work(t) == Work(s) && Stage(t.close) < Stage(s.close))
    || (Work(t) == Work(s) && Stage(t.close) == Stage(s.close) && Pending(t.close) < Pending(s.close))
  }

  lemma {:induction false} LoopsWorkUpdate(loops: seq<Loop>, i: nat, l: Loop)
    requires i < |loops|
    ensures LoopsWork(loops[i := l]) + LoopRank(loops[i]) == LoopsWork(loops) + LoopRank(l)
  {
    if i == 0 {
      assert loops[i := l][1..] == loops[1..];
    } else {
      assert loops[i := l][1..] == loops[1..][i - 1 := l];
      LoopsWorkUpdate(loops[1..], i - 1, l);
    }
  }

  /** The sum does not depend on which handler is taken out first. */
  lemma {:induction false} HandlersWorkWithout(handlers: map<nat, Handler>, c: nat)
    requires c in handlers
    ensures HandlersWork(handlers) == PhaseRank(handlers[c].phase) + HandlersWork(handlers - {c})
    decreases |handlers|
  {
    var d :| d in handlers && HandlersWork(handlers) == PhaseRank(handlers[d].phase) + HandlersWork(handlers - {d});
    if d != c {
      HandlersWorkWithout(handlers - {d}, c);
      HandlersWorkWithout(handlers - {c}, d);
      assert handlers - {d} - {c} == handlers - {c} - {d};
    }
  }

  lemma HandlersWorkUpdate(handlers: map<nat, Handler>, c: nat, h: Handler)
    ensures HandlersWork(handlers[c := h]) + (if c in handlers then PhaseRank(handlers[c].phase) else 0)
            == HandlersWork(handlers) + PhaseRank(h.phase)
  {
    HandlersWorkWithout(handlers[c := h], c);
    if c in handlers {
      HandlersWorkWithout(handlers, c);
      assert handlers[c := h] - {c} == handlers - {c};
    } else {
      assert handlers[c := h] - {c} == handlers;
    }
  }

  lemma SpawnIsNew(s: State, i: nat)
    requires Places(s) && i < |s.loops| && s.loops[i].Tracked?
    ensures s.loops[i].conn !in s.handlers
  {
  }

  lemma LoopLowers(sources: seq<Source>, s: State, i: nat, m: LoopMove)
    requires Enabled(sources, s, ByLoop(i, m)) && !Traffic(ByLoop(i, m))
    requires m.Spawn? ==> s.loops[i].conn !in s.handlers
    ensures Work(LoopStep(s, i, m, sources[i])) < Work(s)
  {
    var t := LoopStep(s, i, m, sources[i]);
    LoopsWorkUpdate(s.loops, i, t.loops[i]);
    assert t.loops == s.loops[i := t.loops[i]];
    if m.Spawn? {
      HandlersWorkUpdate(s.handlers, s.loops[i].conn, Handler(i, Serving));
    }
  }

  lemma HandlerLowers(sources: seq<Source>, s: State, c: nat, m: HandlerMove)
    requires Enabled(sources, s, ByHandler(c, m)) && !m.Submit?
    ensures Work(HandlerStep(s, c, m)) < Work(s)
  {
    HandlersWorkUpdate(s.handlers, c, HandlerStep(s, c, m).handlers[c]);
  }

  lemma CloseLowers(s: State, m: CloseMove)
    requires CloseCan(s, m)
    ensures Lowers(s, CloseStep(s, m))
  {
  }

  /** Every step but new traffic lowers the measure. */
  lemma StepLowers(sources: seq<Source>, s: State, step: Step)
    requires Inv(sources, s) && Enabled(sources, s, step) && !Traffic(step)
    ensures Lowers(s, Apply(sources, s, step))
  {
    match step
    case ByLoop(i, m) =>
      if m.Spawn? { SpawnIsNew(s, i); }
      LoopLowers(sources, s, i, m);
    case ByHandler(c, m) => HandlerLowers(sources, s, c, m);
    case ByClose(m) => CloseLowers(s, m);
  }

  /** Once every listener is shut, the only traffic left is what handlers have already read. */
  lemma OnlyBufferedTraffic(sources: seq<Source>, s: State, step: Step)
    requires Inv(sources, s) && Enabled(sources, s, step) && Traffic(step)
    requires s.close.AwaitLoops? || LoopsOver(s.close)
    ensures step.ByHandler?
  {
    assert forall i :: 0 <= i < |s.loops| ==> i in s.shutListeners;
  }

  /* ---------- Close returns ---------- */

  predicate Running(s: State) { !s.close.NotCalled? && !s.close.Returned? }

  /** A scheduler may look at the time and the state; while `Close` runs it picks any steps that
      can happen. Traffic may go on until time `quiet`: shut connections hold finite buffers. */
  ghost predicate Schedules(sources: seq<Source>, sched: (nat, State) -> Step, quiet: nat) {
    forall n: nat, s :: Inv(sources, s) && Running(s) ==>
      Enabled(sources, s, sched(n, s)) && (n >= quiet ==> !Traffic(sched(n, s)))
  }

  /** The states that a schedule leads through. */
  ghost predicate Follows(sources: seq<Source>, sched: (nat, State) -> Step, n: nat, states: seq<State>) {
    && states != []
    && forall i :: 0 <= i < |states| - 1 ==>
         Enabled(sources, states[i], sched(n + i, states[i])) &&
         states[i + 1] == Apply(sources, states[i], sched(n + i, states[i]))
  }

  lemma PrependState(sources: seq<Source>, sched: (nat, State) -> Step, n: nat, s: State, rest: seq<State>)
    requires Enabled(sources, s, sched(n, s)) && Follows(sources, sched, n + 1, rest)
    requires rest[0] == Apply(sources, s, sched(n, s))
    ensures Follows(sources, sched, n, [s] + rest)
  {
    var states := [s] + rest;
    forall i | 0 <= i < |states| - 1
      ensures Enabled(sources, states[i], sched(n + i, states[i]))
      ensures states[i + 1] == Apply(sources, states[i], sched(n + i, states[i]))
    {
      if i > 0 {
        assert states[i] == rest[i - 1] && n + i == n + 1 + (i - 1);
      }
    }
  }

  lemma ScheduledStep(sources: seq<Source>, s: State, sched: (nat, State) -> Step, quiet: nat, n: nat)
    requires Inv(sources, s) && Running(s) && Schedules(sources, sched, quiet)
    ensures Enabled(sources, s, sched(n, s))
    ensures var t := Apply(sources, s, sched(n, s));
            Inv(sources, t) && !t.close.NotCalled? && (n >= quiet ==> Lowers(s, t))
  {
    var step := sched(n, s);
    StepInv(sources, s, step);
    if n >= quiet {
      StepLowers(sources, s, step);
    }
  }

  lemma ReturnedLeavesNothing(sources: seq<Source>, s: State)
    requires Inv(sources, s) && s.close.Returned?
    ensures AllLeft(s.loops) && AllGone(s.handlers)
  {
  }

  /** However loops, handlers and `Close` interleave, if traffic stops at some time, `Close`
      returns after finitely many steps, with no reader and no handler left. */
  lemma {:induction false} CloseCompletes(
      sources: seq<Source>, s: State, sched: (nat, State) -> Step, quiet: nat, n: nat)
    returns (states: seq<State>)
    requires Inv(sources, s) && !s.close.NotCalled? && Schedules(sources, sched, quiet)
    ensures Follows(sources, sched, n, states) && states[0] == s
    ensures Inv(sources, states[|states| - 1]) && states[|states| - 1].close.Returned?
    ensures AllLeft(states[|states| - 1].loops) && AllGone(states[|states| - 1].handlers)
    decreases if n < quiet then quiet - n else 0, Work(s), Stage(s.close), Pending(s.close)
  {
    if s.close.Returned? {
      ReturnedLeavesNothing(sources, s);
      return [s];
    }
    ScheduledStep(sources, s, sched, quiet, n);
    var rest := CloseCompletes(sources, Apply(sources, s, sched(n, s)), sched, quiet, n + 1);
    PrependState(sources, sched, n, s, rest);
    states := [s] + rest;
  }
}
