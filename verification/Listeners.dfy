/**
 The listener manager of backend/internal/transport/syslog/manager.go as a protocol: UDP
 readers, TCP accept loops with a connection limit, connection handlers, and `Close`.
 */
module Listeners {
  import opened Sequences

  datatype Source = Udp | Tcp(maxConnections: nat)

  /** A UDP reader or TCP accept loop: in the blocking call, calling `Submit` (UDP), holding
      an accepted connection, past the semaphore, past `trackConnection`, or returned. */
  datatype Loop = Blocked | UdpSubmitting | Holding(conn: nat) | Acquired(conn: nat) | Tracked(conn: nat) | Left

  /** A connection's goroutine: reading, calling `Submit`, then its deferred calls one by one. */
  datatype Phase = Serving | Submitting | Returned | Untracked | Released | Gone

  datatype Handler = Handler(source: nat, phase: Phase)

  datatype Closing =
    | NotCalled
    | ClosingListeners(listeners: set<nat>)
    | AwaitLoops
    | ClosingConns(conns: set<nat>)
    | AwaitHandlers
    | Returned

  datatype State = State(
    loops: seq<Loop>,
    handlers: map<nat, Handler>,
    slots: seq<set<nat>>,       // who holds the semaphore of each source
    tracked: set<nat>,          // Manager.conns
    shutListeners: set<nat>,
    shutConns: set<nat>,
    owner: map<nat, nat>,       // the source of every connection ever accepted
    close: Closing)

  datatype LoopMove = UdpRead | UdpDone | Accept(conn: nat) | Acquire | Refuse | Track | Spawn | Leave

  datatype HandlerMove = Submit | SubmitDone | Finish | Untrack | Release | Exit

  datatype CloseMove =
    | CallClose | ShutListener(listener: nat) | ListenersShut | LoopsDone
    | ShutConn(conn: nat) | ConnsShut | HandlersDone

  datatype Step =
    | ByLoop(i: nat, loopMove: LoopMove)
    | ByHandler(c: nat, handlerMove: HandlerMove)
    | ByClose(closeMove: CloseMove)

  function Capacity(source: Source): nat { if source.Tcp? then source.maxConnections else 0 }

  function UpTo(n: nat): (all: set<nat>)
    ensures forall i: nat :: i in all <==> i < n
  {
    if n == 0 then {} else UpTo(n - 1) + {n - 1}
  }

  ghost predicate Init(sources: seq<Source>, s: State) {
    && |s.loops| == |s.slots| == |sources|
    && (forall i :: 0 <= i < |sources| ==> s.loops[i] == Blocked && s.slots[i] == {})
    && s.handlers == map[] && s.tracked == {} && s.shutListeners == {} && s.shutConns == {} && s.owner == map[]
    && s.close == NotCalled
  }

  predicate LoopCan(source: Source, s: State, i: nat, m: LoopMove)
    requires i < |s.loops| == |s.slots|
  {
    var l := s.loops[i];
    match m
    case UdpRead => l.Blocked? && source.Udp? && i !in s.shutListeners
    case UdpDone => l.UdpSubmitting?
    case Accept(c) => l.Blocked? && source.Tcp? && i !in s.shutListeners && c !in s.owner
    case Acquire => l.Holding? && |s.slots[i]| < Capacity(source)
    case Refuse => l.Holding? && |s.slots[i]| >= Capacity(source)
    case Track => l.Acquired?
    case Spawn => l.Tracked?
    case Leave => l.Blocked?
  }

  function LoopStep(s: State, i: nat, m: LoopMove, source: Source): State
    requires i < |s.loops| == |s.slots| && LoopCan(source, s, i, m)
  {
    match m
    case UdpRead => s.(loops := s.loops[i := UdpSubmitting])
    case UdpDone => s.(loops := s.loops[i := Blocked])
    case Accept(c) => s.(loops := s.loops[i := Holding(c)], owner := s.owner[c := i])
    case Acquire =>
      s.(loops := s.loops[i := Acquired(s.loops[i].conn)], slots := s.slots[i := s.slots[i] + {s.loops[i].conn}])
    case Refuse => s.(loops := s.loops[i := Blocked])
    case Track => s.(loops := s.loops[i := Tracked(s.loops[i].conn)], tracked := s.tracked + {s.loops[i].conn})
    case Spawn =>
      s.(loops := s.loops[i := Blocked], handlers := s.handlers[s.loops[i].conn := Handler(i, Serving)])
    case Leave => s.(loops := s.loops[i := Left])
  }

  predicate HandlerCan(p: Phase, m: HandlerMove) {
    match m
    case Submit => p == Serving
    case SubmitDone => p == Submitting
    case Finish => p == Serving || p == Submitting
    case Untrack => p == Phase.Returned
    case Release => p == Untracked
    case Exit => p == Released
  }

  function NextPhase(m: HandlerMove): Phase {
    match m
    case Submit => Submitting
    case SubmitDone => Serving
    case Finish => Phase.Returned
    case Untrack => Untracked
    case Release => Released
    case Exit => Gone
  }

  function HandlerStep(s: State, c: nat, m: HandlerMove): State
    requires c in s.handlers && s.handlers[c].source < |s.slots|
  {
    var i := s.handlers[c].source;
    s.(handlers := s.handlers[c := Handler(i, NextPhase(m))],
       tracked := if m.Untrack? then s.tracked - {c} else s.tracked,
       slots := if m.Release? then s.slots[i := s.slots[i] - {c}] else s.slots)
  }

  predicate AllLeft(loops: seq<Loop>) { forall i :: 0 <= i < |loops| ==> loops[i].Left? }

  predicate AllGone(handlers: map<nat, Handler>) { forall c :: c in handlers ==> handlers[c].phase.Gone? }

  predicate CloseCan(s: State, m: CloseMove) {
    match m
    case CallClose => s.close.NotCalled?
    case ShutListener(i) => s.close.ClosingListeners? && i in s.close.listeners
    case ListenersShut => s.close.ClosingListeners? && s.close.listeners == {}
    case LoopsDone => s.close.AwaitLoops? && AllLeft(s.loops)
    case ShutConn(c) => s.close.ClosingConns? && c in s.close.conns
    case ConnsShut => s.close.ClosingConns? && s.close.conns == {}
    case HandlersDone => s.close.AwaitHandlers? && AllGone(s.handlers)
  }

  function CloseStep(s: State, m: CloseMove): State
    requires CloseCan(s, m)
  {
    match m
    case CallClose => s.(close := ClosingListeners(UpTo(|s.loops|)))
    case ShutListener(i) =>
      s.(shutListeners := s.shutListeners + {i}, close := ClosingListeners(s.close.listeners - {i}))
    case ListenersShut => s.(close := AwaitLoops)
    case LoopsDone => s.(close := ClosingConns(s.tracked))
    case ShutConn(c) => s.(shutConns := s.shutConns + {c}, close := ClosingConns(s.close.conns - {c}))
    case ConnsShut => s.(close := AwaitHandlers)
    case HandlersDone => s.(close := Closing.Returned)
  }

  predicate Enabled(sources: seq<Source>, s: State, step: Step) {
    |s.loops| == |s.slots| == |sources| &&
    match step
    case ByLoop(i, m) => i < |s.loops| && LoopCan(sources[i], s, i, m)
    case ByHandler(c, m) => c in s.handlers && s.handlers[c].source < |s.slots| && HandlerCan(s.handlers[c].phase, m)
    case ByClose(m) => CloseCan(s, m)
  }

  function Apply(sources: seq<Source>, s: State, step: Step): State
    requires Enabled(sources, s, step)
  {
    match step
    case ByLoop(i, m) => LoopStep(s, i, m, sources[i])
    case ByHandler(c, m) => HandlerStep(s, c, m)
    case ByClose(m) => CloseStep(s, m)
  }

  ghost predicate IsRun(sources: seq<Source>, states: seq<State>, steps: seq<Step>) {
    && |states| == |steps| + 1 && Init(sources, states[0])
    && forall i :: 0 <= i < |steps| ==>
         Enabled(sources, states[i], steps[i]) && states[i + 1] == Apply(sources, states[i], steps[i])
  }

  /* ---------- The invariant ---------- */

  /** The connection a loop has in its hands. */
  predicate InLoop(l: Loop) { l.Holding? || l.Acquired? || l.Tracked? }

  /** A handler that still has its connection open or its bookkeeping to undo. */
  predicate HoldsTrack(p: Phase) { p == Serving || p == Submitting || p == Phase.Returned }

  predicate HoldsSlot(p: Phase) { HoldsTrack(p) || p == Untracked }

  predicate LoopsOver(c: Closing) { c.ClosingConns? || c.AwaitHandlers? || c.Returned? }

  /** Connections are in one place only: in one loop, or with a handler. */
  ghost predicate Places(s: State) {
    && (forall i :: 0 <= i < |s.loops| && InLoop(s.loops[i]) ==>
          var c := s.loops[i].conn; c in s.owner && s.owner[c] == i && c !in s.handlers)
    && (forall c :: c in s.handlers ==> c in s.owner && s.owner[c] == s.handlers[c].source < |s.loops|)
  }

  /** Exactly the connections between `trackConnection` and `untrackConnection` are tracked. */
  ghost predicate Tracking(s: State) {
    && (forall c :: c in s.handlers ==> (c in s.tracked <==> HoldsTrack(s.handlers[c].phase)))
    && (forall i :: 0 <= i < |s.loops| && InLoop(s.loops[i]) ==>
          (s.loops[i].conn in s.tracked <==> s.loops[i].Tracked?))
  }

  /** Every connection past the semaphore holds a slot of its source. */
  ghost predicate Slots(s: State)
    requires |s.loops| == |s.slots|
  {
    && (forall i :: 0 <= i < |s.loops| && (s.loops[i].Acquired? || s.loops[i].Tracked?) ==>
          s.loops[i].conn in s.slots[i])
    && (forall c :: c in s.handlers && HoldsSlot(s.handlers[c].phase) && s.handlers[c].source < |s.slots| ==>
          c in s.slots[s.handlers[c].source])
    && (forall c :: c in s.tracked ==> c in s.owner && s.owner[c] < |s.slots| && c in s.slots[s.owner[c]])
  }

  /** Nothing stays tracked once its connection is gone. */
  ghost predicate NoStaleTrack(s: State) {
    forall c :: c in s.tracked ==>
      c in s.owner && s.owner[c] < |s.loops| && (c in s.handlers || s.loops[s.owner[c]] == Tracked(c))
  }

  ghost predicate HasSlot(s: State, i: nat, c: nat)
    requires i < |s.loops|
  {
    || s.loops[i] == Acquired(c) || s.loops[i] == Tracked(c)
    || (c in s.handlers && s.handlers[c].source == i && HoldsSlot(s.handlers[c].phase))
  }

  /** And no slot stays taken. */
  ghost predicate NoLeak(s: State)
    requires |s.loops| == |s.slots|
  {
    forall i, c :: 0 <= i < |s.slots| && c in s.slots[i] ==> HasSlot(s, i, c)
  }

  /** A source never gives out more slots than it has. */
  ghost predicate SlotLimit(sources: seq<Source>, s: State)
    requires |s.slots| == |sources|
  {
    forall i :: 0 <= i < |s.slots| ==> |s.slots[i]| <= Capacity(sources[i])
  }

  ghost predicate CloseOrder(s: State) {
    && (s.close.ClosingListeners? ==>
          forall i :: 0 <= i < |s.loops| ==> i in s.close.listeners || i in s.shutListeners)
    && (s.close.AwaitLoops? || LoopsOver(s.close) ==> forall i :: 0 <= i < |s.loops| ==> i in s.shutListeners)
    && (LoopsOver(s.close) ==> AllLeft(s.loops))
    && (s.close.ClosingConns? ==>
          forall c :: c in s.handlers && HoldsTrack(s.handlers[c].phase) ==> c in s.close.conns || c in s.shutConns)
    && (s.close.AwaitHandlers? ==>
          forall c :: c in s.handlers && HoldsTrack(s.handlers[c].phase) ==> c in s.shutConns)
    && (s.close.Returned? ==> AllGone(s.handlers))
  }

  ghost predicate Inv(sources: seq<Source>, s: State) {
    && |s.loops| == |s.slots| == |sources|
    && (forall i :: 0 <= i < |sources| && sources[i].Udp? ==> !InLoop(s.loops[i]))
    && (forall i :: 0 <= i < |sources| && sources[i].Tcp? ==> !s.loops[i].UdpSubmitting?)
    && Places(s) && Tracking(s) && Slots(s) && NoStaleTrack(s) && NoLeak(s) && SlotLimit(sources, s) && CloseOrder(s)
  }

  lemma InitInv(sources: seq<Source>, s: State)
    requires Init(sources, s)
    ensures Inv(sources, s)
  {
  }

  lemma LoopPlaces(sources: seq<Source>, s: State, i: nat, m: LoopMove)
    requires |s.loops| == |s.slots| == |sources| && Places(s) && Enabled(sources, s, ByLoop(i, m))
    ensures Places(LoopStep(s, i, m, sources[i]))
  {
  }

  lemma LoopTracking(sources: seq<Source>, s: State, i: nat, m: LoopMove)
    requires |s.loops| == |s.slots| == |sources| && Places(s) && Tracking(s) && Slots(s)
    requires Enabled(sources, s, ByLoop(i, m))
    ensures Tracking(LoopStep(s, i, m, sources[i]))
  {
    var t := LoopStep(s, i, m, sources[i]);
    assert forall c :: c in s.tracked ==> c in s.owner;
    assert m.Track? ==>
        forall j :: 0 <= j < |s.loops| && j != i && InLoop(s.loops[j]) ==> s.loops[j].conn != s.loops[i].conn;
  }

  lemma LoopSlots(sources: seq<Source>, s: State, i: nat, m: LoopMove)
    requires |s.loops| == |s.slots| == |sources| && Places(s) && Slots(s) && Enabled(sources, s, ByLoop(i, m))
    ensures Slots(LoopStep(s, i, m, sources[i]))
  {
    var t := LoopStep(s, i, m, sources[i]);
    assert forall j :: 0 <= j < |s.slots| ==> s.slots[j] <= t.slots[j];
  }

  lemma LoopNoStaleTrack(sources: seq<Source>, s: State, i: nat, m: LoopMove)
    requires |s.loops| == |s.slots| == |sources| && Places(s) && NoStaleTrack(s) && Enabled(sources, s, ByLoop(i, m))
    ensures NoStaleTrack(LoopStep(s, i, m, sources[i]))
  {
  }

  lemma LoopNoLeak(sources: seq<Source>, s: State, i: nat, m: LoopMove)
    requires |s.loops| == |s.slots| == |sources| && Places(s) && NoLeak(s) && Enabled(sources, s, ByLoop(i, m))
    ensures NoLeak(LoopStep(s, i, m, sources[i]))
  {
  }

  lemma LoopSlotLimit(sources: seq<Source>, s: State, i: nat, m: LoopMove)
    requires |s.loops| == |s.slots| == |sources| && SlotLimit(sources, s) && Enabled(sources, s, ByLoop(i, m))
    ensures SlotLimit(sources, LoopStep(s, i, m, sources[i]))
  {
    if m.Acquire? {
      assert |s.slots[i] + {s.loops[i].conn}| <= |s.slots[i]| + 1;
    }
  }

  lemma LoopCloseOrder(sources: seq<Source>, s: State, i: nat, m: LoopMove)
    requires |s.loops| == |s.slots| == |sources| && CloseOrder(s) && Enabled(sources, s, ByLoop(i, m))
    ensures CloseOrder(LoopStep(s, i, m, sources[i]))
  {
    assert !s.loops[i].Left?;
    assert !LoopsOver(s.close);
  }

  lemma LoopInv(sources: seq<Source>, s: State, i: nat, m: LoopMove)
    requires Inv(sources, s) && Enabled(sources, s, ByLoop(i, m))
    ensures Inv(sources, LoopStep(s, i, m, sources[i]))
  {
    LoopPlaces(sources, s, i, m);
    LoopTracking(sources, s, i, m);
    LoopSlots(sources, s, i, m);
    LoopNoStaleTrack(sources, s, i, m);
    LoopNoLeak(sources, s, i, m);
    LoopSlotLimit(sources, s, i, m);
    LoopCloseOrder(sources, s, i, m);
  }

  lemma HandlerPlacesAndTracking(sources: seq<Source>, s: State, c: nat, m: HandlerMove)
    requires |s.loops| == |s.slots| == |sources| && Places(s) && Tracking(s) && Enabled(sources, s, ByHandler(c, m))
    ensures Places(HandlerStep(s, c, m)) && Tracking(HandlerStep(s, c, m))
  {
  }

  lemma HandlerSlots(sources: seq<Source>, s: State, c: nat, m: HandlerMove)
    requires |s.loops| == |s.slots| == |sources| && Places(s) && Tracking(s) && Slots(s)
    requires Enabled(sources, s, ByHandler(c, m))
    ensures Slots(HandlerStep(s, c, m))
  {
  }

  lemma HandlerSlotLimit(sources: seq<Source>, s: State, c: nat, m: HandlerMove)
    requires |s.loops| == |s.slots| == |sources| && SlotLimit(sources, s) && Enabled(sources, s, ByHandler(c, m))
    ensures SlotLimit(sources, HandlerStep(s, c, m))
  {
    var i := s.handlers[c].source;
    SubsetSize(HandlerStep(s, c, m).slots[i], s.slots[i]);
  }

  lemma HandlerNoLeak(sources: seq<Source>, s: State, c: nat, m: HandlerMove)
    requires |s.loops| == |s.slots| == |sources| && Places(s) && NoLeak(s) && Enabled(sources, s, ByHandler(c, m))
    ensures NoLeak(HandlerStep(s, c, m))
  {
  }

  lemma HandlerInv(sources: seq<Source>, s: State, c: nat, m: HandlerMove)
    requires Inv(sources, s) && Enabled(sources, s, ByHandler(c, m))
    ensures Inv(sources, HandlerStep(s, c, m))
  {
    HandlerPlacesAndTracking(sources, s, c, m);
    HandlerSlots(sources, s, c, m);
    HandlerSlotLimit(sources, s, c, m);
    HandlerNoLeak(sources, s, c, m);
  }

  /** `Close` touches neither loops, handlers, slots nor the tracked set. */
  lemma CloseFrame(sources: seq<Source>, s: State, t: State)
    requires Inv(sources, s)
    requires t.(shutListeners := s.shutListeners, shutConns := s.shutConns, close := s.close) == s
    ensures Places(t) && Tracking(t) && NoStaleTrack(t)
    ensures |t.loops| == |t.slots| == |sources| && Slots(t) && NoLeak(t) && SlotLimit(sources, t)
  {
  }

  lemma CloseCloseOrder(s: State, m: CloseMove)
    requires CloseOrder(s) && Tracking(s) && CloseCan(s, m)
    ensures CloseOrder(CloseStep(s, m))
  {
  }

  lemma CloseInv(sources: seq<Source>, s: State, m: CloseMove)
    requires Inv(sources, s) && CloseCan(s, m)
    ensures Inv(sources, CloseStep(s, m))
  {
    CloseFrame(sources, s, CloseStep(s, m));
    CloseCloseOrder(s, m);
  }

  lemma StepInv(sources: seq<Source>, s: State, step: Step)
    requires Inv(sources, s) && Enabled(sources, s, step)
    ensures Inv(sources, Apply(sources, s, step))
  {
    match step
    case ByLoop(i, m) => LoopInv(sources, s, i, m);
    case ByHandler(c, m) => HandlerInv(sources, s, c, m);
    case ByClose(m) => CloseInv(sources, s, m);
  }

  lemma {:induction false} RunInv(sources: seq<Source>, states: seq<State>, steps: seq<Step>, n: nat)
    requires IsRun(sources, states, steps) && n < |states|
    ensures Inv(sources, states[n])
  {
    if n == 0 {
      InitInv(sources, states[0]);
    } else {
      RunInv(sources, states, steps, n - 1);
      StepInv(sources, states[n - 1], steps[n - 1]);
    }
  }

  /* ---------- Main results ---------- */

  /** The tracked connections of one source. */
  function TrackedOf(s: State, i: nat): set<nat> {
    set c | c in s.tracked && c in s.owner && s.owner[c] == i
  }

  /** In every state of every run a source has at most MaxConnections tracked connections. */
  lemma ConnectionLimit(sources: seq<Source>, states: seq<State>, steps: seq<Step>, n: nat, i: nat)
    requires IsRun(sources, states, steps) && n < |states| && i < |sources|
    ensures |TrackedOf(states[n], i)| <= Capacity(sources[i])
  {
    RunInv(sources, states, steps, n);
    SubsetSize(TrackedOf(states[n], i), states[n].slots[i]);
  }

  /** A connection is turned away only while MaxConnections others of the same source are past
      the semaphore with a handler that has yet to release its slot: no slot is ever lost. */
  lemma RefusedOnlyWhenFull(sources: seq<Source>, states: seq<State>, steps: seq<Step>, n: nat, i: nat)
    requires IsRun(sources, states, steps) && n < |steps| && steps[n] == ByLoop(i, Refuse)
    ensures i < |sources| && |states[n].slots[i]| == Capacity(sources[i])
    ensures forall c :: c in states[n].slots[i] ==>
              c in states[n].handlers && states[n].handlers[c].source == i && HoldsSlot(states[n].handlers[c].phase)
  {
    RunInv(sources, states, steps, n);
    assert Enabled(sources, states[n], steps[n]);
  }

  lemma AfterLoops(sources: seq<Source>, s: State, step: Step)
    requires Inv(sources, s) && Enabled(sources, s, step) && LoopsOver(s.close)
    ensures var t := Apply(sources, s, step);
            LoopsOver(t.close) && t.tracked <= s.tracked && t.handlers.Keys == s.handlers.Keys
  {
  }

  /** Once the accept loops are done, the tracked connections only become fewer and no new
      handler starts, so the snapshot that `Close` takes covers every connection still open. */
  lemma SnapshotCovers(sources: seq<Source>, states: seq<State>, steps: seq<Step>, n: nat)
    requires IsRun(sources, states, steps) && n < |steps|
    ensures LoopsOver(states[n].close) ==>
              && LoopsOver(states[n + 1].close) && states[n + 1].tracked <= states[n].tracked
              && states[n + 1].handlers.Keys == states[n].handlers.Keys
    ensures steps[n] == ByClose(LoopsDone) ==>
              && states[n + 1].close == ClosingConns(states[n].tracked)
              && forall c :: c in states[n].handlers && HoldsTrack(states[n].handlers[c].phase) ==>
                   c in states[n].tracked
  {
    RunInv(sources, states, steps, n);
    if LoopsOver(states[n].close) {
      AfterLoops(sources, states[n], steps[n]);
    }
  }

  /** Steps that wait for a peer: new traffic, a failing listener that is still open, and the
      end of a connection that is still open. */
  predicate NeedsPeer(s: State, step: Step) {
    match step
    case ByLoop(i, m) => m.UdpRead? || m.Accept? || (m.Leave? && i !in s.shutListeners)
    case ByHandler(c, m) => m.Submit? || (m.Finish? && c !in s.shutConns)
    case ByClose(_) => false
  }

  lemma LoopProgress(sources: seq<Source>, s: State, i: nat) returns (m: LoopMove)
    requires Inv(sources, s) && s.close.AwaitLoops? && i < |s.loops| && !s.loops[i].Left?
    ensures Enabled(sources, s, ByLoop(i, m)) && !NeedsPeer(s, ByLoop(i, m))
  {
    match s.loops[i]
    case Blocked => m := Leave;
    case UdpSubmitting => m := UdpDone;
    case Holding(_) => m := if |s.slots[i]| < Capacity(sources[i]) then Acquire else Refuse;
    case Acquired(_) => m := Track;
    case Tracked(_) => m := Spawn;
  }

  lemma HandlerProgress(sources: seq<Source>, s: State, c: nat) returns (m: HandlerMove)
    requires Inv(sources, s) && s.close.AwaitHandlers? && c in s.handlers && !s.handlers[c].phase.Gone?
    ensures Enabled(sources, s, ByHandler(c, m)) && !NeedsPeer(s, ByHandler(c, m))
  {
    match s.handlers[c].phase
    case Serving => m := Finish;
    case Submitting => m := SubmitDone;
    case Returned => m := Untrack;
    case Untracked => m := Release;
    case Released => m := Exit;
  }

  /** `Close` cannot get stuck: until it returns there is a step that no peer has to make
      happen. */
  lemma CloseProgress(sources: seq<Source>, states: seq<State>, steps: seq<Step>, n: nat) returns (step: Step)
    requires IsRun(sources, states, steps) && n < |states|
    requires !states[n].close.NotCalled? && !states[n].close.Returned?
    ensures Enabled(sources, states[n], step) && !NeedsPeer(states[n], step)
  {
    RunInv(sources, states, steps, n);
    var s := states[n];
    match s.close
    case ClosingListeners(listeners) =>
      if i :| i in listeners { step := ByClose(ShutListener(i)); } else { step := ByClose(ListenersShut); }
    case AwaitLoops =>
      if i :| 0 <= i < |s.loops| && !s.loops[i].Left? {
        var m := LoopProgress(sources, s, i);
        step := ByLoop(i, m);
      } else {
        step := ByClose(LoopsDone);
      }
    case ClosingConns(conns) =>
      if c :| c in conns { step := ByClose(ShutConn(c)); } else { step := ByClose(ConnsShut); }
    case AwaitHandlers =>
      if c :| c in s.handlers && !s.handlers[c].phase.Gone? {
        var m := HandlerProgress(sources, s, c);
        step := ByHandler(c, m);
      } else {
        step := ByClose(HandlersDone);
      }
  }

  /** When `Close` has returned, no reader and no handler is left and none can start: nothing
      calls `Submit` any more, so main.go may stop the pipeline. */
  lemma NoSubmitAfterClose(sources: seq<Source>, states: seq<State>, steps: seq<Step>, n: nat)
    requires IsRun(sources, states, steps) && n < |states| && states[n].close.Returned?
    ensures AllLeft(states[n].loops) && AllGone(states[n].handlers) && states[n].tracked == {}
    ensures forall slots :: slots in states[n].slots ==> slots == {}
    ensures forall step :: !Enabled(sources, states[n], step)
    ensures n == |steps|
  {
    RunInv(sources, states, steps, n);
  }
}
