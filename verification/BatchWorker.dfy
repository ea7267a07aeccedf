/**
 The batch worker's own loop, backend/internal/ingestion/pipeline.go:143-186, run on any
 sequence of received entries and timer ticks, with its two local variables.
 */
module BatchWorker {
  import opened Fifo
  import opened Pipeline
  import opened PipelineSafety
  import opened Sequences

  datatype Event = Entry(entry: Frame) | TimerTick

  /** The channel `parsed` is closed, or the context is cancelled with `rest` still to come. */
  datatype End = ChannelClosed | Cancelled(rest: seq<Frame>)

  /** Batches handed to storage, and the batch still held. */
  datatype Progress = Progress(groups: seq<seq<Frame>>, held: seq<Frame>)

  /* ---------- What the loop computes ---------- */

  function EntryOf(event: Event): seq<Frame> {
    if event.Entry? then [event.entry] else []
  }

  function Entries(events: seq<Event>): seq<Frame> {
    if events == [] then [] else Entries(events[..|events| - 1]) + EntryOf(events[|events| - 1])
  }

  function Flatten(groups: seq<seq<Frame>>): seq<Frame> {
    if groups == [] then [] else Flatten(groups[..|groups| - 1]) + groups[|groups| - 1]
  }

  /** `flush`: an empty batch is not handed over. */
  function Flushed(p: Progress): Progress {
    if p.held == [] then p else Progress(p.groups + [p.held], [])
  }

  predicate Crowded(cfg: Config, held: seq<Frame>, entry: Frame) {
    held != [] && (|held| >= cfg.maxBatchEvents || EntryBytes(held) + entry.entrySize > cfg.maxBatchBytes)
  }

  predicate Full(cfg: Config, held: seq<Frame>) {
    |held| >= cfg.maxBatchEvents || EntryBytes(held) >= cfg.maxBatchBytes
  }

  /** An entry joins the held batch, with a flush before it if the batch is crowded and a
      flush after it if the batch is full. */
  function Joined(cfg: Config, p: Progress, entry: Frame): Progress {
    Grown(cfg, if Crowded(cfg, p.held, entry) then Flushed(p) else p, entry)
  }

  function Grown(cfg: Config, p: Progress, entry: Frame): Progress {
    var grown := p.(held := p.held + [entry]);
    if Full(cfg, grown.held) then Flushed(grown) else grown
  }

  function NextProgress(cfg: Config, p: Progress, event: Event): Progress {
    match event case TimerTick => Flushed(p) case Entry(entry) => Joined(cfg, p, entry)
  }

  /** After all events. */
  function Collected(cfg: Config, events: seq<Event>): Progress {
    if events == [] then Progress([], [])
    else NextProgress(cfg, Collected(cfg, events[..|events| - 1]), events[|events| - 1])
  }

  /** What is flushed last: after a cancellation the held batch with everything still to come. */
  function LastBatch(cfg: Config, events: seq<Event>, end: End): seq<Frame> {
    if end.Cancelled? then Collected(cfg, events).held + end.rest else Collected(cfg, events).held
  }

  function AllBatches(cfg: Config, events: seq<Event>, end: End): seq<seq<Frame>> {
    Flushed(Progress(Collected(cfg, events).groups, LastBatch(cfg, events, end))).groups
  }

  /* ---------- Nothing is lost, repeated or reordered ---------- */

  lemma FlattenAppend(groups: seq<seq<Frame>>, g: seq<Frame>)
    ensures Flatten(groups + [g]) == Flatten(groups) + g
  {
    assert (groups + [g])[..|groups|] == groups;
  }

  /** All entries, handed over or held. */
  function Whole(p: Progress): seq<Frame> { Flatten(p.groups) + p.held }

  lemma FlushKeepsWhole(p: Progress)
    ensures Whole(Flushed(p)) == Whole(p)
  {
    FlattenAppend(p.groups, p.held);
  }

  lemma JoinAddsOne(cfg: Config, p: Progress, entry: Frame)
    ensures Whole(Joined(cfg, p, entry)) == Whole(p) + [entry]
  {
    FlushKeepsWhole(p);
    var room := if Crowded(cfg, p.held, entry) then Flushed(p) else p;
    Regroup(Flatten(room.groups), room.held, [entry]);
    FlushKeepsWhole(room.(held := room.held + [entry]));
  }

  lemma {:induction false} CollectedIsWhole(cfg: Config, events: seq<Event>)
    ensures Whole(Collected(cfg, events)) == Entries(events)
  {
    if events != [] {
      var init, last := events[..|events| - 1], events[|events| - 1];
      CollectedIsWhole(cfg, init);
      match last
      case TimerTick => FlushKeepsWhole(Collected(cfg, init));
      case Entry(entry) => JoinAddsOne(cfg, Collected(cfg, init), entry);
    }
  }

  /** The batches joined are exactly the entries received. */
  lemma BatchesAreEntries(cfg: Config, events: seq<Event>, end: End)
    ensures Flatten(AllBatches(cfg, events, end)) == Entries(events) + if end.Cancelled? then end.rest else []
  {
    var p := Collected(cfg, events);
    CollectedIsWhole(cfg, events);
    if end.Cancelled? { Regroup(Flatten(p.groups), p.held, end.rest); }
    var last := Progress(p.groups, LastBatch(cfg, events, end));
    FlushKeepsWhole(last);
    assert Flushed(last).held == [];
    assert Whole(Flushed(last)) == Flatten(Flushed(last).groups);
  }

  /* ---------- Sizes ---------- */

  ghost predicate AllSized(cfg: Config, groups: seq<seq<Frame>>) {
    forall i :: 0 <= i < |groups| ==> BatchSized(cfg, groups[i])
  }

  /** Everything handed over is within the limits and the held batch is strictly under both. */
  ghost predicate UnderLimits(cfg: Config, p: Progress) {
    AllSized(cfg, p.groups) && !Full(cfg, p.held)
  }

  lemma SizedAppend(cfg: Config, groups: seq<seq<Frame>>, g: seq<Frame>)
    requires AllSized(cfg, groups)
    ensures AllSized(cfg, groups + [g]) <==> BatchSized(cfg, g)
  {
    assert (groups + [g])[|groups|] == g;
  }

  lemma FlushWithin(cfg: Config, p: Progress)
    requires cfg.Valid() && AllSized(cfg, p.groups) && (p.held == [] || BatchSized(cfg, p.held))
    ensures UnderLimits(cfg, Flushed(p))
  {
    SizedAppend(cfg, p.groups, p.held);
  }

  lemma JoinWithin(cfg: Config, p: Progress, entry: Frame)
    requires cfg.Valid() && UnderLimits(cfg, p)
    ensures UnderLimits(cfg, Joined(cfg, p, entry))
  {
    var room := if Crowded(cfg, p.held, entry) then Flushed(p) else p;
    if Crowded(cfg, p.held, entry) { FlushWithin(cfg, p); }
    EntryBytesAppend(room.held, entry);
    var grown := room.(held := room.held + [entry]);
    if Full(cfg, grown.held) {
      assert BatchSized(cfg, grown.held);
      FlushWithin(cfg, grown);
    }
  }

  lemma {:induction false} CollectedWithin(cfg: Config, events: seq<Event>)
    requires cfg.Valid()
    ensures UnderLimits(cfg, Collected(cfg, events))
  {
    if events != [] {
      var init := events[..|events| - 1];
      CollectedWithin(cfg, init);
      match events[|events| - 1]
      case TimerTick => FlushWithin(cfg, Collected(cfg, init));
      case Entry(entry) => JoinWithin(cfg, Collected(cfg, init), entry);
    }
  }

  /* ---------- No batch is flushed early ---------- */

  /** What an entry does to the held batch, on the limits alone: it just joins it if and only if
      the batch with the entry stays strictly under both, and whatever is handed over had reached
      a limit or could not take the entry. */
  lemma FlushedOnlyAtLimit(cfg: Config, p: Progress, entry: Frame)
    requires !Full(cfg, p.held)
    ensures var r, both := Joined(cfg, p, entry), p.held + [entry];
            && (r == Progress(p.groups, both) <==>
                  |both| < cfg.maxBatchEvents && EntryBytes(both) < cfg.maxBatchBytes)
            && p.groups <= r.groups
            && (forall i :: |p.groups| <= i < |r.groups| ==>
                  || |r.groups[i]| >= cfg.maxBatchEvents
                  || EntryBytes(r.groups[i]) >= cfg.maxBatchBytes
                  || (r.groups[i] == p.held && EntryBytes(both) > cfg.maxBatchBytes))
  {
    EntryBytesAppend(p.held, entry);
    if Crowded(cfg, p.held, entry) {
      assert |Joined(cfg, p, entry).groups| > |p.groups|;
    }
  }

  lemma {:induction false} EntryBytesOfPrefix(entries: seq<Frame>, more: seq<Frame>)
    ensures EntryBytes(entries) <= EntryBytes(entries + more)
  {
    if more == [] {
      assert entries + more == entries;
    } else {
      var n := |more| - 1;
      EntryBytesOfPrefix(entries, more[..n]);
      EntryBytesAppend(entries + more[..n], more[n]);
      assert entries + more == entries + more[..n] + [more[n]];
    }
  }

  /** Entries that together stay strictly under both limits are held in one batch, without a tick. */
  lemma {:induction false} SmallEntriesStayTogether(cfg: Config, events: seq<Event>)
    requires cfg.Valid() && forall i :: 0 <= i < |events| ==> events[i].Entry?
    requires |events| < cfg.maxBatchEvents && EntryBytes(Entries(events)) < cfg.maxBatchBytes
    ensures |Entries(events)| == |events| && Collected(cfg, events) == Progress([], Entries(events))
  {
    if events != [] {
      var init, entry := events[..|events| - 1], events[|events| - 1].entry;
      EntryBytesOfPrefix(Entries(init), [entry]);
      SmallEntriesStayTogether(cfg, init);
      CollectedWithin(cfg, init);
      FlushedOnlyAtLimit(cfg, Collected(cfg, init), entry);
    }
  }

  /** Every batch is within the limits if and only if the end is no cancellation, or the held
      batch with all that was still to come is empty or within the limits itself. */
  lemma SizedIff(cfg: Config, events: seq<Event>, end: End)
    requires cfg.Valid()
    ensures AllSized(cfg, AllBatches(cfg, events, end)) <==>
            || end.ChannelClosed?
            || Collected(cfg, events).held + end.rest == []
            || BatchSized(cfg, Collected(cfg, events).held + end.rest)
  {
    CollectedWithin(cfg, events);
    var p, last := Collected(cfg, events), LastBatch(cfg, events, end);
    SizedAppend(cfg, p.groups, last);
    assert end.ChannelClosed? ==> last == p.held;
  }

  /* ---------- The loop ---------- */

  /** The locals `batch` and `batchBytes`, and what was handed over. */
  ghost predicate Tracks(p: Progress, groups: seq<seq<Frame>>, batch: seq<Frame>, batchBytes: int) {
    p == Progress(groups, batch) && batchBytes == EntryBytes(batch)
  }

  method Flush(groups: seq<seq<Frame>>, batch: seq<Frame>, batchBytes: int)
    returns (groups': seq<seq<Frame>>, batch': seq<Frame>, bytes': int)
    requires batchBytes == EntryBytes(batch)
    ensures Tracks(Flushed(Progress(groups, batch)), groups', batch', bytes')
  {
    groups', batch', bytes' := groups, batch, batchBytes;
    if |batch| == 0 {
      return;
    }
    groups', batch', bytes' := groups + [batch], [], 0;
  }

  /** One received entry. */
  method AddEntry(cfg: Config, groups: seq<seq<Frame>>, batch: seq<Frame>, batchBytes: int, entry: Frame)
    returns (groups': seq<seq<Frame>>, batch': seq<Frame>, bytes': int)
    requires batchBytes == EntryBytes(batch)
    ensures Tracks(Joined(cfg, Progress(groups, batch), entry), groups', batch', bytes')
  {
    groups', batch', bytes' := groups, batch, batchBytes;
    if |batch| > 0 && (|batch| >= cfg.maxBatchEvents || batchBytes + entry.entrySize > cfg.maxBatchBytes) {
      groups', batch', bytes' := Flush(groups, batch, batchBytes);
    }
    groups', batch', bytes' := Append(cfg, groups', batch', bytes', entry);
  }

  method Append(cfg: Config, groups: seq<seq<Frame>>, batch: seq<Frame>, batchBytes: int, entry: Frame)
    returns (groups': seq<seq<Frame>>, batch': seq<Frame>, bytes': int)
    requires batchBytes == EntryBytes(batch)
    ensures Tracks(Grown(cfg, Progress(groups, batch), entry), groups', batch', bytes')
  {
    EntryBytesAppend(batch, entry);
    groups', batch', bytes' := groups, batch + [entry], batchBytes + entry.entrySize;
    if |batch'| >= cfg.maxBatchEvents || bytes' >= cfg.maxBatchBytes {
      groups', batch', bytes' := Flush(groups', batch', bytes');
    }
  }

  /** The loop over received entries and timer ticks. */
  method Collect(cfg: Config, events: seq<Event>) returns (groups: seq<seq<Frame>>, batch: seq<Frame>, batchBytes: int)
    ensures Tracks(Collected(cfg, events), groups, batch, batchBytes)
  {
    groups, batch, batchBytes := [], [], 0;
    for n := 0 to |events|
      invariant Tracks(Collected(cfg, events[..n]), groups, batch, batchBytes)
    {
      assert events[..n + 1][..n] == events[..n];
      match events[n]
      case TimerTick => groups, batch, batchBytes := Flush(groups, batch, batchBytes);
      case Entry(entry) => groups, batch, batchBytes := AddEntry(cfg, groups, batch, batchBytes, entry);
    }
    assert events[..|events|] == events;
  }

  /** The cancel drain: everything still to come goes into one batch. */
  method Drain(batch: seq<Frame>, rest: seq<Frame>) returns (all: seq<Frame>)
    ensures all == batch + rest
  {
    all := batch;
    for k := 0 to |rest|
      invariant all == batch + rest[..k]
    {
      all := all + [rest[k]];
    }
    assert rest[..|rest|] == rest;
  }

  /** The batches that a whole run of the worker hands over, and the last of them by name. */
  method RunBatchWorker(cfg: Config, events: seq<Event>, end: End) returns (groups: seq<seq<Frame>>)
    requires cfg.Valid()
    ensures groups == AllBatches(cfg, events, end)
    ensures Flatten(groups) == Entries(events) + if end.Cancelled? then end.rest else []
    ensures LastBatch(cfg, events, end) != [] ==> groups != [] && groups[|groups| - 1] == LastBatch(cfg, events, end)
  {
    var collected, batch, batchBytes := Collect(cfg, events);
    BatchesAreEntries(cfg, events, end);
    groups := collected;
    if end.Cancelled? {
      batch := Drain(batch, end.rest);
    }
    if |batch| > 0 {
      groups := groups + [batch];
    }
  }
}
