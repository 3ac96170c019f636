/** The whole pipeline: senders, bounded channel, actor, concurrent writers, table and log. */
module SiemRuns {
  import opened Basics
  import opened SiemBatching

  const CAPACITY: nat := 100

  /** A spawned `write_batch`, between two awaits. `applied` is whether the batch is in the
      table, `lines` how much of it is in the log. */
  datatype Writer =
    | Starting
    | Inserting(rows: nat)
    | Dumping(lines: nat, applied: bool)
    | Finished(lines: nat, applied: bool, walFailed: bool)

  datatype Result = Good | Bad | Unconfirmed

  /** The actor loops, or awaits the write of its final batch, or has returned, with the number
      of the write it awaited if there was one. */
  datatype Mode = Looping | Awaiting(writer: nat) | Returned(awaited: Option<nat>)

  /** `since` holds, for every buffered event, when it entered the buffer. */
  datatype System = System(config: Config, sent: Batch, channel: Batch, open: bool, mode: Mode,
                           actor: Actor, since: seq<nat>, now: nat,
                           writers: seq<Writer>, table: Batch, wal: Batch)

  datatype Action =
    | Send(event: SiemEvent)
    | Close
    | Receive
    | Expire
    | Return
    | Tick(delay: nat)
    | Work(writer: nat, result: Result)

  function WriterNext(batch: Batch, w: Writer, r: Result): Writer {
    match w
    case Starting => if r.Good? then Inserting(0) else Dumping(0, false)
    case Inserting(k) =>
      if k < |batch| then (if r.Good? then Inserting(k + 1) else Dumping(0, false))
      else if r.Good? then Finished(0, true, false)
      else Dumping(0, r.Unconfirmed?)
    case Dumping(k, applied) =>
      if !r.Good? then Finished(k, applied, true)
      else if k < |batch| then Dumping(k + 1, applied)
      else Finished(k, applied, false)
    case Finished(_, _, _) => w
  }

  function Applied(w: Writer): bool { (w.Dumping? || w.Finished?) && w.applied }

  function Lines(w: Writer): nat { if w.Dumping? || w.Finished? then w.lines else 0 }

  /** What one move of a writer adds to the table or to the log. */
  function Added(log: bool, batch: Batch, w: Writer, w': Writer): Batch {
    if log then (if Lines(w') == Lines(w) + 1 && Lines(w) < |batch| then [batch[Lines(w)]] else [])
    else if Applied(w') && !Applied(w) then batch
    else []
  }

  /** A writer for every batch handed on. */
  function Spawn(writers: seq<Writer>, batches: seq<Batch>): seq<Writer> {
    if |writers| < |batches| then writers + [Starting] else writers
  }

  function WithActor(s: System, a: Actor, since: seq<nat>): System {
    s.(actor := a, since := if a.buffer == [] then [] else since, writers := Spawn(s.writers, a.batches))
  }

  function Progress(s: System, i: nat, r: Result): System
    requires i < |s.writers| && i < |s.actor.batches|
  {
    var batch, w := s.actor.batches[i], s.writers[i];
    var w' := WriterNext(batch, w, r);
    s.(writers := s.writers[i := w'],
       table := s.table + Added(false, batch, w, w'),
       wal := s.wal + Added(true, batch, w, w'))
  }

  /** One atomic step. Time does not pass an expired timer while the actor runs. */
  function Step(s: System, a: Action): System {
    match a
    case Send(e) =>
      if s.open && s.mode.Looping? && |s.channel| < CAPACITY
      then s.(channel := s.channel + [e], sent := s.sent + [e])
      else s
    case Close => s.(open := false)
    case Receive =>
      if !s.mode.Looping? then s
      else if s.channel != [] then
        WithActor(s, OnEvent(s.config, s.actor, s.channel[0], s.now), s.since + [s.now]).(channel := s.channel[1..])
      else if s.open then s
      else
        var last := if s.actor.buffer == [] then Returned(None) else Awaiting(|s.writers|);
        WithActor(s, Flush(s.actor), []).(mode := last)
    case Return =>
      if s.mode.Awaiting? && s.mode.writer < |s.writers| && s.writers[s.mode.writer].Finished?
      then s.(mode := Returned(Some(s.mode.writer)))
      else s
    case Expire =>
      if s.mode.Looping? && s.now >= s.actor.deadline then WithActor(s, OnTimer(s.config, s.actor, s.now), []) else s
    case Tick(d) => if s.mode.Looping? && s.now + d > s.actor.deadline then s else s.(now := s.now + d)
    case Work(i, r) =>
      if i < |s.writers| && i < |s.actor.batches| then Progress(s, i, r) else s
  }

  function Run(s: System, actions: seq<Action>): System
    decreases actions
  {
    if actions == [] then s else Run(Step(s, actions[0]), actions[1..])
  }

  function Start(config: Config, now: nat): System {
    System(config, [], [], true, Looping, Actor([], now + config.batchTimeout, []), [], now, [], [], [])
  }

  // Order and sizes.

  /** Nothing is lost, repeated or reordered on the way to the writers. */
  ghost predicate Conserved(s: System) {
    && Contents(s.actor) + s.channel == s.sent
    && Sized(s.config, s.actor)
    && |s.channel| <= CAPACITY
    && (!s.mode.Looping? ==> s.actor.buffer == [] && s.channel == [])
  }

  lemma StepConserved(s: System, a: Action)
    requires Conserved(s)
    ensures Conserved(Step(s, a))
  {
    hide Contents, Sized, OnEvent, OnTimer;
    match a
    case Receive =>
      if s.mode.Looping? && s.channel != [] {
        OnEventAppends(s.config, s.actor, s.channel[0], s.now);
        assert Contents(s.actor) + [s.channel[0]] + s.channel[1..] == Contents(s.actor) + s.channel;
      } else {
        FlushKeepsContents(s.actor);
        FlushKeepsSized(s.config, s.actor);
      }
    case Expire => OnTimerKeeps(s.config, s.actor, s.now);
    case Send(e) => assert Contents(s.actor) + (s.channel + [e]) == Contents(s.actor) + s.channel + [e];
    case _ =>
  }

  /** In every reachable state, batches in the order they were handed on, then the buffer,
      then the channel, are exactly the events sent. */
  lemma {:induction false} RunConserved(s: System, actions: seq<Action>)
    requires Conserved(s)
    ensures Conserved(Run(s, actions))
    decreases actions
  {
    if actions != [] {
      StepConserved(s, actions[0]);
      RunConserved(Step(s, actions[0]), actions[1..]);
    }
  }

  // Time in the buffer.

  /** The timer always fires in time for the oldest buffered event. */
  ghost predicate Timely(s: System) {
    && |s.since| == |s.actor.buffer|
    && (s.mode.Looping? ==> s.now <= s.actor.deadline <= s.now + s.config.batchTimeout)
    && (!s.mode.Looping? ==> s.since == [])
    && forall i :: 0 <= i < |s.since| ==> s.since[i] <= s.now && s.actor.deadline <= s.since[i] + s.config.batchTimeout
  }

  lemma StepTimely(s: System, a: Action)
    requires Timely(s)
    ensures Timely(Step(s, a))
  {
  }

  /** No event is buffered for longer than the batch timeout. */
  lemma {:induction false} RunTimely(s: System, actions: seq<Action>)
    requires Timely(s)
    ensures Timely(Run(s, actions))
    ensures var t := Run(s, actions);
            forall i :: 0 <= i < |t.since| ==> t.now - t.since[i] <= t.config.batchTimeout
    decreases actions
  {
    if actions != [] {
      StepTimely(s, actions[0]);
      RunTimely(Step(s, actions[0]), actions[1..]);
    }
  }

  /** From start-up on, in every interleaving: conservation and order, legal batch sizes, an
      empty buffer and channel once the loop has ended, and no event buffered for longer than
      the timeout. */
  lemma EveryRun(config: Config, now: nat, actions: seq<Action>)
    ensures var s := Run(Start(config, now), actions);
            && Flatten(s.actor.batches) + s.actor.buffer + s.channel == s.sent
            && (forall i :: 0 <= i < |s.actor.batches| ==> 1 <= |s.actor.batches[i]| <= Limit(s.config))
            && (!s.mode.Looping? ==> s.actor.buffer == [] && s.channel == [])
            && |s.since| == |s.actor.buffer|
            && (forall i :: 0 <= i < |s.since| ==> s.now - s.since[i] <= s.config.batchTimeout)
  {
    RunConserved(Start(config, now), actions);
    RunTimely(Start(config, now), actions);
  }

  /** An event is sent exactly while the channel is open, has room and has a receiver. */
  lemma SendIff(s: System, e: SiemEvent)
    ensures var t := Step(s, Send(e));
            if s.open && s.mode.Looping? && |s.channel| < 100
            then t == s.(channel := s.channel + [e], sent := s.sent + [e])
            else t == s
  {
  }

  /** Taking an event from the channel either lets it join the buffer and leaves the timer alone,
      or hands on a batch of exactly the largest size and restarts the timer. */
  lemma ReceiveBatches(s: System)
    requires Conserved(s) && s.mode.Looping? && s.channel != []
    ensures var t := Step(s, Receive);
            && t.channel == s.channel[1..] && t.sent == s.sent && t.now == s.now
            && (t.actor == s.actor.(buffer := s.actor.buffer + [s.channel[0]])
                || (t.actor == Actor([], s.now + s.config.batchTimeout,
                                     s.actor.batches + [s.actor.buffer + [s.channel[0]]])
                    && |s.actor.buffer| + 1 == Limit(s.config)))
            && |t.actor.buffer| < Limit(s.config)
  {
    OnEventBatches(s.config, s.actor, s.channel[0], s.now);
  }

  /** The timer, once due, hands on what is buffered, if anything, and is restarted. */
  lemma ExpireBatches(s: System)
    requires s.mode.Looping?
    ensures var t := Step(s, Expire);
            if s.now < s.actor.deadline then t == s
            else t.actor == Actor([], s.now + s.config.batchTimeout,
                                  s.actor.batches + if s.actor.buffer == [] then [] else [s.actor.buffer])
  {
    assert s.actor.batches + [] == s.actor.batches;
  }

  function Expiries(actions: seq<Action>): nat
    decreases actions
  {
    if actions == [] then 0 else (if actions[0].Expire? then 1 else 0) + Expiries(actions[1..])
  }

  lemma StepShort(s: System, a: Action)
    requires Conserved(s)
    ensures var t := Step(s, a);
            Short(t.config, t.actor.batches) + (if s.mode.Looping? then 0 else 1)
            <= Short(s.config, s.actor.batches) + (if a.Expire? then 1 else 0) + (if t.mode.Looping? then 0 else 1)
  {
    hide Contents, OnEvent, Short;
    if a.Receive? && s.mode.Looping? && s.channel != [] {
      OnEventShort(s.config, s.actor, s.channel[0], s.now);
    }
    FlushShort(s.config, s.actor);
  }

  lemma {:induction false} RunShort(s: System, actions: seq<Action>)
    requires Conserved(s)
    ensures var t := Run(s, actions);
            Short(t.config, t.actor.batches) + (if s.mode.Looping? then 0 else 1)
            <= Short(s.config, s.actor.batches) + Expiries(actions) + (if t.mode.Looping? then 0 else 1)
    decreases actions
  {
    hide Step, Conserved, Short;
    if actions != [] {
      StepConserved(s, actions[0]);
      StepShort(s, actions[0]);
      RunShort(Step(s, actions[0]), actions[1..]);
    }
  }

  /** In every run at most one batch for each expiry of the timer, and the last one, are smaller
      than they could be. */
  lemma FewShortBatches(config: Config, now: nat, actions: seq<Action>)
    ensures Short(config, Run(Start(config, now), actions).actor.batches) <= Expiries(actions) + 1
  {
    RunShort(Start(config, now), actions);
    ConfigKept(Start(config, now), actions);
  }

  /** The timer never stops the clock: with a positive timeout, time can always pass, after
      the timer branch has run if need be. */
  lemma ClockNeverStuck(config: Config, now: nat, actions: seq<Action>)
    requires config.batchTimeout > 0
    ensures var s := Run(Start(config, now), actions);
            Step(s, Tick(1)).now == s.now + 1 || Step(Step(s, Expire), Tick(1)).now == s.now + 1
  {
    RunTimely(Start(config, now), actions);
    ConfigKept(Start(config, now), actions);
  }

  lemma {:induction false} ConfigKept(s: System, actions: seq<Action>)
    ensures Run(s, actions).config == s.config
    decreases actions
  {
    if actions != [] { ConfigKept(Step(s, actions[0]), actions[1..]); }
  }

  // What the writers leave behind.

  /** A writer's contribution to the table or to the log. */
  function Part(log: bool, batch: Batch, w: Writer): multiset<SiemEvent> {
    if log then multiset(batch[..if Lines(w) <= |batch| then Lines(w) else |batch|])
    else if Applied(w) then multiset(batch)
    else multiset{}
  }

  function Total(parts: seq<multiset<SiemEvent>>): multiset<SiemEvent> {
    if parts == [] then multiset{} else Total(parts[..|parts| - 1]) + parts[|parts| - 1]
  }

  function Parts(log: bool, batches: seq<Batch>, writers: seq<Writer>): (r: seq<multiset<SiemEvent>>)
    requires |writers| <= |batches|
    ensures |r| == |writers| && forall i :: 0 <= i < |writers| ==> r[i] == Part(log, batches[i], writers[i])
  {
    seq(|writers|, i requires 0 <= i < |writers| => Part(log, batches[i], writers[i]))
  }

  function Sum(log: bool, batches: seq<Batch>, writers: seq<Writer>): multiset<SiemEvent>
    requires |writers| <= |batches|
  {
    Total(Parts(log, batches, writers))
  }

  lemma Shuffle(a: multiset<SiemEvent>, b: multiset<SiemEvent>, c: multiset<SiemEvent>, d: multiset<SiemEvent>,
                x: multiset<SiemEvent>)
    requires a + b == c + d
    ensures (a + x) + b == (c + x) + d
  {
    assert (a + x) + b == (a + b) + x && (c + x) + d == (c + d) + x;
  }

  lemma Cancel(a: multiset<SiemEvent>, b: multiset<SiemEvent>, p: multiset<SiemEvent>, d: multiset<SiemEvent>)
    requires a + p == b + (p + d)
    ensures a == b + d
  {
    assert b + (p + d) == (b + d) + p;
    forall e
      ensures a[e] == (b + d)[e]
    {
      assert (a + p)[e] == ((b + d) + p)[e];
    }
  }

  lemma {:induction false} TotalUpdate(parts: seq<multiset<SiemEvent>>, i: nat, m: multiset<SiemEvent>)
    requires i < |parts|
    ensures Total(parts[i := m]) + parts[i] == Total(parts) + m
  {
    var n := |parts| - 1;
    if i < n {
      TotalUpdate(parts[..n], i, m);
      assert parts[i := m][..n] == parts[..n][i := m];
      Shuffle(Total(parts[..n][i := m]), parts[i], Total(parts[..n]), m, parts[n]);
    } else {
      assert parts[i := m][..n] == parts[..n];
    }
  }

  lemma SumUpdate(log: bool, batches: seq<Batch>, writers: seq<Writer>, i: nat, w: Writer)
    requires i < |writers| <= |batches|
    ensures Sum(log, batches, writers[i := w]) + Part(log, batches[i], writers[i])
            == Sum(log, batches, writers) + Part(log, batches[i], w)
  {
    TotalUpdate(Parts(log, batches, writers), i, Part(log, batches[i], w));
    assert Parts(log, batches, writers[i := w]) == Parts(log, batches, writers)[i := Part(log, batches[i], w)];
  }

  lemma SumSpawn(log: bool, batches: seq<Batch>, more: seq<Batch>, writers: seq<Writer>)
    requires |writers| == |batches| && |more| == |batches| + 1 && batches <= more
    ensures Sum(log, more, writers + [Starting]) == Sum(log, batches, writers)
  {
    var n := |writers|;
    var parts := Parts(log, more, writers + [Starting]);
    assert parts[..n] == Parts(log, batches, writers);
    assert more[n][..0] == [];
    assert parts[n] == multiset{};
  }

  predicate WriterOk(batch: Batch, w: Writer) {
    match w
    case Starting => true
    case Inserting(k) => k <= |batch|
    case Dumping(k, _) => k <= |batch|
    case Finished(k, applied, walFailed) => k <= |batch| && (!walFailed ==> applied || k == |batch|)
  }

  /** The table and the log hold exactly what the writers put there. */
  ghost predicate Stored(s: System) {
    && |s.writers| == |s.actor.batches|
    && (forall i :: 0 <= i < |s.writers| ==> WriterOk(s.actor.batches[i], s.writers[i]))
    && multiset(s.table) == Sum(false, s.actor.batches, s.writers)
    && multiset(s.wal) == Sum(true, s.actor.batches, s.writers)
  }

  lemma SpawnStored(s: System, a: Actor)
    requires Stored(s)
    requires a.batches == s.actor.batches || (|a.batches| == |s.actor.batches| + 1 && s.actor.batches <= a.batches)
    ensures var ws := Spawn(s.writers, a.batches);
            |ws| == |a.batches| && (forall i :: 0 <= i < |ws| ==> WriterOk(a.batches[i], ws[i]))
            && multiset(s.table) == Sum(false, a.batches, ws) && multiset(s.wal) == Sum(true, a.batches, ws)
  {
    if |a.batches| > |s.actor.batches| {
      SumSpawn(false, s.actor.batches, a.batches, s.writers);
      SumSpawn(true, s.actor.batches, a.batches, s.writers);
    }
  }

  lemma LineAppended(batch: Batch, k: nat)
    requires k < |batch|
    ensures multiset(batch[..k + 1]) == multiset(batch[..k]) + multiset{batch[k]}
  {
    assert batch[..k + 1] == batch[..k] + [batch[k]];
  }

  lemma NextOk(batch: Batch, w: Writer, r: Result)
    requires WriterOk(batch, w)
    ensures WriterOk(batch, WriterNext(batch, w, r))
  {
  }

  lemma MoveAdds(log: bool, batch: Batch, w: Writer, r: Result)
    requires WriterOk(batch, w)
    ensures var w' := WriterNext(batch, w, r);
            Part(log, batch, w') == Part(log, batch, w) + multiset(Added(log, batch, w, w'))
  {
    if log && w.Dumping? && r.Good? && Lines(w) < |batch| { LineAppended(batch, Lines(w)); }
  }

  lemma SumAdds(log: bool, s: System, i: nat, r: Result)
    requires Stored(s) && i < |s.writers|
    ensures var batch, w := s.actor.batches[i], s.writers[i];
            var w' := WriterNext(batch, w, r);
            Sum(log, s.actor.batches, s.writers[i := w'])
            == Sum(log, s.actor.batches, s.writers) + multiset(Added(log, batch, w, w'))
  {
    var batch, w := s.actor.batches[i], s.writers[i];
    var w' := WriterNext(batch, w, r);
    MoveAdds(log, batch, w, r);
    SumUpdate(log, s.actor.batches, s.writers, i, w');
    Cancel(Sum(log, s.actor.batches, s.writers[i := w']), Sum(log, s.actor.batches, s.writers),
           Part(log, batch, w), multiset(Added(log, batch, w, w')));
  }

  lemma WriterMoved(s: System, i: nat, w: Writer, x: Batch, y: Batch)
    requires Stored(s) && i < |s.writers| && WriterOk(s.actor.batches[i], w)
    requires Sum(false, s.actor.batches, s.writers[i := w]) == Sum(false, s.actor.batches, s.writers) + multiset(x)
    requires Sum(true, s.actor.batches, s.writers[i := w]) == Sum(true, s.actor.batches, s.writers) + multiset(y)
    ensures Stored(s.(writers := s.writers[i := w], table := s.table + x, wal := s.wal + y))
  {
    assert multiset(s.table + x) == multiset(s.table) + multiset(x);
    assert multiset(s.wal + y) == multiset(s.wal) + multiset(y);
  }

  lemma WorkStored(s: System, i: nat, r: Result, t: System)
    requires Stored(s) && i < |s.writers| && t == Progress(s, i, r)
    ensures Stored(t)
  {
    var batch, w := s.actor.batches[i], s.writers[i];
    var w' := WriterNext(batch, w, r);
    var x, y := Added(false, batch, w, w'), Added(true, batch, w, w');
    NextOk(batch, w, r);
    SumAdds(false, s, i, r);
    SumAdds(true, s, i, r);
    WriterMoved(s, i, w', x, y);
  }

  lemma StepStored(s: System, a: Action)
    requires Stored(s)
    ensures Stored(Step(s, a))
  {
    hide Sum, Added, WriterNext, WriterOk;
    match a
    case Receive =>
      if s.mode.Looping? && s.channel != [] {
        SpawnStored(s, OnEvent(s.config, s.actor, s.channel[0], s.now));
      } else {
        SpawnStored(s, Flush(s.actor));
      }
    case Expire => SpawnStored(s, OnTimer(s.config, s.actor, s.now));
    case Work(i, r) => if i < |s.writers| { WorkStored(s, i, r, Step(s, a)); }
    case _ =>
  }

  lemma {:induction false} RunStored(s: System, actions: seq<Action>)
    requires Stored(s)
    ensures Stored(Run(s, actions))
    decreases actions
  {
    if actions != [] {
      StepStored(s, actions[0]);
      RunStored(Step(s, actions[0]), actions[1..]);
    }
  }

  /** What the awaited write has to do with the writers. */
  ghost predicate Awaited(s: System) {
    && (s.mode.Awaiting? ==> s.mode.writer < |s.writers|)
    && (s.mode.Returned? && s.mode.awaited.Some? ==>
          s.mode.awaited.value < |s.writers| && s.writers[s.mode.awaited.value].Finished?)
  }

  lemma StepAwaited(s: System, a: Action)
    requires Stored(s) && Awaited(s)
    ensures Awaited(Step(s, a))
  {
    hide Stored, Sum, Added;
    if a.Receive? { StoredLengths(s); }
  }

  lemma StoredLengths(s: System)
    requires Stored(s)
    ensures |s.writers| == |s.actor.batches|
  {
  }

  /** When the actor has returned, the write of its final batch is finished. */
  lemma {:induction false} RunAwaited(s: System, actions: seq<Action>)
    requires Stored(s) && Awaited(s)
    ensures Awaited(Run(s, actions))
    decreases actions
  {
    if actions != [] {
      StepStored(s, actions[0]);
      StepAwaited(s, actions[0]);
      RunAwaited(Step(s, actions[0]), actions[1..]);
    }
  }

  predicate EndedWell(w: Writer) { w.Finished? && !w.walFailed }

  /** The batches of the writers that finished without a log failure. */
  function GoodParts(batches: seq<Batch>, writers: seq<Writer>): (r: seq<multiset<SiemEvent>>)
    requires |writers| <= |batches|
    ensures |r| == |writers|
    ensures forall i :: 0 <= i < |writers| ==>
              r[i] == if EndedWell(writers[i]) then multiset(batches[i]) else multiset{}
  {
    seq(|writers|, i requires 0 <= i < |writers| => if EndedWell(writers[i]) then multiset(batches[i]) else multiset{})
  }

  lemma BatchCovered(batch: Batch, w: Writer)
    requires WriterOk(batch, w) && EndedWell(w)
    ensures multiset(batch) <= Part(false, batch, w) + Part(true, batch, w)
  {
    assert batch[..|batch|] == batch;
  }

  lemma {:induction false} TotalCovered(g: seq<multiset<SiemEvent>>, p: seq<multiset<SiemEvent>>,
                                        q: seq<multiset<SiemEvent>>)
    requires |p| == |q| == |g|
    requires forall i :: 0 <= i < |g| ==> g[i] <= p[i] + q[i]
    ensures Total(g) <= Total(p) + Total(q)
  {
    if g != [] {
      var n := |g| - 1;
      TotalCovered(g[..n], p[..n], q[..n]);
      assert g[n] <= p[n] + q[n];
    }
  }

  lemma StoredIsDurable(s: System)
    requires Stored(s)
    ensures Total(GoodParts(s.actor.batches, s.writers)) <= multiset(s.table) + multiset(s.wal)
  {
    var batches, writers := s.actor.batches, s.writers;
    forall i | 0 <= i < |writers|
      ensures GoodParts(batches, writers)[i] <= Parts(false, batches, writers)[i] + Parts(true, batches, writers)[i]
    {
      if EndedWell(writers[i]) { BatchCovered(batches[i], writers[i]); }
    }
    TotalCovered(GoodParts(batches, writers), Parts(false, batches, writers), Parts(true, batches, writers));
  }

  /** In every reachable state the batches of all writes that finished without a log failure
      are in the table and the log, counted with multiplicity. */
  lemma FinishedIsDurable(config: Config, now: nat, actions: seq<Action>)
    ensures var s := Run(Start(config, now), actions);
            |s.writers| == |s.actor.batches|
            && Total(GoodParts(s.actor.batches, s.writers)) <= multiset(s.table) + multiset(s.wal)
  {
    RunStored(Start(config, now), actions);
    StoredIsDurable(Run(Start(config, now), actions));
  }

  lemma {:induction false} FlattenIsTotal(batches: seq<Batch>, parts: seq<multiset<SiemEvent>>)
    requires |parts| == |batches| && forall i :: 0 <= i < |batches| ==> parts[i] == multiset(batches[i])
    ensures multiset(Flatten(batches)) == Total(parts)
  {
    if batches != [] { FlattenIsTotal(batches[..|batches| - 1], parts[..|parts| - 1]); }
  }

  lemma SentIsStored(s: System)
    requires Conserved(s) && Stored(s) && !s.mode.Looping?
    requires forall i :: 0 <= i < |s.writers| ==> EndedWell(s.writers[i])
    ensures multiset(s.sent) <= multiset(s.table) + multiset(s.wal)
  {
    assert Flatten(s.actor.batches) == s.sent;
    FlattenIsTotal(s.actor.batches, GoodParts(s.actor.batches, s.writers));
    StoredIsDurable(s);
  }

  /** Once the actor has returned and every writer has finished without a log failure, all
      events ever sent are in the table and the log, counted with multiplicity; the write it
      awaited is finished in any case. */
  lemma AllDelivered(config: Config, now: nat, actions: seq<Action>)
    requires Run(Start(config, now), actions).mode.Returned?
    ensures var s := Run(Start(config, now), actions);
            (forall i :: 0 <= i < |s.writers| ==> EndedWell(s.writers[i])) ==>
              multiset(s.sent) <= multiset(s.table) + multiset(s.wal)
    ensures Awaited(Run(Start(config, now), actions))
  {
    hide Conserved, Stored, Awaited;
    var start := Start(config, now);
    StartOk(config, now);
    RunConserved(start, actions);
    RunStored(start, actions);
    RunAwaited(start, actions);
    var s := Run(start, actions);
    if forall i :: 0 <= i < |s.writers| ==> EndedWell(s.writers[i]) { SentIsStored(s); }
  }

  lemma StartOk(config: Config, now: nat)
    ensures Conserved(Start(config, now)) && Stored(Start(config, now)) && Awaited(Start(config, now))
  {
  }
}
