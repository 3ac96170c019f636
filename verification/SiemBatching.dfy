/** The batching actor: what it does with each event and each timer expiry. */
module SiemBatching {

  datatype SiemEvent = SiemEvent(eventId: nat, timestamp: nat, eventType: string, sourceIp: string,
                                 destinationIp: string, severity: string, message: string)

  type Batch = seq<SiemEvent>

  datatype Config = Config(maxBatchSize: nat, batchTimeout: nat)

  /** The largest batch: a limit of 0 still lets one event through at a time. */
  function Limit(c: Config): nat { if c.maxBatchSize == 0 then 1 else c.maxBatchSize }

  /** The actor's own variables, with the batches it has handed to writers so far. */
  datatype Actor = Actor(buffer: Batch, deadline: nat, batches: seq<Batch>)

  function Flush(a: Actor): Actor {
    if a.buffer == [] then a else a.(buffer := [], batches := a.batches + [a.buffer])
  }

  function OnEvent(c: Config, a: Actor, e: SiemEvent, now: nat): Actor {
    var b := a.(buffer := a.buffer + [e]);
    if |b.buffer| >= c.maxBatchSize then Flush(b).(deadline := now + c.batchTimeout) else b
  }

  function OnTimer(c: Config, a: Actor, now: nat): Actor {
    Flush(a).(deadline := now + c.batchTimeout)
  }

  function Flatten(batches: seq<Batch>): Batch {
    if batches == [] then [] else Flatten(batches[..|batches| - 1]) + batches[|batches| - 1]
  }

  /** All events in the actor's hands, oldest first. */
  function Contents(a: Actor): Batch { Flatten(a.batches) + a.buffer }

  ghost predicate Sized(c: Config, a: Actor) {
    && |a.buffer| < Limit(c)
    && forall i :: 0 <= i < |a.batches| ==> 1 <= |a.batches[i]| <= Limit(c)
  }

  lemma FlushKeepsContents(a: Actor)
    ensures Contents(Flush(a)) == Contents(a)
  {
    if a.buffer != [] {
      assert Flush(a).batches[..|a.batches|] == a.batches;
    }
  }

  lemma FlushKeepsSized(c: Config, a: Actor)
    requires Sized(c, a)
    ensures Sized(c, Flush(a)) && Flush(a).buffer == []
  {
  }

  lemma OnEventAppends(c: Config, a: Actor, e: SiemEvent, now: nat)
    requires Sized(c, a)
    ensures Sized(c, OnEvent(c, a, e, now)) && Contents(OnEvent(c, a, e, now)) == Contents(a) + [e]
  {
    FlushKeepsContents(a.(buffer := a.buffer + [e]));
  }

  /** An event that does not fill the buffer only joins it and leaves the timer alone; one that
      does completes a batch of the largest size and restarts the timer. */
  lemma OnEventBatches(c: Config, a: Actor, e: SiemEvent, now: nat)
    requires |a.buffer| < Limit(c)
    ensures var r := OnEvent(c, a, e, now);
            if |a.buffer| + 1 < Limit(c) then r == Actor(a.buffer + [e], a.deadline, a.batches)
            else r == Actor([], now + c.batchTimeout, a.batches + [a.buffer + [e]])
  {
  }

  /** How many batches are smaller than they could be. */
  function Short(c: Config, batches: seq<Batch>): nat {
    if batches == [] then 0
    else Short(c, batches[..|batches| - 1]) + if |batches[|batches| - 1]| < Limit(c) then 1 else 0
  }

  lemma ShortNext(c: Config, batches: seq<Batch>, b: Batch)
    ensures Short(c, batches + [b]) == Short(c, batches) + if |b| < Limit(c) then 1 else 0
  {
    assert (batches + [b])[..|batches|] == batches;
  }

  lemma OnEventShort(c: Config, a: Actor, e: SiemEvent, now: nat)
    requires |a.buffer| < Limit(c)
    ensures Short(c, OnEvent(c, a, e, now).batches) == Short(c, a.batches)
  {
    OnEventBatches(c, a, e, now);
    ShortNext(c, a.batches, a.buffer + [e]);
  }

  lemma FlushShort(c: Config, a: Actor)
    ensures Short(c, a.batches) <= Short(c, Flush(a).batches) <= Short(c, a.batches) + 1
  {
    ShortNext(c, a.batches, a.buffer);
  }

  lemma OnTimerKeeps(c: Config, a: Actor, now: nat)
    requires Sized(c, a)
    ensures Sized(c, OnTimer(c, a, now)) && Contents(OnTimer(c, a, now)) == Contents(a)
  {
    FlushKeepsContents(a);
  }

  /** What `select!` can find ready before the channel closes. */
  datatype Ready = Event(event: SiemEvent, at: nat) | Timer(at: nat)

  function OnReady(c: Config, a: Actor, r: Ready): Actor {
    match r
    case Event(e, at) => OnEvent(c, a, e, at)
    case Timer(at) => OnTimer(c, a, at)
  }

  function EventOf(r: Ready): Batch { if r.Event? then [r.event] else [] }

  function EventsOf(script: seq<Ready>): Batch {
    if script == [] then [] else EventsOf(script[..|script| - 1]) + EventOf(script[|script| - 1])
  }

  function TimersOf(script: seq<Ready>): nat {
    if script == [] then 0
    else TimersOf(script[..|script| - 1]) + if script[|script| - 1].Timer? then 1 else 0
  }

  lemma EventsNext(script: seq<Ready>, i: nat)
    requires i < |script|
    ensures EventsOf(script[..i + 1]) == EventsOf(script[..i]) + EventOf(script[i])
    ensures TimersOf(script[..i + 1]) == TimersOf(script[..i]) + if script[i].Timer? then 1 else 0
  {
    assert script[..i + 1][..i] == script[..i];
  }

  lemma OnReadyAppends(c: Config, a: Actor, r: Ready)
    requires Sized(c, a)
    ensures Sized(c, OnReady(c, a, r)) && Contents(OnReady(c, a, r)) == Contents(a) + EventOf(r)
    ensures Short(c, OnReady(c, a, r).batches) <= Short(c, a.batches) + if r.Timer? then 1 else 0
  {
    match r
    case Event(e, at) =>
      OnEventAppends(c, a, e, at);
      OnEventShort(c, a, e, at);
    case Timer(at) =>
      OnTimerKeeps(c, a, at);
      FlushShort(c, a);
      assert Contents(a) + [] == Contents(a);
  }

  class BatchManager {
    const config: Config
    var buffer: Batch
    var deadline: nat
    var batches: seq<Batch>

    constructor (config: Config)
      ensures this.config == config && buffer == [] && batches == []
    {
      this.config := config;
      buffer, deadline, batches := [], 0, [];
    }

    ghost function View(): Actor
      reads this
    {
      Actor(buffer, deadline, batches)
    }

    method Dispatch()
      modifies this`buffer, this`batches
      ensures View() == Flush(old(View()))
    {
      if buffer != [] {
        batches := batches + [buffer];
        buffer := [];
      }
    }

    /** The branch that takes an event from the channel. */
    method Receive(e: SiemEvent, now: nat)
      modifies this
      ensures View() == OnEvent(config, old(View()), e, now)
    {
      buffer := buffer + [e];
      if |buffer| >= config.maxBatchSize {
        Dispatch();
        deadline := now + config.batchTimeout;
      }
    }

    /** The branch that runs when the timer expires. */
    method Expire(now: nat)
      modifies this
      ensures View() == OnTimer(config, old(View()), now)
    {
      Dispatch();
      deadline := now + config.batchTimeout;
    }

    method Handle(r: Ready)
      modifies this
      ensures View() == OnReady(config, old(View()), r)
    {
      match r {
        case Event(e, at) => Receive(e, at);
        case Timer(at) => Expire(at);
      }
    }

    /** The whole loop, for any finite series of ready branches followed by channel close:
        every event is handed on, in order, in batches of legal size. A batch is smaller than it
        could be only for an expiry of the timer, or for being the last. */
    method Run(start: nat, script: seq<Ready>)
      requires buffer == [] && batches == []
      modifies this
      ensures Flatten(batches) == EventsOf(script) && buffer == []
      ensures forall i :: 0 <= i < |batches| ==> 1 <= |batches[i]| <= Limit(config)
      ensures Short(config, batches) <= TimersOf(script) + 1
      ensures TimersOf(script) == 0 ==> forall i :: 0 <= i < |batches| - 1 ==> |batches[i]| == Limit(config)
    {
      hide Contents, EventsOf, TimersOf, OnReady, Short;
      deadline := start + config.batchTimeout;
      StartsEmpty(config, View());
      var i := 0;
      while i < |script|
        invariant i <= |script| && Sized(config, View()) && Contents(View()) == EventsOf(script[..i])
        invariant Short(config, batches) <= TimersOf(script[..i])
      {
        EventsNext(script, i);
        OnReadyAppends(config, View(), script[i]);
        Handle(script[i]);
        i := i + 1;
      }
      assert script[..i] == script;
      FlushEmpties(config, View());
      FlushShort(config, View());
      if TimersOf(script) == 0 { NoneShort(config, batches); }
      Dispatch();
    }
  }

  lemma StartsEmpty(c: Config, a: Actor)
    requires a.buffer == [] && a.batches == []
    ensures Sized(c, a) && Contents(a) == EventsOf([]) && Short(c, a.batches) == TimersOf([])
  {
  }

  lemma {:induction false} NoneShort(c: Config, batches: seq<Batch>)
    requires Short(c, batches) == 0 && forall i :: 0 <= i < |batches| ==> |batches[i]| <= Limit(c)
    ensures forall i :: 0 <= i < |batches| ==> |batches[i]| == Limit(c)
  {
    if batches != [] { NoneShort(c, batches[..|batches| - 1]); }
  }

  lemma FlushEmpties(c: Config, a: Actor)
    requires Sized(c, a)
    ensures Flatten(Flush(a).batches) == Contents(a) && Flush(a).buffer == []
    ensures forall i :: 0 <= i < |Flush(a).batches| ==> 1 <= |Flush(a).batches[i]| <= Limit(c)
  {
    FlushKeepsContents(a);
    assert Flatten(Flush(a).batches) + [] == Flatten(Flush(a).batches);
  }
}
