/** The proxy as an object: the shield and its handlers, driven through any interleaving. */
module ShieldProxy {
  import opened Shield
  import opened ShieldRuns

  class Proxy {
    const shield: AntiDDoSShield
    var handlers: map<nat, Handler>
    var clock: nat
    ghost var passes: map<SocketAddr, seq<Pass>>

    ghost function View(): System
      reads this, shield
    {
      System(shield.registry, shield.available, handlers, clock, passes)
    }

    /** The registry counts live handlers and the semaphore counts permits. */
    ghost predicate Valid()
      reads this, shield
    {
      Counted(View())
    }

    constructor (now: nat)
      ensures Valid() && fresh(shield) && View() == Start(now)
    {
      shield := new AntiDDoSShield();
      handlers, clock, passes := map[], now, map[];
      new;
      StartCounted(now);
    }

    method Move(id: nat, phase: Phase)
      requires id in handlers
      modifies this`handlers
      ensures handlers == Moved(old(handlers), id, phase)
    {
      handlers := handlers[id := handlers[id].(phase := phase)];
    }

    /** The rate block of one handler. */
    method RequestFrom(id: nat)
      requires Is(View(), id, Admitted)
      modifies this, shield
      ensures View() == Step(old(View()), Request(id))
    {
      var k := handlers[id].key;
      var ok := shield.CheckClientRate(k, clock);
      if ok {
        ghost var e := shield.registry[k];
        passes := passes[k := (if k in passes then passes[k] else []) + [Pass(clock, e.lastRequest, e.rpsCount)]];
        Move(id, Cleared);
      } else {
        Move(id, Refused);
      }
    }

    /** One step of a handler, the janitor or the clock. */
    method Perform(a: Action)
      modifies this, shield
      ensures View() == Step(old(View()), a)
    {
      match a {
        case Accept(id, key) => if id !in handlers { handlers := handlers[id := Handler(key, Arrived)]; }
        case Acquire(id) =>
          if id in handlers && handlers[id].phase == Arrived {
            var ok := shield.TryAcquire();
            Move(id, if ok then Permitted else Gone);
          }
        case Enter(id) =>
          if id in handlers && handlers[id].phase == Permitted {
            var ok := shield.AdmitClient(handlers[id].key, clock);
            Move(id, if ok then Admitted else Leaving);
          }
        case Request(id) => if id in handlers && handlers[id].phase == Admitted { RequestFrom(id); }
        case Finish(id) =>
          if id in handlers && Counts(handlers[id].phase) {
            shield.DropClient(handlers[id].key);
            Move(id, Leaving);
          }
        case GiveBack(id) =>
          if id in handlers && handlers[id].phase == Leaving {
            shield.Release();
            Move(id, Gone);
          }
        case Janitor(shard) => shield.Evict(shard, clock);
        case Tick(nanos) => clock := clock + nanos;
      }
    }

    /** Any interleaving: no address ever has more than 20 live handlers, no more than 10000
        permits are out, and the counters stay exact. */
    method Execute(actions: seq<Action>)
      requires Valid()
      modifies this, shield
      ensures Valid() && View() == Run(old(View()), actions)
      ensures forall k :: |Live(handlers, k)| == Count(shield.registry, k) <= 20
      ensures |Holders(handlers)| == 10_000 - shield.available
    {
      ghost var start := View();
      for i := 0 to |actions|
        invariant Run(View(), actions[i..]) == Run(start, actions)
      {
        assert actions[i..][1..] == actions[i + 1..];
        Perform(actions[i]);
      }
      RunCounted(start, actions);
    }
  }
}
