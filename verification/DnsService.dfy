/** The server as an object: the database behind the mutex, the queries in flight and the
    clock, driven through any series of steps. */
module DnsService {
  import opened Basics
  import opened DnsTables
  import opened DnsServer

  class Resolver {
    const db: Database
    var tasks: map<nat, Task>
    var clock: nat
    ghost var log: seq<Event>

    ghost function View(): Server
      reads this, db
    {
      Server(db.View(), tasks, clock, log)
    }

    /** Every row, event, pending save and record is accounted for, and every answer still alive
        is remembered. */
    ghost predicate Valid()
      reads this, db
    {
      && Lawful(db.platform) && InRange(clock)
      && Accounted(db.platform, View())
      && Remembered(db.platform, db.cache, log, clock)
    }

    constructor (platform: Platform, now: nat)
      requires Lawful(platform) && InRange(now)
      ensures Valid() && fresh(db) && db.platform == platform && View() == Fresh(now)
    {
      db := new Database(platform);
      tasks, clock, log := map[], now, [];
    }

    method Move(id: nat, phase: Phase)
      requires id in tasks
      modifies this`tasks
      ensures tasks == old(tasks)[id := old(tasks)[id].(phase := phase)]
    {
      tasks := tasks[id := tasks[id].(phase := phase)];
    }

    /** The first visit to the mutex: the dynamic records. */
    method TryLocal(id: nat, ok: bool)
      requires At(View(), id, AtLocal)
      modifies this
      ensures View() == Step(db.platform, old(View()), Local(id, ok), true)
    {
      var ip := db.FindLocal(tasks[id].name, ok);
      if ip.Some? { Move(id, Done(Authoritative(ip.value, LOCAL_TTL))); } else { Move(id, AtCache); }
    }

    /** The second visit: the cache. */
    method TryCache(id: nat, ok: bool)
      requires At(View(), id, AtCache)
      modifies this
      ensures View() == Step(db.platform, old(View()), Cached(id, ok), true)
    {
      var ip := db.FindCached(tasks[id].name, clock, ok);
      if ip.Some? {
        log := log + [Served(tasks[id].name, ip.value, clock)];
        Move(id, Done(FromCache(ip.value, CACHE_TTL)));
      } else {
        Move(id, AtForwarder);
      }
    }

    /** The forwarder's reply, outside the mutex. */
    method TakeReply(id: nat, reply: Option<seq<Record>>)
      requires At(View(), id, AtForwarder)
      modifies this
      ensures View() == Step(db.platform, old(View()), Reply(id, reply), true)
    {
      if reply.None? {
        Move(id, Done(NxDomain));
      } else {
        var first := FirstA(reply.value);
        if tasks[id].isA && first.Some? {
          log := log + [ForwarderSaid(tasks[id].name, first.value.ip, first.value.ttl)];
          Move(id, AtSave(reply.value, first.value));
        } else {
          Move(id, Done(Forwarded(reply.value)));
        }
      }
    }

    /** The third visit: saving the first A record. */
    method SaveFirst(id: nat, ok: bool)
      requires id in tasks && tasks[id].phase.AtSave?
      modifies this, db
      ensures View() == Step(db.platform, old(View()), Save(id, ok), true)
    {
      var Task(name, _, AtSave(records, first)) := tasks[id];
      db.Save(name, db.platform.show(first.ip), first.ttl, clock, ok);
      if ok { log := log + [Saved(name, first.ip, first.ttl, clock)]; }
      Move(id, Done(Forwarded(records)));
    }

    /** One step of the server. */
    method Perform(a: Action)
      modifies this, db
      ensures View() == Step(db.platform, old(View()), a, true)
    {
      match a {
        case Arrive(id, name, isA) =>
          if id !in tasks { tasks := tasks[id := Task(name, isA, if isA then AtLocal else AtForwarder)]; }
        case Local(id, ok) => if id in tasks && tasks[id].phase == AtLocal { TryLocal(id, ok); }
        case Cached(id, ok) => if id in tasks && tasks[id].phase == AtCache { TryCache(id, ok); }
        case Reply(id, reply) => if id in tasks && tasks[id].phase == AtForwarder { TakeReply(id, reply); }
        case Save(id, ok) => if id in tasks && tasks[id].phase.AtSave? { SaveFirst(id, ok); }
        case Update(domain, ip, ok) =>
          var status := db.Update(domain, ip, ok);
          if status.Updated? { log := log + [Changed(domain, ip)]; }
        case Clean(ok) => db.Clean(clock, ok);
        case Restart => tasks := map[];
        case Tick(nanos) => if InRange(clock + nanos) { clock := clock + nanos; }
      }
    }

    /** Any series of steps, janitor included. What the server has answered at the end is what
        it would have answered without a janitor, and the accounting is intact. */
    method Execute(actions: seq<Action>)
      requires Valid()
      modifies this, db
      ensures Valid() && View() == Run(db.platform, old(View()), actions, true)
      ensures tasks == Run(db.platform, old(View()), actions, false).tasks
    {
      ghost var start := View();
      ServedTablesAreWellFormed(db.platform, start);
      for i := 0 to |actions|
        invariant Run(db.platform, View(), actions[i..], true) == Run(db.platform, start, actions, true)
      {
        assert actions[i..][1..] == actions[i + 1..];
        Perform(actions[i]);
      }
      RunAccounted(db.platform, start, actions);
      RunRemembers(db.platform, start, actions);
      JanitorIsInvisible(db.platform, start, actions);
    }
  }

  /** A cache whose rows are all accounted for holds only timestamps the server wrote. */
  lemma ServedTablesAreWellFormed(c: Platform, s: Server)
    requires Accounted(c, s)
    ensures WellFormed(c, s.tables)
  {
    forall d | d in s.tables.cache
      ensures Timestamp(c, s.tables.cache[d].expires)
    {
      assert Sourced(c, s.log, s.clock, d, s.tables.cache[d]);
      var k :| 0 <= k < |s.log| && Source(s.log[k], c, d, s.tables.cache[d]);
      assert s.tables.cache[d].expires == c.stamp(Expiry(s.log[k].at, s.log[k].ttl));
    }
  }
}
