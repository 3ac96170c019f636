/** Whole queries: what a client is answered, by what the server did before. */
module DnsQueries {
  import opened Basics
  import opened DnsTables
  import opened DnsServer

  /** The cache answers exactly while the latest save is alive. */
  lemma CachedIff(c: Platform, s: Server, name: string, ok: bool)
    requires Lawful(c) && Remembered(c, s.tables.cache, s.log, s.clock)
    ensures var e := LatestSave(s.log, Trim(name));
            LookupCache(c, s.tables, name, s.clock, ok)
            == if ok && e.Some? && Alive(e.value, s.clock) then Some(e.value.ip) else None
  {
    var e := LatestSave(s.log, Trim(name));
    if e.Some? && Trim(name) in s.tables.cache { assert RowKept(c, s.tables.cache, Trim(name), e.value); }
  }

  /** What a query for an A record is answered, by what happened before it: the latest update,
      or else the latest save while it is alive, or else what the forwarder says. The flags say
      whether the two lookups ran. */
  function Expected(c: Platform, s: Server, name: string, reply: Option<seq<Record>>,
                    local: bool, cached: bool): Answer
  {
    var update, save := LatestUpdate(s.log, Trim(name)), LatestSave(s.log, Trim(name));
    if local && update.Some? && c.parse(update.value).Some? then Authoritative(c.parse(update.value).value, 60)
    else if cached && save.Some? && Alive(save.value, s.clock) then FromCache(save.value.ip, 300)
    else if reply.None? then NxDomain
    else Forwarded(reply.value)
  }

  function Query(id: nat, name: string, reply: Option<seq<Record>>,
                 local: bool, cached: bool, saved: bool): seq<Action>
  {
    [Arrive(id, name, true), Local(id, local), Cached(id, cached), Reply(id, reply), Save(id, saved)]
  }

  lemma RunNext(c: Platform, s: Server, a: Action, rest: seq<Action>)
    ensures Run(c, s, [a] + rest, true) == Run(c, Step(c, s, a, true), rest, true)
  {
    assert ([a] + rest)[1..] == rest;
  }

  lemma LocalIff(c: Platform, s: Server, name: string, ok: bool)
    requires Accounted(c, s)
    ensures var u := LatestUpdate(s.log, Trim(name));
            LookupLocal(c, s.tables, name, ok) == if ok && u.Some? then c.parse(u.value) else None
    ensures var u := LatestUpdate(s.log, Trim(name)); u.Some? ==> c.parse(u.value).Some?
  {
  }

  /** The part of a query that looks into the tables. */
  lemma Looked(c: Platform, s: Server, id: nat, name: string, local: bool, cached: bool) returns (t: Server)
    requires Lawful(c) && Accounted(c, s) && Remembered(c, s.tables.cache, s.log, s.clock) && id !in s.tasks
    ensures t == Step(c, Step(c, Step(c, s, Arrive(id, name, true), true), Local(id, local), true),
                      Cached(id, cached), true)
    ensures var answer := Expected(c, s, name, None, local, cached);
            At(t, id, if answer.NxDomain? then AtForwarder else Done(answer))
    ensures t.tasks[id].name == name && t.tasks[id].isA && t.clock == s.clock
  {
    hide Accounted, Remembered, Lawful, LookupLocal, LookupCache, Cleanup, DdnsUpdate, FirstA, LatestUpdate, Trim;
    LocalIff(c, s, name, local);
    CachedIff(c, s, name, cached);
    var s1 := Step(c, s, Arrive(id, name, true), true);
    var s2 := Step(c, s1, Local(id, local), true);
    t := Step(c, s2, Cached(id, cached), true);
  }

  /** The part of a query that asks the forwarder. */
  lemma Asked(c: Platform, s: Server, id: nat, reply: Option<seq<Record>>, saved: bool)
    requires id in s.tasks && s.tasks[id].isA && (At(s, id, AtForwarder) || s.tasks[id].phase.Done?)
    ensures var t := Step(c, Step(c, s, Reply(id, reply), true), Save(id, saved), true);
            var name := s.tasks[id].name;
            && (s.tasks[id].phase.Done? ==> t == s)
            && (s.tasks[id].phase.AtForwarder? ==>
                  && At(t, id, Done(if reply.None? then NxDomain else Forwarded(reply.value)))
                  && (reply.Some? && FirstA(reply.value).Some? && saved ==>
                        var first := FirstA(reply.value).value;
                        LatestSave(t.log, Trim(name)) == Some(Saved(name, first.ip, first.ttl, s.clock))))
  {
    hide LookupLocal, LookupCache, Cleanup, DdnsUpdate, SaveToCache, FirstA, LatestUpdate, Trim;
    var s1 := Step(c, s, Reply(id, reply), true);
    if At(s, id, AtForwarder) && reply.Some? && FirstA(reply.value).Some? {
      var first := FirstA(reply.value).value;
      OtherEvent(s1.log, Saved(s.tasks[id].name, first.ip, first.ttl, s.clock));
    }
  }

  lemma QueryRuns(c: Platform, s: Server, id: nat, name: string, reply: Option<seq<Record>>,
                  local: bool, cached: bool, saved: bool)
    requires Lawful(c) && Accounted(c, s) && Remembered(c, s.tables.cache, s.log, s.clock) && id !in s.tasks
    ensures var t := Run(c, s, Query(id, name, reply, local, cached, saved), true);
            && At(t, id, Done(Expected(c, s, name, reply, local, cached)))
            && (Expected(c, s, name, reply, local, cached).Forwarded? && FirstA(reply.value).Some? && saved ==>
                  var first := FirstA(reply.value).value;
                  LatestSave(t.log, Trim(name)) == Some(Saved(name, first.ip, first.ttl, s.clock)))
  {
    hide Step, Run, Accounted, Remembered, Lawful, FirstA, LatestSave, Trim, LatestUpdate;
    var t := Looked(c, s, id, name, local, cached);
    Asked(c, t, id, reply, saved);
    RunQuery(c, s, id, name, reply, local, cached, saved);
  }

  lemma RunQuery(c: Platform, s: Server, id: nat, name: string, reply: Option<seq<Record>>,
                 local: bool, cached: bool, saved: bool)
    ensures var t := Step(c, Step(c, Step(c, s, Arrive(id, name, true), true), Local(id, local), true),
                          Cached(id, cached), true);
            Run(c, s, Query(id, name, reply, local, cached, saved), true)
            == Step(c, Step(c, t, Reply(id, reply), true), Save(id, saved), true)
  {
    hide Step, Run;
    var v, w, x := Arrive(id, name, true), Local(id, local), Cached(id, cached);
    var y, z := Reply(id, reply), Save(id, saved);
    RunNext(c, s, v, [w, x, y, z]);
    assert [v] + [w, x, y, z] == [v, w, x, y, z] && [w] + [x, y, z] == [w, x, y, z];
    assert [x] + [y, z] == [x, y, z] && [y] + [z] == [y, z] && [z] + [] == [z];
    var s1 := Step(c, s, v, true);
    RunNext(c, s1, w, [x, y, z]);
    var s2 := Step(c, s1, w, true);
    RunNext(c, s2, x, [y, z]);
    var s3 := Step(c, s2, x, true);
    RunNext(c, s3, y, [z]);
    RunNext(c, Step(c, s3, y, true), z, []);
    RunNone(c, Step(c, Step(c, s3, y, true), z, true));
  }

  lemma RunNone(c: Platform, s: Server)
    ensures Run(c, s, [], true) == s
  {
  }

  /** In every reachable state a new query for an A record, run through, is answered as expected,
      and the first A record of a forwarded answer is what is saved for its name. */
  lemma QueryAnswered(c: Platform, clock: nat, actions: seq<Action>, id: nat, name: string,
                      reply: Option<seq<Record>>, local: bool, cached: bool, saved: bool)
    requires Lawful(c) && InRange(clock) && id !in Run(c, Fresh(clock), actions, true).tasks
    ensures var s := Run(c, Fresh(clock), actions, true);
            var t := Run(c, s, Query(id, name, reply, local, cached, saved), true);
            && At(t, id, Done(Expected(c, s, name, reply, local, cached)))
            && (Expected(c, s, name, reply, local, cached).Forwarded? && FirstA(reply.value).Some? && saved ==>
                  var first := FirstA(reply.value).value;
                  LatestSave(t.log, Trim(name)) == Some(Saved(name, first.ip, first.ttl, s.clock)))
  {
    RunAccounted(c, Fresh(clock), actions);
    RunRemembers(c, Fresh(clock), actions);
    QueryRuns(c, Run(c, Fresh(clock), actions, true), id, name, reply, local, cached, saved);
  }

  /** What the log has for an answer out of a table. */
  ghost predicate Logged(c: Platform, log: seq<Event>, task: Task) {
    task.phase.Done? ==>
      match task.phase.answer
      case Authoritative(ip, ttl) =>
        ttl == 60 && exists k :: 0 <= k < |log| && log[k].Changed? && Trim(log[k].domain) == Trim(task.name)
                                 && c.parse(log[k].text) == Some(ip)
      case FromCache(ip, ttl) =>
        ttl == 300 && exists k :: 0 <= k < |log| && log[k].Served? && log[k].name == task.name && log[k].ip == ip
      case _ => true
  }

  ghost predicate AllLogged(c: Platform, s: Server) {
    forall id :: id in s.tasks ==> Logged(c, s.log, s.tasks[id])
  }

  lemma LoggedStill(c: Platform, log: seq<Event>, e: Event, task: Task)
    requires Logged(c, log, task)
    ensures Logged(c, log + [e], task)
  {
    if task.phase.Done? && task.phase.answer.Authoritative? {
      var k :| 0 <= k < |log| && log[k].Changed? && Trim(log[k].domain) == Trim(task.name)
               && c.parse(log[k].text) == Some(task.phase.answer.ip);
      assert (log + [e])[k] == log[k];
    }
    if task.phase.Done? && task.phase.answer.FromCache? {
      var k :| 0 <= k < |log| && log[k].Served? && log[k].name == task.name && log[k].ip == task.phase.answer.ip;
      assert (log + [e])[k] == log[k];
    }
  }

  lemma {:induction false} LatestIsLogged(log: seq<Event>, d: string)
    requires LatestUpdate(log, d).Some?
    ensures exists k :: 0 <= k < |log| && log[k].Changed? && Trim(log[k].domain) == d
                        && log[k].text == LatestUpdate(log, d).value
  {
    var n := |log| - 1;
    if !(log[n].Changed? && Trim(log[n].domain) == d) {
      LatestIsLogged(log[..n], d);
      var k :| 0 <= k < n && log[..n][k].Changed? && Trim(log[..n][k].domain) == d
               && log[..n][k].text == LatestUpdate(log, d).value;
      assert log[k] == log[..n][k];
    }
  }

  lemma LocalLogged(c: Platform, s: Server, id: nat, ok: bool)
    requires Accounted(c, s) && AllLogged(c, s)
    ensures AllLogged(c, Step(c, s, Local(id, ok), true))
  {
    hide Accounted, LatestUpdate, Trim;
    if At(s, id, AtLocal) && LookupLocal(c, s.tables, s.tasks[id].name, ok).Some? {
      LocalIff(c, s, s.tasks[id].name, ok);
      LatestIsLogged(s.log, Trim(s.tasks[id].name));
    }
  }

  lemma CachedLogged(c: Platform, s: Server, id: nat, ok: bool)
    requires AllLogged(c, s)
    ensures AllLogged(c, Step(c, s, Cached(id, ok), true))
  {
    hide Trim, LookupCache;
    var t := Step(c, s, Cached(id, ok), true);
    forall x | x in t.tasks
      ensures Logged(c, t.log, t.tasks[x])
    {
      if t.log != s.log {
        LoggedStill(c, s.log, t.log[|s.log|], s.tasks[x]);
        assert t.log[|s.log|].Served?;
      }
    }
  }

  lemma StepLogged(c: Platform, s: Server, a: Action)
    requires Accounted(c, s) && AllLogged(c, s)
    ensures AllLogged(c, Step(c, s, a, true))
  {
    match a
    case Local(id, ok) => LocalLogged(c, s, id, ok);
    case Cached(id, ok) => CachedLogged(c, s, id, ok);
    case _ =>
      hide Logged, Accounted, LookupLocal, LookupCache, Cleanup, SaveToCache, DdnsUpdate, FirstA, UpdateStatus;
      OtherLogged(c, s, a);
  }

  lemma OtherLogged(c: Platform, s: Server, a: Action)
    requires AllLogged(c, s) && !a.Local? && !a.Cached?
    ensures AllLogged(c, Step(c, s, a, true))
  {
    hide LookupLocal, LookupCache, Cleanup, SaveToCache, DdnsUpdate, FirstA, UpdateStatus, Trim;
    var t := Step(c, s, a, true);
    if t.log != s.log {
      AllLoggedStill(c, s, t.log[|s.log|]);
      assert AllLogged(c, s.(log := t.log));
    }
    hide Logged;
    NewTasksLogged(c, s, a);
  }

  lemma AllLoggedStill(c: Platform, s: Server, e: Event)
    requires AllLogged(c, s)
    ensures AllLogged(c, Log(s, e))
  {
    forall x | x in s.tasks
      ensures Logged(c, s.log + [e], s.tasks[x])
    {
      LoggedStill(c, s.log, e, s.tasks[x]);
    }
  }

  lemma NewTasksLogged(c: Platform, s: Server, a: Action)
    requires !a.Local? && !a.Cached?
    ensures forall x :: x in Step(c, s, a, true).tasks ==>
              (x in s.tasks && Step(c, s, a, true).tasks[x] == s.tasks[x])
              || Logged(c, Step(c, s, a, true).log, Step(c, s, a, true).tasks[x])
  {
    hide LookupLocal, LookupCache, Cleanup, SaveToCache, DdnsUpdate, FirstA, UpdateStatus, Trim;
  }

  lemma {:induction false} RunLogged(c: Platform, s: Server, actions: seq<Action>)
    requires Lawful(c) && InRange(s.clock) && Accounted(c, s) && AllLogged(c, s)
    ensures AllLogged(c, Run(c, s, actions, true))
    decreases actions
  {
    hide Step, AllLogged, Accounted, Lawful;
    if actions != [] {
      StepAccounted(c, s, actions[0]);
      StepLogged(c, s, actions[0]);
      RunLogged(c, Step(c, s, actions[0], true), actions[1..]);
    }
  }

  /** Every answer out of a table has its event: an update of the name, or a service from the
      cache, which `ServedFromForwarder` traces further. */
  lemma AnswersLogged(c: Platform, clock: nat, actions: seq<Action>, id: nat)
    requires Lawful(c) && InRange(clock) && id in Run(c, Fresh(clock), actions, true).tasks
    ensures var s := Run(c, Fresh(clock), actions, true); Logged(c, s.log, s.tasks[id])
  {
    RunLogged(c, Fresh(clock), actions);
  }

  /** A cleanup that runs leaves exactly the rows whose latest save has not expired before now. */
  lemma CleanedUp(c: Platform, s: Server, d: string)
    requires Lawful(c) && InRange(s.clock) && Remembered(c, s.tables.cache, s.log, s.clock)
    ensures var t := Step(c, s, Clean(true), true);
            d in t.tables.cache <==>
              d in s.tables.cache && var e := LatestSave(s.log, d).value; s.clock <= e.at + e.ttl * 1_000_000_000
    ensures Step(c, s, Clean(false), true) == s && Step(c, s, Clean(true), false) == s
  {
    if d in s.tables.cache {
      var e := LatestSave(s.log, d).value;
      assert RowKept(c, s.tables.cache, d, e);
      assert c.less(c.stamp(Expiry(e.at, e.ttl)), c.stamp(s.clock)) <==> Expiry(e.at, e.ttl) < s.clock;
    }
  }

  /** An update counts exactly when its address parses and the statement runs. */
  lemma UpdateStored(c: Platform, s: Server, domain: string, ip: string, ok: bool, d: string)
    ensures var t := Step(c, s, Update(domain, ip, ok), true);
            LatestUpdate(t.log, d)
            == if c.parse(ip).Some? && ok && Trim(domain) == d then Some(ip) else LatestUpdate(s.log, d)
  {
    assert (s.log + [Changed(domain, ip)])[..|s.log|] == s.log;
  }

  /** Time passes as long as it stays in range. */
  lemma TimePasses(c: Platform, s: Server, nanos: nat)
    requires InRange(s.clock + nanos)
    ensures Step(c, s, Tick(nanos), true) == s.(clock := s.clock + nanos)
  {
  }

  /** A run goes on from where it was. */
  lemma {:induction false} RunConcat(c: Platform, s: Server, a: seq<Action>, b: seq<Action>, janitor: bool)
    ensures Run(c, s, a + b, janitor) == Run(c, Run(c, s, a, janitor), b, janitor)
    decreases a
  {
    hide Step;
    if a == [] {
      assert a + b == b;
    } else {
      RunConcat(c, Step(c, s, a[0], janitor), a[1..], b, janitor);
      assert (a + b)[1..] == a[1..] + b;
    }
  }

  /** Queries for other records are only ever forwarded. */
  predicate OnlyForwarded(task: Task) {
    task.isA || task.phase.AtForwarder?
    || (task.phase.Done? && (task.phase.answer.NxDomain? || task.phase.answer.Forwarded?))
  }

  ghost predicate OthersForwarded(s: Server) { forall id :: id in s.tasks ==> OnlyForwarded(s.tasks[id]) }

  lemma TaskForwards(c: Platform, s: Server, a: Action)
    requires a.Local? || a.Cached? || a.Reply? || a.Save?
    requires a.id in s.tasks && OnlyForwarded(s.tasks[a.id])
    ensures var t := Step(c, s, a, true);
            a.id in t.tasks && t.tasks == s.tasks[a.id := t.tasks[a.id]] && OnlyForwarded(t.tasks[a.id])
  {
    hide LookupLocal, LookupCache, Cleanup, SaveToCache, DdnsUpdate, FirstA, UpdateStatus;
    assert s.tasks == s.tasks[a.id := s.tasks[a.id]];
  }

  lemma StepForwards(c: Platform, s: Server, a: Action)
    requires OthersForwarded(s)
    ensures OthersForwarded(Step(c, s, a, true))
  {
    if (a.Local? || a.Cached? || a.Reply? || a.Save?) && a.id in s.tasks {
      TaskForwards(c, s, a);
      hide Step;
      assert OthersForwarded(Step(c, s, a, true));
    } else {
      OtherSteps(c, s, a);
    }
  }

  lemma OtherSteps(c: Platform, s: Server, a: Action)
    requires OthersForwarded(s) && ((a.Local? || a.Cached? || a.Reply? || a.Save?) ==> a.id !in s.tasks)
    ensures OthersForwarded(Step(c, s, a, true))
  {
    hide LookupLocal, LookupCache, Cleanup, SaveToCache, DdnsUpdate, FirstA, UpdateStatus;
  }

  lemma {:induction false} OthersOnlyForwarded(c: Platform, s: Server, actions: seq<Action>)
    requires OthersForwarded(s)
    ensures OthersForwarded(Run(c, s, actions, true))
    decreases actions
  {
    if actions != [] {
      StepForwards(c, s, actions[0]);
      OthersOnlyForwarded(c, Step(c, s, actions[0], true), actions[1..]);
    }
  }

  /** A query for another record is answered with what the forwarder says, and leaves both tables
      as they are. */
  lemma OtherAnswered(c: Platform, s: Server, id: nat, name: string, reply: Option<seq<Record>>)
    requires id !in s.tasks
    ensures var t := Step(c, Step(c, s, Arrive(id, name, false), true), Reply(id, reply), true);
            && At(t, id, Done(if reply.None? then NxDomain else Forwarded(reply.value)))
            && t.tables == s.tables && t.log == s.log
  {
  }
}
