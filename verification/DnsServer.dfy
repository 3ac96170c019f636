/** Concurrent queries, dynamic updates and the cache janitor, interleaved at the mutex. */
module DnsServer {
  import opened Basics
  import Calendar
  import opened DnsTables

  datatype Record = Record(isA: bool, ip: Ip, ttl: u32)

  const LOCAL_TTL: nat := 60
  const CACHE_TTL: nat := 300

  datatype Answer =
    | Authoritative(ip: Ip, ttl: nat)
    | FromCache(ip: Ip, ttl: nat)
    | Forwarded(records: seq<Record>)
    | NxDomain

  /** Where a query is between two acquisitions of the mutex. */
  datatype Phase =
    | AtLocal
    | AtCache
    | AtForwarder
    | AtSave(records: seq<Record>, first: Record)
    | Done(answer: Answer)

  datatype Task = Task(name: string, isA: bool, phase: Phase)

  /** What happened, oldest first. */
  datatype Event =
    | ForwarderSaid(name: string, ip: Ip, ttl: u32)
    | Saved(name: string, ip: Ip, ttl: u32, at: nat)
    | Served(name: string, ip: Ip, at: nat)
    | Changed(domain: string, text: string)

  datatype Server = Server(tables: Tables, tasks: map<nat, Task>, clock: nat, log: seq<Event>)

  datatype Action =
    | Arrive(id: nat, name: string, isA: bool)
    | Local(id: nat, ok: bool)
    | Cached(id: nat, ok: bool)
    | Reply(id: nat, reply: Option<seq<Record>>)
    | Save(id: nat, ok: bool)
    | Update(domain: string, ip: string, ok: bool)
    | Clean(ok: bool)
    | Restart
    | Tick(nanos: nat)

  /** The loop over the answer section that stops at the first A record. */
  function FirstA(records: seq<Record>): (r: Option<Record>)
    ensures r.Some? ==> r.value.isA && r.value in records
    ensures r.None? <==> forall x :: x in records ==> !x.isA
    ensures r.Some? ==> exists i :: 0 <= i < |records| && records[i] == r.value
                                    && forall j :: 0 <= j < i ==> !records[j].isA
  {
    if records == [] then None
    else if records[0].isA then Some(records[0])
    else FirstA(records[1..])
  }

  predicate At(s: Server, id: nat, p: Phase) { id in s.tasks && s.tasks[id].phase == p }

  function Move(s: Server, id: nat, p: Phase): Server
    requires id in s.tasks
  {
    s.(tasks := s.tasks[id := s.tasks[id].(phase := p)])
  }

  function Log(s: Server, e: Event): Server { s.(log := s.log + [e]) }

  /** A time to which any 32-bit lifetime can be added within the four-digit years. */
  predicate InRange(now: nat) { now + 0x1_0000_0000 * 1_000_000_000 < Calendar.END }

  /** One atomic step. The tables are a file, so they and the log outlive a restart of the
      server; queries do not. `janitor` says whether cleanups are carried out; an action that is
      not enabled changes nothing. The clock never runs backwards. */
  function Step(c: Platform, s: Server, a: Action, janitor: bool): (r: Server)
    ensures s.clock <= r.clock && (InRange(s.clock) ==> InRange(r.clock))
  {
    match a
    case Arrive(id, name, isA) =>
      if id in s.tasks then s
      else s.(tasks := s.tasks[id := Task(name, isA, if isA then AtLocal else AtForwarder)])
    case Local(id, ok) =>
      if !At(s, id, AtLocal) then s
      else (match LookupLocal(c, s.tables, s.tasks[id].name, ok)
            case Some(ip) => Move(s, id, Done(Authoritative(ip, LOCAL_TTL)))
            case None => Move(s, id, AtCache))
    case Cached(id, ok) =>
      if !At(s, id, AtCache) then s
      else (match LookupCache(c, s.tables, s.tasks[id].name, s.clock, ok)
            case Some(ip) => Log(Move(s, id, Done(FromCache(ip, CACHE_TTL))), Served(s.tasks[id].name, ip, s.clock))
            case None => Move(s, id, AtForwarder))
    case Reply(id, reply) =>
      if !At(s, id, AtForwarder) then s
      else (match reply
            case None => Move(s, id, Done(NxDomain))
            case Some(records) =>
              var task := s.tasks[id];
              var first := FirstA(records);
              if task.isA && first.Some?
              then Log(Move(s, id, AtSave(records, first.value)),
                       ForwarderSaid(task.name, first.value.ip, first.value.ttl))
              else Move(s, id, Done(Forwarded(records))))
    case Save(id, ok) =>
      if !(id in s.tasks && s.tasks[id].phase.AtSave?) then s
      else
        var task := s.tasks[id];
        var AtSave(records, first) := task.phase;
        var t := SaveToCache(c, s.tables, task.name, c.show(first.ip), first.ttl, s.clock, ok);
        var r := Move(s, id, Done(Forwarded(records))).(tables := t);
        if ok then Log(r, Saved(task.name, first.ip, first.ttl, s.clock)) else r
    case Update(domain, ip, ok) =>
      var r := s.(tables := DdnsUpdate(c, s.tables, domain, ip, ok));
      if UpdateStatus(c, ip, ok).Updated? then Log(r, Changed(domain, ip)) else r
    case Clean(ok) => if janitor then s.(tables := Cleanup(c, s.tables, s.clock, ok)) else s
    case Restart => s.(tasks := map[])
    case Tick(nanos) => if InRange(s.clock + nanos) then s.(clock := s.clock + nanos) else s
  }

  function Run(c: Platform, s: Server, actions: seq<Action>, janitor: bool): (r: Server)
    ensures s.clock <= r.clock && (InRange(s.clock) ==> InRange(r.clock))
    decreases actions
  {
    if actions == [] then s else Run(c, Step(c, s, actions[0], janitor), actions[1..], janitor)
  }

  // The janitor is invisible.

  /** A row no lookup will ever return again. */
  predicate Dead(c: Platform, row: Row, clock: nat) {
    c.unstamp(row.expires).Some? && c.unstamp(row.expires).value <= clock
  }

  /** `p` has lost only dead rows that `q` still has; everything else agrees. */
  ghost predicate Agree(c: Platform, p: Server, q: Server) {
    && p.tasks == q.tasks && p.clock == q.clock && p.log == q.log && p.tables.records == q.tables.records
    && WellFormed(c, p.tables)
    && (forall d :: d in p.tables.cache ==> d in q.tables.cache && q.tables.cache[d] == p.tables.cache[d])
    && (forall d :: d in q.tables.cache && d !in p.tables.cache ==> Dead(c, q.tables.cache[d], p.clock))
  }

  lemma SameLookup(c: Platform, p: Server, q: Server, name: string, ok: bool)
    requires Agree(c, p, q)
    ensures LookupCache(c, p.tables, name, p.clock, ok) == LookupCache(c, q.tables, name, q.clock, ok)
  {
  }

  lemma CleanAgrees(c: Platform, p: Server, q: Server, ok: bool)
    requires Lawful(c) && Agree(c, p, q) && InRange(p.clock)
    ensures Agree(c, p.(tables := Cleanup(c, p.tables, p.clock, ok)), q)
  {
    if ok {
      forall d | d in p.tables.cache && d !in Cleanup(c, p.tables, p.clock, ok).cache
        ensures Dead(c, p.tables.cache[d], p.clock)
      {
        CleanupDeletesExpired(c, p.tables, p.clock, d);
      }
    }
  }

  lemma SaveAgrees(c: Platform, p: Server, q: Server, name: string, ip: string, ttl: u32, ok: bool)
    requires Lawful(c) && Agree(c, p, q) && InRange(p.clock)
    ensures Agree(c, p.(tables := SaveToCache(c, p.tables, name, ip, ttl, p.clock, ok)),
                  q.(tables := SaveToCache(c, q.tables, name, ip, ttl, q.clock, ok)))
  {
    var t := SaveToCache(c, p.tables, name, ip, ttl, p.clock, ok);
    forall d | d in t.cache
      ensures Timestamp(c, t.cache[d].expires)
    {
      if ok && d == Trim(name) {
        assert t.cache[d].expires == c.stamp(Expiry(p.clock, ttl));
      }
    }
  }

  lemma CachedStepAgrees(c: Platform, p: Server, q: Server, id: nat, ok: bool)
    requires Lawful(c) && Agree(c, p, q) && InRange(p.clock)
    ensures Agree(c, Step(c, p, Cached(id, ok), true), Step(c, q, Cached(id, ok), false))
  {
    if At(p, id, AtCache) { SameLookup(c, p, q, p.tasks[id].name, ok); }
  }

  lemma SaveStepAgrees(c: Platform, p: Server, q: Server, id: nat, ok: bool)
    requires Lawful(c) && Agree(c, p, q) && InRange(p.clock)
    ensures Agree(c, Step(c, p, Save(id, ok), true), Step(c, q, Save(id, ok), false))
  {
    if id in p.tasks && p.tasks[id].phase.AtSave? {
      var first := p.tasks[id].phase.first;
      SaveAgrees(c, p, q, p.tasks[id].name, c.show(first.ip), first.ttl, ok);
    }
  }

  lemma TickAgrees(c: Platform, p: Server, q: Server, later: nat)
    requires Agree(c, p, q) && p.clock <= later
    ensures Agree(c, p.(clock := later), q.(clock := later))
  {
  }

  lemma UpdateAgrees(c: Platform, p: Server, q: Server, domain: string, ip: string, ok: bool)
    requires Agree(c, p, q) && InRange(p.clock)
    ensures Agree(c, Step(c, p, Update(domain, ip, ok), true), Step(c, q, Update(domain, ip, ok), false))
  {
  }

  lemma TaskAgrees(c: Platform, p: Server, q: Server, tasks: map<nat, Task>, log: seq<Event>)
    requires Agree(c, p, q)
    ensures Agree(c, p.(tasks := tasks, log := log), q.(tasks := tasks, log := log))
  {
  }

  /** Steps that touch only a task depend on no cache row. */
  lemma TaskStepSame(c: Platform, p: Server, q: Server, a: Action)
    requires InRange(p.clock) && (a.Arrive? || a.Local? || a.Reply? || a.Restart?)
    requires p.tasks == q.tasks && p.clock == q.clock && p.log == q.log && p.tables.records == q.tables.records
    ensures var (r, r') := (Step(c, p, a, true), Step(c, q, a, false));
            r == p.(tasks := r.tasks, log := r.log) && r' == q.(tasks := r.tasks, log := r.log)
  {
  }

  lemma TaskStepAgrees(c: Platform, p: Server, q: Server, a: Action)
    requires Agree(c, p, q) && InRange(p.clock) && (a.Arrive? || a.Local? || a.Reply? || a.Restart?)
    ensures Agree(c, Step(c, p, a, true), Step(c, q, a, false))
  {
    TaskStepSame(c, p, q, a);
    TaskAgrees(c, p, q, Step(c, p, a, true).tasks, Step(c, p, a, true).log);
  }

  lemma TickStepAgrees(c: Platform, p: Server, q: Server, nanos: nat)
    requires Agree(c, p, q) && InRange(p.clock)
    ensures Agree(c, Step(c, p, Tick(nanos), true), Step(c, q, Tick(nanos), false))
  {
    TickAgrees(c, p, q, p.clock + nanos);
  }

  lemma StepAgrees(c: Platform, p: Server, q: Server, a: Action)
    requires Lawful(c) && Agree(c, p, q) && InRange(p.clock)
    ensures InRange(q.clock) && Agree(c, Step(c, p, a, true), Step(c, q, a, false))
  {
    match a
    case Cached(id, ok) => CachedStepAgrees(c, p, q, id, ok);
    case Clean(ok) => CleanAgrees(c, p, q, ok);
    case Save(id, ok) => SaveStepAgrees(c, p, q, id, ok);
    case Update(domain, ip, ok) => UpdateAgrees(c, p, q, domain, ip, ok);
    case Tick(nanos) => TickStepAgrees(c, p, q, nanos);
    case _ => TaskStepAgrees(c, p, q, a);
  }

  lemma {:induction false} RunAgrees(c: Platform, p: Server, q: Server, actions: seq<Action>)
    requires Lawful(c) && Agree(c, p, q) && InRange(p.clock)
    ensures Agree(c, Run(c, p, actions, true), Run(c, q, actions, false))
    decreases actions
  {
    if actions != [] {
      StepAgrees(c, p, q, actions[0]);
      RunAgrees(c, Step(c, p, actions[0], true), Step(c, q, actions[0], false), actions[1..]);
    }
  }

  /** In every interleaving the server answers as one that never runs cleanup. */
  lemma JanitorIsInvisible(c: Platform, s: Server, actions: seq<Action>)
    requires Lawful(c) && InRange(s.clock) && WellFormed(c, s.tables)
    ensures var p, q := Run(c, s, actions, true), Run(c, s, actions, false);
            p.tasks == q.tasks && p.log == q.log && p.tables.records == q.tables.records
  {
    RunAgrees(c, s, s, actions);
  }

  // Where answers come from.

  /** The latest successful update of `d`, reading the log backwards. */
  function LatestUpdate(log: seq<Event>, d: string): Option<string> {
    if log == [] then None
    else
      var last := log[|log| - 1];
      if last.Changed? && Trim(last.domain) == d then Some(last.text) else LatestUpdate(log[..|log| - 1], d)
  }

  predicate Source(e: Event, c: Platform, d: string, row: Row) {
    e.Saved? && InRange(e.at) && Trim(e.name) == d && row == Row(c.show(e.ip), c.stamp(Expiry(e.at, e.ttl)))
  }

  /** Some save in the log wrote this row no later than `clock`. */
  ghost predicate Sourced(c: Platform, log: seq<Event>, clock: nat, d: string, row: Row) {
    exists k :: 0 <= k < |log| && Source(log[k], c, d, row) && log[k].at <= clock
  }

  /** A save of this name's forwarder answer that has not expired at the serving time. */
  predicate Justifies(e: Event, served: Event)
    requires served.Served?
  {
    && e.Saved? && Trim(e.name) == Trim(served.name) && e.ip == served.ip
    && e.at <= served.at < e.at + e.ttl * 1_000_000_000
  }

  /** What must precede an event in the log. */
  ghost predicate Supported(log: seq<Event>, e: Event) {
    match e
    case Saved(name, ip, ttl, _) => ForwarderSaid(name, ip, ttl) in log
    case Served(_, _, _) => exists j :: 0 <= j < |log| && Justifies(log[j], e)
    case _ => true
  }

  ghost predicate LogJustified(log: seq<Event>) {
    forall k :: 0 <= k < |log| ==> Supported(log[..k], log[k])
  }

  ghost predicate RowsSourced(c: Platform, cache: map<string, Row>, log: seq<Event>, clock: nat) {
    forall d :: d in cache ==> Sourced(c, log, clock, d, cache[d])
  }

  ghost predicate SavesAnnounced(tasks: map<nat, Task>, log: seq<Event>) {
    forall id :: id in tasks && tasks[id].phase.AtSave? ==> Announced(tasks[id]) in log
  }

  function Announced(task: Task): Event
    requires task.phase.AtSave?
  {
    ForwarderSaid(task.name, task.phase.first.ip, task.phase.first.ttl)
  }

  ghost predicate RecordsLatest(c: Platform, records: map<string, string>, log: seq<Event>) {
    forall d :: LatestUpdate(log, d) == (if d in records then Some(records[d]) else None)
                && (d in records ==> c.parse(records[d]).Some?)
  }

  /** Every row, event, pending save and record is accounted for by the log. */
  ghost predicate Accounted(c: Platform, s: Server) {
    && RowsSourced(c, s.tables.cache, s.log, s.clock)
    && LogJustified(s.log)
    && SavesAnnounced(s.tasks, s.log)
    && RecordsLatest(c, s.tables.records, s.log)
  }

  lemma RowsKept(c: Platform, cache: map<string, Row>, log: seq<Event>, clock: nat, e: Event, later: nat)
    requires RowsSourced(c, cache, log, clock) && clock <= later
    ensures RowsSourced(c, cache, log + [e], later)
  {
    forall d | d in cache
      ensures Sourced(c, log + [e], later, d, cache[d])
    {
      var k :| 0 <= k < |log| && Source(log[k], c, d, cache[d]) && log[k].at <= clock;
      assert (log + [e])[k] == log[k];
    }
  }

  lemma EventAppended(log: seq<Event>, e: Event)
    requires LogJustified(log) && Supported(log, e)
    ensures LogJustified(log + [e])
  {
    var longer := log + [e];
    forall k | 0 <= k < |longer|
      ensures Supported(longer[..k], longer[k])
    {
      assert longer[..k] == if k < |log| then log[..k] else log;
    }
  }

  lemma RecordsKept(c: Platform, records: map<string, string>, log: seq<Event>, e: Event)
    requires RecordsLatest(c, records, log) && !e.Changed?
    ensures RecordsLatest(c, records, log + [e])
  {
    assert (log + [e])[..|log|] == log;
  }

  /** A cache hit is backed by an unexpired save. */
  lemma HitIsJustified(c: Platform, s: Server, name: string, ok: bool)
    requires Lawful(c) && Accounted(c, s) && LookupCache(c, s.tables, name, s.clock, ok).Some?
    ensures Supported(s.log, Served(name, LookupCache(c, s.tables, name, s.clock, ok).value, s.clock))
  {
    hide LogJustified, SavesAnnounced, RecordsLatest, Trim;
    var row := s.tables.cache[Trim(name)];
    assert Sourced(c, s.log, s.clock, Trim(name), row);
    var k :| 0 <= k < |s.log| && Source(s.log[k], c, Trim(name), row) && s.log[k].at <= s.clock;
    assert Justifies(s.log[k], Served(name, LookupCache(c, s.tables, name, s.clock, ok).value, s.clock));
  }

  lemma CachedAccounted(c: Platform, s: Server, id: nat, ok: bool)
    requires Lawful(c) && InRange(s.clock) && Accounted(c, s) && At(s, id, AtCache)
    ensures Accounted(c, Step(c, s, Cached(id, ok), true))
  {
    hide LookupCache, LookupLocal, SaveToCache, DdnsUpdate, Cleanup, FirstA, UpdateStatus, Supported, Sourced, Lawful;
    var hit := LookupCache(c, s.tables, s.tasks[id].name, s.clock, ok);
    if hit.Some? {
      var e := Served(s.tasks[id].name, hit.value, s.clock);
      HitIsJustified(c, s, s.tasks[id].name, ok);
      EventAppended(s.log, e);
      RowsKept(c, s.tables.cache, s.log, s.clock, e, s.clock);
      RecordsKept(c, s.tables.records, s.log, e);
    }
  }

  lemma ReplyAccounted(c: Platform, s: Server, id: nat, reply: Option<seq<Record>>)
    requires InRange(s.clock) && Accounted(c, s) && At(s, id, AtForwarder)
    ensures Accounted(c, Step(c, s, Reply(id, reply), true))
  {
    if reply.Some? && s.tasks[id].isA && FirstA(reply.value).Some? {
      var first := FirstA(reply.value).value;
      var e := ForwarderSaid(s.tasks[id].name, first.ip, first.ttl);
      EventAppended(s.log, e);
      RowsKept(c, s.tables.cache, s.log, s.clock, e, s.clock);
      RecordsKept(c, s.tables.records, s.log, e);
    }
  }

  lemma SaveAccounted(c: Platform, s: Server, id: nat)
    requires InRange(s.clock) && Accounted(c, s) && id in s.tasks && s.tasks[id].phase.AtSave?
    ensures Accounted(c, Step(c, s, Save(id, true), true))
  {
    var task := s.tasks[id];
    var first := task.phase.first;
    var e := Saved(task.name, first.ip, first.ttl, s.clock);
    assert Announced(task) in s.log;
    EventAppended(s.log, e);
    RowsKept(c, s.tables.cache, s.log, s.clock, e, s.clock);
    RecordsKept(c, s.tables.records, s.log, e);
    RowSaved(c, s.tables, s.log, e);
  }

  lemma RowSaved(c: Platform, t: Tables, log: seq<Event>, e: Event)
    requires e.Saved? && InRange(e.at) && RowsSourced(c, t.cache, log + [e], e.at)
    ensures RowsSourced(c, SaveToCache(c, t, e.name, c.show(e.ip), e.ttl, e.at, true).cache, log + [e], e.at)
  {
    var row := Row(c.show(e.ip), c.stamp(Expiry(e.at, e.ttl)));
    assert Source((log + [e])[|log|], c, Trim(e.name), row);
  }

  lemma UpdateAccounted(c: Platform, s: Server, domain: string, ip: string)
    requires InRange(s.clock) && Accounted(c, s) && c.parse(ip).Some?
    ensures Accounted(c, Step(c, s, Update(domain, ip, true), true))
  {
    var e := Changed(domain, ip);
    assert (s.log + [e])[..|s.log|] == s.log;
    EventAppended(s.log, e);
    RowsKept(c, s.tables.cache, s.log, s.clock, e, s.clock);
  }

  lemma StepAccounted(c: Platform, s: Server, a: Action)
    requires Lawful(c) && InRange(s.clock) && Accounted(c, s)
    ensures Accounted(c, Step(c, s, a, true))
  {
    match a
    case Cached(id, ok) =>
      if At(s, id, AtCache) { CachedAccounted(c, s, id, ok); }
    case Reply(id, reply) =>
      if At(s, id, AtForwarder) { ReplyAccounted(c, s, id, reply); }
    case Save(id, ok) =>
      if ok && id in s.tasks && s.tasks[id].phase.AtSave? { SaveAccounted(c, s, id); }
    case Update(domain, ip, ok) =>
      if UpdateStatus(c, ip, ok).Updated? { UpdateAccounted(c, s, domain, ip); }
    case Clean(ok) => CleanAccounted(c, s, ok);
    case Arrive(_, _, _) =>
    case Local(_, _) =>
    case Restart =>
    case Tick(nanos) => TickAccounted(c, s, nanos);
  }

  lemma CleanAccounted(c: Platform, s: Server, ok: bool)
    requires InRange(s.clock) && Accounted(c, s)
    ensures Accounted(c, Step(c, s, Clean(ok), true))
  {
  }

  lemma TickAccounted(c: Platform, s: Server, nanos: nat)
    requires InRange(s.clock) && Accounted(c, s)
    ensures Accounted(c, Step(c, s, Tick(nanos), true))
  {
    forall d | d in s.tables.cache
      ensures Sourced(c, s.log, s.clock + nanos, d, s.tables.cache[d])
    {
      assert Sourced(c, s.log, s.clock, d, s.tables.cache[d]);
    }
  }

  /** Every reachable state accounts for its tables and its log. */
  lemma {:induction false} RunAccounted(c: Platform, s: Server, actions: seq<Action>)
    requires Lawful(c) && InRange(s.clock) && Accounted(c, s)
    ensures Accounted(c, Run(c, s, actions, true))
    decreases actions
  {
    if actions != [] {
      StepAccounted(c, s, actions[0]);
      RunAccounted(c, Step(c, s, actions[0], true), actions[1..]);
    }
  }

  /** The very first start, before the table file exists. */
  function Fresh(clock: nat): Server { Server(Tables(map[], map[]), map[], clock, []) }

  /** Every address served from the cache came from a forwarder answer for the same name up
      to trailing dots, saved at some time and served within the answer's lifetime; a client
      that honours the 300 second lifetime it is given stops within 300 seconds of that. */
  lemma ServedFromForwarder(c: Platform, clock: nat, actions: seq<Action>, k: nat)
    requires Lawful(c) && InRange(clock)
    requires k < |Run(c, Fresh(clock), actions, true).log|
    requires Run(c, Fresh(clock), actions, true).log[k].Served?
    ensures var log := Run(c, Fresh(clock), actions, true).log;
            exists i, j :: 0 <= i < j < k && log[j].Saved? && Justifies(log[j], log[k])
              && log[i] == ForwarderSaid(log[j].name, log[k].ip, log[j].ttl)
              && log[k].at + CACHE_TTL * 1_000_000_000 < log[j].at + (log[j].ttl + CACHE_TTL) * 1_000_000_000
  {
    RunAccounted(c, Fresh(clock), actions);
    var log := Run(c, Fresh(clock), actions, true).log;
    assert Supported(log[..k], log[k]);
    var j :| 0 <= j < k && Justifies(log[..k][j], log[k]);
    assert Supported(log[..j], log[j]);
    var i :| 0 <= i < j && log[..j][i] == ForwarderSaid(log[j].name, log[j].ip, log[j].ttl);
    assert log[..k][j] == log[j] && log[..j][i] == log[i];
  }

  /** An A query whose local lookup runs after an update of its name is answered with the
      address of the latest one. */
  lemma LatestUpdateWins(c: Platform, clock: nat, actions: seq<Action>, id: nat)
    requires Lawful(c) && InRange(clock)
    requires var s := Run(c, Fresh(clock), actions, true);
             At(s, id, AtLocal) && LatestUpdate(s.log, Trim(s.tasks[id].name)).Some?
    ensures var s := Run(c, Fresh(clock), actions, true);
            var ip := c.parse(LatestUpdate(s.log, Trim(s.tasks[id].name)).value);
            ip.Some? && At(Step(c, s, Local(id, true), true), id, Done(Authoritative(ip.value, LOCAL_TTL)))
  {
    RunAccounted(c, Fresh(clock), actions);
  }

  // The cache remembers.

  /** The latest save for `d`, reading the log backwards. */
  function LatestSave(log: seq<Event>, d: string): (r: Option<Event>)
    ensures r.Some? ==> r.value.Saved?
  {
    if log == [] then None
    else
      var last := log[|log| - 1];
      if last.Saved? && Trim(last.name) == d then Some(last) else LatestSave(log[..|log| - 1], d)
  }

  predicate Alive(e: Event, clock: nat)
    requires e.Saved?
  {
    clock < e.at + e.ttl * 1_000_000_000
  }

  ghost predicate RowKept(c: Platform, cache: map<string, Row>, d: string, e: Event)
    requires e.Saved?
  {
    InRange(e.at) && d in cache && cache[d] == Row(c.show(e.ip), c.stamp(Expiry(e.at, e.ttl)))
  }

  /** As long as its latest save is alive, a name has the row that save wrote, and a row is
      never anything else. */
  ghost predicate Remembered(c: Platform, cache: map<string, Row>, log: seq<Event>, clock: nat) {
    && (forall d :: LatestSave(log, d).Some? && Alive(LatestSave(log, d).value, clock) ==>
          RowKept(c, cache, d, LatestSave(log, d).value))
    && (forall d :: d in cache ==> LatestSave(log, d).Some? && RowKept(c, cache, d, LatestSave(log, d).value))
  }

  lemma OtherEvent(log: seq<Event>, e: Event)
    ensures forall d :: !(e.Saved? && Trim(e.name) == d) ==> LatestSave(log + [e], d) == LatestSave(log, d)
    ensures e.Saved? ==> LatestSave(log + [e], Trim(e.name)) == Some(e)
  {
    assert (log + [e])[..|log|] == log;
  }

  lemma CleanRemembers(c: Platform, s: Server, ok: bool)
    requires Lawful(c) && InRange(s.clock) && Remembered(c, s.tables.cache, s.log, s.clock)
    ensures Remembered(c, Cleanup(c, s.tables, s.clock, ok).cache, s.log, s.clock)
  {
    forall d | LatestSave(s.log, d).Some? && Alive(LatestSave(s.log, d).value, s.clock)
      ensures RowKept(c, Cleanup(c, s.tables, s.clock, ok).cache, d, LatestSave(s.log, d).value)
    {
      var e := LatestSave(s.log, d).value;
      assert RowKept(c, s.tables.cache, d, e);
      assert c.less(c.stamp(Expiry(e.at, e.ttl)), c.stamp(s.clock)) <==> Expiry(e.at, e.ttl) < s.clock;
    }
  }

  lemma SaveRemembers(c: Platform, s: Server, e: Event)
    requires InRange(s.clock) && Remembered(c, s.tables.cache, s.log, s.clock) && e.Saved? && e.at == s.clock
    ensures var t := SaveToCache(c, s.tables, e.name, c.show(e.ip), e.ttl, s.clock, true);
            Remembered(c, t.cache, s.log + [e], s.clock)
  {
    hide LatestSave, Trim;
    OtherEvent(s.log, e);
  }

  lemma EventRemembers(c: Platform, s: Server, e: Event)
    requires Remembered(c, s.tables.cache, s.log, s.clock) && !e.Saved?
    ensures Remembered(c, s.tables.cache, s.log + [e], s.clock)
  {
    OtherEvent(s.log, e);
  }

  lemma StepRemembers(c: Platform, s: Server, a: Action, r: Server)
    requires Lawful(c) && InRange(s.clock) && Remembered(c, s.tables.cache, s.log, s.clock)
    requires r == Step(c, s, a, true)
    ensures Remembered(c, r.tables.cache, r.log, r.clock)
  {
    hide LookupCache, LookupLocal, FirstA, Trim;
    match a
    case Clean(ok) => CleanRemembers(c, s, ok);
    case Save(id, ok) =>
      if ok && id in s.tasks && s.tasks[id].phase.AtSave? {
        var first := s.tasks[id].phase.first;
        SaveRemembers(c, s, Saved(s.tasks[id].name, first.ip, first.ttl, s.clock));
      }
    case Tick(_) =>
    case Arrive(_, _, _) =>
    case Local(_, _) =>
    case Restart =>
    case Cached(_, _) => if r.log != s.log { EventRemembers(c, s, r.log[|s.log|]); }
    case Reply(_, _) => if r.log != s.log { EventRemembers(c, s, r.log[|s.log|]); }
    case Update(_, _, _) => if r.log != s.log { EventRemembers(c, s, r.log[|s.log|]); }
  }

  lemma {:induction false} RunRemembers(c: Platform, s: Server, actions: seq<Action>)
    requires Lawful(c) && InRange(s.clock) && Remembered(c, s.tables.cache, s.log, s.clock)
    ensures var r := Run(c, s, actions, true); Remembered(c, r.tables.cache, r.log, r.clock)
    decreases actions
  {
    if actions != [] {
      StepRemembers(c, s, actions[0], Step(c, s, actions[0], true));
      RunRemembers(c, Step(c, s, actions[0], true), actions[1..]);
    }
  }

  /** A cache lookup made while the name's latest saved answer is alive is answered with it,
      whatever cleanups ran in between. */
  lemma AliveIsServed(c: Platform, clock: nat, actions: seq<Action>, id: nat)
    requires Lawful(c) && InRange(clock)
    requires var s := Run(c, Fresh(clock), actions, true);
             At(s, id, AtCache) && LatestSave(s.log, Trim(s.tasks[id].name)).Some?
             && Alive(LatestSave(s.log, Trim(s.tasks[id].name)).value, s.clock)
    ensures var s := Run(c, Fresh(clock), actions, true);
            var ip := LatestSave(s.log, Trim(s.tasks[id].name)).value.ip;
            At(Step(c, s, Cached(id, true), true), id, Done(FromCache(ip, CACHE_TTL)))
  {
    RunRemembers(c, Fresh(clock), actions);
    var s := Run(c, Fresh(clock), actions, true);
    assert RowKept(c, s.tables.cache, Trim(s.tasks[id].name), LatestSave(s.log, Trim(s.tasks[id].name)).value);
  }

  /** The same for the program's own timestamps: all it takes is that addresses survive
      being written and read back. */
  lemma ChronoJanitorIsInvisible(parse: string -> Option<Ip>, show: Ip -> string, clock: nat, actions: seq<Action>)
    requires InRange(clock) && forall ip: Ip :: parse(show(ip)) == Some(ip)
    ensures var c := Chrono(parse, show);
            Run(c, Fresh(clock), actions, true).tasks == Run(c, Fresh(clock), actions, false).tasks
  {
    ChronoIsLawful(parse, show);
    JanitorIsInvisible(Chrono(parse, show), Fresh(clock), actions);
  }
}
