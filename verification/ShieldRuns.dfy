/** All interleavings of connection handlers and the janitor. */
module ShieldRuns {
  import opened Basics
  import opened Shield

  /** Where a handler stands between two lock-protected blocks. A refused handler still has
      its drop guard to run; a leaving one only its permit to give back. */
  datatype Phase = Arrived | Permitted | Admitted | Cleared | Refused | Leaving | Gone

  datatype Handler = Handler(key: SocketAddr, phase: Phase)

  /** A request that passed the rate block: when, in which window, and as which of it. */
  datatype Pass = Pass(time: nat, window: nat, rank: nat)

  datatype System = System(registry: Registry, available: nat, handlers: map<nat, Handler>, clock: nat,
                           passes: map<SocketAddr, seq<Pass>>)

  datatype Action =
    | Accept(id: nat, key: SocketAddr)
    | Acquire(id: nat)
    | Enter(id: nat)
    | Request(id: nat)
    | Finish(id: nat)
    | GiveBack(id: nat)
    | Janitor(shard: set<SocketAddr>)
    | Tick(nanos: nat)

  predicate Counts(p: Phase) { p.Admitted? || p.Cleared? || p.Refused? }

  predicate Holds(p: Phase) { p.Permitted? || Counts(p) || p.Leaving? }

  predicate Is(s: System, id: nat, p: Phase) { id in s.handlers && s.handlers[id].phase == p }

  function Passes(s: System, k: SocketAddr): seq<Pass> { if k in s.passes then s.passes[k] else [] }

  function Moved(h: map<nat, Handler>, id: nat, p: Phase): map<nat, Handler>
    requires id in h
  {
    h[id := h[id].(phase := p)]
  }

  /** One atomic step; an action that is not enabled changes nothing. */
  function Step(s: System, a: Action): (r: System)
    ensures s.clock <= r.clock
  {
    match a
    case Accept(id, key) =>
      if id in s.handlers then s else s.(handlers := s.handlers[id := Handler(key, Arrived)])
    case Acquire(id) =>
      if !Is(s, id, Arrived) then s
      else if s.available == 0 then s.(handlers := Moved(s.handlers, id, Gone))
      else s.(available := s.available - 1, handlers := Moved(s.handlers, id, Permitted))
    case Enter(id) =>
      if !Is(s, id, Permitted) then s
      else
        var (r, ok) := Admit(s.registry, s.handlers[id].key, s.clock);
        s.(registry := r, handlers := Moved(s.handlers, id, if ok then Admitted else Leaving))
    case Request(id) =>
      if !Is(s, id, Admitted) then s
      else
        var k := s.handlers[id].key;
        var (r, ok) := CheckRate(s.registry, k, s.clock);
        var t := s.(registry := r, handlers := Moved(s.handlers, id, if ok then Cleared else Refused));
        if ok then t.(passes := s.passes[k := Passes(s, k) + [Pass(s.clock, r[k].lastRequest, r[k].rpsCount)]]) else t
    case Finish(id) =>
      if !(id in s.handlers && Counts(s.handlers[id].phase)) then s
      else s.(registry := Leave(s.registry, s.handlers[id].key), handlers := Moved(s.handlers, id, Leaving))
    case GiveBack(id) =>
      if !Is(s, id, Leaving) then s
      else s.(available := s.available + 1, handlers := Moved(s.handlers, id, Gone))
    case Janitor(shard) => s.(registry := Retain(s.registry, shard, s.clock))
    case Tick(nanos) => s.(clock := s.clock + nanos)
  }

  function Run(s: System, actions: seq<Action>): System
    decreases actions
  {
    if actions == [] then s else Run(Step(s, actions[0]), actions[1..])
  }

  function Start(clock: nat): System { System(map[], MAX_GLOBAL_CONNECTIONS, map[], clock, map[]) }

  // Counting.

  function Live(h: map<nat, Handler>, k: SocketAddr): set<nat> {
    set id | id in h && h[id].key == k && Counts(h[id].phase)
  }

  function Holders(h: map<nat, Handler>): set<nat> {
    set id | id in h && Holds(h[id].phase)
  }

  /** The registry counts live handlers, within its limit; the semaphore counts holders. */
  ghost predicate Counted(s: System) {
    && (forall k :: |Live(s.handlers, k)| == Count(s.registry, k) <= MAX_CONN_PER_IP)
    && |Holders(s.handlers)| + s.available == MAX_GLOBAL_CONNECTIONS
  }

  function Delta(before: bool, after: bool): int {
    (if after then 1 else 0) - (if before then 1 else 0)
  }

  lemma SizeWithout(a: set<nat>, x: nat)
    ensures |a| == |a - {x}| + if x in a then 1 else 0
  {
    assert a == if x in a then (a - {x}) + {x} else a - {x};
  }

  lemma OthersStay(h: map<nat, Handler>, id: nat, p: Phase, k: SocketAddr)
    requires id in h
    ensures Live(Moved(h, id, p), k) - {id} == Live(h, k) - {id}
    ensures id in Live(Moved(h, id, p), k) <==> h[id].key == k && Counts(p)
  {
    hide Counts;
    var g := Moved(h, id, p);
    forall x | x != id
      ensures x in Live(g, k) <==> x in Live(h, k)
    {
      assert x in g <==> x in h;
    }
  }

  lemma MoveLive(h: map<nat, Handler>, id: nat, p: Phase, k: SocketAddr)
    requires id in h
    ensures |Live(Moved(h, id, p), k)|
            == |Live(h, k)| + (if h[id].key == k then Delta(Counts(h[id].phase), Counts(p)) else 0)
  {
    hide Counts;
    var g := Moved(h, id, p);
    OthersStay(h, id, p, k);
    hide Moved;
    SizeWithout(Live(g, k), id);
    SizeWithout(Live(h, k), id);
  }

  lemma MoveHolders(h: map<nat, Handler>, id: nat, p: Phase)
    requires id in h
    ensures |Holders(Moved(h, id, p))| == |Holders(h)| + Delta(Holds(h[id].phase), Holds(p))
  {
    hide Holds;
    var g := Moved(h, id, p);
    assert Holders(g) - {id} == Holders(h) - {id};
    SizeWithout(Holders(g), id);
    SizeWithout(Holders(h), id);
  }

  /** Moving one handler changes each count by whether that handler enters or leaves it. */
  lemma MoveCounts(h: map<nat, Handler>, id: nat, p: Phase)
    requires id in h
    ensures forall k :: |Live(Moved(h, id, p), k)|
                        == |Live(h, k)| + (if h[id].key == k then Delta(Counts(h[id].phase), Counts(p)) else 0)
    ensures |Holders(Moved(h, id, p))| == |Holders(h)| + Delta(Holds(h[id].phase), Holds(p))
  {
    forall k { MoveLive(h, id, p, k); }
    MoveHolders(h, id, p);
  }

  /** A counted handler's entry is present with a positive count: the rate block never
      inserts and the drop guard always decrements. */
  lemma LiveEntryPresent(s: System, id: nat)
    requires Counted(s) && id in s.handlers && Counts(s.handlers[id].phase)
    ensures s.handlers[id].key in s.registry && s.registry[s.handlers[id].key].connectionCount > 0
  {
    assert id in Live(s.handlers, s.handlers[id].key);
  }

  lemma EnterCounted(s: System, id: nat)
    requires Counted(s) && Is(s, id, Permitted)
    ensures Counted(Step(s, Enter(id)))
  {
    var (r, ok) := Admit(s.registry, s.handlers[id].key, s.clock);
    MoveCounts(s.handlers, id, if ok then Admitted else Leaving);
  }

  lemma RequestCounted(s: System, id: nat)
    requires Counted(s) && Is(s, id, Admitted)
    ensures Counted(Step(s, Request(id)))
  {
    var (r, ok) := CheckRate(s.registry, s.handlers[id].key, s.clock);
    LiveEntryPresent(s, id);
    MoveCounts(s.handlers, id, if ok then Cleared else Refused);
  }

  lemma FinishCounted(s: System, id: nat)
    requires Counted(s) && id in s.handlers && Counts(s.handlers[id].phase)
    ensures Counted(Step(s, Finish(id)))
  {
    LiveEntryPresent(s, id);
    MoveCounts(s.handlers, id, Leaving);
  }

  lemma AcceptCounted(s: System, id: nat, key: SocketAddr)
    requires Counted(s)
    ensures Counted(Step(s, Accept(id, key)))
  {
    if id !in s.handlers {
      var h := s.handlers[id := Handler(key, Arrived)];
      assert forall k :: Live(h, k) == Live(s.handlers, k);
      assert Holders(h) == Holders(s.handlers);
    }
  }

  lemma StepCounted(s: System, a: Action)
    requires Counted(s)
    ensures Counted(Step(s, a))
  {
    match a
    case Accept(id, key) => AcceptCounted(s, id, key);
    case Acquire(id) =>
      if Is(s, id, Arrived) { MoveCounts(s.handlers, id, if s.available == 0 then Gone else Permitted); }
    case Enter(id) => if Is(s, id, Permitted) { EnterCounted(s, id); }
    case Request(id) => if Is(s, id, Admitted) { RequestCounted(s, id); }
    case Finish(id) =>
      if id in s.handlers && Counts(s.handlers[id].phase) { FinishCounted(s, id); }
    case GiveBack(id) =>
      if Is(s, id, Leaving) { MoveCounts(s.handlers, id, Gone); }
    case Janitor(shard) =>
    case Tick(nanos) =>
  }

  /** In every reachable state each address's count is its number of live handlers and at
      most 20, and permits in use and free add up to 10000. */
  lemma {:induction false} RunCounted(s: System, actions: seq<Action>)
    requires Counted(s)
    ensures Counted(Run(s, actions))
    decreases actions
  {
    if actions != [] {
      StepCounted(s, actions[0]);
      RunCounted(Step(s, actions[0]), actions[1..]);
    }
  }

  lemma StartCounted(clock: nat)
    ensures Counted(Start(clock))
  {
    assert forall k :: Live(map[], k) == {};
    assert Holders(map[]) == {};
  }

  /** Connection counts summed over the whole registry. */
  ghost function Total(r: Registry): nat {
    if r == map[] then 0
    else
      var k :| k in r;
      r[k].connectionCount + Total(r - {k})
  }

  function LiveIn(h: map<nat, Handler>, r: Registry): set<nat> {
    set id | id in h && h[id].key in r && Counts(h[id].phase)
  }

  lemma {:induction false} TotalIsLive(h: map<nat, Handler>, r: Registry)
    requires forall k :: k in r ==> r[k].connectionCount == |Live(h, k)|
    ensures Total(r) == |LiveIn(h, r)|
    decreases |r|
  {
    if r == map[] {
      assert LiveIn(h, r) == {};
    } else {
      var k :| k in r && Total(r) == r[k].connectionCount + Total(r - {k});
      TotalIsLive(h, r - {k});
      assert LiveIn(h, r) == LiveIn(h, r - {k}) + Live(h, k);
      assert LiveIn(h, r - {k}) !! Live(h, k);
    }
  }

  /** Counts summed over all addresses never exceed the permits in use, which never exceed
      10000. */
  lemma TotalWithinPermits(clock: nat, actions: seq<Action>)
    ensures var s := Run(Start(clock), actions);
            Total(s.registry) <= MAX_GLOBAL_CONNECTIONS - s.available <= MAX_GLOBAL_CONNECTIONS
  {
    StartCounted(clock);
    RunCounted(Start(clock), actions);
    var s := Run(Start(clock), actions);
    TotalIsLive(s.handlers, s.registry);
    SubsetSize(LiveIn(s.handlers, s.registry), Holders(s.handlers));
  }

  /** The janitor never evicts an address with a live handler. */
  lemma JanitorSparesLive(clock: nat, actions: seq<Action>, shard: set<SocketAddr>, id: nat)
    requires var s := Run(Start(clock), actions); id in s.handlers && Counts(s.handlers[id].phase)
    ensures var s := Run(Start(clock), actions);
            var k := s.handlers[id].key;
            k in s.registry && k in Step(s, Janitor(shard)).registry
            && Step(s, Janitor(shard)).registry[k] == s.registry[k]
  {
    StartCounted(clock);
    RunCounted(Start(clock), actions);
    LiveEntryPresent(Run(Start(clock), actions), id);
  }

  /** A pass of the janitor over a shard evicts exactly the addresses in it that have no live
      handler and made no request for 60 seconds. */
  lemma EvictedIff(clock: nat, actions: seq<Action>, shard: set<SocketAddr>, k: SocketAddr)
    ensures var s := Run(Start(clock), actions);
            k in s.registry ==>
              (k !in Step(s, Janitor(shard)).registry
               <==> k in shard && |Live(s.handlers, k)| == 0
                    && s.clock >= s.registry[k].lastRequest + 60 * 1_000_000_000)
  {
    StartCounted(clock);
    RunCounted(Start(clock), actions);
    var s := Run(Start(clock), actions);
    assert |Live(s.handlers, k)| == Count(s.registry, k);
  }

  /** Nobody is turned away early: a handler is refused a permit exactly when 10000 are in
      use, and refused entry exactly when 20 handlers of its address are live. */
  lemma RefusedIffFull(clock: nat, actions: seq<Action>, id: nat)
    ensures var s := Run(Start(clock), actions);
            Is(s, id, Arrived) ==>
              (Is(Step(s, Acquire(id)), id, Gone) <==> |Holders(s.handlers)| == MAX_GLOBAL_CONNECTIONS)
              && (Is(Step(s, Acquire(id)), id, Permitted) <==> |Holders(s.handlers)| < MAX_GLOBAL_CONNECTIONS)
    ensures var s := Run(Start(clock), actions);
            Is(s, id, Permitted) ==>
              var live := |Live(s.handlers, s.handlers[id].key)|;
              (Is(Step(s, Enter(id)), id, Leaving) <==> live == MAX_CONN_PER_IP)
              && (Is(Step(s, Enter(id)), id, Admitted) <==> live < MAX_CONN_PER_IP)
  {
    StartCounted(clock);
    RunCounted(Start(clock), actions);
    var s := Run(Start(clock), actions);
    if Is(s, id, Permitted) {
      var k := s.handlers[id].key;
      assert |Live(s.handlers, k)| == Count(s.registry, k) <= MAX_CONN_PER_IP;
    }
  }
}
