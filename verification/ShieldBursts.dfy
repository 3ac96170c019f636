/** Runs that pass as many requests as the rate block lets through: for one address around
    the end of a window, and for one IP from many ports. */
module ShieldBursts {
  import opened Basics
  import opened Shield
  import opened ShieldRuns
  import opened ShieldRate
  import opened ShieldPerIp

  // The window a request now would fall into, and how many of it have been counted.

  predicate Current(s: System, k: SocketAddr) {
    k in s.registry && s.clock <= s.registry[k].lastRequest + BURST_WINDOW
  }

  function Rank(s: System, k: SocketAddr): nat { if Current(s, k) then s.registry[k].rpsCount else 0 }

  function Window(s: System, k: SocketAddr): nat { if Current(s, k) then s.registry[k].lastRequest else s.clock }

  /** A connection that makes its request and leaves. */
  function Visit(id: nat, k: SocketAddr): seq<Action> { Connect(id, k) + [Request(id), Finish(id), GiveBack(id)] }

  lemma Asks(s: System, id: nat)
    requires Is(s, id, Admitted) && s.handlers[id].key in s.registry
    requires Rank(s, s.handlers[id].key) < MAX_RPS_PER_IP
    ensures var k := s.handlers[id].key;
            var e := s.registry[k].(rpsCount := Rank(s, k) + 1, lastRequest := Window(s, k));
            Step(s, Request(id))
            == s.(registry := s.registry[k := e], handlers := Moved(s.handlers, id, Cleared),
                  passes := s.passes[k := Passes(s, k) + [Pass(s.clock, e.lastRequest, e.rpsCount)]])
  {
    var k := s.handlers[id].key;
    var e := s.registry[k].(rpsCount := Rank(s, k) + 1, lastRequest := Window(s, k));
    assert CheckRate(s.registry, k, s.clock) == (s.registry[k := e], true);
  }

  lemma GoesAway(s: System, id: nat)
    requires Is(s, id, Cleared) && s.handlers[id].key in s.registry
    requires s.registry[s.handlers[id].key].connectionCount > 0
    ensures var k := s.handlers[id].key;
            var e := s.registry[k].(connectionCount := s.registry[k].connectionCount - 1);
            Step(Step(s, Finish(id)), GiveBack(id))
            == s.(registry := s.registry[k := e], available := s.available + 1,
                  handlers := s.handlers[id := Handler(k, Gone)])
  {
    assert Moved(Moved(s.handlers, id, Leaving), id, Gone) == s.handlers[id := Handler(s.handlers[id].key, Gone)];
  }

  lemma Leaves(s: System, id: nat)
    requires Is(s, id, Admitted) && s.handlers[id].key in s.registry
    requires s.registry[s.handlers[id].key].connectionCount > 0
    requires Rank(s, s.handlers[id].key) < MAX_RPS_PER_IP
    ensures var k := s.handlers[id].key;
            var e := Stats(s.registry[k].connectionCount - 1, Rank(s, k) + 1, Window(s, k));
            Run(s, [Request(id), Finish(id), GiveBack(id)])
            == s.(registry := s.registry[k := e], available := s.available + 1,
                  handlers := s.handlers[id := Handler(k, Gone)],
                  passes := s.passes[k := Passes(s, k) + [Pass(s.clock, e.lastRequest, e.rpsCount)]])
  {
    hide Passes, Rank, Window;
    RunThree(s, Request(id), Finish(id), GiveBack(id));
    Asks(s, id);
    GoesAway(Step(s, Request(id)), id);
  }

  lemma Visits(s: System, id: nat, k: SocketAddr)
    requires id !in s.handlers && s.available > 0
    requires Count(s.registry, k) < MAX_CONN_PER_IP && Rank(s, k) < MAX_RPS_PER_IP
    ensures var e := Stats(Count(s.registry, k), Rank(s, k) + 1, Window(s, k));
            Run(s, Visit(id, k))
            == s.(registry := s.registry[k := e], handlers := s.handlers[id := Handler(k, Gone)],
                  passes := s.passes[k := Passes(s, k) + [Pass(s.clock, e.lastRequest, e.rpsCount)]])
  {
    hide Run;
    RunConcat(s, Connect(id, k), [Request(id), Finish(id), GiveBack(id)]);
    Connects(s, id, k);
    var t := Run(s, Connect(id, k));
    assert Rank(t, k) == Rank(s, k) && Window(t, k) == Window(s, k);
    Leaves(t, id);
    assert t.handlers[id := Handler(k, Gone)] == s.handlers[id := Handler(k, Gone)];
    var e := Stats(Count(s.registry, k), Rank(s, k) + 1, Window(s, k));
    assert t.registry[k := e] == s.registry[k := e];
  }

  /** One visit after another, numbered from `first` on. */
  function Burst(first: nat, keys: seq<SocketAddr>): seq<Action> {
    if keys == [] then [] else Burst(first, keys[..|keys| - 1]) + Visit(first + |keys| - 1, keys[|keys| - 1])
  }

  lemma {:induction false} BurstWithin(first: nat, keys: seq<SocketAddr>, ip: nat, ports: Ports)
    requires forall k :: k in keys ==> k.ip == ip && k.port in ports
    ensures Within(Burst(first, keys), ip, ports)
  {
    if keys != [] { BurstWithin(first, keys[..|keys| - 1], ip, ports); }
  }

  ghost predicate Room(s: System, first: nat, keys: seq<SocketAddr>) {
    && s.available > 0 && (forall id :: id in s.handlers ==> id < first)
    && (forall k :: Count(s.registry, k) < MAX_CONN_PER_IP)
    && (forall k :: Rank(s, k) + multiset(keys)[k] <= MAX_RPS_PER_IP)
  }

  predicate AddedNow(before: seq<Pass>, after: seq<Pass>, n: nat, now: nat) {
    && |after| == |before| + n && before <= after
    && forall i :: |before| <= i < |after| ==> after[i].time == now
  }

  /** `n` more requests of the address have passed, all of them now and in one window. */
  predicate Passed(s: System, t: System, k: SocketAddr, n: nat) {
    && Count(t.registry, k) == Count(s.registry, k)
    && Rank(t, k) == Rank(s, k) + n && Window(t, k) == Window(s, k)
    && AddedNow(Passes(s, k), Passes(t, k), n, s.clock)
  }

  /** What a burst does: every request passes. */
  ghost predicate Bursted(s: System, t: System, first: nat, keys: seq<SocketAddr>) {
    && t.clock == s.clock && t.available == s.available
    && (forall id :: id in t.handlers ==> id < first + |keys|)
    && (forall k :: Passed(s, t, k, multiset(keys)[k]))
  }

  lemma VisitPasses(s: System, t: System, id: nat, k: SocketAddr, x: SocketAddr, n: nat)
    requires id !in t.handlers && t.available > 0 && t.clock == s.clock
    requires Count(t.registry, k) < MAX_CONN_PER_IP && Rank(t, k) < MAX_RPS_PER_IP
    requires Passed(s, t, x, n)
    ensures Passed(s, Run(t, Visit(id, k)), x, n + if x == k then 1 else 0)
  {
    hide Run, Visit;
    Visits(t, id, k);
  }

  lemma RoomForLast(s: System, t: System, first: nat, keys: seq<SocketAddr>, k: SocketAddr)
    requires Bursted(s, t, first, keys) && Room(s, first, keys + [k])
    ensures first + |keys| !in t.handlers && t.available > 0
    ensures Count(t.registry, k) < MAX_CONN_PER_IP && Rank(t, k) < MAX_RPS_PER_IP
  {
    hide Rank, Window, AddedNow;
    assert Passed(s, t, k, multiset(keys)[k]);
    assert multiset(keys + [k])[k] == multiset(keys)[k] + 1;
  }

  lemma BurstNext(s: System, t: System, first: nat, keys: seq<SocketAddr>, k: SocketAddr)
    requires Bursted(s, t, first, keys) && Room(s, first, keys + [k])
    ensures Bursted(s, Run(t, Visit(first + |keys|, k)), first, keys + [k])
  {
    hide Run, Visit, Passed, Room;
    RoomForLast(s, t, first, keys, k);
    Visits(t, first + |keys|, k);
    forall x
      ensures Passed(s, Run(t, Visit(first + |keys|, k)), x, multiset(keys + [k])[x])
    {
      assert multiset(keys + [k])[x] == multiset(keys)[x] + if x == k then 1 else 0;
      VisitPasses(s, t, first + |keys|, k, x, multiset(keys)[x]);
    }
  }

  lemma RoomFirst(s: System, first: nat, a: seq<SocketAddr>, b: seq<SocketAddr>)
    requires Room(s, first, a + b)
    ensures Room(s, first, a)
  {
    assert forall k :: multiset(a + b)[k] == multiset(a)[k] + multiset(b)[k];
  }

  lemma {:induction false} BurstRuns(s: System, first: nat, keys: seq<SocketAddr>)
    requires Room(s, first, keys)
    ensures Bursted(s, Run(s, Burst(first, keys)), first, keys)
  {
    hide Run, Visit, Room, Passed;
    if keys == [] {
      RunNone(s);
      NonePassed(s, first);
    } else {
      var n := |keys| - 1;
      var before, k := keys[..n], keys[n];
      assert keys == before + [k];
      RoomFirst(s, first, before, [k]);
      BurstRuns(s, first, before);
      RunConcat(s, Burst(first, before), Visit(first + n, k));
      BurstNext(s, Run(s, Burst(first, before)), first, before, k);
    }
  }

  lemma NonePassed(s: System, first: nat)
    requires Room(s, first, [])
    ensures Bursted(s, s, first, [])
  {
  }

  // Around the end of a window.

  function Twice(k: SocketAddr, keys: seq<SocketAddr>): seq<Action> {
    (Connect(0, k) + [Tick(BURST_WINDOW)]) + Burst(1, keys) + [Tick(1)] + Burst(1 + |keys|, keys)
  }

  lemma RunOne(s: System, a: Action)
    ensures Run(s, [a]) == Step(s, a)
  {
    assert [a][1..] == [];
  }

  /** A nanosecond after the burst the window is over and there is room for the next. */
  lemma RoomAgain(s: System, t: System, k: SocketAddr, keys: seq<SocketAddr>)
    requires Bursted(s, t, 1, keys) && |keys| == MAX_RPS_PER_IP && multiset(keys)[k] == MAX_RPS_PER_IP
    requires forall x :: x != k ==> x !in s.registry && multiset(keys)[x] == 0
    requires Current(s, k) && s.clock == s.registry[k].lastRequest + BURST_WINDOW
    requires s.available > 0 && Count(s.registry, k) < MAX_CONN_PER_IP
    ensures Room(Step(t, Tick(1)), 51, keys)
  {
    hide AddedNow;
    var u := Step(t, Tick(1));
    assert Passed(s, t, k, 50);
    forall x
      ensures Count(u.registry, x) < MAX_CONN_PER_IP && Rank(u, x) == 0
    {
      assert Passed(s, t, x, multiset(keys)[x]);
    }
  }

  /** Two bursts of fifty, the second just after the first. */
  lemma FiftyAndFifty(ps: seq<Pass>, qs: seq<Pass>, now: nat)
    requires AddedNow([], ps, MAX_RPS_PER_IP, now) && AddedNow(ps, qs, MAX_RPS_PER_IP, now + 1)
    ensures |During(qs, now, 1)| == 2 * MAX_RPS_PER_IP
  {
    hide Range;
    assert forall i :: 0 <= i < 50 ==> qs[i] == ps[i];
    assert During(qs, now, 1) == Range(0, 100);
  }

  lemma Opened(clock: nat, k: SocketAddr) returns (s: System)
    ensures s == Run(Start(clock), Connect(0, k) + [Tick(BURST_WINDOW)])
    ensures s == System(map[k := Stats(1, 0, clock)], MAX_GLOBAL_CONNECTIONS - 1, map[0 := Handler(k, Admitted)],
                        clock + BURST_WINDOW, map[])
  {
    RunConcat(Start(clock), Connect(0, k), [Tick(BURST_WINDOW)]);
    Connects(Start(clock), 0, k);
    s := Run(Start(clock), Connect(0, k));
    RunOne(s, Tick(BURST_WINDOW));
    s := Step(s, Tick(BURST_WINDOW));
    assert Admit(map[], k, clock).0 == map[k := Stats(1, 0, clock)];
    assert map[][0 := Handler(k, Admitted)] == map[0 := Handler(k, Admitted)];
  }

  /** A hundred requests of one address can pass within a nanosecond, which is all that the
      bound on the rate allows in less than a second. */
  lemma HundredAtWindowEnd(clock: nat, k: SocketAddr)
    ensures exists actions ::
              |During(Passes(Run(Start(clock), actions), k), clock + BURST_WINDOW, 1)| == 2 * MAX_RPS_PER_IP
  {
    hide Run, Connect, Burst, Room, Rank, Window, Count, During;
    var keys := Copies(k, MAX_RPS_PER_IP);
    var s := Opened(clock, k);
    RoomAtFirst(s, k, clock, keys);
    BurstRuns(s, 1, keys);
    var t := Run(s, Burst(1, keys));
    var u := Step(t, Tick(1));
    RunOne(t, Tick(1));
    RoomAgain(s, t, k, keys);
    BurstRuns(u, 51, keys);
    var v := Run(u, Burst(51, keys));
    assert Passed(s, t, k, 50) && Passed(u, v, k, 50);
    FiftyAndFifty(Passes(t, k), Passes(v, k), s.clock);
    RunTwice(Start(clock), k, keys);
    assert v == Run(Start(clock), Twice(k, keys));
  }

  predicate FiftyIn(clock: nat, actions: seq<Action>, k: SocketAddr, from: nat, length: nat) {
    |During(Passes(Run(Start(clock), actions), k), from, length)| <= MAX_RPS_PER_IP
  }

  /** Fifty requests of an address in any stretch of a given length hold in all runs exactly
      when the length is zero. */
  lemma FiftyInIntervalIff(clock: nat, k: SocketAddr, length: nat)
    ensures (forall actions, from: nat :: FiftyIn(clock, actions, k, from, length)) <==> length == 0
  {
    if length == 0 {
      forall actions, from: nat
        ensures FiftyIn(clock, actions, k, from, 0)
      {
        StartCounted(clock);
        RunPaced(Start(clock), actions, k);
        FiftyAtOnce(Passes(Run(Start(clock), actions), k), from);
      }
    } else {
      HundredAtWindowEnd(clock, k);
      var actions :|
        |During(Passes(Run(Start(clock), actions), k), clock + BURST_WINDOW, 1)| == 2 * MAX_RPS_PER_IP;
      var ps := Passes(Run(Start(clock), actions), k);
      SubsetSize(During(ps, clock + BURST_WINDOW, 1), During(ps, clock + BURST_WINDOW, length));
      assert !FiftyIn(clock, actions, k, clock + BURST_WINDOW, length);
    }
  }

  lemma RoomAtFirst(s: System, k: SocketAddr, clock: nat, keys: seq<SocketAddr>)
    requires s == System(map[k := Stats(1, 0, clock)], MAX_GLOBAL_CONNECTIONS - 1, map[0 := Handler(k, Admitted)],
                         clock + BURST_WINDOW, map[])
    requires forall x :: multiset(keys)[x] <= MAX_RPS_PER_IP
    ensures Room(s, 1, keys) && Current(s, k) && Count(s.registry, k) < MAX_CONN_PER_IP
  {
  }

  lemma RunTwice(s: System, k: SocketAddr, keys: seq<SocketAddr>)
    ensures Run(s, Twice(k, keys))
            == Run(Run(Run(Run(s, Connect(0, k) + [Tick(BURST_WINDOW)]), Burst(1, keys)), [Tick(1)]),
                   Burst(1 + |keys|, keys))
  {
    hide Run, Connect, Burst;
    var opening := Connect(0, k) + [Tick(BURST_WINDOW)];
    RunConcat(s, opening + Burst(1, keys) + [Tick(1)], Burst(1 + |keys|, keys));
    RunConcat(s, opening + Burst(1, keys), [Tick(1)]);
    RunConcat(s, opening, Burst(1, keys));
  }

  // From many ports.

  lemma FiftyFromEach(s: System, t: System, k: SocketAddr)
    requires s.passes == map[] && Passed(s, t, k, MAX_RPS_PER_IP)
    ensures |PassesOf(t, k, s.clock)| == MAX_RPS_PER_IP
  {
    hide Range, Count, Rank, Window;
    var here := During(Passes(t, k), s.clock, 0);
    assert here == Range(0, 50);
    PairedSize(k, here, PassesOf(t, k, s.clock));
  }

  lemma {:induction false} PassesAddUp(s: System, ip: nat, ports: Ports, t: nat)
    requires forall p :: p in ports ==> |PassesOf(s, SocketAddr(ip, p), t)| == MAX_RPS_PER_IP
    ensures |PassesAmong(s, ip, ports, t)| == MAX_RPS_PER_IP * |ports|
  {
    hide PassesAt;
    if ports == {} {
      assert PassesAmong(s, ip, ports, t) == {};
    } else {
      var p :| p in ports;
      PassesAddUp(s, ip, ports - {p}, t);
      PassesSplit(s, ip, ports, p, t);
      assert PassesAmong(s, ip, ports - {p}, t) !! PassesOf(s, SocketAddr(ip, p), t);
    }
  }

  lemma FiftyFromEveryPort(clock: nat, ip: nat, ports: Ports) returns (actions: seq<Action>)
    ensures Within(actions, ip, ports)
    ensures |PassesAt(Run(Start(clock), actions), ip, clock)| == MAX_RPS_PER_IP * |ports|
  {
    hide Run, Burst, Within;
    var keys := Fill(ip, ports, MAX_RPS_PER_IP);
    assert forall k :: k in keys ==> multiset(keys)[k] > 0;
    actions := Burst(0, keys);
    BurstWithin(0, keys, ip, ports);
    var s := Start(clock);
    assert Room(s, 0, keys);
    BurstRuns(s, 0, keys);
    var t := Run(s, actions);
    forall p | p in ports
      ensures |PassesOf(t, SocketAddr(ip, p), clock)| == MAX_RPS_PER_IP
    {
      assert Passed(s, t, SocketAddr(ip, p), multiset(keys)[SocketAddr(ip, p)]);
      FiftyFromEach(s, t, SocketAddr(ip, p));
    }
    PassesAddUp(t, ip, ports, clock);
    RunWithin(s, actions, ip, ports);
    assert PassesAt(t, ip, clock) == PassesAmong(t, ip, ports, clock);
  }

  /** The most requests of an IP that pass at one instant are 50 for each port it uses. */
  lemma PerIpRate(clock: nat, ip: nat, ports: Ports)
    ensures forall actions, t :: Within(actions, ip, ports) ==>
              |PassesAt(Run(Start(clock), actions), ip, t)| <= MAX_RPS_PER_IP * |ports|
    ensures exists actions, t :: Within(actions, ip, ports)
              && |PassesAt(Run(Start(clock), actions), ip, t)| == MAX_RPS_PER_IP * |ports|
  {
    hide Run, Within, PassesAt;
    forall actions, t | Within(actions, ip, ports)
      ensures |PassesAt(Run(Start(clock), actions), ip, t)| <= MAX_RPS_PER_IP * |ports|
    {
      RunBounds(clock, actions, ip, ports, t);
    }
    var actions := FiftyFromEveryPort(clock, ip, ports);
  }

  /** The limit of 50 requests holds for an IP, even at one instant, exactly when it connects
      from one port at most. */
  lemma FiftyPerIpIff(clock: nat, ip: nat, ports: Ports)
    ensures (forall actions, t :: Within(actions, ip, ports) ==>
               |PassesAt(Run(Start(clock), actions), ip, t)| <= MAX_RPS_PER_IP)
            <==> |ports| <= 1
  {
    hide Run, Within, PassesAt;
    PerIpRate(clock, ip, ports);
  }
}
