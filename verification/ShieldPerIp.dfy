/** What the limits mean for an IP address. The registry is keyed by address and port, so an
    IP has them once for every port it connects from. */
module ShieldPerIp {
  import opened Basics
  import opened Shield
  import opened ShieldRuns
  import opened ShieldRate

  type Ports = set<u16>

  /** In this run the IP connects only from these ports. */
  ghost predicate Within(actions: seq<Action>, ip: nat, ports: Ports) {
    forall i :: 0 <= i < |actions| && actions[i].Accept? && actions[i].key.ip == ip ==> actions[i].key.port in ports
  }

  ghost predicate StateWithin(s: System, ip: nat, ports: Ports) {
    && (forall id :: id in s.handlers && s.handlers[id].key.ip == ip ==> s.handlers[id].key.port in ports)
    && (forall k :: k in s.passes && k.ip == ip ==> k.port in ports)
  }

  lemma {:induction false} RunWithin(s: System, actions: seq<Action>, ip: nat, ports: Ports)
    requires StateWithin(s, ip, ports) && Within(actions, ip, ports)
    ensures StateWithin(Run(s, actions), ip, ports)
    decreases actions
  {
    if actions != [] {
      assert Within(actions[1..], ip, ports);
      RunWithin(Step(s, actions[0]), actions[1..], ip, ports);
    }
  }

  // Upper bounds: both limits hold once for each port.

  function LiveOf(h: map<nat, Handler>, ip: nat): set<nat> {
    set id | id in h && h[id].key.ip == ip && Counts(h[id].phase)
  }

  function LiveAmong(h: map<nat, Handler>, ip: nat, ports: Ports): set<nat> {
    set id | id in h && h[id].key.ip == ip && h[id].key.port in ports && Counts(h[id].phase)
  }

  lemma {:induction false} LiveBound(s: System, ip: nat, ports: Ports)
    requires Counted(s)
    ensures |LiveAmong(s.handlers, ip, ports)| <= MAX_CONN_PER_IP * |ports|
  {
    hide Counts;
    if ports == {} {
      assert LiveAmong(s.handlers, ip, ports) == {};
    } else {
      var p :| p in ports;
      LiveBound(s, ip, ports - {p});
      assert LiveAmong(s.handlers, ip, ports)
             == LiveAmong(s.handlers, ip, ports - {p}) + Live(s.handlers, SocketAddr(ip, p));
    }
  }

  /** The passes of an IP at an instant: the address and the number of each pass there. */
  function PassesAt(s: System, ip: nat, t: nat): set<(SocketAddr, nat)> {
    set k, i | k in s.passes && k.ip == ip && 0 <= i < |s.passes[k]| && s.passes[k][i].time == t :: (k, i)
  }

  function PassesAmong(s: System, ip: nat, ports: Ports, t: nat): set<(SocketAddr, nat)> {
    set x | x in PassesAt(s, ip, t) && x.0.port in ports
  }

  lemma FiftyLater(ps: seq<Pass>, i: nat, j: nat)
    requires Paced(ps) && i + 50 <= j < |ps|
    ensures ps[i].time < ps[j].time
  {
    FiftyPerWindow(ps, i, 1);
    assert InWindow(ps[i]) && InWindow(ps[i + 50]);
    assert ps[i + 50].time <= ps[j].time;
  }

  /** One address passes at most fifty times at one instant. */
  lemma FiftyAtOnce(ps: seq<Pass>, t: nat)
    requires Paced(ps)
    ensures |During(ps, t, 0)| <= MAX_RPS_PER_IP
  {
    var a := During(ps, t, 0);
    if a != {} {
      var lo := Least(a);
      forall i | i in a
        ensures i < lo + 50
      {
        if i >= lo + 50 { FiftyLater(ps, lo, i); }
      }
      SubsetSize(a, Range(lo, 50));
    }
  }

  lemma {:induction false} PairedSize(k: SocketAddr, a: set<nat>, pairs: set<(SocketAddr, nat)>)
    requires pairs == set i | i in a :: (k, i)
    ensures |pairs| == |a|
  {
    if a != {} {
      var i :| i in a;
      PairedSize(k, a - {i}, pairs - {(k, i)});
    } else {
      assert pairs == {};
    }
  }

  function PassesOf(s: System, k: SocketAddr, t: nat): set<(SocketAddr, nat)> {
    set i | i in During(Passes(s, k), t, 0) :: (k, i)
  }

  lemma PassesSplit(s: System, ip: nat, ports: Ports, p: u16, t: nat)
    requires p in ports
    ensures PassesAmong(s, ip, ports, t)
            == PassesAmong(s, ip, ports - {p}, t) + PassesOf(s, SocketAddr(ip, p), t)
  {
  }

  lemma {:induction false} PassesBound(s: System, ip: nat, ports: Ports, t: nat)
    requires forall k :: Paced(Passes(s, k))
    ensures |PassesAmong(s, ip, ports, t)| <= MAX_RPS_PER_IP * |ports|
  {
    hide Paced, During, Passes;
    if ports == {} {
      assert PassesAmong(s, ip, ports, t) == {};
    } else {
      var p :| p in ports;
      var k := SocketAddr(ip, p);
      PassesBound(s, ip, ports - {p}, t);
      FiftyAtOnce(Passes(s, k), t);
      PairedSize(k, During(Passes(s, k), t, 0), PassesOf(s, k, t));
      PassesSplit(s, ip, ports, p, t);
    }
  }

  lemma RunBounds(clock: nat, actions: seq<Action>, ip: nat, ports: Ports, t: nat)
    requires Within(actions, ip, ports)
    ensures var s := Run(Start(clock), actions);
            && |LiveOf(s.handlers, ip)| <= MAX_CONN_PER_IP * |ports|
            && |LiveOf(s.handlers, ip)| <= MAX_GLOBAL_CONNECTIONS
            && |PassesAt(s, ip, t)| <= MAX_RPS_PER_IP * |ports|
  {
    var s := Run(Start(clock), actions);
    RunWithin(Start(clock), actions, ip, ports);
    StartCounted(clock);
    RunCounted(Start(clock), actions);
    LiveBound(s, ip, ports);
    assert LiveOf(s.handlers, ip) == LiveAmong(s.handlers, ip, ports);
    SubsetSize(LiveOf(s.handlers, ip), Holders(s.handlers));
    forall k
      ensures Paced(Passes(s, k))
    {
      RunPaced(Start(clock), actions, k);
    }
    PassesBound(s, ip, ports, t);
    assert PassesAt(s, ip, t) == PassesAmong(s, ip, ports, t);
  }

  // Runs that reach the bounds.

  lemma {:induction false} RunConcat(s: System, a: seq<Action>, b: seq<Action>)
    ensures Run(s, a + b) == Run(Run(s, a), b)
    decreases a
  {
    if a == [] {
      assert a + b == b;
    } else {
      RunConcat(Step(s, a[0]), a[1..], b);
      assert (a + b)[1..] == a[1..] + b;
    }
  }

  lemma RunNone(s: System)
    ensures Run(s, []) == s
  {
  }

  lemma RunThree(s: System, x: Action, y: Action, z: Action)
    ensures Run(s, [x, y, z]) == Step(Step(Step(s, x), y), z)
  {
    assert [x, y, z][1..] == [y, z] && [y, z][1..] == [z] && [z][1..] == [];
    assert Run(s, [x, y, z]) == Run(Step(s, x), [y, z]);
    assert Run(Step(s, x), [y, z]) == Run(Step(Step(s, x), y), [z]);
  }

  function Connect(id: nat, k: SocketAddr): seq<Action> { [Accept(id, k), Acquire(id), Enter(id)] }

  lemma Connects(s: System, id: nat, k: SocketAddr)
    requires id !in s.handlers && s.available > 0 && Count(s.registry, k) < MAX_CONN_PER_IP
    ensures Run(s, Connect(id, k))
            == s.(registry := Admit(s.registry, k, s.clock).0, available := s.available - 1,
                  handlers := s.handlers[id := Handler(k, Admitted)])
  {
    RunThree(s, Accept(id, k), Acquire(id), Enter(id));
    var h := s.handlers[id := Handler(k, Arrived)];
    assert Moved(Moved(h, id, Permitted), id, Admitted) == s.handlers[id := Handler(k, Admitted)];
  }

  /** One connection after another, all kept open. */
  function Flood(keys: seq<SocketAddr>): seq<Action> {
    if keys == [] then [] else Flood(keys[..|keys| - 1]) + Connect(|keys| - 1, keys[|keys| - 1])
  }

  ghost predicate Flooded(s: System, keys: seq<SocketAddr>) {
    && s.handlers.Keys == Range(0, |keys|)
    && (forall i :: 0 <= i < |keys| ==> s.handlers[i] == Handler(keys[i], Admitted))
    && s.available + |keys| == MAX_GLOBAL_CONNECTIONS
    && (forall k :: Count(s.registry, k) == multiset(keys)[k])
  }

  /** No address occurs more than `m` times. */
  ghost predicate AtMost(keys: seq<SocketAddr>, m: nat) { forall k :: multiset(keys)[k] <= m }

  lemma AtMostFirst(a: seq<SocketAddr>, b: seq<SocketAddr>, m: nat)
    requires AtMost(a + b, m)
    ensures AtMost(a, m)
  {
    forall k
      ensures multiset(a)[k] <= m
    {
      assert multiset(a + b)[k] == multiset(a)[k] + multiset(b)[k];
    }
  }

  lemma FloodNext(s: System, keys: seq<SocketAddr>, k: SocketAddr)
    requires Flooded(s, keys) && |keys| < MAX_GLOBAL_CONNECTIONS && multiset(keys)[k] < MAX_CONN_PER_IP
    ensures Flooded(Run(s, Connect(|keys|, k)), keys + [k])
  {
    hide Run, Range, Admit, Count;
    Connects(s, |keys|, k);
    AdmitCounts(s.registry, k, s.clock);
    assert multiset(keys + [k]) == multiset(keys) + multiset{k};
    assert Range(0, |keys| + 1) == Range(0, |keys|) + {|keys|};
  }

  lemma AdmitCounts(r: Registry, k: SocketAddr, now: nat)
    requires Count(r, k) < MAX_CONN_PER_IP
    ensures forall x :: Count(Admit(r, k, now).0, x) == Count(r, x) + if x == k then 1 else 0
  {
  }

  lemma FloodedLive(s: System, keys: seq<SocketAddr>, ip: nat)
    requires Flooded(s, keys) && forall k :: k in keys ==> k.ip == ip
    ensures |LiveOf(s.handlers, ip)| == |keys|
  {
    hide Range, Count;
    assert LiveOf(s.handlers, ip) == Range(0, |keys|);
  }

  lemma {:induction false} FloodRuns(clock: nat, keys: seq<SocketAddr>)
    requires |keys| <= MAX_GLOBAL_CONNECTIONS && AtMost(keys, MAX_CONN_PER_IP)
    ensures Flooded(Run(Start(clock), Flood(keys)), keys)
  {
    hide Run, Connect;
    if keys == [] {
      RunNone(Start(clock));
    } else {
      var n := |keys| - 1;
      var before, k := keys[..n], keys[n];
      assert keys == before + [k];
      AtMostFirst(before, [k], MAX_CONN_PER_IP);
      assert multiset(before + [k])[k] == multiset(before)[k] + 1;
      FloodRuns(clock, before);
      RunConcat(Start(clock), Flood(before), Connect(n, k));
      FloodNext(Run(Start(clock), Flood(before)), before, k);
    }
  }

  lemma {:induction false} FloodWithin(keys: seq<SocketAddr>, ip: nat, ports: Ports)
    requires forall k :: k in keys ==> k.ip == ip && k.port in ports
    ensures Within(Flood(keys), ip, ports)
  {
    if keys != [] { FloodWithin(keys[..|keys| - 1], ip, ports); }
  }

  /** Each port of the IP `m` times. */
  lemma {:induction false} Fill(ip: nat, ports: Ports, m: nat) returns (keys: seq<SocketAddr>)
    ensures |keys| == m * |ports|
    ensures forall k :: multiset(keys)[k] == if k.ip == ip && k.port in ports then m else 0
    decreases ports
  {
    keys := [];
    if ports != {} {
      var p :| p in ports;
      var rest := Fill(ip, ports - {p}, m);
      var more := Copies(SocketAddr(ip, p), m);
      keys := rest + more;
    }
  }

  lemma {:induction false} Copies(k: SocketAddr, m: nat) returns (keys: seq<SocketAddr>)
    ensures |keys| == m && forall x :: multiset(keys)[x] == if x == k then m else 0
  {
    keys := [];
    if m > 0 {
      var rest := Copies(k, m - 1);
      keys := rest + [k];
    }
  }

  function Most(ports: Ports): nat {
    var n := MAX_CONN_PER_IP * |ports|;
    if n < MAX_GLOBAL_CONNECTIONS then n else MAX_GLOBAL_CONNECTIONS
  }

  lemma MostReached(clock: nat, ip: nat, ports: Ports) returns (actions: seq<Action>)
    ensures Within(actions, ip, ports) && |LiveOf(Run(Start(clock), actions).handlers, ip)| == Most(ports)
  {
    hide Run, Flood, Within, Flooded;
    var all := Fill(ip, ports, MAX_CONN_PER_IP);
    var keys := all[..Most(ports)];
    assert all == keys + all[Most(ports)..];
    AtMostFirst(keys, all[Most(ports)..], MAX_CONN_PER_IP);
    assert forall k :: k in all ==> multiset(all)[k] > 0;
    assert forall k :: k in keys ==> k in all;
    actions := Flood(keys);
    FloodRuns(clock, keys);
    FloodWithin(keys, ip, ports);
    FloodedLive(Run(Start(clock), actions), keys, ip);
  }

  /** The most connections an IP can have open is 20 for each port it uses, up to all 10000. */
  lemma PerIpMaximum(clock: nat, ip: nat, ports: Ports)
    ensures forall actions :: Within(actions, ip, ports) ==>
              |LiveOf(Run(Start(clock), actions).handlers, ip)| <= Most(ports)
    ensures exists actions ::
              Within(actions, ip, ports) && |LiveOf(Run(Start(clock), actions).handlers, ip)| == Most(ports)
  {
    forall actions | Within(actions, ip, ports)
      ensures |LiveOf(Run(Start(clock), actions).handlers, ip)| <= Most(ports)
    {
      RunBounds(clock, actions, ip, ports, 0);
    }
    var actions := MostReached(clock, ip, ports);
  }

  /** The limit of 20 holds for an IP exactly when it connects from one port at most. */
  lemma TwentyPerIpIff(clock: nat, ip: nat, ports: Ports)
    ensures (forall actions :: Within(actions, ip, ports) ==>
               |LiveOf(Run(Start(clock), actions).handlers, ip)| <= MAX_CONN_PER_IP)
            <==> |ports| <= 1
  {
    PerIpMaximum(clock, ip, ports);
  }

  // Ports that are used once, as by a client that keeps all its connections open.

  ghost predicate OncePerPort(actions: seq<Action>, ip: nat) {
    forall i, j :: 0 <= i < j < |actions| && actions[i].Accept? && actions[j].Accept? && actions[i].key.ip == ip ==>
                     actions[i].key != actions[j].key
  }

  /** No two handlers of the IP share an address, nor will they after the actions to come. */
  ghost predicate Single(s: System, actions: seq<Action>, ip: nat) {
    && OncePerPort(actions, ip)
    && (forall a, b :: a in s.handlers && b in s.handlers && a != b && s.handlers[a].key.ip == ip ==>
          s.handlers[a].key != s.handlers[b].key)
    && (forall a, j :: a in s.handlers && s.handlers[a].key.ip == ip && 0 <= j < |actions| && actions[j].Accept? ==>
          s.handlers[a].key != actions[j].key)
  }

  lemma StepSingle(s: System, actions: seq<Action>, ip: nat)
    requires actions != [] && Single(s, actions, ip)
    ensures Single(Step(s, actions[0]), actions[1..], ip)
  {
    hide Admit, CheckRate, Leave, Retain;
    assert forall j :: 0 <= j < |actions[1..]| ==> actions[1..][j] == actions[j + 1];
    var h := Step(s, actions[0]).handlers;
    assert forall a :: a in s.handlers ==> a in h && h[a].key == s.handlers[a].key;
    assert forall a :: a in h && a !in s.handlers ==>
                         actions[0].Accept? && a == actions[0].id && h[a].key == actions[0].key;
  }

  lemma {:induction false} RunSingle(s: System, actions: seq<Action>, ip: nat)
    requires Single(s, actions, ip)
    ensures Single(Run(s, actions), [], ip)
    decreases actions
  {
    hide Single, Step;
    if actions != [] {
      StepSingle(s, actions, ip);
      RunSingle(Step(s, actions[0]), actions[1..], ip);
    }
  }

  lemma {:induction false} SingleBound(h: map<nat, Handler>, ids: set<nat>, ip: nat, ports: Ports)
    requires forall a :: a in ids ==> a in h && h[a].key.ip == ip && h[a].key.port in ports
    requires forall a, b :: a in ids && b in ids && a != b ==> h[a].key != h[b].key
    ensures |ids| <= |ports|
  {
    if ids != {} {
      var a :| a in ids;
      SingleBound(h, ids - {a}, ip, ports - {h[a].key.port});
    }
  }

  lemma {:induction false} FloodAccepts(keys: seq<SocketAddr>, i: nat)
    requires i < |Flood(keys)| && Flood(keys)[i].Accept?
    ensures Flood(keys)[i].key in keys
  {
    var n := |keys| - 1;
    if i < |Flood(keys[..n])| { FloodAccepts(keys[..n], i); }
  }

  lemma {:induction false} FloodOnce(keys: seq<SocketAddr>, ip: nat)
    requires AtMost(keys, 1)
    ensures OncePerPort(Flood(keys), ip)
  {
    if keys != [] {
      var n := |keys| - 1;
      var before, k := keys[..n], keys[n];
      assert keys == before + [k];
      AtMostFirst(before, [k], 1);
      assert multiset(before + [k])[k] == multiset(before)[k] + 1;
      FloodOnce(before, ip);
      forall i | 0 <= i < |Flood(before)| && Flood(before)[i].Accept?
        ensures Flood(before)[i].key != k
      {
        FloodAccepts(before, i);
      }
    }
  }

  /** One connection from each port, up to all permits there are. */
  lemma OneFromEach(clock: nat, ip: nat, ports: Ports) returns (actions: seq<Action>)
    requires |ports| <= MAX_GLOBAL_CONNECTIONS
    ensures Within(actions, ip, ports) && OncePerPort(actions, ip)
    ensures var s := Run(Start(clock), actions);
            |LiveOf(s.handlers, ip)| == |ports| && s.available == MAX_GLOBAL_CONNECTIONS - |ports|
  {
    hide Run, Flood, Within, OncePerPort;
    var keys := Fill(ip, ports, 1);
    assert forall k :: k in keys ==> multiset(keys)[k] > 0;
    actions := Flood(keys);
    FloodRuns(clock, keys);
    FloodWithin(keys, ip, ports);
    FloodOnce(keys, ip);
    FloodedLive(Run(Start(clock), actions), keys, ip);
  }

  lemma OnceBound(clock: nat, actions: seq<Action>, ip: nat, ports: Ports)
    requires Within(actions, ip, ports) && OncePerPort(actions, ip)
    ensures |LiveOf(Run(Start(clock), actions).handlers, ip)| <= |ports|
  {
    hide Run;
    RunWithin(Start(clock), actions, ip, ports);
    RunSingle(Start(clock), actions, ip);
    var h := Run(Start(clock), actions).handlers;
    SingleBound(h, LiveOf(h, ip), ip, ports);
  }

  /** With ports used only once the limit of 20 holds for an IP exactly when it has no more
      than 20 of them. */
  lemma OncePerPortIff(clock: nat, ip: nat, ports: Ports)
    ensures (forall actions :: Within(actions, ip, ports) && OncePerPort(actions, ip) ==>
               |LiveOf(Run(Start(clock), actions).handlers, ip)| <= MAX_CONN_PER_IP)
            <==> |ports| <= MAX_CONN_PER_IP
  {
    hide Run, Within, OncePerPort, LiveOf;
    if |ports| <= MAX_CONN_PER_IP {
      forall actions | Within(actions, ip, ports) && OncePerPort(actions, ip)
        ensures |LiveOf(Run(Start(clock), actions).handlers, ip)| <= MAX_CONN_PER_IP
      {
        OnceBound(clock, actions, ip, ports);
      }
    } else {
      var some := Choose(ports, MAX_CONN_PER_IP + 1);
      var actions := OneFromEach(clock, ip, some);
      WithinMore(actions, ip, some, ports);
    }
  }

  lemma WithinMore(actions: seq<Action>, ip: nat, a: Ports, b: Ports)
    requires Within(actions, ip, a) && a <= b
    ensures Within(actions, ip, b)
  {
  }

  lemma {:induction false} Choose(ports: Ports, n: nat) returns (some: Ports)
    requires n <= |ports|
    ensures some <= ports && |some| == n
    decreases |ports|
  {
    some := ports;
    if n < |ports| {
      var p :| p in ports;
      some := Choose(ports - {p}, n);
    }
  }

  lemma {:induction false} FirstPorts(n: u16) returns (ports: Ports)
    ensures |ports| == n && forall p :: p in ports ==> p < n
  {
    ports := {};
    if n > 0 {
      ports := FirstPorts(n - 1);
      ports := ports + {n - 1};
    }
  }

  /** With one connection from each of 10000 ports, one IP takes every permit there is. */
  lemma OneIpTakesAll(clock: nat, ip: nat)
    ensures exists actions ::
              && OncePerPort(actions, ip)
              && |LiveOf(Run(Start(clock), actions).handlers, ip)| == MAX_GLOBAL_CONNECTIONS
              && Run(Start(clock), actions).available == 0
  {
    hide Run, Within, OncePerPort;
    var ports := FirstPorts(10_000);
    var actions := OneFromEach(clock, ip, ports);
  }
}
