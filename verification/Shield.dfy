/** The connection shield: one global semaphore, a registry entry per client address, and
    the lock-protected blocks that read and change them. */
module Shield {
  import opened Basics

  datatype SocketAddr = SocketAddr(ip: nat, port: u16)

  const MAX_GLOBAL_CONNECTIONS: nat := 10_000
  const MAX_CONN_PER_IP: nat := 20
  const MAX_RPS_PER_IP: nat := 50

  // Times are in nanoseconds.
  const BURST_WINDOW: nat := 1_000_000_000
  const IDLE: nat := 60_000_000_000

  datatype Stats = Stats(connectionCount: nat, rpsCount: nat, lastRequest: nat)

  type Registry = map<SocketAddr, Stats>

  /** The connections counted for an address; an absent entry counts none. */
  function Count(r: Registry, k: SocketAddr): nat { if k in r then r[k].connectionCount else 0 }

  function OrInsert(r: Registry, k: SocketAddr, initial: Stats): Registry {
    if k in r then r else r[k := initial]
  }

  /** The entry block on arrival: the new registry and whether the connection is admitted. */
  function Admit(r: Registry, k: SocketAddr, now: nat): (Registry, bool) {
    var r' := OrInsert(r, k, Stats(0, 0, now));
    var e := r'[k];
    if e.connectionCount >= MAX_CONN_PER_IP then (r', false)
    else (r'[k := e.(connectionCount := e.connectionCount + 1)], true)
  }

  /** The rate block after the first read: the new registry and whether the request passes. */
  function CheckRate(r: Registry, k: SocketAddr, now: nat): (Registry, bool) {
    var r' := OrInsert(r, k, Stats(1, 0, now));
    var e := r'[k];
    if now > e.lastRequest + BURST_WINDOW then (r'[k := e.(rpsCount := 1, lastRequest := now)], true)
    else (r'[k := e.(rpsCount := e.rpsCount + 1)], e.rpsCount + 1 <= MAX_RPS_PER_IP)
  }

  /** The drop guard. */
  function Leave(r: Registry, k: SocketAddr): Registry {
    if k in r && r[k].connectionCount > 0
    then r[k := r[k].(connectionCount := r[k].connectionCount - 1)]
    else r
  }

  predicate Keeps(e: Stats, now: nat) { now < e.lastRequest + IDLE || e.connectionCount > 0 }

  /** The janitor's pass over one shard of the map. */
  function Retain(r: Registry, shard: set<SocketAddr>, now: nat): Registry {
    map k | k in r && (k in shard ==> Keeps(r[k], now)) :: r[k]
  }

  class AntiDDoSShield {
    var registry: Registry
    var available: nat

    constructor ()
      ensures registry == map[] && available == MAX_GLOBAL_CONNECTIONS
    {
      registry, available := map[], MAX_GLOBAL_CONNECTIONS;
    }

    method TryAcquire() returns (ok: bool)
      modifies this`available
      ensures ok <==> old(available) > 0
      ensures available + (if ok then 1 else 0) == old(available)
    {
      ok := available > 0;
      if ok { available := available - 1; }
    }

    method Release()
      modifies this`available
      ensures available == old(available) + 1
    {
      available := available + 1;
    }

    /** A client is admitted exactly below the limit, and then counted once; nobody else's entry
        changes, and leaving again restores the count. */
    method AdmitClient(k: SocketAddr, now: nat) returns (ok: bool)
      modifies this`registry
      ensures (registry, ok) == Admit(old(registry), k, now)
      ensures ok <==> Count(old(registry), k) < MAX_CONN_PER_IP
      ensures Count(registry, k) == Count(old(registry), k) + if ok then 1 else 0
      ensures registry - {k} == old(registry) - {k}
      ensures ok ==> Count(Leave(registry, k), k) == Count(old(registry), k)
    {
      if k !in registry { registry := registry[k := Stats(0, 0, now)]; }
      if registry[k].connectionCount >= MAX_CONN_PER_IP { return false; }
      registry := registry[k := registry[k].(connectionCount := registry[k].connectionCount + 1)];
      return true;
    }

    /** Within a window requests pass exactly until fifty have; the first one after it opens the
        next window and passes. The connection count of an entry and all other entries stay. */
    method CheckClientRate(k: SocketAddr, now: nat) returns (ok: bool)
      modifies this`registry
      ensures (registry, ok) == CheckRate(old(registry), k, now)
      ensures k in old(registry) && now <= old(registry)[k].lastRequest + BURST_WINDOW ==>
                (ok <==> old(registry)[k].rpsCount < MAX_RPS_PER_IP)
                && registry[k].lastRequest == old(registry)[k].lastRequest
      ensures k in old(registry) && now > old(registry)[k].lastRequest + BURST_WINDOW ==>
                ok && registry[k].lastRequest == now && registry[k].rpsCount == 1
      ensures k in old(registry) ==> Count(registry, k) == Count(old(registry), k)
      ensures k !in old(registry) ==> ok && registry == old(registry)[k := Stats(1, 1, now)]
      ensures registry - {k} == old(registry) - {k}
    {
      if k !in registry { registry := registry[k := Stats(1, 0, now)]; }
      if now > registry[k].lastRequest + BURST_WINDOW {
        registry := registry[k := registry[k].(rpsCount := 1, lastRequest := now)];
      } else {
        registry := registry[k := registry[k].(rpsCount := registry[k].rpsCount + 1)];
        if registry[k].rpsCount > MAX_RPS_PER_IP { return false; }
      }
      return true;
    }

    /** One connection fewer for the client, never below none; nobody else's entry changes. */
    method DropClient(k: SocketAddr)
      modifies this`registry
      ensures registry == Leave(old(registry), k) && registry.Keys == old(registry.Keys)
      ensures Count(registry, k) == if Count(old(registry), k) == 0 then 0 else Count(old(registry), k) - 1
      ensures registry - {k} == old(registry) - {k}
    {
      if k in registry {
        if registry[k].connectionCount > 0 {
          registry := registry[k := registry[k].(connectionCount := registry[k].connectionCount - 1)];
        }
      }
    }

    /** `retain` visits the entries of a shard in some order and removes the idle ones. */
    method Evict(shard: set<SocketAddr>, now: nat)
      modifies this`registry
      ensures registry == Retain(old(registry), shard, now)
    {
      var todo := shard;
      while todo != {}
        invariant todo <= shard && registry == Retain(old(registry), shard - todo, now)
        decreases todo
      {
        var k :| k in todo;
        if k in registry && !Keeps(registry[k], now) { registry := registry - {k}; }
        todo := todo - {k};
      }
      assert shard - todo == shard;
    }
  }
}
