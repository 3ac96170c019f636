/** How many requests of one address pass the rate block in any stretch of time. */
module ShieldRate {
  import opened Basics
  import opened Shield
  import opened ShieldRuns

  /** Two successive passes share a window or are in windows more than a second apart. */
  predicate Follows(p: Pass, q: Pass) {
    || (q.window == p.window && q.rank == p.rank + 1)
    || (q.window > p.window + BURST_WINDOW && q.rank == 1)
  }

  predicate InWindow(p: Pass) {
    p.window <= p.time <= p.window + BURST_WINDOW && 1 <= p.rank <= MAX_RPS_PER_IP
  }

  ghost predicate Paced(ps: seq<Pass>) {
    && (forall i :: 0 <= i < |ps| ==> InWindow(ps[i]))
    && (ps != [] ==> ps[0].rank == 1)
    && (forall i, j :: 0 <= i && j == i + 1 && j < |ps| ==> Follows(ps[i], ps[j]))
    && (forall i, j :: 0 <= i <= j < |ps| ==> ps[i].time <= ps[j].time)
  }

  /** What an address's entry, or its absence, says about its last pass. */
  predicate EntryFits(r: Registry, k: SocketAddr, ps: seq<Pass>, clock: nat) {
    if k !in r then ps == [] || ps[|ps| - 1].window + IDLE <= clock
    else if ps == [] then r[k].rpsCount == 0
    else
      var p, e := ps[|ps| - 1], r[k];
      || (e.lastRequest == p.window && e.rpsCount >= p.rank && (e.rpsCount > p.rank ==> p.rank == MAX_RPS_PER_IP))
      || (e.lastRequest > p.window + BURST_WINDOW && e.rpsCount == 0)
  }

  ghost predicate KeyPaced(s: System, k: SocketAddr) {
    && Paced(Passes(s, k)) && EntryFits(s.registry, k, Passes(s, k), s.clock)
    && (Passes(s, k) != [] ==> Passes(s, k)[|Passes(s, k)| - 1].time <= s.clock)
    && (k in s.registry ==> s.registry[k].lastRequest <= s.clock)
  }

  lemma PassAppended(ps: seq<Pass>, q: Pass)
    requires Paced(ps) && InWindow(q) && (ps == [] ==> q.rank == 1)
    requires ps != [] ==> Follows(ps[|ps| - 1], q) && ps[|ps| - 1].time <= q.time
    ensures Paced(ps + [q])
  {
  }

  lemma RequestPaced(s: System, id: nat, k: SocketAddr)
    requires Counted(s) && Is(s, id, Admitted) && KeyPaced(s, k)
    ensures KeyPaced(Step(s, Request(id)), k)
  {
    LiveEntryPresent(s, id);
    hide Counted, Paced;
    if s.handlers[id].key == k {
      var (r, ok) := CheckRate(s.registry, k, s.clock);
      if ok { PassAppended(Passes(s, k), Pass(s.clock, r[k].lastRequest, r[k].rpsCount)); }
    }
  }

  lemma StepPaced(s: System, a: Action, k: SocketAddr)
    requires Counted(s) && KeyPaced(s, k)
    ensures KeyPaced(Step(s, a), k)
  {
    if a.Request? && Is(s, a.id, Admitted) { RequestPaced(s, a.id, k); }
  }

  lemma {:induction false} RunPaced(s: System, actions: seq<Action>, k: SocketAddr)
    requires Counted(s) && KeyPaced(s, k)
    ensures KeyPaced(Run(s, actions), k)
    decreases actions
  {
    if actions != [] {
      StepCounted(s, actions[0]);
      StepPaced(s, actions[0], k);
      RunPaced(Step(s, actions[0]), actions[1..], k);
    }
  }

  /** Between two passes the window is unchanged and every rank in between was used, or it
      has moved on by more than a second. */
  lemma {:induction false} Between(ps: seq<Pass>, i: nat, j: nat)
    requires Paced(ps) && i <= j < |ps|
    ensures || (ps[j].window == ps[i].window && ps[j].rank == ps[i].rank + (j - i))
            || ps[j].window > ps[i].window + BURST_WINDOW
    decreases j
  {
    if i < j {
      Between(ps, i, j - 1);
      assert Follows(ps[j - 1], ps[j]);
    }
  }

  /** Every fifty passes cost more than one window. */
  lemma {:induction false} FiftyPerWindow(ps: seq<Pass>, i: nat, n: nat)
    requires Paced(ps) && n > 0 && i + 50 * n < |ps|
    ensures ps[i + 50 * n].window > ps[i].window + n * 1_000_000_000
    decreases n
  {
    Between(ps, i, i + 50);
    assert InWindow(ps[i]) && InWindow(ps[i + 50]);
    if n > 1 { FiftyPerWindow(ps, i + 50, n - 1); }
  }

  lemma FarApart(ps: seq<Pass>, i: nat, j: nat, q: nat)
    requires Paced(ps) && i + 50 * (q + 2) <= j < |ps|
    ensures ps[j].time > ps[i].time + (q + 1) * 1_000_000_000
  {
    var k := i + 50 * (q + 2);
    FiftyPerWindow(ps, i, q + 2);
    assert InWindow(ps[i]) && InWindow(ps[k]);
    assert ps[k].time <= ps[j].time;
  }

  function During(ps: seq<Pass>, from: nat, length: nat): set<nat> {
    set i | 0 <= i < |ps| && from <= ps[i].time <= from + length
  }

  lemma {:induction false} Least(a: set<nat>) returns (m: nat)
    requires a != {}
    ensures m in a && forall x :: x in a ==> m <= x
    decreases |a|
  {
    m :| m in a;
    if a != {m} {
      assert forall x :: x in a ==> x == m || x in a - {m};
      assert a - {m} != {};
      var n := Least(a - {m});
      m := if n < m then n else m;
    }
  }

  lemma PacedBound(ps: seq<Pass>, from: nat, length: nat)
    requires Paced(ps)
    ensures |During(ps, from, length)| <= 50 * (length / 1_000_000_000 + 2)
  {
    var q := length / 1_000_000_000;
    var a := During(ps, from, length);
    if a != {} {
      var lo := Least(a);
      forall i | i in a
        ensures i < lo + 50 * (q + 2)
      {
        if i >= lo + 50 * (q + 2) { FarApart(ps, lo, i, q); }
      }
      SubsetSize(a, Range(lo, 50 * (q + 2)));
    }
  }

  /** Over a whole run, evictions included, at most 50 * (floor(L) + 2) requests of one
      address pass in any interval of L seconds. */
  lemma RateBound(clock: nat, actions: seq<Action>, k: SocketAddr, from: nat, length: nat)
    ensures |During(Passes(Run(Start(clock), actions), k), from, length)| <= 50 * (length / 1_000_000_000 + 2)
  {
    StartCounted(clock);
    RunPaced(Start(clock), actions, k);
    PacedBound(Passes(Run(Start(clock), actions), k), from, length);
  }

  /** The passes of one window stand next to each other, numbered from one. */
  lemma {:induction false} WindowStarts(ps: seq<Pass>, i: nat, back: nat)
    requires Paced(ps) && i < |ps| && back < ps[i].rank
    ensures back <= i && ps[i - back].window == ps[i].window
    decreases i
  {
    if back > 0 {
      assert i > 0;
      assert Follows(ps[i - 1], ps[i]);
      WindowStarts(ps, i - 1, back - 1);
    }
  }

  /** A request is refused only if fifty requests of its address passed within the last
      second. */
  lemma RefusalJustified(clock: nat, actions: seq<Action>, id: nat)
    requires var s := Run(Start(clock), actions);
             Is(s, id, Admitted) && Is(Step(s, Request(id)), id, Refused)
    ensures var s := Run(Start(clock), actions);
            var from := if s.clock < BURST_WINDOW then 0 else s.clock - BURST_WINDOW;
            |During(Passes(s, s.handlers[id].key), from, BURST_WINDOW)| >= MAX_RPS_PER_IP
  {
    StartCounted(clock);
    RunCounted(Start(clock), actions);
    var s := Run(Start(clock), actions);
    var k := s.handlers[id].key;
    RunPaced(Start(clock), actions, k);
    LiveEntryPresent(s, id);
    var ps := Passes(s, k);
    FiftyInWindow(ps, s.registry, k, s.clock);
  }

  /** The address has had its fifty passes in the window that is still open. */
  predicate WindowFull(ps: seq<Pass>, now: nat) {
    ps != [] && ps[|ps| - 1].rank == MAX_RPS_PER_IP && now <= ps[|ps| - 1].window + BURST_WINDOW
  }

  /** A request is refused exactly when the window of its address is full; otherwise it passes,
      once and now. */
  lemma RequestDecided(clock: nat, actions: seq<Action>, id: nat)
    requires Is(Run(Start(clock), actions), id, Admitted)
    ensures var s := Run(Start(clock), actions);
            var k, t := s.handlers[id].key, Step(s, Request(id));
            if WindowFull(Passes(s, k), s.clock) then Is(t, id, Refused) && t.passes == s.passes
            else Is(t, id, Cleared) && |Passes(t, k)| == |Passes(s, k)| + 1
                 && Passes(s, k) <= Passes(t, k) && Passes(t, k)[|Passes(s, k)|].time == s.clock
  {
    StartCounted(clock);
    RunCounted(Start(clock), actions);
    var s := Run(Start(clock), actions);
    RunPaced(Start(clock), actions, s.handlers[id].key);
    LiveEntryPresent(s, id);
    Decided(s, id);
  }

  lemma Decided(s: System, id: nat)
    requires Is(s, id, Admitted) && s.handlers[id].key in s.registry && KeyPaced(s, s.handlers[id].key)
    ensures var k, t := s.handlers[id].key, Step(s, Request(id));
            if WindowFull(Passes(s, k), s.clock) then Is(t, id, Refused) && t.passes == s.passes
            else Is(t, id, Cleared) && |Passes(t, k)| == |Passes(s, k)| + 1
                 && Passes(s, k) <= Passes(t, k) && Passes(t, k)[|Passes(s, k)|].time == s.clock
  {
    var ps := Passes(s, s.handlers[id].key);
    if ps != [] { assert InWindow(ps[|ps| - 1]); }
  }

  lemma FiftyInWindow(ps: seq<Pass>, r: Registry, k: SocketAddr, clock: nat)
    requires Paced(ps) && EntryFits(r, k, ps, clock) && k in r && (ps != [] ==> ps[|ps| - 1].time <= clock)
    requires clock <= r[k].lastRequest + BURST_WINDOW && r[k].rpsCount >= MAX_RPS_PER_IP
    ensures var from := if clock < BURST_WINDOW then 0 else clock - BURST_WINDOW;
            |During(ps, from, BURST_WINDOW)| >= MAX_RPS_PER_IP
  {
    var n := |ps| - 1;
    var from := if clock < BURST_WINDOW then 0 else clock - BURST_WINDOW;
    assert InWindow(ps[n]);
    assert ps[n].rank == MAX_RPS_PER_IP && ps[n].window == r[k].lastRequest;
    WindowStarts(ps, n, 49);
    forall i | i in Range(n - 49, 50)
      ensures i in During(ps, from, BURST_WINDOW)
    {
      WindowStarts(ps, n, n - i);
      assert InWindow(ps[i]);
      assert ps[i].time <= ps[n].time;
    }
    SubsetSize(Range(n - 49, 50), During(ps, from, BURST_WINDOW));
  }
}
