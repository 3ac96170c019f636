/** Which sessions a broadcast reaches. */
module ClusterDelivery {
  import opened Cluster

  predicate Has(s: seq<nat>, k: nat) { k in s }

  /** Every session the listener has visited for its current message has been given it,
      unless it carries the sender's number or its queue is gone. */
  ghost predicate Served(bus: seq<Envelope>, node: Node) {
    node.listener.Delivering? && node.listener.position < |bus| ==>
      forall id :: id in node.listener.visited ==>
        id in node.sessions && SessionServed(bus, node.sessions[id], id, node.listener.position)
  }

  ghost predicate SessionServed(bus: seq<Envelope>, s: Session, id: nat, k: nat)
    requires k < |bus|
  {
    !s.phase.Handshake? && (s.receiver && id != bus[k].fromUser ==> Has(Trail(s), k))
  }

  /** While a queue lives, a session's steps forget nothing. */
  lemma LiveKeepsTrail(s: Session, id: nat, a: Action)
    requires !s.phase.Handshake?
    ensures !SessionStep(s, id, a).phase.Handshake?
    ensures SessionStep(s, id, a).receiver ==> s.receiver && Trail(SessionStep(s, id, a)) == Trail(s)
  {
    hide Notices;
    SilentFrame(s, Welcome(id));
    SilentFrame(s, Ping);
    SilentFrame(s, Pong);
    if s.queue != [] { WriteKeepsTrail(s); }
  }

  lemma OwnStepServed(bus: seq<Envelope>, node: Node, a: Action, id: nat)
    requires Served(bus, node) && id in node.sessions
    ensures Served(bus, Update(node, id, SessionStep(node.sessions[id], id, a)))
  {
    if !node.sessions[id].phase.Handshake? { LiveKeepsTrail(node.sessions[id], id, a); }
  }

  lemma DeliverServed(bus: seq<Envelope>, node: Node, id: nat)
    requires NodeOk(bus, node) && Served(bus, node)
    requires node.listener.Delivering? && id in Listed(node) && id !in node.listener.visited
    ensures Served(bus, NodeStep(bus, node, Deliver(id)))
  {
    var k := node.listener.position;
    if id != bus[k].fromUser { DeliverOk(bus, node.sessions[id], id, k); }
  }

  lemma NodeStepServed(bus: seq<Envelope>, node: Node, a: Action)
    requires NodeOk(bus, node) && Served(bus, node)
    ensures Served(bus, NodeStep(bus, node, a))
  {
    match a
    case Accept =>
    case Subscribe =>
    case Lose =>
    case Begin =>
    case Complete =>
    case ClientBroadcast(_, _, _) =>
    case Deliver(id) =>
      if node.listener.Delivering? && id in Listed(node) && id !in node.listener.visited {
        DeliverServed(bus, node, id);
      }
    case _ => if a.session in node.sessions { OwnStepServed(bus, node, a, a.session); }
  }

  ghost predicate AllServed(c: Cluster) {
    Ok(c) && forall n :: n in c.nodes ==> Served(c.bus, c.nodes[n])
  }

  lemma StepServed(c: Cluster, n: nat, a: Action)
    requires AllServed(c)
    ensures AllServed(Step(c, n, a))
  {
    StepOk(c, n, a);
    if a.ClientBroadcast? {
      var bus := Step(c, n, a).bus;
      forall m | m in c.nodes
        ensures Served(bus, c.nodes[m])
      {
        assert NodeOk(c.bus, c.nodes[m]);
      }
    } else {
      var node := if n in c.nodes then c.nodes[n] else Fresh();
      NodeStepServed(c.bus, node, a);
    }
  }

  lemma {:induction false} RunServed(c: Cluster, actions: seq<(nat, Action)>)
    requires AllServed(c)
    ensures AllServed(Run(c, actions))
    decreases actions
  {
    if actions != [] {
      StepServed(c, actions[0].0, actions[0].1);
      RunServed(Step(c, actions[0].0, actions[0].1), actions[1..]);
    }
  }

  /** The listener of node `n` is through with the message at `k`, and session `id` was
      listed when it began and still is, with a live queue. */
  ghost predicate Through(c: Cluster, n: nat, id: nat, k: nat) {
    && Exists(c, n, id) && k < |c.bus|
    && var node := c.nodes[n];
      && node.listener.Delivering? && node.listener.position == k
      && node.listener.present * Listed(node) <= node.listener.visited
      && id in node.listener.present && node.sessions[id].listed && node.sessions[id].receiver
  }

  /** A connected session gets a broadcast exactly when its number differs from the sender's,
      whichever node the sender is on. */
  lemma DeliveredIff(actions: seq<(nat, Action)>, n: nat, id: nat, k: nat)
    requires Through(Run(Start(), actions), n, id, k)
    ensures var c := Run(Start(), actions);
            Has(Trail(c.nodes[n].sessions[id]), k) <==> id != c.bus[k].fromUser
  {
    RunServed(Start(), actions);
    var c := Run(Start(), actions);
    var node := c.nodes[n];
    assert NodeOk(c.bus, node) && Served(c.bus, node);
    assert id in Listed(node);
    assert SessionServed(c.bus, node.sessions[id], id, k);
    assert SessionOk(c.bus, node.sessions[id], id, Upper(node.listener, |c.bus|, id));
  }

  // Whole runs.

  /** The session is registered, and the listener is at position `p` or later; if it is in the
      middle of a delivery, a session still listed was there when it began. */
  ghost predicate Attends(node: Node, id: nat, p: nat) {
    && id in node.sessions && !node.sessions[id].phase.Handshake?
    && match node.listener
       case Down => false
       case Subscribed(k) => p <= k
       case Delivering(k, present, _) => p <= k && (node.sessions[id].listed ==> id in present)
  }

  predicate Connected(s: Session) { s.listed && s.receiver }

  /** While it stays connected, everything from `p` on that is not from its number is in its
      trail. */
  ghost predicate Attended(bus: seq<Envelope>, node: Node, id: nat, p: nat) {
    && Attends(node, id, p)
    && (Connected(node.sessions[id]) ==> CaughtUp(bus, node.sessions[id], id, p, Upper(node.listener, |bus|, id)))
  }

  ghost predicate CaughtUp(bus: seq<Envelope>, s: Session, id: nat, p: nat, upper: nat) {
    upper <= |bus| && forall k :: p <= k < upper && bus[k].fromUser != id ==> Has(Trail(s), k)
  }

  lemma OwnStepAttended(bus: seq<Envelope>, node: Node, a: Action, id: nat, p: nat)
    requires Attended(bus, node, id, p)
    ensures Attended(bus, Update(node, id, SessionStep(node.sessions[id], id, a)), id, p)
  {
    hide Notices;
    LiveKeepsTrail(node.sessions[id], id, a);
  }

  lemma DeliverAttended(bus: seq<Envelope>, node: Node, id: nat, p: nat)
    requires NodeOk(bus, node) && Attended(bus, node, id, p)
    ensures Attended(bus, NodeStep(bus, node, Deliver(id)), id, p)
  {
    hide Trail;
    if node.listener.Delivering? && id in Listed(node) && id !in node.listener.visited {
      var k := node.listener.position;
      if bus[k].fromUser != id { DeliverOk(bus, node.sessions[id], id, k); }
    }
  }

  lemma NodeStepAttended(bus: seq<Envelope>, node: Node, a: Action, id: nat, p: nat)
    requires NodeOk(bus, node) && Attended(bus, node, id, p) && !a.Lose?
    ensures Attended(bus, NodeStep(bus, node, a), id, p)
  {
    hide Trail;
    match a
    case Accept =>
    case Subscribe =>
    case Lose =>
    case Begin =>
    case Complete =>
    case ClientBroadcast(_, _, _) =>
    case Deliver(other) => if other == id { DeliverAttended(bus, node, id, p); }
    case _ => if a.session == id { OwnStepAttended(bus, node, a, id, p); }
  }

  lemma {:induction false} RunAttended(c: Cluster, actions: seq<(nat, Action)>, n: nat, id: nat, p: nat)
    requires Ok(c) && n in c.nodes && Attended(c.bus, c.nodes[n], id, p)
    requires (n, Lose) !in actions
    ensures n in Run(c, actions).nodes && Attended(Run(c, actions).bus, Run(c, actions).nodes[n], id, p)
    decreases actions
  {
    hide Attended, NodeStep;
    if actions != [] {
      var (m, a) := actions[0];
      assert actions[0] in actions;
      StepOk(c, m, a);
      if a.ClientBroadcast? {
        BusGrows(c.bus, Step(c, m, a).bus, c.nodes[n], id, p);
      } else if m == n {
        NodeStepAttended(c.bus, c.nodes[n], a, id, p);
      }
      RunAttended(Step(c, m, a), actions[1..], n, id, p);
    }
  }

  lemma BusGrows(bus: seq<Envelope>, bus': seq<Envelope>, node: Node, id: nat, p: nat)
    requires bus <= bus' && Attended(bus, node, id, p)
    ensures Attended(bus', node, id, p)
  {
    hide Trail;
  }

  /** The session takes part from position `p` on: it is registered, and the listener is about
      to begin with `p` or has begun while it was listed. */
  ghost predicate Joins(node: Node, id: nat, p: nat) {
    && id in node.sessions && !node.sessions[id].phase.Handshake?
    && (node.listener == Subscribed(p)
        || (node.listener.Delivering? && node.listener.position == p && id in node.listener.present))
  }

  /** However long the run, a session that joined at `p` and is still connected has been given,
      of all messages from `p` up to where the listener is, exactly those whose sender number
      differs from its own, provided its node did not lose the bus. */
  lemma DeliveredThroughout(before: seq<(nat, Action)>, after: seq<(nat, Action)>, n: nat, id: nat, p: nat)
    requires Exists(Run(Start(), before), n, id) && Joins(Run(Start(), before).nodes[n], id, p)
    requires (n, Lose) !in after
    ensures Exists(Run(Run(Start(), before), after), n, id)
    ensures var d := Run(Run(Start(), before), after);
            var s := d.nodes[n].sessions[id];
            Connected(s) ==>
              forall k :: p <= k < Upper(d.nodes[n].listener, |d.bus|, id) ==>
                k < |d.bus| && (Has(Trail(s), k) <==> d.bus[k].fromUser != id)
  {
    hide Trail;
    var c := Run(Start(), before);
    RunServed(Start(), before);
    assert NodeOk(c.bus, c.nodes[n]) && Served(c.bus, c.nodes[n]);
    RunAttended(c, after, n, id, p);
    RunOk(c, after);
    var d := Run(c, after);
    assert NodeOk(d.bus, d.nodes[n]);
    assert SessionOk(d.bus, d.nodes[n].sessions[id], id, Upper(d.nodes[n].listener, |d.bus|, id));
  }

  // What a lost bus costs.

  /** The listener is past `k` without having given it to the session. */
  ghost predicate PassedOver(bus: seq<Envelope>, node: Node, id: nat, k: nat) {
    && id in node.sessions && k < |bus| && !Has(Trail(node.sessions[id]), k)
    && match node.listener
       case Down => true
       case Subscribed(p) => k < p
       case Delivering(p, _, _) => k < p
  }

  lemma TrailOnlyGrows(s: Session, id: nat, a: Action, k: nat)
    requires !Has(Trail(s), k)
    ensures !Has(Trail(SessionStep(s, id, a)), k)
  {
    hide Notices;
    SilentFrame(s, Welcome(id));
    SilentFrame(s, Ping);
    SilentFrame(s, Pong);
    if s.queue != [] { WriteKeepsTrail(s); }
    assert Trail(DropReceiver(s)) == Notices(s.wire) + Notices([]);
    NoticesNone();
  }

  lemma NoticesNone()
    ensures Notices([]) == []
  {
  }

  lemma DeliverPassesOver(bus: seq<Envelope>, node: Node, other: nat, id: nat, k: nat)
    requires NodeOk(bus, node) && PassedOver(bus, node, id, k)
    ensures PassedOver(bus, NodeStep(bus, node, Deliver(other)), id, k)
  {
    hide Trail;
    if node.listener.Delivering? && other == id && id in Listed(node) && id !in node.listener.visited {
      var p := node.listener.position;
      if bus[p].fromUser != id { DeliverOk(bus, node.sessions[id], id, p); }
    }
  }

  lemma NodeStepPassesOver(bus: seq<Envelope>, node: Node, a: Action, id: nat, k: nat)
    requires NodeOk(bus, node) && PassedOver(bus, node, id, k)
    ensures PassedOver(bus, NodeStep(bus, node, a), id, k)
  {
    hide Trail;
    match a
    case Accept =>
    case Subscribe =>
    case Lose =>
    case Begin =>
    case Complete =>
    case ClientBroadcast(_, _, _) =>
    case Deliver(other) => DeliverPassesOver(bus, node, other, id, k);
    case _ => if a.session == id { TrailOnlyGrows(node.sessions[id], id, a, k); }
  }

  /** What a listener has passed over never reaches the session, in any run. */
  lemma {:induction false} NeverLate(c: Cluster, actions: seq<(nat, Action)>, n: nat, id: nat, k: nat)
    requires Ok(c) && n in c.nodes && PassedOver(c.bus, c.nodes[n], id, k)
    ensures n in Run(c, actions).nodes && PassedOver(Run(c, actions).bus, Run(c, actions).nodes[n], id, k)
    decreases actions
  {
    hide NodeStep, Trail;
    if actions != [] {
      var (m, a) := actions[0];
      StepOk(c, m, a);
      if !a.ClientBroadcast? && m == n { NodeStepPassesOver(c.bus, c.nodes[n], a, id, k); }
      NeverLate(Step(c, m, a), actions[1..], n, id, k);
    }
  }

  /** A node that loses the bus and subscribes again starts behind everything published, so what
      its listener had not yet begun never reaches any of its sessions. */
  lemma LostForGood(before: seq<(nat, Action)>, after: seq<(nat, Action)>, n: nat, id: nat, k: nat)
    requires Exists(Run(Start(), before), n, id)
    requires var c := Run(Start(), before);
             c.nodes[n].listener.Subscribed? && c.nodes[n].listener.position <= k < |c.bus|
    ensures var c := Run(Start(), before);
            var d := Step(Step(c, n, Lose), n, Subscribe);
            && d.nodes[n] == c.nodes[n].(listener := Subscribed(|c.bus|)) && d.bus == c.bus
            && Exists(Run(d, after), n, id)
            && !Has(Trail(Run(d, after).nodes[n].sessions[id]), k)
  {
    hide Trail;
    var c := Run(Start(), before);
    RunOk(Start(), before);
    assert NodeOk(c.bus, c.nodes[n]);
    assert SessionOk(c.bus, c.nodes[n].sessions[id], id, c.nodes[n].listener.position);
    StepOk(c, n, Lose);
    StepOk(Step(c, n, Lose), n, Subscribe);
    NeverLate(Step(Step(c, n, Lose), n, Subscribe), after, n, id, k);
  }

  /** A delivery is not cut short by a lost bus: the listener goes on exactly when everybody listed
      since the beginning has been visited. */
  lemma Completes(bus: seq<Envelope>, node: Node)
    requires node.listener.Delivering?
    ensures NodeStep(bus, node, Lose) == node
    ensures NodeStep(bus, node, Complete)
            == if node.listener.present * Listed(node) <= node.listener.visited
               then node.(listener := Subscribed(node.listener.position + 1)) else node
  {
  }

  /** A session that has been greeted and nothing more. */
  function Greeted(): Session { Session(Serving, true, true, [], [Welcome(1)]) }

  function Joined(n: nat): seq<(nat, Action)> { [(n, Accept), (n, Register(1)), (n, Greet(1, true))] }

  lemma {:induction false} RunConcat(c: Cluster, a: seq<(nat, Action)>, b: seq<(nat, Action)>)
    ensures Run(c, a + b) == Run(Run(c, a), b)
    decreases a
  {
    if a == [] {
      assert a + b == b;
    } else {
      RunConcat(Step(c, a[0].0, a[0].1), a[1..], b);
      assert (a + b)[1..] == a[1..] + b;
    }
  }

  lemma RunThree(c: Cluster, x: (nat, Action), y: (nat, Action), z: (nat, Action))
    ensures Run(c, [x, y, z]) == Step(Step(Step(c, x.0, x.1), y.0, y.1), z.0, z.1)
  {
    assert [x, y, z][1..] == [y, z] && [y, z][1..] == [z] && [z][1..] == [];
    assert Run(c, [x, y, z]) == Run(Step(c, x.0, x.1), [y, z]);
    assert Run(Step(c, x.0, x.1), [y, z]) == Run(Step(Step(c, x.0, x.1), y.0, y.1), [z]);
  }

  lemma FirstJoins(c: Cluster, n: nat)
    requires n !in c.nodes
    ensures Run(c, Joined(n)) == c.(nodes := c.nodes[n := Node(1, map[1 := Greeted()], Down)])
  {
    RunThree(c, (n, Accept), (n, Register(1)), (n, Greet(1, true)));
    var s0 := NewSession();
    var s1 := s0.(phase := Registered, listed := true, receiver := true);
    SoleSession(s0, s1, Down);
    SoleSession(s1, Greeted(), Down);
    assert s1.wire + [Welcome(1)] == [Welcome(1)];
    var c1 := Step(c, n, Accept);
    assert map[][1 := s0] == map[1 := s0];
    assert c1 == c.(nodes := c.nodes[n := Node(1, map[1 := s0], Down)]);
    var c2 := Step(c1, n, Register(1));
    assert c2.nodes == c.nodes[n := Node(1, map[1 := s1], Down)];
    assert Step(c2, n, Greet(1, true)).nodes == c.nodes[n := Node(1, map[1 := Greeted()], Down)];
  }

  lemma SoleSession(s: Session, t: Session, l: Listener)
    ensures Update(Node(1, map[1 := s], l), 1, t) == Node(1, map[1 := t], l)
  {
    assert map[1 := s][1 := t] == map[1 := t];
  }

  function Sent(): seq<(nat, Action)> { [(2, Subscribe), (1, ClientBroadcast(1, "hello", true)), (2, Begin)] }

  lemma BroadcastBegins(c: Cluster)
    requires c == Cluster([], map[1 := Node(1, map[1 := Greeted()], Down), 2 := Node(1, map[1 := Greeted()], Down)])
    ensures Run(c, Sent()) == Cluster([Envelope(1, 1, "hello")],
                                      c.nodes[2 := Node(1, map[1 := Greeted()], Delivering(0, {1}, {}))])
  {
    RunThree(c, Sent()[0], Sent()[1], Sent()[2]);
    var c1 := Step(c, 2, Subscribe);
    var there := Node(1, map[1 := Greeted()], Subscribed(0));
    assert c1 == Cluster([], c.nodes[2 := there]);
    var c2 := Step(c1, 1, ClientBroadcast(1, "hello", true));
    assert c2 == Cluster([Envelope(1, 1, "hello")], c1.nodes);
    assert Listed(there) == {1};
  }

  /** Session numbers are per node, so a client on another node that happens to have the
      sender's number misses the broadcast. */
  lemma SameNumberMisses()
    ensures exists actions ::
      var c := Run(Start(), actions);
      Through(c, 2, 1, 0) && c.bus[0].node == 1 && !Has(Trail(c.nodes[2].sessions[1]), 0)
  {
    hide Run, Step;
    var base := Node(1, map[1 := Greeted()], Down);
    var c1 := Run(Start(), Joined(1));
    FirstJoins(Start(), 1);
    FirstJoins(c1, 2);
    var c2 := Run(c1, Joined(2));
    assert map[][1 := base][2 := base] == map[1 := base, 2 := base];
    BroadcastBegins(c2);
    var c3 := Run(c2, Sent());
    var visit := [(2, Deliver(1))];
    RunOne(c3, visit[0]);
    VisitSkips(c3);
    var actions := ((Joined(1) + Joined(2)) + Sent()) + visit;
    RunConcat(Start(), (Joined(1) + Joined(2)) + Sent(), visit);
    RunConcat(Start(), Joined(1) + Joined(2), Sent());
    RunConcat(Start(), Joined(1), Joined(2));
    assert Through(Run(Start(), actions), 2, 1, 0);
    DeliveredIff(actions, 2, 1, 0);
  }

  lemma RunOne(c: Cluster, x: (nat, Action))
    ensures Run(c, [x]) == Step(c, x.0, x.1)
  {
    assert [x][1..] == [];
  }

  lemma VisitSkips(c: Cluster)
    requires c.bus == [Envelope(1, 1, "hello")] && 2 in c.nodes
    requires c.nodes[2] == Node(1, map[1 := Greeted()], Delivering(0, {1}, {}))
    ensures Step(c, 2, Deliver(1)) == c.(nodes := c.nodes[2 := Node(1, map[1 := Greeted()], Delivering(0, {1}, {1}))])
  {
    assert Listed(c.nodes[2]) == {1};
    assert {} + {1} == {1};
  }
}
