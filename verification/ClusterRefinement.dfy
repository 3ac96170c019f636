/** A run of the cluster, seen from one node, is a series of commands to its table, and an
    uninterrupted delivery is the node's broadcast loop. */
module ClusterRefinement {
  import opened Cluster
  import opened Basics
  import N = ClusterNode

  /** The message a queued frame stands for. */
  function Show(bus: seq<Envelope>, f: Frame): N.ServerMessage {
    match f
    case Welcome(id) => N.Welcome(id)
    case Notice(k) => if k < |bus| then N.Notification(bus[k].fromUser, bus[k].text) else N.Pong
    case Pong => N.Pong
    case Ping => N.Pong
  }

  function ShowAll(bus: seq<Envelope>, fs: seq<Frame>): seq<N.ServerMessage> {
    seq(|fs|, i requires 0 <= i < |fs| => Show(bus, fs[i]))
  }

  function Channel(bus: seq<Envelope>, s: Session): N.Queue {
    if s.receiver then N.Open(ShowAll(bus, s.queue)) else N.Closed
  }

  /** The node's connection table. */
  function Table(bus: seq<Envelope>, node: Node): N.Queues {
    map id | id in Listed(node) :: Channel(bus, node.sessions[id])
  }

  function View(bus: seq<Envelope>, node: Node): N.Table { N.Table(node.counter, Table(bus, node)) }

  function DeliverAll(bus: seq<Envelope>, node: Node, order: seq<nat>): Node
    decreases order
  {
    if order == [] then node else DeliverAll(bus, NodeStep(bus, node, Deliver(order[0])), order[1..])
  }

  ghost predicate Distinct(s: seq<nat>) { forall i, j :: 0 <= i < j < |s| ==> s[i] != s[j] }

  lemma DeliverOne(bus: seq<Envelope>, node: Node, id: nat)
    requires node.listener.Delivering? && node.listener.position < |bus|
    requires id in Listed(node) && id !in node.listener.visited
    ensures var next := NodeStep(bus, node, Deliver(id));
            && next.listener == node.listener.(visited := node.listener.visited + {id})
            && Listed(next) == Listed(node)
            && Table(bus, next) == N.Spread(Table(bus, node), Show(bus, Notice(node.listener.position)), {id})
  {
    var next, k := NodeStep(bus, node, Deliver(id)), node.listener.position;
    assert Listed(next) == Listed(node);
    ShowNext(bus, node.sessions[id].queue, Notice(k));
    assert Table(bus, next).Keys == Table(bus, node).Keys;
  }

  lemma ShowNext(bus: seq<Envelope>, fs: seq<Frame>, f: Frame)
    ensures ShowAll(bus, fs + [f]) == ShowAll(bus, fs) + [Show(bus, f)]
  {
  }

  lemma SpreadTwice(q: N.Queues, m: N.ServerMessage, a: set<nat>, b: set<nat>)
    requires a !! b
    ensures N.Spread(N.Spread(q, m, a), m, b) == N.Spread(q, m, a + b)
  {
  }

  function Members(s: seq<nat>): set<nat> { set x | x in s }

  /** Visiting sessions one by one, in any order, gives each its copy and the sender none:
      the effect of `ServerState.Broadcast`. */
  lemma {:induction false} DeliveryIsBroadcast(bus: seq<Envelope>, node: Node, order: seq<nat>)
    requires node.listener.Delivering? && node.listener.position < |bus|
    requires Distinct(order) && Members(order) <= Listed(node) && Members(order) !! node.listener.visited
    ensures Table(bus, DeliverAll(bus, node, order))
            == N.Spread(Table(bus, node), Show(bus, Notice(node.listener.position)), Members(order))
    decreases order
  {
    hide Table, N.Spread, Show, NodeStep;
    if order == [] {
      N.SpreadNone(Table(bus, node), Show(bus, Notice(node.listener.position)));
      assert Members(order) == {};
    } else {
      var id, rest := order[0], order[1..];
      assert Members(order) == {id} + Members(rest) by { assert order == [id] + rest; }
      DeliverOne(bus, node, id);
      assert id !in rest;
      DeliveryIsBroadcast(bus, NodeStep(bus, node, Deliver(id)), rest);
      SpreadTwice(Table(bus, node), Show(bus, Notice(node.listener.position)), {id}, Members(rest));
    }
  }

  // Whole runs.

  /** What a session's own step does to the table. */
  function SessionCommands(s: Session, id: nat, a: Action): seq<N.Command> {
    match a
    case Register(_) => if s.phase.Handshake? then [N.Connect(id)] else []
    case Greet(_, ok) => if s.phase.Registered? && !ok then [N.Close(id)] else []
    case Write(_, ok) =>
      if !(Writing(s) && s.queue != []) then [] else if ok then [N.Take(id)] else [N.Disconnect(id)]
    case Heartbeat(_, ok) => if Writing(s) && !ok then [N.Disconnect(id)] else []
    case ClientPing(_) => if s.phase.Serving? then [N.Send(id, N.Pong)] else []
    case EndRead(_) => if s.phase.Serving? then [N.Disconnect(id)] else []
    case Abort(_) => if s.phase.Closing? then [N.Close(id)] else []
    case _ => []
  }

  function Commands(bus: seq<Envelope>, node: Node, a: Action): seq<N.Command> {
    match a
    case Accept => [N.Accept]
    case Deliver(id) =>
      if node.listener.Delivering? && id in Listed(node) && id !in node.listener.visited
         && node.listener.position < |bus| && id != bus[node.listener.position].fromUser
      then [N.Send(id, Show(bus, Notice(node.listener.position)))]
      else []
    case Subscribe => []
    case Lose => []
    case Begin => []
    case Complete => []
    case ClientBroadcast(_, _, _) => []
    case _ => if a.session in node.sessions then SessionCommands(node.sessions[a.session], a.session, a) else []
  }

  lemma ApplyOne(t: N.Table, c: N.Command)
    ensures N.ApplyAll(t, [c]) == N.Apply(t, c)
  {
    assert [c][1..] == [];
  }

  /** What the table holds for a session. */
  function Entry(bus: seq<Envelope>, s: Session): Option<N.Queue> {
    if s.listed then Some(Channel(bus, s)) else None
  }

  function With(q: N.Queues, id: nat, e: Option<N.Queue>): N.Queues {
    if e.Some? then q[id := e.value] else q - {id}
  }

  function After(c: N.Command, e: Option<N.Queue>): Option<N.Queue> {
    match c
    case Connect(_) => Some(N.Open([]))
    case Disconnect(_) => None
    case Send(_, m) => if e.Some? then Some(N.Put(e.value, m)) else None
    case Take(_) => if e.Some? then Some(N.Rest(e.value)) else None
    case Close(_) => if e.Some? then Some(N.Closed) else None
    case _ => e
  }

  lemma TableUpdate(bus: seq<Envelope>, node: Node, id: nat, s: Session)
    requires id in node.sessions
    ensures Table(bus, Update(node, id, s)) == With(Table(bus, node), id, Entry(bus, s))
  {
    hide Channel;
    assert Listed(Update(node, id, s)) == if s.listed then Listed(node) + {id} else Listed(node) - {id};
  }

  lemma CommandAt(t: N.Table, c: N.Command, id: nat, e: Option<N.Queue>)
    requires !c.Accept? && !c.Broadcast? && c.session == id && (c.Connect? ==> 1 <= id <= t.counter)
    requires t.connections == With(t.connections, id, e)
    ensures N.Apply(t, c) == t.(connections := With(t.connections, id, After(c, e)))
  {
    assert id in t.connections <==> e.Some?;
    assert e.Some? ==> t.connections[id] == e.value;
    assert id !in t.connections ==> t.connections - {id} == t.connections;
  }

  lemma SessionStepEntry(bus: seq<Envelope>, s: Session, id: nat, a: Action)
    requires WireOk(s, id)
    ensures var cs := SessionCommands(s, id, a);
            && |cs| <= 1 && (cs != [] ==> !cs[0].Accept? && !cs[0].Broadcast? && cs[0].session == id)
            && Entry(bus, SessionStep(s, id, a)) == if cs == [] then Entry(bus, s) else After(cs[0], Entry(bus, s))
  {
    hide ShowAll;
    ShowNext(bus, s.queue, Pong);
    ShowRest(bus, s.queue);
    ShowNone(bus);
  }

  lemma ShowRest(bus: seq<Envelope>, fs: seq<Frame>)
    ensures |ShowAll(bus, fs)| == |fs|
    ensures fs != [] ==> ShowAll(bus, fs)[1..] == ShowAll(bus, fs[1..])
  {
  }

  lemma ShowNone(bus: seq<Envelope>)
    ensures ShowAll(bus, []) == []
  {
  }

  lemma OwnStepIsCommands(bus: seq<Envelope>, node: Node, a: Action, id: nat)
    requires NodeOk(bus, node) && id in node.sessions
    ensures View(bus, Update(node, id, SessionStep(node.sessions[id], id, a)))
            == N.ApplyAll(View(bus, node), SessionCommands(node.sessions[id], id, a))
  {
    hide Table, SessionStep, SessionCommands, Entry, With, After;
    var s := node.sessions[id];
    var cs := SessionCommands(s, id, a);
    assert SessionOk(bus, s, id, Upper(node.listener, |bus|, id));
    SessionStepEntry(bus, s, id, a);
    TableUpdate(bus, node, id, s);
    assert Update(node, id, s) == node;
    TableUpdate(bus, node, id, SessionStep(s, id, a));
    if cs != [] {
      assert cs == [cs[0]];
      ApplyOne(View(bus, node), cs[0]);
      CommandAt(View(bus, node), cs[0], id, Entry(bus, s));
    }
  }

  lemma DeliverIsCommands(bus: seq<Envelope>, node: Node, id: nat)
    requires NodeOk(bus, node) && node.listener.Delivering? && id in Listed(node) && id !in node.listener.visited
    ensures View(bus, NodeStep(bus, node, Deliver(id)))
            == N.ApplyAll(View(bus, node), Commands(bus, node, Deliver(id)))
  {
    hide ShowAll, Show, N.Apply, Upper;
    var s, k := node.sessions[id], node.listener.position;
    var n := node.(listener := node.listener.(visited := node.listener.visited + {id}));
    assert Table(bus, n) == Table(bus, node);
    if id != bus[k].fromUser {
      var m := Show(bus, Notice(k));
      ShowNext(bus, s.queue, Notice(k));
      TableUpdate(bus, n, id, Push(s, Notice(k)));
      assert Entry(bus, Push(s, Notice(k))) == After(N.Send(id, m), Entry(bus, s));
      CommandAt(View(bus, node), N.Send(id, m), id, Entry(bus, s));
      ApplyOne(View(bus, node), N.Send(id, m));
    }
  }

  lemma StepIsCommands(bus: seq<Envelope>, node: Node, a: Action)
    requires NodeOk(bus, node)
    ensures View(bus, NodeStep(bus, node, a)) == N.ApplyAll(View(bus, node), Commands(bus, node, a))
  {
    hide Table, SessionCommands, SessionStep, NodeOk, Show, N.Spread;
    match a
    case Accept => AcceptIsCommand(bus, node);
    case Deliver(id) =>
      if node.listener.Delivering? && id in Listed(node) && id !in node.listener.visited {
        DeliverIsCommands(bus, node, id);
      }
    case Subscribe => SameTable(bus, node, NodeStep(bus, node, a));
    case Lose => SameTable(bus, node, NodeStep(bus, node, a));
    case Begin => SameTable(bus, node, NodeStep(bus, node, a));
    case Complete => SameTable(bus, node, NodeStep(bus, node, a));
    case ClientBroadcast(_, _, _) =>
    case _ => if a.session in node.sessions { OwnStepIsCommands(bus, node, a, a.session); }
  }

  lemma SameTable(bus: seq<Envelope>, node: Node, node': Node)
    requires node'.sessions == node.sessions
    ensures Table(bus, node') == Table(bus, node)
  {
  }

  lemma AcceptIsCommand(bus: seq<Envelope>, node: Node)
    requires NodeOk(bus, node)
    ensures View(bus, NodeStep(bus, node, Accept)) == N.ApplyAll(View(bus, node), [N.Accept])
  {
    hide Channel;
    ApplyOne(View(bus, node), N.Accept);
    assert Listed(NodeStep(bus, node, Accept)) == Listed(node);
  }

  lemma {:induction false} NoticesHas(fs: seq<Frame>, i: nat)
    requires i < |fs| && fs[i].Notice?
    ensures fs[i].position in Notices(fs)
  {
    if i < |fs| - 1 { NoticesHas(fs[..|fs| - 1], i); }
  }

  lemma QueueOnBus(bus: seq<Envelope>, s: Session, id: nat, upper: nat, bus': seq<Envelope>)
    requires SessionOk(bus, s, id, upper) && bus <= bus'
    ensures ShowAll(bus', s.queue) == ShowAll(bus, s.queue)
  {
    forall i | 0 <= i < |s.queue| && s.queue[i].Notice?
      ensures s.queue[i].position < |bus|
    {
      NoticesHas(s.queue, i);
      assert s.queue[i].position in Trail(s);
    }
  }

  lemma ViewStays(bus: seq<Envelope>, node: Node, bus': seq<Envelope>)
    requires NodeOk(bus, node) && bus <= bus'
    ensures View(bus', node) == View(bus, node)
  {
    forall id | id in Listed(node)
      ensures ShowAll(bus', node.sessions[id].queue) == ShowAll(bus, node.sessions[id].queue)
    {
      QueueOnBus(bus, node.sessions[id], id, Upper(node.listener, |bus|, id), bus');
    }
  }

  function NodeAt(c: Cluster, n: nat): Node { if n in c.nodes then c.nodes[n] else Fresh() }

  /** The commands of a whole run to the table of node `n`. */
  function Script(c: Cluster, actions: seq<(nat, Action)>, n: nat): seq<N.Command>
    decreases actions
  {
    if actions == [] then []
    else
      var (m, a) := actions[0];
      (if m == n then Commands(c.bus, NodeAt(c, n), a) else []) + Script(Step(c, m, a), actions[1..], n)
  }

  lemma StepIsScript(c: Cluster, m: nat, a: Action, n: nat)
    requires Ok(c)
    ensures View(Step(c, m, a).bus, NodeAt(Step(c, m, a), n))
            == N.ApplyAll(View(c.bus, NodeAt(c, n)), if m == n then Commands(c.bus, NodeAt(c, n), a) else [])
  {
    assert NodeOk(c.bus, NodeAt(c, n));
    if a.ClientBroadcast? {
      hide View;
      ViewStays(c.bus, NodeAt(c, n), Step(c, m, a).bus);
    } else {
      hide View, Commands, NodeStep, NodeOk;
      if m == n { StepIsCommands(c.bus, NodeAt(c, n), a); }
    }
  }

  lemma {:induction false} RunIsScript(c: Cluster, actions: seq<(nat, Action)>, n: nat)
    requires Ok(c)
    ensures View(Run(c, actions).bus, NodeAt(Run(c, actions), n))
            == N.ApplyAll(View(c.bus, NodeAt(c, n)), Script(c, actions, n))
    decreases actions
  {
    hide View, Commands, Step;
    if actions != [] {
      var (m, a) := actions[0];
      StepOk(c, m, a);
      StepIsScript(c, m, a, n);
      RunIsScript(Step(c, m, a), actions[1..], n);
      N.ApplyConcat(View(c.bus, NodeAt(c, n)), if m == n then Commands(c.bus, NodeAt(c, n), a) else [],
                    Script(Step(c, m, a), actions[1..], n));
    }
  }

  /** The object, given the commands of any run, ends with the table that run leaves. */
  method Serve(actions: seq<(nat, Action)>, n: nat) returns (state: N.ServerState)
    ensures fresh(state) && state.Valid()
    ensures state.View() == View(Run(Start(), actions).bus, NodeAt(Run(Start(), actions), n))
  {
    state := new N.ServerState();
    RunIsScript(Start(), actions, n);
    assert Table([], Fresh()) == map[];
    state.Execute(Script(Start(), actions, n));
  }
}
