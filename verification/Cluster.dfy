/** Many nodes on one broadcast bus: what every client sees, in what order. */
module Cluster {

  /** A published message: the session that sent it, on its node. Only the session number
      and the text travel. */
  datatype Envelope = Envelope(node: nat, fromUser: nat, text: string)

  /** What a client can receive; a notification is named by its position on the bus. */
  datatype Frame = Welcome(session: nat) | Pong | Notice(position: nat) | Ping

  /** A closing session has left its read loop and the table; its writer is not yet stopped. */
  datatype Phase = Handshake | Registered | Serving | Closing | Ended

  /** `listed` is the entry in the connection table, `receiver` the live end of the queue. */
  datatype Session = Session(phase: Phase, listed: bool, receiver: bool, queue: seq<Frame>, wire: seq<Frame>)

  /** Where a node's bus listener is. While it delivers one message it visits sessions one
      by one; `present` are those listed when it began. */
  datatype Listener =
    | Down
    | Subscribed(position: nat)
    | Delivering(position: nat, present: set<nat>, visited: set<nat>)

  datatype Node = Node(counter: nat, sessions: map<nat, Session>, listener: Listener)

  datatype Cluster = Cluster(bus: seq<Envelope>, nodes: map<nat, Node>)

  datatype Action =
    | Accept
    | Register(session: nat)
    | Greet(session: nat, ok: bool)
    | Write(session: nat, ok: bool)
    | Heartbeat(session: nat, ok: bool)
    | ClientPing(session: nat)
    | ClientBroadcast(session: nat, text: string, ok: bool)
    | EndRead(session: nat)
    | Abort(session: nat)
    | Subscribe
    | Lose
    | Begin
    | Deliver(session: nat)
    | Complete

  function Fresh(): Node { Node(0, map[], Down) }

  function NewSession(): Session { Session(Handshake, false, false, [], []) }

  function Push(s: Session, f: Frame): Session { if s.receiver then s.(queue := s.queue + [f]) else s }

  /** Dropping the receiving end discards what is queued. */
  function DropReceiver(s: Session): Session { s.(receiver := false, queue := []) }

  function Update(node: Node, id: nat, s: Session): Node { node.(sessions := node.sessions[id := s]) }

  /** The write task runs from the greeting until it fails or is aborted. */
  predicate Writing(s: Session) { (s.phase.Serving? || s.phase.Closing?) && s.receiver }

  /** A session's own steps; one that is not enabled changes nothing. */
  function SessionStep(s: Session, id: nat, a: Action): Session {
    match a
    case Register(_) => if s.phase.Handshake? then s.(phase := Registered, listed := true, receiver := true) else s
    case Greet(_, ok) =>
      if !s.phase.Registered? then s
      else if ok then s.(phase := Serving, wire := s.wire + [Welcome(id)])
      else DropReceiver(s).(phase := Ended)
    case Write(_, ok) =>
      if !(Writing(s) && s.queue != []) then s
      else if ok then s.(wire := s.wire + [s.queue[0]], queue := s.queue[1..])
      else DropReceiver(s).(listed := false)
    case Heartbeat(_, ok) =>
      if !Writing(s) then s
      else if ok then s.(wire := s.wire + [Ping])
      else DropReceiver(s).(listed := false)
    case ClientPing(_) => if s.phase.Serving? && s.listed then Push(s, Pong) else s
    case EndRead(_) => if s.phase.Serving? then s.(phase := Closing, listed := false) else s
    case Abort(_) => if s.phase.Closing? then DropReceiver(s).(phase := Ended) else s
    case _ => s
  }

  function Listed(node: Node): set<nat> { set id | id in node.sessions && node.sessions[id].listed }

  function NodeStep(bus: seq<Envelope>, node: Node, a: Action): Node {
    match a
    case Accept =>
      var id := node.counter + 1;
      node.(counter := id, sessions := node.sessions[id := NewSession()])
    case Subscribe => if node.listener.Down? then node.(listener := Subscribed(|bus|)) else node
    case Lose => if node.listener.Subscribed? then node.(listener := Down) else node
    case Begin =>
      if node.listener.Subscribed? && node.listener.position < |bus|
      then node.(listener := Delivering(node.listener.position, Listed(node), {}))
      else node
    case Deliver(id) =>
      if node.listener.Delivering? && id in Listed(node) && id !in node.listener.visited then
        var k := node.listener.position;
        var n := node.(listener := node.listener.(visited := node.listener.visited + {id}));
        if k < |bus| && id != bus[k].fromUser then Update(n, id, Push(node.sessions[id], Notice(k))) else n
      else node
    case Complete =>
      if node.listener.Delivering? && node.listener.present * Listed(node) <= node.listener.visited
      then node.(listener := Subscribed(node.listener.position + 1))
      else node
    case ClientBroadcast(_, _, _) => node
    case _ =>
      if a.session in node.sessions
      then Update(node, a.session, SessionStep(node.sessions[a.session], a.session, a))
      else node
  }

  /** One atomic step of node `n`; a node that was never seen starts empty. */
  function Step(c: Cluster, n: nat, a: Action): Cluster {
    var node := if n in c.nodes then c.nodes[n] else Fresh();
    if a.ClientBroadcast? then
      if a.session in node.sessions && node.sessions[a.session].phase.Serving? && a.ok
      then c.(bus := c.bus + [Envelope(n, a.session, a.text)])
      else c
    else c.(nodes := c.nodes[n := NodeStep(c.bus, node, a)])
  }

  function Run(c: Cluster, actions: seq<(nat, Action)>): Cluster
    decreases actions
  {
    if actions == [] then c else Run(Step(c, actions[0].0, actions[0].1), actions[1..])
  }

  function Start(): Cluster { Cluster([], map[]) }

  /** The bus positions of the notifications in a list of frames. */
  function Notices(fs: seq<Frame>): seq<nat> {
    if fs == [] then []
    else
      var last := fs[|fs| - 1];
      Notices(fs[..|fs| - 1]) + if last.Notice? then [last.position] else []
  }

  lemma {:induction false} NoticesConcat(a: seq<Frame>, b: seq<Frame>)
    ensures Notices(a + b) == Notices(a) + Notices(b)
  {
    if b == [] {
      assert a + b == a;
    } else {
      var n := |b| - 1;
      NoticesConcat(a, b[..n]);
      assert (a + b)[..|a| + n] == a + b[..n];
    }
  }

  lemma NoticesOne(f: Frame)
    ensures Notices([f]) == if f.Notice? then [f.position] else []
  {
    assert [f][..0] == [];
  }

  /** Everything a session has received or will receive from its queue. */
  function Trail(s: Session): seq<nat> { Notices(s.wire) + Notices(s.queue) }

  predicate Increasing(s: seq<nat>) { forall i, j :: 0 <= i < j < |s| ==> s[i] < s[j] }

  /** The bus positions this session may have been given so far. */
  function Upper(l: Listener, size: nat, id: nat): nat {
    match l
    case Down => size
    case Subscribed(k) => k
    case Delivering(k, _, visited) => if id in visited then k + 1 else k
  }

  predicate TrailOk(bus: seq<Envelope>, trail: seq<nat>, id: nat, upper: nat) {
    && upper <= |bus| && Increasing(trail)
    && forall i :: 0 <= i < |trail| ==> trail[i] < upper && bus[trail[i]].fromUser != id
  }

  /** Welcome comes first and only first; nothing is set up before the handshake is done. */
  predicate WireOk(s: Session, id: nat) {
    && (s.phase.Handshake? ==> !s.listed && !s.receiver)
    && (s.phase.Serving? || s.phase.Closing? ==> s.wire != [])
    && (s.phase.Handshake? || s.phase.Registered? ==> s.wire == [])
    && (s.wire != [] ==> s.wire[0] == Welcome(id))
    && (forall i :: 0 < i < |s.wire| ==> !s.wire[i].Welcome?)
    && (forall i :: 0 <= i < |s.queue| ==> !s.queue[i].Welcome?)
    && (!s.receiver ==> s.queue == [])
  }

  predicate SessionOk(bus: seq<Envelope>, s: Session, id: nat, upper: nat) {
    TrailOk(bus, Trail(s), id, upper) && WireOk(s, id)
  }

  ghost predicate NodeOk(bus: seq<Envelope>, node: Node) {
    && (node.listener.Delivering? ==> node.listener.position < |bus|)
    && (node.listener.Subscribed? ==> node.listener.position <= |bus|)
    && forall id :: id in node.sessions ==>
         1 <= id <= node.counter && SessionOk(bus, node.sessions[id], id, Upper(node.listener, |bus|, id))
  }

  ghost predicate Ok(c: Cluster) { forall n :: n in c.nodes ==> NodeOk(c.bus, c.nodes[n]) }

  // Every step keeps the cluster consistent.

  lemma TrailGrows(bus: seq<Envelope>, bus': seq<Envelope>, trail: seq<nat>, id: nat, upper: nat, upper': nat)
    requires TrailOk(bus, trail, id, upper) && bus <= bus' && upper <= upper' <= |bus'|
    ensures TrailOk(bus', trail, id, upper')
  {
  }

  lemma TrailPrefix(bus: seq<Envelope>, a: seq<nat>, b: seq<nat>, id: nat, upper: nat)
    requires TrailOk(bus, a + b, id, upper)
    ensures TrailOk(bus, a, id, upper)
  {
    forall i | 0 <= i < |a|
      ensures a[i] < upper && bus[a[i]].fromUser != id && forall j :: i < j < |a| ==> a[i] < a[j]
    {
      assert (a + b)[i] == a[i];
      assert forall j :: i < j < |a| ==> (a + b)[j] == a[j];
    }
  }

  lemma TrailAppend(bus: seq<Envelope>, trail: seq<nat>, id: nat, k: nat)
    requires TrailOk(bus, trail, id, k) && k < |bus| && bus[k].fromUser != id
    ensures TrailOk(bus, trail + [k], id, k + 1)
  {
  }

  lemma DropReceiverOk(bus: seq<Envelope>, s: Session, id: nat, upper: nat)
    requires TrailOk(bus, Trail(s), id, upper)
    ensures TrailOk(bus, Trail(DropReceiver(s)), id, upper)
  {
    TrailPrefix(bus, Notices(s.wire), Notices(s.queue), id, upper);
    assert Notices(s.wire) + [] == Notices(s.wire);
  }

  /** Moving the head of the queue to the wire does not change what the client will see. */
  lemma WriteKeepsTrail(s: Session)
    requires s.queue != []
    ensures Trail(s.(wire := s.wire + [s.queue[0]], queue := s.queue[1..])) == Trail(s)
  {
    NoticesConcat(s.wire, [s.queue[0]]);
    NoticesConcat([s.queue[0]], s.queue[1..]);
    assert s.queue == [s.queue[0]] + s.queue[1..];
  }

  lemma SilentFrame(s: Session, f: Frame)
    requires !f.Notice?
    ensures Trail(s.(wire := s.wire + [f])) == Trail(s) && Trail(s.(queue := s.queue + [f])) == Trail(s)
  {
    NoticesConcat(s.wire, [f]);
    NoticesConcat(s.queue, [f]);
    NoticesOne(f);
    assert Notices(s.wire) + [] == Notices(s.wire) && Notices(s.queue) + [] == Notices(s.queue);
  }

  lemma SessionStepTrail(bus: seq<Envelope>, s: Session, id: nat, a: Action, upper: nat)
    requires TrailOk(bus, Trail(s), id, upper)
    ensures TrailOk(bus, Trail(SessionStep(s, id, a)), id, upper)
  {
    hide Notices, TrailOk;
    DropReceiverOk(bus, s, id, upper);
    SilentFrame(s, Welcome(id));
    SilentFrame(s, Ping);
    SilentFrame(s, Pong);
    if s.queue != [] { WriteKeepsTrail(s); }
  }

  lemma SessionStepWire(s: Session, id: nat, a: Action)
    requires WireOk(s, id)
    ensures WireOk(SessionStep(s, id, a), id)
  {
  }

  lemma DeliverOk(bus: seq<Envelope>, s: Session, id: nat, k: nat)
    requires SessionOk(bus, s, id, k) && k < |bus| && bus[k].fromUser != id
    ensures SessionOk(bus, Push(s, Notice(k)), id, k + 1)
    ensures s.receiver ==> Trail(Push(s, Notice(k))) == Trail(s) + [k]
  {
    NoticesConcat(s.queue, [Notice(k)]);
    NoticesOne(Notice(k));
    assert Notices(s.wire) + (Notices(s.queue) + [k]) == Trail(s) + [k];
    TrailAppend(bus, Trail(s), id, k);
    TrailGrows(bus, bus, Trail(s), id, k, k + 1);
  }

  lemma ListenerMoves(bus: seq<Envelope>, bus': seq<Envelope>, node: Node, l: Listener)
    requires NodeOk(bus, node) && bus <= bus'
    requires l.Delivering? ==> l.position < |bus'|
    requires l.Subscribed? ==> l.position <= |bus'|
    requires forall id :: id in node.sessions ==> Upper(node.listener, |bus|, id) <= Upper(l, |bus'|, id)
    ensures NodeOk(bus', node.(listener := l))
  {
    forall id | id in node.sessions
      ensures SessionOk(bus', node.sessions[id], id, Upper(l, |bus'|, id))
    {
      TrailGrows(bus, bus', Trail(node.sessions[id]), id, Upper(node.listener, |bus|, id), Upper(l, |bus'|, id));
    }
  }

  lemma DeliverStepOk(bus: seq<Envelope>, node: Node, id: nat)
    requires NodeOk(bus, node) && node.listener.Delivering? && id in Listed(node) && id !in node.listener.visited
    ensures NodeOk(bus, NodeStep(bus, node, Deliver(id)))
  {
    var k := node.listener.position;
    var l := node.listener.(visited := node.listener.visited + {id});
    ListenerMoves(bus, bus, node, l);
    if id != bus[k].fromUser {
      assert SessionOk(bus, node.sessions[id], id, k);
      DeliverOk(bus, node.sessions[id], id, k);
    }
  }

  lemma UpdateOk(bus: seq<Envelope>, node: Node, counter: nat, id: nat, s: Session)
    requires NodeOk(bus, node) && node.counter <= counter && 1 <= id <= counter
    requires SessionOk(bus, s, id, Upper(node.listener, |bus|, id))
    ensures NodeOk(bus, Update(node, id, s).(counter := counter))
  {
  }

  lemma NewSessionOk(bus: seq<Envelope>, id: nat, upper: nat)
    requires upper <= |bus|
    ensures SessionOk(bus, NewSession(), id, upper)
  {
    assert Trail(NewSession()) == [];
  }

  lemma AcceptOk(bus: seq<Envelope>, node: Node)
    requires NodeOk(bus, node)
    ensures NodeOk(bus, NodeStep(bus, node, Accept))
  {
    hide SessionOk;
    var id := node.counter + 1;
    NewSessionOk(bus, id, Upper(node.listener, |bus|, id));
    UpdateOk(bus, node, id, id, NewSession());
  }

  lemma OwnStepOk(bus: seq<Envelope>, node: Node, a: Action, id: nat)
    requires NodeOk(bus, node) && id in node.sessions
    ensures NodeOk(bus, Update(node, id, SessionStep(node.sessions[id], id, a)))
  {
    var s := SessionStep(node.sessions[id], id, a);
    SessionStepTrail(bus, node.sessions[id], id, a, Upper(node.listener, |bus|, id));
    SessionStepWire(node.sessions[id], id, a);
    UpdateOk(bus, node, node.counter, id, s);
    assert Update(node, id, s).(counter := node.counter) == Update(node, id, s);
  }

  lemma NodeStepOk(bus: seq<Envelope>, node: Node, a: Action)
    requires NodeOk(bus, node)
    ensures NodeOk(bus, NodeStep(bus, node, a))
  {
    match a
    case Accept => AcceptOk(bus, node);
    case Subscribe => if node.listener.Down? { ListenerMoves(bus, bus, node, Subscribed(|bus|)); }
    case Lose => if node.listener.Subscribed? { ListenerMoves(bus, bus, node, Down); }
    case Begin =>
      if node.listener.Subscribed? && node.listener.position < |bus| {
        ListenerMoves(bus, bus, node, Delivering(node.listener.position, Listed(node), {}));
      }
    case Deliver(id) =>
      if node.listener.Delivering? && id in Listed(node) && id !in node.listener.visited {
        DeliverStepOk(bus, node, id);
      }
    case Complete =>
      if node.listener.Delivering? { ListenerMoves(bus, bus, node, Subscribed(node.listener.position + 1)); }
    case ClientBroadcast(_, _, _) =>
    case _ => if a.session in node.sessions { OwnStepOk(bus, node, a, a.session); }
  }

  lemma StepOk(c: Cluster, n: nat, a: Action)
    requires Ok(c)
    ensures Ok(Step(c, n, a))
  {
    var c' := Step(c, n, a);
    if a.ClientBroadcast? {
      forall m | m in c.nodes
        ensures NodeOk(c'.bus, c.nodes[m])
      {
        ListenerMoves(c.bus, c'.bus, c.nodes[m], c.nodes[m].listener);
      }
    } else {
      NodeStepOk(c.bus, if n in c.nodes then c.nodes[n] else Fresh(), a);
    }
  }

  lemma {:induction false} RunOk(c: Cluster, actions: seq<(nat, Action)>)
    requires Ok(c)
    ensures Ok(Run(c, actions))
    decreases actions
  {
    if actions != [] {
      StepOk(c, actions[0].0, actions[0].1);
      RunOk(Step(c, actions[0].0, actions[0].1), actions[1..]);
    }
  }

  // What a session's own steps do.

  /** A connected session's ping is answered with one pong, behind everything queued. */
  lemma PingAnswered(s: Session, id: nat)
    requires s.phase.Serving? && s.listed && s.receiver
    ensures SessionStep(s, id, ClientPing(id)) == s.(queue := s.queue + [Pong])
  {
  }

  /** A session leaves the table when its read loop ends or a write or heartbeat fails, and never
      returns to it. */
  lemma LeavesForGood(s: Session, id: nat, a: Action)
    requires WireOk(s, id) && !s.phase.Handshake?
    ensures SessionStep(s, id, a).listed ==> s.listed
    ensures a.EndRead? && s.phase.Serving? ==> !SessionStep(s, id, a).listed
    ensures a.Write? && !a.ok && Writing(s) && s.queue != [] ==> !SessionStep(s, id, a).listed
    ensures a.Heartbeat? && !a.ok && Writing(s) ==> !SessionStep(s, id, a).listed
    ensures !SessionStep(s, id, a).phase.Handshake?
  {
  }

  /** A client that gets through the handshake is listed with an empty queue, then welcomed. */
  lemma Welcomed(s: Session, id: nat)
    requires s == NewSession()
    ensures var t := SessionStep(SessionStep(s, id, Register(id)), id, Greet(id, true));
            t == Session(Serving, true, true, [], [Welcome(id)])
  {
    assert [] + [Welcome(id)] == [Welcome(id)];
  }

  function Writes(id: nat, n: nat, s: Session): Session {
    if n == 0 then s else Writes(id, n - 1, SessionStep(s, id, Write(id, true)))
  }

  /** As many successful writes as there are frames in the queue bring the client all of them, in
      order. */
  lemma {:induction false} Drains(s: Session, id: nat)
    requires Writing(s)
    ensures Writes(id, |s.queue|, s) == s.(wire := s.wire + s.queue, queue := [])
    decreases |s.queue|
  {
    if s.queue == [] {
      assert s.wire + s.queue == s.wire;
    } else {
      Drains(SessionStep(s, id, Write(id, true)), id);
      assert s.wire + [s.queue[0]] + s.queue[1..] == s.wire + s.queue;
    }
  }

  /** A heartbeat that gets through sends a ping and changes nothing else. */
  lemma Heartbeats(s: Session, id: nat)
    requires Writing(s)
    ensures SessionStep(s, id, Heartbeat(id, true)) == s.(wire := s.wire + [Ping])
  {
  }

  /** A serving session's broadcast is published once, with its number and text, and only if the
      bus takes it. */
  lemma BroadcastPublished(c: Cluster, n: nat, id: nat, text: string, ok: bool)
    requires n in c.nodes && id in c.nodes[n].sessions && c.nodes[n].sessions[id].phase.Serving?
    ensures Step(c, n, ClientBroadcast(id, text, ok))
            == if ok then c.(bus := c.bus + [Envelope(n, id, text)]) else c
  {
  }

  // What clients see.

  ghost predicate Exists(c: Cluster, n: nat, id: nat) { n in c.nodes && id in c.nodes[n].sessions }

  function Wire(c: Cluster, n: nat, id: nat): seq<Frame>
    requires Exists(c, n, id)
  {
    c.nodes[n].sessions[id].wire
  }

  /** Notifications reach every client in bus order, none twice, and never the session that
      sent them; Welcome is the first frame and occurs once. */
  lemma ReceivedInBusOrder(actions: seq<(nat, Action)>, n: nat, id: nat)
    requires Exists(Run(Start(), actions), n, id)
    ensures var c := Run(Start(), actions);
            var got := Notices(Wire(c, n, id));
            && Increasing(got)
            && (forall i :: 0 <= i < |got| ==> got[i] < |c.bus| && c.bus[got[i]].fromUser != id)
    ensures var wire := Wire(Run(Start(), actions), n, id);
            && (wire != [] ==> wire[0] == Welcome(id))
            && (forall i :: 0 < i < |wire| ==> !wire[i].Welcome?)
  {
    RunOk(Start(), actions);
    var c := Run(Start(), actions);
    var s := c.nodes[n].sessions[id];
    assert NodeOk(c.bus, c.nodes[n]);
    TrailPrefix(c.bus, Notices(s.wire), Notices(s.queue), id, Upper(c.nodes[n].listener, |c.bus|, id));
  }

  /** Two notifications received by two sessions, on any nodes, arrive in the same order. */
  lemma SameOrderEverywhere(actions: seq<(nat, Action)>, n: nat, id: nat, m: nat, other: nat,
                            i: nat, j: nat, i': nat, j': nat)
    requires var c := Run(Start(), actions); Exists(c, n, id) && Exists(c, m, other)
    requires var c := Run(Start(), actions);
             var a, b := Notices(Wire(c, n, id)), Notices(Wire(c, m, other));
             i < |a| && j < |a| && i' < |b| && j' < |b| && a[i] == b[i'] && a[j] == b[j']
    ensures i < j <==> i' < j'
  {
    ReceivedInBusOrder(actions, n, id);
    ReceivedInBusOrder(actions, m, other);
  }
}
