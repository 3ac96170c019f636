/** One node's shared table of client queues. */
module ClusterNode {

  datatype ServerMessage =
    | Pong
    | Welcome(sessionId: nat)
    | Notification(fromUser: nat, text: string)
    | Error(code: nat, msg: string)

  /** Messages other than notifications have no sender; sessions are numbered from 1. */
  function Origin(m: ServerMessage): nat { if m.Notification? then m.fromUser else 0 }

  /** A client's channel. Once the receiving end is dropped, what is sent is lost. */
  datatype Queue = Open(messages: seq<ServerMessage>) | Closed

  type Queues = map<nat, Queue>

  function Put(q: Queue, m: ServerMessage): Queue { if q.Open? then Open(q.messages + [m]) else q }

  function Rest(q: Queue): Queue { if q.Open? && q.messages != [] then Open(q.messages[1..]) else q }

  /** `m` reaches every queue in `who` except its sender's. */
  function Spread(q: Queues, m: ServerMessage, who: set<nat>): Queues {
    map s | s in q :: if s in who && s != Origin(m) then Put(q[s], m) else q[s]
  }

  /** Serving one more session. */
  lemma SpreadNext(q: Queues, m: ServerMessage, who: set<nat>, s: nat)
    requires s in q && s !in who
    ensures Spread(q, m, who + {s})
            == if s != Origin(m) then Spread(q, m, who)[s := Put(Spread(q, m, who)[s], m)] else Spread(q, m, who)
  {
  }

  lemma SpreadNone(q: Queues, m: ServerMessage)
    ensures Spread(q, m, {}) == q
  {
  }

  lemma SpreadKeys(q: Queues, m: ServerMessage, who: set<nat>)
    ensures Spread(q, m, who).Keys == q.Keys
  {
  }

  /** A notification is kept from its sender, any other message from nobody. */
  lemma SpreadEach(q: Queues, m: ServerMessage, who: set<nat>)
    requires forall s :: s in q ==> 1 <= s && s in who
    ensures forall s :: s in q ==>
              s in Spread(q, m, who)
              && Spread(q, m, who)[s] == if m.Notification? && s == m.fromUser then q[s] else Put(q[s], m)
  {
  }

  /** What a node keeps of its sessions. */
  datatype Table = Table(counter: nat, connections: Queues)

  /** What tasks do to it. `Take` is the write task's receive, `Close` the end of that task. */
  datatype Command =
    | Accept
    | Connect(session: nat)
    | Send(session: nat, m: ServerMessage)
    | Take(session: nat)
    | Close(session: nat)
    | Disconnect(session: nat)
    | Broadcast(m: ServerMessage)

  function Changed(t: Table, session: nat, f: Queue -> Queue): Table {
    if session in t.connections then t.(connections := t.connections[session := f(t.connections[session])]) else t
  }

  function Apply(t: Table, c: Command): Table {
    match c
    case Accept => t.(counter := t.counter + 1)
    case Connect(s) => if 1 <= s <= t.counter then t.(connections := t.connections[s := Open([])]) else t
    case Send(s, m) => Changed(t, s, q => Put(q, m))
    case Take(s) => Changed(t, s, q => Rest(q))
    case Close(s) => Changed(t, s, q => Closed)
    case Disconnect(s) => t.(connections := t.connections - {s})
    case Broadcast(m) => t.(connections := Spread(t.connections, m, t.connections.Keys))
  }

  function ApplyAll(t: Table, cs: seq<Command>): Table
    decreases cs
  {
    if cs == [] then t else ApplyAll(Apply(t, cs[0]), cs[1..])
  }

  lemma {:induction false} ApplyConcat(t: Table, a: seq<Command>, b: seq<Command>)
    ensures ApplyAll(t, a + b) == ApplyAll(ApplyAll(t, a), b)
    decreases a
  {
    if a == [] {
      assert a + b == b;
    } else {
      ApplyConcat(Apply(t, a[0]), a[1..], b);
      assert (a + b)[1..] == a[1..] + b;
    }
  }

  class ServerState {
    var sessionCounter: nat
    var connections: Queues

    ghost function View(): Table
      reads this
    {
      Table(sessionCounter, connections)
    }

    /** Session numbers are positive and never reused. */
    ghost predicate Valid()
      reads this
    {
      forall s :: s in connections ==> 1 <= s <= sessionCounter
    }

    constructor ()
      ensures Valid() && View() == Table(0, map[])
    {
      sessionCounter, connections := 0, map[];
    }

    method NextSession() returns (session: nat)
      requires Valid()
      modifies this`sessionCounter
      ensures Valid() && session == sessionCounter == old(sessionCounter) + 1 && session !in connections
    {
      sessionCounter := sessionCounter + 1;
      session := sessionCounter;
    }

    /** A message for one session, if it is connected. */
    method SendTo(session: nat, m: ServerMessage)
      requires Valid()
      modifies this`connections
      ensures Valid() && View() == Apply(old(View()), Send(session, m))
    {
      if session in connections { connections := connections[session := Put(connections[session], m)]; }
    }

    /** The loop over the local clients, in whatever order the map yields them. */
    method SendToAll(m: ServerMessage)
      requires Valid()
      modifies this`connections
      ensures Valid() && connections == Spread(old(connections), m, old(connections.Keys))
      ensures connections.Keys == old(connections.Keys)
      ensures forall s :: s in connections ==>
                connections[s] == if m.Notification? && s == m.fromUser then old(connections)[s]
                                  else Put(old(connections)[s], m)
    {
      hide Spread;
      var todo := connections.Keys;
      SpreadNone(connections, m);
      ghost var all := todo;
      assert all - todo == {};
      while todo != {}
        invariant todo <= all == old(connections.Keys)
        invariant Valid() && connections == Spread(old(connections), m, all - todo)
        decreases todo
      {
        var s :| s in todo;
        SpreadNext(old(connections), m, all - todo, s);
        SpreadKeys(old(connections), m, all - todo);
        assert all - (todo - {s}) == (all - todo) + {s};
        if s != Origin(m) { SendTo(s, m); }
        todo := todo - {s};
      }
      assert all - todo == all;
      SpreadKeys(old(connections), m, all);
      SpreadEach(old(connections), m, all);
    }

    /** One command. Session numbers stay positive and are never reused. */
    method Perform(c: Command)
      requires Valid()
      modifies this
      ensures Valid() && View() == Apply(old(View()), c)
    {
      match c {
        case Accept => var session := NextSession();
        case Connect(s) => if 1 <= s <= sessionCounter { connections := connections[s := Open([])]; }
        case Send(s, m) => SendTo(s, m);
        case Take(s) => if s in connections { connections := connections[s := Rest(connections[s])]; }
        case Close(s) => if s in connections { connections := connections[s := Closed]; }
        case Disconnect(s) => connections := connections - {s};
        case Broadcast(m) => SendToAll(m);
      }
    }

    method Execute(cs: seq<Command>)
      requires Valid()
      modifies this
      ensures Valid() && View() == ApplyAll(old(View()), cs)
    {
      ghost var start := View();
      for i := 0 to |cs|
        invariant Valid() && ApplyAll(View(), cs[i..]) == ApplyAll(start, cs)
      {
        assert cs[i..][1..] == cs[i + 1..];
        Perform(cs[i]);
      }
    }
  }
}
