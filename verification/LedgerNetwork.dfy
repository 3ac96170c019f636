/** A miner and a follower joined by a network that may lose, repeat and reorder block
    messages. */
module LedgerNetwork {
  import opened Basics
  import opened LedgerJson
  import opened LedgerChain
  import opened LedgerNode

  /** `sent` is everything the miner ever broadcast; any of it may arrive at any time, any
      number of times, or never. */
  datatype Pair = Pair(miner: Ledger, follower: Ledger, sent: set<Block>)

  datatype Move =
    | Mines(block: Block)
    | ReachesFollower(block: Block)
    | ReachesMiner(block: Block)
    | TxToMiner(tx: Transaction)
    | TxToFollower(tx: Transaction)

  /** One atomic step under the nodes' locks. A move that cannot happen changes nothing. */
  function Step(H: string -> string, s: Scheme, p: Pair, m: Move): (q: Pair)
    requires p.miner.chain != [] && p.follower.chain != []
    ensures q.miner.chain != [] && q.follower.chain != []
  {
    match m
    case Mines(b) =>
      if b.previousHash == Tip(p.miner.chain).hash && b.hash == H(HashInput(b))
      then p.(miner := Push(p.miner, b), sent := p.sent + {b})
      else p
    case ReachesFollower(b) => if b in p.sent then p.(follower := AfterBlock(H, p.follower, b)) else p
    case ReachesMiner(b) => if b in p.sent then p.(miner := AfterBlock(H, p.miner, b)) else p
    case TxToMiner(tx) => p.(miner := AfterTransaction(s, p.miner, tx))
    case TxToFollower(tx) => p.(follower := AfterTransaction(s, p.follower, tx))
  }

  function Run(H: string -> string, s: Scheme, p: Pair, moves: seq<Move>): (q: Pair)
    requires p.miner.chain != [] && p.follower.chain != []
    ensures q.miner.chain != [] && q.follower.chain != []
    decreases moves
  {
    if moves == [] then p else Run(H, s, Step(H, s, p, moves[0]), moves[1..])
  }

  /** A mined block extends the miner's chain and is sent; one sent block that is next extends the
      follower's. */
  lemma BlockTravels(H: string -> string, s: Scheme, p: Pair, b: Block)
    requires p.miner.chain != [] && p.follower.chain == p.miner.chain
    requires b.previousHash == Tip(p.miner.chain).hash && b.hash == H(HashInput(b))
    ensures var q := Step(H, s, p, Mines(b));
            && q.miner.chain == p.miner.chain + [b] && q.follower == p.follower && b in q.sent
            && Step(H, s, q, ReachesFollower(b)).follower.chain == q.miner.chain
  {
    hide HashInput;
  }

  /** A run goes on from where it was. */
  lemma {:induction false} RunConcat(H: string -> string, s: Scheme, p: Pair, a: seq<Move>, b: seq<Move>)
    requires p.miner.chain != [] && p.follower.chain != []
    ensures Run(H, s, p, a + b) == Run(H, s, Run(H, s, p, a), b)
    decreases a
  {
    hide Step;
    if a == [] {
      assert a + b == b;
    } else {
      RunConcat(H, s, Step(H, s, p, a[0]), a[1..], b);
      assert (a + b)[1..] == a[1..] + b;
    }
  }

  /** The follower holds a prefix of the miner's chain, and only blocks of that chain were
      ever sent. */
  ghost predicate InStep(H: string -> string, p: Pair) {
    && ValidChain(H, p.miner.chain)
    && p.follower.chain != [] && p.follower.chain <= p.miner.chain
    && (forall b :: b in p.sent ==> b in p.miner.chain)
  }

  lemma {:induction false} ChainGrows(H: string -> string, s: Scheme, p: Pair, moves: seq<Move>)
    requires p.miner.chain != [] && p.follower.chain != []
    ensures p.miner.chain <= Run(H, s, p, moves).miner.chain
    decreases moves
  {
    hide HashInput;
    if moves != [] { ChainGrows(H, s, Step(H, s, p, moves[0]), moves[1..]); }
  }

  lemma CollisionFreePrefix(H: string -> string, a: seq<Block>, b: seq<Block>)
    requires a <= b && CollisionFree(H, Inputs(b))
    ensures CollisionFree(H, Inputs(a))
  {
    assert forall x :: x in a ==> x in b;
    assert Inputs(a) <= Inputs(b);
  }

  /** A block of the miner's chain is accepted on top of a prefix exactly when it is the
      next one. */
  lemma AcceptedIffNext(H: string -> string, chain: seq<Block>, n: nat, k: nat, l: Ledger)
    requires IsDigest(H) && ValidChain(H, chain) && CollisionFree(H, Inputs(chain))
    requires 0 < n <= |chain| && k < |chain| && l.chain == chain[..n]
    ensures BlockVerdict(H, l, chain[k]).Accepted? <==> k == n
  {
    hide HashInput;
    assert Tip(l.chain) == chain[n - 1];
    assert SelfHashed(H, chain, k) && SelfHashed(H, chain, n - 1);
    PreviousLength(H, chain, k);
    if k > 0 && chain[k].previousHash == chain[n - 1].hash {
      NoRepeatedHash(H, chain, k - 1, n - 1);
    }
  }

  lemma StepKeepsPrefix(H: string -> string, s: Scheme, p: Pair, m: Move)
    requires IsDigest(H) && InStep(H, p) && CollisionFree(H, Inputs(p.miner.chain))
    ensures InStep(H, Step(H, s, p, m))
  {
    hide HashInput;
    var chain := p.miner.chain;
    match m
    case Mines(b) =>
      if b.previousHash == Tip(chain).hash && b.hash == H(HashInput(b)) {
        PushKeepsValid(H, chain, b);
      }
    case ReachesFollower(b) =>
      if b in p.sent {
        var k :| 0 <= k < |chain| && chain[k] == b;
        AcceptedIffNext(H, chain, |p.follower.chain|, k, p.follower);
      }
    case ReachesMiner(b) =>
      if b in p.sent {
        var k :| 0 <= k < |chain| && chain[k] == b;
        assert chain == chain[..|chain|];
        AcceptedIffNext(H, chain, |chain|, k, p.miner);
      }
    case TxToMiner(tx) =>
    case TxToFollower(tx) =>
  }

  /** After every run, whatever the network did, the follower's chain is a prefix of the
      miner's and the miner's own chain is valid. */
  lemma {:induction false} FollowerIsPrefix(H: string -> string, s: Scheme, p: Pair, moves: seq<Move>)
    requires IsDigest(H) && InStep(H, p)
    requires CollisionFree(H, Inputs(Run(H, s, p, moves).miner.chain))
    ensures InStep(H, Run(H, s, p, moves))
    decreases moves
  {
    hide HashInput;
    if moves != [] {
      ChainGrows(H, s, p, moves);
      CollisionFreePrefix(H, p.miner.chain, Run(H, s, p, moves).miner.chain);
      StepKeepsPrefix(H, s, p, moves[0]);
      FollowerIsPrefix(H, s, Step(H, s, p, moves[0]), moves[1..]);
    }
  }

  // Nodes that do not share their first block.

  /** Two valid chains with different first hashes, and only blocks of the miner's sent. */
  ghost predicate Strangers(H: string -> string, p: Pair) {
    && ValidChain(H, p.miner.chain) && ValidChain(H, p.follower.chain)
    && p.miner.chain[0].hash != p.follower.chain[0].hash
    && (forall b :: b in p.sent ==> b in p.miner.chain)
  }

  /** A ledger accepts no block of a chain with another first hash. */
  lemma StrangerRejects(H: string -> string, chain: seq<Block>, k: nat, l: Ledger)
    requires IsDigest(H) && ValidChain(H, chain) && ValidChain(H, l.chain) && k < |chain|
    requires CollisionFree(H, Inputs(chain) + Inputs(l.chain)) && chain[0].hash != l.chain[0].hash
    ensures !BlockVerdict(H, l, chain[k]).Accepted?
  {
    hide HashInput, SameContent;
    var n := |l.chain| - 1;
    PreviousLength(H, chain, k);
    assert SelfHashed(H, l.chain, n);
    if k > 0 && chain[k - 1].hash == l.chain[n].hash {
      SamePosition(H, chain, k - 1, l.chain, n);
      SameStart(H, chain, l.chain, n);
    }
  }

  lemma SameStart(H: string -> string, a: seq<Block>, b: seq<Block>, i: nat)
    requires IsDigest(H) && ValidChain(H, a) && ValidChain(H, b) && CollisionFree(H, Inputs(a) + Inputs(b))
    requires i < |a| && i < |b| && a[i].hash == b[i].hash
    ensures a[0].hash == b[0].hash
  {
    AgreeBackwards(H, a, b, i, 0);
  }

  /** Through every run a node with another first hash keeps exactly the chain it has. */
  lemma {:induction false} StrangerStays(H: string -> string, s: Scheme, p: Pair, moves: seq<Move>)
    requires IsDigest(H) && Strangers(H, p)
    requires CollisionFree(H, Inputs(Run(H, s, p, moves).miner.chain) + Inputs(p.follower.chain))
    ensures Run(H, s, p, moves).follower.chain == p.follower.chain
    ensures Strangers(H, Run(H, s, p, moves))
    decreases moves
  {
    hide HashInput;
    if moves != [] {
      ChainGrows(H, s, p, moves);
      CollisionFreePart(H, p.miner.chain, Run(H, s, p, moves).miner.chain, p.follower.chain);
      StrangerStep(H, s, p, moves[0]);
      StrangerStays(H, s, Step(H, s, p, moves[0]), moves[1..]);
    }
  }

  lemma CollisionFreePart(H: string -> string, a: seq<Block>, b: seq<Block>, c: seq<Block>)
    requires a <= b && CollisionFree(H, Inputs(b) + Inputs(c))
    ensures CollisionFree(H, Inputs(a) + Inputs(c)) && CollisionFree(H, Inputs(a))
  {
    assert forall x :: x in a ==> x in b;
    assert Inputs(a) <= Inputs(b);
  }

  lemma StrangerStep(H: string -> string, s: Scheme, p: Pair, m: Move)
    requires IsDigest(H) && Strangers(H, p)
    requires CollisionFree(H, Inputs(p.miner.chain) + Inputs(p.follower.chain))
    requires CollisionFree(H, Inputs(p.miner.chain))
    ensures Strangers(H, Step(H, s, p, m)) && Step(H, s, p, m).follower.chain == p.follower.chain
  {
    hide HashInput;
    var chain := p.miner.chain;
    match m
    case Mines(b) =>
      if b.previousHash == Tip(chain).hash && b.hash == H(HashInput(b)) { PushKeepsValid(H, chain, b); }
    case ReachesFollower(b) =>
      if b in p.sent {
        var k :| 0 <= k < |chain| && chain[k] == b;
        StrangerRejects(H, chain, k, p.follower);
      }
    case ReachesMiner(b) =>
      if b in p.sent {
        var k :| 0 <= k < |chain| && chain[k] == b;
        assert chain == chain[..|chain|];
        AcceptedIffNext(H, chain, |chain|, k, p.miner);
      }
    case TxToMiner(tx) =>
    case TxToFollower(tx) =>
  }

  /** A node that has only its first block is a prefix of the miner after every run exactly
      when that block is the miner's first; each node of the program mines its own. */
  lemma PrefixIffSameGenesis(H: string -> string, s: Scheme, p: Pair, moves: seq<Move>)
    requires IsDigest(H) && ValidChain(H, p.miner.chain) && |p.follower.chain| == 1
    requires forall b :: b in p.sent ==> b in p.miner.chain
    requires CollisionFree(H, Inputs(Run(H, s, p, moves).miner.chain))
    ensures Run(H, s, p, moves).follower.chain <= Run(H, s, p, moves).miner.chain
            <==> p.follower.chain[0] == p.miner.chain[0]
  {
    hide HashInput;
    if p.follower.chain[0] == p.miner.chain[0] { FollowerIsPrefix(H, s, p, moves); }
    FirstBlocksStay(H, s, p, moves);
  }

  lemma {:induction false} FirstBlocksStay(H: string -> string, s: Scheme, p: Pair, moves: seq<Move>)
    requires p.miner.chain != [] && p.follower.chain != []
    ensures Run(H, s, p, moves).miner.chain[0] == p.miner.chain[0]
    ensures Run(H, s, p, moves).follower.chain[0] == p.follower.chain[0]
    decreases moves
  {
    hide HashInput;
    if moves != [] { FirstBlocksStay(H, s, Step(H, s, p, moves[0]), moves[1..]); }
  }

  function InOrder(blocks: seq<Block>): seq<Move> {
    if blocks == [] then [] else [ReachesFollower(blocks[0])] + InOrder(blocks[1..])
  }

  /** The blocks a follower lacks, delivered in order, bring it level with the miner. */
  lemma {:induction false} CatchUp(H: string -> string, s: Scheme, p: Pair)
    requires IsDigest(H) && InStep(H, p) && CollisionFree(H, Inputs(p.miner.chain))
    requires forall b :: b in p.miner.chain[|p.follower.chain|..] ==> b in p.sent
    ensures Run(H, s, p, InOrder(p.miner.chain[|p.follower.chain|..])).follower.chain == p.miner.chain
    decreases |p.miner.chain| - |p.follower.chain|
  {
    hide HashInput;
    var chain, n := p.miner.chain, |p.follower.chain|;
    if n < |chain| {
      AcceptedIffNext(H, chain, n, n, p.follower);
      var first := ReachesFollower(chain[n]);
      assert chain[n..][0] == chain[n] && chain[n..][1..] == chain[n + 1..];
      StepKeepsPrefix(H, s, p, first);
      CatchUp(H, s, Step(H, s, p, first));
      assert InOrder(chain[n..])[1..] == InOrder(chain[n + 1..]);
    }
  }

  // One node alone, under anything the network may send it.

  /** A local mining step names the block it found. */
  datatype Input =
    | GotTransaction(tx: Transaction)
    | GotBlock(block: Block)
    | MinedBlock(miner: string, now: u64, found: Block)

  function Handle(H: string -> string, s: Scheme, l: Ledger, i: Input): (r: Ledger)
    requires l.chain != []
    ensures r.chain != []
  {
    match i
    case GotTransaction(tx) => AfterTransaction(s, l, tx)
    case GotBlock(b) => AfterBlock(H, l, b)
    case MinedBlock(_, _, b) => Push(l, b)
  }

  /** Mined blocks are what mining the candidate gives. */
  ghost predicate Possible(H: string -> string, l: Ledger, i: Input)
    requires l.chain != []
  {
    i.MinedBlock? ==> Mined(H, Candidate(H, l, i.miner, i.now), i.found, DIFFICULTY)
  }

  function HandleAll(H: string -> string, s: Scheme, l: Ledger, inputs: seq<Input>): (r: Ledger)
    requires l.chain != []
    ensures r.chain != []
    decreases inputs
  {
    if inputs == [] then l else HandleAll(H, s, Handle(H, s, l, inputs[0]), inputs[1..])
  }

  ghost predicate AllPossible(H: string -> string, s: Scheme, l: Ledger, inputs: seq<Input>)
    requires l.chain != []
    decreases inputs
  {
    inputs != [] ==> Possible(H, l, inputs[0]) && AllPossible(H, s, Handle(H, s, l, inputs[0]), inputs[1..])
  }

  /** A block taken from the network is one the node could have mined itself. */
  predicate TakesInLine(H: string -> string, l: Ledger, i: Input)
    requires l.chain != []
  {
    i.GotBlock? && BlockVerdict(H, l, i.block).Accepted? ==> InLine(l.chain, i.block)
  }

  ghost predicate AllInLine(H: string -> string, s: Scheme, l: Ledger, inputs: seq<Input>)
    requires l.chain != []
    decreases inputs
  {
    inputs != [] ==> TakesInLine(H, l, inputs[0]) && AllInLine(H, s, Handle(H, s, l, inputs[0]), inputs[1..])
  }

  /** What each input does to chain and pool. */
  lemma HandleChanges(H: string -> string, s: Scheme, l: Ledger, i: Input)
    requires l.chain != []
    ensures var r := Handle(H, s, l, i);
            match i
            case GotTransaction(tx) =>
              r.chain == l.chain && r.pending == l.pending + (if TransactionResult(s, tx) == Added then [tx] else [])
            case GotBlock(b) =>
              if b.previousHash == Tip(l.chain).hash && b.hash == H(HashInput(b))
              then r.chain == l.chain + [b] && r.pending == []
              else r == l
            case MinedBlock(_, _, b) => r.chain == l.chain + [b] && r.pending == []
  {
    hide HashInput;
    assert l.pending + [] == l.pending;
  }

  lemma HandleKeeps(H: string -> string, s: Scheme, l: Ledger, i: Input)
    requires ValidChain(H, l.chain) && PendingChecked(s, l) && Possible(H, l, i)
    ensures ValidChain(H, Handle(H, s, l, i).chain) && PendingChecked(s, Handle(H, s, l, i))
    ensures LocallyMined(Handle(H, s, l, i).chain) <==> LocallyMined(l.chain) && TakesInLine(H, l, i)
  {
    hide HashInput;
    match i
    case GotTransaction(tx) =>
    case GotBlock(b) =>
      if BlockVerdict(H, l, b).Accepted? { PushKeepsValid(H, l.chain, b); }
      PushKeepsLocal(l.chain, b);
    case MinedBlock(miner, now, b) =>
      HashNotHashed(Candidate(H, l, miner, now).(nonce := b.nonce), b.hash);
      PushKeepsValid(H, l.chain, b);
      PushKeepsLocal(l.chain, b);
  }

  /** Every reachable ledger is linked and self-hashed with only checked transactions
      pending; it has consecutive indices and proof of work throughout exactly when it began
      so and every block it took from the network was in line. */
  lemma {:induction false} ReachableIsValid(H: string -> string, s: Scheme, l: Ledger, inputs: seq<Input>)
    requires ValidChain(H, l.chain) && PendingChecked(s, l) && AllPossible(H, s, l, inputs)
    ensures ValidChain(H, HandleAll(H, s, l, inputs).chain) && PendingChecked(s, HandleAll(H, s, l, inputs))
    ensures LocallyMined(HandleAll(H, s, l, inputs).chain) <==> LocallyMined(l.chain) && AllInLine(H, s, l, inputs)
    decreases inputs
  {
    hide HashInput, PendingChecked, LocallyMined, Possible;
    if inputs != [] {
      HandleKeeps(H, s, l, inputs[0]);
      ReachableIsValid(H, s, Handle(H, s, l, inputs[0]), inputs[1..]);
    }
  }
}
