/** One ledger node: signed transactions, mining, and the three ways its state changes. */
module LedgerNode {
  import opened Basics
  import opened Decimal
  import opened LedgerJson
  import opened LedgerChain
  import Hex
  import Text

  const DIFFICULTY: nat := 4
  const MINING_REWARD: Amount := "50.0"
  const SYSTEM := "SYSTEM"

  type Key = seq<byte>

  /** The signature primitives, the raw message digest, and what the program asks of an amount:
      its `{}` text and whether it is `<= 0.0`. */
  datatype Scheme = Scheme(
    publicKey: Key -> seq<byte>,
    sign: (Key, seq<byte>) -> seq<byte>,
    isKey: seq<byte> -> bool,
    isSignature: seq<byte> -> bool,
    verify: (seq<byte>, seq<byte>, seq<byte>) -> bool,
    digest: string -> seq<byte>,
    show: Amount -> string,
    atMostZero: Amount -> bool)

  /** What is assumed of the primitives: an honest signature verifies. */
  ghost predicate Sound(s: Scheme) {
    forall k, m :: var pk, sig := s.publicKey(k), s.sign(k, m);
      |pk| == 32 && |sig| == 64 && s.isKey(pk) && s.isSignature(sig) && s.verify(pk, m, sig)
  }

  /** What is signed: three fields with nothing between them. */
  function Message(s: Scheme, tx: Transaction): string { tx.sender + tx.receiver + s.show(tx.amount) }

  function Sign(s: Scheme, tx: Transaction, key: Key): Transaction {
    tx.(signature := Some(s.sign(key, s.digest(Message(s, tx)))))
  }

  datatype Verdict = Genuine | Forged | Panicked

  /** Bytes of the wrong length are replaced by zeros. */
  function Sized(bytes: seq<byte>, n: nat): seq<byte> {
    if |bytes| == n then bytes else seq(n, _ => 0)
  }

  function Verify(s: Scheme, tx: Transaction): Verdict {
    if tx.sender == SYSTEM then Genuine
    else if tx.signature.None? then Forged
    else
      match Hex.Decode(tx.sender)
      case Panic => Panicked
      case ParseError => Forged
      case Ok(bytes) =>
        var pk, sig := Sized(bytes, 32), Sized(tx.signature.value, 64);
        if s.isKey(pk) && s.isSignature(sig) && s.verify(pk, s.digest(Message(s, tx)), sig) then Genuine else Forged
  }

  /** A transaction signed by the key its sender address encodes always verifies. */
  lemma SignedVerifies(s: Scheme, tx: Transaction, key: Key)
    requires Sound(s) && tx.sender == Hex.Encode(s.publicKey(key))
    ensures Verify(s, Sign(s, tx, key)) == Genuine
  {
    Hex.DecodeEncode(s.publicKey(key));
    assert Message(s, Sign(s, tx, key)) == Message(s, tx);
  }

  /** The signature is good for the key and for what the transaction says. */
  predicate Vouches(s: Scheme, tx: Transaction, pk: seq<byte>, sig: seq<byte>) {
    s.isKey(pk) && s.isSignature(sig) && s.verify(pk, s.digest(tx.sender + tx.receiver + s.show(tx.amount)), sig)
  }

  /** What a verified transaction has behind it: the system's name, or a signature that the key
      in the sender address vouches for. */
  ghost predicate Backed(s: Scheme, tx: Transaction) {
    || tx.sender == SYSTEM
    || (tx.signature.Some? && exists bytes :: Hex.Decode(tx.sender) == Hex.Ok(bytes)
                                && Vouches(s, tx, Sized(bytes, 32), Sized(tx.signature.value, 64)))
  }

  lemma GenuineIff(s: Scheme, tx: Transaction)
    ensures Verify(s, tx) == Genuine <==> Backed(s, tx)
  {
    if tx.sender != SYSTEM && tx.signature.Some? && Hex.Decode(tx.sender).Ok? {
      var bytes := Hex.Decode(tx.sender).bytes;
      assert Message(s, tx) == tx.sender + tx.receiver + s.show(tx.amount);
      assert Hex.Decode(tx.sender) == Hex.Ok(bytes);
    }
  }

  /** Only the holder of a key can make signatures for it. */
  ghost predicate Unforgeable(s: Scheme) {
    forall k, m, sig :: s.verify(s.publicKey(k), m, sig) ==> sig == s.sign(k, m)
  }

  lemma SystemIsNoKey(s: Scheme, k: Key)
    requires Sound(s)
    ensures Hex.Encode(s.publicKey(k)) != SYSTEM
  {
    assert |s.publicKey(k)| == 32 by { assert |s.sign(k, [])| == 64; }
    assert |Hex.Encode(s.publicKey(k))| == 64;
  }

  /** A transaction of a key's address with a full-length signature is accepted exactly when its
      amount is positive and the signature is the one the key makes for its three fields. One of
      any other length counts as 64 zeros. */
  lemma AcceptedIff(s: Scheme, tx: Transaction, k: Key)
    requires Sound(s) && Unforgeable(s) && tx.sender == Hex.Encode(s.publicKey(k))
    ensures TransactionResult(s, tx) == BadAmount <==> s.atMostZero(tx.amount)
    ensures tx.signature.None? ==> TransactionResult(s, tx) != Added
    ensures tx.signature.Some? && |tx.signature.value| == 64 ==>
              (TransactionResult(s, tx) == Added <==>
                 !s.atMostZero(tx.amount)
                 && tx.signature.value == s.sign(k, s.digest(tx.sender + tx.receiver + s.show(tx.amount))))
    ensures tx.signature.Some? && |tx.signature.value| != 64 ==>
              (TransactionResult(s, tx) == Added <==>
                 !s.atMostZero(tx.amount)
                 && s.sign(k, s.digest(tx.sender + tx.receiver + s.show(tx.amount))) == seq(64, _ => 0))
  {
    var m := s.digest(tx.sender + tx.receiver + s.show(tx.amount));
    SystemIsNoKey(s, k);
    Hex.DecodeEncode(s.publicKey(k));
    GenuineIff(s, tx);
    assert |s.publicKey(k)| == 32 by { assert |s.sign(k, m)| == 64; }
    assert s.isKey(s.publicKey(k)) && s.verify(s.publicKey(k), m, s.sign(k, m)) && s.isSignature(s.sign(k, m));
  }

  /** Anyone can submit a transaction in the system's name, without a signature. */
  lemma SystemUnsigned(s: Scheme, receiver: string, amount: Amount)
    requires !s.atMostZero(amount)
    ensures TransactionResult(s, Transaction(SYSTEM, receiver, amount, None)) == Added
  {
  }

  /** Everything in the pool is positive and backed, so all of it but what came in the system's
      name carries a signature. */
  lemma PendingBacked(s: Scheme, l: Ledger)
    requires PendingChecked(s, l)
    ensures forall tx :: tx in l.pending ==> !s.atMostZero(tx.amount) && Backed(s, tx)
  {
    forall tx | tx in l.pending
      ensures Backed(s, tx)
    {
      GenuineIff(s, tx);
    }
  }

  /** Verification panics exactly on a signed transaction whose sender has a bad slice behind
      pairs that are all numbers. */
  lemma VerifyPanicsIff(s: Scheme, tx: Transaction)
    ensures Verify(s, tx) == Panicked
            <==> tx.sender != SYSTEM && tx.signature.Some?
                 && exists n: nat :: Hex.PairsRead(tx.sender, n) && Hex.BadSlice(tx.sender, n)
  {
    Hex.DecodePanicsIff(tx.sender);
  }

  /** The floats' `{}` text tells amounts apart, and is the plain numeral for whole ones that
      JSON writes with one fraction digit. */
  ghost predicate Displays(s: Scheme) {
    && (forall a: Amount, b: Amount :: s.show(a) == s.show(b) ==> a == b)
    && (forall n: nat :: n < 10_000_000_000_000_000 ==>
          s.show(Whole(n)) == Digits(n) && (s.atMostZero(Whole(n)) <==> n == 0))
  }

  function Whole(n: nat): Amount {
    DigitsHaveNoComma(n);
    Digits(n) + ".0"
  }

  lemma DigitsHaveNoComma(n: nat)
    ensures ',' !in Digits(n)
  {
  }

  /** A signature binds receiver and amount exactly among transactions with equally long
      receivers. */
  lemma SignatureBindsIff(s: Scheme, a: Transaction, b: Transaction)
    requires Displays(s) && Message(s, a) == Message(s, b) && |a.sender| == |b.sender|
    ensures a.sender == b.sender
    ensures a.receiver == b.receiver && a.amount == b.amount <==> |a.receiver| == |b.receiver|
  {
    var x, y := a.receiver + s.show(a.amount), b.receiver + s.show(b.amount);
    assert Message(s, a) == a.sender + x && Message(s, b) == b.sender + y;
    assert a.sender == Message(s, a)[..|a.sender|] && b.sender == Message(s, b)[..|b.sender|];
    Text.StripPrefix(a.sender, x, y);
    if |a.receiver| == |b.receiver| {
      assert a.receiver == x[..|a.receiver|] && b.receiver == y[..|b.receiver|];
      Text.StripPrefix(a.receiver, s.show(a.amount), s.show(b.amount));
    }
  }

  predicate HasZeros(hash: string, difficulty: nat) {
    difficulty <= |hash| && forall i :: 0 <= i < difficulty ==> hash[i] == '0'
  }

  function WithNonce(H: string -> string, b: Block, n: u64): Block {
    var c := b.(nonce := n);
    c.(hash := H(HashInput(c)))
  }

  predicate Solves(H: string -> string, b: Block, n: u64, difficulty: nat) {
    HasZeros(WithNonce(H, b, n).hash, difficulty)
  }

  /** `r` is `b` with the least solving nonce from the one `b` started at. */
  ghost predicate Mined(H: string -> string, b: Block, r: Block, difficulty: nat) {
    && b.nonce <= r.nonce && r == WithNonce(H, b, r.nonce)
    && Solves(H, b, r.nonce, difficulty)
    && forall n: u64 :: b.nonce <= n < r.nonce ==> !Solves(H, b, n, difficulty)
  }

  function NewBlock(H: string -> string, index: u32, now: u64, txs: seq<Transaction>, previousHash: string): Block {
    WithNonce(H, Block(index, now, txs, previousHash, "", 0), 0)
  }

  /** A block's own hash is not part of what it hashes. */
  lemma HashNotHashed(b: Block, h: string)
    ensures HashInput(b.(hash := h)) == HashInput(b)
  {
  }

  /** The nonce loop. `solution` is any nonce that solves the block: the search stops there
      at the latest. */
  method Mine(H: string -> string, b: Block, difficulty: nat, ghost solution: u64) returns (r: Block)
    requires b == WithNonce(H, b, b.nonce)
    requires b.nonce <= solution && Solves(H, b, solution, difficulty)
    ensures Mined(H, b, r, difficulty) && r.nonce <= solution
  {
    hide HashInput;
    r := b;
    while !HasZeros(r.hash, difficulty)
      invariant b.nonce <= r.nonce <= solution && r == WithNonce(H, b, r.nonce)
      invariant forall n: u64 :: b.nonce <= n < r.nonce ==> !Solves(H, b, n, difficulty)
      decreases solution - r.nonce
    {
      assert !Solves(H, b, r.nonce, difficulty);
      r := r.(nonce := r.nonce + 1);
      HashNotHashed(r, b.hash);
      r := r.(hash := H(HashInput(r)));
    }
  }

  /** Only nonce and hash differ from what mining began with; the hash is the block's own, begins
      with four zeros, and no smaller nonce from 0 on gives such a hash. */
  lemma MinedBlock(H: string -> string, b: Block, r: Block)
    requires Mined(H, b, r, DIFFICULTY) && b.nonce == 0
    ensures r == b.(nonce := r.nonce, hash := r.hash) && r.hash == H(HashInput(r)) && "0000" <= r.hash
    ensures forall n: u64 :: n < r.nonce ==> !HasZeros(H(HashInput(r.(nonce := n))), DIFFICULTY)
  {
    hide HashInput;
    HashNotHashed(b.(nonce := r.nonce), r.hash);
    assert HasZeros(r.hash, 4);
    forall n: u64 | n < r.nonce
      ensures !HasZeros(H(HashInput(r.(nonce := n))), DIFFICULTY)
    {
      assert !Solves(H, b, n, DIFFICULTY);
      HashNotHashed(b.(nonce := n), r.hash);
    }
  }

  /** Mining is a function of its input: the least nonce is unique. */
  lemma MinedUnique(H: string -> string, b: Block, r: Block, r': Block, difficulty: nat)
    requires Mined(H, b, r, difficulty) && Mined(H, b, r', difficulty)
    ensures r == r'
  {
    assert Solves(H, b, r.nonce, difficulty) && Solves(H, b, r'.nonce, difficulty);
  }

  datatype Ledger = Ledger(chain: seq<Block>, pending: seq<Transaction>)

  datatype TxResult = Added | BadAmount | BadSignature | TxPanicked

  datatype BlockResult = Accepted | WrongPrevious | Corrupted

  function GenesisTransactions(): seq<Transaction> {
    [Transaction(SYSTEM, "Genesis_Receiver", "1000000.0", None)]
  }

  function BlockTransactions(l: Ledger, miner: string): seq<Transaction> {
    [Transaction(SYSTEM, miner, MINING_REWARD, None)] + l.pending
  }

  /** The unmined candidate; the index wraps at 32 bits. */
  function Candidate(H: string -> string, l: Ledger, miner: string, now: u64): Block
    requires l.chain != []
  {
    NewBlock(H, (Tip(l.chain).index + 1) % 0x1_0000_0000, now, BlockTransactions(l, miner), Tip(l.chain).hash)
  }

  function Push(l: Ledger, b: Block): Ledger { Ledger(l.chain + [b], []) }

  function TransactionResult(s: Scheme, tx: Transaction): TxResult {
    if s.atMostZero(tx.amount) then BadAmount
    else match Verify(s, tx)
      case Genuine => Added
      case Forged => BadSignature
      case Panicked => TxPanicked
  }

  function AfterTransaction(s: Scheme, l: Ledger, tx: Transaction): Ledger {
    if TransactionResult(s, tx).Added? then l.(pending := l.pending + [tx]) else l
  }

  function BlockVerdict(H: string -> string, l: Ledger, b: Block): BlockResult
    requires l.chain != []
  {
    if b.previousHash != Tip(l.chain).hash then WrongPrevious
    else if b.hash != H(HashInput(b)) then Corrupted
    else Accepted
  }

  function AfterBlock(H: string -> string, l: Ledger, b: Block): Ledger
    requires l.chain != []
  {
    if BlockVerdict(H, l, b).Accepted? then Push(l, b) else l
  }

  /** One signature can verify two acceptable transactions that pay different amounts to
      different receivers. */
  lemma SignatureDoesNotBind(s: Scheme, key: Key)
    requires Sound(s) && Displays(s)
    ensures exists a: Transaction, b: Transaction ::
      && a.sender == b.sender == Hex.Encode(s.publicKey(key)) && a.receiver != b.receiver && a.amount != b.amount
      && a == Sign(s, a, key) && b.signature == a.signature
      && TransactionResult(s, a) == Added && TransactionResult(s, b) == Added
  {
    var sender := Hex.Encode(s.publicKey(key));
    var a := Sign(s, Transaction(sender, "ab", Whole(12), None), key);
    var b := Transaction(sender, "ab1", Whole(2), a.signature);
    assert Digits(12) == "12" && Digits(2) == "2";
    assert s.show(Whole(12)) == "12" && s.show(Whole(2)) == "2";
    assert Message(s, a) == sender + "ab12" && Message(s, b) == sender + "ab12";
    SignedVerifies(s, Transaction(sender, "ab", Whole(12), None), key);
    Hex.DecodeEncode(s.publicKey(key));
    assert Verify(s, b) == Genuine;
    assert a.amount != b.amount;
  }

  /** Facts that hold of a chain this node mined alone, and that a block from the network
      need not have. */
  ghost predicate LocallyMined(chain: seq<Block>) {
    forall i :: 0 <= i < |chain| ==> chain[i].index == i % 0x1_0000_0000 && HasZeros(chain[i].hash, DIFFICULTY)
  }

  /** Appending a self-hashed successor of the tip keeps a chain valid. */
  lemma PushKeepsValid(H: string -> string, chain: seq<Block>, b: Block)
    requires ValidChain(H, chain) && b.previousHash == Tip(chain).hash && b.hash == H(HashInput(b))
    ensures ValidChain(H, chain + [b])
  {
    hide HashInput;
    var c := chain + [b];
    forall i | 0 <= i < |c|
      ensures Linked(c, i) && SelfHashed(H, c, i)
    {
      if i < |chain| { assert Linked(chain, i) && SelfHashed(H, chain, i); }
    }
  }

  lemma WrapNext(n: nat)
    ensures (n % 0x1_0000_0000 + 1) % 0x1_0000_0000 == (n + 1) % 0x1_0000_0000
  {
  }

  /** The block could have been mined on top of the chain: what acceptance does not ask. */
  predicate InLine(chain: seq<Block>, b: Block)
    requires chain != []
  {
    b.index == (Tip(chain).index + 1) % 0x1_0000_0000 && HasZeros(b.hash, DIFFICULTY)
  }

  lemma PushKeepsLocal(chain: seq<Block>, b: Block)
    requires chain != []
    ensures LocallyMined(chain + [b]) <==> LocallyMined(chain) && InLine(chain, b)
  {
    WrapNext(|chain| - 1);
    var c := chain + [b];
    assert c[|chain|] == b && forall i :: 0 <= i < |chain| ==> c[i] == chain[i];
  }

  /** Every ledger accepts a block out of line, with a transaction nobody signed. */
  lemma BlockUnchecked(H: string -> string, s: Scheme, l: Ledger)
    requires l.chain != []
    ensures exists b: Block :: BlockVerdict(H, l, b).Accepted? && !InLine(l.chain, b)
                               && exists tx :: tx in b.transactions && Verify(s, tx) == Forged
  {
    hide HashInput;
    var tx := Transaction("", "", MINING_REWARD, None);
    var index: u32 := if Tip(l.chain).index == 0 then 0 else 1;
    var b0 := Block(index, 0, [tx], Tip(l.chain).hash, "", 0);
    var b := b0.(hash := H(HashInput(b0)));
    HashNotHashed(b0, b.hash);
    assert BlockVerdict(H, l, b).Accepted? && !InLine(l.chain, b);
    assert tx in b.transactions && Verify(s, tx) == Forged;
  }

  /** Two chains that were mined locally and end in the same hash are equal: with the index
      given by the position, the timestamp is determined too. */
  lemma LocalHistoryIdentical(H: string -> string, a: seq<Block>, b: seq<Block>)
    requires IsDigest(H) && ValidChain(H, a) && ValidChain(H, b) && LocallyMined(a) && LocallyMined(b)
    requires CollisionFree(H, Inputs(a) + Inputs(b))
    requires Tip(a).hash == Tip(b).hash
    ensures a == b
  {
    HistoryDetermined(H, a, b);
    forall k | 0 <= k < |a|
      ensures a[k] == b[k]
    {
      assert SameContent(a[k], b[k]);
      assert a[k].index == b[k].index;
      Text.StripPrefix(Digits(a[k].index), Digits(a[k].timestamp), Digits(b[k].timestamp));
      DigitsInjective(a[k].timestamp, b[k].timestamp);
    }
  }

  /** Any ledger accepts two blocks that have the same hash and yet differ in index. */
  lemma IndexNotDetermined(H: string -> string, l: Ledger)
    requires l.chain != []
    ensures exists a: Block, b: Block :: a.index != b.index && a.hash == b.hash
                           && BlockVerdict(H, l, a).Accepted? && BlockVerdict(H, l, b).Accepted?
  {
    var tip := Tip(l.chain).hash;
    var a0, b0 := Block(1, 23, [], tip, "", 0), Block(12, 3, [], tip, "", 0);
    assert Digits(23) == Digits(2) + Digits(3) && Digits(12) == Digits(1) + Digits(2);
    assert Stamp(a0) == Stamp(b0);
    assert HashInput(a0) == HashInput(b0);
    var h := H(HashInput(a0));
    var a, b := a0.(hash := h), b0.(hash := h);
    HashNotHashed(a0, h);
    HashNotHashed(b0, h);
    assert BlockVerdict(H, l, a).Accepted? && BlockVerdict(H, l, b).Accepted?;
  }

  /** A pending transaction is one that was positive and verified when it was added. */
  ghost predicate PendingChecked(s: Scheme, l: Ledger) {
    forall tx :: tx in l.pending ==> !s.atMostZero(tx.amount) && Verify(s, tx) == Genuine
  }

  class Blockchain {
    const H: string -> string
    const scheme: Scheme
    var chain: seq<Block>
    var pending: seq<Transaction>

    ghost predicate Valid()
      reads this
    {
      ValidChain(H, chain) && PendingChecked(scheme, State())
    }

    ghost function State(): Ledger
      reads this
    {
      Ledger(chain, pending)
    }

    constructor (H: string -> string, scheme: Scheme, now: u64, ghost solution: u64)
      requires Solves(H, NewBlock(H, 0, now, GenesisTransactions(), "0"), solution, DIFFICULTY)
      ensures Valid() && this.H == H && this.scheme == scheme
      ensures |chain| == 1 && pending == [] && LocallyMined(chain)
      ensures Mined(H, NewBlock(H, 0, now, GenesisTransactions(), "0"), chain[0], DIFFICULTY)
      ensures chain[0].index == 0 && chain[0].timestamp == now && chain[0].previousHash == "0"
      ensures chain[0].transactions == [Transaction("SYSTEM", "Genesis_Receiver", "1000000.0", None)]
    {
      var genesis := Mine(H, NewBlock(H, 0, now, GenesisTransactions(), "0"), DIFFICULTY, solution);
      this.H, this.scheme := H, scheme;
      chain, pending := [genesis], [];
      new;
      assert Linked(chain, 0) && SelfHashed(H, chain, 0);
    }

    method AddTransaction(tx: Transaction) returns (r: TxResult)
      requires Valid()
      modifies this
      ensures Valid() && r == TransactionResult(scheme, tx)
      ensures State() == AfterTransaction(scheme, old(State()), tx)
      ensures chain == old(chain) && pending == old(pending) + if r == Added then [tx] else []
    {
      if scheme.atMostZero(tx.amount) { return BadAmount; }
      match Verify(scheme, tx) {
        case Forged => return BadSignature;
        case Panicked => return TxPanicked;
        case Genuine =>
          pending := pending + [tx];
          return Added;
      }
    }

    method MinePending(miner: string, now: u64, ghost solution: u64) returns (b: Block)
      requires Valid()
      requires Solves(H, Candidate(H, State(), miner, now), solution, DIFFICULTY)
      modifies this
      ensures Valid() && State() == Push(old(State()), b)
      ensures Mined(H, Candidate(H, old(State()), miner, now), b, DIFFICULTY)
      ensures pending == [] && chain == old(chain) + [b]
      ensures b.index == (Tip(old(chain)).index + 1) % 0x1_0000_0000 && b.timestamp == now
      ensures b.previousHash == Tip(old(chain)).hash && b.hash == H(HashInput(b)) && "0000" <= b.hash
      ensures forall n: u64 :: n < b.nonce ==> !HasZeros(H(HashInput(b.(nonce := n))), DIFFICULTY)
      ensures b.transactions == [Transaction("SYSTEM", miner, "50.0", None)] + old(pending)
      ensures old(LocallyMined(chain)) ==> LocallyMined(chain)
    {
      var candidate := Candidate(H, Ledger(chain, pending), miner, now);
      b := Mine(H, candidate, DIFFICULTY, solution);
      MinedBlock(H, candidate, b);
      PushKeepsValid(H, chain, b);
      PushKeepsLocal(chain, b);
      chain := chain + [b];
      pending := [];
    }

    method AddBlockFromNetwork(b: Block) returns (r: BlockResult)
      requires Valid()
      modifies this
      ensures Valid() && r == BlockVerdict(H, old(State()), b)
      ensures State() == AfterBlock(H, old(State()), b)
      ensures r == WrongPrevious <==> b.previousHash != Tip(old(chain)).hash
      ensures r == Accepted <==> b.previousHash == Tip(old(chain)).hash && b.hash == H(HashInput(b))
      ensures if r == Accepted then chain == old(chain) + [b] && pending == []
              else chain == old(chain) && pending == old(pending)
    {
      var last := Tip(chain);
      if b.previousHash != last.hash { return WrongPrevious; }
      if b.hash != H(HashInput(b)) { return Corrupted; }
      PushKeepsValid(H, chain, b);
      chain := chain + [b];
      pending := [];
      return Accepted;
    }
  }
}
