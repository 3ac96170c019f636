/** Blocks, the text they hash, and what a valid chain's last hash says about its history. */
module LedgerChain {
  import opened Basics
  import opened Decimal
  import opened LedgerJson
  import Text

  datatype Block = Block(index: u32, timestamp: u64, transactions: seq<Transaction>,
                         previousHash: string, hash: string, nonce: u64)

  /** A hash function whose results have 64 characters, as SHA-256 in hexadecimal does. */
  ghost predicate IsDigest(H: string -> string) {
    forall s :: |H(s)| == 64
  }

  /** No two of the given texts collide. It is only ever assumed of the texts in play. */
  ghost predicate CollisionFree(H: string -> string, inputs: set<string>) {
    forall x, y :: x in inputs && y in inputs && H(x) == H(y) ==> x == y
  }

  /** Index and timestamp run together. */
  function Stamp(b: Block): (s: string)
    ensures s != [] && AllDigits(s)
  {
    Digits(b.index) + Digits(b.timestamp)
  }

  /** The text a block hashes: five fields with nothing between them. */
  function HashInput(b: Block): string {
    Stamp(b) + Array(b.transactions, "") + b.previousHash + Digits(b.nonce)
  }

  /** What the text of an empty block looks like. */
  lemma SampleInput(hash: string)
    ensures HashInput(Block(1, 23, [], "0", hash, 45)) == "123[]045"
  {
    assert Digits(23) == "23" && Digits(45) == "45" && Digits(1) == "1";
    assert "]" + "" == "]" && "[" + "]" == "[]";
  }

  predicate LinkText(p: string) { p == "0" || |p| == 64 }

  lemma NonceLength(n: u64)
    ensures 1 <= |Digits(n)| <= 20
  {
    assert Pow10(20) == 100_000_000_000_000_000_000 by {
      assert Pow10(5) == 100_000;
      assert Pow10(10) == 10_000_000_000;
      assert Pow10(15) == 1_000_000_000_000_000;
    }
    DigitsLength(n, 20);
  }

  lemma TailUnique(p: string, m: u64, q: string, n: u64)
    requires LinkText(p) && LinkText(q) && p + Digits(m) == q + Digits(n)
    ensures p == q && m == n
  {
    NonceLength(m);
    NonceLength(n);
    assert |p| == |q|;
    assert p == (p + Digits(m))[..|p|] && q == (q + Digits(n))[..|q|];
    Text.StripPrefix(p, Digits(m), Digits(n));
    DigitsInjective(m, n);
  }

  lemma HashInputParts(b: Block)
    ensures HashInput(b) == Stamp(b) + Array(b.transactions, b.previousHash + Digits(b.nonce))
  {
    ArrayAppend(b.transactions, b.previousHash + Digits(b.nonce));
  }

  /** The unseparated text determines everything but where the index ends and the
      timestamp begins. */
  lemma UniqueDecoding(a: Block, b: Block)
    requires LinkText(a.previousHash) && LinkText(b.previousHash)
    requires HashInput(a) == HashInput(b)
    ensures Stamp(a) == Stamp(b)
    ensures a.transactions == b.transactions && a.previousHash == b.previousHash && a.nonce == b.nonce
  {
    var x, y := a.previousHash + Digits(a.nonce), b.previousHash + Digits(b.nonce);
    HashInputParts(a);
    HashInputParts(b);
    DigitsEnd(Stamp(a), Array(a.transactions, x), Stamp(b), Array(b.transactions, y));
    ArrayUnique(a.transactions, b.transactions, x, y);
    TailUnique(a.previousHash, a.nonce, b.previousHash, b.nonce);
  }

  /** The index and timestamp themselves are determined exactly when the two timestamps
      have the same number of digits. */
  lemma IndexDetermined(a: Block, b: Block)
    requires LinkText(a.previousHash) && LinkText(b.previousHash)
    requires HashInput(a) == HashInput(b)
    ensures a.index == b.index && a.timestamp == b.timestamp
            <==> |Digits(a.timestamp)| == |Digits(b.timestamp)|
  {
    UniqueDecoding(a, b);
    if |Digits(a.timestamp)| == |Digits(b.timestamp)| {
      assert Digits(a.index) == Stamp(a)[..|Digits(a.index)|] && Digits(b.index) == Stamp(b)[..|Digits(b.index)|];
      Text.StripPrefix(Digits(a.index), Digits(a.timestamp), Digits(b.timestamp));
      DigitsInjective(a.index, b.index);
      DigitsInjective(a.timestamp, b.timestamp);
    }
  }

  /** What every accepted chain satisfies: linked back to the genesis marker, and every
      block carries its own hash. */
  ghost predicate ValidChain(H: string -> string, chain: seq<Block>) {
    && chain != []
    && (forall i :: 0 <= i < |chain| ==> Linked(chain, i))
    && (forall i :: 0 <= i < |chain| ==> SelfHashed(H, chain, i))
  }

  predicate SelfHashed(H: string -> string, chain: seq<Block>, i: nat)
    requires i < |chain|
  {
    chain[i].hash == H(HashInput(chain[i]))
  }

  predicate Linked(chain: seq<Block>, i: nat)
    requires i < |chain|
  {
    chain[i].previousHash == if i == 0 then "0" else chain[i - 1].hash
  }

  function Tip(chain: seq<Block>): Block
    requires chain != []
  {
    chain[|chain| - 1]
  }

  function Inputs(chain: seq<Block>): set<string> {
    set b | b in chain :: HashInput(b)
  }

  /** All that a hash says about a block. */
  predicate SameContent(a: Block, b: Block) {
    && Stamp(a) == Stamp(b)
    && a.transactions == b.transactions
    && a.previousHash == b.previousHash
    && a.nonce == b.nonce
    && a.hash == b.hash
  }

  /** Only the first block names no predecessor. */
  lemma PreviousLength(H: string -> string, chain: seq<Block>, i: nat)
    requires IsDigest(H) && ValidChain(H, chain) && i < |chain|
    ensures |chain[i].previousHash| == if i == 0 then 1 else 64
    ensures i > 0 ==> chain[i].previousHash == chain[i - 1].hash
    ensures LinkText(chain[i].previousHash)
  {
    assert Linked(chain, i);
    assert i > 0 ==> SelfHashed(H, chain, i - 1);
  }

  lemma SameHashSameContent(H: string -> string, a: seq<Block>, i: nat, b: seq<Block>, j: nat)
    requires IsDigest(H) && ValidChain(H, a) && ValidChain(H, b)
    requires CollisionFree(H, Inputs(a) + Inputs(b))
    requires i < |a| && j < |b| && a[i].hash == b[j].hash
    ensures SameContent(a[i], b[j])
  {
    hide HashInput;
    assert SelfHashed(H, a, i) && SelfHashed(H, b, j);
    assert HashInput(a[i]) in Inputs(a) && HashInput(b[j]) in Inputs(b);
    PreviousLength(H, a, i);
    PreviousLength(H, b, j);
    UniqueDecoding(a[i], b[j]);
  }

  /** From a common hash, both chains step back to a common hash or both start there. */
  lemma StepBack(H: string -> string, a: seq<Block>, i: nat, b: seq<Block>, j: nat)
    requires IsDigest(H) && ValidChain(H, a) && ValidChain(H, b)
    requires CollisionFree(H, Inputs(a) + Inputs(b))
    requires i < |a| && j < |b| && a[i].hash == b[j].hash
    ensures i == 0 <==> j == 0
    ensures i > 0 ==> a[i - 1].hash == b[j - 1].hash
  {
    hide HashInput;
    SameHashSameContent(H, a, i, b, j);
    PreviousLength(H, a, i);
    PreviousLength(H, b, j);
  }

  /** Equal hashes sit at equal positions. */
  lemma {:induction false} SamePosition(H: string -> string, a: seq<Block>, i: nat, b: seq<Block>, j: nat)
    requires IsDigest(H) && ValidChain(H, a) && ValidChain(H, b)
    requires CollisionFree(H, Inputs(a) + Inputs(b))
    requires i < |a| && j < |b| && a[i].hash == b[j].hash
    ensures i == j
  {
    hide HashInput, SameContent;
    StepBack(H, a, i, b, j);
    if i > 0 { SamePosition(H, a, i - 1, b, j - 1); }
  }

  /** Chains that agree at a position agree at every earlier one. */
  lemma {:induction false} AgreeBackwards(H: string -> string, a: seq<Block>, b: seq<Block>, i: nat, k: nat)
    requires IsDigest(H) && ValidChain(H, a) && ValidChain(H, b)
    requires CollisionFree(H, Inputs(a) + Inputs(b))
    requires k <= i < |a| && i < |b| && a[i].hash == b[i].hash
    ensures SameContent(a[k], b[k])
  {
    hide HashInput, SameContent;
    if k < i {
      StepBack(H, a, i, b, i);
      AgreeBackwards(H, a, b, i - 1, k);
    } else {
      SameHashSameContent(H, a, i, b, i);
    }
  }

  /** The last hash of a valid chain determines the whole history behind it. */
  lemma HistoryDetermined(H: string -> string, a: seq<Block>, b: seq<Block>)
    requires IsDigest(H) && ValidChain(H, a) && ValidChain(H, b)
    requires CollisionFree(H, Inputs(a) + Inputs(b))
    requires Tip(a).hash == Tip(b).hash
    ensures |a| == |b|
    ensures forall k :: 0 <= k < |a| ==> SameContent(a[k], b[k])
  {
    hide HashInput, SameContent;
    SamePosition(H, a, |a| - 1, b, |b| - 1);
    forall k | 0 <= k < |a|
      ensures SameContent(a[k], b[k])
    {
      AgreeBackwards(H, a, b, |a| - 1, k);
    }
  }

  /** No hash occurs twice in a valid chain. */
  lemma NoRepeatedHash(H: string -> string, chain: seq<Block>, i: nat, j: nat)
    requires IsDigest(H) && ValidChain(H, chain) && CollisionFree(H, Inputs(chain))
    requires i < |chain| && j < |chain| && chain[i].hash == chain[j].hash
    ensures i == j
  {
    hide HashInput, SameContent;
    assert Inputs(chain) + Inputs(chain) == Inputs(chain);
    SamePosition(H, chain, i, chain, j);
  }
}
