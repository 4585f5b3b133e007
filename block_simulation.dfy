/** The editable three-block chain: a Block class whose digest covers index,
    timestamp, serialised data, previous hash and nonce (in that order),
    per-block validation, re-linking after tampering, editing block 1's data,
    and the resumable proof-of-work search on block 1.

    Each operation that mutates Block objects is a method over those objects;
    its postcondition ties the new field values to a function on snapshots
    (`BlockValue`), and the lemmas state what those functions guarantee. */
module BlockSimulation {
  import opened Runtime

  /** The string `calculateHash` digests: index, timestamp, serialised data,
      previous hash, nonce. */
  function Preimage(p: Primitives, index: nat, timestamp: string, data: Json, previousHash: string, nonce: nat): string
  {
    Decimal(index) + timestamp + p.stringify(data) + previousHash + Decimal(nonce)
  }

  /** The nonce sits last and prints injectively, so every nonce a search tries
      presents a string to SHA-256 that no other nonce presents. */
  lemma PreimageDeterminesNonce(p: Primitives, index: nat, timestamp: string, data: Json, previousHash: string, n1: nat, n2: nat)
    ensures Preimage(p, index, timestamp, data, previousHash, n1) == Preimage(p, index, timestamp, data, previousHash, n2)
            <==> n1 == n2
  {
    var fixed := Decimal(index) + timestamp + p.stringify(data) + previousHash;
    if Preimage(p, index, timestamp, data, previousHash, n1) == Preimage(p, index, timestamp, data, previousHash, n2) {
      assert Decimal(n1) == Preimage(p, index, timestamp, data, previousHash, n1)[|fixed|..];
      assert Decimal(n2) == Preimage(p, index, timestamp, data, previousHash, n2)[|fixed|..];
      DecimalInjective(n1, n2);
    }
  }

  /** The six fields of a block at one moment. */
  datatype BlockValue = BlockValue(index: nat, timestamp: string, data: Json, previousHash: string, nonce: nat, hash: Hex)

  /** `calculateHash()` on a snapshot: the stored hash plays no part. */
  function Digest(p: Primitives, b: BlockValue): Hex
  {
    p.sha256(Preimage(p, b.index, b.timestamp, b.data, b.previousHash, b.nonce))
  }

  /** The block's stored hash is the digest of its current fields. */
  predicate Sealed(p: Primitives, b: BlockValue)
  {
    b.hash == Digest(p, b)
  }

  /** `new Block(index, timestamp, data, previousHash)`. */
  function NewBlock(p: Primitives, index: nat, timestamp: string, data: Json, previousHash: string): (b: BlockValue)
    ensures b.index == index && b.timestamp == timestamp && b.data == data && b.previousHash == previousHash
    ensures b.nonce == 0 && Sealed(p, b)
  {
    BlockValue(index, timestamp, data, previousHash, 0, p.sha256(Preimage(p, index, timestamp, data, previousHash, 0)))
  }

  /** `b.hash = b.calculateHash()` after some other field was assigned. */
  function Rehashed(p: Primitives, b: BlockValue): (r: BlockValue)
    ensures Sealed(p, r)
    ensures r.(hash := b.hash) == b
  {
    b.(hash := Digest(p, b))
  }

  /** The digest block b would have with nonce n. */
  function HashAt(p: Primitives, b: BlockValue, n: nat): Hex
  {
    Digest(p, b.(nonce := n))
  }

  /** Block i passes the test of `validateChainDetailed`. */
  predicate LinkOk(p: Primitives, s: seq<BlockValue>, i: nat)
    requires 1 <= i < |s|
  {
    Sealed(p, s[i]) && s[i].previousHash == s[i - 1].hash
  }

  /** The flags `validateChainDetailed` returns for a chain whose blocks hold `s`. */
  function Validity(p: Primitives, s: seq<BlockValue>): (flags: seq<bool>)
    ensures |flags| == |s|
    ensures 0 < |s| ==> flags[0]
    ensures forall i :: 1 <= i < |s| ==>
              (flags[i] <==> s[i].hash == Digest(p, s[i]) && s[i].previousHash == s[i - 1].hash)
  {
    seq(|s|, i requires 0 <= i < |s| => i == 0 || LinkOk(p, s, i))
  }

  /** `blockValidity.every(Boolean)`. */
  predicate AllTrue(flags: seq<bool>)
  {
    forall i :: 0 <= i < |flags| ==> flags[i]
  }

  /** One step of the re-linking loops: point block b at `prev` and re-hash it. */
  function LinkedTo(p: Primitives, b: BlockValue, prev: string): BlockValue
  {
    Rehashed(p, b.(previousHash := prev))
  }

  /** The chain after `for (let i = start; i < chain.length; i++)` re-links
      block i to block i-1, strictly left to right. */
  function RelinkedFrom(p: Primitives, s: seq<BlockValue>, start: nat): seq<BlockValue>
    requires 1 <= start
    decreases |s| - start
  {
    if |s| <= start then s
    else RelinkedFrom(p, s[start := LinkedTo(p, s[start], s[start - 1].hash)], start + 1)
  }

  /** Re-linking from `start` leaves the blocks before `start` alone, changes
      only `previousHash` and `hash` of the others, and makes every block from
      `start` on pass validation. */
  lemma {:induction false} RelinkedFromSpec(p: Primitives, s: seq<BlockValue>, start: nat)
    requires 1 <= start
    ensures |RelinkedFrom(p, s, start)| == |s|
    ensures forall i :: 0 <= i < |s| && i < start ==> RelinkedFrom(p, s, start)[i] == s[i]
    ensures forall i :: start <= i < |s| ==>
              RelinkedFrom(p, s, start)[i].(previousHash := s[i].previousHash, hash := s[i].hash) == s[i]
    ensures forall i :: start <= i < |s| ==> LinkOk(p, RelinkedFrom(p, s, start), i)
    decreases |s| - start
  {
    if start < |s| {
      var s' := s[start := LinkedTo(p, s[start], s[start - 1].hash)];
      RelinkedFromSpec(p, s', start + 1);
    }
  }

  /** After fixChain (re-linking from block 1) every block validates. */
  lemma FixChainValidates(p: Primitives, s: seq<BlockValue>)
    ensures |Validity(p, RelinkedFrom(p, s, 1))| == |s|
    ensures AllTrue(Validity(p, RelinkedFrom(p, s, 1)))
  {
    RelinkedFromSpec(p, s, 1);
  }

  /** The chain the component starts from (and that resetChain installs): three
      fresh blocks, then blocks 1 and 2 re-linked in order. */
  function InitialValues(p: Primitives, t0: string, t1: string, t2: string): seq<BlockValue>
  {
    RelinkedFrom(p, [NewBlock(p, 0, t0, JString("Genesis Block"), "0"),
                     NewBlock(p, 1, t1, Amount(0), ""),
                     NewBlock(p, 2, t2, Amount(50), "")], 1)
  }

  /** The shape the component's chain keeps between operations: three blocks,
      every one sealed, block 1 linked to block 0. */
  predicate Settled(p: Primitives, s: seq<BlockValue>)
  {
    |s| == 3 && (forall i :: 0 <= i < 3 ==> Sealed(p, s[i])) && s[1].previousHash == s[0].hash
  }

  /** Re-linking a three-block chain whose genesis block is sealed settles it. */
  lemma RelinkSettles(p: Primitives, s: seq<BlockValue>)
    requires |s| == 3 && Sealed(p, s[0])
    ensures Settled(p, RelinkedFrom(p, s, 1))
  {
    RelinkedFromSpec(p, s, 1);
    var r := RelinkedFrom(p, s, 1);
    assert r[0] == s[0];
    assert LinkOk(p, r, 1) && LinkOk(p, r, 2);
  }

  /** The initial chain validates all-true, is settled, keeps the genesis
      block as constructed, and every block has nonce 0. */
  lemma InitialChainValid(p: Primitives, t0: string, t1: string, t2: string)
    ensures Settled(p, InitialValues(p, t0, t1, t2))
    ensures Validity(p, InitialValues(p, t0, t1, t2)) == [true, true, true]
    ensures InitialValues(p, t0, t1, t2)[0] == NewBlock(p, 0, t0, JString("Genesis Block"), "0")
    ensures forall i :: 0 <= i < 3 ==> InitialValues(p, t0, t1, t2)[i].nonce == 0
  {
    var s := [NewBlock(p, 0, t0, JString("Genesis Block"), "0"),
              NewBlock(p, 1, t1, Amount(0), ""),
              NewBlock(p, 2, t2, Amount(50), "")];
    RelinkedFromSpec(p, s, 1);
    RelinkSettles(p, s);
    FixChainValidates(p, s);
  }

  /** In a settled chain only the link from block 2 can then fail, so
      the flags are [true, true, whether block 2 points at block 1's hash]. */
  lemma SettledChainValidity(p: Primitives, s: seq<BlockValue>)
    requires Settled(p, s)
    ensures Validity(p, s) == [true, true, s[2].previousHash == s[1].hash]
  {
  }

  /** The payload `safeParse` hands back: null when JSON.parse throws. */
  function SafeParse(p: Primitives, text: string): (r: Json)
    ensures r == JNull <==> p.parse(text) == None || p.parse(text) == Some(JNull)
    ensures r != JNull ==> p.parse(text) == Some(r)
  {
    match p.parse(text)
    case None => JNull
    case Some(v) => v
  }

  /** Block b after `data = d; hash = calculateHash()`. */
  function WithData(p: Primitives, b: BlockValue, d: Json): (r: BlockValue)
    ensures r.data == d && Sealed(p, r)
    ensures r.(data := b.data, hash := b.hash) == b
  {
    Rehashed(p, b.(data := d))
  }

  /** The chain after block 1's data is set to d and block 1 re-hashed. */
  function EditedChain(p: Primitives, s: seq<BlockValue>, d: Json): seq<BlockValue>
    requires 2 <= |s|
  {
    s[1 := WithData(p, s[1], d)]
  }

  /** Editing block 1 of a valid chain keeps block 1 valid (it is re-hashed)
      and leaves every flag unchanged except block 2's, which turns false
      exactly when block 1's hash changed. */
  lemma {:induction false} EditBlockOneValidity(p: Primitives, s: seq<BlockValue>, d: Json)
    requires 3 <= |s| && AllTrue(Validity(p, s))
    ensures |Validity(p, EditedChain(p, s, d))| == |s|
    ensures forall i :: 0 <= i < |s| && i != 2 ==> Validity(p, EditedChain(p, s, d))[i]
    ensures Validity(p, EditedChain(p, s, d))[2] <==> EditedChain(p, s, d)[1].hash == s[1].hash
  {
    var s' := EditedChain(p, s, d);
    forall i | 0 <= i < |s| && i != 2
      ensures Validity(p, s')[i]
    {
      assert Validity(p, s)[i];
    }
    assert Validity(p, s)[2];
  }

  /** Block 1 with its nonce set to n and re-hashed: what the mining loop leaves. */
  function WithNonce(p: Primitives, b: BlockValue, n: nat): (r: BlockValue)
    ensures r.nonce == n && Sealed(p, r)
    ensures r.(nonce := b.nonce, hash := b.hash) == b
  {
    Rehashed(p, b.(nonce := n))
  }

  /** Once block 1 is mined, re-linking from block 2 makes the whole chain
      validate, provided block 1 was linked to block 0. */
  lemma MinedChainValid(p: Primitives, s: seq<BlockValue>, n: nat)
    requires 2 <= |s| && s[1].previousHash == s[0].hash
    ensures AllTrue(Validity(p, RelinkedFrom(p, s[1 := WithNonce(p, s[1], n)], 2)))
  {
    var m := s[1 := WithNonce(p, s[1], n)];
    RelinkedFromSpec(p, m, 2);
  }

  /** Mining block 1 of a settled chain keeps it settled, both before and
      after blocks 2.. are re-linked. */
  lemma MinedSettles(p: Primitives, s: seq<BlockValue>, n: nat)
    requires Settled(p, s)
    ensures Settled(p, s[1 := WithNonce(p, s[1], n)])
    ensures Settled(p, RelinkedFrom(p, s[1 := WithNonce(p, s[1], n)], 2))
  {
    var m := s[1 := WithNonce(p, s[1], n)];
    RelinkedFromSpec(p, m, 2);
    assert RelinkedFrom(p, m, 2)[0] == m[0] && RelinkedFrom(p, m, 2)[1] == m[1];
    assert LinkOk(p, RelinkedFrom(p, m, 2), 2);
  }

  class Block {
    var index: nat
    var timestamp: string
    var data: Json
    var previousHash: string
    var nonce: nat
    var hash: Hex

    function Value(): BlockValue
      reads this
    {
      BlockValue(index, timestamp, data, previousHash, nonce, hash)
    }

    /** `calculateHash()`: the digest of the block's current fields. */
    function CalculateHash(p: Primitives): (h: Hex)
      reads this
      ensures h == Digest(p, Value())
    {
      p.sha256(Preimage(p, index, timestamp, data, previousHash, nonce))
    }

    constructor (p: Primitives, index: nat, timestamp: string, data: Json, previousHash: string)
      ensures Value() == NewBlock(p, index, timestamp, data, previousHash)
    {
      this.index := index;
      this.timestamp := timestamp;
      this.data := data;
      this.previousHash := previousHash;
      this.nonce := 0;
      this.hash := p.sha256(Preimage(p, index, timestamp, data, previousHash, 0));
    }

    /** One mining attempt: bump the nonce, re-hash, test against the target. */
    method MineBlockStep(p: Primitives, difficulty: nat) returns (found: bool)
      modifies this
      ensures Value() == WithNonce(p, old(Value()), old(nonce) + 1)
      ensures found <==> StartsWith(hash, Target(difficulty))
    {
      var target := Target(difficulty);
      nonce := nonce + 1;
      hash := CalculateHash(p);
      found := StartsWith(hash, target);
    }
  }

  /** The field values of the blocks of a chain. */
  function Values(chain: seq<Block>): (s: seq<BlockValue>)
    reads chain
    ensures |s| == |chain|
    ensures forall i :: 0 <= i < |chain| ==> s[i] == chain[i].Value()
  {
    seq(|chain|, i requires 0 <= i < |chain| reads chain => chain[i].Value())
  }

  predicate Distinct(chain: seq<Block>)
  {
    forall i, j :: 0 <= i < j < |chain| ==> chain[i] != chain[j]
  }

  /** `validateChainDetailed`: one flag per block; block 0 is always valid;
      block i is valid iff its stored hash matches a fresh calculation and its
      previousHash equals block i-1's hash. */
  method ValidateChainDetailed(p: Primitives, chain: seq<Block>) returns (validity: seq<bool>)
    ensures |validity| == |chain|
    ensures 0 < |chain| ==> validity[0]
    ensures forall i :: 1 <= i < |chain| ==>
              (validity[i] <==> chain[i].hash == chain[i].CalculateHash(p) && chain[i].previousHash == chain[i - 1].hash)
    ensures validity == Validity(p, Values(chain))
  {
    validity := seq(|chain|, _ => true);
    var i := 1;
    while i < |chain|
      invariant 1 <= i
      invariant |validity| == |chain|
      invariant forall k :: 0 <= k < |chain| ==> (validity[k] <==> k == 0 || i <= k || LinkOk(p, Values(chain), k))
    {
      if chain[i].hash != chain[i].CalculateHash(p) || chain[i].previousHash != chain[i - 1].hash {
        validity := validity[i := false];
      }
      i := i + 1;
    }
  }

  /** The body of the re-linking loops: point block i at block i-1's hash and
      re-hash it. */
  method LinkBlock(p: Primitives, chain: seq<Block>, i: nat)
    requires 1 <= i < |chain| && Distinct(chain)
    modifies chain[i]
    ensures Values(chain) == old(Values(chain))[i := LinkedTo(p, old(Values(chain))[i], old(Values(chain))[i - 1].hash)]
  {
    ghost var before := Values(chain);
    var b := chain[i];
    b.previousHash := chain[i - 1].hash;
    b.hash := b.CalculateHash(p);
    forall k | 0 <= k < |chain| && k != i
      ensures chain[k].Value() == before[k]
    {
      assert chain[k] != b;
    }
  }

  /** The re-linking loop shared by fixChain (from block 1) and the end of a
      successful mining run (from block 2). */
  method RelinkFrom(p: Primitives, chain: seq<Block>, start: nat)
    requires 1 <= start && Distinct(chain)
    modifies chain
    ensures Values(chain) == RelinkedFrom(p, old(Values(chain)), start)
  {
    var i := start;
    while i < |chain|
      invariant start <= i
      invariant RelinkedFrom(p, Values(chain), i) == RelinkedFrom(p, old(Values(chain)), start)
    {
      ghost var before := Values(chain);
      LinkBlock(p, chain, i);
      RelinkStep(p, before, i);
      i := i + 1;
    }
    RelinkDone(p, Values(chain), i);
  }

  /** One turn of the re-linking loop. */
  lemma RelinkStep(p: Primitives, s: seq<BlockValue>, i: nat)
    requires 1 <= i < |s|
    ensures RelinkedFrom(p, s, i) == RelinkedFrom(p, s[i := LinkedTo(p, s[i], s[i - 1].hash)], i + 1)
  {
  }

  /** Past the end the re-linking loop changes nothing. */
  lemma RelinkDone(p: Primitives, s: seq<BlockValue>, i: nat)
    requires 1 <= i && |s| <= i
    ensures RelinkedFrom(p, s, i) == s
  {
  }

  /** The initial chain of the component: three new blocks, then block 1 and
      block 2 pointed at their predecessor and re-hashed. */
  method BuildInitialChain(p: Primitives, t0: string, t1: string, t2: string) returns (chain: seq<Block>)
    ensures |chain| == 3 && Distinct(chain)
    ensures fresh(chain[0]) && fresh(chain[1]) && fresh(chain[2])
    ensures Values(chain) == InitialValues(p, t0, t1, t2)
  {
    var b0 := new Block(p, 0, t0, JString("Genesis Block"), "0");
    var b1 := new Block(p, 1, t1, Amount(0), "");
    var b2 := new Block(p, 2, t2, Amount(50), "");
    ghost var s := [NewBlock(p, 0, t0, JString("Genesis Block"), "0"),
                    NewBlock(p, 1, t1, Amount(0), ""),
                    NewBlock(p, 2, t2, Amount(50), "")];
    chain := [b0, b1, b2];
    assert Values(chain) == s;
    LinkBlock(p, chain, 1);
    LinkBlock(p, chain, 2);
    assert chain[0] == b0 && chain[1] == b1 && chain[2] == b2;
    RelinkThree(p, s);
  }

  /** Re-linking a three-block chain from block 1 links block 1 to block 0,
      then block 2 to the new block 1. */
  lemma RelinkThree(p: Primitives, s: seq<BlockValue>)
    requires |s| == 3
    ensures var s1 := s[1 := LinkedTo(p, s[1], s[0].hash)];
            RelinkedFrom(p, s, 1) == s1[2 := LinkedTo(p, s1[2], s1[1].hash)]
  {
    var s1 := s[1 := LinkedTo(p, s[1], s[0].hash)];
    var s2 := s1[2 := LinkedTo(p, s1[2], s1[1].hash)];
    assert RelinkedFrom(p, s, 1) == RelinkedFrom(p, s1, 2);
    assert RelinkedFrom(p, s1, 2) == RelinkedFrom(p, s2, 3);
  }

  /** The component's state: the chain (React state `chain`), the difficulty,
      the JSON-error and mining flags, and the `target`/`attempts` variables the
      mining closure captures. */
  class Simulation {
    const p: Primitives
    var chain: seq<Block>
    var difficulty: nat
    var jsonError: bool
    var isMining: bool
    var target: string
    var attempts: nat

    /** Between operations every block is sealed, block 1 points at block 0,
        and while mining the attempt count equals block 1's nonce. */
    ghost predicate Valid()
      reads this, chain
    {
      && |chain| == 3
      && Distinct(chain)
      && Settled(p, Values(chain))
      && (isMining ==> attempts == chain[1].nonce)
    }

    constructor (p: Primitives, t0: string, t1: string, t2: string)
      ensures Valid()
      ensures this.p == p && Values(chain) == InitialValues(p, t0, t1, t2)
      ensures fresh(chain[0]) && fresh(chain[1]) && fresh(chain[2])
      ensures difficulty == 4 && !jsonError && !isMining
    {
      var built := BuildInitialChain(p, t0, t1, t2);
      assert Settled(p, Values(built)) by {
        InitialChainValid(p, t0, t1, t2);
      }
      this.p := p;
      chain := built;
      difficulty := 4;
      jsonError := false;
      isMining := false;
      target := "";
      attempts := 0;
    }

    /** `onDataChange`: parse the text; unless that gives null, store it as
        block 1's data and re-hash block 1. */
    method OnDataChange(text: string)
      requires Valid()
      modifies this`jsonError, chain[1]
      ensures Valid()
      ensures jsonError == p.parse(text).None?
      ensures SafeParse(p, text) == JNull ==> Values(chain) == old(Values(chain))
      ensures SafeParse(p, text) != JNull ==>
                Values(chain) == old(Values(chain))[1 := WithData(p, old(Values(chain))[1], SafeParse(p, text))]
    {
      jsonError := p.parse(text).None?;
      var parsed := SafeParse(p, text);
      if parsed != JNull {
        var b := chain[1];
        b.data := parsed;
        b.hash := b.CalculateHash(p);
      }
    }

    /** `fixChain`: re-link every block after the genesis block. */
    method FixChain()
      requires Valid()
      modifies chain
      ensures Valid()
      ensures Values(chain) == RelinkedFrom(p, old(Values(chain)), 1)
    {
      RelinkFrom(p, chain, 1);
      RelinkedFromSpec(p, old(Values(chain)), 1);
      RelinkSettles(p, old(Values(chain)));
    }

    /** `resetChain`: install a freshly built initial chain and clear the JSON
        error. The button is disabled while mining. */
    method ResetChain(t0: string, t1: string, t2: string)
      requires Valid() && !isMining
      modifies this`chain, this`jsonError
      ensures Valid()
      ensures Values(chain) == InitialValues(p, t0, t1, t2)
      ensures fresh(chain[0]) && fresh(chain[1]) && fresh(chain[2])
      ensures !jsonError && !isMining && difficulty == old(difficulty)
      ensures target == old(target) && attempts == old(attempts)
    {
      var built := BuildInitialChain(p, t0, t1, t2);
      assert Settled(p, Values(built)) by {
        InitialChainValid(p, t0, t1, t2);
      }
      chain := built;
      jsonError := false;
    }

    /** The difficulty input (disabled while mining). */
    method SetDifficulty(d: nat)
      requires Valid()
      modifies this`difficulty
      ensures Valid() && difficulty == d
    {
      difficulty := d;
    }

    /** `stopMining`: cancelling means the caller stops invoking MineStep. */
    method StopMining()
      requires Valid()
      modifies this`isMining
      ensures Valid() && !isMining
    {
      isMining := false;
    }

    /** `mineBlock1`: unless a search is running or the JSON is invalid, reset
        block 1's nonce to 0, re-hash it, and start a search for the target of
        the current difficulty. */
    method MineBlock1() returns (started: bool)
      requires Valid()
      modifies this`isMining, this`target, this`attempts, chain[1]
      ensures Valid()
      ensures started <==> !old(isMining) && !old(jsonError)
      ensures !started ==> Values(chain) == old(Values(chain)) && isMining == old(isMining)
                           && target == old(target) && attempts == old(attempts)
      ensures started ==> isMining && target == Target(difficulty) && attempts == 0
                          && Values(chain) == old(Values(chain))[1 := WithNonce(p, old(Values(chain))[1], 0)]
    {
      if isMining || jsonError {
        return false;
      }
      isMining := true;
      var b := chain[1];
      b.nonce := 0;
      b.hash := b.CalculateHash(p);
      target := Target(difficulty);
      attempts := 0;
      started := true;
    }

    /** The inner loop of `mineStep`: bump block 1's nonce and re-hash it,
        counting attempts, until its hash starts with the target or 1000
        attempts have been made. */
    method SearchBlock1() returns (steps: nat)
      requires |chain| == 3 && Distinct(chain) && Sealed(p, chain[1].Value())
      modifies this`attempts, chain[1]
      ensures steps <= 1000 && attempts == old(attempts) + steps
      ensures Values(chain) == old(Values(chain))[1 := WithNonce(p, old(Values(chain))[1], old(chain[1].nonce) + steps)]
      ensures steps < 1000 ==> StartsWith(chain[1].hash, target)
      ensures forall n :: old(chain[1].nonce) <= n < old(chain[1].nonce) + steps ==>
                !StartsWith(HashAt(p, old(chain[1].Value()), n), target)
    {
      var b := chain[1];
      ghost var s0 := Values(chain);
      ghost var v0 := b.Value();
      steps := 0;
      while steps < 1000 && !StartsWith(b.hash, target)
        invariant steps <= 1000 && attempts == old(attempts) + steps
        invariant b.Value() == WithNonce(p, v0, v0.nonce + steps)
        invariant forall n :: v0.nonce <= n < v0.nonce + steps ==> !StartsWith(HashAt(p, v0, n), target)
      {
        b.nonce := b.nonce + 1;
        b.hash := b.CalculateHash(p);
        attempts := attempts + 1;
        steps := steps + 1;
      }
      forall k | 0 <= k < 3 && k != 1
        ensures chain[k].Value() == s0[k]
      {
        assert chain[k] != b;
      }
    }

    /** The success branch of `mineStep`: re-link blocks 2.. and end the
        search. */
    method FinishMining()
      requires |chain| == 3 && Distinct(chain)
      modifies this`isMining, chain
      ensures Values(chain) == RelinkedFrom(p, old(Values(chain)), 2) && !isMining
    {
      RelinkFrom(p, chain, 2);
      isMining := false;
    }

    /** `mineStep`: at most 1000 attempts on block 1, stopping as soon as its
        hash starts with the target; on success, re-link blocks 2.. and end the
        search. */
    method MineStep() returns (done: bool)
      requires Valid() && isMining
      modifies this`isMining, this`attempts, chain
      ensures Valid()
      ensures attempts - old(attempts) == chain[1].nonce - old(chain[1].nonce)
      ensures done <==> StartsWith(chain[1].hash, target)
      ensures done <==> !isMining
      ensures old(chain[1].nonce) <= chain[1].nonce <= old(chain[1].nonce) + 1000
      ensures !done ==> chain[1].nonce == old(chain[1].nonce) + 1000
      ensures forall n :: old(chain[1].nonce) <= n < chain[1].nonce ==>
                !StartsWith(HashAt(p, old(chain[1].Value()), n), target)
      ensures var mined := old(Values(chain))[1 := WithNonce(p, old(Values(chain))[1], chain[1].nonce)];
              Values(chain) == if done then RelinkedFrom(p, mined, 2) else mined
    {
      ghost var s0 := Values(chain);
      ghost var n0 := chain[1].nonce;
      assert s0[1] == chain[1].Value();
      var steps := SearchBlock1();
      ghost var mined := Values(chain);
      ghost var v1 := mined[1];
      assert v1.nonce == n0 + steps;
      assert Settled(p, mined) && Settled(p, RelinkedFrom(p, mined, 2)) by {
        MinedSettles(p, s0, n0 + steps);
      }
      assert RelinkedFrom(p, mined, 2)[1] == v1 by {
        RelinkedFromSpec(p, mined, 2);
      }
      done := StartsWith(chain[1].hash, target);
      if done {
        FinishMining();
      }
      assert chain[1].Value() == Values(chain)[1] == v1;
      assert chain[1].nonce == n0 + steps && chain[1].hash == v1.hash;
    }
  }
}
