/** The one-shot proof-of-work demo: a second Block class whose digest covers
    index, previous hash, timestamp, serialised data and nonce (a different
    order from the editable chain's blocks), an exhaustive nonce search, and
    the button handler that mines a fresh block at difficulty 4. */
module MiningSimulation {
  import opened Runtime
  import BlockSimulation

  /** The string this component's `calculateHash` digests: index, previous
      hash, timestamp, serialised data, nonce. */
  function Preimage(p: Primitives, index: nat, previousHash: string, timestamp: string, data: Json, nonce: nat): string
  {
    Decimal(index) + previousHash + timestamp + p.stringify(data) + Decimal(nonce)
  }

  /** Every nonce presents SHA-256 with its own string. */
  lemma PreimageDeterminesNonce(p: Primitives, index: nat, previousHash: string, timestamp: string, data: Json, n1: nat, n2: nat)
    ensures Preimage(p, index, previousHash, timestamp, data, n1) == Preimage(p, index, previousHash, timestamp, data, n2)
            <==> n1 == n2
  {
    var fixed := Decimal(index) + previousHash + timestamp + p.stringify(data);
    if Preimage(p, index, previousHash, timestamp, data, n1) == Preimage(p, index, previousHash, timestamp, data, n2) {
      assert Decimal(n1) == Preimage(p, index, previousHash, timestamp, data, n1)[|fixed|..];
      assert Decimal(n2) == Preimage(p, index, previousHash, timestamp, data, n2)[|fixed|..];
      DecimalInjective(n1, n2);
    }
  }

  /** The two Block classes digest different strings for the same fields
      whenever timestamp and previous hash start with different characters:
      right after the index, one string continues with the timestamp and the
      other with the previous hash. */
  lemma FieldOrdersDiffer(p: Primitives, index: nat, timestamp: string, data: Json, previousHash: string, nonce: nat)
    requires 0 < |timestamp| && 0 < |previousHash| && timestamp[0] != previousHash[0]
    ensures BlockSimulation.Preimage(p, index, timestamp, data, previousHash, nonce)
            != Preimage(p, index, previousHash, timestamp, data, nonce)
  {
    var k := |Decimal(index)|;
    assert BlockSimulation.Preimage(p, index, timestamp, data, previousHash, nonce)[k] == timestamp[0];
    assert Preimage(p, index, previousHash, timestamp, data, nonce)[k] == previousHash[0];
  }

  /** The loop test of `mineBlock`, `hash.substring(0, difficulty) === target`,
      is the `startsWith(target)` test of the other component. */
  predicate Mined(hash: string, difficulty: nat): (b: bool)
    ensures b <==> StartsWith(hash, Target(difficulty))
  {
    SubstringTestIffStartsWith(hash, difficulty);
    Substring(hash, 0, difficulty) == Target(difficulty)
  }

  class Block {
    var index: nat
    var timestamp: string
    var data: Json
    var previousHash: string
    var nonce: nat
    var hash: Hex

    /** The digest this block would have with nonce n. */
    function HashAt(p: Primitives, n: nat): Hex
      reads this`index, this`previousHash, this`timestamp, this`data
    {
      p.sha256(Preimage(p, index, previousHash, timestamp, data, n))
    }

    /** `calculateHash()`: the digest of the block's current fields. */
    function CalculateHash(p: Primitives): (h: Hex)
      reads this
      ensures h == HashAt(p, nonce)
    {
      p.sha256(Preimage(p, index, previousHash, timestamp, data, nonce))
    }

    constructor (p: Primitives, index: nat, timestamp: string, data: Json, previousHash: string)
      ensures this.index == index && this.timestamp == timestamp
      ensures this.data == data && this.previousHash == previousHash
      ensures nonce == 0 && hash == CalculateHash(p)
    {
      this.index := index;
      this.timestamp := timestamp;
      this.data := data;
      this.previousHash := previousHash;
      this.nonce := 0;
      this.hash := p.sha256(Preimage(p, index, previousHash, timestamp, data, 0));
    }

    /** `mineBlock(difficulty)`: while the hash misses the target, bump the
        nonce and re-hash, counting attempts. The source loop is unbounded;
        here it gives up after `fuel` attempts and reports `found == false`. */
    method MineBlock(p: Primitives, difficulty: nat, fuel: nat) returns (attempts: nat, found: bool)
      modifies this
      ensures index == old(index) && timestamp == old(timestamp)
      ensures data == old(data) && previousHash == old(previousHash)
      ensures nonce == old(nonce) + attempts && attempts <= fuel
      ensures attempts == 0 ==> hash == old(hash)
      ensures 0 < attempts ==> hash == CalculateHash(p)
      ensures found <==> Mined(hash, difficulty)
      ensures !found ==> attempts == fuel
      ensures Mined(old(hash), difficulty) ==> attempts == 0
      ensures 0 < attempts ==> !Mined(old(hash), difficulty)
      ensures forall n :: old(nonce) < n < nonce ==> !Mined(HashAt(p, n), difficulty)
    {
      var target := Target(difficulty);
      attempts := 0;
      while Substring(hash, 0, difficulty) != target && attempts < fuel
        invariant index == old(index) && timestamp == old(timestamp)
        invariant data == old(data) && previousHash == old(previousHash)
        invariant nonce == old(nonce) + attempts && attempts <= fuel
        invariant attempts == 0 ==> hash == old(hash)
        invariant 0 < attempts ==> hash == CalculateHash(p)
        invariant 0 < attempts ==> !Mined(old(hash), difficulty)
        invariant forall n :: old(nonce) < n < nonce ==> !Mined(HashAt(p, n), difficulty)
      {
        nonce := nonce + 1;
        hash := CalculateHash(p);
        attempts := attempts + 1;
      }
      found := Substring(hash, 0, difficulty) == target;
    }
  }

  /** What the demo shows after mining. */
  datatype MiningResult = MiningResult(hash: Hex, nonce: nat, attempts: nat, difficulty: nat)

  /** The digest of the demo block (index 1, previous hash "0", data
      `{ amount: 50 }`) with nonce n. */
  function DemoHash(p: Primitives, timestamp: string, n: nat): Hex
  {
    p.sha256(Preimage(p, 1, "0", timestamp, Amount(50), n))
  }

  /** `handleMine`: mine a fresh block at difficulty 4. Its hash starts with
      "0000", it is the first nonce from 0 whose hash does, and since the block
      starts at nonce 0 the attempt count equals the nonce found. With `fuel`
      exhausted the result is None and no nonce up to `fuel` qualifies. */
  method HandleMine(p: Primitives, timestamp: string, fuel: nat) returns (result: Option<MiningResult>)
    ensures result.Some? ==> result.value.difficulty == 4 && result.value.attempts == result.value.nonce
    ensures result.Some? ==> result.value.hash == DemoHash(p, timestamp, result.value.nonce)
    ensures result.Some? ==> StartsWith(result.value.hash, "0000")
    ensures result.Some? ==> forall n :: 0 <= n < result.value.nonce ==> !StartsWith(DemoHash(p, timestamp, n), "0000")
    ensures result.None? ==> forall n :: 0 <= n <= fuel ==> !StartsWith(DemoHash(p, timestamp, n), "0000")
  {
    var block := new Block(p, 1, timestamp, Amount(50), "0");
    var difficulty := 4;
    var attempts, found := block.MineBlock(p, difficulty, fuel);
    assert Target(4) == "0000";
    assert forall n :: 0 < n <= block.nonce ==> block.HashAt(p, n) == DemoHash(p, timestamp, n);
    assert 0 < attempts ==> !Mined(DemoHash(p, timestamp, 0), 4);
    if found {
      result := Some(MiningResult(block.hash, block.nonce, attempts, difficulty));
    } else {
      result := None;
    }
  }
}
