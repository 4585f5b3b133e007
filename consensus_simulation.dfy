/** Leader selection under three consensus rules. Proof-of-work and
    proof-of-stake pick the validator with the largest power or stake (a
    `reduce` in which a later entry replaces the running maximum only when
    strictly larger); delegated proof-of-stake pushes each delegate into a
    pool once per vote and picks the pool entry at a random index. The random
    numbers are parameters in [0, 1). */
module ConsensusSimulation {
  import opened Runtime

  datatype PowValidator = PowValidator(id: string, power: int)
  datatype PosValidator = PosValidator(id: string, stake: int)
  datatype Delegate = Delegate(name: string, votes: int)

  /** `Math.floor(r * 100) + 1`. */
  function RandomPower(r: real): (power: int)
    requires 0.0 <= r < 1.0
    ensures 1 <= power <= 100
  {
    (r * 100.0).Floor + 1
  }

  /** `Math.floor(r * 1000) + 100`. */
  function RandomStake(r: real): (stake: int)
    requires 0.0 <= r < 1.0
    ensures 100 <= stake <= 1099
  {
    (r * 1000.0).Floor + 100
  }

  /** The proof-of-work roster built on each render. */
  function PowRoster(ra: real, rb: real, rc: real): (roster: seq<PowValidator>)
    requires 0.0 <= ra < 1.0 && 0.0 <= rb < 1.0 && 0.0 <= rc < 1.0
    ensures |roster| == 3
    ensures forall i :: 0 <= i < 3 ==> 1 <= roster[i].power <= 100
  {
    [PowValidator("MinerA", RandomPower(ra)),
     PowValidator("MinerB", RandomPower(rb)),
     PowValidator("MinerC", RandomPower(rc))]
  }

  /** The proof-of-stake roster built on each render. */
  function PosRoster(ra: real, rb: real, rc: real): (roster: seq<PosValidator>)
    requires 0.0 <= ra < 1.0 && 0.0 <= rb < 1.0 && 0.0 <= rc < 1.0
    ensures |roster| == 3
    ensures forall i :: 0 <= i < 3 ==> 100 <= roster[i].stake <= 1099
  {
    [PosValidator("StakerA", RandomStake(ra)),
     PosValidator("StakerB", RandomStake(rb)),
     PosValidator("StakerC", RandomStake(rc))]
  }

  /** The fixed vote table, in the order Object.entries lists it. */
  const DposVotes: seq<Delegate> :=
    [Delegate("DelegateA", 15), Delegate("DelegateB", 30), Delegate("DelegateC", 25)]

  /** The rest of `reduce((max, v) => key(v) > key(max) ? v : max)` once the
      running maximum is `acc` and `rest` is still to be visited. */
  function Reduce<T>(acc: T, rest: seq<T>, key: T -> int): (r: T)
    ensures r == acc || r in rest
    ensures key(acc) <= key(r) && forall x :: x in rest ==> key(x) <= key(r)
    decreases |rest|
  {
    if rest == [] then acc
    else Reduce(if key(rest[0]) > key(acc) then rest[0] else acc, rest[1..], key)
  }

  /** Entry k has the largest key and every earlier entry a strictly smaller one. */
  ghost predicate IsFirstMax<T>(xs: seq<T>, key: T -> int, k: int)
  {
    && 0 <= k < |xs|
    && (forall j :: 0 <= j < |xs| ==> key(xs[j]) <= key(xs[k]))
    && (forall j :: 0 <= j < k ==> key(xs[j]) < key(xs[k]))
  }

  /** Visiting one more entry keeps the running maximum the first maximum of
      the visited prefix. */
  lemma ExtendFirstMax<T>(xs: seq<T>, key: T -> int, i: nat, k: nat)
    requires k < i < |xs| && IsFirstMax(xs[..i], key, k)
    ensures IsFirstMax(xs[..i + 1], key, if key(xs[i]) > key(xs[k]) then i else k)
  {
    assert forall j :: 0 <= j < i ==> xs[..i + 1][j] == xs[..i][j];
  }

  /** If the running maximum is the first maximum of the visited prefix, the
      reduction ends on the first maximum of the whole sequence. */
  lemma {:induction false} ReduceFindsFirstMax<T>(xs: seq<T>, key: T -> int, i: nat, k: nat)
    requires k < i <= |xs| && IsFirstMax(xs[..i], key, k)
    ensures exists m :: IsFirstMax(xs, key, m) && Reduce(xs[k], xs[i..], key) == xs[m]
    decreases |xs| - i
  {
    if i == |xs| {
      assert xs[..i] == xs;
      assert Reduce(xs[k], xs[i..], key) == xs[k];
    } else {
      var k' := if key(xs[i]) > key(xs[k]) then i else k;
      ExtendFirstMax(xs, key, i, k);
      assert xs[i..][1..] == xs[i + 1..];
      assert Reduce(xs[k], xs[i..], key) == Reduce(xs[k'], xs[i + 1..], key);
      ReduceFindsFirstMax(xs, key, i + 1, k');
    }
  }

  /** `reduce` without an initial value: the first entry whose key is maximal. */
  function MaxBy<T>(xs: seq<T>, key: T -> int): (w: T)
    requires 0 < |xs|
    ensures exists k :: IsFirstMax(xs, key, k) && w == xs[k]
  {
    assert IsFirstMax(xs[..1], key, 0);
    ReduceFindsFirstMax(xs, key, 1, 0);
    Reduce(xs[0], xs[1..], key)
  }

  /** `selectPoW`: a roster member with the largest power; ties go to the
      earliest entry. */
  function SelectPoW(roster: seq<PowValidator>): (winner: PowValidator)
    requires 0 < |roster|
    ensures exists k :: 0 <= k < |roster| && roster[k] == winner
              && (forall j :: 0 <= j < |roster| ==> roster[j].power <= winner.power)
              && (forall j :: 0 <= j < k ==> roster[j].power < winner.power)
  {
    MaxBy(roster, (v: PowValidator) => v.power)
  }

  /** `selectPoS`: a roster member with the largest stake; ties go to the
      earliest entry. */
  function SelectPoS(roster: seq<PosValidator>): (winner: PosValidator)
    requires 0 < |roster|
    ensures exists k :: 0 <= k < |roster| && roster[k] == winner
              && (forall j :: 0 <= j < |roster| ==> roster[j].stake <= winner.stake)
              && (forall j :: 0 <= j < k ==> roster[j].stake < winner.stake)
  {
    MaxBy(roster, (v: PosValidator) => v.stake)
  }

  /** How many times `for (let i = 0; i < votes; i++)` runs. */
  function Count(votes: int): nat
  {
    if 0 < votes then votes else 0
  }

  function TotalVotes(table: seq<Delegate>): nat
  {
    if table == [] then 0 else TotalVotes(table[..|table| - 1]) + Count(table[|table| - 1].votes)
  }

  /** The pool `selectDPoS` builds: each delegate's name `votes` times, in
      table order. */
  function Pool(table: seq<Delegate>): seq<string>
  {
    if table == [] then []
    else Pool(table[..|table| - 1]) + seq(Count(table[|table| - 1].votes), _ => table[|table| - 1].name)
  }

  /** The pool has one entry per (positive) vote. */
  lemma {:induction false} PoolLength(table: seq<Delegate>)
    ensures |Pool(table)| == TotalVotes(table)
    decreases |table|
  {
    if table != [] {
      PoolLength(table[..|table| - 1]);
    }
  }

  /** Delegate j occupies the `votes` consecutive pool slots that start after
      the votes of the delegates before it. */
  lemma {:induction false} PoolGrouped(table: seq<Delegate>, j: nat, k: nat)
    requires j < |table| && k < Count(table[j].votes)
    ensures TotalVotes(table[..j]) + k < |Pool(table)|
    ensures Pool(table)[TotalVotes(table[..j]) + k] == table[j].name
    decreases |table|
  {
    var n := |table| - 1;
    var init := table[..n];
    PoolLength(init);
    PoolLength(table);
    if j == n {
      assert table[..j] == init;
    } else {
      assert init[..j] == table[..j];
      PoolGrouped(init, j, k);
    }
  }

  /** Every pool slot belongs to a delegate with positive votes, within that
      delegate's group. */
  lemma {:induction false} PoolOwner(table: seq<Delegate>, x: nat)
    requires x < |Pool(table)|
    ensures exists j :: 0 <= j < |table| && 0 < table[j].votes && Pool(table)[x] == table[j].name
              && TotalVotes(table[..j]) <= x < TotalVotes(table[..j]) + table[j].votes
    decreases |table|
  {
    var n := |table| - 1;
    var init := table[..n];
    PoolLength(init);
    assert table[..n] == init;
    if x < |Pool(init)| {
      PoolOwner(init, x);
      var j :| 0 <= j < |init| && 0 < init[j].votes && Pool(init)[x] == init[j].name
               && TotalVotes(init[..j]) <= x < TotalVotes(init[..j]) + init[j].votes;
      assert init[..j] == table[..j];
    }
  }

  predicate DistinctNames(table: seq<Delegate>)
  {
    forall i, j :: 0 <= i < j < |table| ==> table[i].name != table[j].name
  }

  /** A name other than every delegate's never enters the pool. */
  lemma {:induction false} PoolCountAbsent(table: seq<Delegate>, name: string)
    requires forall i :: 0 <= i < |table| ==> table[i].name != name
    ensures multiset(Pool(table))[name] == 0
    decreases |table|
  {
    if table != [] {
      var n := |table| - 1;
      PoolCountAbsent(table[..n], name);
      var group := seq(Count(table[n].votes), _ => table[n].name);
      assert multiset(Pool(table)) == multiset(Pool(table[..n])) + multiset(group);
      assert name !in group;
    }
  }

  /** n copies of a name put that name n times into a multiset. */
  lemma {:induction false} RepeatCount(name: string, n: nat)
    ensures multiset(seq(n, _ => name))[name] == n
    decreases n
  {
    if n > 0 {
      RepeatCount(name, n - 1);
      assert seq(n, _ => name) == seq(n - 1, _ => name) + [name];
    }
  }

  /** With distinct names each delegate appears in the pool exactly as many
      times as it has (positive) votes. */
  lemma {:induction false} PoolMultiplicity(table: seq<Delegate>, j: nat)
    requires DistinctNames(table) && j < |table|
    ensures multiset(Pool(table))[table[j].name] == Count(table[j].votes)
    decreases |table|
  {
    var n := |table| - 1;
    var init := table[..n];
    var group := seq(Count(table[n].votes), _ => table[n].name);
    assert multiset(Pool(table)) == multiset(Pool(init)) + multiset(group);
    if j == n {
      PoolCountAbsent(init, table[j].name);
      RepeatCount(table[n].name, Count(table[n].votes));
    } else {
      PoolMultiplicity(init, j);
      assert table[j].name !in group;
    }
  }

  /** `Object.entries(dposVotes).forEach(...)` with the inner `for` loop
      calling `push`. */
  method BuildPool(table: seq<Delegate>) returns (pool: seq<string>)
    ensures pool == Pool(table)
    ensures |pool| == TotalVotes(table)
  {
    pool := [];
    var e := 0;
    while e < |table|
      invariant e <= |table|
      invariant pool == Pool(table[..e])
    {
      var d := table[e];
      var i := 0;
      while i < d.votes
        invariant 0 <= i <= Count(d.votes)
        invariant pool == Pool(table[..e]) + seq(i, _ => d.name)
      {
        pool := pool + [d.name];
        i := i + 1;
      }
      assert table[..e + 1][..e] == table[..e];
      e := e + 1;
    }
    assert table[..|table|] == table;
    PoolLength(table);
  }

  /** `dposVotes[name]`: the votes recorded under a name, if any. */
  function VotesOf(table: seq<Delegate>, name: string): (r: Option<int>)
    ensures r.None? <==> forall j :: 0 <= j < |table| ==> table[j].name != name
    ensures r.Some? ==> exists j :: 0 <= j < |table| && table[j] == Delegate(name, r.value)
  {
    if table == [] then None
    else if table[0].name == name then Some(table[0].votes)
    else VotesOf(table[1..], name)
  }

  /** With distinct names, looking up delegate j's name finds delegate j's votes. */
  lemma {:induction false} VotesOfFinds(table: seq<Delegate>, j: nat)
    requires DistinctNames(table) && j < |table|
    ensures VotesOf(table, table[j].name) == Some(table[j].votes)
    decreases |table|
  {
    if j > 0 {
      assert table[1..][j - 1] == table[j];
      VotesOfFinds(table[1..], j - 1);
    }
  }

  /** `Math.floor(r * length)`. */
  function PoolIndex(r: real, length: nat): (i: int)
    requires 0.0 <= r < 1.0
    ensures 0 < length ==> 0 <= i < length
  {
    var l := length as real;
    assert r * l <= 1.0 * l - (1.0 - r) * l;
    assert 0 < length ==> 0.0 < (1.0 - r) * l;
    (r * l).Floor
  }

  /** The name in any pool slot is a delegate with positive votes, and looking
      it up in the table gives that delegate's votes. */
  lemma WinnerIsDelegate(table: seq<Delegate>, x: nat)
    requires DistinctNames(table) && x < |Pool(table)|
    ensures VotesOf(table, Pool(table)[x]).Some?
    ensures exists j :: 0 <= j < |table| && 0 < table[j].votes
              && table[j] == Delegate(Pool(table)[x], VotesOf(table, Pool(table)[x]).value)
  {
    PoolOwner(table, x);
    var j :| 0 <= j < |table| && 0 < table[j].votes && Pool(table)[x] == table[j].name
             && TotalVotes(table[..j]) <= x < TotalVotes(table[..j]) + table[j].votes;
    VotesOfFinds(table, j);
  }

  datatype DposPick = DposPick(winner: string, votes: int)

  /** `selectDPoS`: build the pool, take the entry at `Math.floor(r * length)`
      and report its votes. An empty pool gives `undefined` in the source
      (no winner here). */
  method SelectDPoS(table: seq<Delegate>, r: real) returns (pick: Option<DposPick>)
    requires 0.0 <= r < 1.0
    requires DistinctNames(table)
    ensures pick.None? <==> TotalVotes(table) == 0
    ensures pick.Some? ==> 0 < |Pool(table)| && pick.value.winner == Pool(table)[PoolIndex(r, |Pool(table)|)]
    ensures pick.Some? ==> VotesOf(table, pick.value.winner) == Some(pick.value.votes)
    ensures pick.Some? ==> exists j :: 0 <= j < |table| && table[j] == Delegate(pick.value.winner, pick.value.votes)
                                       && 0 < table[j].votes
  {
    var delegates := BuildPool(table);
    if |delegates| == 0 {
      return None;
    }
    var x := PoolIndex(r, |delegates|);
    var winner := delegates[x];
    WinnerIsDelegate(table, x);
    pick := Some(DposPick(winner, VotesOf(table, winner).value));
  }

  /** The fixed table has distinct names and 70 votes in all. */
  lemma FixedTable()
    ensures DistinctNames(DposVotes) && TotalVotes(DposVotes) == 70
  {
    assert DposVotes[..2][..1] == DposVotes[..1];
    assert DposVotes[..1][..0] == [];
    assert TotalVotes(DposVotes[..1]) == 15;
    assert TotalVotes(DposVotes[..2]) == 45;
  }

  /** One round's three winners. */
  datatype Round = Round(pow: PowValidator, pos: PosValidator, dpos: Option<DposPick>)

  /** `runSimulations` on rosters generated from the random values
      `powRandom`, `posRandom`, and the DPoS draw `r`. */
  method RunSimulations(powRandom: (real, real, real), posRandom: (real, real, real), r: real) returns (round: Round)
    requires 0.0 <= powRandom.0 < 1.0 && 0.0 <= powRandom.1 < 1.0 && 0.0 <= powRandom.2 < 1.0
    requires 0.0 <= posRandom.0 < 1.0 && 0.0 <= posRandom.1 < 1.0 && 0.0 <= posRandom.2 < 1.0
    requires 0.0 <= r < 1.0
    ensures round.pow == SelectPoW(PowRoster(powRandom.0, powRandom.1, powRandom.2))
    ensures round.pos == SelectPoS(PosRoster(posRandom.0, posRandom.1, posRandom.2))
    ensures 1 <= round.pow.power <= 100 && 100 <= round.pos.stake <= 1099
    ensures round.dpos.Some? && round.dpos.value.votes in {15, 30, 25}
    ensures |Pool(DposVotes)| == 70 && round.dpos.value.winner == Pool(DposVotes)[PoolIndex(r, 70)]
  {
    var powValidators := PowRoster(powRandom.0, powRandom.1, powRandom.2);
    var posValidators := PosRoster(posRandom.0, posRandom.1, posRandom.2);
    FixedTable();
    PoolLength(DposVotes);
    var dpos := SelectDPoS(DposVotes, r);
    round := Round(SelectPoW(powValidators), SelectPoS(posValidators), dpos);
  }
}
