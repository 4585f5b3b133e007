# blockchain-simulation in Dafny

This project models the algorithmic core of the three components of the
`blockchain-simulation` React application.

- **BlockSimulation** is an editable chain of three hash-linked blocks.
  - A `Block` class hashes index, timestamp, serialised data, previous hash and nonce, in that order.
  - `validateChainDetailed` returns one flag per block.
  - `fixChain` re-links blocks 1.. from left to right.
  - `onDataChange` edits block 1's data and re-hashes it.
  - `resetChain` installs a freshly built chain.
  - `mineBlock1`/`mineStep` is a resumable nonce search on block 1. Each step makes at most 1000 attempts, and a successful search re-links blocks 2...
- **MiningSimulation** is a one-shot proof-of-work demo.
  - Its second `Block` class hashes index, previous hash, timestamp, serialised data and nonce, in that order.
  - `mineBlock` runs an exhaustive nonce search.
  - `handleMine` mines a fresh block at difficulty 4.
- **ConsensusSimulation** holds the leader-selection rules.
  - Proof-of-work and proof-of-stake are a max-by-key `reduce` in which ties go to the earliest entry.
  - Delegated proof-of-stake builds a vote-weighted pool and picks the entry at a random index.

The files are:
- `runtime.dfy` (module `Runtime`) holds the library behaviour the components rely on:
  - SHA-256, `JSON.stringify` and `JSON.parse`, which are parameters bundled in `Primitives`;
  - number-to-string conversion inside `+`;
  - `startsWith` and `substring`;
  - the `Array(d + 1).join("0")` target idiom.
- `block_simulation.dfy`, `mining_simulation.dfy` and `consensus_simulation.dfy` hold one module per component.

Code that mutates objects in place is modelled imperatively.
- The chain is a `seq<Block>` of objects that methods update in place.
- The component's state (chain, difficulty, JSON-error flag, mining flag and the mining closure's `target`/`attempts`) is the class `Simulation`.
- Each mutating method's postcondition ties the new field values to a function on value snapshots (`BlockValue`): `RelinkedFrom`, `WithData`, `WithNonce`, `InitialValues`.
- The lemmas about those functions state what the component promises.

Behaviours of the code that the model keeps:
- `onDataChange` re-hashes block 1 (BlockSimulation.jsx line 92). After an edit, block 1 stays valid and only block 2's flag can turn false.
- `resetChain` installs the `initialChain` of the current render (lines 34-38 and 113). Its blocks carry new timestamps.
- `mineBlock` and `mineStep` test the target before the first increment. A hash that already qualifies costs 0 attempts and leaves the nonce unchanged.
- `selectDPoS` has no guard for an empty pool, where JavaScript yields `undefined`. The model returns `None`.
- The difficulty is not validated. The model takes it as a natural number.

## Model

| member | source | states |
|---|---|---|
| Runtime.DecimalInjective | blockchain-simulation/src/components/BlockSimulation.jsx:15-21 | distinct numbers concatenated into the digest string print as distinct text |
| Runtime.Decimal | blockchain-simulation/src/components/BlockSimulation.jsx:16-20 | the text a non-negative integer becomes inside `+` is never empty, and has at least two characters from 10 on |
| Runtime.DecimalDigits | blockchain-simulation/src/components/BlockSimulation.jsx:16-20 | that text is all decimal digits and starts with '0' only for zero |
| Runtime.ArrayJoin | blockchain-simulation/src/components/BlockSimulation.jsx:25 | `Array(holes).join(sep)` is `holes - 1` times as long as the separator (empty for at most one hole), and every character comes from the separator |
| Runtime.Target | blockchain-simulation/src/components/BlockSimulation.jsx:140 | the target `Array(d + 1).join("0")` is exactly d characters '0' |
| Runtime.StartsWith | blockchain-simulation/src/components/BlockSimulation.jsx:146 | `startsWith` holds iff the prefix fits and agrees with the string character by character |
| Runtime.Substring | blockchain-simulation/src/components/MiningSimulation.jsx:31 | `substring` returns the slice between the bounds in either order, clamped to the length |
| Runtime.MeetsTargetIffLeadingZeros | blockchain-simulation/src/components/BlockSimulation.jsx:28 | a hash starts with the target iff its first d characters are all '0' |
| Runtime.ZeroDifficultyAlwaysMeets | blockchain-simulation/src/components/BlockSimulation.jsx:140 | at difficulty 0 the target is empty and every hash meets it |
| Runtime.SubstringTestIffStartsWith | blockchain-simulation/src/components/MiningSimulation.jsx:31 | the `substring(0, d) === target` test agrees with the `startsWith(target)` test |
| Runtime.NoDigestMeetsAbove64 | blockchain-simulation/src/components/BlockSimulation.jsx:146 | above difficulty 64 no 64-digit digest meets the target, so the search cannot end |
| BlockSimulation.Preimage | blockchain-simulation/src/components/BlockSimulation.jsx:16-20 | definition: the digest input is index, timestamp, serialised data, previous hash and nonce, concatenated in that order; its properties are the next lemma and `MiningSimulation.FieldOrdersDiffer` |
| BlockSimulation.PreimageDeterminesNonce | blockchain-simulation/src/components/BlockSimulation.jsx:14-22 | for fixed other fields, two nonces give the same digest input iff they are equal |
| BlockSimulation.Digest | blockchain-simulation/src/components/BlockSimulation.jsx:14-22 | definition: `calculateHash` on a snapshot, SHA-256 of the preimage of the five fields; the stored hash plays no part |
| BlockSimulation.HashAt | blockchain-simulation/src/components/BlockSimulation.jsx:147-148 | definition: the digest block b gets once its nonce is set to n; the mining contracts quantify over it |
| BlockSimulation.NewBlock | blockchain-simulation/src/components/BlockSimulation.jsx:5-12 | a new block keeps the given fields, has nonce 0 and stores the digest of its fields |
| BlockSimulation.Rehashed | blockchain-simulation/src/components/BlockSimulation.jsx:92 | `hash = calculateHash()` seals the block and changes no other field |
| BlockSimulation.LinkOk | blockchain-simulation/src/components/BlockSimulation.jsx:73-74 | definition: block i passes the per-block test, its stored hash equals the digest of its fields and its previousHash equals block i-1's hash; `Validity` and `ValidateChainDetailed` state it per flag |
| BlockSimulation.Validity | blockchain-simulation/src/components/BlockSimulation.jsx:67-79 | one flag per block; flag 0 true; flag i true iff block i's hash is the digest of its fields and its previousHash is block i-1's hash, so it depends on blocks i-1 and i only |
| BlockSimulation.AllTrue | blockchain-simulation/src/components/BlockSimulation.jsx:83 | definition: `blockValidity.every(Boolean)`, every flag is true; `FixChainValidates`, `InitialChainValid` and `MinedChainValid` conclude it |
| BlockSimulation.LinkedTo | blockchain-simulation/src/components/BlockSimulation.jsx:103-104 | definition: one turn of the re-linking loops, previousHash set to the predecessor's hash and the block re-hashed; `Rehashed` states that the result is sealed and only previousHash and hash change |
| BlockSimulation.RelinkedFrom | blockchain-simulation/src/components/BlockSimulation.jsx:102-105 | definition: blocks `start`.. pointed at their predecessor's hash and re-hashed, left to right; `RelinkedFromSpec` states what that guarantees |
| BlockSimulation.RelinkedFromSpec | blockchain-simulation/src/components/BlockSimulation.jsx:101-105 | re-linking from `start` keeps length and the blocks before `start`, changes only previousHash/hash after it, and every block from `start` on passes validation |
| BlockSimulation.RelinkStep | blockchain-simulation/src/components/BlockSimulation.jsx:102-105 | one turn of the loop: re-linking from i is linking block i to block i-1, then re-linking from i+1 |
| BlockSimulation.RelinkDone | blockchain-simulation/src/components/BlockSimulation.jsx:102 | once the loop index reaches the chain length, re-linking changes nothing |
| BlockSimulation.RelinkThree | blockchain-simulation/src/components/BlockSimulation.jsx:40-43 | on three blocks, re-linking from block 1 is exactly the two straight-line steps: block 1 linked to block 0, then block 2 to the new block 1 |
| BlockSimulation.FixChainValidates | blockchain-simulation/src/components/BlockSimulation.jsx:100-105 | after fixChain every validity flag is true, whatever the chain held |
| BlockSimulation.RelinkSettles | blockchain-simulation/src/components/BlockSimulation.jsx:40-43 | re-linking a three-block chain with a sealed genesis block leaves every block sealed and block 1 linked to block 0 |
| BlockSimulation.InitialValues | blockchain-simulation/src/components/BlockSimulation.jsx:34-43 | definition: three new blocks (genesis "Genesis Block" with previous hash "0", then `{ amount: 0 }` and `{ amount: 50 }`), re-linked from block 1; `InitialChainValid` states what that guarantees |
| BlockSimulation.InitialChainValid | blockchain-simulation/src/components/BlockSimulation.jsx:34-43 | the initial chain validates `[true, true, true]`, keeps the genesis block as constructed, and all nonces are 0 |
| BlockSimulation.SettledChainValidity | blockchain-simulation/src/components/BlockSimulation.jsx:67-79 | in a settled chain the flags are `[true, true, block 2 points at block 1's hash]` |
| BlockSimulation.SafeParse | blockchain-simulation/src/components/BlockSimulation.jsx:56-64 | null exactly when parsing fails or yields null; otherwise the parsed value |
| BlockSimulation.WithData | blockchain-simulation/src/components/BlockSimulation.jsx:91-92 | block 1 after the edit holds the new data, is sealed, and differs from the old block in data and hash only |
| BlockSimulation.EditedChain | blockchain-simulation/src/components/BlockSimulation.jsx:90-92 | definition: the chain with block 1 replaced by `WithData` of the parsed value; `EditBlockOneValidity` states its flags |
| BlockSimulation.EditBlockOneValidity | blockchain-simulation/src/components/BlockSimulation.jsx:86-96 | editing block 1 of an all-valid chain leaves every flag but block 2's true; block 2's stays true iff block 1's hash is unchanged |
| BlockSimulation.WithNonce | blockchain-simulation/src/components/BlockSimulation.jsx:137-138 | a block given nonce n and re-hashed holds nonce n, is sealed, and differs from the old block in nonce and hash only |
| BlockSimulation.MinedChainValid | blockchain-simulation/src/components/BlockSimulation.jsx:160-165 | after block 1 is mined and blocks 2.. re-linked, every flag is true |
| BlockSimulation.MinedSettles | blockchain-simulation/src/components/BlockSimulation.jsx:144-170 | mining block 1 of a settled chain keeps it settled, before and after the re-link |
| BlockSimulation.Block.constructor | blockchain-simulation/src/components/BlockSimulation.jsx:5-12 | the object's fields equal `NewBlock` of the arguments |
| BlockSimulation.Block.CalculateHash | blockchain-simulation/src/components/BlockSimulation.jsx:14-22 | the SHA-256 of the object's fields, in source order, equals `Digest` of its snapshot |
| BlockSimulation.Block.MineBlockStep | blockchain-simulation/src/components/BlockSimulation.jsx:24-29 | nonce rises by exactly 1, the hash is recomputed, nothing else changes, and the result is true iff the new hash starts with the target |
| BlockSimulation.ValidateChainDetailed | blockchain-simulation/src/components/BlockSimulation.jsx:67-79 | one flag per block; flag 0 true; flag i true iff block i's hash matches its recomputation and its previousHash equals block i-1's hash |
| BlockSimulation.LinkBlock | blockchain-simulation/src/components/BlockSimulation.jsx:103-104 | only block i changes: it points at block i-1's hash and is re-hashed |
| BlockSimulation.RelinkFrom | blockchain-simulation/src/components/BlockSimulation.jsx:102-105 | the blocks end up holding `RelinkedFrom` of their old values |
| BlockSimulation.BuildInitialChain | blockchain-simulation/src/components/BlockSimulation.jsx:34-43 | three fresh, distinct blocks holding `InitialValues` |
| BlockSimulation.Simulation.constructor | blockchain-simulation/src/components/BlockSimulation.jsx:34-53 | the state starts with the initial chain made of three newly allocated blocks, difficulty 4, no JSON error, not mining |
| BlockSimulation.Simulation.OnDataChange | blockchain-simulation/src/components/BlockSimulation.jsx:86-96 | the error flag records a parse failure; a null parse leaves the chain alone, otherwise only block 1 changes, to `WithData` |
| BlockSimulation.Simulation.FixChain | blockchain-simulation/src/components/BlockSimulation.jsx:100-109 | the chain becomes `RelinkedFrom` from block 1 of its old values |
| BlockSimulation.Simulation.ResetChain | blockchain-simulation/src/components/BlockSimulation.jsx:112-118 | the chain is replaced by freshly built blocks holding `InitialValues` and the JSON error is cleared; difficulty, the mining flag, `target` and `attempts` keep their values |
| BlockSimulation.Simulation.SetDifficulty | blockchain-simulation/src/components/BlockSimulation.jsx:233 | sets the difficulty and keeps the state invariant |
| BlockSimulation.Simulation.StopMining | blockchain-simulation/src/components/BlockSimulation.jsx:121-128 | clears the mining flag |
| BlockSimulation.Simulation.MineBlock1 | blockchain-simulation/src/components/BlockSimulation.jsx:131-142 | starts iff not already mining and the JSON is valid; then block 1 has nonce 0 and is re-hashed, the target is `Target(difficulty)`, attempts are 0 |
| BlockSimulation.Simulation.SearchBlock1 | blockchain-simulation/src/components/BlockSimulation.jsx:146-151 | at most 1000 attempts, counted into attempts; only block 1 changes, to `WithNonce`; stopping early means the target was met; no skipped nonce met it |
| BlockSimulation.Simulation.FinishMining | blockchain-simulation/src/components/BlockSimulation.jsx:160-170 | blocks 2.. are re-linked and mining ends |
| BlockSimulation.Simulation.MineStep | blockchain-simulation/src/components/BlockSimulation.jsx:144-174 | attempts rise as much as block 1's nonce, by at most 1000 and by exactly 1000 on failure; done iff the hash meets the target, and then mining stops; no earlier nonce met it; the chain is block 1 mined, re-linked from block 2 on success |
| MiningSimulation.PreimageDeterminesNonce | blockchain-simulation/src/components/MiningSimulation.jsx:15-23 | for fixed other fields, two nonces give the same digest input iff they are equal |
| MiningSimulation.Preimage | blockchain-simulation/src/components/MiningSimulation.jsx:17-21 | definition: this component's digest input is index, previous hash, timestamp, serialised data and nonce, concatenated in that order |
| MiningSimulation.FieldOrdersDiffer | blockchain-simulation/src/components/MiningSimulation.jsx:15-23 | for every index, data and nonce, whenever timestamp and previous hash are non-empty and start with different characters, the two Block classes digest different strings |
| MiningSimulation.Mined | blockchain-simulation/src/components/MiningSimulation.jsx:31 | the loop test `hash.substring(0, d) === target` holds iff the hash starts with the target |
| MiningSimulation.Block.constructor | blockchain-simulation/src/components/MiningSimulation.jsx:6-13 | the fields are as given, nonce is 0, and the hash is the digest of the fields |
| MiningSimulation.Block.HashAt | blockchain-simulation/src/components/MiningSimulation.jsx:15-23 | definition: the digest the block would have with nonce n; the search contracts quantify over it |
| MiningSimulation.DemoHash | blockchain-simulation/src/components/MiningSimulation.jsx:48 | definition: the digest of the demo block (index 1, previous hash "0", data `{ amount: 50 }`) at nonce n, in this component's field order; `HandleMine` states which nonce the search finds against it |
| MiningSimulation.Block.CalculateHash | blockchain-simulation/src/components/MiningSimulation.jsx:15-23 | the SHA-256 of the object's fields, in this component's order, is `HashAt` of its current nonce |
| MiningSimulation.Block.MineBlock | blockchain-simulation/src/components/MiningSimulation.jsx:25-41 | only nonce and hash change; attempts equal the nonce increase; when found, the hash meets the target; an already-qualifying hash costs 0 attempts; no nonce passed over qualified |
| MiningSimulation.HandleMine | blockchain-simulation/src/components/MiningSimulation.jsx:47-67 | the demo block is mined at difficulty 4 with attempts equal to the nonce, its hash starts with "0000", and no smaller nonce's hash does |
| ConsensusSimulation.RandomPower | blockchain-simulation/src/components/ConsensusSimulation.jsx:7-9 | a generated power lies in 1..100 |
| ConsensusSimulation.RandomStake | blockchain-simulation/src/components/ConsensusSimulation.jsx:13-15 | a generated stake lies in 100..1099 |
| ConsensusSimulation.PowRoster | blockchain-simulation/src/components/ConsensusSimulation.jsx:6-10 | three miners, each with power in 1..100 |
| ConsensusSimulation.PosRoster | blockchain-simulation/src/components/ConsensusSimulation.jsx:12-16 | three stakers, each with stake in 100..1099 |
| ConsensusSimulation.Reduce | blockchain-simulation/src/components/ConsensusSimulation.jsx:28-30 | the strict-greater `reduce` returns the starting value or a visited entry, with a key at least the starting value's and every visited entry's |
| ConsensusSimulation.ReduceFindsFirstMax | blockchain-simulation/src/components/ConsensusSimulation.jsx:28-30 | the strict-greater `reduce` ends on the first entry with the largest key |
| ConsensusSimulation.MaxBy | blockchain-simulation/src/components/ConsensusSimulation.jsx:28-30 | `reduce` without an initial value returns the first maximal entry |
| ConsensusSimulation.SelectPoW | blockchain-simulation/src/components/ConsensusSimulation.jsx:27-35 | the winner is a roster member with power at least every member's, and every earlier member has strictly less |
| ConsensusSimulation.SelectPoS | blockchain-simulation/src/components/ConsensusSimulation.jsx:37-45 | the winner is a roster member with stake at least every member's, and every earlier member has strictly less |
| ConsensusSimulation.Pool | blockchain-simulation/src/components/ConsensusSimulation.jsx:49-52 | definition: each delegate's name repeated `votes` times, in table order; the lemmas below state its length, grouping and multiplicities |
| ConsensusSimulation.Count | blockchain-simulation/src/components/ConsensusSimulation.jsx:51 | definition: how many times `for (let i = 0; i < votes; i++)` runs, votes when positive and otherwise 0; `PoolMultiplicity` and `PoolLength` are stated with it |
| ConsensusSimulation.PoolLength | blockchain-simulation/src/components/ConsensusSimulation.jsx:49-52 | the pool holds one entry per vote |
| ConsensusSimulation.PoolGrouped | blockchain-simulation/src/components/ConsensusSimulation.jsx:49-52 | delegate j fills the consecutive slots after the votes of the delegates before it |
| ConsensusSimulation.PoolOwner | blockchain-simulation/src/components/ConsensusSimulation.jsx:49-52 | every pool slot names a delegate with positive votes, inside that delegate's group |
| ConsensusSimulation.PoolMultiplicity | blockchain-simulation/src/components/ConsensusSimulation.jsx:49-52 | each delegate appears in the pool exactly as many times as it has votes |
| ConsensusSimulation.BuildPool | blockchain-simulation/src/components/ConsensusSimulation.jsx:49-52 | the nested push loops build exactly `Pool(table)`, of length the total votes |
| ConsensusSimulation.VotesOf | blockchain-simulation/src/components/ConsensusSimulation.jsx:59-61 | the `dposVotes[name]` lookup is missing iff no delegate has that name, and otherwise gives the votes of a delegate with that name |
| ConsensusSimulation.VotesOfFinds | blockchain-simulation/src/components/ConsensusSimulation.jsx:59-61 | looking up a delegate's name in the table gives that delegate's votes |
| ConsensusSimulation.PoolIndex | blockchain-simulation/src/components/ConsensusSimulation.jsx:55-56 | `Math.floor(r * length)` is a valid index into a non-empty pool |
| ConsensusSimulation.WinnerIsDelegate | blockchain-simulation/src/components/ConsensusSimulation.jsx:55-61 | the name in any pool slot is a delegate with positive votes, and the lookup finds those votes |
| ConsensusSimulation.SelectDPoS | blockchain-simulation/src/components/ConsensusSimulation.jsx:47-62 | no winner iff there are no votes; otherwise the winner is the pool entry at the drawn index, a delegate with positive votes, reported with its votes |
| ConsensusSimulation.FixedTable | blockchain-simulation/src/components/ConsensusSimulation.jsx:19-23 | the fixed table has distinct names and 70 votes in all |
| ConsensusSimulation.DposVotes | blockchain-simulation/src/components/ConsensusSimulation.jsx:19-23 | definition: the vote table DelegateA 15, DelegateB 30, DelegateC 25, in entry order; `FixedTable` states that its names are distinct and it holds 70 votes |
| ConsensusSimulation.RunSimulations | blockchain-simulation/src/components/ConsensusSimulation.jsx:64-70 | one round's PoW, PoS and DPoS winners, with bounded power and stake, a DPoS pick from the 70-entry pool, and votes of 15, 30 or 25 |

## Left out

- React state plumbing (`useState`, `useRef`, `useEffect`, `setMiningInfo`, `block1DataText`) and all rendering are not modelled. State that matters to the logic is held in fields of `Simulation`.
- `requestAnimationFrame`/`cancelAnimationFrame` scheduling is not modelled. The caller invokes `MineStep` repeatedly, and cancelling means it stops calling.
- SHA-256 (crypto-js), `JSON.stringify` and `JSON.parse` are parameters of type `Primitives`. They are not assumed injective or round-tripping. JSON numbers are modelled as integers.
- `performance.now`, `Date.now`, `new Date().toISOString()`, `toFixed` and the timing figures are clock and floating-point values. Timestamps are string parameters and the timings are dropped.
- `Math.random` values are `real` parameters in [0, 1). The statistical fairness of the DPoS draw is not stated.
- `console.log`, the `hashPreview` slice and the message strings that `selectPoW`/`selectPoS`/`selectDPoS` return are display-only. The selectors return the winner instead.
- BlockSimulation.Simulation.SetDifficulty: the input's `Number(e.target.value)` can yield negative, fractional or NaN values; the model only accepts natural numbers.
- MiningSimulation.Block.MineBlock: the source loop is unbounded. The model stops after `fuel` attempts and reports that nothing was found, so termination of the real loop is not captured.
- MiningSimulation.HandleMine: it inherits the fuel bound. When the fuel runs out it returns `None`, which the source cannot do.
- BlockSimulation.Simulation.ResetChain: it requires that no search is running, because the button is disabled while mining.
- ConsensusSimulation.SelectDPoS: it requires distinct delegate names. The vote table is a JavaScript object, whose keys are distinct. The table is walked in the order given. `Object.entries` lists integer-like keys first, in ascending order; the fixed table has no such keys.
- JavaScript numbers are modelled as unbounded integers. `Decimal` matches JavaScript's number-to-string only below 1e21, and `nonce++` stops changing the value at 2^53. Neither limit is reachable by the mining loops in practice.
- blockchain-simulation/src/App.jsx is layout only and is not part of this model.
