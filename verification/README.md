# Verified model of the pool-as-sender shielded pool

A native-ETH join-split pool that is itself the sender of the frame
transactions that spend from it. This project models, in Dafny, the code that
decides whether money is safe there, and proves what the parts promise
together:

| part of the system | modules |
|---|---|
| the commitment tree: the pool's frontier, the wallet's level lists, the exporter's eager variant | `Merkle`, `ShieldedPoolLogic`, `WalletTree` |
| the settlement contract, with storage, reverts and re-entrant payouts | `PoolSpec`, `ShieldedPoolLogic`, `PoolInvariant`, `Ledger` |
| frame 0, the paymaster and the envelope probe | `Envelope`, `Dispatcher`, `Approval` |
| the chain around one pool: admission, payment approval, settlement, refund, outside calls | `Protocol`, `Safety`, `Runs`, `Settlement`, `Accounts`, `Deposits`, `Concurrency`, `Burn` |
| the circuit over F_p and the wallet's witness | `Field`, `Circuit`, `Wallet` |
| Poseidon: reference, code generator with its emitted program, the two deployed loops | `Poseidon`, `PoseidonYul`, `PoseidonWords`, `PoseidonHasher` |
| the wire format, the spend builder, the recent-root ring, the log replay | `Rlp`, `FrameTx`, `SpendBuilder`, `Wire`, `Ring`, `Replay` |
| the monolithic Yul pool, and where it differs | `YulPool`, `Agreement` |
| all of it end to end | `Liveness` |
| shared vocabulary | `Wrappers`, `Powers`, `Bytes` |

`dafny verify dfyconfig.toml` checks the whole project.

## How to read the theorems

*Hashes are never assumed injective.* Every theorem holds for an arbitrary pair of
functions `h2`, `h3` into the field. Where collision resistance matters, the
hypothesis is `Safety.NoBreak`: among the preimages the run itself hashed (deposits,
witnesses, and the nodes of the trees whose roots the pool published) no two share a
digest, and no three-input one hashes to the empty leaf. A run in which the conclusion
fails therefore contains an explicit collision or zero preimage, which
`Runs.SafeOrBroken` returns. `Burn.RunSound` exhibits a system and a run that meet all
of these hypotheses.

*Groth16* is `Safety.KnowledgeSound` (an accepted proof has a satisfying witness, read
out by an extractor) and, for liveness only, `Liveness.ProvesAll` (a satisfying witness
has an accepted proof). Neither is used by the theorems that do not name them.

*Primality* of the field is a hypothesis; Euclid's lemma is proved from it.

*Keccak digests* (source id, domain) are configuration values; ring keys and entries and
mapping slots are symbolic terms over their preimages.

*What the model does not decide* is in `Protocol.Environment`: gas used (charged only up
to the maximum cost), whether a foreign payer approves, whether the settle frame has gas
enough, whether the recent-root predeploy takes the write.

*TXPARAM is modelled by selector number*, with the table in `devnet/EnvelopeProbe.yul`.
The comments and error names at `devnet/ShieldedPoolDispatcher.yul:214-219` do not match
it: 0x0A is the current frame index, 0x0B the signature count, 0x01 the nonce sequence
and 0x0F the reference count. The code's six checks together are the intended ones; the
model follows the numbers.

*What turned out not to hold unconditionally* is stated with its exact condition:
the monolith and the Solidity contract differ exactly on a probe target with dirty high
bits and on a credit that passes 2^256 (`Agreement.TransfersAgree`,
`Agreement.WithdrawsAgree`); a spend built by the tooling is approved exactly when
the proof, the call's shape and, for self-pay, the fee are right
(`SpendBuilder.BuiltApproved`); a sponsor of an accepted spend loses exactly its gas, and
exactly when the settle frame lacks gas, the tree lacks room for the new outputs, or the
predeploy fails, all of which can be told before the spend runs
(`Settlement.SponsoredExact`; `Burn.SponsorLoses` is a run in which it happens); the
current root can be referred to exactly from the slot after its publication until the
ring comes round (`Runs.CurrentRootReferable`); an authentication path spells its index
exactly when the index fits the tree (`WalletTree.AuthPathMeaning`); from 2^64 bytes on
a list's prefix cannot be written and a string's would read as a list's
(`Rlp.BeyondTheLimit`); one more nonzero signature byte costs at least sixteen gas -- while
the signatures take fewer than 256 bytes -- exactly when it is not a first byte below 0x80,
which costs nothing (`Wire.SignatureByteCharge`).

*Two descriptions of each operation.* What an operation does is stated once as a function
that the code is proved against, and again in other terms that do not mention that
function: the charge of a spend in `gasUsed` and `maxCost` (`Accounts.AcceptedCharge`), the
books account by account in the words of the settle frame (`Accounts.PaidAndOwedIsAwarded`),
a deposit in numbers (`Deposits.DepositIff`), errors as the first check of a list that does
not hold (`Deposits.TransferOutcome`, `Dispatcher.VerifyFrameApprove`), approved envelopes as
the builder's envelopes (`Approval.ApprovedIsPlanned`), the wire format as what a decoder
finds (`Wire.RawReads`), the tree from its top (`Merkle.RootSplits`).

*No dirty probe target is reachable*: wire targets are twenty bytes, so the deployed probe
never returns one (`Agreement.CleanTarget`). On every run the two implementations go
through the same worlds (`Agreement.RunsAgree`).

## Model

| member | source | states |
|---|---|---|
| `Runs.Solvency` | contracts/src/ShieldedPoolLogic.sol:135-183 | after every run of deposits, both payment shapes, re-entrant claims, burned spends, clock ticks and forced ether, the pool's balance equals every unspent leaf at the value its commitment opens to, plus all withdrawal and fee credits, plus the gains of the run, which are never negative |
| `Runs.GainNotNegative` | devnet/ShieldedPoolDispatcher.yul:281-288 | no step of any kind loses the pool anything: it gains forced ether, duplicate outputs, inputs burned by a failed settlement, and its fee above its gas |
| `Runs.MarginNeverFalls` | contracts/src/ShieldedPoolLogic.sol:325-346 | between any two points of a run, balance minus unspent value minus both credit totals does not fall |
| `Runs.NoDoubleSpend` | contracts/src/ShieldedPoolLogic.sol:281-296 | over every run, no two inputs spent for value are the same leaf, settled or burned, and each is a leaf |
| `Runs.InputsWereLeaves` | circuits/spend.circom:92-118 | each input of value of an accepted spend was inserted before that transaction, was unspent then, and the two inputs are different leaves |
| `Runs.LogIsTree` | contracts/src/ShieldedPoolLogic.sol:325-338 | after every run, with no assumption on hashes or proofs: leaves distinct and within capacity, log indices 0, 1, 2, ... each with its leaf, every published root the root of a prefix, the last one of all leaves |
| `Accounts.LogIsBatched` | contracts/src/ShieldedPoolLogic.sol:325-338 | after every run: publications and log rows in step, each publication the root of the leaves up to its transaction, each row with its leaf, its index, and the root and slot of its transaction's publication; at most two rows each; new publications carry the current slot |
| `Runs.CurrentRootReferable` | contracts/src/ShieldedPoolLogic.sol:456-459 | after every run the last publication is the root of all leaves, and referring to it is valid exactly from the next slot until the ring comes round |
| `Runs.RunKeeps` | contracts/src/ShieldedPoolLogic.sol:251-346 | after every run without a break the whole invariant holds (books, openings, spent records, consumed lanes, log), and the margin is the sum of the steps' gains |
| `Runs.SafeOrBroken` | contracts/src/ShieldedPoolLogic.sol:251-346 | for every run at all, the invariant holds or a collision or zero preimage is returned, each side of which the run hashed: for a deposit, for a spend's witness, or as a node of a tree whose root the pool published |
| `Runs.StepKeeps` | devnet/ShieldedPoolDispatcher.yul:281-288 | every single step, of any kind, keeps the invariant and moves the margin by exactly its gain |
| `Runs.SoundPrefix` | contracts/src/ShieldedPoolLogic.sol:325-338 | a run without a hash break had none at any earlier point: leaves and hashed preimages only grow |
| `Runs.RefundKeeps` | devnet/ProofPaymaster.yul:58-60 | refunding the maximum cost down to the actual one, to whoever paid, keeps the books and raises the margin by exactly the pool's own unused gas |
| `Accounts.AcceptedCharge` | devnet/ProofPaymaster.yul:58-60 | an accepted spend, settled or not, takes exactly the gas used, and at most the maximum cost, from the pool's balance with two frames and from the paymaster's own ether when it is frame 1's target; nothing else moves either |
| `Accounts.RunCharge` | devnet/ProofPaymaster.yul:58-60 | the same at every accepted spend of every run |
| `Accounts.SponsorBooks` | devnet/ProofPaymaster.yul:58-60 | after every run the paymaster's own ether is what it was given less the gas of the spends it sponsored |
| `Accounts.SponsorNeverOverdrawn` | devnet/ProofPaymaster.yul:121-216 | over every run the paymaster's balance is never below zero |
| `Safety.AcceptBalances` | circuits/spend.circom:163-170 | payment approval keeps the books with the outputs, the withdrawal and a foreign fee set aside, to the wei: self-pay is covered by gas at most max cost at most fee at most inputs |
| `Safety.ProvenInputs` | circuits/spend.circom:172-177 | the inputs of an authorized spend that carry value are distinct unspent leaves with the recorded value |
| `Safety.OneNullifier` | circuits/spend.circom:109-118 | two openings of one leaf have one nullifier and one value, or a hash broke |
| `Safety.PathStartsAtLeaf` | circuits/spend.circom:92-106 | a boolean path to any root the pool ever published starts at one of its leaves, or a hash broke |
| `Safety.ProvenRoot` | contracts/src/ShieldedPoolLogic.sol:456-459 | the root an admitted spend refers to is the root of a prefix of the pool's leaves |
| `Safety.InputIsUnspentLeaf` | contracts/src/ShieldedPoolLogic.sol:281-296 | an input of value whose nullifier lane is fresh is a leaf no earlier spend consumed |
| `Settlement.ApprovalSettles` | devnet/ShieldedPoolDispatcher.yul:204-289 | once payment is approved, the settle frame reverts exactly for want of gas, of room in the tree, or of the predeploy; otherwise it leaves the leaves, credits and balance a settlement must |
| `Settlement.SettlesIff` | contracts/src/ShieldedPoolLogic.sol:325-338 | whether an accepted spend settles is decided before it runs, by gas, the predeploy and the room its own new outputs need in the leaves it finds |
| `Settlement.AcceptedSpendsSettle` | contracts/src/ShieldedPoolLogic.sol:251-346 | the same for every accepted spend of every run |
| `Settlement.ApprovedSpendPasses` | contracts/src/ShieldedPoolLogic.sol:251-304 | every check of the settle frame, through the probe, passes on an accepted envelope |
| `Settlement.AcceptedCreditsFit` | contracts/src/ShieldedPoolLogic.sol:338-346 | no credit addition of an accepted settlement can overflow a word |
| `Settlement.ClaimsPay` | contracts/src/ShieldedPoolLogic.sol:368-384 | after every run a claim succeeds if and only if there is a credit, the recipient is not the pool, and the recipient accepts: the ether is always there |
| `Settlement.PoolPaysOnlyCovered` | devnet/ShieldedPoolDispatcher.yul:281-288 | the pool is the resolved payer exactly for accepted two-frame spends, and then the fee covers the maximum cost |
| `Settlement.SelfPayIsFunded` | devnet/ShieldedPoolDispatcher.yul:281-288 | an authorized self-paying spend can always be paid for from the pool's balance |
| `Settlement.SponsoredDelta` | devnet/ProofPaymaster.yul:121-216 | one accepted spend changes the paymaster's ether plus fee credit by fee minus gas if it settles, by minus gas if it does not, and by nothing if another pays; the fee is at least any gas chargeable |
| `Settlement.SponsoredExact` | devnet/ProofPaymaster.yul:121-216 | a sponsor loses on an accepted spend if and only if, in the world before it, gas, room for the new outputs or the predeploy is wanting; it then loses its gas, and otherwise gains the fee over the gas |
| `Settlement.SponsoredLast` | devnet/ProofPaymaster.yul:121-216 | the same for the last step of every run |
| `Burn.SponsorLoses` | devnet/ProofPaymaster.yul:58-60 | a concrete run that meets every safety hypothesis, in a one-leaf tree: a deposit fills it, the paymaster sponsors an accepted spend that finds no room, and is one wei poorer |
| `Settlement.PaymasterNeverLoses` | devnet/ProofPaymaster.yul:121-216 | over any run whose sponsored spends settle, the paymaster's ether plus fee credit never decreases |
| `Settlement.GuardedPaymasterNeverLoses` | devnet/ProofPaymaster.yul:121-216 | the same over any run whose sponsored spends have gas, room and predeploy when they run: the guard a sponsor can check suffices |
| `Settlement.CallOwed` | contracts/src/ShieldedPoolLogic.sol:368-384 | no outside call, however it re-enters, lowers what an account has received plus its fee credit |
| `Accounts.CallConserves` | contracts/src/ShieldedPoolLogic.sol:368-384 | no outside call, however it re-enters, changes what an account has been paid plus its two credits |
| `Accounts.ClaimPaysWhole` | contracts/src/ShieldedPoolLogic.sol:368-384 | a successful claim has paid the account it names its whole credit; without re-entry the credit is gone, the pool has that much less, and nobody else was paid |
| `Accounts.ClaimErrors` | contracts/src/ShieldedPoolLogic.sol:368-384 | a claim fails for want of a credit, or as a refused payout |
| `Accounts.PaidAndOwedIsAwarded` | contracts/src/ShieldedPoolLogic.sol:176-183 | over every run, what an account has been paid and is owed is exactly what settled spends awarded it: the public amount at byte 196 to the recipient at byte 548, the fee at byte 228 to frame 1's target |
| `Accounts.SettledLeaves` | contracts/src/ShieldedPoolLogic.sol:325-337 | a settled spend appends the commitments at bytes 132 and 164 in that order, each unless it is a leaf already |
| `Concurrency.DisjointSpendsCommute` | wallet/gen_nonce_race.py:10-13 | two accepted spends with disjoint nullifiers, room for both and a paymaster that can fund its share, are both accepted and settle in either order and end with the same leaf set, credits, consumed keys and ether |
| `Concurrency.NullifiersOnce` | contracts/src/ShieldedPoolLogic.sol:251-258 | in every run, an approvable spend that shares a nullifier with an earlier accepted one is not admitted |
| `Concurrency.LaneMovedIffConsumed` | devnet/ShieldedPoolDispatcher.yul:264-277 | after every run, with no assumption at all, a nonce lane stands at one if some accepted spend of the run carried its key and at zero otherwise |
| `Concurrency.StillAuthorized` | devnet/ShieldedPoolDispatcher.yul:264-277 | executing one spend leaves a disjoint one authorized: its lanes stay fresh and the new root lands in another ring cell than its reference |
| `Concurrency.ExecutionsCommute` | contracts/src/ShieldedPoolLogic.sol:325-346 | the effects of two settled spends on leaves, credits, lanes and ether commute |
| `Liveness.EndToEnd` | devnet/pool_frametx.py:241-279 | from every reachable pool: unspent notes in a tree whose root is still referable, conserved, with a fee at least the maximum cost, make a built transaction that is normal on the wire, accepted and, with gas, predeploy and two free leaves, settles; only a zero-value dummy's lane is assumed unused |
| `Liveness.EndToEndFromLog` | wallet/gen_nonce_race.py:46-69 | the same for a wallet that knows only the event log and refers to the last publication within the ring's window |
| `Liveness.UnspentLaneFresh` | circuits/spend.circom:109-118 | after every run, nobody can have consumed the nullifier of an unspent note of value: its lane stands at zero, or a hash broke |
| `Liveness.RunExplainsLanes` | circuits/spend.circom:109-118 | after every run each moved lane is the nullifier of an input some accepted proof opened, recorded as spent if it carried value |
| `Liveness.SpendLives` | wallet/wallet.py:138-178 | the same from any world that keeps the invariant and explains its lanes |
| `Liveness.SpendPassesProof` | devnet/ShieldedPoolDispatcher.yul:151-196 | the tuple a wallet proves passes the on-chain proof check and has its call's shape |
| `Liveness.NullifiersNotZero` | devnet/ShieldedPoolDispatcher.yul:151-165 | an accepted proof's nullifiers are not zero, or the empty leaf has a known preimage |
| `PoolInvariant.CallKeeps` | contracts/src/ShieldedPoolLogic.sol:368-384 | every outside call keeps solvency and the tree's shape, whatever calls the paid accounts make on re-entry |
| `PoolInvariant.SettleKeeps` | contracts/src/ShieldedPoolLogic.sol:325-346 | a settlement whose value was set aside keeps the books, to the wei, and fails exactly when the tree is full or the predeploy refuses |
| `PoolInvariant.WithdrawKeeps` | contracts/src/ShieldedPoolLogic.sol:176-183 | the withdrawal credit fits a word and keeps the books |
| `PoolInvariant.ShieldKeeps` | contracts/src/ShieldedPoolLogic.sol:135-148 | a deposit adds to the balance exactly what its leaf opens to |
| `PoolInvariant.OutputsKeep` | contracts/src/ShieldedPoolLogic.sol:325-337 | inserting the outputs raises the unspent total by the values of those that are new, each once |
| `PoolInvariant.CallGrows` | contracts/src/ShieldedPoolLogic.sol:368-384 | no outside call removes or reorders leaves, and log and published roots keep up with them |
| `PoolInvariant.OutsideSpendReverts` | contracts/src/ShieldedPoolLogic.sol:251-258 | a settlement entry point called by anyone but the pool itself reverts |
| `Ledger.TotalUpdate` | contracts/src/ShieldedPoolLogic.sol:338-346 | changing one credit changes the sum of all credits by just that |
| `Ledger.UnspentSpend` | contracts/src/ShieldedPoolLogic.sol:325-337 | spending one of the distinct leaves removes exactly its value from the unspent total |
| `ShieldedPoolLogic.Climb` | contracts/src/ShieldedPoolLogic.sol:397-411 | the carry chain ends at the lowest zero bit of the index, at most the top level, with the completed subtree's root, and reads only slots written before |
| `ShieldedPoolLogic.Pool.Insert` | contracts/src/ShieldedPoolLogic.sol:397-411 | inserting keeps the frontier true of the extended leaf list, and fails, changing nothing, exactly on a full tree |
| `ShieldedPoolLogic.Pool.ComputeRoot` | contracts/src/ShieldedPoolLogic.sol:418-425 | the frontier's root is the root of the full zero-padded tree, from empty to exactly full |
| `ShieldedPoolLogic.Pool.constructor` | devnet/ShieldedPoolDispatcher.yul:57-68 | once the empty root is published: the empty tree, that root in force, and that one publication |
| `ShieldedPoolLogic.Deploy` | devnet/ShieldedPoolDispatcher.yul:57-69 | deployment leaves a pool in its starting state if and only if the predeploy took the empty root |
| `ShieldedPoolLogic.Pool.Shield` | contracts/src/ShieldedPoolLogic.sol:135-148 | the deposit's whole effect, every error, and nothing changed on a revert |
| `Deposits.DepositIff` | contracts/src/ShieldedPoolLogic.sol:135-148 | on every run a deposit is taken if and only if it carries between 1 and 2^128 - 1 wei, its hidden part is a residue, its note is new, there is room, the predeploy answers and the ether fits; it then leaves its leaf, its ether, one log row and one publication |
| `Deposits.DepositOutcome` | contracts/src/ShieldedPoolLogic.sol:135-148 | a refused deposit names the first check of the contract's list that does not hold |
| `Deposits.DepositBoth` | contracts/test/YulPoolDifferential.t.sol:18-30 | the same through both contracts side by side |
| `Deposits.DepositSpendable` | wallet/wallet.py:138-178 | the note of every deposit any run took can be spent: with any dummy of another nullifier it is a provable spend for every split into outputs, public amount and fee |
| `Deposits.LeavesAreResidues` | contracts/src/ShieldedPoolLogic.sol:310-320 | every leaf of every run is a field element |
| `ShieldedPoolLogic.Pool.Transfer` | contracts/src/ShieldedPoolLogic.sol:167-171 | the transfer's whole effect, every error, and nothing changed on a revert |
| `ShieldedPoolLogic.Pool.Withdraw` | contracts/src/ShieldedPoolLogic.sol:176-183 | the withdrawal's whole effect with its recipient credit, every error, and nothing changed on a revert |
| `Deposits.TransferOutcome` | contracts/src/ShieldedPoolLogic.sol:167-171 | a transfer fails at the first of shape, caller, nullifiers, envelope, keys, reference, payer, domain, residues, ranges, room, predeploy and credit that does not hold, with its error, and otherwise settles |
| `Deposits.WithdrawOutcome` | contracts/src/ShieldedPoolLogic.sol:176-183 | the same for a withdrawal, with its recipient checks first and its credit last |
| `Deposits.SettlementOutcome` | contracts/src/ShieldedPoolLogic.sol:251-320 | the settlement checks as a list in the contract's order: the error is the first one's that does not hold |
| `ShieldedPoolLogic.Pool.Settle` | contracts/src/ShieldedPoolLogic.sol:325-346 | new outputs become leaves once, logged under one recomputed root that is published once, and a payer other than the pool is credited the fee |
| `ShieldedPoolLogic.Pool.CheckSpend` | contracts/src/ShieldedPoolLogic.sol:251-304 | the first failing settlement check, or the authenticated payer; none fails if and only if caller, nullifiers, envelope and tuple are right |
| `ShieldedPoolLogic.Pool.ValidateSpend` | contracts/src/ShieldedPoolLogic.sol:310-320 | domain, canonicity and range, in that order; no error if and only if the tuple is well formed |
| `PoolSpec.SpendChecked` | contracts/src/ShieldedPoolLogic.sol:251-320 | all settlement checks pass if and only if the pool called itself, the nullifiers are nonzero, the envelope binds sender, frame, keys and root reference, and the tuple is well formed |
| `ShieldedPoolLogic.Pool.ClaimWithdrawal` | contracts/src/ShieldedPoolLogic.sol:368-375 | credit zeroed before the recipient's code runs; its re-entrant calls take effect, and a refusal undoes all of it |
| `ShieldedPoolLogic.Pool.ClaimFee` | contracts/src/ShieldedPoolLogic.sol:377-384 | the same for the fee credit |
| `ShieldedPoolLogic.Pool.Dispatch` | devnet/ShieldedPoolDispatcher.yul:295-314 | any outside call, nested to any depth, acts as its specification says; a read, a proof check or a stray empty call, whatever it returns, changes nothing |
| `Merkle.StepUpAppended` | contracts/src/ShieldedPoolLogic.sol:397-411 | the two hashing steps of an append give the parent node of the extended tree |
| `Merkle.FrontierStep` | contracts/src/ShieldedPoolLogic.sol:397-411 | recording the completed subtree in its slot keeps every meaningful slot right |
| `Merkle.AuthPathCorrect` | wallet/wallet.py:117-127 | an authentication path folds to the root and its bits spell the position |
| `Merkle.RootSplits` | wallet/wallet.py:101-115 | read from the top: a root hashes the root over the first half of the leaves, on the left, with the root over the rest, down to single leaves and zero |
| `Merkle.PathBinds` | circuits/spend.circom:92-106 | a boolean path of full depth that reaches the root starts at the leaf its bits spell and is that leaf's authentication path, sibling for sibling, or the clashing level is returned |
| `Merkle.EmptySubtree` | contracts/src/ShieldedPoolLogic.sol:429-454 | a subtree past the last leaf is the all-zero subtree |
| `WalletTree.ZerosList` | wallet/wallet.py:88-93 | the list holds the empty-subtree root of every level |
| `WalletTree.Tree.Append` | wallet/wallet.py:95-99 | appends at the next index, failing exactly on a full tree |
| `WalletTree.Tree.NextLevel` | wallet/wallet.py:104-111 | one level's nodes from the one below, empty siblings filled in |
| `WalletTree.Tree.Levels` | wallet/wallet.py:101-112 | every level holds exactly the nodes its leaves reach, an empty tree one |
| `WalletTree.Tree.ComputeRoot` | wallet/wallet.py:114-115 | the wallet's root is the root of the full zero-padded tree |
| `WalletTree.Tree.AuthPath` | wallet/wallet.py:117-127 | siblings and bits of any position, occupied or not |
| `WalletTree.AuthPathMeaning` | wallet/wallet.py:117-127 | the path folds to the root for every position in the tree, and its bits spell the position exactly when it is in the tree |
| `WalletTree.IncrementalRoot` | tooling/export_vectors.js:94-107 | the eager loop returns the last node it climbs to, in the tree over all leaves |
| `WalletTree.IncrementalRootIsRoot` | tooling/export_vectors.js:94-107 | for up to 2^depth leaves that node is the root |
| `Replay.SeededTree` | wallet/gen_nonce_race.py:46-69 | rebuilding succeeds exactly on logs with dense indices that fit the tree and hash to the on-chain root, and yields their leaves in index order |
| `Replay.RunReplays` | wallet/gen_nonce_race.py:46-69 | after every run the log rebuilds the pool's leaves under the last published root, and the eager root agrees |
| `Circuit.Exact` | circuits/spend.circom:121-180 | the constraints can be satisfied with some hints if and only if the signals are residues and the integer statement holds |
| `Circuit.Soundness` | circuits/spend.circom:66-179 | constraints imply integer conservation, 128-bit values, boolean paths that fold to the root for value, distinct nullifiers, and the nullifiers and commitments as the tagged hashes written out |
| `Circuit.Complete` | circuits/spend.circom:139-179 | the hints an honest prover computes satisfy every constraint |
| `Circuit.InputSound` | circuits/spend.circom:66-119 | one input's constraints imply its statement |
| `Circuit.CurIsFold` | circuits/spend.circom:92-106 | arithmetic selection by direction bits is the path fold |
| `Circuit.RangeSound` | circuits/spend.circom:163-170 | 128 boolean signals that recompose to a value bound it |
| `Circuit.DistinctSound` | circuits/spend.circom:172-177 | the equality gadget's zero output means different nullifiers |
| `Field.NoZeroDivisors` | circuits/spend.circom:76-78 | a product vanishes modulo a prime only if a factor does |
| `Wallet.BuildWitness` | wallet/wallet.py:138-178 | fails exactly on its assertions; otherwise the map holds the notes, real or all-zero paths, the root and the context |
| `Wallet.AssertionsAre` | wallet/wallet.py:138-155 | the builder's assertions in full: two inputs and outputs, no value without an index, conservation, and six 128-bit ranges |
| `Wallet.WitnessExact` | wallet/wallet.py:138-178 | the map satisfies the circuit if and only if its inputs of value fold to the root and its nullifiers differ |
| `Wallet.WitnessComplete` | wallet/wallet.py:138-178 | notes at their indices with distinct nullifiers satisfy the circuit, whatever the tree and value split |
| `Wallet.PathBelongs` | wallet/wallet.py:117-127 | a note at its index reaches the root; one that is not does so only through a clash that is returned |
| `Wallet.SignalsAgree` | wallet/wallet.py:44-72 | the circuit's outputs are the nullifiers and commitments the wallet computes, as tagged hashes written out, and its other signals the tree's root, the domain and the amounts |
| `Dispatcher.VerifyFrameApprove` | devnet/ShieldedPoolDispatcher.yul:204-289 | approves exactly the approvable envelopes, with execution and payment scope for two frames and execution for three; otherwise the error is that of the first check, in the code's order, that does not hold |
| `Approval.ApprovedIsPlanned` | devnet/ShieldedPoolDispatcher.yul:204-289 | frame 0 approves an envelope if and only if it is, field by field and byte by byte, what the builder makes of the spend it settles (frame 1 of three being anyone's), the proof checks, the call has its shape, and a self-paid fee covers the maximum cost |
| `Approval.PayableIsPlanned` | devnet/ProofPaymaster.yul:121-216 | the paymaster pays for an envelope if and only if it is the builder's for it, carrier included, and the fee covers the maximum cost |
| `Approval.CalldataIsCall` | devnet/pool_frametx.py:163-171 | calldata of the right length is the call built from what it decodes to |
| `Approval.SelectorBytes` | devnet/ShieldedPool.yul:563-591 | the first four bytes of the three calls |
| `Dispatcher.VerifyFrameProof` | devnet/ShieldedPoolDispatcher.yul:151-196 | the first thing wrong with the exact tuple of the settle frame, or nothing |
| `Dispatcher.CheckFrames` | devnet/ShieldedPoolDispatcher.yul:220-247 | passes exactly the two frame grammars; a wrong frame outranks wrong calldata |
| `Dispatcher.CheckSettleData` | devnet/ShieldedPoolDispatcher.yul:247-263 | passes exactly well-shaped transfer and withdraw calldata, and names the first thing wrong with it |
| `Dispatcher.PayFrame` | devnet/ProofPaymaster.yul:121-216 | for any pool and pool sender, one address or two: approves exactly the envelopes whose carrier tuple is the settled one, whose every frame is as declared, and whose fee covers the maximum cost |
| `Dispatcher.SameTuple` | devnet/ProofPaymaster.yul:210-212 | word-by-word equality of the 544 bytes is equality of the decoded spends |
| `Envelope.Probe` | devnet/EnvelopeProbe.yul:30-62 | eleven words for any counts, absent keys and references reading zero |
| `SpendBuilder.Build` | devnet/pool_frametx.py:223-279 | the signed transaction for a plan: its chain, pool, fee caps and signer, its nullifiers in order as keys, its frames and gas limits, its reference, one signature over itself with the signature empty |
| `SpendBuilder.BuiltApproved` | devnet/pool_frametx.py:241-279 | what is built is approved on chain if and only if the proof checks, the spend has its call's shape, and a self-paid fee covers the maximum cost |
| `SpendBuilder.BuiltPayable` | devnet/pool_frametx.py:241-279 | the paymaster pays for what is built for it if and only if the fee covers the maximum cost |
| `SpendBuilder.SignatureStable` | devnet/pool_frametx.py:270-279 | putting the signature in does not change the bytes that were signed |
| `Wire.SignedFields` | devnet/pool_frametx.py:223-279 | decoding the signed bytes finds the plan's chain, pool, fee caps, signer, sorted nullifiers and reference, and nothing in place of the signature |
| `SpendBuilder.BuiltNormal` | devnet/pool_frametx.py:241-279 | every plan with addresses, word-sized fees and chain id and a signature of at most a thousand bytes fits the wire format |
| `SpendBuilder.CallRoundTrip` | devnet/pool_frametx.py:163-171 | calldata built from a spend decodes to that spend |
| `Rlp.DecodeEncode` | devnet/frametx.py:16-34 | decoding the front of a message gives back the encoded item and its length |
| `Rlp.EncodeInjective` | devnet/frametx.py:16-34 | no encoding is a prefix of another item's: equal encodings come from equal items |
| `Wire.ShortestEncoding` | devnet/frametx.py:16-34 | no byte string decodes to an item in fewer bytes than the encoder uses |
| `Rlp.MinimalReads` | devnet/frametx.py:31-34 | minimal big-endian integers read back |
| `Rlp.BeyondTheLimit` | devnet/frametx.py:16-22 | from 2^64 bytes of payload on, a list's prefix cannot be written, and a string's, where it can, starts with a byte of the list range |
| `FrameTx.EnvelopeRlp` | devnet/frametx.py:68-83 | the part-by-part encoder yields the encoding of the transaction as one item |
| `Wire.RawReads` | devnet/frametx.py:4-11 | the raw transaction is type byte 6 and one list of eleven items in the documented order, each integer minimal and reading back to its field, each frame a list of six and each signature a list of four, to the last byte |
| `Wire.PreimageReads` | devnet/frametx.py:86-87 | the signed bytes read the same, with the bytes of own-hash signatures empty |
| `Wire.OpcodesSee` | devnet/EnvelopeProbe.yul:30-62 | the opcodes show what the bytes say, an absent target being the sender |
| `FrameTx.RawInjective` | devnet/frametx.py:82-85 | the wire bytes determine a normalised transaction |
| `FrameTx.PreimagesAgree` | devnet/frametx.py:86-87 | two signing preimages agree exactly when the transactions agree up to elided signature bytes |
| `Wire.GasOfTheBytes` | devnet/frametx.py:88-102 | the gas limit is 15,000, 475 a frame and its limit, 2,800 or 6,700 a signature, 2,400 and 2,002 a reference, and the byte price of items 4 and 5 of the decoded raw transaction, and of item 10 when there are references |
| `Wire.SignatureByte` | devnet/frametx.py:94-95 | one more nonzero signature byte costs sixteen gas and what the prefixes of its string, its signature and the signature list rise by |
| `Wire.SignatureByteCharge` | devnet/frametx.py:94-95 | below 256 bytes of signatures it costs at least sixteen if and only if it is not a first byte below 0x80, which is free |
| `Wire.BuiltGas` | devnet/frametx.py:88-105 | a built spend's maximum cost is the fee cap times its gas limit: 10,373,152 for two frames or 10,423,627 for three, and the byte price of its frames, signature and reference |
| `Wire.MaxCostIs` | devnet/frametx.py:103-105 | the maximum cost is the gas limit at the fee cap and 131,072 blob gas a blob at the blob fee cap |
| `FrameTx.RefRoundTrip` | devnet/pool_frametx.py:219-219 | an encoded reference reads back as source, slot and root |
| `Ring.CommittedIsLast` | devnet/pool_frametx.py:207-213 | a reference matches its ring cell exactly when the last write to the cell under its source is that source, slot and root |
| `Ring.AliasedIsStale` | devnet/pool_frametx.py:207-213 | a reference overwritten in its cell never matches again unless written again itself |
| `Ring.AdmissionIsCommitted` | contracts/src/ShieldedPoolLogic.sol:456-459 | among any interleaving with other sources, the committed check on the pool's source is the last-write check on the pool's own publications |
| `Ring.EntriesAgree` | devnet/pool_frametx.py:210-210 | entry preimages coincide only for the same source, slot and root |
| `Ring.KeysAgree` | devnet/pool_frametx.py:211-211 | key preimages coincide only for the same source and cell |
| `Ring.RingLayout` | devnet/pool_frametx.py:210-211 | where the source, the slot (modulo 8192 in the key) and the root lie in the hashed bytes |
| `Poseidon.Reference` | reference/poseidon_bn254.py:34-46 | the reference loop, lane by lane, computes the round recursion and returns a residue |
| `Poseidon.RoundWritten` | reference/poseidon_bn254.py:39-45 | one round at widths three and four as a sum of matrix entries times boxed lanes: constants `r * t + i`, the fifth power on every lane in the first and last `rf / 2` rounds and on the first lane otherwise |
| `PoseidonYul.GeneratorCorrect` | reference/gen_poseidon_sol.py:68-111 | for every width, round counts, canonical constants and matrix whose lazy sums fit a word, the emitted program run on wrapping words returns the reference digest for all argument words |
| `PoseidonYul.EmittedCodeIsPoseidon` | reference/gen_poseidon_sol.py:26-111 | the same under the bound (t + 1) p at most 2^256, with the constants behind the blob's length word |
| `PoseidonYul.RoundRun` | reference/gen_poseidon_sol.py:36-66 | one emitted round keeps every lane below t p and congruent to the reference state |
| `PoseidonYul.ArksRun` | reference/gen_poseidon_sol.py:68-111 | after the constants every lane is below (t + 1) p, so no `add` wraps |
| `PoseidonYul.MixRowsRun` | reference/gen_poseidon_sol.py:36-55 | the emitted mix rows hold the reference mix in lanes below t p |
| `PoseidonYul.LoopRun` | reference/gen_poseidon_sol.py:68-111 | the emitted loop ends after its rounds with the reference's final state in its lanes |
| `PoseidonWords.Hash3` | contracts/src/PoseidonT4.sol:111-248 | the four-lane loop returns the reference digest for all words |
| `PoseidonWords.Body4` | contracts/src/PoseidonT4.sol:124-244 | one turn keeps four lanes below 4 p and congruent to the reference round |
| `PoseidonWords.Hash2` | contracts/src/PoseidonT3.sol:90-178 | the three-lane loop returns the reference digest for all words |
| `PoseidonWords.Body3` | contracts/src/PoseidonT3.sol:101-175 | one turn keeps three lanes below 3 p and congruent to the reference round |
| `PoseidonWords.DeployedWidths` | reference/gen_poseidon_sol.py:36-46 | over the BN254 field the lazy sums fit a word if and only if the width is at most four, so both deployed loops are within the bound and no wider one is |
| `PoseidonHasher.DeployedOk` | contracts/src/PoseidonT4.sol:111-123 | the deployed pair returns residues for all words, which is all the rest of the project asks of its hashes |
| `PoseidonHasher.HashPair` | contracts/src/ShieldedPoolLogic.sol:388-390 | the deployed three-lane loop computes the tree hash of that pair |
| `PoseidonHasher.HashTriple` | contracts/src/PoseidonT4.sol:111-248 | the deployed four-lane loop computes the three-input hash of that pair |
| `YulPool.Pool.Insert` | devnet/ShieldedPool.yul:251-265 | the slot-level insert keeps the slots true of the extended leaf list and touches only tree slots |
| `YulPool.Pool.ComputeRoot` | devnet/ShieldedPool.yul:266-279 | the slots' root is the root of the full tree |
| `YulPool.Pool.Settle` | devnet/ShieldedPool.yul:405-429 | the slot-level settlement's whole effect, with the fee added modulo 2^256 |
| `YulPool.Pool.SpendCheck` | devnet/ShieldedPool.yul:360-400 | the first failing check, with the target word masked; none fails if and only if caller, nullifiers, masked envelope and tuple are right |
| `YulPool.Pool.ValidateSpend` | devnet/ShieldedPool.yul:292-313 | domain, canonicity and range, in the contract's order; no error if and only if the tuple is well formed |
| `YulPool.Pool.Transfer` | devnet/ShieldedPool.yul:563-569 | the transfer's whole effect on slots, logs and publications, nothing changed on a revert |
| `YulPool.Pool.Withdraw` | devnet/ShieldedPool.yul:570-584 | the withdrawal's whole effect, nothing changed on a revert |
| `YulPool.Pool.Shield` | devnet/ShieldedPool.yul:548-562 | the deposit's whole effect, the same as the Solidity contract's |
| `YulPool.Pool.ClaimWithdrawal` | devnet/ShieldedPool.yul:592-602 | the credit slot zeroed before the recipient's code runs; its re-entrant calls take effect, and a refusal undoes all of it, as in the Solidity contract |
| `YulPool.Pool.ClaimFee` | devnet/ShieldedPool.yul:603-613 | the same for the fee credit |
| `YulPool.Pool.Dispatch` | devnet/ShieldedPool.yul:548-613 | any outside call meets the Solidity contract's specification, nested to any depth |
| `YulPool.Deploy` | devnet/ShieldedPool.yul:54-67 | deployment leaves a pool in its starting state if and only if the predeploy took the empty root |
| `YulPool.VerifyFrameApprove` | devnet/ShieldedPool.yul:451-532 | approves exactly the envelopes the dispatcher approves, with the same scope, and fails on a wrong envelope with the same error; every proof failure reads as an invalid proof |
| `YulPool.VerifyProofOnly` | devnet/ShieldedPool.yul:585-591 | accepts exactly the tuples whose proof check has no error |
| `YulPool.CopyTuple` | devnet/ShieldedPool.yul:521-524 | the copied words decode to the settle frame's spend |
| `Agreement.SpendChecksAgree` | devnet/ShieldedPool.yul:360-400 | mask and strict decoder differ exactly when a spend reaches the probe and the target has dirty high bits |
| `Agreement.TransfersAgree` | devnet/ShieldedPool.yul:563-569 | the two transfers differ exactly on a dirty target or an overflowing fee credit |
| `Agreement.WithdrawsAgree` | devnet/ShieldedPool.yul:570-584 | the two withdrawals differ exactly on a dirty target or an overflowing credit |
| `Agreement.StorageAgrees` | devnet/ShieldedPool.yul:217-228 | when the two contracts stand for the same state, slots and fields agree: index, root, leaf marks, both credits, and every meaningful frontier slot; at depth 20 those are slots 21 and 22 and mappings 23, 24 and 25 |
| `Agreement.AcceptedSettlesAgree` | contracts/src/ShieldedPoolLogic.sol:251-346 | for every accepted spend of every run the two implementations reach the same state or the same error |
| `Agreement.RunsAgree` | contracts/test/YulPoolDifferential.t.sol:18-30 | driven by the same actions, the two implementations go through the same worlds, for every run |
| `Agreement.Differential` | contracts/test/YulPoolDifferential.t.sol:18-30 | the two contracts answer any list of outside calls with the same errors and stay in the same state, the one the specification gives |
| `Agreement.CleanTarget` | devnet/EnvelopeProbe.yul:30-62 | the deployed probe never returns a target with dirty high bits, since wire targets are twenty bytes |

## Left out

- Pairing arithmetic of `Groth16Verifier.sol`, numeric round constants, the hard-coded zero table and keccak digests: replaced by hypotheses and parameters, as said above.
- RPC, simulation, signing, receipt polling, argument parsing, subprocesses and deployment: input and output, taken as parameters where they matter.
- Gas metering: only "charged at most the maximum cost" and the wire-level gas formula.
- `SharedPoolSender.yul` and the standalone `ShieldedPool.sol`: earlier forms whose checks the dispatcher and the settlement contract repeat.
- What views and failing reads return: a read is an outside call that changes nothing.
- Events other than `LeafAppended`, 32- and 64-bit widths of leaf indices and slots (depth 20 fits them), and the ABI decoder's length checks.
- Block numbers and consensus slots are one clock, so an event's block number and its root's ring slot are the same number.
- An empty frame target on the wire is read as the sender (`FrameTx.Seen`); the builder always names a target.
- Privacy, trusted setup and note randomness: not functional correctness.
- PoseidonYul.GeneratorCorrect: needs at least one round before the last full half (`rf / 2 + rp >= 1`); otherwise the generator emits a negative literal, which is not Yul.
- FrameTx.RawInjective: addresses are integers; the encoder also takes raw bytes of any length as an address, which it does not check.
- Rlp.DecodeEncode: below 2^64 bytes of payload, the limit the format itself sets.
- SpendBuilder.Build: the signature is any function of the unsigned transaction, since keccak and ECDSA are outside the model.
- Concurrency.DisjointSpendsCommute: the order of leaves, and so the roots and log entries, does differ between the two orders.
