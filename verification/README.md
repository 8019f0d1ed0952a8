# Mindees, proved

This project models the consensus of Mindees, a small proof-of-stake chain, and proves what it is for.
One ledger step matures withdrawals, snapshots stake at epoch boundaries, runs five kinds of transaction
(transfer, stake, unstake, slash, finality vote) and commits everything or nothing. On top of it stand the
block tree with its fork choice and finality frontier, the fee market, the node with its append-only log,
the automatic voter, the orphan buffer and the in-process gossip.

Main results:

- **Accountable safety** (`AccountableSafety.ConflictingFinalityIsAccountable`). With an unchanging
  validator set, two conflicting finalized checkpoints convict at least a third of the stake, each voter by
  two of its own included votes. This is Theorem 1 of "Casper the Friendly Finality Gadget", section 2.1.
- **Plausible liveness** (`Liveness.PlausibleLiveness`). From any ledger such a validator set reaches, two
  thirds of the stake running the automatic voter finalize the next checkpoint in two rounds, and no pair of
  the chain's votes becomes a fault by it. This is Theorem 2 of the same section.
- **Convergence** (`Convergence.TreesConverge`). Trees that hear one block set, in any orders in which each
  valid branch arrives from root to tip, as itself or in differently sealed twins, end with the same frontier,
  head and canonical ledger, whatever each refused.
- **Both together** (`Resilience.FewFaultyConverge`). While voters with less than a third of the stake have
  provably misbehaved, such trees agree with no assumption on what the branches finalized.
- **The fast path refines replay** (`BlockTree.BlockTree.AddBlock`). The tree with dictionaries, in-place
  head extension and rescan takes exactly the steps of a tree that always replays from genesis.
- **Selection, exactly** (`Mempool.SelectionAcceptedExactly`). What the mempool selects never fails a validity,
  duplicate, nonce or funds check; the chain takes it if and only if each transaction meets its kind's own rule.
- **Self-slashing, exactly** (`AutoVoter.LifetimeHonestExactly`). Over any calls on any ledgers, the automatic
  voter convicts itself if and only if it votes on a ledger that clashes with an earlier vote.
- **Votes, step by step** (`VoteCount.StepJustifies`, `VoteCount.VoteAcceptedExactly`). When a vote is accepted,
  and what each transaction of each run justifies and finalizes, is read off the transaction history alone,
  slashes included.
- **Slashing, exactly** (`Verdicts.SlashAcceptedExactly`, `Verdicts.SlashedExactly`). Only sealers of two blocks
  on one parent and signers of two conflicting votes are ever slashed, and nobody acts for another
  (`Verdicts.UnsignedUnharmed`): an innocent address that signs nothing never loses anything.
- **Irreversibility** (`ForkChoice.FinalityIsIrreversible`, `ForkChoice.BackstopNeverFires`).
- **Justification trails, exact history, conservation, no escape from unbonding, vesting over runs** for
  every reachable ledger; **restart equals live** and **exact block production** for the node; **exact
  flooding** for gossip.

## How to read it

| file | content |
|---|---|
| `Sums`, `Arithmetic` | finite sums over accounts, products and floor division |
| `Records` | transactions, blocks, evidence, digests and signatures, the two fault verifiers |
| `Vesting`, `Merkle`, `Election` | the pure pieces, and their loops as methods |
| `Ledger` | the ledger as one record: genesis, one block step, replay |
| `Runs`, `Conservation`, `Bookkeeping`, `Staking`, `History` | what holds in every run |
| `Justification`, `AccountableSafety`, `Liveness`, `VoteCount` | finality |
| `Verdicts` | who can be slashed, and who cannot be harmed |
| `Chain` | `ProofOfStakeChain` as an object, proved against `Ledger` |
| `ForkChoice`, `Convergence`, `Resilience` | the tree that always replays, its runs, two trees compared, and agreement under few faults |
| `BlockTree` | the tree as an object, proved against `ForkChoice` |
| `Mempool`, `NodeService`, `P2PNode`, `AutoVoter`, `Gossip` | the node |
| `Witness` | two replays in which comments of the source fail |

Conventions. Addresses and digests are numbers; equal-length lower-case hex digests compare like the
numbers they spell. Digests and signature checks are constants without a definition, so every theorem
holds for whichever functions they are; where collision-freeness is needed it is the explicit hypothesis
`CollisionFree()`. Any raised exception, of whatever class, is a rejection by the chain; where a caller
catches only one class, as the orphan buffer does, both outcomes are modelled. The block a chain keeps is
its `Content`, without the proposer's seal, because the seal is outside the block hash and no rule reads it
again; this is what lets two nodes that saw differently sealed twins of one block have equal ledgers. The
clock, the wallet's signature and the seal are parameters. A block step works on copies in the source and
commits at the end, so it is a function here; the objects that commit it are classes.

Where the code and its own comments disagree, the model follows the code:

- `auto_vote` says an honest voter cannot slash itself even across transient forks. It holds on a canonical
  chain that only grows (`AutoVoter.AutoVoterIsHonest`). Across a switch of branches it fails exactly when
  the new ledger clashes with an earlier vote: its target is higher and its finalized and justified
  checkpoints all lie below that vote's source, or its target is lower and one of them lies above
  (`AutoVoter.FaultExactly`, `AutoVoter.LifetimeHonestExactly`). `Witness.ReorgCanSurround` replays such a switch.
- vesting.py says a holder never falls below its lock. The fee of a vote or of a slash report escapes the
  check, and a slash takes locked coins. `Staking.LockKeptExactly` is the exact condition for every kind,
  `Staking.VoteFeeBreaksLock` for votes; `Witness.GranteeVotesBelowLock` replays a case and
  `Staking.VestingOverRuns` says what remains true over runs.
- `select` promises a block-ready, nonce-respecting, affordable list. Nonces and funds are always right, for
  all five kinds and all senders. It is block-ready if and only if the rules it does not simulate are met in
  turn (`Mempool.Rule`): locks, stake and the last validator, links, offenses, and a balance entry to debit.
  Transfers and stakes by senders without grants have no such rule; `Mempool.LoneSelection`,
  `Mempool.OverdrawnUnstakeSelected` and `Mempool.LockedTransferSelected` are the failing families.
- The orphan buffer is drained only by newly accepted block messages. A block the node produced itself
  strands exactly the children waiting for it (`P2PNode.InsertionStrandsExactly`), and no later block message
  frees them (`P2PNode.P2PNode.ApplyOrBuffer`).

## Model

| member | source | states |
|---|---|---|
| `AccountableSafety.ConflictingFinalityIsAccountable` | consensus.py:344-400 | two static-validator chains of one genesis whose finalized checkpoints are not ancestors of each other convict voters with at least a third of the genesis stake, each by two included votes the fault verifier accepts |
| `AccountableSafety.ReplaySafety` | consensus.py:385-400 | in every static run each counted vote is an included transaction, each justified checkpoint but genesis has a two-thirds link from a justified one, and the finalized one a two-thirds link to its direct epoch child |
| `AccountableSafety.FaultyLinksConvict` | consensus.py:542-546 | two links that double or surround, each with two thirds of the stake behind it, convict a third |
| `AccountableSafety.SameHeightConvicts` | consensus.py:542-542 | two different justified checkpoints at one height convict a third |
| `AccountableSafety.Crossing` | consensus.py:364-397 | above any height a justified checkpoint descends through a two-thirds link that crosses that height |
| `Liveness.PlausibleLiveness` | consensus.py:344-400 | from any ledger of transfers and votes and for any epoch boundary above it, two included rounds of automatic votes by two thirds of the stake finalize the checkpoint there, and every fault among the chain's votes was there before |
| `Liveness.VoteRound` | consensus.py:381-400 | one round of free votes for one link by two thirds of the stake is accepted whole, justifies the target, and finalizes the source when the target is its direct epoch child |
| `Liveness.LogLawful` | consensus.py:355-377 | in every reachable ledger each included vote has a justified source at its claimed height and a target on the chain |
| `Liveness.VotersEmit` | p2p.py:143-161 | once a chain has passed an epoch boundary quietly, every validator's automatic vote is for that boundary |
| `Resilience.FewFaultyConverge` | forkchoice.py:85-175 | with an unchanging validator set and provably faulty voters below a third of the stake, two trees that hear one block set, each valid branch from root to tip in whatever twins, agree on frontier, head and canonical ledger, whatever the branches finalized |
| `Resilience.FewFaultyOneLine` | forkchoice.py:33-39 | under the same bound the finalized checkpoints of all valid branches lie on one line |
| `Justification.ReplayAnchored` | consensus.py:288-295 | in every reachable ledger recorded checkpoints lie on the chain at epoch heights, and the finalized one is justified and on the chain |
| `Justification.FinalityMonotone` | consensus.py:396-400 | along a run nothing is un-justified and the finalized height never falls |
| `Justification.JustificationTrail` | consensus.py:352-400 | every justified checkpoint has a trail to genesis, each step justified inside one block by a link whose source strictly earlier blocks had justified, with votes of at least two thirds of the source's stake, slashed addresses left out of both sides, at that moment |
| `VoteCount.StepJustifies` | consensus.py:381-400 | after each transaction of every run exactly the target of a vote that brought the non-slashed votes in the history to two thirds of the non-slashed stake found at the source is newly justified, and the source finalized when one epoch below and higher than before |
| `VoteCount.JustifiedByHistory` | consensus.py:381-397 | every justified checkpoint but genesis has such a vote in the history |
| `VoteCount.VoteJustifiesExactly` | consensus.py:389-400 | in any state an accepted vote justifies and finalizes exactly when that count is reached, and nothing else ever does |
| `VoteCount.VoteAcceptedExactly` | consensus.py:344-384 | at any point of a block a vote is accepted if and only if it links two checkpoints of this chain upwards from one the parent had justified, its voter had stake there, was never slashed, cast no other link for that height and can pay |
| `Justification.LinkOnChain` | consensus.py:355-363 | both ends of such a link are checkpoints of that very chain, source below target |
| `History.HistoryRecorded` | consensus.py:368-443 | in every reachable ledger nonces, slashed offenses, slashed addresses and counted votes are exactly those of the transaction history, and every transaction follows its predecessors lawfully |
| `History.NonceUsedOnce` | core.py:379-382 | a sender's nonces strictly rise along any chain, so nothing is applied twice |
| `History.SlashedOnce` | consensus.py:416-442 | one offense is slashed once per history, and who was slashed never votes again |
| `History.EvidenceOrderIrrelevant` | consensus.py:486-548 | exchanging the two pieces of evidence proves the same offense |
| `Verdicts.VerdictExactly` | consensus.py:486-548 | evidence convicts an address of an offense if and only if it shows two different sealed blocks of his on one parent at one height, or two signed votes of his for one height with different ends or one spanning the other |
| `Verdicts.SlashAcceptedExactly` | consensus.py:402-442 | a slash is accepted if and only if its evidence proves an offense not yet slashed, there is a treasury and the reporter can pay; then exactly the offender is barred and loses everything bonded |
| `Verdicts.SlashedExactly` | consensus.py:424-430 | the slashed addresses of every reachable ledger are exactly those whom included evidence proves guilty, so nobody innocent is among them |
| `Verdicts.OffenseBinds` | consensus.py:547-548 | one recorded vote offense stands for one pair of votes |
| `Verdicts.RefusedVoteConvicts` | consensus.py:373-377 | a vote that the one-vote rule keeps out proves, with an earlier vote of the chain, a fault of its signer |
| `Verdicts.LogSigned` | core.py:220-241 | every transaction of every chain is signed by its sender and has the shape of its kind |
| `Verdicts.UnsignedUnharmed` | core.py:371-383 | while an innocent address signs nothing its holding never falls and its stake and nonce stay, whatever anybody includes |
| `History.NoDoubleVoteOnChain` | consensus.py:373-377 | no chain includes two votes of one voter that double |
| `History.SnapshotsFaithful` | consensus.py:293-295 | the snapshot of each checkpoint is the stake its block found, before its own transactions |
| `Bookkeeping.TxMoves` | consensus.py:297-342 | each kind moves exactly its flow between the three pools, for every address and any aliasing of the parties, and advances only the sender's nonce |
| `Bookkeeping.SlashMoves` | consensus.py:424-443 | a slash empties the offender's bond, a twentieth to the reporter unless he is the offender, the rest to the treasury |
| `Bookkeeping.BlockReleasesDue` | consensus.py:271-286 | a block releases exactly the withdrawals due at its height, to their owner |
| `Conservation.GenesisConserves` | consensus.py:111-121 | genesis holds exactly the maximum supply with nothing negative |
| `Conservation.MatureConserves` | consensus.py:274-286 | maturation keeps the supply |
| `Conservation.TxConserves` | consensus.py:297-342 | every accepted transaction of every kind keeps liquid plus staked plus unbonding |
| `Conservation.SlashConserves` | consensus.py:424-443 | a slash redistributes and burns nothing, under any aliasing |
| `Conservation.TxSolvent` | consensus.py:300-342 | no accepted valid transaction leaves a negative balance, a stake that is not positive or an empty withdrawal |
| `Conservation.SupplyCheckNeverRejects` | consensus.py:265-269 | the supply check never rejects a block whose transactions passed |
| `Conservation.ReplayBalanced` | core.py:357-389 | every reachable ledger holds exactly the maximum supply and nothing negative |
| `Conservation.AcceptedUnlessRunFails` | core.py:357-389 | a block after any run is accepted if and only if its header and its transactions are |
| `Conservation.AcceptedExactly` | core.py:357-389 | after any run a block is accepted if and only if it links to the last one, sits one above, commits to its transactions, was sealed by the validator elected for it, and its run passes |
| `Staking.ValidatorSetNeverDies` | consensus.py:308-329 | without slashes every recorded stake stays positive and every seed elects a proposer |
| `Staking.SlashEmptiesExactly` | consensus.py:428-431 | a slash empties the validator set if and only if nobody but the offender was in it |
| `Staking.NoEscapeFromUnbonding` | consensus.py:308-329 | stake held at height h is still bonded while transactions run in any block up to h plus the unbonding window, whatever its owner did, unless slashed |
| `Staking.SlashConfiscatesAll` | consensus.py:428-440 | a slash leaves nothing bonded and turns exactly the bond liquid |
| `Staking.WithdrawalsAreTimely` | consensus.py:271-286 | in every reachable ledger a withdrawal waits exactly the unbonding window |
| `Staking.VestingOverRuns` | consensus.py:445-457 | an unslashed grantee who votes and reports at zero fee holds at least its lock at every height of every run |
| `Staking.LockKeptExactly` | consensus.py:330-342 | an accepted transaction keeps an address's lock if and only if its holding plus the net flow covers it |
| `Staking.LockedExactly` | consensus.py:445-451 | of a grant exactly the units whose release height lies above the current height are locked |
| `Staking.SenderCoversGrant` | consensus.py:330-342 | in every run, after each transfer, stake or unstake of a grantee, it holds at least what is not released at the height of that block |
| `Staking.VoteFeeBreaksLock` | consensus.py:333-335 | in any state an accepted vote by a grantee in another's block breaks its lock if and only if the fee exceeds what it holds beyond the lock |
| `Witness.GranteeVotesBelowLock` | consensus.py:333-335 | a replay in which a grantee's first vote is accepted and leaves it below its lock, for every genesis and fee of that shape |
| `Witness.LeakGenesis` | consensus.py:101-157 | a genesis of that shape exists: ten coins, all locked, one staked |
| `Vesting.VestedBounds` | vesting.py:21-29 | what is released lies between nothing and the grant |
| `Vesting.VestedMonotone` | vesting.py:21-29 | what is released is never locked again |
| `Vesting.ReleasedFrom` | vesting.py:21-29 | v units of a grant are released at exactly the heights from one on, the later of the cliff and the first height at which the line through start and end reaches v |
| `Merkle.ComputeMerkleRoot` | core.py:247-255 | the layer loop computes the recursive root |
| `Merkle.MerkleBinding` | core.py:247-255 | two duplicate-free transaction lists of any lengths with one root are equal |
| `Merkle.BlockHashBindsTransactions` | core.py:362-376 | a block hash fixes the transactions of a block that passed the Merkle and duplicate checks |
| `Merkle.DuplicateKeepsRoot` | core.py:251-253 | repeating the last of an odd list keeps the root, so the duplicate check is needed |
| `Election.ElectValidator` | consensus.py:85-97 | the cumulative loop finds the proposer of the interval reading and never reaches its fallback |
| `Election.ElectionExists` | consensus.py:87-90 | a proposer is elected if and only if somebody has stake |
| `Election.ElectedHasStake` | consensus.py:87-96 | the elected proposer has positive stake |
| `Election.ElectedExactly` | consensus.py:85-97 | laid end to end by address, the stakes cover the seed's remainder at exactly the elected one's stretch |
| `Election.ProportionalElection` | consensus.py:91-96 | over one full round of picks each address is elected exactly as often as its stake |
| `Election.ElectionFrequency` | consensus.py:85-97 | over n consecutive seeds the count lies between floor(n/total) and one more times the stake |
| `Runs.ReplayChain` | core.py:351-361 | a replayed chain is genesis and the block contents, linked by hash, each at its own index |
| `Runs.SealedByElected` | consensus.py:225-235 | every block of every replay was sealed by the validator elected from the stake before it for its own seed, and commits to its transactions |
| `Runs.OneProposer` | consensus.py:225-228 | two blocks accepted on one ledger have one proposer |
| `Runs.BlockStep` | core.py:371-383 | the next transaction of a block passes if and only if those before did, it is signed and well shaped, at its sender's next nonce, none of those before, and applies at this height for this proposer |
| `Chain.MatureUnbonding` | consensus.py:274-286 | the maturation loop, in any order of the dictionary, gives the matured accounts |
| `Chain.SplitQueue` | consensus.py:276-282 | one queue splits into what is kept and what is released |
| `Chain.SumValues` | core.py:303-303 | summing a dictionary in any order gives its total |
| `Chain.CheckAllocations` | core.py:301-309 | true exactly for non-negative allocations of the whole supply |
| `Chain.BootstrapStakes` | consensus.py:114-121 | the loop, in any order, succeeds exactly when every initial stake is positive and covered, and moves exactly the stakes out of the balances |
| `Chain.CheckGrants` | consensus.py:125-131 | the loop, in any order, accepts exactly well-formed grants within what their holder has, staked or not |
| `Chain.ProofOfStakeChain.Create` | consensus.py:101-158 | the checks and loops of both constructors give the genesis ledger, and refuse exactly the arguments it refuses |
| `Chain.ProofOfStakeChain.CheckHeader` | core.py:358-364 | true exactly for a linked, sequential, correctly rooted block that the elected validator sealed, all spelled out |
| `Chain.ProofOfStakeChain.Prepare` | consensus.py:271-295 | the working copy after maturation and epoch snapshot |
| `Chain.ProofOfStakeChain.RunTransactions` | core.py:371-383 | the transaction loop on the working copy |
| `Chain.ProofOfStakeChain.SubmitBlock` | core.py:351-389 | all or nothing: the whole new state on success, the untouched old one otherwise, and always otherwise when the proposer is not the elected one |
| `ForkChoice.Acceptance` | forkchoice.py:97-127 | an accepted block extends a stored branch, replays from genesis and contains the frontier |
| `ForkChoice.AddKeepsValid` | forkchoice.py:124-142 | an accepted block keeps the tree's invariant: every stored branch replays, ancestors are stored, the frontier is a stored block at least as high as any branch finalized |
| `ForkChoice.AddedExactly` | forkchoice.py:85-127 | a block gets in if and only if it is new, its branch replays and contains the frontier block, and it is the trusted block if it reaches the trusted height |
| `ForkChoice.AddMovesFrontier` | forkchoice.py:129-142 | the frontier moves only to its own descendants on the new branch |
| `ForkChoice.BackstopNeverFires` | forkchoice.py:132-141 | an accepted branch holds the old frontier block at its height, so conflicting finality is never raised |
| `ForkChoice.WeightGrows` | forkchoice.py:116-127 | weights strictly increase along every branch |
| `ForkChoice.WeightStep` | forkchoice.py:116-127 | a block adds what its proposer had staked before it |
| `Resilience.StaticWeight` | forkchoice.py:116-127 | with an unchanging validator set a branch weighs the sum over validators of stake times blocks proposed |
| `ForkChoice.HeadUnique` | forkchoice.py:153-156 | there is at most one best block above the frontier |
| `ForkChoice.HeadIsHeaviest` | forkchoice.py:153-172 | a block is the head if and only if it is above the frontier and none there is heavier, or as heavy with a smaller hash |
| `ForkChoice.HeadExists` | forkchoice.py:166-172 | every valid tree has a best block above the frontier |
| `ForkChoice.HeadExtension` | forkchoice.py:144-148 | a block on the head is the new best, whether or not it moved the frontier |
| `ForkChoice.FreshOnHead` | forkchoice.py:85-96 | a block built on the head is never already known |
| `ForkChoice.AddedOnHead` | forkchoice.py:97-127 | on the head a new block is added if and only if it meets the trusted checkpoint and the chain accepts it: the finality rules never refuse there |
| `ForkChoice.RunGrew` | forkchoice.py:129-142 | along any run of attempts nothing stored is lost and the frontier only moves to descendants |
| `ForkChoice.FinalityIsIrreversible` | forkchoice.py:97-108 | once a block is the frontier every later canonical chain holds it at its height |
| `Convergence.SameTipSameContent` | core.py:285-286 | one block hash fixes a whole branch, up to seals |
| `Convergence.RunStoredValid` | forkchoice.py:106-108 | everything a run stores is a valid branch that meets the trusted checkpoint, and one of them finalized the frontier |
| `Convergence.TrustedBlockHeld` | forkchoice.py:106-108 | in every run each stored branch that reaches the trusted height holds the trusted block there |
| `Convergence.BranchComplete` | forkchoice.py:85-127 | a valid branch that contains every frontier of a run is stored whole, each block by the time it or a good twin came, whatever else comes before or after |
| `Convergence.SameFrontier` | forkchoice.py:129-142 | both trees raise their frontier to the same block |
| `Convergence.TreesConverge` | forkchoice.py:85-175 | same frontier, head and canonical ledger for any two orders of one block set whose finalized checkpoints lie on one line, when each valid branch arrives from root to tip, in whatever twins |
| `Convergence.ParentFirstHears` | p2p.py:204-208 | every order in which a good twin of the parent precedes each child is such an order |
| `Convergence.LateTwinAdmitted` | p2p.py:204-208 | a re-sealed or forged twin of the parent that arrives after the child is allowed |
| `BlockTree.BlockTree.Create` | forkchoice.py:43-62 | a fresh tree holds genesis alone |
| `BlockTree.BlockTree.ChainAt` | forkchoice.py:69-82 | the walk and replay succeed for exactly the stored blocks and give the branch's ledger |
| `BlockTree.BlockTree.DescendsFromFinalized` | forkchoice.py:158-164 | the walk down decides whether the frontier lies on the branch |
| `BlockTree.BlockTree.BetterThan` | forkchoice.py:153-156 | the dictionary comparison decides heavier, then smaller hash |
| `BlockTree.BlockTree.FindBest` | forkchoice.py:166-172 | the scan, in any order, finds the unique best block above the frontier |
| `BlockTree.BlockTree.UpdateHead` | forkchoice.py:166-175 | the head becomes the best block and the canonical chain its replay |
| `BlockTree.BlockTree.CheckGuards` | forkchoice.py:97-108 | the two finality guards and the trusted checkpoint, decided as the simple tree decides them |
| `BlockTree.BlockTree.AddBlock` | forkchoice.py:85-151 | fast path and slow path both take the replaying tree's step, the head stays the unique best, canonical is its replay, and a refused or known block changes nothing |
| `Mempool.AdmitKeepsPool` | mempool.py:64-80 | admission keeps the pool valid, duplicate-free and bounded, and evicts only what pays less |
| `Mempool.AdmittedExactly` | mempool.py:64-80 | a valid transaction neither spent nor known is admitted if and only if there is room or it pays more than somebody in the pool; a full pool loses exactly the first of its cheapest |
| `Mempool.AdmitKeepsUnspent` | mempool.py:70-71 | admission never lets in a spent nonce |
| `Mempool.SortOrdered` | mempool.py:91-91 | the per-sender sort orders by nonce |
| `Mempool.SortElements` | mempool.py:91-91 | the per-sender sort is a permutation |
| `Mempool.SelectionAcceptedExactly` | mempool.py:82-123 | for every valid pool, all five kinds and any senders, the selected list as the next block of the same chain is accepted if and only if each transaction's own rule is met in turn; validity, duplicates, nonces and funds never reject it |
| `Mempool.AppliedExactly` | consensus.py:297-342 | a valid transaction of any kind is applied if and only if the simulated cost is covered and its rule is met |
| `Mempool.OthersNotPoorer` | consensus.py:297-342 | nobody's liquid balance or nonce is lowered by another's accepted transaction |
| `Mempool.SelectionAccepted` | mempool.py:82-123 | transfers and stakes by senders without grants have no rule to break, so such selections are always accepted |
| `Mempool.LoneSelection` | mempool.py:96-104 | on any reachable ledger a lone affordable transaction at the next nonce is selected, and accepted if and only if its rule is met |
| `Mempool.SelectionFollowsRuns` | mempool.py:108-122 | each sender's share of the selection is a prefix of its affordable run |
| `Mempool.RunIsLongest` | mempool.py:92-104 | a sender's run is the longest beginning of its transactions, in nonce order, that follows from its nonce and can be paid for one after the other |
| `Mempool.SelectionShares` | mempool.py:82-123 | each sender's share of a selection is such a beginning, and the longest when the limit was not reached |
| `Mempool.RunnableAccepted` | core.py:371-409 | lists affordable sender by sender in isolation pass the block's loop in any merge if and only if the rules are met in turn |
| `Mempool.CostMirrorsChain` | mempool.py:39-54 | for every kind the chain accepts only what the simulation affords and leaves the sender at least the simulated balance |
| `Mempool.OverdrawnUnstakeSelected` | mempool.py:50-53 | on any reachable ledger an unstake of more than is staked is selected and refused |
| `Mempool.LockedTransferSelected` | mempool.py:54-54 | on any reachable ledger a grantee's affordable transfer that would leave it below its lock is selected and refused |
| `Mempool.StillPendingValid` | mempool.py:125-131 | update keeps exactly the unspent transactions |
| `Mempool.StillPendingSplits` | mempool.py:125-131 | update decides on each transaction by itself and keeps the order |
| `Mempool.BuildRun` | mempool.py:92-104 | the affordability loop gives the contiguous affordable run, and no longer one exists |
| `Mempool.BestHead` | mempool.py:112-118 | the scan finds a sender whose next transaction pays most, or none is left |
| `Mempool.FindCheapest` | mempool.py:75-75 | the scan finds the first of the cheapest |
| `Mempool.Mempool.Add` | mempool.py:64-80 | the checks, look-up, scan and eviction leave exactly the admitted, evicted or untouched pool |
| `Mempool.Mempool.Select` | mempool.py:82-123 | every position holds a maximal fee among the senders' next transactions, and below the limit every sender's share is the longest that follows from its nonce and can be paid for |
| `Mempool.Mempool.Update` | mempool.py:125-131 | spent transactions are dropped, the rest stays in order |
| `NodeService.NodeService.Boot` | node.py:38-54 | booting folds add_block over the log and fails exactly when one logged block is refused |
| `NodeService.NodeService.Restart` | node.py:47-51 | booting from a live node's log rebuilds its dictionaries, frontier, head and canonical ledger |
| `NodeService.NodeService.ReceiveBlock` | node.py:120-126 | exactly the newly accepted blocks are appended, the tree stays the fold of the log, and only then the pool drops what was consumed |
| `NodeService.NodeService.Propose` | node.py:107-114 | a block is proposed if and only if the validator is the elected one; it is the next block on the head with its root and a fee-ordered selection that leaves out nothing affordable below the limit |
| `NodeService.NodeService.ProduceBlock` | node.py:107-118 | in turn, production succeeds if and only if the seal is good, the trusted checkpoint is met and the selected transactions meet their rules; the block is then new, the head, logged, and the pool is what is still pending; a refusal changes nothing |
| `NodeService.ProposalAdded` | node.py:112-115 | the tree adds a proposal made in turn on the head exactly under those conditions |
| `AutoVoter.ChooseVote` | p2p.py:143-161 | the two scans choose the link from the highest justified checkpoint to the latest checkpoint |
| `AutoVoter.SourceHighest` | p2p.py:154-159 | the source is the finalized checkpoint or a justified one below the target, and no candidate is higher |
| `AutoVoter.VotesExactlyWhen` | p2p.py:143-161 | on every reachable ledger it votes if and only if it has stake and has not voted for the latest epoch boundary, which is above genesis and finality; then for that boundary, from the highest finalized or justified checkpoint below it |
| `AutoVoter.AutoVoterIsHonest` | p2p.py:136-169 | for any interleaving of calls with growth of one canonical chain no two emitted votes form an accepted fault |
| `AutoVoter.VoteClashesExactly` | p2p.py:136-161 | on any ledger, after any remembered vote, the next vote never doubles it, and surrounds it if and only if the ledger clashes with it |
| `AutoVoter.FaultExactly` | p2p.py:136-169 | for any calls on any ledgers two votes convict the voter if and only if the later call's ledger clashes with the earlier vote |
| `AutoVoter.LifetimeHonestExactly` | p2p.py:136-169 | a lifetime is free of accepted faults if and only if no call voted on a ledger that clashes with an earlier vote |
| `AutoVoter.EmittedVoteAccepted` | consensus.py:352-377 | at any point of the next block of the ledger it was chosen on, the emitted link is accepted if and only if the voter had stake at the source, is not slashed, and has no other link on record for that target |
| `Witness.ReorgCanSurround` | p2p.py:139-141 | replays of one genesis: after an included vote and a second one on its branch, the switch to a heavier branch makes the voter surround its own vote |
| `Witness.SoleValidatorExists` | consensus.py:101-157 | a genesis for that replay exists |
| `P2PNode.P2PNode.Offer` | p2p.py:253-257 | a block handed over takes the tree's step; log and pool follow exactly when it was new and good |
| `P2PNode.P2PNode.Drain` | p2p.py:261-270 | the recursion ends; it takes out exactly the queues of the given and of newly stored parents, offers them, and without a stray exception offers every block it took out; tree and log are the fold of what was offered |
| `P2PNode.P2PNode.ApplyKnown` | p2p.py:253-259 | a message with a known parent is offered first, then exactly those who waited for what it newly stores; tree and log are the fold of these offers |
| `P2PNode.P2PNode.ApplyOrBuffer` | p2p.py:245-259 | a block message with an unknown parent is only buffered, with room; any other is applied with everybody waiting for it; nobody is stranded and nobody stranded is freed |
| `P2PNode.NothingLost` | p2p.py:261-270 | without a stray exception every waiting block still waits or was offered |
| `P2PNode.BallotFollows` | p2p.py:162-165 | behind pending transactions that are all in turn the ballot is in turn too, so selection can take them all |
| `P2PNode.InsertionStrandsExactly` | p2p.py:113-118 | an insertion outside block messages strands exactly the blocks that wait for it |
| `P2PNode.P2PNode.AutoVote` | p2p.py:136-169 | the ballot is the chosen link at the nonce behind the sender's pending transactions; it is in the pool and its target remembered unless there was no link or the pool refused |
| `Gossip.Node.Connect` | network.py:102-106 | both nodes list each other once, earlier peers stay in order |
| `Gossip.Node.RecvTx` | network.py:112-123 | the recursion ends, marks within any region admitting nodes keep it in, and each node processes at most once |
| `Gossip.Node.BroadcastTx` | network.py:109-123 | an unseen transaction arrives at exactly the nodes connected to the origin through admitting nodes, each of which processes it once |

## Left out

- Cryptography: ECDSA, SHA-256, address encoding, keystore; digests and signature checks are uninterpreted.
- JSON and wire codecs: evidence and messages are already decoded; an evidence text is one of the kinds in `Records.Evidence`, so a text that carries the fields of several kinds at once, or a link with heights that are not integers, is not modelled.
- Storage: the log is a sequence; files, fsync and partial lines are not part of this model.
- Transport: servers, sockets, threads, peer discovery, sync paging, relaying to remote peers, eviction of remembered ids.
- Block gossip between in-process nodes (network.py:126-149): the same recursion as for transactions, with block validation in place of admission.
- Read-only queries such as spendable balances: one-line arithmetic over the ledger.
- Accountable safety under a changing validator set: quorums are measured on per-branch snapshots and the code has no rule that joins them, so the theorem is stated for runs of transfers and votes.
- Wallets, tokenomics, launch scripts and test programs.
