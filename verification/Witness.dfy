/** Replays in which two promises of the source's comments fail: the automatic voter surrounds its own vote
    after a switch of branches, and a voter's fee takes it below its lock. Keys and hashes stay
    uninterpreted, so that blocks are sealed and ballots signed are hypotheses. */
module Witness {
  import opened Sums
  import opened Records
  import opened Vesting
  import opened Merkle
  import opened Election
  import opened Ledger
  import opened Conservation
  import opened Runs
  import opened Justification
  import opened History
  import opened Bookkeeping
  import opened Staking
  import opened ForkChoice
  import opened AutoVoter

  // -- building a replay ---------------------------------------------------------------------

  /** v built and sealed b on parent. */
  predicate BuiltOn(parent: Block, v: Address, b: Block) {
    && b.header.previousHash == BlockHash(parent) && b.header.index == parent.header.index + 1
    && b.header.merkleRoot == MerkleRoot(TxIds(b.txs))
    && b.header.validator == v && SealAuthentic(b)
  }

  /** The only validator is elected for every seed. */
  lemma SoleElected(stakes: map<Address, int>, v: Address, seed: nat)
    requires stakes.Keys == {v} && 0 < stakes[v]
    ensures Elect(stakes, seed) == Some(v)
  {
    hide Elect;
    assert v in Active(stakes);
    ElectionExists(stakes, seed);
    ElectedHasStake(stakes, seed);
  }

  lemma SoleBlockAccepted(l: Ledger, v: Address, b: Block)
    requires l.chain != [] && BuiltOn(Head(l), v, b)
    requires l.state.accounts.stakes.Keys == {v} && 0 < l.state.accounts.stakes[v]
    ensures HeaderAccepted(l, b)
  {
    hide Elect;
    hide MerkleRoot;
    SoleElected(l.state.accounts.stakes, v, Seed(b.header.previousHash, b.header.index));
  }

  lemma MatureNothing(acc: Accounts, height: int)
    requires acc.unbonding == map[]
    ensures Mature(acc, height) == acc
  {
    assert MaturedBalances(acc, height) == acc.balances;
  }

  /** A block without transactions only matures and takes the snapshot. */
  lemma EmptyBlock(g: GenesisArgs, blocks: seq<Block>, b: Block)
    requires Replay(g, blocks).Ok? && b.txs == []
    requires HeaderAccepted(LedgerAt(g, blocks), b)
    ensures Replay(g, blocks + [b]).Ok?
    ensures LedgerAt(g, blocks + [b]).state == BeginBlock(g.params, LedgerAt(g, blocks).state, b)
    ensures LedgerAt(g, blocks + [b]).chain == LedgerAt(g, blocks).chain + [Content(b)]
  {
    hide HeaderAccepted;
    hide BeginBlock;
    hide Supply;
    hide Replay;
    AcceptedUnlessRunFails(g, blocks, b);
    ReplayStep(g, blocks, b);
  }

  /** Without withdrawals it changes no account and justifies nothing. */
  lemma QuietBlock(p: Params, st: State, b: Block)
    requires p.epoch != 0 && st.accounts.unbonding == map[]
    ensures var next := BeginBlock(p, st, b);
            && next.accounts == st.accounts && next.slashedAddrs == st.slashedAddrs
            && next.ffg.justified == st.ffg.justified && next.ffg.finalized == st.ffg.finalized
            && next.ffg.seenTarget == st.ffg.seenTarget && next.ffg.votes == st.ffg.votes
  {
    hide Mature;
    MatureNothing(st.accounts, b.header.index);
  }

  lemma GenesisStakes(g: GenesisArgs)
    ensures GenesisAccounts(g).stakes == g.initialStakes && GenesisAccounts(g).unbonding == map[]
  {
  }

  /** Nothing but blocks has happened since genesis. */
  ghost predicate Untouched(g: GenesisArgs, l: Ledger) {
    && l.chain != []
    && l.state.accounts == GenesisAccounts(g) && l.state.slashedAddrs == {}
    && l.state.ffg.justified == {GenesisHash(g)} && l.state.ffg.finalized == Checkpoint(GenesisHash(g), 0)
    && l.state.ffg.seenTarget == map[] && l.state.ffg.votes == map[]
  }

  lemma GenesisUntouched(g: GenesisArgs)
    requires Genesis(g).Ok?
    ensures Replay(g, []) == Genesis(g) && Untouched(g, LedgerAt(g, []))
    ensures LedgerAt(g, []).chain == [GenesisBlock(g.timestamp)]
  {
    hide GenesisAccounts;
  }

  lemma StaysUntouched(g: GenesisArgs, blocks: seq<Block>, b: Block)
    requires Replay(g, blocks).Ok? && Untouched(g, LedgerAt(g, blocks)) && b.txs == []
    requires HeaderAccepted(LedgerAt(g, blocks), b)
    ensures Replay(g, blocks + [b]).Ok? && Untouched(g, LedgerAt(g, blocks + [b]))
    ensures LedgerAt(g, blocks + [b]).chain == LedgerAt(g, blocks).chain + [Content(b)]
  {
    hide Replay;
    hide HeaderAccepted;
    hide BeginBlock;
    EmptyBlock(g, blocks, b);
    QuietBlock(g.params, LedgerAt(g, blocks).state, b);
  }

  // -- the vote on an untouched chain ------------------------------------------------------------

  lemma TipIsTarget(chain: seq<Block>)
    requires chain != [] && 0 < chain[|chain| - 1].header.index
    ensures TargetIn(chain, 1) == Some(|chain| - 1)
  {
  }

  /** Where only genesis is justified the voter's source is genesis. */
  lemma UntouchedSource(g: GenesisArgs, blocks: seq<Block>, target: int)
    requires CollisionFree() && Replay(g, blocks).Ok? && Untouched(g, LedgerAt(g, blocks))
    ensures SourceIn(LedgerAt(g, blocks).chain, LedgerAt(g, blocks), 1, target) == Checkpoint(GenesisHash(g), 0)
  {
    hide Replay;
    hide SourceIn;
    var l := LedgerAt(g, blocks);
    SourceHighest(l.chain, l, 1, target);
    ReplayChain(g, blocks);
  }

  /** On an untouched chain of one-block epochs a validator votes from genesis to the tip. */
  lemma UntouchedVote(g: GenesisArgs, blocks: seq<Block>, v: Address, voted: set<int>)
    requires CollisionFree() && Replay(g, blocks).Ok? && Untouched(g, LedgerAt(g, blocks))
    requires g.params.epoch == 1 && blocks != [] && v in g.initialStakes && |blocks| !in voted
    ensures VoteFor(LedgerAt(g, blocks), 1, v, voted)
         == Some(Link(GenesisHash(g), 0, BlockHash(blocks[|blocks| - 1]), |blocks|))
  {
    hide Replay;
    hide SourceIn;
    hide CollisionFree;
    var l := LedgerAt(g, blocks);
    ReplayChain(g, blocks);
    TipIsTarget(l.chain);
    UntouchedSource(g, blocks, |blocks|);
    assert l.chain[|blocks|] == Content(blocks[|blocks| - 1]);
  }

  /** v's first ballot, for the vote from genesis to the first block. */
  ghost predicate FirstBallot(g: GenesisArgs, v: Address, a: Block, vote: Tx) {
    && TxValid(vote) && vote.recipient.VoteSentinel? && vote.sender == v && vote.nonce == 0
    && vote.evidence == VoteLink(Link(GenesisHash(g), 0, BlockHash(a), 1))
    && vote.fee <= Get(GenesisAccounts(g).balances, v)
  }

  /** v can be debited and has cast nothing yet. */
  lemma StakerAccount(g: GenesisArgs, v: Address)
    requires Genesis(g).Ok? && v in g.initialStakes
    ensures v in GenesisAccounts(g).balances && Get(GenesisAccounts(g).nonces, v) == 0
    ensures 0 < Get(g.initialStakes, v)
  {
    hide ValidAllocations;
    hide ValidVesting;
  }

  /** The chain accepts that ballot in the second block. */
  lemma FirstVoteApplies(g: GenesisArgs, v: Address, a: Block, b: Block, vote: Tx)
    requires CollisionFree() && Genesis(g).Ok? && g.params.epoch == 1 && v in g.initialStakes
    requires Replay(g, [a]).Ok? && Untouched(g, LedgerAt(g, [a]))
    requires b.header.index == 2 && b.txs == [vote] && FirstBallot(g, v, a, vote)
    ensures var l := LedgerAt(g, [a]);
            var start := BeginBlock(g.params, l.state, b);
            && LinkAccepted(g.params, ContextOf(l, b), start, v, vote.evidence.link)
            && ApplyTx(g.params, ContextOf(l, b), start, vote).Ok?
            && RunBlock(g.params, l, b) == ApplyTx(g.params, ContextOf(l, b), start, vote)
  {
    hide Replay;
    hide BeginBlock;
    hide VoteFor;
    hide CollisionFree;
    hide Genesis;
    hide GenesisAccounts;
    hide LinkAccepted;
    hide CountVote;
    hide TxValid;
    var l := LedgerAt(g, [a]);
    var ctx, start := ContextOf(l, b), BeginBlock(g.params, l.state, b);
    StakerAccount(g, v);
    GenesisStakes(g);
    QuietBlock(g.params, l.state, b);
    UntouchedVote(g, [a], v, {});
    assert RunPrefix(g.params, l, b, 0) == Ok(start);
    EmittedVoteAccepted(g, [a], v, {}, b, 0);
    assert TxAdmissible(start, vote, {});
    assert b.txs[1..] == [];
    assert RunBlock(g.params, l, b) == ApplyFirst(g.params, ctx, start, b.txs, {});
  }

  lemma FirstVoteReplays(g: GenesisArgs, v: Address, a: Block, b: Block, vote: Tx)
    requires CollisionFree() && Genesis(g).Ok? && g.params.epoch == 1 && v in g.initialStakes
    requires Replay(g, [a]).Ok? && Untouched(g, LedgerAt(g, [a])) && HeaderAccepted(LedgerAt(g, [a]), b)
    requires b.txs == [vote] && FirstBallot(g, v, a, vote)
    ensures Replay(g, [a, b]).Ok?
    ensures var l := LedgerAt(g, [a]);
            Ok(LedgerAt(g, [a, b]).state)
            == ApplyTx(g.params, ContextOf(l, b), BeginBlock(g.params, l.state, b), vote)
  {
    hide Replay;
    hide BeginBlock;
    hide ApplyTx;
    hide CollisionFree;
    hide Genesis;
    hide HeaderAccepted;
    hide RunBlock;
    hide FirstBallot;
    hide Supply;
    hide Untouched;
    hide LinkAccepted;
    NextHeight(g, [a], b);
    FirstVoteApplies(g, v, a, b, vote);
    AcceptedUnlessRunFails(g, [a], b);
    ReplayStep(g, [a], b);
    assert [a] + [b] == [a, b];
  }

  // -- a switch of branches ----------------------------------------------------------------------

  /** A genesis with one validator and a checkpoint at every block. */
  ghost predicate SoleValidator(g: GenesisArgs, v: Address) {
    Genesis(g).Ok? && g.params.epoch == 1 && g.initialStakes.Keys == {v}
  }

  lemma SoleValidatorExists(v: Address) returns (g: GenesisArgs)
    ensures SoleValidator(g, v)
  {
    hide Sum;
    var none: map<Address, int> := map[];
    var all := none[v := MAX_SUPPLY_UNITS];
    TotalUpdate(none, v, MAX_SUPPLY_UNITS);
    EmptyTotal();
    g := GenesisArgs(all, map[v := 1], 0, Params(map[], 0, None, 1));
  }

  lemma UntouchedGrows(g: GenesisArgs, v: Address, blocks: seq<Block>, b: Block)
    requires SoleValidator(g, v) && Replay(g, blocks).Ok? && Untouched(g, LedgerAt(g, blocks))
    requires b.txs == [] && BuiltOn(Head(LedgerAt(g, blocks)), v, b)
    ensures Replay(g, blocks + [b]).Ok? && Untouched(g, LedgerAt(g, blocks + [b]))
    ensures Head(LedgerAt(g, blocks + [b])) == Content(b)
  {
    hide Replay;
    hide BuiltOn;
    hide HeaderAccepted;
    StakerAccount(g, v);
    SoleBlockAccepted(LedgerAt(g, blocks), v, b);
    StaysUntouched(g, blocks, b);
  }

  /** The sole validator's vote is a quorum: the first block becomes justified. */
  lemma SoleQuorum(stakes: map<Address, int>, v: Address)
    requires stakes.Keys == {v} && 0 < stakes[v]
    ensures Quorum(stakes, {v}, {})
  {
    assert {v} - {} == {v};
    SumTake({v}, stakes, v);
    assert {v} - {v} == {};
  }

  lemma FirstVoteJustifies(g: GenesisArgs, v: Address, a: Block, b: Block, vote: Tx)
    requires CollisionFree() && SoleValidator(g, v)
    requires Replay(g, [a]).Ok? && Untouched(g, LedgerAt(g, [a]))
    requires b.header.index == 2 && b.txs == [vote] && FirstBallot(g, v, a, vote)
    requires RunBlock(g.params, LedgerAt(g, [a]), b).Ok?
    ensures var st := RunBlock(g.params, LedgerAt(g, [a]), b).value;
            && st.ffg.justified == {GenesisHash(g), BlockHash(a)}
            && st.ffg.finalized == Checkpoint(GenesisHash(g), 0)
            && st.accounts.stakes == g.initialStakes
  {
    hide Replay;
    hide BeginBlock;
    hide RunBlock;
    hide CollisionFree;
    hide Genesis;
    hide Quorum;
    hide LinkAccepted;
    hide TxValid;
    var l := LedgerAt(g, [a]);
    var ctx, start := ContextOf(l, b), BeginBlock(g.params, l.state, b);
    QuietBlock(g.params, l.state, b);
    FirstVoteApplies(g, v, a, b, vote);
    TxFinalityFrame(g.params, ctx, start, vote);
    assert RunPrefix(g.params, l, b, 0) == Ok(start);
    PrefixSnapshots(g, [a], b, 0, 0);
    ReplayChain(g, [a]);
    StakerAccount(g, v);
    SoleQuorum(g.initialStakes, v);
    assert Voters(start.ffg, GenesisHash(g), BlockHash(a)) + {v} == {v};
  }

  /** Two branches of one genesis: on the first the block b includes the voter's own vote for a; the second
      is one block longer and includes none. */
  ghost predicate Branches(g: GenesisArgs, v: Address, a: Block, b: Block, vote: Tx, x: Block, y: Block, w: Block) {
    && BuiltOn(GenesisBlock(g.timestamp), v, a) && a.txs == []
    && BuiltOn(a, v, b) && b.txs == [vote] && FirstBallot(g, v, a, vote)
    && BuiltOn(GenesisBlock(g.timestamp), v, x) && BuiltOn(x, v, y) && BuiltOn(y, v, w)
    && x.txs == [] && y.txs == [] && w.txs == []
  }

  lemma FirstBranch(g: GenesisArgs, v: Address, a: Block, b: Block, vote: Tx)
    requires CollisionFree() && SoleValidator(g, v)
    requires BuiltOn(GenesisBlock(g.timestamp), v, a) && a.txs == []
    requires BuiltOn(a, v, b) && b.txs == [vote] && FirstBallot(g, v, a, vote)
    ensures Replay(g, [a]).Ok? && Untouched(g, LedgerAt(g, [a]))
    ensures Replay(g, [a, b]).Ok?
    ensures var st := LedgerAt(g, [a, b]).state;
            && st.ffg.justified == {GenesisHash(g), BlockHash(a)}
            && st.ffg.finalized == Checkpoint(GenesisHash(g), 0)
            && st.accounts.stakes == g.initialStakes
  {
    hide Replay;
    hide RunBlock;
    hide CollisionFree;
    hide Genesis;
    hide GenesisAccounts;
    hide FirstBallot;
    hide HeaderAccepted;
    hide ApplyTx;
    hide BeginBlock;
    hide LinkAccepted;
    hide MerkleRoot;
    GenesisUntouched(g);
    UntouchedGrows(g, v, [], a);
    assert [] + [a] == [a];
    var l := LedgerAt(g, [a]);
    StakerAccount(g, v);
    assert l.state.accounts.stakes == g.initialStakes by { GenesisStakes(g); }
    SoleBlockAccepted(l, v, b);
    NextHeight(g, [a], b);
    FirstVoteApplies(g, v, a, b, vote);
    FirstVoteReplays(g, v, a, b, vote);
    FirstVoteJustifies(g, v, a, b, vote);
  }

  lemma SecondBranch(g: GenesisArgs, v: Address, x: Block, y: Block, w: Block)
    requires SoleValidator(g, v)
    requires BuiltOn(GenesisBlock(g.timestamp), v, x) && BuiltOn(x, v, y) && BuiltOn(y, v, w)
    requires x.txs == [] && y.txs == [] && w.txs == []
    ensures Replay(g, [x]).Ok? && Untouched(g, LedgerAt(g, [x]))
    ensures Replay(g, [x, y]).Ok? && Untouched(g, LedgerAt(g, [x, y]))
    ensures Replay(g, [x, y, w]).Ok? && Untouched(g, LedgerAt(g, [x, y, w]))
  {
    hide Replay;
    hide Untouched;
    hide Genesis;
    hide MerkleRoot;
    GenesisUntouched(g);
    UntouchedGrows(g, v, [], x);
    UntouchedGrows(g, v, [] + [x], y);
    UntouchedGrows(g, v, [] + [x] + [y], w);
    assert [] + [x] == [x] && [] + [x] + [y] == [x, y] && [] + [x] + [y] + [w] == [x, y, w];
  }

  /** Fork choice prefers the second branch: it has three proposals of the one validator, the first two. */
  lemma SecondIsHeavier(g: GenesisArgs, v: Address, a: Block, b: Block, vote: Tx, x: Block, y: Block, w: Block)
    requires CollisionFree() && SoleValidator(g, v) && Branches(g, v, a, b, vote, x, y, w)
    ensures Weight(g, [a, b]) < Weight(g, [x, y, w])
  {
    hide Replay;
    hide Genesis;
    hide CollisionFree;
    hide FirstBallot;
    hide Untouched;
    hide GenesisAccounts;
    hide MerkleRoot;
    hide Weight;
    FirstBranch(g, v, a, b, vote);
    SecondBranch(g, v, x, y, w);
    GenesisUntouched(g);
    WeightOfTwo(g, v, a, b);
    WeightOfTwo(g, v, x, y);
    UntouchedStakes(g, [x, y]);
    WeightStep(g, [x, y], w);
    assert [x, y] + [w] == [x, y, w];
    StakerAccount(g, v);
  }

  lemma UntouchedStakes(g: GenesisArgs, blocks: seq<Block>)
    requires Replay(g, blocks).Ok? && Untouched(g, LedgerAt(g, blocks))
    ensures LedgerAt(g, blocks).state.accounts.stakes == g.initialStakes
  {
    hide Replay;
    GenesisStakes(g);
  }

  lemma WeightOfTwo(g: GenesisArgs, v: Address, a: Block, b: Block)
    requires Genesis(g).Ok? && a.header.validator == v && b.header.validator == v
    requires Replay(g, [a]).Ok? && Untouched(g, LedgerAt(g, [a]))
    ensures Weight(g, [a, b]) == 2 * Get(g.initialStakes, v)
  {
    hide Replay;
    hide Genesis;
    hide Untouched;
    GenesisUntouched(g);
    UntouchedStakes(g, []);
    UntouchedStakes(g, [a]);
    WeightStep(g, [], a);
    WeightStep(g, [a], b);
    assert [] + [a] == [a] && [a] + [b] == [a, b];
  }

  /** After the vote of call 0 was included and justified a, the voter goes on from a to b. */
  lemma SecondVote(g: GenesisArgs, v: Address, a: Block, b: Block, voted: set<int>)
    requires CollisionFree() && Replay(g, [a, b]).Ok? && g.params.epoch == 1
    requires var st := LedgerAt(g, [a, b]).state;
             && st.ffg.justified == {GenesisHash(g), BlockHash(a)}
             && st.ffg.finalized == Checkpoint(GenesisHash(g), 0)
             && v in st.accounts.stakes
    requires 2 !in voted
    ensures VoteFor(LedgerAt(g, [a, b]), 1, v, voted) == Some(Link(BlockHash(a), 1, BlockHash(b), 2))
  {
    hide Replay;
    hide SourceIn;
    var l := LedgerAt(g, [a, b]);
    ReplayChain(g, [a, b]);
    TipIsTarget(l.chain);
    SourceHighest(l.chain, l, 1, 2);
    assert l.chain[1] == Content([a, b][0]) && l.chain[2] == Content([a, b][1]);
    assert Candidate(l, 1, 2, l.chain[1]);
  }

  lemma ThreeCalls(v: Address, calls: seq<Call>, k: Link, m: Link, n: Link)
    requires |calls| == 3 && (forall i :: 0 <= i < 3 ==> calls[i].submitted)
    requires VoteFor(calls[0].view, 1, v, {}) == Some(k)
    requires VoteFor(calls[1].view, 1, v, {k.th}) == Some(m)
    requires VoteFor(calls[2].view, 1, v, {k.th, m.th}) == Some(n)
    ensures EmittedAt(1, v, calls, 0) == Some(k)
    ensures EmittedAt(1, v, calls, 1) == Some(m)
    ensures EmittedAt(1, v, calls, 2) == Some(n)
  {
    hide VoteFor;
    assert VotedBefore(1, v, calls, 0) == {};
    assert VotedBefore(1, v, calls, 1) == {k.th};
    assert VotedBefore(1, v, calls, 2) == {k.th, m.th};
  }

  /** Across a switch of branches the honest automatic voter convicts itself. Its first vote, 0 -> 1, is
      included on one branch and lets it vote 1 -> 2 there; on the heavier branch it then votes 0 -> 3, which
      surrounds that. All three ledgers are replays of one genesis with one validator. */
  lemma ReorgCanSurround(g: GenesisArgs, v: Address, a: Block, b: Block, vote: Tx, x: Block, y: Block, w: Block)
    requires CollisionFree() && SoleValidator(g, v) && Branches(g, v, a, b, vote, x, y, w)
    ensures Replay(g, [a]).Ok? && Replay(g, [a, b]).Ok? && Replay(g, [x, y, w]).Ok?
    ensures Weight(g, [a, b]) < Weight(g, [x, y, w])
    ensures var calls := [Call(LedgerAt(g, [a]), true), Call(LedgerAt(g, [a, b]), true),
                          Call(LedgerAt(g, [x, y, w]), true)];
            && EmittedAt(1, v, calls, 0) == Some(vote.evidence.link)
            && EmittedAt(1, v, calls, 1) == Some(Link(BlockHash(a), 1, BlockHash(b), 2))
            && EmittedAt(1, v, calls, 2) == Some(Link(GenesisHash(g), 0, BlockHash(w), 3))
            && forall ballots :: Ballots(1, v, calls, ballots) ==> Convicted(1, v, calls, ballots)
  {
    hide Replay;
    hide VoteFor;
    hide CollisionFree;
    hide Genesis;
    hide GenesisAccounts;
    hide BuiltOn;
    hide EmittedAt;
    hide TxValid;
    hide Weight;
    FirstBranch(g, v, a, b, vote);
    SecondBranch(g, v, x, y, w);
    SecondIsHeavier(g, v, a, b, vote, x, y, w);
    var calls := [Call(LedgerAt(g, [a]), true), Call(LedgerAt(g, [a, b]), true), Call(LedgerAt(g, [x, y, w]), true)];
    UntouchedVote(g, [a], v, {});
    SecondVote(g, v, a, b, {1});
    UntouchedVote(g, [x, y, w], v, {1, 2});
    ThreeCalls(v, calls, Link(GenesisHash(g), 0, BlockHash(a), 1), Link(BlockHash(a), 1, BlockHash(b), 2),
               Link(GenesisHash(g), 0, BlockHash(w), 3));
    forall ballots | Ballots(1, v, calls, ballots) ensures Convicted(1, v, calls, ballots) {
      assert VerifyVoteFault(ballots[1], ballots[2]).Ok?;
    }
  }

  // -- a fee below the lock ------------------------------------------------------------------------

  lemma BallotIsVote(g: GenesisArgs, v: Address, a: Block, vote: Tx)
    requires FirstBallot(g, v, a, vote)
    ensures vote.recipient.VoteSentinel? && vote.sender == v
  {
  }

  lemma GenesisHolding(g: GenesisArgs, a: Address)
    requires Genesis(g).Ok?
    ensures Holding(GenesisAccounts(g), a) == Get(g.allocations, a)
  {
    hide ValidAllocations;
    hide ValidVesting;
  }

  /** A grantee's first vote, in another validator's block, with a fee above what it holds beyond its lock:
      the replay accepts it, the lock held before, and it does not hold after. */
  lemma GranteeVotesBelowLock(g: GenesisArgs, v: Address, a: Block, b: Block, vote: Tx)
    requires CollisionFree() && Genesis(g).Ok? && g.params.epoch == 1 && v in g.initialStakes
    requires HeaderAccepted(Genesis(g).value, a) && a.txs == []
    requires b.header.previousHash == BlockHash(a) && b.header.index == 2 && b.header.validator != v
    requires b.header.merkleRoot == MerkleRoot(TxIds(b.txs)) && ProposerAccepted(g.initialStakes, b)
    requires b.txs == [vote] && FirstBallot(g, v, a, vote)
    requires 0 < LockedOf(g.params, v, 2) && Get(g.allocations, v) - LockedOf(g.params, v, 2) < vote.fee
    ensures Replay(g, [a]).Ok? && VestingKept(g.params, 1, LedgerAt(g, [a]).state.accounts, v)
    ensures Replay(g, [a, b]).Ok? && !VestingKept(g.params, 2, LedgerAt(g, [a, b]).state.accounts, v)
  {
    hide Replay;
    hide CollisionFree;
    hide Genesis;
    hide GenesisAccounts;
    hide FirstBallot;
    hide ProposerAccepted;
    hide ApplyTx;
    hide BeginBlock;
    hide MerkleRoot;
    hide Holding;
    hide LockedOf;
    hide LinkAccepted;
    hide FlowOf;
    GenesisUntouched(g);
    StaysUntouched(g, [], a);
    assert [] + [a] == [a];
    var l := LedgerAt(g, [a]);
    GenesisStakes(g);
    assert HeaderAccepted(l, b) by { ReplayChain(g, [a]); }
    FirstVoteReplays(g, v, a, b, vote);
    VestingOverRuns(g, [a], v);
    QuietBlock(g.params, l.state, b);
    GenesisHolding(g, v);
    BallotIsVote(g, v, a, vote);
    VoteFeeBreaksLock(g.params, ContextOf(l, b), BeginBlock(g.params, l.state, b), vote);
  }

  function LeakAllocations(v: Address, w: Address): map<Address, int> {
    map[v := 10, w := MAX_SUPPLY_UNITS - 10]
  }

  lemma LeakTotal(v: Address, w: Address)
    requires v != w
    ensures Total(LeakAllocations(v, w)) == MAX_SUPPLY_UNITS
  {
    hide Sum;
    var none: map<Address, int> := map[];
    var mine := none[v := 10];
    TotalUpdate(none, v, 10);
    TotalUpdate(mine, w, MAX_SUPPLY_UNITS - 10);
    assert Total(none) == 0 by { EmptyTotal(); }
    assert LeakAllocations(v, w) == mine[w := MAX_SUPPLY_UNITS - 10];
  }

  lemma EmptyTotal()
    ensures Total(map[]) == 0
  {
  }

  /** Such a genesis exists: v holds 10, all of it locked until height 5, one of them staked; w has the rest. */
  lemma LeakGenesis(v: Address, w: Address) returns (g: GenesisArgs)
    requires v != w
    ensures Genesis(g).Ok? && g.params.epoch == 1 && v in g.initialStakes && w in g.initialStakes
    ensures LockedOf(g.params, v, 2) == Get(g.allocations, v) == 10
    ensures Get(GenesisAccounts(g).balances, v) == 9
  {
    hide Total;
    LeakTotal(v, w);
    g := GenesisArgs(LeakAllocations(v, w), map[v := 1, w := 1], 0, Params(map[v := Grant(10, 0, 5, 10)], 0, None, 1));
  }
}
