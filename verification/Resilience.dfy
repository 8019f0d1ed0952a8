/** Accountable safety and convergence together: as long as voters with less than a third of the stake
    have provably misbehaved, all nodes that hear the same blocks agree, with no assumption on what the
    branches finalized. */
module Resilience {
  import opened Sums
  import opened Records
  import opened Merkle
  import opened Election
  import opened Ledger
  import opened Runs
  import opened ForkChoice
  import opened Convergence
  import AccountableSafety

  ghost predicate HeardTx(heard: set<Block>, tx: Tx) {
    exists b :: b in heard && tx in b.txs
  }

  /** Two heard votes prove a fault of v. */
  ghost predicate FaultyVoter(heard: set<Block>, v: Address) {
    exists a, b :: HeardTx(heard, a) && HeardTx(heard, b)
                   && VerifyVoteFault(a, b).Ok? && VerifyVoteFault(a, b).value.0 == v
  }

  ghost predicate AllFaulty(heard: set<Block>, guilty: set<Address>) {
    forall v :: v in guilty ==> FaultyVoter(heard, v)
  }

  /** Provably faulty voters hold less than a third of the stake. */
  ghost predicate FewFaulty(stakes: map<Address, int>, heard: set<Block>) {
    forall guilty :: AllFaulty(heard, guilty) ==> 3 * Sum(guilty, stakes) < Total(stakes)
  }

  /** Only transfers and votes. */
  ghost predicate StaticHeard(heard: set<Block>) {
    forall b :: b in heard ==> AccountableSafety.StaticTxs(b.txs)
  }

  lemma IncludedHeard(c: Config, heard: set<Block>, x: seq<Block>, tx: Tx)
    requires ValidBranch(c, heard, x) && AccountableSafety.Included(LedgerAt(c.genesis, x).chain, tx)
    ensures HeardTx(heard, tx)
  {
    hide Replay;
    ReplayChain(c.genesis, x);
    var chain := LedgerAt(c.genesis, x).chain;
    var i :| 0 <= i < |chain| && tx in chain[i].txs;
    assert i > 0;
    assert chain[(i - 1) + 1] == Content(x[i - 1]);
    assert x[i - 1] in heard;
  }

  lemma NoThirdConvicted(c: Config, heard: set<Block>, x: seq<Block>, y: seq<Block>)
    requires ValidBranch(c, heard, x) && ValidBranch(c, heard, y)
    requires FewFaulty(c.genesis.initialStakes, heard)
    ensures !AccountableSafety.ThirdConvicted(c.genesis.initialStakes,
                                              LedgerAt(c.genesis, x).chain, LedgerAt(c.genesis, y).chain)
  {
    hide Replay;
    hide HeardTx;
    hide ValidBranch;
    hide VerifyVoteFault;
    hide AccountableSafety.Included;
    ValidReplays(c, heard, x);
    ValidReplays(c, heard, y);
    var l, m := LedgerAt(c.genesis, x).chain, LedgerAt(c.genesis, y).chain;
    forall guilty | forall v :: v in guilty ==> AccountableSafety.Convicted(l, m, v)
      ensures 3 * Sum(guilty, c.genesis.initialStakes) < Total(c.genesis.initialStakes)
    {
      forall v | v in guilty ensures FaultyVoter(heard, v) {
        var a, b :| AccountableSafety.Included(l, a) && AccountableSafety.Included(m, b)
                    && VerifyVoteFault(a, b).Ok? && VerifyVoteFault(a, b).value.0 == v;
        IncludedHeard(c, heard, x, a);
        IncludedHeard(c, heard, y, b);
      }
      assert AllFaulty(heard, guilty);
    }
  }

  lemma StaticBranch(c: Config, heard: set<Block>, x: seq<Block>)
    requires CollisionFree()
    requires ValidBranch(c, heard, x) && StaticHeard(heard)
    ensures Replay(c.genesis, x).Ok? && AccountableSafety.StaticLedger(c.genesis, LedgerAt(c.genesis, x))
  {
    hide Replay;
    hide CollisionFree;
    hide AccountableSafety.StaticTxs;
    hide AccountableSafety.StaticLedger;
    AccountableSafety.StaticLedgerOf(c.genesis, x);
  }

  lemma AncestorIsBelow(g: GenesisArgs, x: seq<Block>, y: seq<Block>)
    requires Replay(g, x).Ok? && Replay(g, y).Ok?
    requires AccountableSafety.AncestorOf(LedgerAt(g, y).chain, FinalizedBy(g, x), FinalizedBy(g, y))
    ensures Below(g, x, y)
  {
    hide Replay;
    ReplayChain(g, y);
    var f := FinalizedBy(g, x);
    if f.height > 0 {
      assert LedgerAt(g, y).chain[(f.height - 1) + 1] == Content(y[f.height - 1]);
    }
  }

  /** Few faulty voters: the finalized checkpoints of all valid branches lie on one line. */
  lemma FewFaultyOneLine(c: Config, heard: set<Block>)
    requires CollisionFree()
    requires StaticHeard(heard) && FewFaulty(c.genesis.initialStakes, heard)
    ensures OneLine(c, heard)
  {
    hide Replay;
    hide CollisionFree;
    hide ValidBranch;
    hide StaticHeard;
    hide FewFaulty;
    hide Below;
    hide AccountableSafety.StaticLedger;
    hide AccountableSafety.ThirdConvicted;
    forall x, y | ValidBranch(c, heard, x) && ValidBranch(c, heard, y)
      ensures Replay(c.genesis, x).Ok? && Replay(c.genesis, y).Ok? && Below(c.genesis, x, y)
    {
      PairBelow(c, heard, x, y);
    }
  }

  lemma PairBelow(c: Config, heard: set<Block>, x: seq<Block>, y: seq<Block>)
    requires CollisionFree()
    requires StaticHeard(heard) && FewFaulty(c.genesis.initialStakes, heard)
    requires ValidBranch(c, heard, x) && ValidBranch(c, heard, y)
    ensures Replay(c.genesis, x).Ok? && Replay(c.genesis, y).Ok? && Below(c.genesis, x, y)
  {
    hide Replay;
    hide CollisionFree;
    hide ValidBranch;
    hide StaticHeard;
    hide FewFaulty;
    hide TipHash;
    hide AccountableSafety.StaticLedger;
    hide AccountableSafety.ThirdConvicted;
    hide AccountableSafety.AncestorOf;
    ValidReplays(c, heard, x);
    ValidReplays(c, heard, y);
    StaticBranch(c, heard, x);
    StaticBranch(c, heard, y);
    NoThirdConvicted(c, heard, x, y);
    AccountableSafety.InitialStakesPositive(c.genesis, x);
    var l, m := LedgerAt(c.genesis, x), LedgerAt(c.genesis, y);
    if l.state.ffg.finalized.height <= m.state.ffg.finalized.height {
      if !AccountableSafety.AncestorOf(m.chain, l.state.ffg.finalized, m.state.ffg.finalized) {
        AccountableSafety.ConflictConvicts(c.genesis, l, m);
      }
      AncestorIsBelow(c.genesis, x, y);
    }
  }

  /** Byzantine-resilient convergence: with an unchanging validator set and provably faulty voters below a
      third of the stake, two trees that hear one block set, each valid branch from root to tip in whatever
      twins, end with the same frontier, head and canonical ledger. */
  lemma FewFaultyConverge(c: Config, heard: set<Block>, order: seq<Block>, other: seq<Block>,
                          head: Hash, otherHead: Hash)
    requires CollisionFree() && Genesis(c.genesis).Ok?
    requires StaticHeard(heard) && FewFaulty(c.genesis.initialStakes, heard)
    requires Hears(c, heard, order) && Hears(c, heard, other)
    requires IsHead(c.genesis, RunAll(c, order), head) && IsHead(c.genesis, RunAll(c, other), otherHead)
    ensures RunAll(c, order).finalized == RunAll(c, other).finalized
    ensures head == otherHead
    ensures var x, y := RunAll(c, order).branches[head], RunAll(c, other).branches[head];
            && Replay(c.genesis, x).Ok? && Replay(c.genesis, y).Ok?
            && LedgerAt(c.genesis, x) == LedgerAt(c.genesis, y)
  {
    hide Replay;
    hide CollisionFree;
    hide Genesis;
    hide RunAll;
    hide OneLine;
    hide Hears;
    hide IsHead;
    FewFaultyOneLine(c, heard);
    TreesConverge(c, heard, order, other, head, otherHead);
  }

  // -- weight ----------------------------------------------------------------------------------------

  /** How many of the blocks v proposed. */
  function Proposals(blocks: seq<Block>, v: Address): nat {
    if blocks == [] then 0 else
      Proposals(blocks[..|blocks| - 1], v) + (if blocks[|blocks| - 1].header.validator == v then 1 else 0)
  }

  /** Each validator's stake, once for every block it proposed. */
  function Earned(stakes: map<Address, int>, blocks: seq<Block>): map<Address, int> {
    map v | v in stakes :: stakes[v] * Proposals(blocks, v)
  }

  lemma EarnedStep(stakes: map<Address, int>, blocks: seq<Block>, b: Block)
    requires b.header.validator in stakes
    ensures Total(Earned(stakes, blocks + [b])) == Total(Earned(stakes, blocks)) + stakes[b.header.validator]
  {
    var v, before, after := b.header.validator, Earned(stakes, blocks), Earned(stakes, blocks + [b]);
    assert (blocks + [b])[..|blocks|] == blocks;
    assert stakes[v] * (Proposals(blocks, v) + 1) == stakes[v] * Proposals(blocks, v) + stakes[v];
    assert after == before[v := before[v] + stakes[v]];
    TotalUpdate(before, v, before[v] + stakes[v]);
  }

  /** With an unchanging validator set a branch weighs exactly the sum, over the validators, of their stake times
      the blocks they proposed on it. */
  lemma {:induction false} StaticWeight(g: GenesisArgs, blocks: seq<Block>)
    requires CollisionFree() && Replay(g, blocks).Ok? && AccountableSafety.StaticBlocks(blocks)
    ensures Weight(g, blocks) == Total(Earned(g.initialStakes, blocks))
  {
    hide Replay;
    hide CollisionFree;
    hide Earned;
    hide AccountableSafety.StaticTxs;
    if blocks == [] {
      NothingEarned(g.initialStakes);
    } else {
      var front, b := blocks[..|blocks| - 1], blocks[|blocks| - 1];
      assert front + [b] == blocks;
      ReplayPrefix(g, blocks, |front|);
      StaticWeight(g, front);
      StakesStay(g, front);
      ProposerStaked(g, blocks);
      WeightStep(g, front, b);
      EarnedStep(g.initialStakes, front, b);
    }
  }

  lemma NothingEarned(stakes: map<Address, int>)
    ensures Total(Earned(stakes, [])) == 0
  {
    var earned := Earned(stakes, []);
    assert earned.Keys == stakes.Keys && forall v :: v in earned ==> earned[v] == 0;
    SumPlus(stakes.Keys, earned, earned, earned);
  }

  lemma StakesStay(g: GenesisArgs, blocks: seq<Block>)
    requires CollisionFree() && Replay(g, blocks).Ok? && AccountableSafety.StaticBlocks(blocks)
    ensures LedgerAt(g, blocks).state.accounts.stakes == g.initialStakes
  {
    hide Replay;
    hide CollisionFree;
    AccountableSafety.ReplaySafety(g, blocks);
  }

  lemma ProposerStaked(g: GenesisArgs, blocks: seq<Block>)
    requires blocks != [] && Replay(g, blocks).Ok?
    ensures Replay(g, blocks[..|blocks| - 1]).Ok?
    ensures blocks[|blocks| - 1].header.validator in LedgerAt(g, blocks[..|blocks| - 1]).state.accounts.stakes
  {
    hide Replay;
    hide Elect;
    hide MerkleRoot;
    SealedByElected(g, blocks, |blocks| - 1);
    var b := blocks[|blocks| - 1];
    ElectedHasStake(LedgerAt(g, blocks[..|blocks| - 1]).state.accounts.stakes, Seed(b.header.previousHash, |blocks|));
  }
}
