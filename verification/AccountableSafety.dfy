/** Accountable safety, Theorem 1 of "Casper the Friendly Finality Gadget" (section 2.1), for this
    chain: with an unchanging validator set, two conflicting finalized checkpoints convict at least a
    third of the stake, each voter by two of its own included votes. */
module AccountableSafety {
  import opened Sums
  import opened Arithmetic
  import opened Records
  import opened Ledger
  import opened Runs
  import opened Justification

  /** Only transfers and votes: the validator set of genesis stays. */
  ghost predicate StaticTxs(txs: seq<Tx>) {
    forall i :: 0 <= i < |txs| ==> txs[i].recipient.Account? || txs[i].recipient.VoteSentinel?
  }

  ghost predicate StaticBlocks(blocks: seq<Block>) {
    forall i :: 0 <= i < |blocks| ==> StaticTxs(blocks[i].txs)
  }

  ghost predicate StaticStake(stakes: map<Address, int>, st: State) {
    && st.accounts.stakes == stakes && st.slashedAddrs == {}
    && forall h :: h in st.ffg.stakeAt ==> st.ffg.stakeAt[h] == stakes
  }

  // -- included votes ------------------------------------------------------------------------

  ghost predicate Included(chain: seq<Block>, tx: Tx) {
    exists i :: 0 <= i < |chain| && tx in chain[i].txs
  }

  ghost predicate IncludedVote(chain: seq<Block>, v: Address, k: Link) {
    exists tx :: Included(chain, tx) && IsVote(tx) && tx.sender == v && tx.evidence.link == k
  }

  /** v's vote for the link from s to t is a transaction of the chain. */
  ghost predicate VoteIncluded(chain: seq<Block>, ffg: Finality, s: Hash, t: Hash, v: Address) {
    && s in ffg.heightAt && t in ffg.heightAt
    && IncludedVote(chain, v, Link(s, ffg.heightAt[s], t, ffg.heightAt[t]))
  }

  /** Every counted vote is included. */
  ghost predicate VotesIncluded(chain: seq<Block>, ffg: Finality) {
    forall s, t, v :: (s, t) in ffg.votes && v in ffg.votes[(s, t)] ==> VoteIncluded(chain, ffg, s, t, v)
  }

  /** At least two thirds of the stake voted k, in votes this chain includes. */
  ghost predicate SupportedBy(stakes: map<Address, int>, chain: seq<Block>, k: Link, voters: set<Address>) {
    && 3 * Sum(voters, stakes) >= 2 * Total(stakes)
    && forall v :: v in voters ==> IncludedVote(chain, v, k)
  }

  ghost predicate Supported(stakes: map<Address, int>, chain: seq<Block>, k: Link) {
    exists voters :: SupportedBy(stakes, chain, k, voters)
  }

  /** k joins two checkpoints of the chain, upwards, with two thirds behind it. */
  ghost predicate StrongLink(p: Params, stakes: map<Address, int>, chain: seq<Block>, k: Link)
    requires 0 < p.epoch
  {
    && IsCheckpoint(p, chain, k.s, k.sh) && IsCheckpoint(p, chain, k.t, k.th) && k.sh < k.th
    && Supported(stakes, chain, k)
  }

  /** Each justified checkpoint but genesis has a strong link from a justified one; the finalized one but
      genesis has a strong link to its direct epoch child. */
  ghost predicate HasSource(p: Params, stakes: map<Address, int>, chain: seq<Block>, ffg: Finality, t: Hash)
    requires 0 < p.epoch
  {
    exists k: Link :: k.t == t && k.s in ffg.justified && StrongLink(p, stakes, chain, k)
  }

  ghost predicate HasChild(p: Params, stakes: map<Address, int>, chain: seq<Block>, c: Checkpoint)
    requires 0 < p.epoch
  {
    exists k: Link :: k.s == c.hash && k.sh == c.height && k.th == c.height + p.epoch
                      && StrongLink(p, stakes, chain, k)
  }

  ghost predicate Grounded(p: Params, genesis: Hash, stakes: map<Address, int>, chain: seq<Block>, ffg: Finality)
    requires 0 < p.epoch
  {
    && (forall t :: t in ffg.justified && t != genesis ==> HasSource(p, stakes, chain, ffg, t))
    && (ffg.finalized == Checkpoint(genesis, 0) || HasChild(p, stakes, chain, ffg.finalized))
  }

  // -- growing chains keep what they include -----------------------------------------------------

  lemma IncludedGrows(chain: seq<Block>, more: seq<Block>, v: Address, k: Link)
    requires chain <= more
    requires IncludedVote(chain, v, k)
    ensures IncludedVote(more, v, k)
  {
    var tx :| Included(chain, tx) && IsVote(tx) && tx.sender == v && tx.evidence.link == k;
    var i :| 0 <= i < |chain| && tx in chain[i].txs;
    assert more[i] == chain[i];
    assert Included(more, tx);
  }

  lemma StrongLinkGrows(p: Params, stakes: map<Address, int>, chain: seq<Block>, more: seq<Block>, k: Link)
    requires 0 < p.epoch && chain <= more
    requires StrongLink(p, stakes, chain, k)
    ensures StrongLink(p, stakes, more, k)
  {
    var voters :| SupportedBy(stakes, chain, k, voters);
    forall v | v in voters ensures IncludedVote(more, v, k) {
      IncludedGrows(chain, more, v, k);
    }
    assert SupportedBy(stakes, more, k, voters);
  }

  lemma GroundedGrows(p: Params, genesis: Hash, stakes: map<Address, int>, chain: seq<Block>, more: seq<Block>,
                      ffg: Finality, next: Finality)
    requires 0 < p.epoch && chain <= more
    requires Grounded(p, genesis, stakes, chain, ffg)
    requires next.justified == ffg.justified && next.finalized == ffg.finalized
    ensures Grounded(p, genesis, stakes, more, next)
  {
    hide StrongLink;
    forall t | t in next.justified && t != genesis ensures HasSource(p, stakes, more, next, t) {
      var k: Link :| k.t == t && k.s in ffg.justified && StrongLink(p, stakes, chain, k);
      StrongLinkGrows(p, stakes, chain, more, k);
    }
    if next.finalized != Checkpoint(genesis, 0) {
      var c := ffg.finalized;
      var k: Link :| k.s == c.hash && k.sh == c.height && k.th == c.height + p.epoch && StrongLink(p, stakes, chain, k);
      StrongLinkGrows(p, stakes, chain, more, k);
    }
  }

  // -- one vote ------------------------------------------------------------------------------

  lemma VoteKeepsIncluded(p: Params, ctx: Context, chain: seq<Block>, st: State, tx: Tx)
    requires 0 < p.epoch
    requires VotesIncluded(chain, st.ffg)
    requires Included(chain, tx) && IsVote(tx)
    requires LinkAccepted(p, ctx, st, tx.sender, tx.evidence.link)
    ensures VotesIncluded(chain, CountVote(p, st.ffg, st.slashedAddrs, tx.sender, tx.evidence.link))
  {
    hide Quorum;
    var k := tx.evidence.link;
    assert IncludedVote(chain, tx.sender, k);
    assert k == Link(k.s, st.ffg.heightAt[k.s], k.t, st.ffg.heightAt[k.t]);
  }

  /** The quorum that justifies makes the link strong. */
  lemma QuorumIsStrong(p: Params, ctx: Context, chain: seq<Block>, stakes: map<Address, int>,
                       st: State, voter: Address, k: Link)
    requires 0 < p.epoch
    requires Anchored(p, chain, st.ffg) && StaticStake(stakes, st)
    requires LinkAccepted(p, ctx, st, voter, k)
    requires VotesIncluded(chain, CountVote(p, st.ffg, st.slashedAddrs, voter, k))
    requires Quorum(st.ffg.stakeAt[k.s], Voters(st.ffg, k.s, k.t) + {voter}, st.slashedAddrs)
    ensures StrongLink(p, stakes, chain, k)
  {
    var voters := Voters(st.ffg, k.s, k.t) + {voter};
    var next := CountVote(p, st.ffg, st.slashedAddrs, voter, k);
    assert next.votes[(k.s, k.t)] == voters;
    assert voters - {} == voters && stakes.Keys - {} == stakes.Keys;
    var counted := next.votes[(k.s, k.t)];
    forall v | v in counted ensures IncludedVote(chain, v, k) {
      assert VoteIncluded(chain, next, k.s, k.t, v);
    }
    assert SupportedBy(stakes, chain, k, counted);
  }

  lemma VoteKeepsGrounded(p: Params, ctx: Context, genesis: Hash, chain: seq<Block>, stakes: map<Address, int>,
                          st: State, voter: Address, k: Link)
    requires 0 < p.epoch
    requires Anchored(p, chain, st.ffg) && StaticStake(stakes, st)
    requires ctx.justifiedParent <= st.ffg.justified
    requires Grounded(p, genesis, stakes, chain, st.ffg)
    requires LinkAccepted(p, ctx, st, voter, k)
    requires VotesIncluded(chain, CountVote(p, st.ffg, st.slashedAddrs, voter, k))
    ensures Grounded(p, genesis, stakes, chain, CountVote(p, st.ffg, st.slashedAddrs, voter, k))
  {
    hide StrongLink;
    hide VotesIncluded;
    hide Anchored;
    hide Quorum;
    var next := CountVote(p, st.ffg, st.slashedAddrs, voter, k);
    if Quorum(st.ffg.stakeAt[k.s], Voters(st.ffg, k.s, k.t) + {voter}, st.slashedAddrs) {
      QuorumIsStrong(p, ctx, chain, stakes, st, voter, k);
    }
    forall t | t in next.justified && t != genesis ensures HasSource(p, stakes, chain, next, t) {
      if t in st.ffg.justified {
        assert HasSource(p, stakes, chain, st.ffg, t);
        var k': Link :| k'.t == t && k'.s in st.ffg.justified && StrongLink(p, stakes, chain, k');
        assert k'.s in next.justified;
      } else {
        assert t == k.t && k.s in next.justified;
      }
    }
  }

  // -- runs ----------------------------------------------------------------------------------

  /** All that accountable safety needs of a state and the chain it belongs to. */
  ghost predicate SafetyInvariant(p: Params, genesis: Hash, stakes: map<Address, int>, chain: seq<Block>, st: State)
    requires 0 < p.epoch
  {
    && Anchored(p, chain, st.ffg) && StaticStake(stakes, st)
    && VotesIncluded(chain, st.ffg) && Grounded(p, genesis, stakes, chain, st.ffg)
  }

  lemma TxKeepsStatic(p: Params, ctx: Context, stakes: map<Address, int>, st: State, tx: Tx)
    requires p.epoch != 0
    requires tx.recipient.Account? || tx.recipient.VoteSentinel?
    requires StaticStake(stakes, st)
    requires ApplyTx(p, ctx, st, tx).Ok?
    ensures StaticStake(stakes, ApplyTx(p, ctx, st, tx).value)
  {
    hide LinkAccepted;
    hide Quorum;
    hide VestingKept;
  }

  lemma TxKeepsSafety(p: Params, ctx: Context, genesis: Hash, stakes: map<Address, int>, chain: seq<Block>,
                      st: State, tx: Tx)
    requires 0 < p.epoch
    requires SafetyInvariant(p, genesis, stakes, chain, st) && ctx.justifiedParent <= st.ffg.justified
    requires TxValid(tx) && Included(chain, tx)
    requires tx.recipient.Account? || tx.recipient.VoteSentinel?
    requires ApplyTx(p, ctx, st, tx).Ok?
    ensures SafetyInvariant(p, genesis, stakes, chain, ApplyTx(p, ctx, st, tx).value)
    ensures ctx.justifiedParent <= ApplyTx(p, ctx, st, tx).value.ffg.justified
  {
    hide ApplyTx;
    hide Anchored;
    hide StaticStake;
    hide VotesIncluded;
    hide Grounded;
    hide CountVote;
    hide LinkAccepted;
    TxKeepsAnchored(p, ctx, chain, st, tx);
    TxKeepsStatic(p, ctx, stakes, st, tx);
    TxFinalityFrame(p, ctx, st, tx);
    if tx.recipient.VoteSentinel? {
      VoteKeepsIncluded(p, ctx, chain, st, tx);
      VoteKeepsGrounded(p, ctx, genesis, chain, stakes, st, tx.sender, tx.evidence.link);
    }
  }

  lemma {:induction false} TxsKeepSafety(p: Params, ctx: Context, genesis: Hash, stakes: map<Address, int>,
                                         chain: seq<Block>, st: State, txs: seq<Tx>, seen: set<Hash>)
    requires 0 < p.epoch
    requires SafetyInvariant(p, genesis, stakes, chain, st) && ctx.justifiedParent <= st.ffg.justified
    requires StaticTxs(txs) && forall i :: 0 <= i < |txs| ==> Included(chain, txs[i])
    requires ApplyTxs(p, ctx, st, txs, seen).Ok?
    ensures SafetyInvariant(p, genesis, stakes, chain, ApplyTxs(p, ctx, st, txs, seen).value)
    decreases |txs|
  {
    hide ApplyTx;
    hide SafetyInvariant;
    hide Included;
    if txs != [] {
      TxKeepsSafety(p, ctx, genesis, stakes, chain, st, txs[0]);
      TxsKeepSafety(p, ctx, genesis, stakes, chain, ApplyTx(p, ctx, st, txs[0]).value, txs[1..], seen + {TxId(txs[0])});
    }
  }

  /** A hash already recorded as a checkpoint is not the hash of a new block: heights differ. */
  lemma NewCheckpointIsNew(p: Params, l: Ledger, b: Block)
    requires CollisionFree()
    requires 0 < p.epoch
    requires Anchored(p, l.chain, l.state.ffg)
    requires forall i :: 0 <= i < |l.chain| ==> l.chain[i].header.index == i
    requires b.header.index == |l.chain|
    ensures BlockHash(b) !in l.state.ffg.heightAt
  {
  }

  lemma VotesIncludedGrow(chain: seq<Block>, more: seq<Block>, ffg: Finality, next: Finality)
    requires chain <= more
    requires VotesIncluded(chain, ffg)
    requires next.votes == ffg.votes
    requires forall h :: h in ffg.heightAt ==> h in next.heightAt && next.heightAt[h] == ffg.heightAt[h]
    ensures VotesIncluded(more, next)
  {
    hide IncludedVote;
    forall s, t, v | (s, t) in next.votes && v in next.votes[(s, t)]
      ensures VoteIncluded(more, next, s, t, v)
    {
      assert VoteIncluded(chain, ffg, s, t, v);
      IncludedGrows(chain, more, v, Link(s, ffg.heightAt[s], t, ffg.heightAt[t]));
    }
  }

  lemma BeginKeepsSafety(g: GenesisArgs, l: Ledger, b: Block)
    requires CollisionFree()
    requires 0 < g.params.epoch && l.chain != []
    requires SafetyInvariant(g.params, GenesisHash(g), g.initialStakes, l.chain, l.state)
    requires forall i :: 0 <= i < |l.chain| ==> l.chain[i].header.index == i
    requires b.header.index == |l.chain|
    ensures SafetyInvariant(g.params, GenesisHash(g), g.initialStakes, l.chain + [Content(b)],
                            BeginBlock(g.params, l.state, b))
  {
    hide Mature;
    hide Anchored;
    hide VotesIncluded;
    hide Grounded;
    var st := BeginBlock(g.params, l.state, b);
    assert Mature(l.state.accounts, b.header.index).stakes == l.state.accounts.stakes by {
      MatureStakes(l.state.accounts, b.header.index);
    }
    NewCheckpointIsNew(g.params, l, b);
    BeginKeepsAnchored(g.params, l, b);
    VotesIncludedGrow(l.chain, l.chain + [Content(b)], l.state.ffg, st.ffg);
    GroundedGrows(g.params, GenesisHash(g), g.initialStakes, l.chain, l.chain + [Content(b)], l.state.ffg, st.ffg);
  }

  lemma MatureStakes(acc: Accounts, height: int)
    ensures Mature(acc, height).stakes == acc.stakes
  {
  }

  lemma {:induction false} ReplaySafety(g: GenesisArgs, blocks: seq<Block>)
    requires CollisionFree()
    requires Replay(g, blocks).Ok? && StaticBlocks(blocks)
    ensures SafetyInvariant(g.params, GenesisHash(g), g.initialStakes,
                            LedgerAt(g, blocks).chain, LedgerAt(g, blocks).state)
  {
    hide ApplyBlock;
    hide SafetyInvariant;
    if blocks == [] {
      GenesisSafety(g);
    } else {
      var front, b := blocks[..|blocks| - 1], blocks[|blocks| - 1];
      ReplaySafety(g, front);
      ReplayChain(g, front);
      LastBlock(g, blocks);
      BlockAccepted(g, blocks);
      BlockKeepsSafety(g, LedgerAt(g, front), b);
    }
  }

  lemma BlockKeepsSafety(g: GenesisArgs, l: Ledger, b: Block)
    requires CollisionFree()
    requires 0 < g.params.epoch && l.chain != []
    requires SafetyInvariant(g.params, GenesisHash(g), g.initialStakes, l.chain, l.state)
    requires forall i :: 0 <= i < |l.chain| ==> l.chain[i].header.index == i
    requires b.header.index == |l.chain|
    requires StaticTxs(b.txs)
    requires RunBlock(g.params, l, b).Ok?
    ensures SafetyInvariant(g.params, GenesisHash(g), g.initialStakes, l.chain + [Content(b)],
                            RunBlock(g.params, l, b).value)
  {
    hide ApplyTxs;
    hide Mature;
    BeginKeepsSafety(g, l, b);
    hide SafetyInvariant;
    var chain := l.chain + [Content(b)];
    forall i | 0 <= i < |b.txs| ensures Included(chain, b.txs[i]) {
      assert b.txs[i] in chain[|l.chain|].txs;
    }
    TxsKeepSafety(g.params, ContextOf(l, b), GenesisHash(g), g.initialStakes, chain,
                  BeginBlock(g.params, l.state, b), b.txs, {});
  }

  lemma GenesisSafety(g: GenesisArgs)
    requires Genesis(g).Ok?
    ensures SafetyInvariant(g.params, GenesisHash(g), g.initialStakes, Genesis(g).value.chain, Genesis(g).value.state)
  {
    hide Anchored;
    GenesisAnchored(g);
  }

  // -- two chains ----------------------------------------------------------------------------

  /** a is convicted by two included votes that verify_vote_fault accepts. */
  ghost predicate Convicted(c: seq<Block>, d: seq<Block>, v: Address) {
    exists a, b :: Included(c, a) && Included(d, b) && VerifyVoteFault(a, b).Ok? && VerifyVoteFault(a, b).value.0 == v
  }

  ghost predicate GuiltyThird(stakes: map<Address, int>, c: seq<Block>, d: seq<Block>, guilty: set<Address>) {
    3 * Sum(guilty, stakes) >= Total(stakes) && forall v :: v in guilty ==> Convicted(c, d, v)
  }

  ghost predicate ThirdConvicted(stakes: map<Address, int>, c: seq<Block>, d: seq<Block>) {
    exists guilty :: GuiltyThird(stakes, c, d, guilty)
  }

  lemma FaultConvicts(c: seq<Block>, d: seq<Block>, v: Address, k: Link, m: Link)
    requires IncludedVote(c, v, k) && IncludedVote(d, v, m)
    requires DoubleVote(k, m) || SurroundVote(k, m)
    ensures Convicted(c, d, v)
  {
    var a :| Included(c, a) && IsVote(a) && a.sender == v && a.evidence.link == k;
    var b :| Included(d, b) && IsVote(b) && b.sender == v && b.evidence.link == m;
  }

  /** Two faulty links with two thirds each share a third: the guilty. */
  lemma FaultyLinksConvict(stakes: map<Address, int>, c: seq<Block>, d: seq<Block>, k: Link, m: Link)
    requires NonNegative(stakes)
    requires Supported(stakes, c, k) && Supported(stakes, d, m)
    requires DoubleVote(k, m) || SurroundVote(k, m)
    ensures ThirdConvicted(stakes, c, d)
  {
    var v1 :| SupportedBy(stakes, c, k, v1);
    var v2 :| SupportedBy(stakes, d, m, v2);
    var guilty := v1 * v2;
    SumInclusionExclusion(v1, v2, stakes);
    SumAtMostTotal(v1 + v2, stakes);
    assert 3 * Sum(guilty, stakes) >= Total(stakes);
    forall v | v in guilty ensures Convicted(c, d, v) {
      FaultConvicts(c, d, v, k, m);
    }
    assert GuiltyThird(stakes, c, d, guilty);
  }

  /** A chain that replayed with an unchanging validator set. */
  ghost predicate StaticLedger(g: GenesisArgs, l: Ledger) {
    && 0 < g.params.epoch
    && SafetyInvariant(g.params, GenesisHash(g), g.initialStakes, l.chain, l.state)
    && HashLinked(g, l.chain)
  }

  ghost predicate HashLinked(g: GenesisArgs, chain: seq<Block>) {
    && chain != [] && BlockHash(chain[0]) == GenesisHash(g)
    && (forall i :: 0 <= i < |chain| ==> chain[i].header.index == i)
    && (forall i :: 0 < i < |chain| ==> chain[i].header.previousHash == BlockHash(chain[i - 1]))
  }

  lemma StaticLedgerOf(g: GenesisArgs, blocks: seq<Block>)
    requires CollisionFree()
    requires Replay(g, blocks).Ok? && StaticBlocks(blocks)
    ensures StaticLedger(g, LedgerAt(g, blocks))
  {
    hide SafetyInvariant;
    hide Replay;
    ReplaySafety(g, blocks);
    ReplayChain(g, blocks);
    var chain := LedgerAt(g, blocks).chain;
    forall i | 0 < i < |chain| ensures chain[i].header.previousHash == BlockHash(chain[i - 1]) {
      assert chain[(i - 1) + 1] == Content(blocks[i - 1]);
    }
  }

  /** Chains that agree on one hash agree on everything below it. */
  lemma {:induction false} SharedPast(g: GenesisArgs, c: seq<Block>, d: seq<Block>, j: nat, k: nat)
    requires CollisionFree()
    requires HashLinked(g, c) && HashLinked(g, d)
    requires j <= k < |c| && k < |d|
    requires BlockHash(c[k]) == BlockHash(d[k])
    ensures BlockHash(c[j]) == BlockHash(d[j])
    decreases k
  {
    if j < k {
      assert c[k].header == d[k].header;
      SharedPast(g, c, d, j, k - 1);
    }
  }

  /** A justified checkpoint above height h has, on its way down to genesis, a strong link across h. */
  lemma {:induction false} Crossing(g: GenesisArgs, l: Ledger, t: Hash, th: nat, h: nat) returns (k: Link)
    requires StaticLedger(g, l)
    requires t in l.state.ffg.justified && IsCheckpoint(g.params, l.chain, t, th)
    requires CollisionFree()
    requires h < th
    ensures StrongLink(g.params, g.initialStakes, l.chain, k)
    ensures k.s in l.state.ffg.justified && k.sh <= h < k.th <= th
    decreases th
  {
    hide Supported;
    hide StaticStake;
    hide VotesIncluded;
    NotGenesis(g, l, t, th);
    assert HasSource(g.params, g.initialStakes, l.chain, l.state.ffg, t);
    k :| k.t == t && k.s in l.state.ffg.justified && StrongLink(g.params, g.initialStakes, l.chain, k);
    SamePlace(g, l.chain, t, k.th, th);
    if h < k.sh {
      k := Crossing(g, l, k.s, k.sh, h);
    }
  }

  lemma SamePlace(g: GenesisArgs, chain: seq<Block>, t: Hash, i: nat, j: nat)
    requires CollisionFree()
    requires HashLinked(g, chain)
    requires i < |chain| && j < |chain| && BlockHash(chain[i]) == t && BlockHash(chain[j]) == t
    ensures i == j
  {
    assert chain[i].header == chain[j].header;
  }

  lemma NotGenesis(g: GenesisArgs, l: Ledger, t: Hash, th: nat)
    requires CollisionFree()
    requires HashLinked(g, l.chain)
    requires 0 < th < |l.chain| && BlockHash(l.chain[th]) == t
    ensures t != GenesisHash(g)
  {
    if t == GenesisHash(g) {
      SamePlace(g, l.chain, t, 0, th);
    }
  }

  lemma SourceOf(g: GenesisArgs, l: Ledger, t: Hash, th: nat) returns (k: Link)
    requires CollisionFree()
    requires StaticLedger(g, l)
    requires t in l.state.ffg.justified && IsCheckpoint(g.params, l.chain, t, th) && 0 < th
    ensures StrongLink(g.params, g.initialStakes, l.chain, k) && k.t == t && k.th == th
  {
    k := Crossing(g, l, t, th, th - 1);
    SamePlaceOfLink(g, l, k, t, th);
  }

  lemma SamePlaceOfLink(g: GenesisArgs, l: Ledger, k: Link, t: Hash, th: nat)
    requires StaticLedger(g, l)
    requires StrongLink(g.params, g.initialStakes, l.chain, k)
    requires IsCheckpoint(g.params, l.chain, t, th) && k.th == th
    ensures k.t == t
  {
    hide SafetyInvariant;
    hide Supported;
  }

  /** Two different justified checkpoints at one height convict a third. */
  lemma SameHeightConvicts(g: GenesisArgs, l: Ledger, m: Ledger, t: Hash, u: Hash, h: nat)
    requires CollisionFree()
    requires NonNegative(g.initialStakes)
    requires StaticLedger(g, l) && StaticLedger(g, m)
    requires t in l.state.ffg.justified && IsCheckpoint(g.params, l.chain, t, h)
    requires u in m.state.ffg.justified && IsCheckpoint(g.params, m.chain, u, h)
    requires t != u
    ensures ThirdConvicted(g.initialStakes, l.chain, m.chain)
  {
    hide SafetyInvariant;
    hide Supported;
    hide ThirdConvicted;
    if h > 0 {
      var k := SourceOf(g, l, t, h);
      var k' := SourceOf(g, m, u, h);
      FaultyLinksConvict(g.initialStakes, l.chain, m.chain, k, k');
    }
  }

  /** c is the block of the chain at its own height, at or below d. */
  ghost predicate AncestorOf(chain: seq<Block>, c: Checkpoint, d: Checkpoint) {
    0 <= c.height <= d.height && c.height < |chain| && BlockHash(chain[c.height]) == c.hash
  }

  lemma AlignedGap(epoch: int, a: int, b: int)
    requires 0 < epoch && a % epoch == 0 && b % epoch == 0 && a < b
    ensures a + epoch <= b
  {
    var q, r := a / epoch, b / epoch;
    assert a == q * epoch && b == r * epoch;
    if q < r {
      MulMonotone(q + 1, r, epoch);
    } else {
      MulMonotone(r, q, epoch);
    }
  }

  lemma ChildOf(g: GenesisArgs, l: Ledger) returns (k: Link)
    requires CollisionFree()
    requires StaticLedger(g, l)
    requires 0 < l.state.ffg.finalized.height
    ensures StrongLink(g.params, g.initialStakes, l.chain, k)
    ensures k.s == l.state.ffg.finalized.hash && k.sh == l.state.ffg.finalized.height
    ensures k.th == k.sh + g.params.epoch
  {
    hide StrongLink;
    hide Anchored;
    hide VotesIncluded;
    hide StaticStake;
    var c := l.state.ffg.finalized;
    assert HasChild(g.params, g.initialStakes, l.chain, c);
    k :| k.s == c.hash && k.sh == c.height && k.th == c.height + g.params.epoch
         && StrongLink(g.params, g.initialStakes, l.chain, k);
  }

  /** The case of the theorem where l finalized at or below m. */
  lemma ConflictConvicts(g: GenesisArgs, l: Ledger, m: Ledger)
    requires CollisionFree()
    requires NonNegative(g.initialStakes)
    requires StaticLedger(g, l) && StaticLedger(g, m)
    requires l.state.ffg.finalized.height <= m.state.ffg.finalized.height
    requires !AncestorOf(m.chain, l.state.ffg.finalized, m.state.ffg.finalized)
    ensures ThirdConvicted(g.initialStakes, l.chain, m.chain)
  {
    hide SafetyInvariant;
    hide Supported;
    hide ThirdConvicted;
    FinalizedFacts(g, l);
    FinalizedFacts(g, m);
    var c, d := l.state.ffg.finalized, m.state.ffg.finalized;
    if c.height == d.height {
      SameHeightConvicts(g, l, m, c.hash, d.hash, c.height);
    } else {
      var k := Crossing(g, m, d.hash, d.height, c.height);
      if k.sh == c.height {
        SameHeightConvicts(g, l, m, c.hash, k.s, c.height);
      } else {
        var e := ChildOf(g, l);
        AlignedGap(g.params.epoch, c.height, k.th);
        if k.th == e.th {
          if k.t == e.t {
            SharedPast(g, l.chain, m.chain, c.height, k.th);
          }
        }
        FaultyLinksConvict(g.initialStakes, l.chain, m.chain, e, k);
      }
    }
  }

  lemma FinalizedFacts(g: GenesisArgs, l: Ledger)
    requires StaticLedger(g, l)
    ensures var c := l.state.ffg.finalized;
            && c.hash in l.state.ffg.justified && IsCheckpoint(g.params, l.chain, c.hash, c.height)
            && (c.height == 0 ==> c.hash == GenesisHash(g))
  {
    hide VotesIncluded;
    hide StaticStake;
    hide Grounded;
  }

  /** Conviction does not depend on which chain a vote came from. */
  lemma ConvictedSymmetric(stakes: map<Address, int>, c: seq<Block>, d: seq<Block>)
    requires ThirdConvicted(stakes, c, d)
    ensures ThirdConvicted(stakes, d, c)
  {
    var guilty :| GuiltyThird(stakes, c, d, guilty);
    forall v | v in guilty ensures Convicted(d, c, v) {
      var a, b :| Included(c, a) && Included(d, b) && VerifyVoteFault(a, b).Ok? && VerifyVoteFault(a, b).value.0 == v;
      assert VerifyVoteFault(b, a).Ok? && VerifyVoteFault(b, a).value.0 == v;
    }
    assert GuiltyThird(stakes, d, c, guilty);
  }

  /** Accountable safety: two chains replayed from one genesis with no stake, unstake or slash
      transactions that finalize checkpoints neither of which is an ancestor of the other convict voters
      holding at least a third of the genesis stake. */
  lemma ConflictingFinalityIsAccountable(g: GenesisArgs, blocks: seq<Block>, others: seq<Block>)
    requires CollisionFree()
    requires Replay(g, blocks).Ok? && StaticBlocks(blocks)
    requires Replay(g, others).Ok? && StaticBlocks(others)
    requires var l, m := LedgerAt(g, blocks), LedgerAt(g, others);
             && !AncestorOf(m.chain, l.state.ffg.finalized, m.state.ffg.finalized)
             && !AncestorOf(l.chain, m.state.ffg.finalized, l.state.ffg.finalized)
    ensures ThirdConvicted(g.initialStakes, LedgerAt(g, blocks).chain, LedgerAt(g, others).chain)
  {
    hide StaticLedger;
    hide Replay;
    hide ThirdConvicted;
    var l, m := LedgerAt(g, blocks), LedgerAt(g, others);
    StaticLedgerOf(g, blocks);
    StaticLedgerOf(g, others);
    InitialStakesPositive(g, blocks);
    if l.state.ffg.finalized.height <= m.state.ffg.finalized.height {
      ConflictConvicts(g, l, m);
    } else {
      ConflictConvicts(g, m, l);
      ConvictedSymmetric(g.initialStakes, m.chain, l.chain);
    }
  }

  lemma InitialStakesPositive(g: GenesisArgs, blocks: seq<Block>)
    requires Replay(g, blocks).Ok?
    ensures NonNegative(g.initialStakes)
  {
    hide ApplyBlock;
    ReplayPrefix(g, blocks, 0);
    assert blocks[..0] == [];
  }
}
