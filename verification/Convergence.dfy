/** Trees that hear the same blocks in different orders agree, as long as no valid branch finalized
    against another: one frontier, one head, one canonical ledger. */
module Convergence {
  import opened Records
  import opened Merkle
  import opened Ledger
  import opened Runs
  import opened ForkChoice

  // -- a block hash fixes a whole branch, up to seals ----------------------------------------------

  ghost predicate SameContent(x: seq<Block>, y: seq<Block>) {
    |x| == |y| && forall i :: 0 <= i < |x| ==> Content(x[i]) == Content(y[i])
  }

  lemma {:induction false} AppliedDistinct(p: Params, ctx: Context, st: State, txs: seq<Tx>, seen: set<Hash>)
    requires p.epoch != 0
    requires ApplyTxs(p, ctx, st, txs, seen).Ok?
    ensures Distinct(TxIds(txs))
    ensures forall i :: 0 <= i < |txs| ==> TxIds(txs)[i] !in seen
    decreases |txs|
  {
    hide ApplyTx;
    hide TxValid;
    if txs != [] {
      var rest := txs[1..];
      AppliedDistinct(p, ctx, ApplyTx(p, ctx, st, txs[0]).value, rest, seen + {TxId(txs[0])});
      assert forall i :: 0 < i < |txs| ==> TxIds(txs)[i] == TxIds(rest)[i - 1];
    }
  }

  /** Two accepted blocks with one hash differ at most in their seals. */
  lemma SameHashSameContent(p: Params, l: Ledger, m: Ledger, a: Block, b: Block)
    requires CollisionFree()
    requires p.epoch != 0 && l.chain != [] && m.chain != []
    requires HeaderAccepted(l, a) && RunBlock(p, l, a).Ok?
    requires HeaderAccepted(m, b) && RunBlock(p, m, b).Ok?
    requires BlockHash(a) == BlockHash(b)
    ensures Content(a) == Content(b)
  {
    hide ApplyTxs;
    hide BeginBlock;
    hide ProposerAccepted;
    hide CollisionFree;
    AppliedDistinct(p, ContextOf(l, a), BeginBlock(p, l.state, a), a.txs, {});
    AppliedDistinct(p, ContextOf(m, b), BeginBlock(p, m.state, b), b.txs, {});
    BlockHashBindsTransactions(a, b);
  }

  /** The step from a ledger depends on a block's content only. */
  lemma StepByContent(p: Params, l: Ledger, a: Block, b: Block)
    requires p.epoch != 0 && l.chain != []
    requires Content(a) == Content(b)
    requires ApplyBlock(p, l, a).Ok? && ApplyBlock(p, l, b).Ok?
    ensures ApplyBlock(p, l, a) == ApplyBlock(p, l, b)
  {
    hide ApplyTxs;
    hide Mature;
    hide HeaderAccepted;
    hide Supply;
    assert a.header == Content(b).header && a.txs == Content(b).txs;
    assert BlockHash(a) == BlockHash(b);
  }

  lemma {:induction false} ReplayByContent(g: GenesisArgs, x: seq<Block>, y: seq<Block>)
    requires SameContent(x, y)
    requires Replay(g, x).Ok? && Replay(g, y).Ok?
    ensures LedgerAt(g, x) == LedgerAt(g, y)
    ensures Weight(g, x) == Weight(g, y)
  {
    hide ApplyBlock;
    hide Genesis;
    if x == [] {
      assert x == y;
    } else {
      var x', y' := x[..|x| - 1], y[..|y| - 1];
      ReplayByContent(g, x', y');
      var a, b := x[|x| - 1], y[|y| - 1];
      assert Content(a) == Content(b);
      assert a.header == Content(b).header;
      assert x'+ [a] == x && y' + [b] == y;
      ReplayStep(g, x', a);
      ReplayStep(g, y', b);
      StepByContent(g.params, LedgerAt(g, x'), a, b);
    }
  }

  lemma TipNotGenesis(g: GenesisArgs, y: seq<Block>)
    requires CollisionFree()
    requires y != [] && Replay(g, y).Ok?
    ensures TipHash(g, y) != GenesisHash(g)
  {
    hide Replay;
    BlockAccepted(g, y);
    hide HeaderAccepted;
    hide RunBlock;
    var b := y[|y| - 1];
    assert b.header.index == |y|;
  }

  lemma {:induction false} SameTipSameContent(g: GenesisArgs, x: seq<Block>, y: seq<Block>)
    requires CollisionFree()
    requires Replay(g, x).Ok? && Replay(g, y).Ok?
    requires TipHash(g, x) == TipHash(g, y)
    ensures SameContent(x, y)
  {
    hide Replay;
    hide HeaderAccepted;
    hide RunBlock;
    if x == [] || y == [] {
      if x != [] { TipNotGenesis(g, x); }
      if y != [] { TipNotGenesis(g, y); }
    } else {
      var x', y' := x[..|x| - 1], y[..|y| - 1];
      var a, b := x[|x| - 1], y[|y| - 1];
      BlockAccepted(g, x);
      BlockAccepted(g, y);
      SameHashSameContent(g.params, LedgerAt(g, x'), LedgerAt(g, y'), a, b);
      assert a.header == Content(b).header;
      ParentTip(g, x);
      ParentTip(g, y);
      SameTipSameContent(g, x', y');
      assert x == x' + [a] && y == y' + [b];
    }
  }

  lemma SamePrefixTips(g: GenesisArgs, x: seq<Block>, y: seq<Block>, k: nat)
    requires SameContent(x, y) && k <= |x|
    ensures TipHash(g, x[..k]) == TipHash(g, y[..k])
  {
    if k > 0 {
      assert x[k - 1].header == Content(y[k - 1]).header;
    }
  }

  // -- the block set -----------------------------------------------------------------------------

  /** A branch whose blocks are all in the set, that replays, and that meets the trusted checkpoint. */
  ghost predicate ValidBranch(c: Config, heard: set<Block>, branch: seq<Block>) {
    && (forall i :: 0 <= i < |branch| ==> branch[i] in heard)
    && Replay(c.genesis, branch).Ok?
    && (forall i :: 0 <= i < |branch| ==> MeetsCheckpoint(c, i + 1, branch[i]))
  }

  /** The checkpoint x finalized is on y's branch, unless y finalized lower. */
  ghost predicate Below(g: GenesisArgs, x: seq<Block>, y: seq<Block>)
    requires Replay(g, x).Ok? && Replay(g, y).Ok?
  {
    var f := FinalizedBy(g, x);
    0 <= f.height <= FinalizedBy(g, y).height ==> f.height <= |y| && TipHash(g, y[..f.height]) == f.hash
  }

  /** The finalized checkpoints of all valid branches lie on one line. */
  ghost predicate OneLine(c: Config, heard: set<Block>) {
    forall x, y :: ValidBranch(c, heard, x) && ValidBranch(c, heard, y) ==> Below(c.genesis, x, y)
  }

  /** q is p or a differently sealed twin of it, with a good seal. */
  predicate Twin(q: Block, p: Block) {
    Content(q) == Content(p) && SealAuthentic(q)
  }

  /** Block j of the branch, or a good twin, comes at position at[j] of the order, each after its parent. */
  ghost predicate ArrivesAt(order: seq<Block>, branch: seq<Block>, at: seq<nat>) {
    && |at| == |branch|
    && (forall j :: 0 <= j < |at| ==> at[j] < |order| && Twin(order[at[j]], branch[j]))
    && (forall i, j :: 0 <= i < j < |at| ==> at[i] < at[j])
  }

  ghost predicate Arrives(order: seq<Block>, branch: seq<Block>) {
    exists at :: ArrivesAt(order, branch, at)
  }

  /** An order of blocks of the set, repetitions, forged twins and early arrivals included, in which each valid
      branch comes from root to tip, every block as itself or as a good twin. */
  ghost predicate Hears(c: Config, heard: set<Block>, order: seq<Block>) {
    && (forall i :: 0 <= i < |order| ==> order[i] in heard)
    && (forall branch :: ValidBranch(c, heard, branch) ==> Arrives(order, branch))
  }

  // -- what a run stores is valid ------------------------------------------------------------------

  lemma NewBranchValid(c: Config, heard: set<Block>, t: Tree, b: Block)
    requires ValidTree(c.genesis, t) && b in heard
    requires Add(c, t, b).Added?
    requires b.header.previousHash in t.branches ==> ValidBranch(c, heard, t.branches[b.header.previousHash])
    ensures b.header.previousHash in t.branches && ValidBranch(c, heard, NewBranch(t, b))
  {
    hide Replay;
    hide BranchStored;
    Acceptance(c, t, b);
  }

  /** Every stored branch is a valid branch of what was heard, and one of them finalized the frontier. */
  ghost predicate StoredValid(c: Config, heard: set<Block>, t: Tree) {
    && (forall h :: h in t.branches ==> ValidBranch(c, heard, t.branches[h]))
    && exists h :: h in t.branches && Finalizes(c, t.branches[h], t.finalized)
  }

  ghost predicate Finalizes(c: Config, branch: seq<Block>, f: Checkpoint) {
    Replay(c.genesis, branch).Ok? && FinalizedBy(c.genesis, branch) == f
  }

  lemma AfterStoredValid(c: Config, heard: set<Block>, t: Tree, b: Block)
    requires ValidTree(c.genesis, t) && b in heard
    requires StoredValid(c, heard, t)
    ensures StoredValid(c, heard, After(c, t, b))
  {
    hide Replay;
    hide Add;
    hide BranchStored;
    hide ValidBranch;
    if Add(c, t, b).Added? {
      Acceptance(c, t, b);
      NewBranchValid(c, heard, t, b);
      var next := After(c, t, b);
      var before :| before in t.branches && Finalizes(c, t.branches[before], t.finalized);
      assert next.branches[before] == t.branches[before];
      assert next.branches[BlockHash(b)] == NewBranch(t, b);
      assert Finalizes(c, next.branches[before], next.finalized)
             || Finalizes(c, next.branches[BlockHash(b)], next.finalized);
    }
  }

  lemma {:induction false} RunStoredValid(c: Config, heard: set<Block>, order: seq<Block>)
    requires Genesis(c.genesis).Ok?
    requires forall i :: 0 <= i < |order| ==> order[i] in heard
    ensures StoredValid(c, heard, RunAll(c, order))
  {
    hide StoredValid;
    hide After;
    if order == [] {
      GenesisStoredValid(c, heard);
    } else {
      var front := order[..|order| - 1];
      RunStoredValid(c, heard, front);
      AfterStoredValid(c, heard, RunAll(c, front), order[|order| - 1]);
    }
  }

  /** Whatever a run hears, every branch it stores holds the trusted block at its height, if it reaches it. */
  lemma TrustedBlockHeld(c: Config, order: seq<Block>, h: Hash)
    requires Genesis(c.genesis).Ok?
    requires h in RunAll(c, order).branches
    requires c.checkpoint.Some? && 0 < c.checkpoint.value.height <= |RunAll(c, order).branches[h]|
    ensures BlockHash(RunAll(c, order).branches[h][c.checkpoint.value.height - 1]) == c.checkpoint.value.hash
  {
    hide Genesis;
    hide Replay;
    hide RunAll;
    var heard := set b | b in order;
    RunStoredValid(c, heard, order);
    var branch, n := RunAll(c, order).branches[h], c.checkpoint.value.height;
    assert ValidBranch(c, heard, branch);
    assert MeetsCheckpoint(c, n, branch[n - 1]);
  }

  lemma GenesisStoredValid(c: Config, heard: set<Block>)
    requires Genesis(c.genesis).Ok?
    ensures StoredValid(c, heard, GenesisTree(c))
  {
    var h := GenesisHash(c.genesis);
    assert Finalizes(c, GenesisTree(c).branches[h], GenesisTree(c).finalized);
  }

  // -- a branch above every frontier gets in -------------------------------------------------------

  /** t's frontier lies on branch. */
  ghost predicate FrontierOn(c: Config, t: Tree, branch: seq<Block>) {
    0 <= t.finalized.height <= |branch| && TipHash(c.genesis, branch[..t.finalized.height]) == t.finalized.hash
  }

  /** So does every frontier a run passes through. */
  ghost predicate FrontiersOn(c: Config, order: seq<Block>, branch: seq<Block>)
    requires Genesis(c.genesis).Ok?
  {
    forall k :: 0 <= k <= |order| ==> FrontierOn(c, RunAll(c, order[..k]), branch)
  }

  lemma StoredSameContent(c: Config, t: Tree, branch: seq<Block>, k: nat)
    requires CollisionFree()
    requires ValidTree(c.genesis, t)
    requires Replay(c.genesis, branch).Ok? && k <= |branch|
    requires TipHash(c.genesis, branch[..k]) in t.branches
    ensures SameContent(t.branches[TipHash(c.genesis, branch[..k])], branch[..k])
  {
    hide Replay;
    hide CollisionFree;
    hide SameContent;
    var h := TipHash(c.genesis, branch[..k]);
    ReplayPrefix(c.genesis, branch, k);
    assert BranchStored(c.genesis, t.branches, h);
    SameTipSameContent(c.genesis, t.branches[h], branch[..k]);
  }

  /** A block of branch at or below the frontier is already stored. */
  lemma BelowFrontierStored(c: Config, t: Tree, branch: seq<Block>, j: nat)
    requires CollisionFree()
    requires ValidTree(c.genesis, t)
    requires Replay(c.genesis, branch).Ok?
    requires FrontierOn(c, t, branch)
    requires j < t.finalized.height
    ensures BlockHash(branch[j]) in t.branches
  {
    hide Replay;
    hide CollisionFree;
    hide BranchStored;
    var f := t.finalized;
    StoredSameContent(c, t, branch, f.height);
    var stored := t.branches[f.hash];
    AncestorStored(c.genesis, t, f.hash, j + 1);
    SamePrefixTips(c.genesis, stored, branch[..f.height], j + 1);
    assert branch[..f.height][..j + 1] == branch[..j + 1];
  }

  /** Above the frontier, the parent's stored branch contains it. */
  lemma AboveFrontierDescends(c: Config, t: Tree, branch: seq<Block>, j: nat)
    requires CollisionFree()
    requires ValidTree(c.genesis, t)
    requires Replay(c.genesis, branch).Ok?
    requires FrontierOn(c, t, branch)
    requires t.finalized.height <= j <= |branch|
    requires TipHash(c.genesis, branch[..j]) in t.branches
    ensures Descends(t, TipHash(c.genesis, branch[..j]))
    ensures |t.branches[TipHash(c.genesis, branch[..j])]| == j
  {
    hide Replay;
    hide CollisionFree;
    hide BranchStored;
    var f := t.finalized;
    var h := TipHash(c.genesis, branch[..j]);
    StoredSameContent(c, t, branch, j);
    var stored := t.branches[h];
    AncestorStored(c.genesis, t, h, f.height);
    SamePrefixTips(c.genesis, stored, branch[..j], f.height);
    assert branch[..j][..f.height] == branch[..f.height];
    assert stored[..f.height] <= stored;
  }

  /** A stored twin of a prefix replays to the same ledger. */
  lemma StoredLedger(c: Config, t: Tree, branch: seq<Block>, j: nat)
    requires CollisionFree()
    requires ValidTree(c.genesis, t)
    requires Replay(c.genesis, branch).Ok? && j <= |branch|
    requires TipHash(c.genesis, branch[..j]) in t.branches
    ensures var stored := t.branches[TipHash(c.genesis, branch[..j])];
            && Replay(c.genesis, branch[..j]).Ok? && Replay(c.genesis, stored).Ok?
            && LedgerAt(c.genesis, stored) == LedgerAt(c.genesis, branch[..j])
  {
    hide Replay;
    hide CollisionFree;
    hide TipHash;
    hide SameContent;
    hide Weight;
    var h := TipHash(c.genesis, branch[..j]);
    ReplayPrefix(c.genesis, branch, j);
    StoredSameContent(c, t, branch, j);
    assert BranchStored(c.genesis, t.branches, h);
    ReplayByContent(c.genesis, t.branches[h], branch[..j]);
  }

  /** So the next block is as valid on the twin. */
  lemma ValidOnStored(c: Config, t: Tree, branch: seq<Block>, j: nat)
    requires CollisionFree()
    requires ValidTree(c.genesis, t)
    requires Replay(c.genesis, branch).Ok? && j < |branch|
    requires TipHash(c.genesis, branch[..j]) in t.branches
    ensures Replay(c.genesis, t.branches[TipHash(c.genesis, branch[..j])] + [branch[j]]).Ok?
  {
    hide Replay;
    hide CollisionFree;
    hide TipHash;
    hide ApplyBlock;
    hide ValidTree;
    StoredLedger(c, t, branch, j);
    ReplayPrefix(c.genesis, branch, j + 1);
    assert branch[..j + 1] == branch[..j] + [branch[j]];
    ReplayStep(c.genesis, branch[..j], branch[j]);
    ReplayStep(c.genesis, t.branches[TipHash(c.genesis, branch[..j])], branch[j]);
  }

  /** A step reads the content and that the seal is good, nothing else. */
  lemma TwinApplies(p: Params, l: Ledger, a: Block, q: Block)
    requires p.epoch != 0 && l.chain != [] && ApplyBlock(p, l, a).Ok? && Twin(q, a)
    ensures ApplyBlock(p, l, q).Ok?
  {
    hide ApplyTxs;
    hide Mature;
    hide Supply;
    hide MerkleRoot;
    assert q.header == Content(a).header && q.txs == Content(a).txs;
    assert BlockHash(q) == BlockHash(a);
  }

  lemma TwinOnStored(c: Config, t: Tree, branch: seq<Block>, j: nat, q: Block)
    requires CollisionFree()
    requires ValidTree(c.genesis, t)
    requires Replay(c.genesis, branch).Ok? && j < |branch| && Twin(q, branch[j])
    requires TipHash(c.genesis, branch[..j]) in t.branches
    ensures Replay(c.genesis, t.branches[TipHash(c.genesis, branch[..j])] + [q]).Ok?
  {
    hide Replay;
    hide CollisionFree;
    hide TipHash;
    hide ApplyBlock;
    hide ValidTree;
    hide Twin;
    ValidOnStored(c, t, branch, j);
    var stored := t.branches[TipHash(c.genesis, branch[..j])];
    ReplayStep(c.genesis, stored, branch[j]);
    ReplayStep(c.genesis, stored, q);
    TwinApplies(c.genesis.params, LedgerAt(c.genesis, stored), branch[j], q);
  }

  /** A good twin of a block whose parent is stored and whose branch is valid and above the frontier gets in. */
  lemma GetsIn(c: Config, heard: set<Block>, t: Tree, branch: seq<Block>, j: nat, q: Block)
    requires CollisionFree()
    requires ValidTree(c.genesis, t)
    requires ValidBranch(c, heard, branch) && j < |branch| && Twin(q, branch[j])
    requires FrontierOn(c, t, branch)
    requires TipHash(c.genesis, branch[..j]) in t.branches
    ensures BlockHash(branch[j]) in After(c, t, q).branches
  {
    hide Replay;
    hide CollisionFree;
    hide BranchStored;
    hide TipHash;
    hide FrontierOn;
    hide FinalizedBy;
    assert MeetsCheckpoint(c, j + 1, branch[j]);
    ParentHash(c, branch, j);
    TwinOnStored(c, t, branch, j, q);
    assert q.header == Content(branch[j]).header;
    if j < t.finalized.height {
      BelowFrontierStored(c, t, branch, j);
    } else {
      AboveFrontierDescends(c, t, branch, j);
    }
  }

  /** A valid branch that contains every frontier of a run is stored whole, each block by the time it or its
      twin came, whatever else came between and whatever comes after. */
  lemma {:induction false} BranchComplete(c: Config, heard: set<Block>, order: seq<Block>, branch: seq<Block>,
                                          at: seq<nat>, j: nat)
    requires CollisionFree() && Genesis(c.genesis).Ok?
    requires ValidBranch(c, heard, branch) && j < |branch|
    requires ArrivesAt(order, branch, at) && FrontiersOn(c, order, branch)
    ensures BlockHash(branch[j]) in RunAll(c, order[..at[j] + 1]).branches
    decreases j
  {
    hide Replay;
    hide CollisionFree;
    hide FrontierOn;
    hide After;
    hide Genesis;
    hide BranchStored;
    hide Twin;
    hide RunAll;
    hide TipHash;
    var front, q := order[..at[j]], order[at[j]];
    assert order[..at[j] + 1] == front + [q];
    RunNext(c, front, q);
    ParentHash(c, branch, j);
    if j > 0 {
      BranchComplete(c, heard, order, branch, at, j - 1);
      RunGrew(c, front, at[j - 1] + 1);
      assert front[..at[j - 1] + 1] == order[..at[j - 1] + 1];
    } else {
      GenesisStored(c, front);
    }
    GetsIn(c, heard, RunAll(c, front), branch, j, q);
  }

  lemma RunNext(c: Config, order: seq<Block>, b: Block)
    requires Genesis(c.genesis).Ok?
    ensures ValidTree(c.genesis, RunAll(c, order))
    ensures RunAll(c, order + [b]) == After(c, RunAll(c, order), b)
  {
    hide Genesis;
    hide After;
    hide BranchStored;
    assert (order + [b])[..|order|] == order;
  }

  lemma ParentHash(c: Config, branch: seq<Block>, j: nat)
    requires Replay(c.genesis, branch).Ok? && j < |branch|
    ensures branch[j].header.previousHash == TipHash(c.genesis, branch[..j])
    ensures j > 0 ==> TipHash(c.genesis, branch[..j]) == BlockHash(branch[j - 1])
    ensures j == 0 ==> TipHash(c.genesis, branch[..j]) == GenesisHash(c.genesis)
  {
    hide Replay;
    ReplayPrefix(c.genesis, branch, j + 1);
    ParentTip(c.genesis, branch[..j + 1]);
    assert branch[..j + 1][..j] == branch[..j];
  }

  lemma GenesisStored(c: Config, order: seq<Block>)
    requires Genesis(c.genesis).Ok?
    ensures GenesisHash(c.genesis) in RunAll(c, order).branches
  {
    hide Genesis;
    hide BranchStored;
    assert ValidTree(c.genesis, RunAll(c, order));
  }

  // -- the frontiers of a run stay below a given checkpoint -----------------------------------------

  /** Any frontier a run passes, no higher than what the valid branch y finalized, lies on every branch
      that contains y's finalized checkpoint. */
  lemma FrontierBelow(c: Config, heard: set<Block>, t: Tree, y: seq<Block>, branch: seq<Block>)
    requires CollisionFree() && OneLine(c, heard)
    requires ValidTree(c.genesis, t) && StoredValid(c, heard, t)
    requires ValidBranch(c, heard, y) && ValidBranch(c, heard, branch)
    requires t.finalized.height <= FinalizedBy(c.genesis, y).height <= |branch|
    requires TipHash(c.genesis, branch[..FinalizedBy(c.genesis, y).height]) == FinalizedBy(c.genesis, y).hash
    ensures FrontierOn(c, t, branch)
  {
    hide Replay;
    hide CollisionFree;
    hide BranchStored;
    hide TipHash;
    hide SameContent;
    hide FinalizedBy;
    var g := c.genesis;
    var h :| h in t.branches && Finalizes(c, t.branches[h], t.finalized);
    assert ValidBranch(c, heard, t.branches[h]);
    assert Below(g, t.branches[h], y);
    var f, e := t.finalized, FinalizedBy(g, y);
    FinalizedOnBranch(g, y);
    FinalizedOnBranch(g, t.branches[h]);
    CommonPast(g, y, branch, e.height, f.height);
  }

  lemma CommonPast(g: GenesisArgs, y: seq<Block>, z: seq<Block>, n: nat, k: nat)
    requires CollisionFree()
    requires Replay(g, y).Ok? && Replay(g, z).Ok?
    requires k <= n <= |y| && n <= |z|
    requires TipHash(g, y[..n]) == TipHash(g, z[..n])
    ensures TipHash(g, y[..k]) == TipHash(g, z[..k])
  {
    hide Replay;
    hide CollisionFree;
    hide TipHash;
    hide SameContent;
    ReplayPrefix(g, y, n);
    ReplayPrefix(g, z, n);
    SameTipSameContent(g, y[..n], z[..n]);
    SamePrefixTips(g, y[..n], z[..n], k);
    assert y[..n][..k] == y[..k] && z[..n][..k] == z[..k];
  }

  lemma RunFrontiersBelow(c: Config, heard: set<Block>, order: seq<Block>, y: seq<Block>, branch: seq<Block>, k: nat)
    requires CollisionFree() && OneLine(c, heard) && Genesis(c.genesis).Ok?
    requires Hears(c, heard, order) && k <= |order|
    requires ValidBranch(c, heard, y) && ValidBranch(c, heard, branch)
    requires RunAll(c, order).finalized.height <= FinalizedBy(c.genesis, y).height <= |branch|
    requires TipHash(c.genesis, branch[..FinalizedBy(c.genesis, y).height]) == FinalizedBy(c.genesis, y).hash
    ensures FrontierOn(c, RunAll(c, order[..k]), branch)
  {
    hide Replay;
    hide CollisionFree;
    hide Genesis;
    hide RunAll;
    hide ValidTree;
    hide StoredValid;
    hide ValidBranch;
    hide OneLine;
    hide TipHash;
    hide FinalizedBy;
    RunGrew(c, order, k);
    RunStoredValid(c, heard, order[..k]);
    FrontierBelow(c, heard, RunAll(c, order[..k]), y, branch);
  }

  lemma BranchStoredWhole(c: Config, heard: set<Block>, order: seq<Block>, branch: seq<Block>, at: seq<nat>)
    requires CollisionFree() && Genesis(c.genesis).Ok?
    requires ValidBranch(c, heard, branch) && branch != []
    requires ArrivesAt(order, branch, at) && FrontiersOn(c, order, branch)
    ensures BlockHash(branch[|branch| - 1]) in RunAll(c, order).branches
  {
    hide Replay;
    hide CollisionFree;
    hide Genesis;
    hide RunAll;
    hide FrontiersOn;
    hide ValidTree;
    hide Twin;
    var j := |branch| - 1;
    BranchComplete(c, heard, order, branch, at, j);
    RunGrew(c, order, at[j] + 1);
  }

  /** So a valid branch that contains the highest checkpoint in play is stored whole. */
  lemma TipStored(c: Config, heard: set<Block>, order: seq<Block>, y: seq<Block>, branch: seq<Block>)
    requires CollisionFree() && OneLine(c, heard) && Genesis(c.genesis).Ok?
    requires Hears(c, heard, order)
    requires ValidBranch(c, heard, y) && ValidBranch(c, heard, branch)
    requires RunAll(c, order).finalized.height <= FinalizedBy(c.genesis, y).height <= |branch|
    requires TipHash(c.genesis, branch[..FinalizedBy(c.genesis, y).height]) == FinalizedBy(c.genesis, y).hash
    ensures TipHash(c.genesis, branch) in RunAll(c, order).branches
    ensures SameContent(RunAll(c, order).branches[TipHash(c.genesis, branch)], branch)
    ensures FrontierOn(c, RunAll(c, order), branch)
  {
    hide Replay;
    hide CollisionFree;
    hide Genesis;
    hide RunAll;
    hide OneLine;
    hide FrontierOn;
    hide FrontiersOn;
    hide ArrivesAt;
    hide ValidTree;
    hide SameContent;
    AllFrontiersBelow(c, heard, order, y, branch);
    if branch == [] {
      GenesisStored(c, order);
    } else {
      assert Arrives(order, branch);
      var at :| ArrivesAt(order, branch, at);
      BranchStoredWhole(c, heard, order, branch, at);
    }
    assert branch[..|branch|] == branch;
    StoredSameContent(c, RunAll(c, order), branch, |branch|);
  }

  lemma AllFrontiersBelow(c: Config, heard: set<Block>, order: seq<Block>, y: seq<Block>, branch: seq<Block>)
    requires CollisionFree() && OneLine(c, heard) && Genesis(c.genesis).Ok?
    requires Hears(c, heard, order)
    requires ValidBranch(c, heard, y) && ValidBranch(c, heard, branch)
    requires RunAll(c, order).finalized.height <= FinalizedBy(c.genesis, y).height <= |branch|
    requires TipHash(c.genesis, branch[..FinalizedBy(c.genesis, y).height]) == FinalizedBy(c.genesis, y).hash
    ensures FrontiersOn(c, order, branch) && FrontierOn(c, RunAll(c, order), branch)
  {
    hide Replay;
    hide CollisionFree;
    hide Genesis;
    hide RunAll;
    hide OneLine;
    hide FrontierOn;
    hide ValidBranch;
    hide Hears;
    hide TipHash;
    hide FinalizedBy;
    forall k | 0 <= k <= |order| ensures FrontierOn(c, RunAll(c, order[..k]), branch) {
      RunFrontiersBelow(c, heard, order, y, branch, k);
    }
    assert order[..|order|] == order;
  }

  // -- two trees ----------------------------------------------------------------------------------

  lemma FrontierFinalizer(c: Config, heard: set<Block>, order: seq<Block>) returns (y: seq<Block>)
    requires Genesis(c.genesis).Ok? && Hears(c, heard, order)
    ensures ValidBranch(c, heard, y)
    ensures FinalizedBy(c.genesis, y) == RunAll(c, order).finalized
  {
    hide Genesis;
    hide RunAll;
    hide ValidBranch;
    hide Replay;
    RunStoredValid(c, heard, order);
    var t := RunAll(c, order);
    var h :| h in t.branches && Finalizes(c, t.branches[h], t.finalized);
    y := t.branches[h];
  }

  lemma FrontierAtMost(c: Config, heard: set<Block>, order: seq<Block>, other: seq<Block>)
    requires CollisionFree() && OneLine(c, heard) && Genesis(c.genesis).Ok?
    requires Hears(c, heard, order) && Hears(c, heard, other)
    requires RunAll(c, order).finalized.height <= RunAll(c, other).finalized.height
    ensures RunAll(c, order).finalized == RunAll(c, other).finalized
  {
    hide Replay;
    hide CollisionFree;
    hide Genesis;
    hide RunAll;
    hide OneLine;
    hide ValidBranch;
    hide SameContent;
    hide Hears;
    hide BranchStored;
    hide Weight;
    var t := RunAll(c, order);
    var y := FrontierFinalizer(c, heard, other);
    ValidReplays(c, heard, y);
    FinalizedOnBranch(c.genesis, y);
    TipStored(c, heard, order, y, y);
    var h := TipHash(c.genesis, y);
    assert FinalizedBy(c.genesis, t.branches[h]).height <= t.finalized.height by { FrontierHighest(c, t, h); }
    ReplayByContent(c.genesis, t.branches[h], y);
  }

  lemma ValidReplays(c: Config, heard: set<Block>, y: seq<Block>)
    requires ValidBranch(c, heard, y)
    ensures Replay(c.genesis, y).Ok?
  {
    hide Replay;
  }

  lemma FrontierHighest(c: Config, t: Tree, h: Hash)
    requires ValidTree(c.genesis, t) && h in t.branches
    ensures Replay(c.genesis, t.branches[h]).Ok? && FinalizedBy(c.genesis, t.branches[h]).height <= t.finalized.height
  {
    hide Replay;
    assert BranchStored(c.genesis, t.branches, h);
  }

  /** Both trees raise their frontier to the same block. */
  lemma SameFrontier(c: Config, heard: set<Block>, order: seq<Block>, other: seq<Block>)
    requires CollisionFree() && OneLine(c, heard) && Genesis(c.genesis).Ok?
    requires Hears(c, heard, order) && Hears(c, heard, other)
    ensures RunAll(c, order).finalized == RunAll(c, other).finalized
  {
    hide CollisionFree;
    hide Genesis;
    hide RunAll;
    hide OneLine;
    hide Hears;
    if RunAll(c, order).finalized.height <= RunAll(c, other).finalized.height {
      FrontierAtMost(c, heard, order, other);
    } else {
      FrontierAtMost(c, heard, other, order);
    }
  }

  /** What one tree stores above the common frontier, the other stores too. */
  lemma DescendantShared(c: Config, heard: set<Block>, order: seq<Block>, other: seq<Block>, h: Hash)
    requires CollisionFree() && OneLine(c, heard) && Genesis(c.genesis).Ok?
    requires Hears(c, heard, order) && Hears(c, heard, other)
    requires RunAll(c, order).finalized == RunAll(c, other).finalized
    requires h in RunAll(c, order).branches && RunAll(c, order).finalized.hash in RunAll(c, order).branches
    requires Descends(RunAll(c, order), h)
    ensures h in RunAll(c, other).branches && RunAll(c, other).finalized.hash in RunAll(c, other).branches
    ensures Descends(RunAll(c, other), h)
    ensures SameContent(RunAll(c, other).branches[h], RunAll(c, order).branches[h])
  {
    hide Replay;
    hide CollisionFree;
    hide Genesis;
    hide RunAll;
    hide OneLine;
    hide ValidBranch;
    hide SameContent;
    hide Hears;
    hide TipHash;
    hide Descends;
    hide ValidTree;
    var t := RunAll(c, order);
    var branch := t.branches[h];
    StoredBranchFacts(c, heard, order, h);
    var y := FrontierFinalizer(c, heard, other);
    FrontierTip(c, t, h);
    TipStored(c, heard, other, y, branch);
    RunFrontierStored(c, other);
    assert branch[..|branch|] == branch;
    FrontierOnLength(c, RunAll(c, other), branch);
    AboveFrontierDescends(c, RunAll(c, other), branch, |branch|);
  }

  lemma FrontierOnLength(c: Config, t: Tree, branch: seq<Block>)
    requires FrontierOn(c, t, branch)
    ensures t.finalized.height <= |branch|
  {
  }

  lemma StoredBranchFacts(c: Config, heard: set<Block>, order: seq<Block>, h: Hash)
    requires Genesis(c.genesis).Ok? && Hears(c, heard, order)
    requires h in RunAll(c, order).branches
    ensures var branch := RunAll(c, order).branches[h];
            ValidBranch(c, heard, branch) && Replay(c.genesis, branch).Ok? && TipHash(c.genesis, branch) == h
  {
    hide Genesis;
    hide RunAll;
    hide Replay;
    hide TipHash;
    RunStoredValid(c, heard, order);
    var t := RunAll(c, order);
    assert BranchStored(c.genesis, t.branches, h);
  }

  lemma FrontierTip(c: Config, t: Tree, h: Hash)
    requires ValidTree(c.genesis, t) && h in t.branches
    requires Descends(t, h)
    ensures 0 <= t.finalized.height <= |t.branches[h]|
    ensures TipHash(c.genesis, t.branches[h][..t.finalized.height]) == t.finalized.hash
  {
    hide Replay;
    hide TipHash;
    assert BranchStored(c.genesis, t.branches, t.finalized.hash);
    assert t.branches[h][..t.finalized.height] == t.branches[t.finalized.hash];
  }

  lemma SameContentLedger(c: Config, t: Tree, r: Tree, h: Hash)
    requires ValidTree(c.genesis, t) && ValidTree(c.genesis, r)
    requires h in t.branches && h in r.branches && SameContent(r.branches[h], t.branches[h])
    ensures Replay(c.genesis, t.branches[h]).Ok? && Replay(c.genesis, r.branches[h]).Ok?
    ensures LedgerAt(c.genesis, r.branches[h]) == LedgerAt(c.genesis, t.branches[h])
    ensures Weight(c.genesis, r.branches[h]) == Weight(c.genesis, t.branches[h])
  {
    hide Replay;
    hide Weight;
    assert BranchStored(c.genesis, t.branches, h) && BranchStored(c.genesis, r.branches, h);
    ReplayByContent(c.genesis, r.branches[h], t.branches[h]);
  }

  /** Convergence: two trees with one genesis and checkpoint that hear one block set, each in any order in
      which a valid branch comes from root to tip, in whatever twins, end with the same frontier, the same
      head and the same canonical ledger, whatever each of them refused on the way. */
  lemma TreesConverge(c: Config, heard: set<Block>, order: seq<Block>, other: seq<Block>, head: Hash, otherHead: Hash)
    requires CollisionFree() && OneLine(c, heard) && Genesis(c.genesis).Ok?
    requires Hears(c, heard, order) && Hears(c, heard, other)
    requires IsHead(c.genesis, RunAll(c, order), head) && IsHead(c.genesis, RunAll(c, other), otherHead)
    ensures RunAll(c, order).finalized == RunAll(c, other).finalized
    ensures head == otherHead
    ensures var x, y := RunAll(c, order).branches[head], RunAll(c, other).branches[head];
            && Replay(c.genesis, x).Ok? && Replay(c.genesis, y).Ok?
            && LedgerAt(c.genesis, x) == LedgerAt(c.genesis, y)
  {
    hide Replay;
    hide CollisionFree;
    hide Genesis;
    hide RunAll;
    hide OneLine;
    hide ValidTree;
    hide SameContent;
    hide Hears;
    hide Descends;
    hide Weight;
    SameFrontier(c, heard, order, other);
    var t, r := RunAll(c, order), RunAll(c, other);
    DescendantShared(c, heard, order, other, head);
    DescendantShared(c, heard, other, order, otherHead);
    SameContentLedger(c, t, r, head);
    SameContentLedger(c, r, t, otherHead);
  }

  // -- parent-before-child orders hear everything ----------------------------------------------------

  ghost predicate TwinIn(order: seq<Block>, p: Block) {
    exists k :: 0 <= k < |order| && Twin(order[k], p)
  }

  /** Block j of the valid branch has the hash that b names as its parent. */
  ghost predicate IsParent(c: Config, heard: set<Block>, branch: seq<Block>, j: int, b: Block) {
    ValidBranch(c, heard, branch) && 0 <= j < |branch| && BlockHash(branch[j]) == b.header.previousHash
  }

  /** The whole set comes, and before a block comes a good twin of each block of a valid branch with its
      parent's hash. Where and how often other twins of the parent come does not matter. */
  ghost predicate ParentFirst(c: Config, heard: set<Block>, order: seq<Block>) {
    && (forall i :: 0 <= i < |order| ==> order[i] in heard)
    && (forall b :: b in heard ==> b in order)
    && (forall i, branch, j :: 0 <= i < |order| && IsParent(c, heard, branch, j, order[i]) ==>
          TwinIn(order[..i], branch[j]))
  }

  lemma ArrivesNext(order: seq<Block>, branch: seq<Block>, j: nat, at: seq<nat>, i: nat)
    requires j < |branch| && ArrivesAt(order, branch[..j], at)
    requires i < |order| && Twin(order[i], branch[j]) && (j > 0 ==> at[j - 1] < i)
    ensures ArrivesAt(order, branch[..j + 1], at + [i])
  {
    hide Twin;
    var next := at + [i];
    forall m | 0 <= m < |next| ensures next[m] < |order| && Twin(order[next[m]], branch[..j + 1][m]) {
      if m < j {
        assert branch[..j + 1][m] == branch[..j][m];
      }
    }
  }

  /** Before a twin of block j of a valid branch comes one of block j - 1. */
  lemma ParentTwin(c: Config, heard: set<Block>, order: seq<Block>, branch: seq<Block>, j: nat, i: nat) returns (k: nat)
    requires ParentFirst(c, heard, order) && ValidBranch(c, heard, branch)
    requires 0 < j < |branch| && i < |order| && Twin(order[i], branch[j])
    ensures k < i && Twin(order[k], branch[j - 1])
  {
    hide Replay;
    hide TipHash;
    ParentHash(c, branch, j);
    assert order[i].header == Content(branch[j]).header;
    assert IsParent(c, heard, branch, j - 1, order[i]);
    assert TwinIn(order[..i], branch[j - 1]);
    k :| 0 <= k < i && Twin(order[k], branch[j - 1]);
  }

  lemma {:induction false} ArrivesUpTo(c: Config, heard: set<Block>, order: seq<Block>, branch: seq<Block>,
                                       j: nat, i: nat)
    returns (at: seq<nat>)
    requires ParentFirst(c, heard, order) && ValidBranch(c, heard, branch)
    requires j < |branch| && i < |order| && Twin(order[i], branch[j])
    ensures ArrivesAt(order, branch[..j + 1], at) && at[j] == i
    decreases j
  {
    hide ParentFirst;
    hide ValidBranch;
    hide Twin;
    if j == 0 {
      assert branch[..0] == [];
      ArrivesNext(order, branch, 0, [], i);
      at := [i];
    } else {
      var k := ParentTwin(c, heard, order, branch, j, i);
      var before := ArrivesUpTo(c, heard, order, branch, j - 1, k);
      ArrivesNext(order, branch, j, before, i);
      at := before + [i];
    }
  }

  lemma ReplaySealed(g: GenesisArgs, branch: seq<Block>)
    requires branch != [] && Replay(g, branch).Ok?
    ensures SealAuthentic(branch[|branch| - 1])
  {
    hide Replay;
    hide RunBlock;
    hide MerkleRoot;
    BlockAccepted(g, branch);
  }

  lemma ParentFirstHears(c: Config, heard: set<Block>, order: seq<Block>)
    requires ParentFirst(c, heard, order)
    ensures Hears(c, heard, order)
  {
    hide Replay;
    hide ArrivesAt;
    forall branch | ValidBranch(c, heard, branch) ensures Arrives(order, branch) {
      if branch == [] {
        assert ArrivesAt(order, [], []) by { ArrivesEmpty(order); }
      } else {
        var j := |branch| - 1;
        ReplaySealed(c.genesis, branch);
        assert branch[j] in order;
        var i :| 0 <= i < |order| && order[i] == branch[j];
        var at := ArrivesUpTo(c, heard, order, branch, j, i);
        assert branch[..j + 1] == branch;
      }
    }
  }

  lemma ArrivesEmpty(order: seq<Block>)
    ensures ArrivesAt(order, [], [])
  {
  }

  lemma ValidIndex(c: Config, heard: set<Block>, branch: seq<Block>, j: nat)
    requires ValidBranch(c, heard, branch) && j < |branch|
    ensures branch[j].header.index == j + 1
  {
    hide Replay;
    ReplayChain(c.genesis, branch);
    assert LedgerAt(c.genesis, branch).chain[j + 1] == Content(branch[j]);
  }

  /** A re-sealed or forged twin of the parent heard after the child is within the hypothesis. */
  lemma LateTwinAdmitted(c: Config, a: Block, b: Block, late: Block)
    requires CollisionFree() && Replay(c.genesis, [a, b]).Ok? && Content(late) == Content(a)
    ensures ParentFirst(c, {a, b, late}, [a, b, late])
  {
    hide Replay;
    hide ValidBranch;
    var heard, order := {a, b, late}, [a, b, late];
    ReplayChain(c.genesis, [a, b]);
    assert LedgerAt(c.genesis, [a, b]).chain[1] == Content([a, b][0]);
    assert [a, b][0].header.previousHash == GenesisHash(c.genesis) && [a, b][1].header.previousHash == BlockHash(a);
    ReplayPrefix(c.genesis, [a, b], 1);
    assert [a, b][..1] == [a];
    ReplaySealed(c.genesis, [a]);
    assert late.header == Content(a).header;
    forall i, branch, j | 0 <= i < |order| && IsParent(c, heard, branch, j, order[i])
      ensures TwinIn(order[..i], branch[j])
    {
      ValidIndex(c, heard, branch, j);
      ValidFrom(c, heard, branch, j);
      assert i == 1;
      assert Twin(order[..1][0], branch[j]);
    }
  }

  lemma ValidFrom(c: Config, heard: set<Block>, branch: seq<Block>, j: nat)
    requires ValidBranch(c, heard, branch) && j < |branch|
    ensures branch[j] in heard
  {
    hide Replay;
  }
}
