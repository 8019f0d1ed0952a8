/** forkchoice.py at its simplest: a tree is its stored branches and a finality frontier; a block is
    judged by replaying its whole branch from genesis, and the head is the best block anywhere above
    the frontier. The class BlockTree is proved to be this, fast path included. */
module ForkChoice {
  import opened Sums
  import opened Records
  import opened Election
  import opened Ledger
  import opened Runs
  import opened Justification

  /** The genesis arguments and the operator's weak-subjectivity checkpoint. */
  datatype Config = Config(genesis: GenesisArgs, checkpoint: Option<Checkpoint>)

  /** Every stored block's branch, from the first block after genesis up to it, by block hash. */
  datatype Tree = Tree(branches: map<Hash, seq<Block>>, finalized: Checkpoint)

  function TipHash(g: GenesisArgs, branch: seq<Block>): Hash {
    if branch == [] then GenesisHash(g) else BlockHash(branch[|branch| - 1])
  }

  /** The summed stake of the proposers, each at the moment it proposed. */
  function Weight(g: GenesisArgs, branch: seq<Block>): int {
    if branch == [] then 0 else
      var before := Replay(g, branch[..|branch| - 1]);
      Weight(g, branch[..|branch| - 1])
      + (if before.Ok? then Get(before.value.state.accounts.stakes, branch[|branch| - 1].header.validator) else 0)
  }

  /** The finalized checkpoint a branch carries in its own ledger. */
  function FinalizedBy(g: GenesisArgs, branch: seq<Block>): Checkpoint
    requires Replay(g, branch).Ok?
  {
    LedgerAt(g, branch).state.ffg.finalized
  }

  function GenesisTree(c: Config): Tree {
    Tree(map[GenesisHash(c.genesis) := []], Checkpoint(GenesisHash(c.genesis), 0))
  }

  /** h lies on or above the frontier block. */
  predicate Descends(t: Tree, h: Hash)
    requires h in t.branches && t.finalized.hash in t.branches
  {
    t.branches[t.finalized.hash] <= t.branches[h]
  }

  // -- what every reachable tree is ------------------------------------------------------------

  /** A stored branch replays, ends in its own hash, and its parent's branch is stored too. */
  ghost predicate BranchStored(g: GenesisArgs, branches: map<Hash, seq<Block>>, h: Hash)
    requires h in branches
  {
    var branch := branches[h];
    && Replay(g, branch).Ok?
    && TipHash(g, branch) == h
    && (branch != [] ==>
          var front := branch[..|branch| - 1];
          TipHash(g, front) in branches && branches[TipHash(g, front)] == front)
  }

  ghost predicate ValidTree(g: GenesisArgs, t: Tree) {
    && GenesisHash(g) in t.branches && t.branches[GenesisHash(g)] == []
    && (forall h {:trigger BranchStored(g, t.branches, h)} :: h in t.branches ==> BranchStored(g, t.branches, h))
    && t.finalized.hash in t.branches && |t.branches[t.finalized.hash]| == t.finalized.height
    && (forall h :: h in t.branches && Replay(g, t.branches[h]).Ok? ==>
          FinalizedBy(g, t.branches[h]).height <= t.finalized.height)
  }

  lemma GenesisTreeValid(c: Config)
    requires Genesis(c.genesis).Ok?
    ensures ValidTree(c.genesis, GenesisTree(c))
  {
  }

  /** Every ancestor of a stored block is stored, with the branch one expects. */
  lemma {:induction false} AncestorStored(g: GenesisArgs, t: Tree, h: Hash, k: nat)
    requires ValidTree(g, t) && h in t.branches && k <= |t.branches[h]|
    ensures TipHash(g, t.branches[h][..k]) in t.branches
    ensures t.branches[TipHash(g, t.branches[h][..k])] == t.branches[h][..k]
    decreases |t.branches[h]|
  {
    hide Replay;
    hide TipHash;
    hide FinalizedBy;
    var branch := t.branches[h];
    assert BranchStored(g, t.branches, h);
    if k == |branch| {
      assert branch[..k] == branch;
    } else {
      var front := branch[..|branch| - 1];
      AncestorStored(g, t, TipHash(g, front), k);
      assert front[..k] == branch[..k];
    }
  }

  /** The checkpoint a stored branch finalized is a stored ancestor of it. */
  lemma FinalizedOnBranch(g: GenesisArgs, branch: seq<Block>)
    requires Replay(g, branch).Ok?
    ensures var f := FinalizedBy(g, branch);
            0 <= f.height <= |branch| && TipHash(g, branch[..f.height]) == f.hash
  {
    hide Replay;
    ReplayAnchored(g, branch);
    ReplayChain(g, branch);
    var f := FinalizedBy(g, branch);
    assert IsCheckpoint(g.params, LedgerAt(g, branch).chain, f.hash, f.height);
    if f.height > 0 {
      assert LedgerAt(g, branch).chain[(f.height - 1) + 1] == Content(branch[f.height - 1]);
    }
  }

  // -- adding a block --------------------------------------------------------------------------

  /** At the operator's trusted height only the trusted block is good. */
  predicate MeetsCheckpoint(c: Config, height: int, b: Block) {
    c.checkpoint.Some? && height == c.checkpoint.value.height ==> BlockHash(b) == c.checkpoint.value.hash
  }

  /** The two finality rules and the weak-subjectivity rule, decided before validation. */
  predicate Admitted(c: Config, t: Tree, b: Block)
    requires b.header.previousHash in t.branches && t.finalized.hash in t.branches
  {
    var height := |t.branches[b.header.previousHash]| + 1;
    && (height <= t.finalized.height ==> BlockHash(b) == t.finalized.hash)
    && (height > t.finalized.height ==> Descends(t, b.header.previousHash))
    && MeetsCheckpoint(c, height, b)
  }

  datatype AddOutcome = Added(tree: Tree) | Known | Refused

  /** Store a block, judged by replaying its whole branch, and raise the frontier to what it finalized. */
  function Add(c: Config, t: Tree, b: Block): AddOutcome
    requires t.finalized.hash in t.branches
  {
    if BlockHash(b) in t.branches then Known
    else if b.header.previousHash !in t.branches || !Admitted(c, t, b) then Refused
    else
      var branch := t.branches[b.header.previousHash] + [b];
      if Replay(c.genesis, branch).Rejected? then Refused
      else
        var f := FinalizedBy(c.genesis, branch);
        Added(Tree(t.branches[BlockHash(b) := branch], if f.height > t.finalized.height then f else t.finalized))
  }

  /** The tree after an attempt; a refusal or a known block changes nothing. */
  function After(c: Config, t: Tree, b: Block): Tree
    requires t.finalized.hash in t.branches
  {
    match Add(c, t, b)
    case Added(next) => next
    case _ => t
  }

  /** The branch an attempt would store. */
  function NewBranch(t: Tree, b: Block): seq<Block>
    requires b.header.previousHash in t.branches
  {
    t.branches[b.header.previousHash] + [b]
  }

  /** What acceptance means: the parent's branch plus the block replays, and contains the frontier. */
  lemma Acceptance(c: Config, t: Tree, b: Block)
    requires ValidTree(c.genesis, t)
    requires Add(c, t, b).Added?
    ensures BlockHash(b) !in t.branches && b.header.previousHash in t.branches
    ensures Replay(c.genesis, NewBranch(t, b)).Ok?
    ensures var f := FinalizedBy(c.genesis, NewBranch(t, b));
            Add(c, t, b).tree == Tree(t.branches[BlockHash(b) := NewBranch(t, b)],
                                      if f.height > t.finalized.height then f else t.finalized)
    ensures t.branches[t.finalized.hash] <= NewBranch(t, b)
  {
    hide Replay;
    hide BranchStored;
  }

  lemma NewBranchEnds(c: Config, t: Tree, b: Block)
    requires ValidTree(c.genesis, t)
    requires b.header.previousHash in t.branches
    ensures var branch := NewBranch(t, b);
            && branch[..|branch| - 1] == t.branches[b.header.previousHash]
            && TipHash(c.genesis, branch) == BlockHash(b)
            && TipHash(c.genesis, branch[..|branch| - 1]) == b.header.previousHash
  {
    hide Replay;
    assert BranchStored(c.genesis, t.branches, b.header.previousHash);
  }

  lemma AddKeepsBranches(c: Config, t: Tree, b: Block)
    requires ValidTree(c.genesis, t)
    requires Add(c, t, b).Added?
    ensures var next := Add(c, t, b).tree;
            forall h :: h in next.branches ==> BranchStored(c.genesis, next.branches, h)
  {
    hide Replay;
    hide TipHash;
    hide Add;
    hide NewBranch;
    hide FinalizedBy;
    Acceptance(c, t, b);
    NewBranchEnds(c, t, b);
    var next := Add(c, t, b).tree;
    forall h | h in next.branches ensures BranchStored(c.genesis, next.branches, h) {
      if h in t.branches {
        assert BranchStored(c.genesis, t.branches, h);
      }
    }
  }

  /** The checkpoint the new branch finalized is stored once the branch is. */
  lemma NewFrontierStored(c: Config, t: Tree, b: Block)
    requires ValidTree(c.genesis, t)
    requires b.header.previousHash in t.branches && Replay(c.genesis, NewBranch(t, b)).Ok?
    ensures var branch := NewBranch(t, b);
            var f := FinalizedBy(c.genesis, branch);
            && 0 <= f.height <= |branch|
            && ((f.hash == BlockHash(b) && branch[..f.height] == branch)
                || (f.hash in t.branches && t.branches[f.hash] == branch[..f.height]))
  {
    hide Replay;
    hide TipHash;
    hide ValidTree;
    hide NewBranch;
    hide FinalizedBy;
    var branch := NewBranch(t, b);
    NewBranchEnds(c, t, b);
    FinalizedOnBranch(c.genesis, branch);
    var f := FinalizedBy(c.genesis, branch);
    if f.height < |branch| {
      AncestorStored(c.genesis, t, b.header.previousHash, f.height);
      assert branch[..f.height] == branch[..|branch| - 1][..f.height];
    } else {
      assert branch[..f.height] == branch;
    }
  }

  /** The new frontier is a stored block on the new branch, and the old one is on its branch. */
  lemma AddMovesFrontier(c: Config, t: Tree, b: Block)
    requires ValidTree(c.genesis, t)
    requires Add(c, t, b).Added?
    ensures var next := Add(c, t, b).tree;
            && next.finalized.hash in next.branches
            && |next.branches[next.finalized.hash]| == next.finalized.height
            && next.branches[next.finalized.hash] <= next.branches[BlockHash(b)]
            && t.finalized.height <= next.finalized.height
            && t.branches[t.finalized.hash] <= next.branches[next.finalized.hash]
  {
    hide Replay;
    hide Add;
    hide NewBranch;
    hide FinalizedBy;
    hide BranchStored;
    Acceptance(c, t, b);
    NewFrontierStored(c, t, b);
    var branch, before := NewBranch(t, b), t.branches[t.finalized.hash];
    var f := FinalizedBy(c.genesis, branch);
    if f.height > t.finalized.height {
      assert before == branch[..|before|];
      assert before <= branch[..f.height];
    }
  }

  lemma AddKeepsValid(c: Config, t: Tree, b: Block)
    requires ValidTree(c.genesis, t)
    requires Add(c, t, b).Added?
    ensures ValidTree(c.genesis, Add(c, t, b).tree)
  {
    hide Replay;
    hide Add;
    hide NewBranch;
    hide TipHash;
    Acceptance(c, t, b);
    NewBranchEnds(c, t, b);
    AddKeepsBranches(c, t, b);
    AddMovesFrontier(c, t, b);
    var next := Add(c, t, b).tree;
    assert next.branches[GenesisHash(c.genesis)] == [];
    forall h | h in next.branches ensures FinalizedBy(c.genesis, next.branches[h]).height <= next.finalized.height {
      assert BranchStored(c.genesis, next.branches, h);
    }
  }

  lemma AfterKeepsValid(c: Config, t: Tree, b: Block)
    requires ValidTree(c.genesis, t)
    ensures ValidTree(c.genesis, After(c, t, b))
  {
    hide BranchStored;
    hide Add;
    if Add(c, t, b).Added? {
      AddKeepsValid(c, t, b);
    }
  }

  /** The backstop of add_block: an accepted branch always contains the old frontier block at its
      height, so ConflictingFinalityError is never raised. */
  lemma BackstopNeverFires(c: Config, t: Tree, b: Block)
    requires ValidTree(c.genesis, t)
    requires Add(c, t, b).Added?
    ensures b.header.previousHash in t.branches && Replay(c.genesis, NewBranch(t, b)).Ok?
    ensures var chain := LedgerAt(c.genesis, NewBranch(t, b)).chain;
            t.finalized.height < |chain| && BlockHash(chain[t.finalized.height]) == t.finalized.hash
  {
    hide Add;
    Acceptance(c, t, b);
    BranchOnChain(c.genesis, t, t.finalized.hash, NewBranch(t, b));
  }

  /** A chain replayed along a branch holds each stored ancestor at its height. */
  lemma BranchOnChain(g: GenesisArgs, t: Tree, h: Hash, branch: seq<Block>)
    requires ValidTree(g, t) && h in t.branches
    requires t.branches[h] <= branch && Replay(g, branch).Ok?
    ensures var k := |t.branches[h]|;
            BlockHash(LedgerAt(g, branch).chain[k]) == h
  {
    hide Replay;
    ReplayChain(g, branch);
    assert BranchStored(g, t.branches, h);
    var k := |t.branches[h]|;
    if k > 0 {
      assert branch[k - 1] == t.branches[h][k - 1];
      assert LedgerAt(g, branch).chain[(k - 1) + 1] == Content(branch[k - 1]);
    }
  }

  /** What gets in, exactly: a new block whose branch replays, contains the frontier block, and holds the trusted
      block if it reaches its height with this one. */
  lemma AddedExactly(c: Config, t: Tree, b: Block)
    requires ValidTree(c.genesis, t)
    ensures Add(c, t, b).Known? <==> BlockHash(b) in t.branches
    ensures Add(c, t, b).Added?
       <==> && BlockHash(b) !in t.branches && b.header.previousHash in t.branches
            && Replay(c.genesis, NewBranch(t, b)).Ok?
            && t.branches[t.finalized.hash] <= NewBranch(t, b)
            && (c.checkpoint.Some? && |NewBranch(t, b)| == c.checkpoint.value.height ==>
                  BlockHash(b) == c.checkpoint.value.hash)
  {
    hide Replay;
    if b.header.previousHash in t.branches && BlockHash(b) !in t.branches {
      var parent, frontier := t.branches[b.header.previousHash], t.branches[t.finalized.hash];
      assert BranchStored(c.genesis, t.branches, t.finalized.hash);
      if frontier <= parent + [b] && |frontier| <= |parent| {
        assert frontier <= parent;
      }
    }
  }

  // -- the head --------------------------------------------------------------------------------

  /** `_better`: heavier, or as heavy with the smaller hash. */
  predicate Better(g: GenesisArgs, t: Tree, a: Hash, b: Hash)
    requires a in t.branches && b in t.branches
  {
    var x, y := Weight(g, t.branches[a]), Weight(g, t.branches[b]);
    x > y || (x == y && a < b)
  }

  /** h beats every other block on or above the frontier. */
  ghost predicate IsHead(g: GenesisArgs, t: Tree, h: Hash) {
    && t.finalized.hash in t.branches
    && h in t.branches && Descends(t, h)
    && forall k :: k in t.branches && Descends(t, k) && k != h ==> Better(g, t, h, k)
  }

  lemma HeadUnique(g: GenesisArgs, t: Tree, h: Hash, k: Hash)
    requires IsHead(g, t, h) && IsHead(g, t, k)
    ensures h == k
  {
    hide Weight;
  }

  /** The head, told from weights and hashes: no other block above the frontier is heavier, and none as heavy has
      a smaller hash. */
  lemma HeadIsHeaviest(g: GenesisArgs, t: Tree, h: Hash)
    requires t.finalized.hash in t.branches
    ensures IsHead(g, t, h)
       <==> && h in t.branches && t.branches[t.finalized.hash] <= t.branches[h]
            && forall k :: k in t.branches && t.branches[t.finalized.hash] <= t.branches[k] ==>
                 NoLighter(g, t.branches[h], h, t.branches[k], k)
  {
    hide Weight;
  }

  /** h's branch is heavier than k's, or as heavy and h is no larger. */
  predicate NoLighter(g: GenesisArgs, x: seq<Block>, h: Hash, y: seq<Block>, k: Hash) {
    Weight(g, y) < Weight(g, x) || (Weight(g, y) == Weight(g, x) && h <= k)
  }

  lemma {:induction false} BestOf(g: GenesisArgs, t: Tree, s: set<Hash>) returns (h: Hash)
    requires s != {} && s <= t.branches.Keys
    ensures h in s && forall k :: k in s && k != h ==> Better(g, t, h, k)
    decreases |s|
  {
    hide Weight;
    h :| h in s;
    var rest := s - {h};
    if rest != {} {
      var best := BestOf(g, t, rest);
      assert forall k :: k in s ==> k == h || k in rest;
      if Better(g, t, best, h) {
        h := best;
      }
    }
  }

  /** Every valid tree has a head. */
  lemma HeadExists(g: GenesisArgs, t: Tree) returns (h: Hash)
    requires ValidTree(g, t)
    ensures IsHead(g, t, h)
  {
    hide Weight;
    hide Replay;
    hide BranchStored;
    hide Better;
    var above := set k | k in t.branches && Descends(t, k);
    assert t.finalized.hash in above;
    h := BestOf(g, t, above);
  }

  /** A block weighs what its proposer had staked before it. */
  lemma WeightStep(g: GenesisArgs, blocks: seq<Block>, b: Block)
    requires Replay(g, blocks).Ok?
    ensures Weight(g, blocks + [b])
         == Weight(g, blocks) + Get(LedgerAt(g, blocks).state.accounts.stakes, b.header.validator)
  {
    hide Replay;
    assert (blocks + [b])[..|blocks|] == blocks;
  }

  /** The proposer of an accepted block was elected, so it had stake: weights strictly grow. */
  lemma WeightGrows(g: GenesisArgs, branch: seq<Block>)
    requires branch != [] && Replay(g, branch).Ok?
    ensures Weight(g, branch[..|branch| - 1]) < Weight(g, branch)
  {
    hide RunBlock;
    hide TxIds;
    hide Supply;
    BlockAccepted(g, branch);
    var front, b := branch[..|branch| - 1], branch[|branch| - 1];
    ElectedHasStake(LedgerAt(g, front).state.accounts.stakes, Seed(b.header.previousHash, b.header.index));
    hide Elect;
  }

  /** What is above the new frontier was above the old one, or is the new block. */
  lemma DescendantsShrink(c: Config, t: Tree, b: Block, k: Hash)
    requires ValidTree(c.genesis, t)
    requires Add(c, t, b).Added?
    requires k in Add(c, t, b).tree.branches && Add(c, t, b).tree.finalized.hash in Add(c, t, b).tree.branches
    requires Descends(Add(c, t, b).tree, k)
    ensures k == BlockHash(b) || (k in t.branches && Descends(t, k))
    ensures k in t.branches ==> Add(c, t, b).tree.branches[k] == t.branches[k]
  {
    hide Add;
    hide Replay;
    hide BranchStored;
    Acceptance(c, t, b);
    AddMovesFrontier(c, t, b);
  }

  /** A block on top of the head is the new head, whether or not it moved the frontier. */
  lemma HeadExtension(c: Config, t: Tree, b: Block)
    requires ValidTree(c.genesis, t)
    requires IsHead(c.genesis, t, b.header.previousHash)
    requires Add(c, t, b).Added?
    ensures IsHead(c.genesis, Add(c, t, b).tree, BlockHash(b))
  {
    hide Replay;
    hide Weight;
    hide Add;
    hide ValidTree;
    hide FinalizedBy;
    Acceptance(c, t, b);
    AddMovesFrontier(c, t, b);
    NewBranchEnds(c, t, b);
    WeightGrows(c.genesis, NewBranch(t, b));
    var next := Add(c, t, b).tree;
    forall k | k in next.branches && Descends(next, k) && k != BlockHash(b)
      ensures Better(c.genesis, next, BlockHash(b), k)
    {
      DescendantsShrink(c, t, b, k);
    }
  }

  /** A stored child would outweigh it, so the head has none. */
  lemma HeadHasNoChild(c: Config, t: Tree, head: Hash, k: Hash)
    requires ValidTree(c.genesis, t) && IsHead(c.genesis, t, head)
    requires k in t.branches && t.branches[k] != []
    ensures t.branches[k][|t.branches[k]| - 1].header.previousHash != head
  {
    hide Replay;
    hide FinalizedBy;
    hide TipHash;
    var branch := t.branches[k];
    var front := branch[..|branch| - 1];
    assert BranchStored(c.genesis, t.branches, k);
    WeightGrows(c.genesis, branch);
    assert branch[|branch| - 1].header.previousHash == TipHash(c.genesis, front) by {
      ParentTip(c.genesis, branch);
    }
    hide Weight;
  }

  lemma ParentTip(g: GenesisArgs, branch: seq<Block>)
    requires branch != [] && Replay(g, branch).Ok?
    ensures branch[|branch| - 1].header.previousHash == TipHash(g, branch[..|branch| - 1])
  {
    hide Replay;
    ReplayChain(g, branch);
    if |branch| > 1 {
      assert LedgerAt(g, branch).chain[(|branch| - 2) + 1] == Content(branch[|branch| - 2]);
    }
  }

  /** So a block built on the head is new to the tree. */
  lemma FreshOnHead(c: Config, t: Tree, b: Block)
    requires CollisionFree()
    requires ValidTree(c.genesis, t) && IsHead(c.genesis, t, b.header.previousHash) && b.header.index != 0
    ensures BlockHash(b) !in t.branches
  {
    hide Replay;
    hide FinalizedBy;
    hide IsHead;
    var k := BlockHash(b);
    if k in t.branches {
      assert BranchStored(c.genesis, t.branches, k);
      if t.branches[k] != [] {
        HeadHasNoChild(c, t, b.header.previousHash, k);
      }
    }
  }

  /** On the head the finality rules never refuse: a new block is added exactly when it meets the trusted
      checkpoint and the chain accepts it. */
  lemma AddedOnHead(c: Config, t: Tree, b: Block)
    requires ValidTree(c.genesis, t) && IsHead(c.genesis, t, b.header.previousHash)
    requires BlockHash(b) !in t.branches
    ensures !Add(c, t, b).Known?
    ensures var branch := t.branches[b.header.previousHash];
            && Replay(c.genesis, branch).Ok?
            && (Add(c, t, b).Added? <==>
                  && MeetsCheckpoint(c, |branch| + 1, b)
                  && ApplyBlock(c.genesis.params, LedgerAt(c.genesis, branch), b).Ok?)
  {
    hide Replay;
    hide FinalizedBy;
    hide ApplyBlock;
    hide Weight;
    var ph := b.header.previousHash;
    assert BranchStored(c.genesis, t.branches, ph);
    ReplayStep(c.genesis, t.branches[ph], b);
  }

  // -- runs ------------------------------------------------------------------------------------

  /** The tree after a sequence of attempts, refusals ignored. */
  ghost function RunAll(c: Config, order: seq<Block>): (t: Tree)
    requires Genesis(c.genesis).Ok?
    ensures ValidTree(c.genesis, t)
  {
    if order == [] then
      GenesisTreeValid(c);
      GenesisTree(c)
    else
      var before := RunAll(c, order[..|order| - 1]);
      AfterKeepsValid(c, before, order[|order| - 1]);
      After(c, before, order[|order| - 1])
  }

  /** t grew into r: nothing stored was lost, and the frontier moved only to its own descendants. */
  ghost predicate Grew(t: Tree, r: Tree) {
    && t.finalized.hash in t.branches && r.finalized.hash in r.branches
    && (forall h :: h in t.branches ==> h in r.branches && r.branches[h] == t.branches[h])
    && t.finalized.height <= r.finalized.height
    && t.branches[t.finalized.hash] <= r.branches[r.finalized.hash]
  }

  lemma AfterGrew(c: Config, t: Tree, b: Block)
    requires ValidTree(c.genesis, t)
    ensures Grew(t, After(c, t, b))
  {
    hide Replay;
    hide Add;
    hide BranchStored;
    if Add(c, t, b).Added? {
      Acceptance(c, t, b);
      AddMovesFrontier(c, t, b);
    }
  }

  lemma {:induction false} RunGrew(c: Config, order: seq<Block>, k: nat)
    requires Genesis(c.genesis).Ok? && k <= |order|
    ensures Grew(RunAll(c, order[..k]), RunAll(c, order))
  {
    hide Genesis;
    hide ValidTree;
    if k == |order| {
      assert order[..k] == order;
      RunFrontierStored(c, order);
    } else {
      var front := order[..|order| - 1];
      assert front[..k] == order[..k];
      RunGrew(c, front, k);
      AfterGrew(c, RunAll(c, front), order[|order| - 1]);
      hide After;
    }
  }

  lemma RunFrontierStored(c: Config, order: seq<Block>)
    requires Genesis(c.genesis).Ok?
    ensures RunAll(c, order).finalized.hash in RunAll(c, order).branches
  {
    hide Genesis;
    hide BranchStored;
    var t := RunAll(c, order);
    assert ValidTree(c.genesis, t);
  }

  /** Irreversibility: once a block is the frontier, every later canonical chain holds it at its height. */
  lemma FinalityIsIrreversible(c: Config, order: seq<Block>, k: nat, head: Hash)
    requires Genesis(c.genesis).Ok? && k <= |order|
    requires IsHead(c.genesis, RunAll(c, order), head)
    ensures var f := RunAll(c, order[..k]).finalized;
            var branch := RunAll(c, order).branches[head];
            && Replay(c.genesis, branch).Ok?
            && 0 <= f.height < |LedgerAt(c.genesis, branch).chain|
            && BlockHash(LedgerAt(c.genesis, branch).chain[f.height]) == f.hash
  {
    hide Genesis;
    hide Replay;
    hide Weight;
    hide RunAll;
    var t, r := RunAll(c, order[..k]), RunAll(c, order);
    RunGrew(c, order, k);
    assert BranchStored(c.genesis, r.branches, head);
    BranchOnChain(c.genesis, t, t.finalized.hash, r.branches[head]);
  }
}
