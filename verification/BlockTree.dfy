/** forkchoice.py's BlockTree as an object: hash-keyed dictionaries, a canonical chain that is extended
    in place when a block lands on the head, and a full rescan otherwise. Its every step is the step of
    the simple tree in ForkChoice, which always replays and always rescans. */
module BlockTree {
  import opened Sums
  import opened Records
  import opened Ledger
  import opened Runs
  import opened ForkChoice
  import opened Chain

  /** The dictionaries hold the stored branches: last block, parent, length and weight of each. */
  ghost predicate Represents(g: GenesisArgs, t: Tree, blocks: map<Hash, Block>, parent: map<Hash, Hash>,
                             weight: map<Hash, int>, height: map<Hash, int>) {
    && weight.Keys == height.Keys == t.branches.Keys
    && blocks.Keys == parent.Keys == t.branches.Keys - {GenesisHash(g)}
    && (forall h :: h in t.branches ==> weight[h] == Weight(g, t.branches[h]) && height[h] == |t.branches[h]|)
    && (forall h :: h in blocks ==> LastOf(g, t.branches[h], blocks[h], parent[h]))
  }

  ghost predicate LastOf(g: GenesisArgs, branch: seq<Block>, b: Block, ph: Hash) {
    branch != [] && branch[|branch| - 1] == b && ph == TipHash(g, branch[..|branch| - 1])
  }

  /** Only genesis has an empty branch. */
  lemma EmptyBranch(g: GenesisArgs, t: Tree, h: Hash)
    requires ValidTree(g, t) && h in t.branches
    ensures t.branches[h] == [] <==> h == GenesisHash(g)
  {
    hide Replay;
    assert BranchStored(g, t.branches, h);
  }

  lemma ParentBranch(g: GenesisArgs, t: Tree, h: Hash, b: Block, ph: Hash)
    requires ValidTree(g, t) && h in t.branches && LastOf(g, t.branches[h], b, ph)
    ensures ph in t.branches && t.branches[ph] + [b] == t.branches[h]
  {
    hide Replay;
    hide TipHash;
    hide FinalizedBy;
    hide GenesisHash;
    var branch := t.branches[h];
    assert BranchStored(g, t.branches, h);
    assert branch == branch[..|branch| - 1] + [branch[|branch| - 1]];
  }

  lemma StoredReplays(g: GenesisArgs, t: Tree, h: Hash)
    requires ValidTree(g, t) && h in t.branches
    ensures Replay(g, t.branches[h]).Ok? && TipHash(g, t.branches[h]) == h
  {
    hide Replay;
    assert BranchStored(g, t.branches, h);
  }

  lemma WeightOfNew(g: GenesisArgs, branch: seq<Block>, b: Block)
    requires Replay(g, branch).Ok?
    ensures Weight(g, branch + [b])
         == Weight(g, branch) + Get(LedgerAt(g, branch).state.accounts.stakes, b.header.validator)
  {
    hide Replay;
    assert (branch + [b])[..|branch|] == branch;
  }

  /** Adding one branch to the tree and its entries to the dictionaries. */
  lemma RepresentsUpdate(g: GenesisArgs, t: Tree, next: Tree, b: Block,
                         blocks: map<Hash, Block>, parent: map<Hash, Hash>,
                         weight: map<Hash, int>, height: map<Hash, int>, ph: Hash, w: int, branch: seq<Block>)
    requires Represents(g, t, blocks, parent, weight, height)
    requires BlockHash(b) !in t.branches && GenesisHash(g) in t.branches
    requires next.branches == t.branches[BlockHash(b) := branch]
    requires LastOf(g, branch, b, ph) && w == Weight(g, branch)
    ensures Represents(g, next, blocks[BlockHash(b) := b], parent[BlockHash(b) := ph],
                       weight[BlockHash(b) := w], height[BlockHash(b) := |branch|])
  {
    hide Weight;
    hide LastOf;
    hide BlockHash;
    hide GenesisHash;
  }

  /** Storing one accepted block keeps the dictionaries in step. */
  lemma StoreKeepsRepresents(c: Config, t: Tree, b: Block, blocks: map<Hash, Block>, parent: map<Hash, Hash>,
                             weight: map<Hash, int>, height: map<Hash, int>)
    requires ValidTree(c.genesis, t) && Represents(c.genesis, t, blocks, parent, weight, height)
    requires Add(c, t, b).Added?
    ensures b.header.previousHash in t.branches && Replay(c.genesis, t.branches[b.header.previousHash]).Ok?
    ensures var bh, ph := BlockHash(b), b.header.previousHash;
            var stake := Get(LedgerAt(c.genesis, t.branches[ph]).state.accounts.stakes, b.header.validator);
            Represents(c.genesis, Add(c, t, b).tree, blocks[bh := b], parent[bh := ph],
                       weight[bh := weight[ph] + stake], height[bh := height[ph] + 1])
  {
    hide Replay;
    hide Add;
    hide Weight;
    hide TipHash;
    hide BranchStored;
    hide FinalizedBy;
    var ph := b.header.previousHash;
    Acceptance(c, t, b);
    NewBranchEnds(c, t, b);
    StoredReplays(c.genesis, t, ph);
    WeightOfNew(c.genesis, t.branches[ph], b);
    RepresentsUpdate(c.genesis, t, Add(c, t, b).tree, b, blocks, parent, weight, height, ph,
                     Weight(c.genesis, NewBranch(t, b)), NewBranch(t, b));
  }

  /** All that storing an accepted block must leave behind. */
  lemma StoreFacts(c: Config, t: Tree, b: Block)
    requires ValidTree(c.genesis, t)
    requires Add(c, t, b).Added?
    ensures ValidTree(c.genesis, Add(c, t, b).tree)
    ensures b.header.previousHash in t.branches && Replay(c.genesis, NewBranch(t, b)).Ok?
    ensures var l := LedgerAt(c.genesis, NewBranch(t, b));
            var f := l.state.ffg.finalized;
            && Add(c, t, b).tree.finalized == (if f.height > t.finalized.height then f else t.finalized)
            && 0 <= t.finalized.height < |l.chain| && BlockHash(l.chain[t.finalized.height]) == t.finalized.hash
  {
    hide Replay;
    hide Add;
    hide BranchStored;
    hide NewBranch;
    Acceptance(c, t, b);
    AddKeepsValid(c, t, b);
    BackstopNeverFires(c, t, b);
  }

  datatype AddResult = NewBlock | AlreadyKnown | Error

  class BlockTree {
    const config: Config
    var canonical: ProofOfStakeChain
    var headHash: Hash
    var finalizedHash: Hash
    var finalizedHeight: int
    var blocks: map<Hash, Block>
    var parent: map<Hash, Hash>
    var weight: map<Hash, int>
    var height: map<Hash, int>
    /** The tree these dictionaries stand for. */
    ghost var tree: Tree

    ghost predicate Consistent()
      reads this
    {
      && Genesis(config.genesis).Ok?
      && ValidTree(config.genesis, tree)
      && tree.finalized == Checkpoint(finalizedHash, finalizedHeight)
      && Represents(config.genesis, tree, blocks, parent, weight, height)
    }

    /** The canonical chain is the replay of the head's branch. */
    ghost predicate CanonicalAt(h: Hash)
      reads this, canonical
      requires Consistent()
    {
      && h in tree.branches && Replay(config.genesis, tree.branches[h]).Ok?
      && canonical.Valid() && canonical.params == config.genesis.params
      && canonical.View() == LedgerAt(config.genesis, tree.branches[h])
    }

    /** In every reachable tree the head is the unique best above the frontier. */
    ghost predicate Valid()
      reads this, canonical
    {
      Consistent() && IsHead(config.genesis, tree, headHash) && CanonicalAt(headHash)
    }

    constructor (c: Config, genesisChain: ProofOfStakeChain)
      requires Genesis(c.genesis).Ok?
      requires genesisChain.Valid() && genesisChain.params == c.genesis.params
      requires genesisChain.View() == Genesis(c.genesis).value
      ensures Valid() && config == c && canonical == genesisChain && tree == GenesisTree(c)
    {
      var gh := GenesisHash(c.genesis);
      config, canonical, headHash := c, genesisChain, gh;
      finalizedHash, finalizedHeight := gh, 0;
      blocks, parent := map[], map[];
      weight, height := map[gh := 0], map[gh := 0];
      tree := GenesisTree(c);
      new;
      GenesisTreeValid(c);
    }

    /** `BlockTree(...)`: null when the genesis arguments are refused. */
    static method Create(c: Config) returns (r: BlockTree?)
      ensures r != null <==> Genesis(c.genesis).Ok?
      ensures r != null ==> fresh(r) && fresh(r.canonical) && r.Valid() && r.config == c && r.tree == GenesisTree(c)
    {
      var chain := ProofOfStakeChain.Create(c.genesis);
      if chain == null {
        return null;
      }
      r := new BlockTree(c, chain);
    }

    /** Walk the parents down to genesis. */
    method PathTo(blockHash: Hash) returns (path: seq<Block>)
      requires Consistent() && blockHash in tree.branches
      ensures path == tree.branches[blockHash]
    {
      hide Replay;
      hide ValidTree;
      hide Genesis;
      hide Weight;
      path := [];
      var h := blockHash;
      EmptyBranch(config.genesis, tree, h);
      while h != GenesisHash(config.genesis)
        invariant h in tree.branches
        invariant tree.branches[h] + path == tree.branches[blockHash]
        invariant tree.branches[h] == [] <==> h == GenesisHash(config.genesis)
        decreases |tree.branches[h]|
      {
        var b := blocks[h];
        ParentBranch(config.genesis, tree, h, b, parent[h]);
        assert tree.branches[parent[h]] + [b] + path == tree.branches[parent[h]] + ([b] + path);
        path := [b] + path;
        h := parent[h];
        EmptyBranch(config.genesis, tree, h);
      }
    }

    /** `chain_at`: replay a fresh chain from genesis; it never fails on a stored block. */
    method ChainAt(blockHash: Hash) returns (c: ProofOfStakeChain?)
      requires Consistent()
      ensures c != null <==> blockHash in tree.branches
      ensures c != null ==>
                && fresh(c) && c.Valid() && c.params == config.genesis.params
                && Replay(config.genesis, tree.branches[blockHash]).Ok?
                && c.View() == LedgerAt(config.genesis, tree.branches[blockHash])
    {
      hide ApplyBlock;
      hide ValidTree;
      hide Represents;
      if blockHash !in weight {
        RepresentsKeys();
        return null;
      }
      RepresentsKeys();
      var path := PathTo(blockHash);
      StoredReplays(config.genesis, tree, blockHash);
      c := ProofOfStakeChain.Create(config.genesis);
      var i := 0;
      while i < |path|
        invariant 0 <= i <= |path|
        invariant c != null && fresh(c) && c.Valid() && c.params == config.genesis.params
        invariant Replay(config.genesis, path[..i]).Ok?
        invariant c.View() == LedgerAt(config.genesis, path[..i])
      {
        ReplayPrefix(config.genesis, path, i + 1);
        assert path[..i + 1] == path[..i] + [path[i]];
        ReplayStep(config.genesis, path[..i], path[i]);
        var ok := c.SubmitBlock(path[i]);
        i := i + 1;
      }
      assert path[..|path|] == path;
    }

    lemma RepresentsKeys()
      requires Consistent()
      ensures weight.Keys == tree.branches.Keys == height.Keys
      ensures finalizedHash in tree.branches && |tree.branches[finalizedHash]| == finalizedHeight
    {
      hide Replay;
      hide Weight;
      hide BranchStored;
    }

    /** `_descends_from_finalized`: walk down to the frontier's height and compare. */
    method DescendsFromFinalized(blockHash: Hash) returns (r: bool)
      requires Consistent() && blockHash in tree.branches && tree.finalized.hash in tree.branches
      ensures r == Descends(tree, blockHash)
    {
      hide Replay;
      hide ValidTree;
      hide Genesis;
      hide Weight;
      hide TipHash;
      var cur := blockHash;
      RepresentsKeys();
      while height[cur] > finalizedHeight
        invariant cur in tree.branches
        invariant tree.branches[cur] <= tree.branches[blockHash]
        invariant |tree.branches[blockHash]| >= finalizedHeight ==> |tree.branches[cur]| >= finalizedHeight
        invariant |tree.branches[blockHash]| < finalizedHeight ==> cur == blockHash
        decreases |tree.branches[cur]|
      {
        EmptyBranch(config.genesis, tree, cur);
        ParentBranch(config.genesis, tree, cur, blocks[cur], parent[cur]);
        cur := parent[cur];
      }
      r := cur == finalizedHash;
      SameLengthSameBranch(config.genesis, tree, cur, finalizedHash, tree.branches[blockHash]);
    }

    /** `_better`. */
    method BetterThan(a: Hash, b: Hash) returns (r: bool)
      requires Consistent() && a in tree.branches && b in tree.branches
      ensures r == Better(config.genesis, tree, a, b)
    {
      hide Replay;
      hide ValidTree;
      hide Genesis;
      hide Weight;
      if weight[a] != weight[b] {
        return weight[a] > weight[b];
      }
      r := a < b;
    }

    /** The scan of `_update_head`, in any order of the dictionary. */
    method FindBest() returns (best: Hash)
      requires Consistent()
      ensures IsHead(config.genesis, tree, best)
    {
      hide Replay;
      hide ValidTree;
      hide Genesis;
      hide Weight;
      hide Better;
      hide Represents;
      RepresentsKeys();
      best := finalizedHash;
      var todo := weight.Keys;
      while todo != {}
        invariant todo <= tree.branches.Keys
        invariant best in tree.branches && tree.finalized.hash in tree.branches && Descends(tree, best)
        invariant forall k :: k in tree.branches && k !in todo && Descends(tree, k) && k != best ==>
                    Better(config.genesis, tree, best, k)
        decreases |todo|
      {
        var h :| h in todo;
        var above := DescendsFromFinalized(h);
        var wins := BetterThan(h, best);
        ghost var previous := best;
        if above && wins {
          best := h;
        }
        forall k | k in tree.branches && k !in todo - {h} && Descends(tree, k) && k != best
          ensures Better(config.genesis, tree, best, k)
        {
          BestStep(config.genesis, tree, previous, h, k);
        }
        todo := todo - {h};
      }
    }

    /** `_update_head`: rescan, and rebuild the canonical chain if the head moved. */
    method UpdateHead()
      requires Consistent() && CanonicalAt(headHash)
      modifies this`headHash, this`canonical
      ensures Valid()
      ensures canonical == old(canonical) || fresh(canonical)
    {
      hide Replay;
      hide ValidTree;
      hide Genesis;
      hide Represents;
      var best := FindBest();
      if best != headHash {
        headHash := best;
        var rebuilt := ChainAt(best);
        canonical := rebuilt;
      }
    }

    /** The rules decided before validation. */
    method CheckGuards(b: Block) returns (ok: bool)
      requires Consistent() && b.header.previousHash in tree.branches && tree.finalized.hash in tree.branches
      ensures ok == Admitted(config, tree, b)
    {
      hide Replay;
      hide ValidTree;
      hide Genesis;
      hide Weight;
      var bh, ph := BlockHash(b), b.header.previousHash;
      var newHeight := height[ph] + 1;
      if newHeight <= finalizedHeight && bh != finalizedHash {
        return false;
      }
      if newHeight > finalizedHeight {
        var above := DescendsFromFinalized(ph);
        if !above {
          return false;
        }
      }
      ok := !(config.checkpoint.Some? && newHeight == config.checkpoint.value.height
              && bh != config.checkpoint.value.hash);
    }

    /** Store an accepted block and raise the frontier; the conflict backstop is unreachable. */
    method Store(b: Block, proposerStake: int, validated: ProofOfStakeChain)
      requires Consistent() && Add(config, tree, b).Added?
      requires b.header.previousHash in tree.branches
      requires Replay(config.genesis, tree.branches[b.header.previousHash]).Ok?
      requires var l := LedgerAt(config.genesis, tree.branches[b.header.previousHash]);
               proposerStake == Get(l.state.accounts.stakes, b.header.validator)
      requires Replay(config.genesis, NewBranch(tree, b)).Ok?
      requires validated.View() == LedgerAt(config.genesis, NewBranch(tree, b))
      modifies this`blocks, this`parent, this`weight, this`height, this`finalizedHash, this`finalizedHeight, this`tree
      ensures Consistent() && tree == Add(config, old(tree), b).tree
    {
      hide Replay;
      hide Add;
      hide Weight;
      hide Represents;
      hide Genesis;
      hide ValidTree;
      hide NewBranch;
      hide BlockHash;
      var bh, ph := BlockHash(b), b.header.previousHash;
      StoreKeepsRepresents(config, tree, b, blocks, parent, weight, height);
      StoreFacts(config, tree, b);
      RepresentsKeys();
      blocks := blocks[bh := b];
      parent := parent[bh := ph];
      weight := weight[bh := weight[ph] + proposerStake];
      height := height[bh := height[ph] + 1];
      var f := validated.ffg.finalized;
      if f.height > finalizedHeight {
        if finalizedHeight < |validated.chain| && BlockHash(validated.chain[finalizedHeight]) != finalizedHash {
          assert false; // ConflictingFinalityError
        }
        finalizedHash, finalizedHeight := f.hash, f.height;
      }
      tree := Add(config, tree, b).tree;
    }

    /** `add_block`: exactly the simple tree's step, by the fast path or by replay and rescan; a block that
        is refused or known leaves everything as it was. */
    method AddBlock(b: Block) returns (r: AddResult)
      requires Valid()
      modifies this, canonical
      ensures Valid()
      ensures canonical == old(canonical) || fresh(canonical)
      ensures tree == After(config, old(tree), b)
      ensures r == match Add(config, old(tree), b)
                   case Added(_) => NewBlock
                   case Known => AlreadyKnown
                   case Refused => Error
      ensures !r.NewBlock? ==> unchanged(this) && canonical.View() == old(canonical.View())
    {
      hide Genesis;
      hide ApplyBlock;
      hide Weight;
      hide ValidTree;
      hide Represents;
      hide Admitted;
      RepresentsKeys();
      if BlockHash(b) in weight {
        return AlreadyKnown;
      }
      var ph := b.header.previousHash;
      if ph !in weight {
        return Error;
      }
      var admitted := CheckGuards(b);
      if !admitted {
        return Error;
      }
      StoredReplays(config.genesis, tree, ph);
      ReplayStep(config.genesis, tree.branches[ph], b);
      var stake: int;
      if ph == headHash {
        stake := canonical.StakeOf(b.header.validator);
        var ok := canonical.SubmitBlock(b);
        if !ok {
          return Error;
        }
        HeadExtension(config, tree, b);
        Store(b, stake, canonical);
        headHash := BlockHash(b);
      } else {
        var validated := ChainAt(ph);
        stake := validated.StakeOf(b.header.validator);
        var ok := validated.SubmitBlock(b);
        if !ok {
          return Error;
        }
        Store(b, stake, validated);
        UpdateHead();
      }
      r := NewBlock;
    }
  }

  lemma BestStep(g: GenesisArgs, t: Tree, previous: Hash, h: Hash, k: Hash)
    requires previous in t.branches && h in t.branches && k in t.branches
    ensures Better(g, t, previous, k) && Better(g, t, h, previous) ==> Better(g, t, h, k)
    ensures !Better(g, t, h, previous) && h != previous ==> Better(g, t, previous, h)
    ensures !Better(g, t, h, h)
  {
    hide Weight;
  }

  /** A stored block whose branch is a prefix as long as the frontier's is the frontier, or off its branch. */
  lemma SameLengthSameBranch(g: GenesisArgs, t: Tree, cur: Hash, f: Hash, branch: seq<Block>)
    requires ValidTree(g, t) && cur in t.branches && f in t.branches
    requires t.branches[cur] <= branch
    requires |t.branches[cur]| <= |t.branches[f]|
    requires |branch| >= |t.branches[f]| ==> |t.branches[cur]| == |t.branches[f]|
    ensures cur == f <==> t.branches[f] <= branch
  {
    hide Replay;
    assert BranchStored(g, t.branches, cur) && BranchStored(g, t.branches, f);
    if t.branches[f] <= branch {
      assert t.branches[f] == t.branches[cur];
    }
  }
}
