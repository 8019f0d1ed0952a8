/** node.py's NodeService: the block tree, the mempool and the append-only log. A node that reboots from
    its log is the node that wrote it. */
module NodeService {
  import opened Sums
  import opened Records
  import opened Merkle
  import opened Election
  import opened Ledger
  import opened Runs
  import opened ForkChoice
  import BlockTree
  import Mempool

  const MAX_TXS_PER_BLOCK: int := 5000

  /** No block of the log is refused when the log is replayed in order. */
  ghost predicate LogReplays(c: Config, log: seq<Block>)
    requires Genesis(c.genesis).Ok?
  {
    forall i :: 0 <= i < |log| ==> Replayable(c, log[..i], log[i])
  }

  ghost predicate Replayable(c: Config, before: seq<Block>, b: Block)
    requires Genesis(c.genesis).Ok?
  {
    var t := RunAll(c, before);
    t.finalized.hash in t.branches && !Add(c, t, b).Refused?
  }

  lemma LogGrows(c: Config, log: seq<Block>, b: Block)
    requires Genesis(c.genesis).Ok? && LogReplays(c, log)
    requires Replayable(c, log, b)
    ensures LogReplays(c, log + [b])
  {
    hide Genesis;
    hide Replayable;
    var next := log + [b];
    forall i | 0 <= i < |next| ensures Replayable(c, next[..i], next[i]) {
      if i < |log| {
        assert next[..i] == log[..i];
      } else {
        assert next[..i] == log;
      }
    }
  }

  lemma EmptyLog(c: Config)
    requires Genesis(c.genesis).Ok?
    ensures LogReplays(c, [])
  {
  }

  lemma EmptyRun(c: Config)
    requires Genesis(c.genesis).Ok?
    ensures RunAll(c, []) == GenesisTree(c)
  {
    hide Genesis;
    hide ValidTree;
  }

  lemma LogRefused(c: Config, log: seq<Block>, i: nat)
    requires Genesis(c.genesis).Ok? && i < |log|
    requires !Replayable(c, log[..i], log[i])
    ensures !LogReplays(c, log)
  {
    hide Genesis;
    hide Replayable;
  }

  lemma RunAppend(c: Config, log: seq<Block>, b: Block)
    requires Genesis(c.genesis).Ok?
    ensures RunAll(c, log).finalized.hash in RunAll(c, log).branches
    ensures RunAll(c, log + [b]) == After(c, RunAll(c, log), b)
  {
    hide Genesis;
    hide After;
    RunFrontierStored(c, log);
    assert (log + [b])[..|log|] == log;
  }

  /** The object is a function of its tree: equal trees, equal dictionaries, head and canonical ledger. */
  lemma SameTreeSameNode(g: GenesisArgs, t: Tree,
                         blocks: map<Hash, Block>, parent: map<Hash, Hash>,
                         weight: map<Hash, int>, height: map<Hash, int>,
                         blocks': map<Hash, Block>, parent': map<Hash, Hash>,
                         weight': map<Hash, int>, height': map<Hash, int>)
    requires BlockTree.Represents(g, t, blocks, parent, weight, height)
    requires BlockTree.Represents(g, t, blocks', parent', weight', height')
    ensures blocks == blocks' && parent == parent' && weight == weight' && height == height'
  {
    hide Weight;
    hide TipHash;
    hide GenesisHash;
  }

  /** The block v proposes on l. */
  predicate ProposedOn(l: Ledger, v: Address, timestamp: int, seal: Seal, b: Block)
    requires l.chain != []
  {
    && b.header == Header(Head(l).header.index + 1, BlockHash(Head(l)), timestamp, MerkleRoot(TxIds(b.txs)), v, 0)
    && b.seal == seal
  }

  /** Whose turn it is on l. */
  function TurnOn(l: Ledger): Option<Address>
    requires l.chain != []
  {
    Elect(l.state.accounts.stakes, Seed(BlockHash(Head(l)), Head(l).header.index + 1))
  }

  /** What production still depends on, once it is the proposer's turn: a good seal, the trusted checkpoint,
      and the rules of the selected transactions. */
  predicate Producible(c: Config, l: Ledger, b: Block)
    requires c.genesis.params.epoch != 0
  {
    && SealAuthentic(b) && MeetsCheckpoint(c, b.header.index, b)
    && Mempool.RulesMet(c.genesis.params, ContextOf(l, b), BeginBlock(c.genesis.params, l.state, b), b.txs)
  }

  /** A selection proposed in turn on the head is added exactly when it is producible. */
  lemma ProposalAdded(c: Config, t: Tree, pool: seq<Tx>, timestamp: int, seal: Seal, b: Block)
    requires ValidTree(c.genesis, t) && IsHead(c.genesis, t, b.header.previousHash)
    requires BlockHash(b) !in t.branches && Replay(c.genesis, t.branches[b.header.previousHash]).Ok?
    requires var l := LedgerAt(c.genesis, t.branches[b.header.previousHash]);
             && ProposedOn(l, b.header.validator, timestamp, seal, b) && TurnOn(l) == Some(b.header.validator)
             && Mempool.ValidPool(pool) && Mempool.FeeOrdered(pool, l, c.genesis.params.unbondingBlocks, b.txs)
    ensures !Add(c, t, b).Known?
    ensures Add(c, t, b).Added? <==> Producible(c, LedgerAt(c.genesis, t.branches[b.header.previousHash]), b)
  {
    hide Replay;
    hide ApplyBlock;
    hide Add;
    hide ValidTree;
    hide Mempool.RulesMet;
    hide Mempool.FeeOrdered;
    hide Mempool.ValidPool;
    hide RunBlock;
    hide BeginBlock;
    hide Elect;
    hide MerkleRoot;
    var branch := t.branches[b.header.previousHash];
    AddedOnHead(c, t, b);
    Mempool.SelectionAcceptedExactly(c.genesis, branch, pool, b);
    ReplayChain(c.genesis, branch);
  }

  class NodeService {
    const config: Config
    const tree: BlockTree.BlockTree
    const mempool: Mempool.Mempool
    /** The durable log. */
    var store: seq<Block>

    /** The live tree is what folding add_block over the log gives. */
    ghost predicate Valid()
      reads this, tree, tree.canonical, mempool
    {
      && tree.Valid() && tree.config == config && mempool.Valid()
      && tree.tree == RunAll(config, store)
      && LogReplays(config, store)
    }

    constructor (c: Config, t: BlockTree.BlockTree, m: Mempool.Mempool, log: seq<Block>)
      requires t.Valid() && t.config == c && m.Valid()
      requires t.tree == RunAll(c, log) && LogReplays(c, log)
      ensures Valid() && config == c && tree == t && mempool == m && store == log
    {
      hide Genesis;
      hide ValidTree;
      hide BlockTree.Represents;
      hide IsHead;
      hide RunAll;
      hide LogReplays;
      config, tree, mempool, store := c, t, m, log;
    }

    /** Boot: genesis, then add_block for every logged block; null if one of them raises. */
    static method Boot(c: Config, log: seq<Block>) returns (r: NodeService?)
      ensures r != null <==> Genesis(c.genesis).Ok? && LogReplays(c, log)
      ensures r != null ==> fresh(r) && fresh(r.tree) && r.Valid() && r.config == c && r.store == log
    {
      hide Genesis;
      hide ValidTree;
      hide After;
      hide BlockTree.Represents;
      hide IsHead;
      hide LogReplays;
      hide RunAll;
      var t := BlockTree.BlockTree.Create(c);
      if t == null {
        return null;
      }
      EmptyLog(c);
      EmptyRun(c);
      var i := 0;
      while i < |log|
        invariant 0 <= i <= |log|
        invariant fresh(t) && fresh(t.canonical) && t.Valid() && t.config == c
        invariant t.tree == RunAll(c, log[..i])
        invariant LogReplays(c, log[..i])
      {
        ghost var before := log[..i];
        assert log[..i + 1] == before + [log[i]];
        RunAppend(c, before, log[i]);
        var added := t.AddBlock(log[i]);
        if added.Error? {
          LogRefused(c, log, i);
          return null;
        }
        LogGrows(c, before, log[i]);
        i := i + 1;
      }
      assert log[..|log|] == log;
      var m := new Mempool.Mempool();
      r := new NodeService(c, t, m, log);
    }

    /** Restart equals live: booting from the live node's log rebuilds the same tree, weights, frontier,
        head and canonical ledger. */
    method Restart() returns (again: NodeService)
      requires Valid()
      ensures fresh(again) && again.Valid() && again.config == config && again.store == store
      ensures again.tree.tree == tree.tree
      ensures again.tree.blocks == tree.blocks && again.tree.parent == tree.parent
      ensures again.tree.weight == tree.weight && again.tree.height == tree.height
      ensures again.tree.finalizedHash == tree.finalizedHash && again.tree.finalizedHeight == tree.finalizedHeight
      ensures again.tree.headHash == tree.headHash
      ensures again.tree.canonical.View() == tree.canonical.View()
    {
      hide Genesis;
      hide ValidTree;
      hide BlockTree.Represents;
      hide IsHead;
      hide RunAll;
      var booted := Boot(config, store);
      again := booted;
      SameTreeSameNode(config.genesis, tree.tree, tree.blocks, tree.parent, tree.weight, tree.height,
                       again.tree.blocks, again.tree.parent, again.tree.weight, again.tree.height);
      HeadUnique(config.genesis, tree.tree, tree.headHash, again.tree.headHash);
    }

    /** `receive_block`: persist exactly what the tree newly accepted. */
    method ReceiveBlock(b: Block) returns (r: BlockTree.AddResult)
      requires Valid()
      modifies this, tree, tree.canonical, mempool
      ensures Valid()
      ensures tree.canonical == old(tree.canonical) || fresh(tree.canonical)
      ensures tree.tree == After(config, old(tree.tree), b)
      ensures r.NewBlock? <==> Add(config, old(tree.tree), b).Added?
      ensures r.Error? <==> Add(config, old(tree.tree), b).Refused?
      ensures store == if r.NewBlock? then old(store) + [b] else old(store)
      ensures mempool.pool == if r.NewBlock?
                              then Mempool.StillPending(old(mempool.pool), tree.canonical.View().state.accounts.nonces)
                              else old(mempool.pool)
    {
      hide Genesis;
      hide RunAll;
      hide LogReplays;
      hide Add;
      hide ValidTree;
      hide BlockTree.Represents;
      hide IsHead;
      ghost var log := store;
      RunAppend(config, store, b);
      r := tree.AddBlock(b);
      if r.NewBlock? {
        LogGrows(config, log, b);
        store := store + [b];
        mempool.Update(tree.canonical.View());
      }
    }

    /** In turn only: elect, select, seal. */
    method Propose(validator: Option<Address>, timestamp: int, seal: Seal) returns (r: Option<Block>)
      requires Valid()
      ensures r.Some? <==> validator.Some? && TurnOn(tree.canonical.View()) == validator
      ensures r.Some? ==>
                && ProposedOn(tree.canonical.View(), validator.value, timestamp, seal, r.value)
                && |r.value.txs| <= MAX_TXS_PER_BLOCK
                && Mempool.FeeOrdered(mempool.pool, tree.canonical.View(), config.genesis.params.unbondingBlocks,
                                      r.value.txs)
      ensures r.Some? ==> Mempool.Shares(mempool.pool, tree.canonical.View(), config.genesis.params.unbondingBlocks,
                                         r.value.txs, |r.value.txs| < MAX_TXS_PER_BLOCK)
    {
      hide Mempool.Shares;
      hide Genesis;
      hide ValidTree;
      hide BlockTree.Represents;
      hide IsHead;
      hide Elect;
      hide Mempool.FeeOrdered;
      hide RunAll;
      hide LogReplays;
      hide MerkleRoot;
      if validator.None? {
        return None;
      }
      var chain := tree.canonical.chain;
      var head := chain[|chain| - 1];
      var elected := ElectValidator(tree.canonical.stakes, Seed(BlockHash(head), head.header.index + 1));
      if elected != validator {
        return None;
      }
      var txs := mempool.Select(tree.canonical.View(), config.genesis.params.unbondingBlocks, MAX_TXS_PER_BLOCK);
      var root := ComputeMerkleRoot(TxIds(txs));
      r := Some(Block(Header(head.header.index + 1, BlockHash(head), timestamp, root, validator.value, 0), txs, seal));
    }

    /** `produce_block`: propose, add, persist (also when the tree already knew the block), clean the pool; None
        where the source raises. In turn, it succeeds exactly when the proposal is producible, and the new
        block is then the head. */
    method ProduceBlock(validator: Option<Address>, timestamp: int, seal: Seal)
      returns (r: Option<Block>, ghost proposal: Option<Block>)
      requires Valid()
      modifies this, tree, tree.canonical, mempool
      ensures Valid()
      ensures proposal.Some? <==> validator.Some? && old(TurnOn(tree.canonical.View())) == validator
      ensures proposal.Some? ==>
                && old(ProposedOn(tree.canonical.View(), validator.value, timestamp, seal, proposal.value))
                && Mempool.FeeOrdered(old(mempool.pool), old(tree.canonical.View()),
                                      config.genesis.params.unbondingBlocks, proposal.value.txs)
                && Mempool.Shares(old(mempool.pool), old(tree.canonical.View()),
                                  config.genesis.params.unbondingBlocks, proposal.value.txs,
                                  |proposal.value.txs| < MAX_TXS_PER_BLOCK)
      ensures r.Some? ==> r == proposal
      ensures CollisionFree() && proposal.Some? ==>
                (r.Some? <==> Producible(config, old(tree.canonical.View()), proposal.value))
      ensures r.None? ==> tree.tree == old(tree.tree) && store == old(store) && mempool.pool == old(mempool.pool)
      ensures r.Some? ==>
                && tree.tree == After(config, old(tree.tree), r.value) && store == old(store) + [r.value]
                && mempool.pool
                   == Mempool.StillPending(old(mempool.pool), tree.canonical.View().state.accounts.nonces)
      ensures CollisionFree() && r.Some? ==>
                Add(config, old(tree.tree), r.value).Added? && tree.headHash == BlockHash(r.value)
    {
      hide Genesis;
      hide RunAll;
      hide LogReplays;
      hide Add;
      hide ValidTree;
      hide BlockTree.Represents;
      hide IsHead;
      hide Mempool.FeeOrdered;
      hide Mempool.Shares;
      hide Mempool.ValidPool;
      hide Mempool.RulesMet;
      hide MerkleRoot;
      hide Elect;
      hide CollisionFree;
      hide BeginBlock;
      r := Propose(validator, timestamp, seal);
      proposal := r;
      if r.None? {
        return;
      }
      var b := r.value;
      ghost var log := store;
      RunAppend(config, store, b);
      ghost var before, l := tree.tree, tree.canonical.View();
      HeadOfView(tree);
      if CollisionFree() {
        ReplayChain(config.genesis, before.branches[tree.headHash]);
        FreshOnHead(config, before, b);
        ProposalAdded(config, before, mempool.pool, timestamp, seal, b);
      }
      var added := tree.AddBlock(b);
      if added.Error? {
        return None, proposal;
      }
      if CollisionFree() {
        HeadExtension(config, before, b);
        HeadUnique(config.genesis, tree.tree, BlockHash(b), tree.headHash);
      }
      LogGrows(config, log, b);
      store := store + [b];
      mempool.Update(tree.canonical.View());
    }
  }

  /** The canonical ledger is the replay of the head's branch, and its last block is the head. */
  lemma HeadOfView(t: BlockTree.BlockTree)
    requires t.Valid()
    ensures Replay(t.config.genesis, t.tree.branches[t.headHash]).Ok?
    ensures t.canonical.View() == LedgerAt(t.config.genesis, t.tree.branches[t.headHash])
    ensures t.canonical.chain != [] && BlockHash(Head(t.canonical.View())) == t.headHash
  {
    hide Replay;
    var branch := t.tree.branches[t.headHash];
    assert BranchStored(t.config.genesis, t.tree.branches, t.headHash);
    ReplayChain(t.config.genesis, branch);
    if branch != [] {
      assert LedgerAt(t.config.genesis, branch).chain[(|branch| - 1) + 1] == Content(branch[|branch| - 1]);
    }
  }
}
