/** What every replay from genesis has in common: prefixes replay, chains only grow, and a block's
    index is its position. */
module Runs {
  import opened Sums
  import opened Records
  import opened Merkle
  import opened Election
  import opened Ledger

  function LedgerAt(g: GenesisArgs, blocks: seq<Block>): Ledger
    requires Replay(g, blocks).Ok?
  {
    Replay(g, blocks).value
  }

  lemma ReplayStep(g: GenesisArgs, blocks: seq<Block>, b: Block)
    ensures Replay(g, blocks + [b]).Ok? <==>
              Replay(g, blocks).Ok? && ApplyBlock(g.params, Replay(g, blocks).value, b).Ok?
    ensures Replay(g, blocks + [b]).Ok? ==>
              Replay(g, blocks + [b]) == ApplyBlock(g.params, Replay(g, blocks).value, b)
  {
    assert (blocks + [b])[..|blocks|] == blocks;
  }

  lemma {:induction false} ReplayPrefix(g: GenesisArgs, blocks: seq<Block>, k: nat)
    requires k <= |blocks|
    requires Replay(g, blocks).Ok?
    ensures Replay(g, blocks[..k]).Ok?
    ensures LedgerAt(g, blocks[..k]).chain == LedgerAt(g, blocks).chain[..k + 1]
  {
    hide ApplyBlock;
    if k == |blocks| {
      assert blocks[..k] == blocks;
    } else {
      var front := blocks[..|blocks| - 1];
      ReplayPrefix(g, front, k);
      assert front[..k] == blocks[..k];
      assert LedgerAt(g, blocks).chain[..k + 1] == LedgerAt(g, front).chain[..k + 1];
    }
  }

  /** The last block of a replay links to the one before and adds its own content. */
  lemma LastBlock(g: GenesisArgs, blocks: seq<Block>)
    requires blocks != [] && Replay(g, blocks).Ok?
    ensures var front, b := blocks[..|blocks| - 1], blocks[|blocks| - 1];
            && Replay(g, front).Ok?
            && LedgerAt(g, blocks).chain == LedgerAt(g, front).chain + [Content(b)]
            && b.header.previousHash == BlockHash(Head(LedgerAt(g, front)))
            && b.header.index == Head(LedgerAt(g, front)).header.index + 1
  {
    hide ProposerAccepted;
    hide RunBlock;
    hide TxIds;
    hide Supply;
  }

  /** The chain of a replay is genesis followed by the contents of the blocks, each at its own index. */
  lemma {:induction false} ReplayChain(g: GenesisArgs, blocks: seq<Block>)
    requires Replay(g, blocks).Ok?
    ensures LedgerAt(g, blocks).chain[0] == GenesisBlock(g.timestamp)
    ensures forall i :: 0 <= i < |blocks| ==> LedgerAt(g, blocks).chain[i + 1] == Content(blocks[i])
    ensures forall i :: 0 <= i <= |blocks| ==> LedgerAt(g, blocks).chain[i].header.index == i
    ensures forall i :: 0 <= i < |blocks| ==>
              blocks[i].header.previousHash == BlockHash(LedgerAt(g, blocks).chain[i])
  {
    hide ApplyBlock;
    if blocks != [] {
      var front := blocks[..|blocks| - 1];
      ReplayChain(g, front);
      LastBlock(g, blocks);
      assert forall i :: 0 <= i < |front| ==> front[i] == blocks[i];
    }
  }

  /** One accepted block after a replay. */
  lemma BlockAccepted(g: GenesisArgs, blocks: seq<Block>)
    requires blocks != []
    requires Replay(g, blocks).Ok?
    ensures var front := blocks[..|blocks| - 1];
            var b := blocks[|blocks| - 1];
            && Replay(g, front).Ok?
            && HeaderAccepted(LedgerAt(g, front), b)
            && RunBlock(g.params, LedgerAt(g, front), b) == Ok(LedgerAt(g, blocks).state)
            && b.header.index == |blocks|
  {
    ReplayChain(g, blocks);
    assert LedgerAt(g, blocks).chain[|blocks|] == Content(blocks[|blocks| - 1]);
  }

  /** A block the header rules admit sits one above the replayed ones. */
  lemma NextHeight(g: GenesisArgs, blocks: seq<Block>, b: Block)
    requires Replay(g, blocks).Ok?
    requires HeaderAccepted(LedgerAt(g, blocks), b)
    ensures b.header.index == |blocks| + 1
  {
    hide ProposerAccepted;
    hide Replay;
    ReplayChain(g, blocks);
  }

  // -- what a header must be ---------------------------------------------------------------------

  /** Every block of every replay was sealed by the validator elected from the stake its predecessor left,
      for its own seed, and commits to its transactions. */
  lemma SealedByElected(g: GenesisArgs, blocks: seq<Block>, i: nat)
    requires Replay(g, blocks).Ok? && i < |blocks|
    ensures Replay(g, blocks[..i]).Ok?
    ensures var b, stakes := blocks[i], LedgerAt(g, blocks[..i]).state.accounts.stakes;
            && Elect(stakes, Seed(b.header.previousHash, i + 1)) == Some(b.header.validator)
            && b.seal.Seal? && sealSigned(b.header, b.seal)
            && b.header.merkleRoot == MerkleRoot(TxIds(b.txs))
  {
    hide Elect;
    hide MerkleRoot;
    hide RunBlock;
    hide Replay;
    ReplayPrefix(g, blocks, i + 1);
    BlockAccepted(g, blocks[..i + 1]);
    assert blocks[..i + 1][..i] == blocks[..i];
  }

  /** On one ledger only one validator's blocks are ever accepted. */
  lemma OneProposer(p: Params, l: Ledger, a: Block, b: Block)
    requires p.epoch != 0 && l.chain != []
    requires ApplyBlock(p, l, a).Ok? && ApplyBlock(p, l, b).Ok?
    ensures a.header.validator == b.header.validator
  {
    hide Elect;
    hide RunBlock;
    hide MerkleRoot;
    hide Supply;
  }

  // -- one transaction of a block ------------------------------------------------------------------

  lemma {:induction false} TxsAppend(p: Params, ctx: Context, st: State, txs: seq<Tx>, tx: Tx, seen: set<Hash>)
    requires p.epoch != 0
    ensures var before := ApplyTxs(p, ctx, st, txs, seen);
            ApplyTxs(p, ctx, st, txs + [tx], seen)
            == if before.Ok? && TxAdmissible(before.value, tx, seen + IdsOf(txs))
               then ApplyTx(p, ctx, before.value, tx) else Rejected
    decreases |txs|
  {
    hide ApplyTx;
    hide TxAdmissible;
    hide IdsOf;
    var all := txs + [tx];
    IdsSplit(txs);
    assert ApplyTxs(p, ctx, st, all, seen) == ApplyFirst(p, ctx, st, all, seen);
    if txs == [] {
      assert all == [tx] && all[1..] == [] && seen + IdsOf(txs) == seen;
      assert ApplyTxs(p, ctx, st, txs, seen) == Ok(st);
      var next := ApplyTx(p, ctx, st, tx);
      if next.Ok? {
        assert ApplyTxs(p, ctx, next.value, all[1..], seen + {TxId(tx)}) == Ok(next.value);
      }
    } else {
      assert all[0] == txs[0] && all[1..] == txs[1..] + [tx];
      assert ApplyTxs(p, ctx, st, txs, seen) == ApplyFirst(p, ctx, st, txs, seen);
      var next := ApplyTx(p, ctx, st, txs[0]);
      if TxAdmissible(st, txs[0], seen) && next.Ok? {
        TxsAppend(p, ctx, next.value, txs[1..], tx, seen + {TxId(txs[0])});
        assert seen + {TxId(txs[0])} + IdsOf(txs[1..]) == seen + IdsOf(txs);
      }
    }
  }

  function IdsOf(txs: seq<Tx>): set<Hash> {
    set i | 0 <= i < |txs| :: TxId(txs[i])
  }

  lemma IdsSplit(txs: seq<Tx>)
    ensures txs == [] ==> IdsOf(txs) == {}
    ensures txs != [] ==> IdsOf(txs) == {TxId(txs[0])} + IdsOf(txs[1..])
  {
    if txs != [] {
      var rest := txs[1..];
      forall h | h in IdsOf(txs) ensures h in {TxId(txs[0])} + IdsOf(rest) {
        var i :| 0 <= i < |txs| && TxId(txs[i]) == h;
        assert i > 0 ==> rest[i - 1] == txs[i];
      }
      forall h | h in IdsOf(rest) ensures h in IdsOf(txs) {
        var i :| 0 <= i < |rest| && TxId(rest[i]) == h;
        assert txs[i + 1] == rest[i];
      }
    }
  }

  /** What its sender signed: the shape every included transaction has. */
  predicate Signed(tx: Tx) {
    && txSigned(tx) && 0 <= tx.fee && 0 <= tx.nonce
    && (match tx.recipient
        case SlashSentinel => tx.amount == 0 && tx.evidence != NoEvidence
        case VoteSentinel => tx.amount == 0 && tx.evidence != NoEvidence
        case _ => 0 < tx.amount)
  }

  /** One turn of the loop, exactly: the next transaction of a block passes if and only if those before it did,
      its sender signed it at his next nonce, it is none of them, and its kind applies to the state they left,
      at the block's height, for the block's proposer, and with what the parent had justified. */
  lemma BlockStep(p: Params, l: Ledger, b: Block, n: nat)
    requires p.epoch != 0 && n < |b.txs|
    ensures var before, tx := RunPrefix(p, l, b, n), b.txs[n];
            var ctx := Context(b.header.index, b.header.validator, l.state.ffg.justified);
            var passes := && before.Ok? && Signed(tx) && tx.nonce == Get(before.value.accounts.nonces, tx.sender)
                          && (forall i :: 0 <= i < n ==> TxId(b.txs[i]) != TxId(tx));
            RunPrefix(p, l, b, n + 1) == if passes then ApplyTx(p, ctx, before.value, tx) else Rejected
  {
    hide ApplyTx;
    hide BeginBlock;
    hide ApplyTxs;
    TxsAppend(p, ContextOf(l, b), BeginBlock(p, l.state, b), b.txs[..n], b.txs[n], {});
    assert b.txs[..n] + [b.txs[n]] == b.txs[..n + 1];
    var ids := IdsOf(b.txs[..n]);
    forall i | 0 <= i < n ensures TxId(b.txs[i]) in ids {
      assert b.txs[..n][i] == b.txs[i];
    }
    assert {} + ids == ids;
  }

  /** A block runs from the matured accounts, and its run is its whole prefix. */
  lemma PrefixEnds(p: Params, l: Ledger, b: Block)
    requires p.epoch != 0
    ensures RunPrefix(p, l, b, 0) == Ok(BeginBlock(p, l.state, b))
    ensures RunPrefix(p, l, b, |b.txs|) == RunBlock(p, l, b)
  {
    hide BeginBlock;
    hide ApplyFirst;
    assert b.txs[..|b.txs|] == b.txs;
  }

  lemma {:induction false} PrefixRuns(p: Params, l: Ledger, b: Block, n: nat, m: nat)
    requires p.epoch != 0 && n <= m <= |b.txs|
    requires RunPrefix(p, l, b, m).Ok?
    ensures RunPrefix(p, l, b, n).Ok?
    decreases m
  {
    hide RunPrefix;
    hide ApplyTx;
    if n < m {
      BlockStep(p, l, b, m - 1);
      PrefixRuns(p, l, b, n, m - 1);
    }
  }
}
