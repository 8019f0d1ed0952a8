/** What the finality state of every reachable ledger rests on: checkpoints of its own chain, and
    justification by two-thirds links from checkpoints justified in earlier blocks. */
module Justification {
  import opened Sums
  import opened Records
  import opened Ledger
  import opened Runs

  /** h is the hash of the block at that height, and the height is an epoch boundary. */
  ghost predicate IsCheckpoint(p: Params, chain: seq<Block>, h: Hash, height: int)
    requires 0 < p.epoch
  {
    0 <= height < |chain| && BlockHash(chain[height]) == h && height % p.epoch == 0
  }

  /** Every recorded checkpoint lies on the chain, and only checkpoints are justified or finalized. */
  ghost predicate Anchored(p: Params, chain: seq<Block>, ffg: Finality)
    requires 0 < p.epoch
  {
    && ffg.stakeAt.Keys == ffg.heightAt.Keys
    && (forall h :: h in ffg.heightAt ==> IsCheckpoint(p, chain, h, ffg.heightAt[h]))
    && ffg.justified <= ffg.heightAt.Keys
    && ffg.finalized.hash in ffg.justified
    && IsCheckpoint(p, chain, ffg.finalized.hash, ffg.finalized.height)
  }

  /** Of the stake in a snapshot that belongs to nobody slashed, there is some and at least two thirds voted. */
  predicate TwoThirds(snapshot: map<Address, int>, cast: set<Address>, slashed: set<Address>) {
    var eligible := Held(snapshot, snapshot.Keys - slashed);
    0 < eligible && 2 * eligible <= 3 * Held(snapshot, cast - slashed)
  }

  lemma QuorumCounts(snapshot: map<Address, int>, cast: set<Address>, slashed: set<Address>)
    ensures Quorum(snapshot, cast, slashed) <==> TwoThirds(snapshot, cast, slashed)
  {
    hide Held;
    HeldIsSum(snapshot, snapshot.Keys - slashed);
    HeldIsSum(snapshot, cast - slashed);
  }

  /** t has two thirds of s's non-slashed snapshot stake behind the link from s, at this moment. */
  ghost predicate SupermajorityLink(st: State, s: Hash, t: Hash) {
    && s in st.ffg.stakeAt && s in st.ffg.heightAt && t in st.ffg.heightAt
    && st.ffg.heightAt[s] < st.ffg.heightAt[t]
    && TwoThirds(st.ffg.stakeAt[s], Voters(st.ffg, s, t), st.slashedAddrs)
  }

  // -- one transaction ---------------------------------------------------------------------

  lemma TxFinalityFrame(p: Params, ctx: Context, st: State, tx: Tx)
    requires p.epoch != 0
    requires ApplyTx(p, ctx, st, tx).Ok?
    ensures tx.recipient.VoteSentinel? ==>
              && tx.evidence.VoteLink? && LinkAccepted(p, ctx, st, tx.sender, tx.evidence.link)
              && ApplyTx(p, ctx, st, tx).value.slashedAddrs == st.slashedAddrs
              && ApplyTx(p, ctx, st, tx).value.ffg
                 == CountVote(p, st.ffg, st.slashedAddrs, tx.sender, tx.evidence.link)
    ensures !tx.recipient.VoteSentinel? ==> ApplyTx(p, ctx, st, tx).value.ffg == st.ffg
  {
    hide ConfiscatedAccounts;
    hide MoveMoney;
    hide VestingKept;
    hide CountVote;
    hide LinkAccepted;
  }

  lemma TxKeepsAnchored(p: Params, ctx: Context, chain: seq<Block>, st: State, tx: Tx)
    requires 0 < p.epoch
    requires Anchored(p, chain, st.ffg) && ctx.justifiedParent <= st.ffg.justified
    requires ApplyTx(p, ctx, st, tx).Ok?
    ensures var r := ApplyTx(p, ctx, st, tx).value;
            && Anchored(p, chain, r.ffg) && st.ffg.justified <= r.ffg.justified
            && st.ffg.finalized.height <= r.ffg.finalized.height
  {
    hide ApplyTx;
    hide Quorum;
    TxFinalityFrame(p, ctx, st, tx);
  }

  /** A newly justified checkpoint has its quorum in the very state that justified it. */
  lemma TxJustifies(p: Params, ctx: Context, st: State, tx: Tx, t: Hash) returns (s: Hash)
    requires 0 < p.epoch
    requires ApplyTx(p, ctx, st, tx).Ok?
    requires t in ApplyTx(p, ctx, st, tx).value.ffg.justified && t !in st.ffg.justified
    ensures s in ctx.justifiedParent
    ensures SupermajorityLink(ApplyTx(p, ctx, st, tx).value, s, t)
  {
    hide ApplyTx;
    hide Quorum;
    hide TwoThirds;
    TxFinalityFrame(p, ctx, st, tx);
    var k := tx.evidence.link;
    s := k.s;
    QuorumCounts(st.ffg.stakeAt[s], Voters(st.ffg, s, k.t) + {tx.sender}, st.slashedAddrs);
  }

  // -- a block's transactions ----------------------------------------------------------------

  lemma {:induction false} TxsKeepAnchored(p: Params, ctx: Context, chain: seq<Block>, st: State, txs: seq<Tx>,
                                           seen: set<Hash>)
    requires 0 < p.epoch
    requires Anchored(p, chain, st.ffg) && ctx.justifiedParent <= st.ffg.justified
    requires ApplyTxs(p, ctx, st, txs, seen).Ok?
    ensures var r := ApplyTxs(p, ctx, st, txs, seen).value;
            && Anchored(p, chain, r.ffg) && st.ffg.justified <= r.ffg.justified
            && st.ffg.finalized.height <= r.ffg.finalized.height
    decreases |txs|
  {
    hide ApplyTx;
    hide Anchored;
    if txs != [] {
      TxKeepsAnchored(p, ctx, chain, st, txs[0]);
      TxsKeepAnchored(p, ctx, chain, ApplyTx(p, ctx, st, txs[0]).value, txs[1..], seen + {TxId(txs[0])});
    }
  }

  lemma {:induction false} TxsJustify(p: Params, ctx: Context, st: State, txs: seq<Tx>, seen: set<Hash>, t: Hash)
    returns (n: nat, s: Hash)
    requires 0 < p.epoch
    requires ApplyTxs(p, ctx, st, txs, seen).Ok?
    requires t in ApplyTxs(p, ctx, st, txs, seen).value.ffg.justified && t !in st.ffg.justified
    ensures n <= |txs| && ApplyTxs(p, ctx, st, txs[..n], seen).Ok?
    ensures s in ctx.justifiedParent
    ensures SupermajorityLink(ApplyTxs(p, ctx, st, txs[..n], seen).value, s, t)
    decreases |txs|
  {
    hide ApplyTx;
    hide SupermajorityLink;
    var next := ApplyTx(p, ctx, st, txs[0]).value;
    var rest := seen + {TxId(txs[0])};
    if t in next.ffg.justified {
      n := 1;
      s := TxJustifies(p, ctx, st, txs[0], t);
      assert txs[..1] == [txs[0]] && [txs[0]][1..] == [];
    } else {
      var m: nat;
      m, s := TxsJustify(p, ctx, next, txs[1..], rest, t);
      n := m + 1;
      assert txs[..n][1..] == txs[1..][..m] && txs[..n][0] == txs[0];
    }
    assert ApplyTxs(p, ctx, st, txs[..n], seen) == ApplyFirst(p, ctx, st, txs[..n], seen);
  }

  // -- blocks and runs -----------------------------------------------------------------------

  lemma BeginKeepsAnchored(p: Params, l: Ledger, b: Block)
    requires 0 < p.epoch && l.chain != []
    requires Anchored(p, l.chain, l.state.ffg)
    requires b.header.index == |l.chain|
    ensures Anchored(p, l.chain + [Content(b)], BeginBlock(p, l.state, b).ffg)
    ensures BeginBlock(p, l.state, b).ffg.justified == l.state.ffg.justified
    ensures BeginBlock(p, l.state, b).ffg.finalized == l.state.ffg.finalized
  {
    hide Mature;
    var chain := l.chain + [Content(b)];
    var ffg := BeginBlock(p, l.state, b).ffg;
    assert BlockHash(chain[|l.chain|]) == BlockHash(b);
    forall h | h in ffg.heightAt ensures IsCheckpoint(p, chain, h, ffg.heightAt[h]) {
      if h in l.state.ffg.heightAt {
        assert IsCheckpoint(p, l.chain, h, l.state.ffg.heightAt[h]);
      }
    }
  }

  lemma BlockKeepsAnchored(p: Params, l: Ledger, b: Block)
    requires 0 < p.epoch && l.chain != []
    requires Anchored(p, l.chain, l.state.ffg)
    requires b.header.index == |l.chain|
    requires RunBlock(p, l, b).Ok?
    ensures var r := RunBlock(p, l, b).value;
            && Anchored(p, l.chain + [Content(b)], r.ffg)
            && l.state.ffg.justified <= r.ffg.justified
            && l.state.ffg.finalized.height <= r.ffg.finalized.height
  {
    hide ApplyTxs;
    hide Anchored;
    hide BeginBlock;
    BeginKeepsAnchored(p, l, b);
    TxsKeepAnchored(p, ContextOf(l, b), l.chain + [Content(b)], BeginBlock(p, l.state, b), b.txs, {});
  }

  /** In every reachable ledger the finalized checkpoint is justified, on the chain and epoch-aligned. */
  lemma {:induction false} ReplayAnchored(g: GenesisArgs, blocks: seq<Block>)
    requires Replay(g, blocks).Ok?
    ensures Anchored(g.params, LedgerAt(g, blocks).chain, LedgerAt(g, blocks).state.ffg)
  {
    hide Anchored;
    hide ApplyBlock;
    if blocks == [] {
      GenesisAnchored(g);
    } else {
      var front, b := blocks[..|blocks| - 1], blocks[|blocks| - 1];
      ReplayAnchored(g, front);
      LastBlock(g, blocks);
      BlockAccepted(g, blocks);
      BlockKeepsAnchored(g.params, LedgerAt(g, front), b);
    }
  }

  lemma GenesisAnchored(g: GenesisArgs)
    requires Genesis(g).Ok?
    ensures Anchored(g.params, Genesis(g).value.chain, Genesis(g).value.state.ffg)
  {
    hide GenesisAccounts;
  }

  /** Over a run nothing is un-justified and the finalized height never falls. */
  lemma {:induction false} FinalityMonotone(g: GenesisArgs, blocks: seq<Block>, k: nat)
    requires k <= |blocks|
    requires Replay(g, blocks).Ok?
    ensures Replay(g, blocks[..k]).Ok?
    ensures LedgerAt(g, blocks[..k]).state.ffg.justified <= LedgerAt(g, blocks).state.ffg.justified
    ensures LedgerAt(g, blocks[..k]).state.ffg.finalized.height <= LedgerAt(g, blocks).state.ffg.finalized.height
  {
    hide ApplyBlock;
    hide Anchored;
    if k == |blocks| {
      assert blocks[..k] == blocks;
    } else {
      var front, b := blocks[..|blocks| - 1], blocks[|blocks| - 1];
      assert front[..k] == blocks[..k];
      FinalityMonotone(g, front, k);
      LastBlock(g, blocks);
      BlockAccepted(g, blocks);
      ReplayAnchored(g, front);
      BlockKeepsAnchored(g.params, LedgerAt(g, front), b);
    }
  }

  /** t was justified by the last of these blocks, after its first n transactions, through a link from
      s, which earlier blocks had justified. */
  ghost predicate JustifiedByLast(g: GenesisArgs, blocks: seq<Block>, t: Hash, n: nat, s: Hash) {
    && blocks != [] && Replay(g, blocks[..|blocks| - 1]).Ok?
    && var l := LedgerAt(g, blocks[..|blocks| - 1]);
       var b := blocks[|blocks| - 1];
       && s in l.state.ffg.justified && t !in l.state.ffg.justified
       && n <= |b.txs| && RunPrefix(g.params, l, b, n).Ok?
       && SupermajorityLink(RunPrefix(g.params, l, b, n).value, s, t)
  }

  /** Both ends of such a link are checkpoints of the very chain, the source below the target. */
  lemma LinkOnChain(g: GenesisArgs, blocks: seq<Block>, t: Hash, n: nat, s: Hash)
    requires Replay(g, blocks).Ok? && JustifiedByLast(g, blocks, t, n, s)
    ensures var st := RunPrefix(g.params, LedgerAt(g, blocks[..|blocks| - 1]), blocks[|blocks| - 1], n).value;
            && s in st.ffg.heightAt && t in st.ffg.heightAt && st.ffg.heightAt[s] < st.ffg.heightAt[t]
            && IsCheckpoint(g.params, LedgerAt(g, blocks).chain, s, st.ffg.heightAt[s])
            && IsCheckpoint(g.params, LedgerAt(g, blocks).chain, t, st.ffg.heightAt[t])
  {
    hide Replay;
    hide ApplyTxs;
    hide BeginBlock;
    hide TwoThirds;
    hide HeaderAccepted;
    var front, b := blocks[..|blocks| - 1], blocks[|blocks| - 1];
    var l := LedgerAt(g, front);
    LastBlock(g, blocks);
    BlockAccepted(g, blocks);
    ReplayAnchored(g, front);
    BeginKeepsAnchored(g.params, l, b);
    TxsKeepAnchored(g.params, ContextOf(l, b), l.chain + [Content(b)], BeginBlock(g.params, l.state, b),
                    b.txs[..n], {});
  }

  /** How a checkpoint came to be justified: genesis is; any other was justified by one block through a
      source with a trail of its own in the blocks before. */
  datatype Trail = Root | Step(block: nat, n: nat, source: Hash, earlier: Trail)

  ghost predicate ValidTrail(g: GenesisArgs, blocks: seq<Block>, t: Hash, trail: Trail)
    decreases trail
  {
    match trail
    case Root => t == GenesisHash(g)
    case Step(k, n, s, earlier) =>
      && k < |blocks|
      && JustifiedByLast(g, blocks[..k + 1], t, n, s)
      && ValidTrail(g, blocks[..k], s, earlier)
  }

  lemma BlockJustifies(g: GenesisArgs, blocks: seq<Block>, t: Hash) returns (n: nat, s: Hash)
    requires blocks != [] && Replay(g, blocks).Ok?
    requires t in LedgerAt(g, blocks).state.ffg.justified
    requires Replay(g, blocks[..|blocks| - 1]).Ok?
    requires t !in LedgerAt(g, blocks[..|blocks| - 1]).state.ffg.justified
    ensures JustifiedByLast(g, blocks, t, n, s)
  {
    hide ApplyTxs;
    hide SupermajorityLink;
    hide HeaderAccepted;
    hide Replay;
    BlockAccepted(g, blocks);
    var l, b := LedgerAt(g, blocks[..|blocks| - 1]), blocks[|blocks| - 1];
    n, s := TxsJustify(g.params, ContextOf(l, b), BeginBlock(g.params, l.state, b), b.txs, {}, t);
  }

  /** Every justified checkpoint of every reachable ledger has such a trail down to genesis. */
  lemma {:induction false} JustificationTrail(g: GenesisArgs, blocks: seq<Block>, t: Hash) returns (trail: Trail)
    requires Replay(g, blocks).Ok?
    requires t in LedgerAt(g, blocks).state.ffg.justified
    ensures ValidTrail(g, blocks, t, trail)
    decreases |blocks|
  {
    hide ApplyBlock;
    hide JustifiedByLast;
    if blocks == [] {
      trail := Root;
    } else {
      var front := blocks[..|blocks| - 1];
      LastBlock(g, blocks);
      if t in LedgerAt(g, front).state.ffg.justified {
        trail := JustificationTrail(g, front, t);
        TrailExtends(g, blocks, t, trail);
      } else {
        var n, s := BlockJustifies(g, blocks, t);
        SourceJustified(g, blocks, t, n, s);
        var earlier := JustificationTrail(g, front, s);
        trail := Step(|front|, n, s, earlier);
        assert blocks[..|front| + 1] == blocks;
      }
    }
  }

  lemma SourceJustified(g: GenesisArgs, blocks: seq<Block>, t: Hash, n: nat, s: Hash)
    requires JustifiedByLast(g, blocks, t, n, s)
    ensures s in LedgerAt(g, blocks[..|blocks| - 1]).state.ffg.justified
  {
    hide Replay;
    hide RunPrefix;
    hide SupermajorityLink;
  }

  lemma TrailExtends(g: GenesisArgs, blocks: seq<Block>, t: Hash, trail: Trail)
    requires blocks != []
    requires ValidTrail(g, blocks[..|blocks| - 1], t, trail)
    ensures ValidTrail(g, blocks, t, trail)
  {
    hide JustifiedByLast;
    if trail.Step? {
      var front := blocks[..|blocks| - 1];
      assert front[..trail.block + 1] == blocks[..trail.block + 1];
      assert front[..trail.block] == blocks[..trail.block];
    }
  }
}
