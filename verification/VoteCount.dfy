/** The count behind finality, read off the history alone: when a vote is accepted, what it justifies and
    what it finalizes, in every run, slashes included. */
module VoteCount {
  import opened Sums
  import opened Records
  import opened Ledger
  import opened Runs
  import opened Justification
  import opened History

  /** The transactions a chain holds after the first n of its next block. */
  function LogAt(blocks: seq<Block>, b: Block, n: nat): seq<Tx>
    requires n <= |b.txs|
  {
    TxLog(blocks) + b.txs[..n]
  }

  /** Who cast a vote from s to t. */
  function CastersOf(log: seq<Tx>, s: Hash, t: Hash): set<Address> {
    set i | 0 <= i < |log| && Casts(log[i], log[i].sender, s, t) :: log[i].sender
  }

  /** Two thirds of the stake the source's block found, slashed addresses left out of both sides, have cast the
      vote for k. */
  predicate Enough(g: GenesisArgs, blocks: seq<Block>, log: seq<Tx>, k: Link)
    requires 0 <= k.sh <= |blocks| && (k.sh > 0 ==> Replay(g, blocks[..k.sh - 1]).Ok?)
  {
    var stake := StakeFound(g, blocks, k.sh);
    var total := Held(stake, stake.Keys - Offenders(log));
    0 < total && 2 * total <= 3 * Held(stake, CastersOf(log, k.s, k.t) - Offenders(log))
  }

  lemma CastersAreVoters(log: seq<Tx>, ffg: Finality, s: Hash, t: Hash)
    requires VotesCounted(log, ffg)
    ensures CastersOf(log, s, t) == Voters(ffg, s, t)
  {
    hide Voters;
    forall v ensures v in CastersOf(log, s, t) <==> v in Voters(ffg, s, t) {
      assert v in Voters(ffg, s, t) <==> HasCast(log, v, s, t);
      if HasCast(log, v, s, t) {
        var i :| 0 <= i < |log| && Casts(log[i], v, s, t);
        assert log[i].sender == v;
      }
    }
  }

  // -- one vote ----------------------------------------------------------------------------------

  /** An accepted vote justifies its target, and finalizes a higher source one epoch below, exactly when two
      thirds of the snapshot voted; otherwise, like any other transaction, it justifies nothing. */
  lemma VoteJustifiesExactly(p: Params, ctx: Context, st: State, tx: Tx)
    requires p.epoch != 0
    requires ApplyTx(p, ctx, st, tx).Ok?
    ensures tx.recipient.VoteSentinel? ==>
              var k, next := tx.evidence.link, ApplyTx(p, ctx, st, tx).value.ffg;
              var counted := k.s in st.ffg.stakeAt
                             && TwoThirds(st.ffg.stakeAt[k.s], Voters(next, k.s, k.t), st.slashedAddrs);
              && next.justified == st.ffg.justified + (if counted then {k.t} else {})
              && next.finalized == (if counted && k.th == k.sh + p.epoch && st.ffg.finalized.height < k.sh
                                    then Checkpoint(k.s, k.sh) else st.ffg.finalized)
    ensures !tx.recipient.VoteSentinel? ==> ApplyTx(p, ctx, st, tx).value.ffg == st.ffg
  {
    hide ApplyTx;
    hide Quorum;
    hide TwoThirds;
    TxFinalityFrame(p, ctx, st, tx);
    if tx.recipient.VoteSentinel? {
      var k := tx.evidence.link;
      QuorumCounts(st.ffg.stakeAt[k.s], Voters(st.ffg, k.s, k.t) + {tx.sender}, st.slashedAddrs);
    }
  }

  // -- the record while a block runs -----------------------------------------------------------------

  lemma PrefixRecorded(g: GenesisArgs, blocks: seq<Block>, b: Block, n: nat)
    requires Replay(g, blocks).Ok? && n <= |b.txs|
    requires RunPrefix(g.params, LedgerAt(g, blocks), b, n).Ok?
    ensures Recorded(LogAt(blocks, b, n), RunPrefix(g.params, LedgerAt(g, blocks), b, n).value)
    ensures Orderly(LogAt(blocks, b, n))
  {
    hide Replay;
    hide ApplyTxs;
    hide Recorded;
    hide Orderly;
    hide BeginBlock;
    hide TxLog;
    var l := LedgerAt(g, blocks);
    HistoryRecorded(g, blocks);
    BeginRecorded(g.params, TxLog(blocks), l.state, b);
    TxsRecorded(g.params, ContextOf(l, b), BeginBlock(g.params, l.state, b), TxLog(blocks), b.txs[..n], {});
  }

  lemma PrefixAnchored(g: GenesisArgs, blocks: seq<Block>, b: Block, n: nat)
    requires Replay(g, blocks).Ok? && b.header.index == |blocks| + 1 && n <= |b.txs|
    requires RunPrefix(g.params, LedgerAt(g, blocks), b, n).Ok?
    ensures var l, ffg := LedgerAt(g, blocks), RunPrefix(g.params, LedgerAt(g, blocks), b, n).value.ffg;
            Anchored(g.params, l.chain + [Content(b)], ffg) && l.state.ffg.justified <= ffg.justified
  {
    hide Replay;
    hide ApplyTxs;
    hide Anchored;
    hide BeginBlock;
    var l := LedgerAt(g, blocks);
    ReplayAnchored(g, blocks);
    BeginKeepsAnchored(g.params, l, b);
    TxsKeepAnchored(g.params, ContextOf(l, b), l.chain + [Content(b)], BeginBlock(g.params, l.state, b),
                    b.txs[..n], {});
  }

  /** A hash is a checkpoint of a chain at one height only. */
  lemma OneHeight(p: Params, chain: seq<Block>, h: Hash, x: int, y: int)
    requires CollisionFree() && 0 < p.epoch
    requires IsCheckpoint(p, chain, h, x) && IsCheckpoint(p, chain, h, y)
    requires forall i :: 0 <= i < |chain| ==> chain[i].header.index == i
    ensures x == y
  {
  }

  lemma NextChain(g: GenesisArgs, blocks: seq<Block>, b: Block)
    requires Replay(g, blocks).Ok? && b.header.index == |blocks| + 1
    ensures var chain := LedgerAt(g, blocks).chain + [Content(b)];
            |chain| == |blocks| + 2 && forall i :: 0 <= i < |chain| ==> chain[i].header.index == i
  {
    hide Replay;
    ReplayChain(g, blocks);
  }

  /** What was justified before the block is recorded at one height, below the block. */
  lemma JustifiedHeight(g: GenesisArgs, blocks: seq<Block>, b: Block, s: Hash, h: int)
    requires CollisionFree() && Replay(g, blocks).Ok? && b.header.index == |blocks| + 1
    requires s in LedgerAt(g, blocks).state.ffg.justified
    requires IsCheckpoint(g.params, LedgerAt(g, blocks).chain + [Content(b)], s, h)
    ensures 0 <= h <= |blocks| && h % g.params.epoch == 0 && BlockHash(LedgerAt(g, blocks).chain[h]) == s
  {
    hide Replay;
    hide CollisionFree;
    var l := LedgerAt(g, blocks);
    ReplayAnchored(g, blocks);
    var k := l.state.ffg.heightAt[s];
    assert IsCheckpoint(g.params, l.chain, s, k);
    var chain := l.chain + [Content(b)];
    assert chain[k] == l.chain[k];
    NextChain(g, blocks, b);
    OneHeight(g.params, chain, s, h, k);
  }

  // -- every step of every run -----------------------------------------------------------------------

  lemma StepVote(g: GenesisArgs, blocks: seq<Block>, b: Block, n: nat)
    requires CollisionFree() && Replay(g, blocks).Ok?
    requires b.header.index == |blocks| + 1 && n < |b.txs| && b.txs[n].recipient.VoteSentinel?
    requires RunPrefix(g.params, LedgerAt(g, blocks), b, n + 1).Ok?
    ensures RunPrefix(g.params, LedgerAt(g, blocks), b, n).Ok? && b.txs[n].evidence.VoteLink?
    ensures var st, k := RunPrefix(g.params, LedgerAt(g, blocks), b, n).value, b.txs[n].evidence.link;
            && 0 <= k.sh <= |blocks| && (k.sh > 0 ==> Replay(g, blocks[..k.sh - 1]).Ok?)
            && k.s in st.ffg.stakeAt && st.ffg.stakeAt[k.s] == StakeFound(g, blocks, k.sh)
  {
    hide Replay;
    hide RunPrefix;
    hide ApplyTx;
    hide Anchored;
    hide CollisionFree;
    hide StakeFound;
    var l := LedgerAt(g, blocks);
    BlockStep(g.params, l, b, n);
    var st := RunPrefix(g.params, l, b, n).value;
    TxFinalityFrame(g.params, ContextOf(l, b), st, b.txs[n]);
    var k := b.txs[n].evidence.link;
    PrefixAnchored(g, blocks, b, n);
    RecordedOnChain(g.params, l.chain + [Content(b)], st.ffg, k.s);
    JustifiedHeight(g, blocks, b, k.s, k.sh);
    PrefixSnapshots(g, blocks, b, n, k.sh);
  }

  lemma RecordedOnChain(p: Params, chain: seq<Block>, ffg: Finality, h: Hash)
    requires 0 < p.epoch && Anchored(p, chain, ffg) && h in ffg.heightAt
    ensures IsCheckpoint(p, chain, h, ffg.heightAt[h])
  {
  }

  /** Justification and finality, step by step and from the history alone: after each transaction of each block
      exactly the target of a vote that brought the non-slashed votes for its link to two thirds of the
      non-slashed stake is newly justified, and its source finalized when it is one epoch below and higher
      than what was. Votes of slashed addresses never count, on either side. */
  lemma StepJustifies(g: GenesisArgs, blocks: seq<Block>, b: Block, n: nat)
    requires CollisionFree() && Replay(g, blocks).Ok?
    requires b.header.index == |blocks| + 1 && n < |b.txs|
    requires RunPrefix(g.params, LedgerAt(g, blocks), b, n + 1).Ok?
    ensures RunPrefix(g.params, LedgerAt(g, blocks), b, n).Ok?
    ensures var before := RunPrefix(g.params, LedgerAt(g, blocks), b, n).value.ffg;
            var after := RunPrefix(g.params, LedgerAt(g, blocks), b, n + 1).value.ffg;
            if !b.txs[n].recipient.VoteSentinel?
            then after.justified == before.justified && after.finalized == before.finalized
            else
              && b.txs[n].evidence.VoteLink?
              && var k := b.txs[n].evidence.link;
                 && 0 <= k.sh <= |blocks| && (k.sh > 0 ==> Replay(g, blocks[..k.sh - 1]).Ok?)
                 && var enough := Enough(g, blocks, LogAt(blocks, b, n + 1), k);
                    && after.justified == before.justified + (if enough then {k.t} else {})
                    && after.finalized == (if enough && k.th == k.sh + g.params.epoch && before.finalized.height < k.sh
                                           then Checkpoint(k.s, k.sh) else before.finalized)
  {
    hide Replay;
    hide RunPrefix;
    hide ApplyTx;
    hide CollisionFree;
    hide StakeFound;
    hide Held;
    hide Offenders;
    hide CastersOf;
    hide Voters;
    hide VotesSeen;
    hide VotesCounted;
    hide LogAt;
    var l, tx := LedgerAt(g, blocks), b.txs[n];
    BlockStep(g.params, l, b, n);
    var st := RunPrefix(g.params, l, b, n).value;
    VoteJustifiesExactly(g.params, ContextOf(l, b), st, tx);
    TxFinalityFrame(g.params, ContextOf(l, b), st, tx);
    if tx.recipient.VoteSentinel? {
      StepVote(g, blocks, b, n);
      PrefixRecorded(g, blocks, b, n + 1);
      CastersAreVoters(LogAt(blocks, b, n + 1), RunPrefix(g.params, l, b, n + 1).value.ffg,
                       tx.evidence.link.s, tx.evidence.link.t);
    }
  }

  // -- what justified a checkpoint ---------------------------------------------------------------------

  /** The transaction after the first n of block i is a vote for t that brought the votes for its link to two
      thirds, through a source which the blocks before had justified. */
  ghost predicate JustifyingVote(g: GenesisArgs, blocks: seq<Block>, i: int, n: int, t: Hash) {
    && 0 <= i < |blocks| && 0 <= n < |blocks[i].txs| && Replay(g, blocks[..i]).Ok?
    && blocks[i].txs[n].recipient.VoteSentinel? && blocks[i].txs[n].evidence.VoteLink?
    && var k := blocks[i].txs[n].evidence.link;
       && k.t == t && k.s in LedgerAt(g, blocks[..i]).state.ffg.justified
       && 0 <= k.sh <= i && (k.sh > 0 ==> Replay(g, blocks[..i][..k.sh - 1]).Ok?)
       && Enough(g, blocks[..i], LogAt(blocks[..i], blocks[i], n + 1), k)
  }

  lemma {:induction false} FirstJustified(g: GenesisArgs, blocks: seq<Block>, b: Block, m: nat, t: Hash)
    returns (n: nat)
    requires CollisionFree() && Replay(g, blocks).Ok? && b.header.index == |blocks| + 1 && m <= |b.txs|
    requires RunPrefix(g.params, LedgerAt(g, blocks), b, m).Ok?
    requires t in RunPrefix(g.params, LedgerAt(g, blocks), b, m).value.ffg.justified
    requires t !in LedgerAt(g, blocks).state.ffg.justified
    ensures n < |b.txs| && JustifyingVote(g, blocks + [b], |blocks|, n, t)
    decreases m
  {
    hide Replay;
    hide RunPrefix;
    hide CollisionFree;
    hide Enough;
    hide BeginBlock;
    var l, all := LedgerAt(g, blocks), blocks + [b];
    assert all[..|blocks|] == blocks && all[|blocks|] == b;
    if m == 0 {
      PrefixEnds(g.params, l, b);
      BeginJustified(g.params, l.state, b);
      assert false;
    } else {
      StepJustifies(g, blocks, b, m - 1);
      if t in RunPrefix(g.params, l, b, m - 1).value.ffg.justified {
        n := FirstJustified(g, blocks, b, m - 1, t);
      } else {
        n := m - 1;
        SourceWasJustified(g, blocks, b, n);
      }
    }
  }

  lemma BeginJustified(p: Params, st: State, b: Block)
    requires p.epoch != 0
    ensures BeginBlock(p, st, b).ffg.justified == st.ffg.justified
  {
  }

  lemma SourceWasJustified(g: GenesisArgs, blocks: seq<Block>, b: Block, n: nat)
    requires Replay(g, blocks).Ok? && n < |b.txs| && b.txs[n].recipient.VoteSentinel?
    requires RunPrefix(g.params, LedgerAt(g, blocks), b, n + 1).Ok?
    ensures b.txs[n].evidence.VoteLink? && b.txs[n].evidence.link.s in LedgerAt(g, blocks).state.ffg.justified
  {
    hide Replay;
    hide RunPrefix;
    hide ApplyTx;
    var l := LedgerAt(g, blocks);
    BlockStep(g.params, l, b, n);
    TxFinalityFrame(g.params, ContextOf(l, b), RunPrefix(g.params, l, b, n).value, b.txs[n]);
  }

  /** Every justified checkpoint of every reachable ledger but genesis has such a vote. */
  lemma {:induction false} JustifiedByHistory(g: GenesisArgs, blocks: seq<Block>, t: Hash) returns (i: nat, n: nat)
    requires CollisionFree() && Replay(g, blocks).Ok?
    requires t in LedgerAt(g, blocks).state.ffg.justified && t != GenesisHash(g)
    ensures JustifyingVote(g, blocks, i, n, t)
  {
    hide ApplyBlock;
    hide CollisionFree;
    hide JustifyingVote;
    hide RunPrefix;
    hide RunBlock;
    hide HeaderAccepted;
    if blocks == [] {
      assert false;
    } else {
      var front, b := blocks[..|blocks| - 1], blocks[|blocks| - 1];
      BlockAccepted(g, blocks);
      if t in LedgerAt(g, front).state.ffg.justified {
        i, n := JustifiedByHistory(g, front, t);
        EarlierVote(g, front, blocks, i, n, t);
      } else {
        PrefixEnds(g.params, LedgerAt(g, front), b);
        n := FirstJustified(g, front, b, |b.txs|, t);
        i := |front|;
        assert front + [b] == blocks;
      }
    }
  }

  lemma EarlierVote(g: GenesisArgs, front: seq<Block>, blocks: seq<Block>, i: nat, n: nat, t: Hash)
    requires front <= blocks && JustifyingVote(g, front, i, n, t)
    ensures JustifyingVote(g, blocks, i, n, t)
  {
    hide Replay;
    hide Enough;
    assert front[..i] == blocks[..i] && front[i] == blocks[i];
  }

  // -- when a vote is accepted ---------------------------------------------------------------------

  /** A record of a voter's link for a target height comes from a vote of the log. */
  ghost predicate SeenFromLog(log: seq<Tx>, ffg: Finality) {
    forall key :: key in ffg.seenTarget ==> exists i :: 0 <= i < |log| && IsRecordOf(log[i], key, ffg.seenTarget[key])
  }

  predicate IsRecordOf(tx: Tx, key: (Address, int), ends: (Hash, Hash)) {
    && tx.recipient.VoteSentinel? && tx.evidence.VoteLink? && tx.sender == key.0
    && tx.evidence.link.th == key.1 && (tx.evidence.link.s, tx.evidence.link.t) == ends
  }

  lemma TxSeen(p: Params, ctx: Context, st: State, log: seq<Tx>, tx: Tx)
    requires p.epoch != 0 && SeenFromLog(log, st.ffg)
    requires ApplyTx(p, ctx, st, tx).Ok?
    ensures SeenFromLog(log + [tx], ApplyTx(p, ctx, st, tx).value.ffg)
  {
    hide ApplyTx;
    hide Quorum;
    TxFinalityFrame(p, ctx, st, tx);
    var ffg, next := ApplyTx(p, ctx, st, tx).value.ffg, log + [tx];
    assert next[|log|] == tx;
    forall key | key in ffg.seenTarget
      ensures exists i :: 0 <= i < |next| && IsRecordOf(next[i], key, ffg.seenTarget[key])
    {
      if key in st.ffg.seenTarget && ffg.seenTarget[key] == st.ffg.seenTarget[key] {
        var i :| 0 <= i < |log| && IsRecordOf(log[i], key, st.ffg.seenTarget[key]);
        assert next[i] == log[i];
      } else {
        assert IsRecordOf(next[|log|], key, ffg.seenTarget[key]);
      }
    }
  }

  lemma {:induction false} TxsSeen(p: Params, ctx: Context, st: State, log: seq<Tx>, txs: seq<Tx>, seen: set<Hash>)
    requires p.epoch != 0 && SeenFromLog(log, st.ffg)
    requires ApplyTxs(p, ctx, st, txs, seen).Ok?
    ensures SeenFromLog(log + txs, ApplyTxs(p, ctx, st, txs, seen).value.ffg)
    decreases |txs|
  {
    hide ApplyTx;
    hide SeenFromLog;
    if txs == [] {
      assert log + txs == log;
    } else {
      TxSeen(p, ctx, st, log, txs[0]);
      TxsSeen(p, ctx, ApplyTx(p, ctx, st, txs[0]).value, log + [txs[0]], txs[1..], seen + {TxId(txs[0])});
      assert log + [txs[0]] + txs[1..] == log + txs;
    }
  }

  lemma {:induction false} LogSeen(g: GenesisArgs, blocks: seq<Block>)
    requires Replay(g, blocks).Ok?
    ensures SeenFromLog(TxLog(blocks), LedgerAt(g, blocks).state.ffg)
  {
    hide ApplyBlock;
    hide ApplyTxs;
    hide HeaderAccepted;
    if blocks != [] {
      var front, b := blocks[..|blocks| - 1], blocks[|blocks| - 1];
      LogSeen(g, front);
      BlockAccepted(g, blocks);
      var l := LedgerAt(g, front);
      hide SeenFromLog;
      BeginSeen(g.params, TxLog(front), l.state, b);
      TxsSeen(g.params, ContextOf(l, b), BeginBlock(g.params, l.state, b), TxLog(front), b.txs, {});
    }
  }

  lemma BeginSeen(p: Params, log: seq<Tx>, st: State, b: Block)
    requires p.epoch != 0 && SeenFromLog(log, st.ffg)
    ensures SeenFromLog(log, BeginBlock(p, st, b).ffg)
  {
    hide Mature;
  }

  lemma PrefixSeen(g: GenesisArgs, blocks: seq<Block>, b: Block, n: nat)
    requires Replay(g, blocks).Ok? && n <= |b.txs|
    requires RunPrefix(g.params, LedgerAt(g, blocks), b, n).Ok?
    ensures SeenFromLog(LogAt(blocks, b, n), RunPrefix(g.params, LedgerAt(g, blocks), b, n).value.ffg)
  {
    hide Replay;
    hide ApplyTxs;
    hide SeenFromLog;
    hide BeginBlock;
    hide TxLog;
    var l := LedgerAt(g, blocks);
    LogSeen(g, blocks);
    BeginSeen(g.params, TxLog(blocks), l.state, b);
    TxsSeen(g.params, ContextOf(l, b), BeginBlock(g.params, l.state, b), TxLog(blocks), b.txs[..n], {});
  }

  /** Every checkpoint of the chain, the running block included, is on record at its height. */
  lemma CheckpointRecorded(g: GenesisArgs, blocks: seq<Block>, b: Block, n: nat, t: Hash, h: int)
    requires CollisionFree() && Replay(g, blocks).Ok? && b.header.index == |blocks| + 1 && n <= |b.txs|
    requires RunPrefix(g.params, LedgerAt(g, blocks), b, n).Ok?
    requires IsCheckpoint(g.params, LedgerAt(g, blocks).chain + [Content(b)], t, h)
    ensures var ffg := RunPrefix(g.params, LedgerAt(g, blocks), b, n).value.ffg;
            t in ffg.stakeAt && t in ffg.heightAt && ffg.heightAt[t] == h
  {
    hide Replay;
    hide ApplyTxs;
    hide CollisionFree;
    hide Mature;
    var l := LedgerAt(g, blocks);
    NextChain(g, blocks, b);
    if h <= |blocks| {
      assert (l.chain + [Content(b)])[h] == l.chain[h];
      PrefixSnapshots(g, blocks, b, n, h);
    } else {
      assert (l.chain + [Content(b)])[h] == Content(b);
      TxsKeepSnapshots(g.params, ContextOf(l, b), BeginBlock(g.params, l.state, b), b.txs[..n], {});
    }
  }

  predicate SameEnds(j: Link, k: Link) {
    j.s == k.s && j.t == k.t
  }

  /** tx is a vote of v for target height th. */
  predicate VotesAt(tx: Tx, v: Address, th: int) {
    tx.sender == v && tx.recipient.VoteSentinel? && tx.evidence.VoteLink? && tx.evidence.link.th == th
  }

  /** Whatever v cast for k's target height had k's ends. */
  ghost predicate NoOtherLink(log: seq<Tx>, v: Address, k: Link) {
    forall i :: 0 <= i < |log| && VotesAt(log[i], v, k.th) ==> SameEnds(log[i].evidence.link, k)
  }

  /** What a vote must be, told from the chain and its history: an upward link between two checkpoints of this
      very chain from one the parent had justified, by somebody who had stake when the source was made, was
      never slashed, cast no other link for that height, and can pay. */
  ghost predicate MayVote(g: GenesisArgs, blocks: seq<Block>, b: Block, log: seq<Tx>, acc: Accounts, tx: Tx)
    requires Replay(g, blocks).Ok? && tx.evidence.VoteLink?
  {
    var l, k := LedgerAt(g, blocks), tx.evidence.link;
    var chain := l.chain + [Content(b)];
    && IsCheckpoint(g.params, chain, k.s, k.sh) && IsCheckpoint(g.params, chain, k.t, k.th) && k.sh < k.th
    && k.s in l.state.ffg.justified
    && k.sh <= |blocks| && (k.sh > 0 ==> Replay(g, blocks[..k.sh - 1]).Ok?)
    && 0 < Get(StakeFound(g, blocks, k.sh), tx.sender)
    && tx.sender !in Offenders(log)
    && NoOtherLink(log, tx.sender, k)
    && tx.sender in acc.balances && tx.fee <= Get(acc.balances, tx.sender)
  }

  /** The one-vote rule, read off the log. */
  lemma SeenIsLogged(log: seq<Tx>, st: State, tx: Tx)
    requires Recorded(log, st) && SeenFromLog(log, st.ffg)
    requires tx.evidence.VoteLink?
    ensures var v, k := tx.sender, tx.evidence.link;
            NoOtherLink(log, v, k)
            <==> ((v, k.th) in st.ffg.seenTarget ==> st.ffg.seenTarget[(v, k.th)] == (k.s, k.t))
  {
    hide CountBy;
    hide Offenses;
    hide Offenders;
    hide VotesCounted;
    var k := tx.evidence.link;
    forall i | 0 <= i < |log| && VotesAt(log[i], tx.sender, k.th)
      ensures (tx.sender, k.th) in st.ffg.seenTarget
              && st.ffg.seenTarget[(tx.sender, k.th)] == (log[i].evidence.link.s, log[i].evidence.link.t)
    {
      assert VoteSeen(log[i], st.ffg);
    }
  }

  /** A vote is accepted at some point of the next block exactly when it may be. */
  lemma VoteAcceptedExactly(g: GenesisArgs, blocks: seq<Block>, b: Block, n: nat, tx: Tx)
    requires CollisionFree() && Replay(g, blocks).Ok?
    requires b.header.index == |blocks| + 1 && n <= |b.txs|
    requires RunPrefix(g.params, LedgerAt(g, blocks), b, n).Ok?
    requires tx.recipient.VoteSentinel? && tx.evidence.VoteLink?
    ensures var l, st := LedgerAt(g, blocks), RunPrefix(g.params, LedgerAt(g, blocks), b, n).value;
            var ctx := Context(b.header.index, b.header.validator, l.state.ffg.justified);
            ApplyTx(g.params, ctx, st, tx).Ok? <==> MayVote(g, blocks, b, LogAt(blocks, b, n), st.accounts, tx)
  {
    hide Replay;
    hide RunPrefix;
    hide CollisionFree;
    hide StakeFound;
    hide CountVote;
    hide LogAt;
    hide VotesSeen;
    hide VotesCounted;
    hide SeenFromLog;
    hide Offenders;
    hide Anchored;
    hide IsCheckpoint;
    hide NoOtherLink;
    var l, st, k := LedgerAt(g, blocks), RunPrefix(g.params, LedgerAt(g, blocks), b, n).value, tx.evidence.link;
    var chain := l.chain + [Content(b)];
    PrefixRecorded(g, blocks, b, n);
    PrefixSeen(g, blocks, b, n);
    SeenIsLogged(LogAt(blocks, b, n), st, tx);
    PrefixAnchored(g, blocks, b, n);
    if k.s in st.ffg.heightAt { RecordedOnChain(g.params, chain, st.ffg, k.s); }
    if k.t in st.ffg.heightAt { RecordedOnChain(g.params, chain, st.ffg, k.t); }
    if IsCheckpoint(g.params, chain, k.s, k.sh) && k.s in l.state.ffg.justified {
      JustifiedHeight(g, blocks, b, k.s, k.sh);
      PrefixSnapshots(g, blocks, b, n, k.sh);
      CheckpointRecorded(g, blocks, b, n, k.s, k.sh);
    }
    if IsCheckpoint(g.params, chain, k.t, k.th) {
      CheckpointRecorded(g, blocks, b, n, k.t, k.th);
      CheckpointHeight(g.params, chain, k.t, k.th);
    }
    if IsCheckpoint(g.params, chain, k.s, k.sh) {
      CheckpointHeight(g.params, chain, k.s, k.sh);
    }
  }

  lemma CheckpointHeight(p: Params, chain: seq<Block>, h: Hash, height: int)
    requires 0 < p.epoch && IsCheckpoint(p, chain, h, height)
    ensures 0 <= height && height % p.epoch == 0
  {
  }
}
