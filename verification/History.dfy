/** What a chain records over its whole history, and what therefore happens at most once: a nonce is
    used once, an offense is slashed once, a voter votes once per target height, and a checkpoint's
    snapshot is the stake its block found. */
module History {
  import opened Sums
  import opened Records
  import opened Ledger
  import opened Runs
  import opened Justification
  import AccountableSafety
  import Bookkeeping

  /** Every transaction of the blocks, in order. */
  function TxLog(blocks: seq<Block>): seq<Tx> {
    if blocks == [] then [] else TxLog(blocks[..|blocks| - 1]) + blocks[|blocks| - 1].txs
  }

  function CountBy(log: seq<Tx>, s: Address): nat {
    if log == [] then 0 else CountBy(log[..|log| - 1], s) + (if log[|log| - 1].sender == s then 1 else 0)
  }

  function OffenseOf(tx: Tx): set<Offense> {
    if tx.recipient.SlashSentinel? && VerifyFault(tx.evidence).Ok? then {VerifyFault(tx.evidence).value.1} else {}
  }

  function OffenderOf(tx: Tx): set<Address> {
    if tx.recipient.SlashSentinel? && VerifyFault(tx.evidence).Ok? then {VerifyFault(tx.evidence).value.0} else {}
  }

  function Offenses(log: seq<Tx>): set<Offense> {
    if log == [] then {} else Offenses(log[..|log| - 1]) + OffenseOf(log[|log| - 1])
  }

  function Offenders(log: seq<Tx>): set<Address> {
    if log == [] then {} else Offenders(log[..|log| - 1]) + OffenderOf(log[|log| - 1])
  }

  predicate Casts(tx: Tx, v: Address, s: Hash, t: Hash) {
    && tx.recipient.VoteSentinel? && tx.evidence.VoteLink? && tx.sender == v
    && tx.evidence.link.s == s && tx.evidence.link.t == t
  }

  predicate HasCast(log: seq<Tx>, v: Address, s: Hash, t: Hash) {
    exists i :: 0 <= i < |log| && Casts(log[i], v, s, t)
  }

  /** Every vote of the log is on record under its target height. */
  ghost predicate VotesSeen(log: seq<Tx>, ffg: Finality) {
    forall i :: 0 <= i < |log| && log[i].recipient.VoteSentinel? ==> VoteSeen(log[i], ffg)
  }

  predicate VoteSeen(tx: Tx, ffg: Finality) {
    && tx.evidence.VoteLink?
    && (tx.sender, tx.evidence.link.th) in ffg.seenTarget
    && ffg.seenTarget[(tx.sender, tx.evidence.link.th)] == (tx.evidence.link.s, tx.evidence.link.t)
  }

  /** The counted voters of every link are exactly those who cast it. */
  ghost predicate VotesCounted(log: seq<Tx>, ffg: Finality) {
    forall s, t, v :: v in Voters(ffg, s, t) <==> HasCast(log, v, s, t)
  }

  /** The state's records are the log's. */
  ghost predicate Recorded(log: seq<Tx>, st: State) {
    && (forall s :: Get(st.accounts.nonces, s) == CountBy(log, s))
    && st.slashed == Offenses(log) && st.slashedAddrs == Offenders(log)
    && VotesSeen(log, st.ffg) && VotesCounted(log, st.ffg)
  }

  /** What tx may be after the transactions before it: its nonce is the number of its sender's earlier
      transactions, its offense is new, and its vote is by nobody slashed and doubles no earlier one. */
  ghost predicate MayFollow(earlier: seq<Tx>, tx: Tx) {
    && tx.nonce == CountBy(earlier, tx.sender)
    && (tx.recipient.SlashSentinel? ==>
          VerifyFault(tx.evidence).Ok? && VerifyFault(tx.evidence).value.1 !in Offenses(earlier))
    && (tx.recipient.VoteSentinel? ==>
          && tx.evidence.VoteLink? && tx.sender !in Offenders(earlier)
          && forall i :: 0 <= i < |earlier| ==> !Doubles(earlier[i], tx))
  }

  predicate Doubles(a: Tx, b: Tx) {
    && a.recipient.VoteSentinel? && a.evidence.VoteLink? && b.recipient.VoteSentinel? && b.evidence.VoteLink?
    && a.sender == b.sender && DoubleVote(a.evidence.link, b.evidence.link)
  }

  ghost predicate Orderly(log: seq<Tx>) {
    forall i :: 0 <= i < |log| ==> MayFollow(log[..i], log[i])
  }

  // -- one transaction ---------------------------------------------------------------------

  lemma TxMayFollow(p: Params, ctx: Context, st: State, log: seq<Tx>, tx: Tx)
    requires p.epoch != 0
    requires Recorded(log, st)
    requires tx.nonce == Get(st.accounts.nonces, tx.sender) && ApplyTx(p, ctx, st, tx).Ok?
    ensures MayFollow(log, tx)
  {
    hide ConfiscatedAccounts;
    hide CountVote;
    hide MoveMoney;
    hide VerifyFault;
    hide CountBy;
    hide VotesCounted;
    hide Offenses;
    hide Offenders;
    forall i | 0 <= i < |log| && log[i].recipient.VoteSentinel? && tx.recipient.VoteSentinel?
      ensures !Doubles(log[i], tx)
    {
      assert VoteSeen(log[i], st.ffg);
    }
  }

  lemma CastLast(log: seq<Tx>, tx: Tx, v: Address, s: Hash, t: Hash)
    ensures HasCast(log + [tx], v, s, t) <==> HasCast(log, v, s, t) || Casts(tx, v, s, t)
  {
    hide Casts;
    var next := log + [tx];
    assert next[|log|] == tx;
    if HasCast(log, v, s, t) {
      var i :| 0 <= i < |log| && Casts(log[i], v, s, t);
      assert next[i] == log[i];
    }
    if HasCast(next, v, s, t) {
      var i :| 0 <= i < |next| && Casts(next[i], v, s, t);
      assert i < |log| ==> next[i] == log[i];
    }
  }

  /** How one accepted transaction changes the votes on record. */
  lemma TxVotes(p: Params, ctx: Context, st: State, tx: Tx)
    requires p.epoch != 0
    requires ApplyTx(p, ctx, st, tx).Ok?
    ensures var next := ApplyTx(p, ctx, st, tx).value.ffg;
            && (forall s, t, v :: v in Voters(next, s, t) <==> v in Voters(st.ffg, s, t) || Casts(tx, v, s, t))
            && (forall k :: k in st.ffg.seenTarget ==>
                  k in next.seenTarget && next.seenTarget[k] == st.ffg.seenTarget[k])
            && (tx.recipient.VoteSentinel? ==> VoteSeen(tx, next))
  {
    hide ApplyTx;
    hide Quorum;
    Justification.TxFinalityFrame(p, ctx, st, tx);
  }

  lemma VotesRecorded(p: Params, ctx: Context, st: State, log: seq<Tx>, tx: Tx)
    requires p.epoch != 0
    requires VotesSeen(log, st.ffg) && VotesCounted(log, st.ffg)
    requires ApplyTx(p, ctx, st, tx).Ok?
    ensures var next := ApplyTx(p, ctx, st, tx).value.ffg;
            VotesSeen(log + [tx], next) && VotesCounted(log + [tx], next)
  {
    hide ApplyTx;
    hide HasCast;
    hide Voters;
    TxVotes(p, ctx, st, tx);
    var next := ApplyTx(p, ctx, st, tx).value.ffg;
    forall s, t, v ensures v in Voters(next, s, t) <==> HasCast(log + [tx], v, s, t) {
      CastLast(log, tx, v, s, t);
    }
  }

  /** How one accepted transaction changes the record of slashes. */
  lemma TxSlashes(p: Params, ctx: Context, st: State, tx: Tx)
    requires p.epoch != 0
    requires ApplyTx(p, ctx, st, tx).Ok?
    ensures ApplyTx(p, ctx, st, tx).value.slashed == st.slashed + OffenseOf(tx)
    ensures ApplyTx(p, ctx, st, tx).value.slashedAddrs == st.slashedAddrs + OffenderOf(tx)
  {
    hide ConfiscatedAccounts;
    hide CountVote;
    hide LinkAccepted;
    hide MoveMoney;
    hide VerifyFault;
  }

  lemma TxRecorded(p: Params, ctx: Context, st: State, log: seq<Tx>, tx: Tx)
    requires p.epoch != 0
    requires Recorded(log, st)
    requires tx.nonce == Get(st.accounts.nonces, tx.sender) && ApplyTx(p, ctx, st, tx).Ok?
    ensures Recorded(log + [tx], ApplyTx(p, ctx, st, tx).value)
  {
    hide ApplyTx;
    hide VotesSeen;
    hide VotesCounted;
    hide OffenseOf;
    hide OffenderOf;
    var next := ApplyTx(p, ctx, st, tx).value;
    assert (log + [tx])[..|log|] == log;
    VotesRecorded(p, ctx, st, log, tx);
    TxSlashes(p, ctx, st, tx);
    forall s ensures Get(next.accounts.nonces, s) == CountBy(log + [tx], s) {
      Bookkeeping.TxMoves(p, ctx, st, tx, s);
    }
  }

  lemma OrderlyGrows(log: seq<Tx>, tx: Tx)
    requires Orderly(log) && MayFollow(log, tx)
    ensures Orderly(log + [tx])
  {
    hide MayFollow;
    var next := log + [tx];
    forall i | 0 <= i < |next| ensures MayFollow(next[..i], next[i]) {
      assert next[..i] == if i < |log| then log[..i] else log;
    }
  }

  // -- runs --------------------------------------------------------------------------------

  lemma {:induction false} TxsRecorded(p: Params, ctx: Context, st: State, log: seq<Tx>, txs: seq<Tx>, seen: set<Hash>)
    requires p.epoch != 0
    requires Recorded(log, st) && Orderly(log)
    requires ApplyTxs(p, ctx, st, txs, seen).Ok?
    ensures Recorded(log + txs, ApplyTxs(p, ctx, st, txs, seen).value) && Orderly(log + txs)
    decreases |txs|
  {
    hide ApplyTx;
    hide Recorded;
    hide Orderly;
    if txs == [] {
      assert log + txs == log;
    } else {
      TxMayFollow(p, ctx, st, log, txs[0]);
      TxRecorded(p, ctx, st, log, txs[0]);
      OrderlyGrows(log, txs[0]);
      TxsRecorded(p, ctx, ApplyTx(p, ctx, st, txs[0]).value, log + [txs[0]], txs[1..], seen + {TxId(txs[0])});
      assert log + [txs[0]] + txs[1..] == log + txs;
    }
  }

  /** In every reachable ledger the nonces, the slashed offenses and addresses, and the counted votes are
      exactly what the history of transactions says, and the history is orderly. */
  lemma {:induction false} HistoryRecorded(g: GenesisArgs, blocks: seq<Block>)
    requires Replay(g, blocks).Ok?
    ensures Recorded(TxLog(blocks), LedgerAt(g, blocks).state)
    ensures Orderly(TxLog(blocks))
  {
    hide ApplyBlock;
    hide ApplyTxs;
    hide HeaderAccepted;
    hide CountBy;
    hide Orderly;
    if blocks == [] {
      GenesisRecorded(g);
    } else {
      var front, b := blocks[..|blocks| - 1], blocks[|blocks| - 1];
      HistoryRecorded(g, front);
      BlockAccepted(g, blocks);
      var l := LedgerAt(g, front);
      BeginRecorded(g.params, TxLog(front), l.state, b);
      TxsRecorded(g.params, ContextOf(l, b), BeginBlock(g.params, l.state, b), TxLog(front), b.txs, {});
    }
  }

  lemma GenesisRecorded(g: GenesisArgs)
    requires Genesis(g).Ok?
    ensures Recorded([], Genesis(g).value.state) && Orderly([])
  {
  }

  lemma BeginRecorded(p: Params, log: seq<Tx>, st: State, b: Block)
    requires p.epoch != 0 && Recorded(log, st)
    ensures Recorded(log, BeginBlock(p, st, b))
  {
    hide CountBy;
    hide HasCast;
    hide Mature;
    MatureNonces(st.accounts, b.header.index);
  }

  lemma MatureNonces(acc: Accounts, height: int)
    ensures Mature(acc, height).nonces == acc.nonces
  {
  }

  // -- at most once ------------------------------------------------------------------------

  lemma {:induction false} CountGrows(log: seq<Tx>, i: nat, j: nat, s: Address)
    requires i <= j <= |log|
    ensures CountBy(log[..i], s) + (if i < j && log[i].sender == s then 1 else 0) <= CountBy(log[..j], s)
    decreases j
  {
    if i < j {
      assert log[..j][..j - 1] == log[..j - 1];
      CountGrows(log, i, j - 1, s);
    }
  }

  lemma {:induction false} OffenseStays(log: seq<Tx>, i: nat, j: nat)
    requires i < j <= |log|
    ensures OffenseOf(log[i]) <= Offenses(log[..j]) && OffenderOf(log[i]) <= Offenders(log[..j])
    decreases j
  {
    hide OffenseOf;
    hide OffenderOf;
    assert log[..j][..j - 1] == log[..j - 1];
    if i < j - 1 {
      OffenseStays(log, i, j - 1);
    }
  }

  /** No transaction is ever applied twice: one sender's nonces strictly rise along any chain. */
  lemma NonceUsedOnce(g: GenesisArgs, blocks: seq<Block>, i: nat, j: nat)
    requires Replay(g, blocks).Ok?
    requires i < j < |TxLog(blocks)| && TxLog(blocks)[i].sender == TxLog(blocks)[j].sender
    ensures TxLog(blocks)[i].nonce < TxLog(blocks)[j].nonce
  {
    hide Replay;
    hide Recorded;
    hide TxLog;
    HistoryRecorded(g, blocks);
    var log := TxLog(blocks);
    assert MayFollow(log[..i], log[i]) && MayFollow(log[..j], log[j]);
    CountGrows(log, i, j, log[i].sender);
  }

  /** One offense, one slash per history; and who was slashed never votes again. */
  lemma SlashedOnce(g: GenesisArgs, blocks: seq<Block>, i: nat, j: nat)
    requires Replay(g, blocks).Ok?
    requires i < j < |TxLog(blocks)| && TxLog(blocks)[i].recipient.SlashSentinel?
    ensures var a, b := TxLog(blocks)[i], TxLog(blocks)[j];
            && VerifyFault(a.evidence).Ok?
            && (b.recipient.SlashSentinel? ==>
                  VerifyFault(b.evidence).Ok? && VerifyFault(a.evidence).value.1 != VerifyFault(b.evidence).value.1)
            && (b.recipient.VoteSentinel? ==> b.sender != VerifyFault(a.evidence).value.0)
  {
    hide Replay;
    hide Recorded;
    hide TxLog;
    hide VerifyFault;
    HistoryRecorded(g, blocks);
    var log := TxLog(blocks);
    assert MayFollow(log[..i], log[i]) && MayFollow(log[..j], log[j]);
    OffenseStays(log, i, j);
  }

  /** Exchanging the two pieces of evidence proves the same offense, so it cannot be slashed again. */
  lemma EvidenceOrderIrrelevant(a: Tx, b: Tx, c: Block, d: Block)
    ensures VerifyVoteFault(a, b) == VerifyVoteFault(b, a)
    ensures VerifyEquivocation(c, d) == VerifyEquivocation(d, c)
  {
    hide TxValid;
  }

  /** No chain holds a double vote: one link per voter and target height. */
  lemma NoDoubleVoteOnChain(g: GenesisArgs, blocks: seq<Block>, i: nat, j: nat)
    requires Replay(g, blocks).Ok?
    requires i < j < |TxLog(blocks)|
    ensures !Doubles(TxLog(blocks)[i], TxLog(blocks)[j])
  {
    hide Replay;
    hide Recorded;
    hide TxLog;
    HistoryRecorded(g, blocks);
    var log := TxLog(blocks);
    assert MayFollow(log[..j], log[j]);
    assert log[..j][i] == log[i];
  }

  // -- snapshots ---------------------------------------------------------------------------

  lemma {:induction false} TxsKeepSnapshots(p: Params, ctx: Context, st: State, txs: seq<Tx>, seen: set<Hash>)
    requires p.epoch != 0
    requires ApplyTxs(p, ctx, st, txs, seen).Ok?
    ensures ApplyTxs(p, ctx, st, txs, seen).value.ffg.stakeAt == st.ffg.stakeAt
    ensures ApplyTxs(p, ctx, st, txs, seen).value.ffg.heightAt == st.ffg.heightAt
    decreases |txs|
  {
    hide ApplyTx;
    hide Quorum;
    if txs != [] {
      TxFinalityFrame(p, ctx, st, txs[0]);
      TxsKeepSnapshots(p, ctx, ApplyTx(p, ctx, st, txs[0]).value, txs[1..], seen + {TxId(txs[0])});
    }
  }

  /** The stake a block at height k finds: genesis its own, any other its parent's. */
  function StakeFound(g: GenesisArgs, blocks: seq<Block>, k: nat): map<Address, int>
    requires k <= |blocks| && (k > 0 ==> Replay(g, blocks[..k - 1]).Ok?)
  {
    if k == 0 then g.initialStakes else LedgerAt(g, blocks[..k - 1]).state.accounts.stakes
  }

  /** A block records a snapshot exactly at an epoch boundary, of the stake before its transactions. */
  lemma BlockSnapshots(p: Params, l: Ledger, b: Block)
    requires p.epoch != 0
    requires RunBlock(p, l, b).Ok?
    ensures var before, after := l.state.ffg, RunBlock(p, l, b).value.ffg;
            if b.header.index % p.epoch == 0
            then after.stakeAt == before.stakeAt[BlockHash(b) := l.state.accounts.stakes]
                 && after.heightAt == before.heightAt[BlockHash(b) := b.header.index]
            else after.stakeAt == before.stakeAt && after.heightAt == before.heightAt
  {
    hide ApplyTxs;
    hide Mature;
    TxsKeepSnapshots(p, ContextOf(l, b), BeginBlock(p, l.state, b), b.txs, {});
  }

  lemma GenesisSnapshot(g: GenesisArgs)
    requires Genesis(g).Ok?
    ensures var l := Genesis(g).value;
            var h := BlockHash(l.chain[0]);
            h in l.state.ffg.stakeAt && l.state.ffg.stakeAt[h] == g.initialStakes
            && h in l.state.ffg.heightAt && l.state.ffg.heightAt[h] == 0
  {
  }

  /** In every reachable ledger the snapshot of each checkpoint is the stake its block found. */
  lemma {:induction false} SnapshotsFaithful(g: GenesisArgs, blocks: seq<Block>, k: nat)
    requires CollisionFree()
    requires Replay(g, blocks).Ok? && k <= |blocks| && k % g.params.epoch == 0
    ensures k > 0 ==> Replay(g, blocks[..k - 1]).Ok?
    ensures var l := LedgerAt(g, blocks);
            var h := BlockHash(l.chain[k]);
            && h in l.state.ffg.stakeAt && l.state.ffg.stakeAt[h] == StakeFound(g, blocks, k)
            && h in l.state.ffg.heightAt && l.state.ffg.heightAt[h] == k
    decreases |blocks|
  {
    hide ApplyBlock;
    hide RunBlock;
    hide HeaderAccepted;
    hide CollisionFree;
    hide Genesis;
    hide Anchored;
    if blocks == [] {
      GenesisSnapshot(g);
    } else {
      var front, b := blocks[..|blocks| - 1], blocks[|blocks| - 1];
      LastBlock(g, blocks);
      BlockAccepted(g, blocks);
      var l := LedgerAt(g, front);
      BlockSnapshots(g.params, l, b);
      if k < |blocks| {
        SnapshotsFaithful(g, front, k);
        ReplayChain(g, front);
        ReplayAnchored(g, front);
        AccountableSafety.NewCheckpointIsNew(g.params, l, b);
        assert k > 0 ==> front[..k - 1] == blocks[..k - 1];
      } else {
        assert blocks[..k - 1] == front;
      }
    }
  }

  /** They are on record while the next block runs, too. */
  lemma PrefixSnapshots(g: GenesisArgs, blocks: seq<Block>, b: Block, n: nat, k: nat)
    requires CollisionFree() && Replay(g, blocks).Ok?
    requires b.header.index == |blocks| + 1 && n <= |b.txs| && k <= |blocks| && k % g.params.epoch == 0
    requires RunPrefix(g.params, LedgerAt(g, blocks), b, n).Ok?
    ensures k > 0 ==> Replay(g, blocks[..k - 1]).Ok?
    ensures var ffg := RunPrefix(g.params, LedgerAt(g, blocks), b, n).value.ffg;
            var h := BlockHash(LedgerAt(g, blocks).chain[k]);
            && h in ffg.stakeAt && ffg.stakeAt[h] == StakeFound(g, blocks, k)
            && h in ffg.heightAt && ffg.heightAt[h] == k
  {
    hide Replay;
    hide ApplyTxs;
    hide Mature;
    hide CollisionFree;
    hide Anchored;
    var l := LedgerAt(g, blocks);
    ReplayChain(g, blocks);
    ReplayAnchored(g, blocks);
    SnapshotsFaithful(g, blocks, k);
    AccountableSafety.NewCheckpointIsNew(g.params, l, b);
    TxsKeepSnapshots(g.params, ContextOf(l, b), BeginBlock(g.params, l.state, b), b.txs[..n], {});
  }
}
