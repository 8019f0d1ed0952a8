/** What staking promises over whole runs: the validator set never empties voluntarily, stake cannot
    escape a slash by unstaking, and locked grants stay held. */
module Staking {
  import opened Sums
  import opened Records
  import opened Vesting
  import opened Election
  import opened Ledger
  import opened Conservation
  import opened Runs
  import opened Bookkeeping

  /** An accepted slash transaction whose proven offender is a. */
  predicate Slashes(tx: Tx, a: Address) {
    tx.recipient.SlashSentinel? && VerifyFault(tx.evidence).Ok? && VerifyFault(tx.evidence).value.0 == a
  }

  // -- the validator set -------------------------------------------------------------------

  ghost predicate NoSlashTxs(txs: seq<Tx>) {
    forall i :: 0 <= i < |txs| ==> !txs[i].recipient.SlashSentinel?
  }

  ghost predicate NoSlash(blocks: seq<Block>) {
    forall i :: 0 <= i < |blocks| ==> NoSlashTxs(blocks[i].txs)
  }

  lemma TxKeepsValidators(p: Params, ctx: Context, st: State, tx: Tx)
    requires p.epoch != 0
    requires !tx.recipient.SlashSentinel?
    requires st.accounts.stakes != map[]
    requires ApplyTx(p, ctx, st, tx).Ok?
    ensures ApplyTx(p, ctx, st, tx).value.accounts.stakes != map[]
  {
    var stakes := st.accounts.stakes;
    var next := ApplyTx(p, ctx, st, tx).value.accounts.stakes;
    if tx.recipient.UnstakeSentinel? && tx.sender !in next {
      assert next.Keys == stakes.Keys - {tx.sender};
      assert |next| == |stakes| - 1;
    } else if tx.recipient.StakeSentinel? || tx.recipient.UnstakeSentinel? {
      assert tx.sender in next;
    }
  }

  lemma {:induction false} TxsKeepValidators(p: Params, ctx: Context, st: State, txs: seq<Tx>, seen: set<Hash>)
    requires p.epoch != 0
    requires NoSlashTxs(txs)
    requires st.accounts.stakes != map[]
    requires ApplyTxs(p, ctx, st, txs, seen).Ok?
    ensures ApplyTxs(p, ctx, st, txs, seen).value.accounts.stakes != map[]
    decreases |txs|
  {
    if txs != [] {
      TxKeepsValidators(p, ctx, st, txs[0]);
      TxsKeepValidators(p, ctx, ApplyTx(p, ctx, st, txs[0]).value, txs[1..], seen + {TxId(txs[0])});
    }
  }

  lemma {:induction false} ValidatorsRemain(g: GenesisArgs, blocks: seq<Block>)
    requires g.initialStakes != map[]
    requires NoSlash(blocks)
    requires Replay(g, blocks).Ok?
    ensures LedgerAt(g, blocks).state.accounts.stakes != map[]
  {
    if blocks != [] {
      var front, b := blocks[..|blocks| - 1], blocks[|blocks| - 1];
      ValidatorsRemain(g, front);
      var l := LedgerAt(g, front);
      TxsKeepValidators(g.params, ContextOf(l, b), BeginBlock(g.params, l.state, b), b.txs, {});
    }
  }

  /** From a non-empty genesis set, a run without slashes keeps every recorded stake positive and can
      always elect the next proposer, whatever the seed. */
  lemma ValidatorSetNeverDies(g: GenesisArgs, blocks: seq<Block>, seed: nat)
    requires g.initialStakes != map[]
    requires NoSlash(blocks)
    requires Replay(g, blocks).Ok?
    ensures PositiveStakes(LedgerAt(g, blocks).state.accounts.stakes)
    ensures Elect(LedgerAt(g, blocks).state.accounts.stakes, seed).Some?
  {
    ValidatorsRemain(g, blocks);
    ReplayBalanced(g, blocks);
    var stakes := LedgerAt(g, blocks).state.accounts.stakes;
    var a :| a in stakes;
    assert a in Active(stakes);
    ElectionExists(stakes, seed);
  }

  /** A slash, by contrast, empties the set exactly when nobody but the offender was in it. */
  lemma SlashEmptiesExactly(p: Params, ctx: Context, st: State, tx: Tx)
    requires p.epoch != 0
    requires tx.recipient.SlashSentinel? && ApplyTx(p, ctx, st, tx).Ok?
    ensures ApplyTx(p, ctx, st, tx).value.accounts.stakes == map[]
       <==> st.accounts.stakes.Keys <= {VerifyFault(tx.evidence).value.0}
  {
    var offender := VerifyFault(tx.evidence).value.0;
    var next := ApplyTx(p, ctx, st, tx).value.accounts.stakes;
    assert next.Keys == st.accounts.stakes.Keys - {offender};
    assert next == map[] <==> next.Keys == {};
  }

  // -- no escape from the unbonding window -----------------------------------------------------

  /** Stake plus the withdrawals that are not released by height cutoff. */
  ghost function Late(acc: Accounts, a: Address, cutoff: int): int {
    Get(acc.stakes, a) + EntriesSum(Pending(Queue(acc.unbonding, a), cutoff))
  }

  lemma {:induction false} PendingTwice(q: seq<Entry>, height: int, cutoff: int)
    requires height <= cutoff
    ensures Pending(Pending(q, height), cutoff) == Pending(q, cutoff)
  {
    if q != [] {
      var front, last := q[..|q| - 1], q[|q| - 1];
      PendingTwice(front, height, cutoff);
      var rest := Pending(front, height);
      assert (rest + [last])[..|rest|] == rest;
    }
  }

  lemma MatureKeepsLate(acc: Accounts, height: int, a: Address, cutoff: int)
    requires height <= cutoff
    ensures Late(Mature(acc, height), a, cutoff) == Late(acc, a, cutoff)
  {
    PendingTwice(Queue(acc.unbonding, a), height, cutoff);
  }

  lemma PendingAppend(q: seq<Entry>, e: Entry, cutoff: int)
    requires cutoff < e.releaseHeight
    ensures EntriesSum(Pending(q + [e], cutoff)) == EntriesSum(Pending(q, cutoff)) + e.amount
  {
    assert (q + [e])[..|q|] == q;
    var rest := Pending(q, cutoff);
    assert (rest + [e])[..|rest|] == rest;
  }

  /** Whatever anyone does in a block whose withdrawals release after the cutoff, except slash a. */
  lemma TxKeepsLate(p: Params, ctx: Context, st: State, tx: Tx, a: Address, cutoff: int)
    requires p.epoch != 0
    requires TxValid(tx) && !Slashes(tx, a)
    requires 0 < p.unbondingBlocks && cutoff < ctx.height + p.unbondingBlocks
    requires ApplyTx(p, ctx, st, tx).Ok?
    ensures Late(st.accounts, a, cutoff) <= Late(ApplyTx(p, ctx, st, tx).value.accounts, a, cutoff)
  {
    hide CountVote;
    hide LinkAccepted;
    hide VestingKept;
    hide EntriesSum;
    if tx.recipient.UnstakeSentinel? {
      PendingAppend(Queue(st.accounts.unbonding, tx.sender),
                    Entry(tx.amount, ctx.height, ctx.height + p.unbondingBlocks), cutoff);
    }
  }

  ghost predicate NotSlashedIn(txs: seq<Tx>, a: Address) {
    forall i :: 0 <= i < |txs| ==> !Slashes(txs[i], a)
  }

  lemma {:induction false} TxsKeepLate(p: Params, ctx: Context, st: State, txs: seq<Tx>, seen: set<Hash>,
                                       a: Address, cutoff: int)
    requires p.epoch != 0
    requires NotSlashedIn(txs, a)
    requires 0 < p.unbondingBlocks && cutoff < ctx.height + p.unbondingBlocks
    requires ApplyTxs(p, ctx, st, txs, seen).Ok?
    ensures Late(st.accounts, a, cutoff) <= Late(ApplyTxs(p, ctx, st, txs, seen).value.accounts, a, cutoff)
    decreases |txs|
  {
    if txs != [] {
      TxKeepsLate(p, ctx, st, txs[0], a, cutoff);
      TxsKeepLate(p, ctx, ApplyTx(p, ctx, st, txs[0]).value, txs[1..], seen + {TxId(txs[0])}, a, cutoff);
    }
  }

  lemma {:induction false} PendingSum(q: seq<Entry>, cutoff: int)
    requires PositiveEntries(q)
    ensures 0 <= EntriesSum(Pending(q, cutoff)) <= EntriesSum(q)
  {
    MaturitySplits(q, cutoff);
    PendingPositive(q, cutoff);
    EntriesSumNonNegative(Pending(q, cutoff));
  }

  lemma LateWithinBonded(acc: Accounts, a: Address, cutoff: int)
    requires Solvent(acc)
    ensures Get(acc.stakes, a) <= Late(acc, a, cutoff) <= Bonded(acc, a)
  {
    PendingSum(Queue(acc.unbonding, a), cutoff);
  }

  lemma {:induction false} BlocksKeepLate(g: GenesisArgs, blocks: seq<Block>, h: nat, a: Address)
    requires h <= |blocks| <= h + g.params.unbondingBlocks
    requires Replay(g, blocks).Ok?
    requires forall i :: h <= i < |blocks| ==> NotSlashedIn(blocks[i].txs, a)
    ensures Replay(g, blocks[..h]).Ok?
    ensures Get(LedgerAt(g, blocks[..h]).state.accounts.stakes, a)
         <= Late(LedgerAt(g, blocks).state.accounts, a, h + g.params.unbondingBlocks)
  {
    hide ApplyBlock;
    hide HeaderAccepted;
    hide ApplyTxs;
    hide Bonded;
    ReplayPrefix(g, blocks, h);
    ReplayBalanced(g, blocks);
    var cutoff := h + g.params.unbondingBlocks;
    if h == |blocks| {
      assert blocks[..h] == blocks;
      LateWithinBonded(LedgerAt(g, blocks).state.accounts, a, cutoff);
    } else {
      var front, b := blocks[..|blocks| - 1], blocks[|blocks| - 1];
      assert front[..h] == blocks[..h];
      BlocksKeepLate(g, front, h, a);
      BlockAccepted(g, blocks);
      var l := LedgerAt(g, front);
      MatureKeepsLate(l.state.accounts, b.header.index, a, cutoff);
      TxsKeepLate(g.params, ContextOf(l, b), BeginBlock(g.params, l.state, b), b.txs, {}, a, cutoff);
    }
  }

  lemma RunPrefixKeepsLate(p: Params, l: Ledger, b: Block, n: nat, a: Address, cutoff: int)
    requires p.epoch != 0 && n <= |b.txs|
    requires Solvent(l.state.accounts)
    requires b.header.index <= cutoff < b.header.index + p.unbondingBlocks
    requires NotSlashedIn(b.txs[..n], a)
    requires RunPrefix(p, l, b, n).Ok?
    ensures Late(l.state.accounts, a, cutoff) <= Bonded(RunPrefix(p, l, b, n).value.accounts, a)
  {
    hide ApplyTxs;
    hide Bonded;
    hide Late;
    var start := BeginBlock(p, l.state, b);
    MatureKeepsLate(l.state.accounts, b.header.index, a, cutoff);
    MatureSolvent(l.state.accounts, b.header.index);
    TxsKeepLate(p, ContextOf(l, b), start, b.txs[..n], {}, a, cutoff);
    TxsConserve(p, ContextOf(l, b), start, b.txs[..n], {});
    LateWithinBonded(RunPrefix(p, l, b, n).value.accounts, a, cutoff);
  }

  /** The stake a held at height h is still slashable while the transactions of any block up to height
      h + unbonding_blocks run, whatever a did meanwhile, unless a was slashed in between. */
  lemma NoEscapeFromUnbonding(g: GenesisArgs, blocks: seq<Block>, h: nat, b: Block, n: nat, a: Address)
    requires h <= |blocks| < h + g.params.unbondingBlocks
    requires Replay(g, blocks).Ok?
    requires forall i :: h <= i < |blocks| ==> NotSlashedIn(blocks[i].txs, a)
    requires HeaderAccepted(LedgerAt(g, blocks), b)
    requires n <= |b.txs| && NotSlashedIn(b.txs[..n], a)
    requires RunPrefix(g.params, LedgerAt(g, blocks), b, n).Ok?
    ensures Replay(g, blocks[..h]).Ok?
    ensures Get(LedgerAt(g, blocks[..h]).state.accounts.stakes, a)
         <= Bonded(RunPrefix(g.params, LedgerAt(g, blocks), b, n).value.accounts, a)
  {
    hide Replay;
    hide HeaderAccepted;
    hide RunPrefix;
    hide Bonded;
    hide Late;
    BlocksKeepLate(g, blocks, h, a);
    NextHeight(g, blocks, b);
    ReplayBalanced(g, blocks);
    RunPrefixKeepsLate(g.params, LedgerAt(g, blocks), b, n, a, h + g.params.unbondingBlocks);
  }

  /** A slash takes all of it: nothing stays bonded and exactly that much becomes liquid. */
  lemma SlashConfiscatesAll(p: Params, ctx: Context, st: State, tx: Tx, a: Address)
    requires p.epoch != 0
    requires Slashes(tx, a) && ApplyTx(p, ctx, st, tx).Ok?
    ensures var r := ApplyTx(p, ctx, st, tx).value;
            && Bonded(r.accounts, a) == 0
            && Total(r.accounts.balances) == Total(st.accounts.balances) + Bonded(st.accounts, a)
            && a in r.slashedAddrs
  {
    var r := ApplyTx(p, ctx, st, tx).value;
    SlashConserves(ctx, st.accounts, tx, a, p.treasury.value);
    TotalRemove(st.accounts.stakes, a);
    UnbondingTotalRemove(st.accounts.unbonding, a);
  }

  // -- withdrawals -----------------------------------------------------------------------------

  /** Every waiting withdrawal was bonded by now, is still ahead, and waits unbonding_blocks in all. */
  ghost predicate Timely(p: Params, acc: Accounts, height: int) {
    forall a, i :: a in acc.unbonding && 0 <= i < |acc.unbonding[a]| ==> TimelyEntry(p, acc.unbonding[a][i], height)
  }

  ghost predicate TimelyEntry(p: Params, e: Entry, height: int) {
    e.bondHeight <= height < e.releaseHeight && e.releaseHeight == e.bondHeight + p.unbondingBlocks
  }

  lemma {:induction false} PendingTimely(p: Params, q: seq<Entry>, height: int)
    requires forall i :: 0 <= i < |q| ==> TimelyEntry(p, q[i], height - 1)
    ensures forall i :: 0 <= i < |Pending(q, height)| ==> TimelyEntry(p, Pending(q, height)[i], height)
  {
    if q != [] {
      PendingTimely(p, q[..|q| - 1], height);
    }
  }

  lemma MatureTimely(p: Params, acc: Accounts, height: int)
    requires Timely(p, acc, height - 1)
    ensures Timely(p, Mature(acc, height), height)
  {
    hide TimelyEntry;
    forall a | a in acc.unbonding
      ensures forall i :: 0 <= i < |Pending(acc.unbonding[a], height)| ==>
                TimelyEntry(p, Pending(acc.unbonding[a], height)[i], height)
    {
      PendingTimely(p, acc.unbonding[a], height);
    }
    hide Pending;
  }

  lemma {:induction false} TxsTimely(p: Params, ctx: Context, st: State, txs: seq<Tx>, seen: set<Hash>)
    requires p.epoch != 0
    requires Timely(p, st.accounts, ctx.height)
    requires ApplyTxs(p, ctx, st, txs, seen).Ok?
    ensures Timely(p, ApplyTxs(p, ctx, st, txs, seen).value.accounts, ctx.height)
    decreases |txs|
  {
    hide ApplyTx;
    hide Timely;
    if txs != [] {
      TxTimely(p, ctx, st, txs[0]);
      TxsTimely(p, ctx, ApplyTx(p, ctx, st, txs[0]).value, txs[1..], seen + {TxId(txs[0])});
    }
  }

  lemma TxTimely(p: Params, ctx: Context, st: State, tx: Tx)
    requires p.epoch != 0
    requires Timely(p, st.accounts, ctx.height)
    requires ApplyTx(p, ctx, st, tx).Ok?
    ensures Timely(p, ApplyTx(p, ctx, st, tx).value.accounts, ctx.height)
  {
    hide CountVote;
    hide LinkAccepted;
    hide VestingKept;
    hide VerifyFault;
  }

  /** In every reachable ledger a withdrawal waits exactly unbonding_blocks: it is listed from the block
      that unstaked until just before the block that many higher, and with a zero delay never. */
  lemma {:induction false} WithdrawalsAreTimely(g: GenesisArgs, blocks: seq<Block>)
    requires Replay(g, blocks).Ok?
    ensures Timely(g.params, LedgerAt(g, blocks).state.accounts, |blocks|)
  {
    hide ApplyBlock;
    hide ApplyTxs;
    hide HeaderAccepted;
    if blocks != [] {
      var front, b := blocks[..|blocks| - 1], blocks[|blocks| - 1];
      WithdrawalsAreTimely(g, front);
      BlockAccepted(g, blocks);
      var l := LedgerAt(g, front);
      MatureTimely(g.params, l.state.accounts, b.header.index);
      TxsTimely(g.params, ContextOf(l, b), BeginBlock(g.params, l.state, b), b.txs, {});
    }
  }

  // -- vesting -----------------------------------------------------------------------------

  /** a is not slashed, and pays no fee on the two kinds that skip the vesting check. */
  predicate VestingSafe(tx: Tx, a: Address) {
    && !Slashes(tx, a)
    && (tx.sender == a && (tx.recipient.VoteSentinel? || tx.recipient.SlashSentinel?) ==> tx.fee == 0)
  }

  lemma SlashHolding(ctx: Context, acc: Accounts, tx: Tx, offender: Address, treasury: Address, a: Address)
    requires Solvent(acc) && 0 <= tx.fee
    requires a != offender
    requires a == tx.sender ==> tx.fee == 0
    ensures Holding(acc, a) <= Holding(ConfiscatedAccounts(ctx, acc, tx, offender, treasury), a)
  {
    hide ReporterShare;
    hide EntriesSum;
    EntriesSumNonNegative(Queue(acc.unbonding, offender));
    ShareBounds(Bonded(acc, offender));
  }

  lemma UnstakeHolding(p: Params, ctx: Context, acc: Accounts, tx: Tx, a: Address)
    requires TxValid(tx) && tx.sender != a
    requires ApplyUnstake(p, ctx, acc, tx).Ok?
    ensures Holding(acc, a) <= Holding(ApplyUnstake(p, ctx, acc, tx).value, a)
  {
    var r := ApplyUnstake(p, ctx, acc, tx).value;
    assert Queue(r.unbonding, a) == Queue(acc.unbonding, a);
  }

  /** Nobody else's transaction lowers a's holding; nor do a's own votes and slash reports at zero fee. */
  lemma TxKeepsHolding(p: Params, ctx: Context, st: State, tx: Tx, a: Address)
    requires p.epoch != 0
    requires Solvent(st.accounts) && TxValid(tx) && VestingSafe(tx, a)
    requires ApplyTx(p, ctx, st, tx).Ok?
    requires tx.sender != a || tx.recipient.VoteSentinel? || tx.recipient.SlashSentinel?
    ensures Holding(st.accounts, a) <= Holding(ApplyTx(p, ctx, st, tx).value.accounts, a)
  {
    hide CountVote;
    hide LinkAccepted;
    hide VestingKept;
    hide EntriesSum;
    match tx.recipient
    case SlashSentinel =>
      var (offender, offense) := VerifyFault(tx.evidence).value;
      SlashHolding(ctx, st.accounts, tx, offender, p.treasury.value, a);
    case UnstakeSentinel =>
      UnstakeHolding(p, ctx, st.accounts, tx, a);
    case _ =>
  }

  lemma TxKeepsLocked(p: Params, ctx: Context, st: State, tx: Tx, a: Address)
    requires p.epoch != 0
    requires Solvent(st.accounts) && TxValid(tx) && VestingSafe(tx, a)
    requires ApplyTx(p, ctx, st, tx).Ok?
    requires VestingKept(p, ctx.height, st.accounts, a)
    ensures VestingKept(p, ctx.height, ApplyTx(p, ctx, st, tx).value.accounts, a)
  {
    if tx.sender != a || tx.recipient.VoteSentinel? || tx.recipient.SlashSentinel? {
      TxKeepsHolding(p, ctx, st, tx, a);
    }
  }

  ghost predicate VestingSafeTxs(txs: seq<Tx>, a: Address) {
    forall i :: 0 <= i < |txs| ==> VestingSafe(txs[i], a)
  }

  lemma {:induction false} TxsKeepLocked(p: Params, ctx: Context, st: State, txs: seq<Tx>, seen: set<Hash>, a: Address)
    requires p.epoch != 0
    requires Solvent(st.accounts) && VestingSafeTxs(txs, a)
    requires ApplyTxs(p, ctx, st, txs, seen).Ok?
    requires VestingKept(p, ctx.height, st.accounts, a)
    ensures VestingKept(p, ctx.height, ApplyTxs(p, ctx, st, txs, seen).value.accounts, a)
    decreases |txs|
  {
    if txs != [] {
      TxKeepsLocked(p, ctx, st, txs[0], a);
      TxSolvent(p, ctx, st, txs[0]);
      TxsKeepLocked(p, ctx, ApplyTx(p, ctx, st, txs[0]).value, txs[1..], seen + {TxId(txs[0])}, a);
    }
  }

  lemma GenesisVesting(g: GenesisArgs, a: Address)
    requires Genesis(g).Ok?
    ensures VestingKept(g.params, 0, Genesis(g).value.state.accounts, a)
  {
    if a in g.params.vesting {
      VestedBounds(g.params.vesting[a], 0);
      assert Holding(GenesisAccounts(g), a) == Get(g.allocations, a);
    }
  }

  /** In every run where a grantee is not slashed and votes and reports at zero fee, its
      liquid + staked + unbonding holding covers what is still locked, at every height. */
  lemma {:induction false} VestingOverRuns(g: GenesisArgs, blocks: seq<Block>, a: Address)
    requires Replay(g, blocks).Ok?
    requires forall i :: 0 <= i < |blocks| ==> VestingSafeTxs(blocks[i].txs, a)
    ensures VestingKept(g.params, |blocks|, LedgerAt(g, blocks).state.accounts, a)
  {
    GenesisOk(g, blocks);
    if blocks == [] {
      GenesisVesting(g, a);
    } else {
      var front, b := blocks[..|blocks| - 1], blocks[|blocks| - 1];
      VestingOverRuns(g, front, a);
      BlockAccepted(g, blocks);
      ReplayBalanced(g, front);
      var l := LedgerAt(g, front);
      MatureKeepsHolding(l.state.accounts, b.header.index, a);
      MatureSolvent(l.state.accounts, b.header.index);
      if a in g.params.vesting {
        VestedMonotone(g.params.vesting[a], |front|, |blocks|);
      }
      TxsKeepLocked(g.params, ContextOf(l, b), BeginBlock(g.params, l.state, b), b.txs, {}, a);
    }
  }

  lemma GenesisOk(g: GenesisArgs, blocks: seq<Block>)
    requires Replay(g, blocks).Ok?
    ensures Genesis(g).Ok?
  {
    ReplayPrefix(g, blocks, 0);
    assert blocks[..0] == [];
  }

  /** For every kind of transaction and every address, the lock survives exactly when what is held before,
      plus what the transaction moves, covers it. The sender of a transfer, stake or unstake always passes;
      voters, reporters and slashed grantees need not. */
  lemma LockKeptExactly(p: Params, ctx: Context, st: State, tx: Tx, a: Address)
    requires p.epoch != 0
    requires ApplyTx(p, ctx, st, tx).Ok?
    ensures VestingKept(p, ctx.height, ApplyTx(p, ctx, st, tx).value.accounts, a)
       <==> || LockedOf(p, a, ctx.height) <= 0
            || LockedOf(p, a, ctx.height) <= Holding(st.accounts, a) + NetFlow(FlowOf(p, ctx, st, tx, a))
  {
    hide ApplyTx;
    hide FlowOf;
    hide UnbondingOf;
    TxMoves(p, ctx, st, tx, a);
  }

  /** The kinds that skip the check: in any state, an accepted vote by a grantee whose coins are still locked,
      in another's block, breaks its lock if and only if the fee is more than it holds beyond the lock. */
  lemma VoteFeeBreaksLock(p: Params, ctx: Context, st: State, tx: Tx)
    requires p.epoch != 0
    requires tx.recipient.VoteSentinel? && ctx.proposer != tx.sender
    requires 0 < LockedOf(p, tx.sender, ctx.height)
    requires ApplyTx(p, ctx, st, tx).Ok?
    ensures !VestingKept(p, ctx.height, ApplyTx(p, ctx, st, tx).value.accounts, tx.sender)
       <==> Holding(st.accounts, tx.sender) - LockedOf(p, tx.sender, ctx.height) < tx.fee
  {
    hide ApplyTx;
    hide Holding;
    hide LockedOf;
    LockKeptExactly(p, ctx, st, tx, tx.sender);
  }

  // -- what the lock is ----------------------------------------------------------------------------

  /** What is locked, unit by unit: for a grant with a schedule, v of its units are free at a height exactly from
      their release height on; without a schedule, or without a grant, nothing is locked. */
  lemma LockedExactly(p: Params, a: Address, height: int, v: int)
    requires a in p.vesting ==> ValidGrant(p.vesting[a])
    ensures a !in p.vesting || p.vesting[a].duration == 0 ==> LockedOf(p, a, height) <= 0
    ensures a in p.vesting && 0 < p.vesting[a].duration && 0 < v <= p.vesting[a].total ==>
              (LockedOf(p, a, height) <= p.vesting[a].total - v <==> ReleaseHeight(p.vesting[a], v) <= height)
  {
    hide ReleaseHeight;
    hide Vested;
    if a in p.vesting && 0 < p.vesting[a].duration && 0 < v <= p.vesting[a].total {
      ReleasedFrom(p.vesting[a], v, height);
    } else if a in p.vesting && p.vesting[a].duration == 0 {
      NoSchedule(p.vesting[a], height);
    }
  }

  lemma NoSchedule(g: Grant, height: int)
    requires g.duration <= 0
    ensures Vested(g, height) == g.total
  {
  }

  /** In every run, after each transfer, stake or unstake of a grantee, what it holds covers what the schedule has
      not released at the height of that very block: of any v units not yet released, at least v are held. */
  lemma SenderCoversGrant(g: GenesisArgs, blocks: seq<Block>, b: Block, n: nat, v: int)
    requires Replay(g, blocks).Ok? && b.header.index == |blocks| + 1 && n < |b.txs|
    requires RunPrefix(g.params, LedgerAt(g, blocks), b, n + 1).Ok?
    requires !b.txs[n].recipient.VoteSentinel? && !b.txs[n].recipient.SlashSentinel?
    requires b.txs[n].sender in g.params.vesting
    requires var grant := g.params.vesting[b.txs[n].sender];
             0 < grant.duration && 0 <= v < grant.total && |blocks| + 1 < ReleaseHeight(grant, v + 1)
    ensures var grant := g.params.vesting[b.txs[n].sender];
            grant.total - v
            <= Holding(RunPrefix(g.params, LedgerAt(g, blocks), b, n + 1).value.accounts, b.txs[n].sender)
  {
    hide Replay;
    hide RunPrefix;
    hide MoveMoney;
    hide Holding;
    hide LockedOf;
    hide ReleaseHeight;
    var l, a := LedgerAt(g, blocks), b.txs[n].sender;
    GenesisOk(g, blocks);
    GrantValid(g, a);
    BlockStep(g.params, l, b, n);
    LockedExactly(g.params, a, b.header.index, v + 1);
  }

  lemma GrantValid(g: GenesisArgs, a: Address)
    requires Genesis(g).Ok? && a in g.params.vesting
    ensures ValidGrant(g.params.vesting[a])
  {
    hide ValidAllocations;
    hide ValidInitialStakes;
  }
}
