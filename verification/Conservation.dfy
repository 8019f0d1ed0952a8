/** No step creates or destroys money: genesis, maturation and every transaction kind keep
    liquid + staked + unbonding, and no balance goes negative, in every run. */
module Conservation {
  import opened Sums
  import opened Arithmetic
  import opened Records
  import opened Merkle
  import opened Election
  import opened Ledger
  import opened Runs

  ghost predicate PositiveEntries(q: seq<Entry>) {
    forall i :: 0 <= i < |q| ==> 0 < q[i].amount
  }

  /** Recorded stakes are strictly positive: an address without stake is not in the map. */
  ghost predicate PositiveStakes(stakes: map<Address, int>) {
    forall a :: a in stakes ==> 0 < stakes[a]
  }

  ghost predicate PositiveUnbonding(u: map<Address, seq<Entry>>) {
    forall a :: a in u ==> PositiveEntries(u[a])
  }

  /** Nothing is negative anywhere. */
  ghost predicate Solvent(acc: Accounts) {
    NonNegative(acc.balances) && PositiveStakes(acc.stakes) && PositiveUnbonding(acc.unbonding)
  }

  // -- maturation --------------------------------------------------------------------------

  lemma {:induction false} MaturitySplits(q: seq<Entry>, height: int)
    ensures EntriesSum(q) == EntriesSum(Pending(q, height)) + MaturedSum(q, height)
    ensures |Pending(q, height)| == |q| ==> MaturedSum(q, height) == 0
  {
    if q != [] {
      var front := q[..|q| - 1];
      MaturitySplits(front, height);
      var rest := Pending(front, height);
      assert (rest + [q[|q| - 1]])[..|rest|] == rest;
    }
  }

  lemma {:induction false} PendingPositive(q: seq<Entry>, height: int)
    requires PositiveEntries(q)
    ensures PositiveEntries(Pending(q, height)) && 0 <= MaturedSum(q, height)
  {
    if q != [] {
      PendingPositive(q[..|q| - 1], height);
    }
  }

  lemma {:induction false} EntriesSumNonNegative(q: seq<Entry>)
    requires PositiveEntries(q)
    ensures 0 <= EntriesSum(q)
  {
    if q != [] {
      EntriesSumNonNegative(q[..|q| - 1]);
    }
  }

  /** Maturation moves money only between the unbonding and the liquid pool of one address. */
  lemma MatureKeepsEach(acc: Accounts, height: int, a: Address)
    ensures var m := Mature(acc, height);
            Get(m.balances, a) + UnbondingOf(m, a) == Get(acc.balances, a) + UnbondingOf(acc, a)
  {
    MaturitySplits(Queue(acc.unbonding, a), height);
  }

  lemma MatureKeepsHolding(acc: Accounts, height: int, a: Address)
    ensures Holding(Mature(acc, height), a) == Holding(acc, a)
  {
    MatureKeepsEach(acc, height, a);
  }

  /** Summed over any set that covers both pools. */
  lemma LiquidPlusUnbonding(acc: Accounts, keys: set<Address>, r: map<Address, int>)
    requires acc.balances.Keys <= keys && acc.unbonding.Keys <= keys
    requires forall a :: a in keys ==> Get(r, a) == Get(acc.balances, a) + UnbondingOf(acc, a)
    ensures Total(acc.balances) + Total(UnbondingTotals(acc.unbonding)) == Sum(keys, r)
  {
    var u := UnbondingTotals(acc.unbonding);
    SumWiden(keys, acc.balances);
    SumWiden(keys, u);
    SumPlus(keys, acc.balances, u, r);
  }

  lemma MatureConserves(acc: Accounts, height: int)
    ensures Supply(Mature(acc, height)) == Supply(acc)
  {
    hide Sum;
    var m := Mature(acc, height);
    var keys := acc.balances.Keys + acc.unbonding.Keys;
    var r := map a | a in keys :: Get(acc.balances, a) + UnbondingOf(acc, a);
    forall a | a in keys ensures Get(r, a) == Get(m.balances, a) + UnbondingOf(m, a) {
      MatureKeepsEach(acc, height, a);
    }
    LiquidPlusUnbonding(acc, keys, r);
    LiquidPlusUnbonding(m, keys, r);
  }

  lemma MatureSolvent(acc: Accounts, height: int)
    requires Solvent(acc)
    ensures Solvent(Mature(acc, height))
  {
    var m := Mature(acc, height);
    forall a | a in m.balances ensures 0 <= m.balances[a] {
      if a in acc.unbonding { PendingPositive(acc.unbonding[a], height); }
    }
    forall a | a in m.unbonding ensures PositiveEntries(m.unbonding[a]) {
      PendingPositive(acc.unbonding[a], height);
    }
  }

  // -- transactions ------------------------------------------------------------------------

  lemma UnbondingTotalUpdate(u: map<Address, seq<Entry>>, a: Address, e: Entry)
    ensures var q := Queue(u, a) + [e];
            Total(UnbondingTotals(u[a := q])) == Total(UnbondingTotals(u)) + e.amount
  {
    var q := Queue(u, a) + [e];
    assert q[..|q| - 1] == Queue(u, a);
    assert EntriesSum(q) == EntriesSum(Queue(u, a)) + e.amount;
    assert UnbondingTotals(u[a := q]) == UnbondingTotals(u)[a := EntriesSum(q)];
    TotalUpdate(UnbondingTotals(u), a, EntriesSum(q));
  }

  lemma UnbondingTotalRemove(u: map<Address, seq<Entry>>, a: Address)
    ensures Total(UnbondingTotals(u - {a})) == Total(UnbondingTotals(u)) - EntriesSum(Queue(u, a))
  {
    assert UnbondingTotals(u - {a}) == UnbondingTotals(u) - {a};
    TotalRemove(UnbondingTotals(u), a);
  }

  lemma TransferConserves(ctx: Context, acc: Accounts, tx: Tx, recipient: Address)
    requires ApplyTransfer(ctx, acc, tx, recipient).Ok?
    ensures Supply(ApplyTransfer(ctx, acc, tx, recipient).value) == Supply(acc)
  {
    hide Total;
    var cost := tx.amount + tx.fee;
    var debited := Credit(acc.balances, tx.sender, -cost);
    TotalCredit(acc.balances, tx.sender, -cost);
    TotalCredit(debited, recipient, tx.amount);
    TotalCredit(Credit(debited, recipient, tx.amount), ctx.proposer, tx.fee);
  }

  lemma StakeConserves(ctx: Context, acc: Accounts, tx: Tx)
    requires ApplyStake(ctx, acc, tx).Ok?
    ensures Supply(ApplyStake(ctx, acc, tx).value) == Supply(acc)
  {
    hide Total;
    var cost := tx.amount + tx.fee;
    TotalCredit(acc.balances, tx.sender, -cost);
    TotalCredit(Credit(acc.balances, tx.sender, -cost), ctx.proposer, tx.fee);
    TotalCredit(acc.stakes, tx.sender, tx.amount);
  }

  lemma UnstakeConserves(p: Params, ctx: Context, acc: Accounts, tx: Tx)
    requires ApplyUnstake(p, ctx, acc, tx).Ok?
    ensures Supply(ApplyUnstake(p, ctx, acc, tx).value) == Supply(acc)
  {
    hide Total;
    hide EntriesSum;
    hide Pending;
    var r := ApplyUnstake(p, ctx, acc, tx).value;
    var left := acc.stakes[tx.sender] - tx.amount;
    var debited := Credit(acc.balances, tx.sender, -tx.fee);
    TotalCredit(acc.balances, tx.sender, -tx.fee);
    TotalRemove(acc.stakes, tx.sender);
    TotalUpdate(acc.stakes, tx.sender, left);
    assert Total(r.stakes) == Total(acc.stakes) - tx.amount;
    if p.unbondingBlocks > 0 {
      UnbondingTotalUpdate(acc.unbonding, tx.sender, Entry(tx.amount, ctx.height, ctx.height + p.unbondingBlocks));
      TotalCredit(debited, ctx.proposer, tx.fee);
    } else {
      TotalCredit(debited, tx.sender, tx.amount);
      TotalCredit(Credit(debited, tx.sender, tx.amount), ctx.proposer, tx.fee);
    }
  }

  lemma PayFeeConserves(balances: map<Address, int>, sender: Address, fee: int, proposer: Address)
    ensures Total(PayFee(balances, sender, fee, proposer)) == Total(balances)
  {
    TotalCredit(balances, sender, -fee);
    TotalCredit(Credit(balances, sender, -fee), proposer, fee);
  }

  /** A slash redistributes: what leaves stake and unbonding arrives at reporter and treasury. */
  lemma SlashConserves(ctx: Context, acc: Accounts, tx: Tx, offender: Address, treasury: Address)
    ensures Supply(ConfiscatedAccounts(ctx, acc, tx, offender, treasury)) == Supply(acc)
  {
    hide Total;
    hide EntriesSum;
    hide ReporterShare;
    var bonded := Bonded(acc, offender);
    var share := ReporterShare(bonded);
    var beneficiary := if tx.sender != offender then tx.sender else treasury;
    var paid := PayFee(acc.balances, tx.sender, tx.fee, ctx.proposer);
    PayFeeConserves(acc.balances, tx.sender, tx.fee, ctx.proposer);
    TotalCredit(paid, beneficiary, share);
    TotalCredit(Credit(paid, beneficiary, share), treasury, bonded - share);
    TotalRemove(acc.stakes, offender);
    UnbondingTotalRemove(acc.unbonding, offender);
  }

  /** Every accepted transaction of every kind keeps the supply, whoever aliases whom. */
  lemma TxConserves(p: Params, ctx: Context, st: State, tx: Tx)
    requires p.epoch != 0
    requires ApplyTx(p, ctx, st, tx).Ok?
    ensures Supply(ApplyTx(p, ctx, st, tx).value.accounts) == Supply(st.accounts)
  {
    var acc := st.accounts;
    match tx.recipient
    case StakeSentinel => StakeConserves(ctx, acc, tx);
    case UnstakeSentinel => UnstakeConserves(p, ctx, acc, tx);
    case Account(a) => TransferConserves(ctx, acc, tx, a);
    case SlashSentinel =>
      var (offender, offense) := VerifyFault(tx.evidence).value;
      SlashConserves(ctx, acc, tx, offender, p.treasury.value);
    case VoteSentinel => PayFeeConserves(acc.balances, tx.sender, tx.fee, ctx.proposer);
  }

  lemma ShareBounds(bonded: int)
    requires 0 <= bonded
    ensures 0 <= ReporterShare(bonded) <= bonded
  {
    DivAtMost(bonded, REPORTER_BPS, 10000);
  }

  lemma SlashSolvent(ctx: Context, acc: Accounts, tx: Tx, offender: Address, treasury: Address)
    requires Solvent(acc)
    requires 0 <= tx.fee <= Get(acc.balances, tx.sender)
    ensures Solvent(ConfiscatedAccounts(ctx, acc, tx, offender, treasury))
  {
    EntriesSumNonNegative(Queue(acc.unbonding, offender));
    ShareBounds(Bonded(acc, offender));
  }

  lemma TxSolvent(p: Params, ctx: Context, st: State, tx: Tx)
    requires p.epoch != 0
    requires Solvent(st.accounts) && TxValid(tx)
    requires ApplyTx(p, ctx, st, tx).Ok?
    ensures Solvent(ApplyTx(p, ctx, st, tx).value.accounts)
  {
    hide CountVote;
    hide LinkAccepted;
    hide VestingKept;
    if tx.recipient.SlashSentinel? {
      var (offender, offense) := VerifyFault(tx.evidence).value;
      SlashSolvent(ctx, st.accounts, tx, offender, p.treasury.value);
    }
  }

  lemma {:induction false} TxsConserve(p: Params, ctx: Context, st: State, txs: seq<Tx>, seen: set<Hash>)
    requires p.epoch != 0
    requires Solvent(st.accounts)
    requires ApplyTxs(p, ctx, st, txs, seen).Ok?
    ensures var r := ApplyTxs(p, ctx, st, txs, seen).value;
            Supply(r.accounts) == Supply(st.accounts) && Solvent(r.accounts)
    decreases |txs|
  {
    if txs != [] {
      var next := ApplyTx(p, ctx, st, txs[0]).value;
      TxConserves(p, ctx, st, txs[0]);
      TxSolvent(p, ctx, st, txs[0]);
      TxsConserve(p, ctx, next, txs[1..], seen + {TxId(txs[0])});
    }
  }

  // -- runs --------------------------------------------------------------------------------

  lemma GenesisConserves(g: GenesisArgs)
    requires Genesis(g).Ok?
    ensures Supply(Genesis(g).value.state.accounts) == MAX_SUPPLY_UNITS
    ensures Solvent(Genesis(g).value.state.accounts)
  {
    var liquid := LiquidAtGenesis(g);
    var keys := g.allocations.Keys;
    assert g.initialStakes.Keys <= keys;
    SumPlus(keys, liquid, g.initialStakes, g.allocations);
    SumWiden(keys, g.initialStakes);
    assert liquid.Keys == keys;
    if g.params.treasury.Some? {
      TotalUpdate(liquid, g.params.treasury.value, 0);
    }
    var none: map<Address, seq<Entry>> := map[];
    assert UnbondingTotals(none) == map[];
    assert Total(GenesisAccounts(g).balances) == Total(liquid);
  }

  /** The supply and solvency of a ledger in any run; Replay never sees the supply check fail. */
  ghost predicate Balanced(l: Ledger) {
    Supply(l.state.accounts) == MAX_SUPPLY_UNITS && Solvent(l.state.accounts)
  }

  /** The supply check never rejects a block whose transactions passed. */
  lemma SupplyCheckNeverRejects(p: Params, l: Ledger, b: Block)
    requires p.epoch != 0
    requires Balanced(l)
    requires RunBlock(p, l, b).Ok?
    ensures Supply(RunBlock(p, l, b).value.accounts) == MAX_SUPPLY_UNITS
    ensures Solvent(RunBlock(p, l, b).value.accounts)
  {
    MatureConserves(l.state.accounts, b.header.index);
    MatureSolvent(l.state.accounts, b.header.index);
    TxsConserve(p, ContextOf(l, b), BeginBlock(p, l.state, b), b.txs, {});
  }

  lemma {:induction false} ReplayBalanced(g: GenesisArgs, blocks: seq<Block>)
    requires Replay(g, blocks).Ok?
    ensures Balanced(Replay(g, blocks).value)
  {
    if blocks == [] {
      GenesisConserves(g);
    } else {
      var front := blocks[..|blocks| - 1];
      ReplayBalanced(g, front);
      SupplyCheckNeverRejects(g.params, Replay(g, front).value, blocks[|blocks| - 1]);
    }
  }

  /** A block is refused only for its header or its transactions. */
  lemma AcceptedUnlessRunFails(g: GenesisArgs, blocks: seq<Block>, b: Block)
    requires Replay(g, blocks).Ok?
    ensures var l := Replay(g, blocks).value;
            ApplyBlock(g.params, l, b).Ok? <==> HeaderAccepted(l, b) && RunBlock(g.params, l, b).Ok?
  {
    ReplayBalanced(g, blocks);
    var l := Replay(g, blocks).value;
    if RunBlock(g.params, l, b).Ok? {
      SupplyCheckNeverRejects(g.params, l, b);
    }
  }

  /** Acceptance after any run, spelled out: a block is accepted exactly when it links to the last one, sits one
      above it, commits to its transactions, was sealed by the validator elected for it, and its run passes. */
  lemma AcceptedExactly(g: GenesisArgs, blocks: seq<Block>, b: Block)
    requires Replay(g, blocks).Ok?
    ensures var l := Replay(g, blocks).value;
            var stakes := l.state.accounts.stakes;
            ApplyBlock(g.params, l, b).Ok?
            <==> && b.header.previousHash == BlockHash(Head(l)) && b.header.index == |blocks| + 1
                 && b.header.merkleRoot == MerkleRoot(TxIds(b.txs))
                 && Elect(stakes, Seed(b.header.previousHash, |blocks| + 1)) == Some(b.header.validator)
                 && b.seal.Seal? && sealSigned(b.header, b.seal)
                 && RunPrefix(g.params, l, b, |b.txs|).Ok?
  {
    hide ApplyBlock;
    hide Replay;
    hide RunBlock;
    hide Elect;
    hide MerkleRoot;
    hide RunPrefix;
    AcceptedUnlessRunFails(g, blocks, b);
    ReplayChain(g, blocks);
    PrefixEnds(g.params, Replay(g, blocks).value, b);
  }
}
