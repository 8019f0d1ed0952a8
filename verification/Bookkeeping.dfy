/** Double-entry view of the ledger: what each accepted transaction moves, address by address and pool
    by pool, for every aliasing of the parties; and which withdrawals a block releases. */
module Bookkeeping {
  import opened Sums
  import opened Arithmetic
  import opened Records
  import opened Ledger
  import opened Conservation

  /** The change of one address's liquid balance, active stake and unbonding amount. */
  datatype Flow = Flow(liquid: int, staked: int, unbonding: int)

  function NetFlow(f: Flow): int {
    f.liquid + f.staked + f.unbonding
  }

  function When(c: bool, x: int): int {
    if c then x else 0
  }

  /** The sender pays the fee, the proposer earns it. */
  function FeeFlow(ctx: Context, tx: Tx, a: Address): int {
    When(a == ctx.proposer, tx.fee) - When(a == tx.sender, tx.fee)
  }

  /** What tx moves for a, once it is accepted. A slash pays a twentieth of the offender's bond, rounded
      down, to the reporter unless he is the offender, and the rest to the treasury. */
  function FlowOf(p: Params, ctx: Context, st: State, tx: Tx, a: Address): Flow {
    var fee := FeeFlow(ctx, tx, a);
    var mine := When(a == tx.sender, tx.amount);
    match tx.recipient
    case Account(r) => Flow(fee - mine + When(a == r, tx.amount), 0, 0)
    case StakeSentinel => Flow(fee - mine, mine, 0)
    case UnstakeSentinel => if p.unbondingBlocks > 0 then Flow(fee, -mine, mine) else Flow(fee + mine, -mine, 0)
    case VoteSentinel => Flow(fee, 0, 0)
    case SlashSentinel =>
      if VerifyFault(tx.evidence).Rejected? || p.treasury.None? then Flow(0, 0, 0) else
        var offender, treasury := VerifyFault(tx.evidence).value.0, p.treasury.value;
        var bond := Bonded(st.accounts, offender);
        Flow(fee + When(a == (if tx.sender == offender then treasury else tx.sender), bond / 20)
                 + When(a == treasury, bond - bond / 20),
             -When(a == offender, Get(st.accounts.stakes, a)),
             -When(a == offender, UnbondingOf(st.accounts, a)))
  }

  ghost predicate Moved(before: Accounts, after: Accounts, a: Address, f: Flow) {
    && Get(after.balances, a) == Get(before.balances, a) + f.liquid
    && Get(after.stakes, a) == Get(before.stakes, a) + f.staked
    && UnbondingOf(after, a) == UnbondingOf(before, a) + f.unbonding
  }

  lemma TwentiethShare(bond: int)
    ensures ReporterShare(bond) == bond / 20
  {
    var q := bond / 20;
    assert bond * 500 == q * 10000 + (bond % 20) * 500;
    DivExact(q, 10000);
    DivMonotone(q * 10000, bond * 500, 10000);
    var n := bond * 500 / 10000;
    assert bond * 500 == n * 10000 + bond * 500 % 10000;
  }

  lemma UnstakeMoves(p: Params, ctx: Context, st: State, tx: Tx, a: Address)
    requires tx.recipient.UnstakeSentinel? && ApplyUnstake(p, ctx, st.accounts, tx).Ok?
    ensures Moved(st.accounts, ApplyUnstake(p, ctx, st.accounts, tx).value, a, FlowOf(p, ctx, st, tx, a))
  {
    var u := st.accounts.unbonding;
    var e := Entry(tx.amount, ctx.height, ctx.height + p.unbondingBlocks);
    var q := Queue(u, tx.sender) + [e];
    assert q[..|q| - 1] == Queue(u, tx.sender);
    assert EntriesSum(q) == EntriesSum(Queue(u, tx.sender)) + e.amount;
    hide EntriesSum;
  }

  lemma SlashMoves(p: Params, ctx: Context, st: State, tx: Tx, a: Address)
    requires tx.recipient.SlashSentinel? && ApplySlash(p, ctx, st, tx).Ok?
    ensures Moved(st.accounts, ApplySlash(p, ctx, st, tx).value.accounts, a, FlowOf(p, ctx, st, tx, a))
  {
    hide ReporterShare;
    hide VerifyFault;
    TwentiethShare(Bonded(st.accounts, VerifyFault(tx.evidence).value.0));
  }

  /** Transfers, stakes and unstakes move their flow, whether or not the lock check then lets them pass. */
  lemma MoneyMoves(p: Params, ctx: Context, st: State, tx: Tx, a: Address)
    requires MoveMoney(p, ctx, st.accounts, tx).Ok?
    ensures Moved(st.accounts, MoveMoney(p, ctx, st.accounts, tx).value, a, FlowOf(p, ctx, st, tx, a))
    ensures Get(MoveMoney(p, ctx, st.accounts, tx).value.nonces, a)
         == if a == tx.sender then tx.nonce + 1 else Get(st.accounts.nonces, a)
  {
    hide EntriesSum;
    if tx.recipient.UnstakeSentinel? {
      UnstakeMoves(p, ctx, st, tx, a);
    }
  }

  /** Every accepted transaction of every kind moves exactly its flow, for every address, and advances
      exactly the sender's nonce. */
  lemma TxMoves(p: Params, ctx: Context, st: State, tx: Tx, a: Address)
    requires p.epoch != 0
    requires ApplyTx(p, ctx, st, tx).Ok?
    ensures Moved(st.accounts, ApplyTx(p, ctx, st, tx).value.accounts, a, FlowOf(p, ctx, st, tx, a))
    ensures Get(ApplyTx(p, ctx, st, tx).value.accounts.nonces, a)
         == if a == tx.sender then tx.nonce + 1 else Get(st.accounts.nonces, a)
  {
    hide CountVote;
    hide LinkAccepted;
    hide VestingKept;
    hide EntriesSum;
    hide VerifyFault;
    hide ReporterShare;
    hide MoveMoney;
    match tx.recipient
    case SlashSentinel => SlashMoves(p, ctx, st, tx, a);
    case VoteSentinel =>
    case _ => MoneyMoves(p, ctx, st, tx, a);
  }

  /** The lock of the sender would survive what the transaction moves. */
  predicate LockRespected(p: Params, ctx: Context, st: State, tx: Tx) {
    var locked := LockedOf(p, tx.sender, ctx.height);
    locked <= 0 || locked <= Holding(st.accounts, tx.sender) + NetFlow(FlowOf(p, ctx, st, tx, tx.sender))
  }

  lemma LockCheck(p: Params, ctx: Context, st: State, tx: Tx)
    requires MoveMoney(p, ctx, st.accounts, tx).Ok?
    ensures VestingKept(p, ctx.height, MoveMoney(p, ctx, st.accounts, tx).value, tx.sender)
       <==> LockRespected(p, ctx, st, tx)
  {
    hide MoveMoney;
    hide FlowOf;
    hide UnbondingOf;
    MoneyMoves(p, ctx, st, tx, tx.sender);
  }

  // -- maturation --------------------------------------------------------------------------

  lemma {:induction false} PendingCounts(q: seq<Entry>, height: int, e: Entry)
    ensures multiset(Pending(q, height))[e] == if height < e.releaseHeight then multiset(q)[e] else 0
  {
    if q != [] {
      var front, last := q[..|q| - 1], q[|q| - 1];
      PendingCounts(front, height, e);
      assert q == front + [last];
    }
  }

  /** A block releases exactly the withdrawals due at its height, to their owner's liquid balance. */
  lemma BlockReleasesDue(acc: Accounts, height: int, a: Address, e: Entry)
    ensures var m := Mature(acc, height);
            && multiset(Queue(m.unbonding, a))[e]
               == (if height < e.releaseHeight then multiset(Queue(acc.unbonding, a))[e] else 0)
            && Get(m.balances, a) == Get(acc.balances, a) + MaturedSum(Queue(acc.unbonding, a), height)
            && m.stakes == acc.stakes && m.nonces == acc.nonces
  {
    PendingCounts(Queue(acc.unbonding, a), height, e);
    MaturitySplits(Queue(acc.unbonding, a), height);
    hide MaturedSum;
    hide Pending;
  }
}
