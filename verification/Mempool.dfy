/** mempool.py: admission, and the fee market. Selection simulates each sender alone, then merges the
    senders' runs by fee; the chain accepts what it selects, except for rules it does not simulate. */
module Mempool {
  import opened Sums
  import opened Records
  import opened Merkle
  import opened Ledger
  import opened Conservation
  import opened Runs
  import opened Bookkeeping

  const MIN_FEE: int := 0
  const MAX_POOL_SIZE: nat := 50_000

  /** The minimum liquid balance a transaction needs, and what it does to it. */
  datatype Cost = Cost(required: int, delta: int)

  function CostOf(tx: Tx, unbondingBlocks: int): Cost {
    match tx.recipient
    case SlashSentinel => Cost(tx.fee, -tx.fee)
    case VoteSentinel => Cost(tx.fee, -tx.fee)
    case UnstakeSentinel => if unbondingBlocks > 0 then Cost(tx.fee, -tx.fee) else Cost(tx.fee, tx.amount - tx.fee)
    case _ => Cost(tx.amount + tx.fee, -(tx.amount + tx.fee))
  }

  // -- admission -------------------------------------------------------------------------------

  /** The first of the cheapest transactions. */
  function CheapestIn(pool: seq<Tx>): (i: nat)
    requires pool != []
    ensures i < |pool|
    ensures forall j :: 0 <= j < |pool| ==> pool[i].fee <= pool[j].fee
    ensures forall j :: 0 <= j < i ==> pool[i].fee < pool[j].fee
  {
    if |pool| == 1 then 0 else
      var i := CheapestIn(pool[..|pool| - 1]);
      if pool[|pool| - 1].fee < pool[i].fee then |pool| - 1 else i
  }

  function Without(pool: seq<Tx>, i: nat): seq<Tx>
    requires i < |pool|
  {
    pool[..i] + pool[i + 1..]
  }

  predicate Pooled(pool: seq<Tx>, id: Hash) {
    exists i :: 0 <= i < |pool| && TxId(pool[i]) == id
  }

  datatype Admission = Admitted(pool: seq<Tx>) | AlreadyPooled | NotAdmitted

  /** `Mempool.add`: valid, not spent, not known; a full pool evicts its cheapest for a better bid. */
  function Admit(pool: seq<Tx>, nonces: map<Address, int>, tx: Tx): Admission {
    if !TxValid(tx) || tx.fee < MIN_FEE || tx.nonce < Get(nonces, tx.sender) then NotAdmitted
    else if Pooled(pool, TxId(tx)) then AlreadyPooled
    else if |pool| < MAX_POOL_SIZE then Admitted(pool + [tx])
    else
      var i := CheapestIn(pool);
      if tx.fee <= pool[i].fee then NotAdmitted else Admitted(Without(pool, i) + [tx])
  }

  /** Only valid transactions, each once. */
  ghost predicate ValidPool(pool: seq<Tx>) {
    Distinct(TxIds(pool)) && forall i :: 0 <= i < |pool| ==> TxValid(pool[i])
  }

  lemma AppendKeepsPool(pool: seq<Tx>, tx: Tx)
    requires ValidPool(pool) && TxValid(tx) && !Pooled(pool, TxId(tx))
    ensures ValidPool(pool + [tx])
  {
    hide TxValid;
    var next := pool + [tx];
    forall i, j | 0 <= i < j < |next| ensures TxIds(next)[i] != TxIds(next)[j] {
      if j < |pool| {
        assert TxIds(pool)[i] != TxIds(pool)[j];
      }
    }
  }

  /** Eviction drops one transaction and no other. */
  lemma EvictKeepsPool(pool: seq<Tx>, i: nat, id: Hash)
    requires ValidPool(pool) && i < |pool| && !Pooled(pool, id)
    ensures ValidPool(Without(pool, i)) && !Pooled(Without(pool, i), id)
    ensures forall t :: t in pool && t != pool[i] ==> t in Without(pool, i)
  {
    hide TxValid;
    var next := Without(pool, i);
    forall j, k | 0 <= j < k < |next| ensures TxIds(next)[j] != TxIds(next)[k] {
      var x, y := if j < i then j else j + 1, if k < i then k else k + 1;
      assert next[j] == pool[x] && next[k] == pool[y];
      assert TxIds(pool)[x] != TxIds(pool)[y];
    }
    forall j | 0 <= j < |pool| && j != i ensures pool[j] in next {
      assert pool[j] == next[if j < i then j else j - 1];
    }
  }

  /** Admission keeps the pool valid and bounded, and evicts only what pays less. */
  lemma AdmitKeepsPool(pool: seq<Tx>, nonces: map<Address, int>, tx: Tx)
    requires ValidPool(pool) && |pool| <= MAX_POOL_SIZE
    requires Admit(pool, nonces, tx).Admitted?
    ensures var next := Admit(pool, nonces, tx).pool;
            && ValidPool(next) && |next| <= MAX_POOL_SIZE && next[|next| - 1] == tx
            && forall t :: t in pool && t !in next ==> t.fee < tx.fee
  {
    hide TxValid;
    hide Pooled;
    hide ValidPool;
    var next := Admit(pool, nonces, tx).pool;
    if |pool| < MAX_POOL_SIZE {
      AppendKeepsPool(pool, tx);
    } else {
      var i := CheapestIn(pool);
      EvictKeepsPool(pool, i, TxId(tx));
      AppendKeepsPool(Without(pool, i), tx);
      assert next == Without(pool, i) + [tx];
    }
  }

  /** Admission, exactly: a valid transaction that is neither spent nor known gets in when there is room, or
      when it pays more than somebody already in. It is then the newest; a full pool loses one of those that
      pay least for it, and nothing else changes. */
  lemma AdmittedExactly(pool: seq<Tx>, nonces: map<Address, int>, tx: Tx)
    ensures var r := Admit(pool, nonces, tx);
            var acceptable := TxValid(tx) && MIN_FEE <= tx.fee && Get(nonces, tx.sender) <= tx.nonce;
            var known := exists i :: 0 <= i < |pool| && TxId(pool[i]) == TxId(tx);
            && (r.AlreadyPooled? <==> acceptable && known)
            && (r.Admitted? <==> && acceptable && !known
                                 && (|pool| < MAX_POOL_SIZE || exists i :: 0 <= i < |pool| && pool[i].fee < tx.fee))
            && (r.Admitted? && |pool| < MAX_POOL_SIZE ==> r.pool == pool + [tx])
            && (r.Admitted? && |pool| >= MAX_POOL_SIZE ==>
                  exists i :: 0 <= i < |pool| && EvictedFor(pool, i, tx, r.pool))
  {
    hide TxValid;
    if pool != [] {
      var i := CheapestIn(pool);
      assert EvictedFor(pool, i, tx, Without(pool, i) + [tx]);
    }
  }

  /** next is the pool without transaction i, the first of those that pay least, and with tx at its end. */
  ghost predicate EvictedFor(pool: seq<Tx>, i: nat, tx: Tx, next: seq<Tx>)
    requires i < |pool|
  {
    && next == pool[..i] + pool[i + 1..] + [tx]
    && (forall j :: 0 <= j < |pool| ==> pool[i].fee <= pool[j].fee)
    && (forall j :: 0 <= j < i ==> pool[i].fee < pool[j].fee)
  }

  /** The pool never holds a spent transaction: admission adds none, and update drops those a block spent. */
  ghost predicate Unspent(pool: seq<Tx>, nonces: map<Address, int>) {
    forall i :: 0 <= i < |pool| ==> Get(nonces, pool[i].sender) <= pool[i].nonce
  }

  lemma AdmitKeepsUnspent(pool: seq<Tx>, nonces: map<Address, int>, tx: Tx)
    requires Unspent(pool, nonces) && Admit(pool, nonces, tx).Admitted?
    ensures Unspent(Admit(pool, nonces, tx).pool, nonces)
  {
    hide TxValid;
    hide Pooled;
  }

  // -- one sender's run ------------------------------------------------------------------------

  function BySender(txs: seq<Tx>, s: Address): seq<Tx> {
    if txs == [] then [] else
      var rest := BySender(txs[..|txs| - 1], s);
      if txs[|txs| - 1].sender == s then rest + [txs[|txs| - 1]] else rest
  }

  /** Insert after every transaction with the same or a lower nonce: a stable sort. */
  function InsertByNonce(sorted: seq<Tx>, tx: Tx): seq<Tx> {
    if sorted == [] || sorted[|sorted| - 1].nonce <= tx.nonce then sorted + [tx]
    else InsertByNonce(sorted[..|sorted| - 1], tx) + [sorted[|sorted| - 1]]
  }

  function SortByNonce(txs: seq<Tx>): seq<Tx> {
    if txs == [] then [] else InsertByNonce(SortByNonce(txs[..|txs| - 1]), txs[|txs| - 1])
  }

  /** The contiguous, affordable run from the next nonce. */
  function ReadyRun(txs: seq<Tx>, expected: int, balance: int, unbondingBlocks: int): seq<Tx> {
    if txs == [] || txs[0].nonce != expected || balance < CostOf(txs[0], unbondingBlocks).required then []
    else [txs[0]] + ReadyRun(txs[1..], expected + 1, balance + CostOf(txs[0], unbondingBlocks).delta, unbondingBlocks)
  }

  /** The run of one sender of the pool against a chain. */
  function SenderRun(pool: seq<Tx>, s: Address, l: Ledger, unbondingBlocks: int): seq<Tx> {
    ReadyRun(SortByNonce(BySender(pool, s)), Get(l.state.accounts.nonces, s), Get(l.state.accounts.balances, s),
             unbondingBlocks)
  }

  lemma {:induction false} BySenderElements(txs: seq<Tx>, s: Address)
    ensures forall t :: t in BySender(txs, s) <==> t in txs && t.sender == s
  {
    if txs != [] {
      var front, last := txs[..|txs| - 1], txs[|txs| - 1];
      BySenderElements(front, s);
      assert txs == front + [last];
    }
  }

  lemma {:induction false} InsertElements(sorted: seq<Tx>, tx: Tx)
    ensures multiset(InsertByNonce(sorted, tx)) == multiset(sorted) + multiset{tx}
  {
    if sorted != [] {
      assert sorted == sorted[..|sorted| - 1] + [sorted[|sorted| - 1]];
      if sorted[|sorted| - 1].nonce > tx.nonce {
        InsertElements(sorted[..|sorted| - 1], tx);
      }
    }
  }

  lemma {:induction false} SortElements(txs: seq<Tx>)
    ensures multiset(SortByNonce(txs)) == multiset(txs)
  {
    hide InsertByNonce;
    if txs != [] {
      SortElements(txs[..|txs| - 1]);
      InsertElements(SortByNonce(txs[..|txs| - 1]), txs[|txs| - 1]);
      assert txs == txs[..|txs| - 1] + [txs[|txs| - 1]];
    }
  }

  ghost predicate NonceOrdered(txs: seq<Tx>) {
    forall i, j :: 0 <= i < j < |txs| ==> txs[i].nonce <= txs[j].nonce
  }

  lemma {:induction false} InsertOrdered(sorted: seq<Tx>, tx: Tx)
    requires NonceOrdered(sorted)
    ensures NonceOrdered(InsertByNonce(sorted, tx))
  {
    if sorted != [] && sorted[|sorted| - 1].nonce > tx.nonce {
      var front, last := sorted[..|sorted| - 1], sorted[|sorted| - 1];
      InsertOrdered(front, tx);
      InsertElements(front, tx);
      var r := InsertByNonce(front, tx);
      forall i | 0 <= i < |r| ensures r[i].nonce <= last.nonce {
        assert r[i] in multiset(r);
        assert r[i] == tx || r[i] in front;
      }
    }
  }

  /** The sort sorts. */
  lemma {:induction false} SortOrdered(txs: seq<Tx>)
    ensures NonceOrdered(SortByNonce(txs))
  {
    if txs != [] {
      SortOrdered(txs[..|txs| - 1]);
      InsertOrdered(SortByNonce(txs[..|txs| - 1]), txs[|txs| - 1]);
    }
  }

  lemma {:induction false} RunElements(txs: seq<Tx>, expected: int, balance: int, u: int)
    ensures ReadyRun(txs, expected, balance, u) <= txs
    ensures forall i :: 0 <= i < |ReadyRun(txs, expected, balance, u)| ==>
              ReadyRun(txs, expected, balance, u)[i].nonce == expected + i
    decreases |txs|
  {
    if txs != [] && txs[0].nonce == expected && balance >= CostOf(txs[0], u).required {
      RunElements(txs[1..], expected + 1, balance + CostOf(txs[0], u).delta, u);
    }
  }

  lemma SenderRunElements(pool: seq<Tx>, s: Address, l: Ledger, u: int, t: Tx)
    requires t in SenderRun(pool, s, l, u)
    ensures t in pool && t.sender == s
  {
    hide CostOf;
    var mine := BySender(pool, s);
    var sorted := SortByNonce(mine);
    RunElements(sorted, Get(l.state.accounts.nonces, s), Get(l.state.accounts.balances, s), u);
    SortElements(mine);
    BySenderElements(pool, s);
    assert t in sorted;
    assert t in multiset(sorted);
    assert t in mine;
  }

  /** What the first k transactions do to their sender's balance. */
  function Deltas(txs: seq<Tx>, k: nat, u: int): int
    requires k <= |txs|
    decreases k
  {
    if k == 0 then 0 else CostOf(txs[0], u).delta + Deltas(txs[1..], k - 1, u)
  }

  /** The first k transactions follow each other from the given nonce, and each can be paid for after those
      before it. */
  ghost predicate Affordable(txs: seq<Tx>, k: nat, nonce: int, balance: int, u: int)
    requires k <= |txs|
  {
    forall j :: 0 <= j < k ==> Next(txs, j, nonce, balance, u)
  }

  /** Transaction j can come after the first j. */
  predicate Next(txs: seq<Tx>, j: nat, nonce: int, balance: int, u: int)
    requires j < |txs|
  {
    txs[j].nonce == nonce + j && CostOf(txs[j], u).required <= balance + Deltas(txs, j, u)
  }

  /** taken is the longest such beginning of txs: the transaction after it has another nonce or costs more than
      what those before it leave. */
  ghost predicate Longest(txs: seq<Tx>, taken: seq<Tx>, nonce: int, balance: int, u: int) {
    && taken <= txs && Affordable(txs, |taken|, nonce, balance, u)
    && (|taken| < |txs| ==> !Next(txs, |taken|, nonce, balance, u))
  }

  lemma NextShift(txs: seq<Tx>, j: nat, nonce: int, balance: int, u: int)
    requires 0 < j < |txs|
    ensures Next(txs, j, nonce, balance, u)
         == Next(txs[1..], j - 1, nonce + 1, balance + CostOf(txs[0], u).delta, u)
  {
    hide CostOf;
  }

  lemma {:induction false} RunIsLongest(txs: seq<Tx>, nonce: int, balance: int, u: int)
    ensures Longest(txs, ReadyRun(txs, nonce, balance, u), nonce, balance, u)
    decreases |txs|
  {
    hide CostOf;
    if txs != [] && txs[0].nonce == nonce && balance >= CostOf(txs[0], u).required {
      var rest, delta := txs[1..], CostOf(txs[0], u).delta;
      RunIsLongest(rest, nonce + 1, balance + delta, u);
      var run := ReadyRun(rest, nonce + 1, balance + delta, u);
      assert ReadyRun(txs, nonce, balance, u) == [txs[0]] + run;
      forall j | 0 <= j < |run| + 1 ensures Next(txs, j, nonce, balance, u) {
        if j > 0 {
          NextShift(txs, j, nonce, balance, u);
        }
      }
      if |run| < |rest| {
        NextShift(txs, |run| + 1, nonce, balance, u);
      }
    }
  }

  // -- what the chain accepts ------------------------------------------------------------------

  /** Transactions of one sender that pass nonce and funds checks one after the other on their own. */
  predicate Runnable(txs: seq<Tx>, nonce: int, balance: int, u: int)
    decreases |txs|
  {
    txs == [] || (
      && txs[0].nonce == nonce && CostOf(txs[0], u).required <= balance
      && Runnable(txs[1..], nonce + 1, balance + CostOf(txs[0], u).delta, u))
  }

  lemma {:induction false} RunnableRicher(txs: seq<Tx>, nonce: int, balance: int, more: int, u: int)
    requires balance <= more && Runnable(txs, nonce, balance, u)
    ensures Runnable(txs, nonce, more, u)
    decreases |txs|
  {
    hide CostOf;
    if txs != [] {
      var delta := CostOf(txs[0], u).delta;
      RunnableRicher(txs[1..], nonce + 1, balance + delta, more + delta, u);
    }
  }

  lemma {:induction false} RunnablePrefix(txs: seq<Tx>, k: nat, nonce: int, balance: int, u: int)
    requires k <= |txs| && Runnable(txs, nonce, balance, u)
    ensures Runnable(txs[..k], nonce, balance, u)
    decreases |txs|
  {
    hide CostOf;
    if k > 0 {
      RunnablePrefix(txs[1..], k - 1, nonce + 1, balance + CostOf(txs[0], u).delta, u);
      assert txs[..k][1..] == txs[1..][..k - 1];
    }
  }

  lemma {:induction false} ReadyRunRunnable(txs: seq<Tx>, expected: int, balance: int, u: int)
    ensures Runnable(ReadyRun(txs, expected, balance, u), expected, balance, u)
    decreases |txs|
  {
    hide CostOf;
    if txs != [] && txs[0].nonce == expected && balance >= CostOf(txs[0], u).required {
      ReadyRunRunnable(txs[1..], expected + 1, balance + CostOf(txs[0], u).delta, u);
      var r := ReadyRun(txs, expected, balance, u);
      assert r[1..] == ReadyRun(txs[1..], expected + 1, balance + CostOf(txs[0], u).delta, u);
    }
  }

  lemma {:induction false} BySenderHead(txs: seq<Tx>, s: Address)
    requires txs != []
    ensures BySender(txs, s) == (if txs[0].sender == s then [txs[0]] else []) + BySender(txs[1..], s)
    decreases |txs|
  {
    if |txs| > 1 {
      var front := txs[..|txs| - 1];
      BySenderHead(front, s);
      assert front[1..] == txs[1..][..|txs| - 2];
      assert txs[1..][|txs| - 2] == txs[|txs| - 1];
    }
  }

  /** Every sender's remaining transactions are runnable from the real nonces and balances. */
  ghost predicate AllRunnable(txs: seq<Tx>, acc: Accounts, u: int) {
    forall s :: Runnable(BySender(txs, s), Get(acc.nonces, s), Get(acc.balances, s), u)
  }

  /** What the chain demands of a transaction beyond validity, nonce and funds, kind by kind: a balance entry
      to debit, the lock, enough stake and another validator for an unstake, an unpunished provable offense
      for a slash, an acceptable link for a vote. */
  predicate Rule(p: Params, ctx: Context, st: State, tx: Tx)
    requires p.epoch != 0
  {
    match tx.recipient
    case SlashSentinel =>
      && p.treasury.Some? && tx.sender in st.accounts.balances
      && VerifyFault(tx.evidence).Ok? && VerifyFault(tx.evidence).value.1 !in st.slashed
    case VoteSentinel =>
      && tx.sender in st.accounts.balances
      && tx.evidence.VoteLink? && LinkAccepted(p, ctx, st, tx.sender, tx.evidence.link)
    case UnstakeSentinel =>
      && tx.sender in st.accounts.balances
      && tx.amount <= Get(st.accounts.stakes, tx.sender)
      && (tx.amount == Get(st.accounts.stakes, tx.sender) ==> 1 < |st.accounts.stakes|)
      && LockRespected(p, ctx, st, tx)
    case _ => LockRespected(p, ctx, st, tx)
  }

  /** A valid transaction of any kind is applied exactly when the simulation could afford it and its rule is
      met. */
  lemma AppliedExactly(p: Params, ctx: Context, st: State, tx: Tx)
    requires p.epoch != 0 && TxValid(tx)
    ensures ApplyTx(p, ctx, st, tx).Ok?
       <==> CostOf(tx, p.unbondingBlocks).required <= Get(st.accounts.balances, tx.sender) && Rule(p, ctx, st, tx)
  {
    hide CountVote;
    hide LinkAccepted;
    hide VestingKept;
    hide LockRespected;
    hide VerifyFault;
    hide ConfiscatedAccounts;
    hide EntriesSum;
    if MoveMoney(p, ctx, st.accounts, tx).Ok? {
      LockCheck(p, ctx, st, tx);
    }
  }

  /** The simulation mirrors the chain for every kind: an accepted transaction could be afforded, and it
      leaves its sender at least what was simulated; exactly that, when nothing in it pays the sender. */
  lemma CostMirrorsChain(p: Params, ctx: Context, st: State, tx: Tx)
    requires p.epoch != 0
    requires Solvent(st.accounts) && TxValid(tx)
    requires ApplyTx(p, ctx, st, tx).Ok?
    ensures var cost := CostOf(tx, p.unbondingBlocks);
            var before := Get(st.accounts.balances, tx.sender);
            var after := Get(ApplyTx(p, ctx, st, tx).value.accounts.balances, tx.sender);
            && cost.required <= before && before + cost.delta <= after
            && (ctx.proposer != tx.sender && tx.recipient != Account(tx.sender) && !tx.recipient.SlashSentinel? ==>
                  after == before + cost.delta)
  {
    TxMoves(p, ctx, st, tx, tx.sender);
    AppliedExactly(p, ctx, st, tx);
    if tx.recipient.SlashSentinel? {
      EntriesSumNonNegative(Queue(st.accounts.unbonding, VerifyFault(tx.evidence).value.0));
    }
    hide ApplyTx;
    hide VerifyFault;
    hide EntriesSum;
    hide LinkAccepted;
    hide LockRespected;
  }

  /** Nobody's liquid balance falls by another's transaction. */
  lemma OthersNotPoorer(p: Params, ctx: Context, st: State, tx: Tx, s: Address)
    requires p.epoch != 0
    requires Solvent(st.accounts) && TxValid(tx)
    requires ApplyTx(p, ctx, st, tx).Ok? && s != tx.sender
    ensures Get(st.accounts.balances, s) <= Get(ApplyTx(p, ctx, st, tx).value.accounts.balances, s)
    ensures Get(ApplyTx(p, ctx, st, tx).value.accounts.nonces, s) == Get(st.accounts.nonces, s)
  {
    TxMoves(p, ctx, st, tx, s);
    AppliedExactly(p, ctx, st, tx);
    if tx.recipient.SlashSentinel? {
      EntriesSumNonNegative(Queue(st.accounts.unbonding, VerifyFault(tx.evidence).value.0));
    }
    hide ApplyTx;
    hide VerifyFault;
    hide EntriesSum;
    hide LinkAccepted;
    hide LockRespected;
  }

  /** The next transaction's nonce and funds are right, and once it is applied so are everybody's remaining
      ones. */
  lemma RestRunnable(p: Params, ctx: Context, st: State, txs: seq<Tx>)
    requires p.epoch != 0 && txs != []
    requires Solvent(st.accounts) && TxValid(txs[0])
    requires AllRunnable(txs, st.accounts, p.unbondingBlocks)
    ensures txs[0].nonce == Get(st.accounts.nonces, txs[0].sender)
    ensures ApplyTx(p, ctx, st, txs[0]).Ok? <==> Rule(p, ctx, st, txs[0])
    ensures ApplyTx(p, ctx, st, txs[0]).Ok? ==>
              AllRunnable(txs[1..], ApplyTx(p, ctx, st, txs[0]).value.accounts, p.unbondingBlocks)
  {
    hide ApplyTx;
    hide Rule;
    hide TxValid;
    hide CostOf;
    hide Solvent;
    var tx, acc, u := txs[0], st.accounts, p.unbondingBlocks;
    BySenderHead(txs, tx.sender);
    assert Runnable(BySender(txs, tx.sender), Get(acc.nonces, tx.sender), Get(acc.balances, tx.sender), u);
    assert BySender(txs, tx.sender)[1..] == BySender(txs[1..], tx.sender);
    AppliedExactly(p, ctx, st, tx);
    if ApplyTx(p, ctx, st, tx).Ok? {
      var next := ApplyTx(p, ctx, st, tx).value.accounts;
      forall s ensures Runnable(BySender(txs[1..], s), Get(next.nonces, s), Get(next.balances, s), u) {
        if s == tx.sender {
          TxMoves(p, ctx, st, tx, s);
          CostMirrorsChain(p, ctx, st, tx);
          RunnableRicher(BySender(txs[1..], s), tx.nonce + 1, Get(acc.balances, s) + CostOf(tx, u).delta,
                         Get(next.balances, s), u);
        } else {
          BySenderHead(txs, s);
          assert BySender(txs, s) == BySender(txs[1..], s);
          assert Runnable(BySender(txs, s), Get(acc.nonces, s), Get(acc.balances, s), u);
          OthersNotPoorer(p, ctx, st, tx, s);
          RunnableRicher(BySender(txs[1..], s), Get(acc.nonces, s), Get(acc.balances, s), Get(next.balances, s), u);
        }
      }
    }
  }

  /** Each transaction meets its rule in the state its predecessors leave. */
  predicate RulesMet(p: Params, ctx: Context, st: State, txs: seq<Tx>)
    requires p.epoch != 0
    decreases |txs|
  {
    txs == [] || (
      && Rule(p, ctx, st, txs[0])
      && (ApplyTx(p, ctx, st, txs[0]).Ok? ==> RulesMet(p, ctx, ApplyTx(p, ctx, st, txs[0]).value, txs[1..])))
  }

  ghost predicate AllValid(txs: seq<Tx>) {
    forall i :: 0 <= i < |txs| ==> TxValid(txs[i])
  }

  /** Where each sender alone is runnable, the transaction loop over any merge of them stops only at a rule:
      never at a duplicate, a nonce or missing funds, whatever they pay each other. */
  lemma {:induction false} RunnableAccepted(p: Params, ctx: Context, st: State, txs: seq<Tx>, seen: set<Hash>)
    requires p.epoch != 0
    requires Solvent(st.accounts) && AllValid(txs)
    requires Distinct(TxIds(txs)) && forall i :: 0 <= i < |txs| ==> TxIds(txs)[i] !in seen
    requires AllRunnable(txs, st.accounts, p.unbondingBlocks)
    ensures ApplyTxs(p, ctx, st, txs, seen).Ok? <==> RulesMet(p, ctx, st, txs)
    decreases |txs|
  {
    hide ApplyTx;
    hide TxValid;
    hide AllRunnable;
    hide Rule;
    hide Solvent;
    if txs != [] {
      RestRunnable(p, ctx, st, txs);
      if ApplyTx(p, ctx, st, txs[0]).Ok? {
        TxSolvent(p, ctx, st, txs[0]);
        var rest := txs[1..];
        forall i | 0 <= i < |rest| ensures TxIds(rest)[i] == TxIds(txs)[i + 1] {
          assert rest[i] == txs[i + 1];
        }
        RunnableAccepted(p, ctx, ApplyTx(p, ctx, st, txs[0]).value, rest, seen + {TxId(txs[0])});
      }
      assert ApplyTxs(p, ctx, st, txs, seen) == ApplyFirst(p, ctx, st, txs, seen);
    }
  }

  // -- selection -------------------------------------------------------------------------------

  /** Where each sender stands after the transactions already selected. */
  function HeadOf(selected: seq<Tx>, s: Address): nat {
    |BySender(selected, s)|
  }

  /** tx is the next transaction of its sender's run, and no other sender's next one pays more. */
  ghost predicate GreedyPick(pool: seq<Tx>, l: Ledger, u: int, selected: seq<Tx>, tx: Tx) {
    && HeadOf(selected, tx.sender) < |SenderRun(pool, tx.sender, l, u)|
    && tx == SenderRun(pool, tx.sender, l, u)[HeadOf(selected, tx.sender)]
    && forall s :: HeadOf(selected, s) < |SenderRun(pool, s, l, u)| ==>
         SenderRun(pool, s, l, u)[HeadOf(selected, s)].fee <= tx.fee
  }

  /** Nothing is left to take. */
  ghost predicate Exhausted(pool: seq<Tx>, l: Ledger, u: int, selected: seq<Tx>) {
    forall s :: |SenderRun(pool, s, l, u)| <= HeadOf(selected, s)
  }

  /** A selection: every position was a greedy pick, and it stops only at the limit or when exhausted. */
  ghost predicate FeeOrdered(pool: seq<Tx>, l: Ledger, u: int, selected: seq<Tx>) {
    forall i :: 0 <= i < |selected| ==> GreedyPick(pool, l, u, selected[..i], selected[i])
  }

  /** Each sender's share of the selection is a prefix of its run. */
  lemma {:induction false} SelectionFollowsRuns(pool: seq<Tx>, l: Ledger, u: int, selected: seq<Tx>, s: Address)
    requires FeeOrdered(pool, l, u, selected)
    ensures BySender(selected, s) <= SenderRun(pool, s, l, u)
  {
    hide SenderRun;
    hide FeeOrdered;
    if selected != [] {
      FrontFeeOrdered(pool, l, u, selected);
      SelectionFollowsRuns(pool, l, u, selected[..|selected| - 1], s);
    }
  }

  /** What a sender gets of a selection: the first k of its transactions in nonce order, each next and affordable
      after those before it; and, when the selection is full only because nothing is left, all there are. */
  ghost predicate Share(pool: seq<Tx>, l: Ledger, u: int, selected: seq<Tx>, s: Address, exhausted: bool) {
    var mine, taken := SortByNonce(BySender(pool, s)), BySender(selected, s);
    var nonce, balance := Get(l.state.accounts.nonces, s), Get(l.state.accounts.balances, s);
    && taken <= mine && Affordable(mine, |taken|, nonce, balance, u)
    && (exhausted ==> Longest(mine, taken, nonce, balance, u))
  }

  /** Selection is maximal: no sender's next transaction is left out that could still be paid for in turn. */
  lemma SelectionShares(pool: seq<Tx>, l: Ledger, u: int, selected: seq<Tx>, s: Address)
    requires FeeOrdered(pool, l, u, selected)
    ensures Share(pool, l, u, selected, s, false)
    ensures Exhausted(pool, l, u, selected) ==> Share(pool, l, u, selected, s, true)
  {
    hide FeeOrdered;
    hide Next;
    hide SortByNonce;
    hide ReadyRun;
    SelectionFollowsRuns(pool, l, u, selected, s);
    RunIsLongest(SortByNonce(BySender(pool, s)), Get(l.state.accounts.nonces, s), Get(l.state.accounts.balances, s), u);
  }

  /** So for every sender. */
  ghost predicate Shares(pool: seq<Tx>, l: Ledger, u: int, selected: seq<Tx>, exhausted: bool) {
    forall s :: Share(pool, l, u, selected, s, exhausted)
  }

  lemma AllShares(pool: seq<Tx>, l: Ledger, u: int, selected: seq<Tx>)
    requires FeeOrdered(pool, l, u, selected)
    ensures Shares(pool, l, u, selected, false)
    ensures Exhausted(pool, l, u, selected) ==> Shares(pool, l, u, selected, true)
  {
    hide FeeOrdered;
    hide Share;
    hide Exhausted;
    forall s ensures Share(pool, l, u, selected, s, false) {
      SelectionShares(pool, l, u, selected, s);
    }
    forall s | Exhausted(pool, l, u, selected) ensures Share(pool, l, u, selected, s, true) {
      SelectionShares(pool, l, u, selected, s);
    }
  }

  lemma FrontFeeOrdered(pool: seq<Tx>, l: Ledger, u: int, selected: seq<Tx>)
    requires selected != [] && FeeOrdered(pool, l, u, selected)
    ensures FeeOrdered(pool, l, u, selected[..|selected| - 1])
    ensures GreedyPick(pool, l, u, selected[..|selected| - 1], selected[|selected| - 1])
  {
    hide GreedyPick;
    var front := selected[..|selected| - 1];
    forall i | 0 <= i < |front| ensures GreedyPick(pool, l, u, front[..i], front[i]) {
      assert front[..i] == selected[..i] && front[i] == selected[i];
    }
  }

  lemma SelectedFromPool(pool: seq<Tx>, l: Ledger, u: int, selected: seq<Tx>, i: nat)
    requires FeeOrdered(pool, l, u, selected) && i < |selected|
    ensures selected[i] in pool
  {
    hide SenderRun;
    assert GreedyPick(pool, l, u, selected[..i], selected[i]);
    SenderRunElements(pool, selected[i].sender, l, u, selected[i]);
  }

  lemma {:induction false} BySenderGrows(txs: seq<Tx>, j: nat, k: nat, s: Address)
    requires j <= k <= |txs|
    ensures HeadOf(txs[..j], s) <= HeadOf(txs[..k], s)
    ensures j < k && txs[j].sender == s ==> HeadOf(txs[..j], s) < HeadOf(txs[..k], s)
    decreases k
  {
    if j < k {
      assert txs[..k][..k - 1] == txs[..k - 1] && txs[..k][k - 1] == txs[k - 1];
      BySenderGrows(txs, j, k - 1, s);
    }
  }

  /** No transaction is selected twice: within a sender the nonces rise. */
  lemma SelectionDistinct(pool: seq<Tx>, l: Ledger, u: int, selected: seq<Tx>, i: nat, j: nat)
    requires ValidPool(pool) && FeeOrdered(pool, l, u, selected)
    requires i < j < |selected|
    ensures TxId(selected[i]) != TxId(selected[j])
  {
    hide CostOf;
    hide SortByNonce;
    hide TxValid;
    SelectedFromPool(pool, l, u, selected, i);
    SelectedFromPool(pool, l, u, selected, j);
    var a, b := selected[i], selected[j];
    if a.sender == b.sender {
      var s := a.sender;
      assert GreedyPick(pool, l, u, selected[..i], a) && GreedyPick(pool, l, u, selected[..j], b);
      BySenderGrows(selected, i, j, s);
      RunElements(SortByNonce(BySender(pool, s)), Get(l.state.accounts.nonces, s), Get(l.state.accounts.balances, s),
                  u);
      assert a.nonce < b.nonce;
    }
    assert a != b;
    var x :| 0 <= x < |pool| && pool[x] == a;
    var y :| 0 <= y < |pool| && pool[y] == b;
    assert TxIds(pool)[x] != TxIds(pool)[y];
  }

  lemma SelectionRunnable(pool: seq<Tx>, l: Ledger, u: int, selected: seq<Tx>, acc: Accounts)
    requires FeeOrdered(pool, l, u, selected)
    requires forall s :: Get(acc.nonces, s) == Get(l.state.accounts.nonces, s)
    requires forall s :: Get(l.state.accounts.balances, s) <= Get(acc.balances, s)
    ensures AllRunnable(selected, acc, u)
  {
    hide CostOf;
    hide SortByNonce;
    forall s ensures Runnable(BySender(selected, s), Get(acc.nonces, s), Get(acc.balances, s), u) {
      SelectionFollowsRuns(pool, l, u, selected, s);
      var nonce, balance := Get(l.state.accounts.nonces, s), Get(l.state.accounts.balances, s);
      ReadyRunRunnable(SortByNonce(BySender(pool, s)), nonce, balance, u);
      var k := |BySender(selected, s)|;
      RunnablePrefix(SenderRun(pool, s, l, u), k, nonce, balance, u);
      assert SenderRun(pool, s, l, u)[..k] == BySender(selected, s);
      RunnableRicher(BySender(selected, s), nonce, balance, Get(acc.balances, s), u);
    }
  }

  lemma MatureOnlyAdds(acc: Accounts, height: int, s: Address)
    requires Solvent(acc)
    ensures Get(acc.balances, s) <= Get(Mature(acc, height).balances, s)
    ensures Mature(acc, height).nonces == acc.nonces
  {
    hide Pending;
    hide MaturedSum;
    MaturedNonNegative(Queue(acc.unbonding, s), height);
  }

  lemma MaturedNonNegative(q: seq<Entry>, height: int)
    requires PositiveEntries(q)
    ensures 0 <= MaturedSum(q, height)
    ensures q == [] ==> MaturedSum(q, height) == 0
  {
    PendingPositive(q, height);
  }

  lemma SelectionValid(pool: seq<Tx>, l: Ledger, u: int, selected: seq<Tx>)
    requires ValidPool(pool) && FeeOrdered(pool, l, u, selected)
    ensures Distinct(TxIds(selected)) && AllValid(selected)
  {
    hide FeeOrdered;
    hide TxValid;
    forall i, j | 0 <= i < j < |selected| ensures TxIds(selected)[i] != TxIds(selected)[j] {
      SelectionDistinct(pool, l, u, selected, i, j);
    }
    forall i | 0 <= i < |selected| ensures TxValid(selected[i]) {
      SelectedFromPool(pool, l, u, selected, i);
    }
  }

  /** The selection as the next block runs from matured balances, so it stays runnable. */
  lemma SelectionStarts(p: Params, pool: seq<Tx>, l: Ledger, b: Block)
    requires p.epoch != 0 && Solvent(l.state.accounts)
    requires FeeOrdered(pool, l, p.unbondingBlocks, b.txs)
    ensures Solvent(BeginBlock(p, l.state, b).accounts)
    ensures AllRunnable(b.txs, BeginBlock(p, l.state, b).accounts, p.unbondingBlocks)
  {
    hide Mature;
    hide Solvent;
    hide FeeOrdered;
    var start := BeginBlock(p, l.state, b);
    MatureSolvent(l.state.accounts, b.header.index);
    forall s ensures Get(l.state.accounts.balances, s) <= Get(start.accounts.balances, s)
                     && Get(start.accounts.nonces, s) == Get(l.state.accounts.nonces, s) {
      MatureOnlyAdds(l.state.accounts, b.header.index, s);
    }
    SelectionRunnable(pool, l, p.unbondingBlocks, b.txs, start.accounts);
  }

  /** When selection is accepted, exactly: for every pool of every kind of transaction by any senders, the
      list that selection returns, as the next block of the same chain, never fails a validity, duplicate,
      nonce or funds check; it is accepted if and only if each transaction meets its kind's own rule. */
  lemma SelectionAcceptedExactly(g: GenesisArgs, blocks: seq<Block>, pool: seq<Tx>, b: Block)
    requires Replay(g, blocks).Ok?
    requires ValidPool(pool) && FeeOrdered(pool, LedgerAt(g, blocks), g.params.unbondingBlocks, b.txs)
    ensures var l := LedgerAt(g, blocks);
            var met := RulesMet(g.params, ContextOf(l, b), BeginBlock(g.params, l.state, b), b.txs);
            && (RunBlock(g.params, l, b).Ok? <==> met)
            && (ApplyBlock(g.params, l, b).Ok? <==> HeaderAccepted(l, b) && met)
  {
    hide Replay;
    hide ApplyTxs;
    hide RulesMet;
    hide BeginBlock;
    hide FeeOrdered;
    hide HeaderAccepted;
    hide Distinct;
    hide AllRunnable;
    hide ApplyBlock;
    hide ValidPool;
    hide Solvent;
    hide Supply;
    hide AllValid;
    hide TxIds;
    var l := LedgerAt(g, blocks);
    ReplayBalanced(g, blocks);
    SelectionValid(pool, l, g.params.unbondingBlocks, b.txs);
    SelectionStarts(g.params, pool, l, b);
    RunnableAccepted(g.params, ContextOf(l, b), BeginBlock(g.params, l.state, b), b.txs, {});
    AcceptedUnlessRunFails(g, blocks, b);
  }

  // -- the rules a pool can be known to meet ---------------------------------------------------

  /** A transfer or a stake by a sender without a grant has no rule to break. */
  predicate FreePayment(p: Params, tx: Tx) {
    (tx.recipient.Account? || tx.recipient.StakeSentinel?) && tx.sender !in p.vesting
  }

  ghost predicate FreePayments(p: Params, txs: seq<Tx>) {
    forall i :: 0 <= i < |txs| ==> FreePayment(p, txs[i])
  }

  lemma {:induction false} FreePaymentsMeetRules(p: Params, ctx: Context, st: State, txs: seq<Tx>)
    requires p.epoch != 0 && FreePayments(p, txs)
    ensures RulesMet(p, ctx, st, txs)
    decreases |txs|
  {
    hide ApplyTx;
    if txs != [] {
      assert Rule(p, ctx, st, txs[0]) by {
        assert FreePayment(p, txs[0]);
      }
      if ApplyTx(p, ctx, st, txs[0]).Ok? {
        FreePaymentsMeetRules(p, ctx, ApplyTx(p, ctx, st, txs[0]).value, txs[1..]);
      }
    }
  }

  /** So every selection from a pool of such payments is accepted. */
  lemma SelectionAccepted(g: GenesisArgs, blocks: seq<Block>, pool: seq<Tx>, b: Block)
    requires Replay(g, blocks).Ok?
    requires ValidPool(pool) && FreePayments(g.params, pool)
    requires FeeOrdered(pool, LedgerAt(g, blocks), g.params.unbondingBlocks, b.txs)
    ensures RunBlock(g.params, LedgerAt(g, blocks), b).Ok?
    ensures HeaderAccepted(LedgerAt(g, blocks), b) ==> ApplyBlock(g.params, LedgerAt(g, blocks), b).Ok?
  {
    hide Replay;
    hide FeeOrdered;
    hide HeaderAccepted;
    hide ApplyBlock;
    hide RunBlock;
    hide BeginBlock;
    hide FreePayment;
    hide ValidPool;
    hide RulesMet;
    var l := LedgerAt(g, blocks);
    SelectionAcceptedExactly(g, blocks, pool, b);
    forall i | 0 <= i < |b.txs| ensures FreePayment(g.params, b.txs[i]) {
      SelectedFromPool(pool, l, g.params.unbondingBlocks, b.txs, i);
    }
    FreePaymentsMeetRules(g.params, ContextOf(l, b), BeginBlock(g.params, l.state, b), b.txs);
  }

  /** A lone affordable transaction with the next nonce is selected. */
  lemma LoneRunSelected(l: Ledger, u: int, tx: Tx)
    requires tx.nonce == Get(l.state.accounts.nonces, tx.sender)
    requires CostOf(tx, u).required <= Get(l.state.accounts.balances, tx.sender)
    ensures FeeOrdered([tx], l, u, [tx])
  {
    hide CostOf;
    assert [tx][..0] == [] && [tx][1..] == [];
    assert BySender([tx], tx.sender) == [tx];
    assert SortByNonce([tx]) == [tx];
    var nonce, balance := Get(l.state.accounts.nonces, tx.sender), Get(l.state.accounts.balances, tx.sender);
    assert ReadyRun([], nonce + 1, balance + CostOf(tx, u).delta, u) == [];
    assert ReadyRun([tx], nonce, balance, u) == [tx];
    assert SenderRun([tx], tx.sender, l, u) == [tx];
    forall s ensures s == tx.sender || |SenderRun([tx], s, l, u)| == 0 {
      assert s == tx.sender || BySender([tx], s) == [];
    }
    assert GreedyPick([tx], l, u, [], tx);
  }

  /** Every broken rule is a failing selection: on any reachable ledger a lone valid transaction with the next
      nonce that its sender can afford is selected, and the chain takes it if and only if its rule is met. */
  lemma LoneSelection(g: GenesisArgs, blocks: seq<Block>, tx: Tx, b: Block)
    requires Replay(g, blocks).Ok? && TxValid(tx) && b.txs == [tx]
    requires var acc := LedgerAt(g, blocks).state.accounts;
             && tx.nonce == Get(acc.nonces, tx.sender)
             && CostOf(tx, g.params.unbondingBlocks).required <= Get(acc.balances, tx.sender)
    ensures var l, p := LedgerAt(g, blocks), g.params;
            && FeeOrdered([tx], l, p.unbondingBlocks, b.txs)
            && (RunBlock(p, l, b).Ok? <==> Rule(p, ContextOf(l, b), BeginBlock(p, l.state, b), tx))
  {
    hide Replay;
    hide FeeOrdered;
    hide HeaderAccepted;
    hide ApplyBlock;
    hide ApplyTx;
    hide RunBlock;
    hide BeginBlock;
    hide TxValid;
    hide Rule;
    hide CostOf;
    LoneRunSelected(LedgerAt(g, blocks), g.params.unbondingBlocks, tx);
    assert ValidPool([tx]);
    SelectionAcceptedExactly(g, blocks, [tx], b);
    assert b.txs[1..] == [];
  }

  lemma BeginKeeps(p: Params, st: State, b: Block, a: Address)
    requires p.epoch != 0
    ensures BeginBlock(p, st, b).accounts.stakes == st.accounts.stakes
    ensures Holding(BeginBlock(p, st, b).accounts, a) == Holding(st.accounts, a)
  {
    hide Mature;
    hide TakeSnapshot;
    hide Holding;
    MatureKeepsHolding(st.accounts, b.header.index, a);
    assert Mature(st.accounts, b.header.index).stakes == st.accounts.stakes by {
      BlockReleasesDue(st.accounts, b.header.index, a, Entry(0, 0, 0));
    }
  }

  /** The simulation never looks at stakes: an unstake of more than the sender has staked is selected and
      refused. */
  lemma OverdrawnUnstakeSelected(g: GenesisArgs, blocks: seq<Block>, tx: Tx, b: Block)
    requires Replay(g, blocks).Ok? && TxValid(tx) && b.txs == [tx]
    requires tx.recipient.UnstakeSentinel?
    requires var acc := LedgerAt(g, blocks).state.accounts;
             && tx.nonce == Get(acc.nonces, tx.sender) && tx.fee <= Get(acc.balances, tx.sender)
             && Get(acc.stakes, tx.sender) < tx.amount
    ensures FeeOrdered([tx], LedgerAt(g, blocks), g.params.unbondingBlocks, b.txs)
    ensures RunBlock(g.params, LedgerAt(g, blocks), b).Rejected?
  {
    hide Replay;
    hide FeeOrdered;
    hide RunBlock;
    hide BeginBlock;
    hide TxValid;
    LoneSelection(g, blocks, tx, b);
    BeginKeeps(g.params, LedgerAt(g, blocks).state, b, tx.sender);
  }

  /** Nor at locks: a grantee's affordable transfer to another address, in another's block, that would leave it
      below its lock is selected and refused. */
  lemma LockedTransferSelected(g: GenesisArgs, blocks: seq<Block>, tx: Tx, b: Block)
    requires Replay(g, blocks).Ok? && TxValid(tx) && b.txs == [tx]
    requires tx.recipient.Account? && tx.recipient.address != tx.sender && b.header.validator != tx.sender
    requires var acc := LedgerAt(g, blocks).state.accounts;
             var locked := LockedOf(g.params, tx.sender, b.header.index);
             && tx.nonce == Get(acc.nonces, tx.sender) && tx.amount + tx.fee <= Get(acc.balances, tx.sender)
             && 0 < locked && Holding(acc, tx.sender) - (tx.amount + tx.fee) < locked
    ensures FeeOrdered([tx], LedgerAt(g, blocks), g.params.unbondingBlocks, b.txs)
    ensures RunBlock(g.params, LedgerAt(g, blocks), b).Rejected?
  {
    hide Replay;
    hide FeeOrdered;
    hide RunBlock;
    hide BeginBlock;
    hide TxValid;
    hide Holding;
    hide LockedOf;
    LoneSelection(g, blocks, tx, b);
    BeginKeeps(g.params, LedgerAt(g, blocks).state, b, tx.sender);
  }

  // -- the object ------------------------------------------------------------------------------

  function QueueOf(m: map<Address, seq<Tx>>, s: Address): seq<Tx> {
    if s in m then m[s] else []
  }

  /** Group the pool by sender, in pool order. */
  method GroupBySender(pool: seq<Tx>) returns (groups: map<Address, seq<Tx>>)
    ensures forall s :: QueueOf(groups, s) == BySender(pool, s)
  {
    groups := map[];
    var i := 0;
    while i < |pool|
      invariant 0 <= i <= |pool|
      invariant forall s :: QueueOf(groups, s) == BySender(pool[..i], s)
    {
      var s := pool[i].sender;
      assert pool[..i + 1][..i] == pool[..i];
      groups := groups[s := QueueOf(groups, s) + [pool[i]]];
      i := i + 1;
    }
    assert pool[..|pool|] == pool;
  }

  /** The inner loop of selection: walk one sender's transactions while nonce and balance allow. */
  method BuildRun(txs: seq<Tx>, nonce: int, liquid: int, u: int) returns (run: seq<Tx>)
    ensures run == ReadyRun(txs, nonce, liquid, u)
    ensures Longest(txs, run, nonce, liquid, u)
  {
    RunIsLongest(txs, nonce, liquid, u);
    hide Longest;
    run := [];
    var expected, balance, i := nonce, liquid, 0;
    while i < |txs|
      invariant 0 <= i <= |txs|
      invariant run + ReadyRun(txs[i..], expected, balance, u) == ReadyRun(txs, nonce, liquid, u)
    {
      var t := txs[i];
      var cost := CostOf(t, u);
      assert txs[i..][0] == t && txs[i..][1..] == txs[i + 1..];
      if t.nonce != expected || balance < cost.required {
        return;
      }
      assert run + ([t] + ReadyRun(txs[i + 1..], expected + 1, balance + cost.delta, u))
          == (run + [t]) + ReadyRun(txs[i + 1..], expected + 1, balance + cost.delta, u);
      balance := balance + cost.delta;
      run := run + [t];
      expected := expected + 1;
      i := i + 1;
    }
  }

  /** Every sender's run; senders without one are left out. */
  method BuildReady(pool: seq<Tx>, l: Ledger, u: int) returns (ready: map<Address, seq<Tx>>)
    ensures forall s :: QueueOf(ready, s) == SenderRun(pool, s, l, u)
  {
    var groups := GroupBySender(pool);
    ready := map[];
    var todo := groups.Keys;
    while todo != {}
      invariant todo <= groups.Keys
      invariant forall s :: s in ready ==> s !in todo
      invariant forall s :: s in groups && s !in todo ==> QueueOf(ready, s) == SenderRun(pool, s, l, u)
      invariant forall s :: s !in groups ==> s !in ready
      decreases |todo|
    {
      var s :| s in todo;
      assert groups[s] == QueueOf(groups, s) == BySender(pool, s);
      var nonce, balance := Get(l.state.accounts.nonces, s), Get(l.state.accounts.balances, s);
      var run := BuildRun(SortByNonce(groups[s]), nonce, balance, u);
      if run != [] {
        ready := ready[s := run];
      }
      todo := todo - {s};
    }
    forall s ensures QueueOf(ready, s) == SenderRun(pool, s, l, u) {
      if s !in groups {
        assert BySender(pool, s) == QueueOf(groups, s);
      }
    }
  }

  /** The look-up by txid. */
  method Known(pool: seq<Tx>, id: Hash) returns (known: bool)
    ensures known == Pooled(pool, id)
  {
    var i := 0;
    while i < |pool|
      invariant 0 <= i <= |pool|
      invariant forall j :: 0 <= j < i ==> TxId(pool[j]) != id
    {
      if TxId(pool[i]) == id {
        return true;
      }
      i := i + 1;
    }
    known := false;
  }

  /** `min` over the pool by fee: the first of the cheapest. */
  method FindCheapest(pool: seq<Tx>) returns (cheapest: nat)
    requires pool != []
    ensures cheapest == CheapestIn(pool)
  {
    cheapest := 0;
    var i := 1;
    while i < |pool|
      invariant 0 <= cheapest < i <= |pool|
      invariant forall j :: 0 <= j < i ==> pool[cheapest].fee <= pool[j].fee
      invariant forall j :: 0 <= j < cheapest ==> pool[cheapest].fee < pool[j].fee
    {
      if pool[i].fee < pool[cheapest].fee {
        cheapest := i;
      }
      i := i + 1;
    }
  }

  lemma RunFees(pool: seq<Tx>, l: Ledger, u: int, s: Address, i: nat)
    requires ValidPool(pool) && i < |SenderRun(pool, s, l, u)|
    ensures SenderRun(pool, s, l, u)[i].sender == s && 0 <= SenderRun(pool, s, l, u)[i].fee
  {
    hide SenderRun;
    SenderRunElements(pool, s, l, u, SenderRun(pool, s, l, u)[i]);
  }

  /** The highest-paying head among the senders; None when every run is used up. */
  method BestHead(ready: map<Address, seq<Tx>>, heads: map<Address, nat>) returns (best: Option<Address>)
    requires heads.Keys == ready.Keys
    requires forall s :: s in ready ==> forall i :: 0 <= i < |ready[s]| ==> 0 <= ready[s][i].fee
    ensures best.None? ==> forall s :: s in ready ==> |ready[s]| <= heads[s]
    ensures best.Some? ==> best.value in ready && heads[best.value] < |ready[best.value]|
    ensures best.Some? ==> forall s :: s in ready && heads[s] < |ready[s]| ==>
                             ready[s][heads[s]].fee <= ready[best.value][heads[best.value]].fee
  {
    best := None;
    var bestFee := -1;
    var todo := heads.Keys;
    while todo != {}
      invariant todo <= heads.Keys
      invariant best.None? ==> bestFee == -1
      invariant best.Some? ==> best.value in ready && heads[best.value] < |ready[best.value]|
                               && bestFee == ready[best.value][heads[best.value]].fee
      invariant forall s :: s in ready && s !in todo && heads[s] < |ready[s]| ==> ready[s][heads[s]].fee <= bestFee
      decreases |todo|
    {
      var s :| s in todo;
      if heads[s] < |ready[s]| && ready[s][heads[s]].fee > bestFee {
        best, bestFee := Some(s), ready[s][heads[s]].fee;
      }
      todo := todo - {s};
    }
  }

  lemma PickExtends(pool: seq<Tx>, l: Ledger, u: int, selected: seq<Tx>, tx: Tx)
    requires FeeOrdered(pool, l, u, selected) && GreedyPick(pool, l, u, selected, tx)
    ensures FeeOrdered(pool, l, u, selected + [tx])
    ensures forall s :: HeadOf(selected + [tx], s) == HeadOf(selected, s) + (if s == tx.sender then 1 else 0)
  {
    hide GreedyPick;
    var next := selected + [tx];
    assert next[..|selected|] == selected;
    forall i | 0 <= i < |next| ensures GreedyPick(pool, l, u, next[..i], next[i]) {
      if i < |selected| {
        assert next[..i] == selected[..i];
      }
    }
  }

  class Mempool {
    /** Pending transactions in the dictionary's insertion order. */
    var pool: seq<Tx>

    ghost predicate Valid()
      reads this
    {
      ValidPool(pool) && |pool| <= MAX_POOL_SIZE
    }

    constructor ()
      ensures Valid() && pool == []
    {
      pool := [];
    }

    /** `add`: refuse, ignore what is known, or admit and, when full, evict the first of the cheapest. */
    method Add(tx: Tx, l: Ledger) returns (r: Admission)
      requires Valid()
      modifies this
      ensures Valid()
      ensures r == Admit(old(pool), l.state.accounts.nonces, tx)
      ensures pool == if r.Admitted? then r.pool else old(pool)
    {
      hide ValidPool;
      hide TxValid;
      if !TxValid(tx) || tx.fee < MIN_FEE || tx.nonce < Get(l.state.accounts.nonces, tx.sender) {
        return NotAdmitted;
      }
      var known := Known(pool, TxId(tx));
      if known {
        return AlreadyPooled;
      }
      ghost var start := pool;
      if |pool| >= MAX_POOL_SIZE {
        var cheapest := FindCheapest(pool);
        if tx.fee <= pool[cheapest].fee {
          return NotAdmitted;
        }
        pool := pool[..cheapest] + pool[cheapest + 1..];
      }
      pool := pool + [tx];
      AdmitKeepsPool(start, l.state.accounts.nonces, tx);
      r := Admitted(pool);
    }

    /** `select`: runs per sender, then repeatedly the highest-fee head. */
    method Select(l: Ledger, u: int, maxCount: int) returns (selected: seq<Tx>)
      requires Valid()
      ensures FeeOrdered(pool, l, u, selected)
      ensures |selected| <= maxCount || selected == []
      ensures maxCount <= |selected| || Exhausted(pool, l, u, selected)
      ensures Shares(pool, l, u, selected, |selected| < maxCount)
    {
      hide Shares;
      hide SenderRun;
      hide BySender;
      hide FeeOrdered;
      hide ValidPool;
      var ready: map<Address, seq<Tx>> := BuildReady(pool, l, u);
      var heads := map s | s in ready :: 0 as nat;
      selected := [];
      StartSelection(pool, l, u);
      forall s: Address, i: nat | s in ready && i < |ready[s]| ensures 0 <= ready[s][i].fee {
        assert ready[s] == QueueOf(ready, s);
        RunFees(pool, l, u, s, i);
      }
      while |selected| < maxCount
        invariant heads.Keys == ready.Keys
        invariant forall s :: s in heads ==> heads[s] == HeadOf(selected, s)
        invariant FeeOrdered(pool, l, u, selected)
        invariant |selected| <= maxCount || selected == []
        decreases maxCount - |selected|
      {
        var best := BestHead(ready, heads);
        if best.None? {
          break;
        }
        var s := best.value;
        var tx := ready[s][heads[s]];
        assert ready[s] == QueueOf(ready, s);
        RunFees(pool, l, u, s, heads[s]);
        HeadIsGreedy(pool, l, u, ready, heads, selected, s);
        PickExtends(pool, l, u, selected, tx);
        selected := selected + [tx];
        heads := heads[s := heads[s] + 1];
      }
      if |selected| < maxCount {
        forall s ensures |SenderRun(pool, s, l, u)| <= HeadOf(selected, s) {
          assert SenderRun(pool, s, l, u) == QueueOf(ready, s);
        }
      }
      AllShares(pool, l, u, selected);
    }

    /** `update`: drop what a block consumed; the rest stays, in order. */
    method Update(l: Ledger)
      requires Valid()
      modifies this
      ensures Valid()
      ensures pool == StillPending(old(pool), l.state.accounts.nonces)
    {
      var kept, i := [], 0;
      while i < |pool|
        invariant 0 <= i <= |pool|
        invariant kept == StillPending(pool[..i], l.state.accounts.nonces)
      {
        assert pool[..i + 1][..i] == pool[..i];
        if Get(l.state.accounts.nonces, pool[i].sender) <= pool[i].nonce && TxValid(pool[i]) {
          kept := kept + [pool[i]];
        }
        i := i + 1;
      }
      assert pool[..|pool|] == pool;
      StillPendingValid(pool, l.state.accounts.nonces);
      pool := kept;
    }
  }

  /** The pool without spent nonces. */
  function StillPending(pool: seq<Tx>, nonces: map<Address, int>): seq<Tx> {
    if pool == [] then [] else
      var rest, t := StillPending(pool[..|pool| - 1], nonces), pool[|pool| - 1];
      if Get(nonces, t.sender) <= t.nonce && TxValid(t) then rest + [t] else rest
  }

  lemma {:induction false} StillPendingValid(pool: seq<Tx>, nonces: map<Address, int>)
    requires ValidPool(pool)
    ensures ValidPool(StillPending(pool, nonces)) && |StillPending(pool, nonces)| <= |pool|
    ensures forall t :: t in StillPending(pool, nonces) <==> t in pool && Get(nonces, t.sender) <= t.nonce
  {
    hide TxValid;
    if pool != [] {
      var front, t := pool[..|pool| - 1], pool[|pool| - 1];
      assert pool == front + [t];
      assert forall i :: 0 <= i < |front| ==> TxIds(front)[i] == TxIds(pool)[i];
      StillPendingValid(front, nonces);
      forall u | u in front ensures TxId(u) != TxId(t) {
        var k :| 0 <= k < |front| && front[k] == u;
        assert TxIds(pool)[k] != TxIds(pool)[|pool| - 1];
      }
    }
  }

  /** Update looks at one transaction at a time and keeps their order. */
  lemma {:induction false} StillPendingSplits(pool: seq<Tx>, more: seq<Tx>, nonces: map<Address, int>)
    ensures StillPending(pool + more, nonces) == StillPending(pool, nonces) + StillPending(more, nonces)
    decreases |more|
  {
    hide TxValid;
    if more == [] {
      assert pool + more == pool;
    } else {
      var less := more[..|more| - 1];
      StillPendingSplits(pool, less, nonces);
      assert (pool + more)[..|pool + more| - 1] == pool + less;
    }
  }

  lemma StartSelection(pool: seq<Tx>, l: Ledger, u: int)
    ensures FeeOrdered(pool, l, u, []) && forall s :: HeadOf([], s) == 0
  {
    hide GreedyPick;
  }

  lemma HeadIsGreedy(pool: seq<Tx>, l: Ledger, u: int, ready: map<Address, seq<Tx>>, heads: map<Address, nat>,
                     selected: seq<Tx>, s: Address)
    requires forall a :: QueueOf(ready, a) == SenderRun(pool, a, l, u)
    requires heads.Keys == ready.Keys && forall a :: a in heads ==> heads[a] == HeadOf(selected, a)
    requires s in ready && heads[s] < |ready[s]| && ready[s][heads[s]].sender == s
    requires forall a :: a in ready && heads[a] < |ready[a]| ==> ready[a][heads[a]].fee <= ready[s][heads[s]].fee
    ensures GreedyPick(pool, l, u, selected, ready[s][heads[s]])
  {
    hide SenderRun;
    hide HeadOf;
    var tx := ready[s][heads[s]];
    assert QueueOf(ready, s) == SenderRun(pool, s, l, u);
    forall a | HeadOf(selected, a) < |SenderRun(pool, a, l, u)|
      ensures SenderRun(pool, a, l, u)[HeadOf(selected, a)].fee <= tx.fee
    {
      assert QueueOf(ready, a) == SenderRun(pool, a, l, u);
    }
  }
}
