/** Who can be slashed: exactly the sealers of two blocks on one parent and the signers of two conflicting
    votes. Whoever does neither, and signs nothing, loses nothing. */
module Verdicts {
  import opened Sums
  import opened Records
  import opened Ledger
  import opened Conservation
  import opened Runs
  import opened Bookkeeping
  import opened History
  import opened VoteCount

  // -- evidence ------------------------------------------------------------------------------------

  /** v sealed two different blocks on one parent at one height. */
  predicate SealedTwice(v: Address, a: Block, b: Block) {
    && a.header.validator == v && b.header.validator == v
    && a.header.index == b.header.index && a.header.previousHash == b.header.previousHash
    && headerDigest(a.header) != headerDigest(b.header)
    && a.seal.Seal? && sealSigned(a.header, a.seal) && b.seal.Seal? && sealSigned(b.header, b.seal)
  }

  /** v signed tx as a vote for k. */
  predicate SignedVote(v: Address, tx: Tx, k: Link) {
    Signed(tx) && tx.sender == v && tx.recipient == VoteSentinel && tx.evidence == VoteLink(k)
  }

  /** x spans y: it starts below and ends above. */
  predicate Spans(x: Link, y: Link) {
    x.sh < y.sh && y.th < x.th
  }

  /** v signed two votes for one height with different ends, or one vote whose link spans another's. */
  predicate SignedConflict(v: Address, a: Tx, b: Tx) {
    && a.evidence.VoteLink? && b.evidence.VoteLink?
    && SignedVote(v, a, a.evidence.link) && SignedVote(v, b, b.evidence.link)
    && var x, y := a.evidence.link, b.evidence.link;
       || (x.th == y.th && (x.s, x.t) != (y.s, y.t))
       || Spans(x, y) || Spans(y, x)
  }

  /** What the evidence of a slash proves, and under which name the offense is recorded. */
  predicate Proves(e: Evidence, v: Address, offense: Offense) {
    match e
    case BlockFault(a, b) => SealedTwice(v, a, b) && offense == BlockOffense(v, a.header.index)
    case VoteFault(a, b) =>
      SignedConflict(v, a, b)
      && offense == VoteOffense(if txDigest(a) <= txDigest(b) then offenseDigest(txDigest(a), txDigest(b))
                                else offenseDigest(txDigest(b), txDigest(a)))
    case _ => false
  }

  /** The verifiers return v and the offense exactly for such evidence. */
  lemma VerdictExactly(e: Evidence, v: Address, offense: Offense)
    ensures VerifyFault(e) == Ok((v, offense)) <==> Proves(e, v, offense)
  {
  }

  /** A slash is accepted exactly when its evidence proves an offense not yet slashed, the chain has a treasury,
      and its sender can pay; then exactly the proven offender is barred and loses everything bonded, and
      exactly this offense is recorded. */
  lemma SlashAcceptedExactly(p: Params, ctx: Context, st: State, tx: Tx)
    requires p.epoch != 0 && tx.recipient.SlashSentinel?
    ensures ApplyTx(p, ctx, st, tx).Ok?
       <==> && (exists v, x :: Proves(tx.evidence, v, x) && x !in st.slashed)
            && p.treasury.Some?
            && tx.sender in st.accounts.balances && tx.fee <= Get(st.accounts.balances, tx.sender)
    ensures forall v, x :: Proves(tx.evidence, v, x) && ApplyTx(p, ctx, st, tx).Ok? ==>
              Punished(st, ApplyTx(p, ctx, st, tx).value, v, x)
  {
    hide ConfiscatedAccounts;
    hide VerifyFault;
    hide Proves;
    var fault := VerifyFault(tx.evidence);
    if fault.Ok? {
      VerdictExactly(tx.evidence, fault.value.0, fault.value.1);
    }
    forall v: Address, x | Proves(tx.evidence, v, x)
      ensures fault == Ok((v, x))
      ensures ApplyTx(p, ctx, st, tx).Ok? ==> Punished(st, ApplyTx(p, ctx, st, tx).value, v, x)
    {
      VerdictExactly(tx.evidence, v, x);
      Confiscates(ctx, st.accounts, tx, v, p.treasury);
    }
  }

  ghost predicate Punished(before: State, after: State, v: Address, x: Offense) {
    && after.slashed == before.slashed + {x} && after.slashedAddrs == before.slashedAddrs + {v}
    && Bonded(after.accounts, v) == 0
    && forall w :: w != v ==> Bonded(after.accounts, w) == Bonded(before.accounts, w)
  }

  lemma Confiscates(ctx: Context, acc: Accounts, tx: Tx, v: Address, treasury: Option<Address>)
    ensures treasury.Some? ==>
              var after := ConfiscatedAccounts(ctx, acc, tx, v, treasury.value);
              Bonded(after, v) == 0 && forall w :: w != v ==> Bonded(after, w) == Bonded(acc, w)
  {
  }

  // -- runs ----------------------------------------------------------------------------------------

  /** The chain includes a slash whose evidence proves an offense of v. */
  ghost predicate ProvenIn(log: seq<Tx>, v: Address) {
    exists i, x :: 0 <= i < |log| && log[i].recipient.SlashSentinel? && Proves(log[i].evidence, v, x)
  }

  lemma {:induction false} OffenderProven(log: seq<Tx>, v: Address)
    ensures v in Offenders(log) <==> ProvenIn(log, v)
  {
    hide VerifyFault;
    hide Proves;
    if log != [] {
      var front, last := log[..|log| - 1], log[|log| - 1];
      OffenderProven(front, v);
      var fault := VerifyFault(last.evidence);
      if fault.Ok? { VerdictExactly(last.evidence, fault.value.0, fault.value.1); }
      if ProvenIn(front, v) {
        var i, x :| 0 <= i < |front| && front[i].recipient.SlashSentinel? && Proves(front[i].evidence, v, x);
        assert log[i] == front[i];
      }
      if ProvenIn(log, v) {
        var i, x :| 0 <= i < |log| && log[i].recipient.SlashSentinel? && Proves(log[i].evidence, v, x);
        VerdictExactly(log[i].evidence, v, x);
        assert i < |front| ==> log[i] == front[i];
      }
    }
  }

  /** v did neither of the two things that can be slashed. */
  ghost predicate Innocent(v: Address) {
    && (forall a, b :: !SealedTwice(v, a, b))
    && (forall a, b :: !SignedConflict(v, a, b))
  }

  lemma InnocentUnproven(e: Evidence, v: Address, x: Offense)
    requires Innocent(v)
    ensures !Proves(e, v, x)
  {
    hide SealedTwice;
    hide SignedConflict;
  }

  /** The slashed addresses of every reachable ledger are exactly those the chain's own evidence proves guilty,
      so nobody innocent is ever among them. */
  lemma SlashedExactly(g: GenesisArgs, blocks: seq<Block>, v: Address)
    requires Replay(g, blocks).Ok?
    ensures v in LedgerAt(g, blocks).state.slashedAddrs <==> ProvenIn(TxLog(blocks), v)
    ensures Innocent(v) ==> v !in LedgerAt(g, blocks).state.slashedAddrs
  {
    hide Replay;
    hide Innocent;
    hide Proves;
    HistoryRecorded(g, blocks);
    var log := TxLog(blocks);
    OffenderProven(log, v);
    if Innocent(v) && ProvenIn(log, v) {
      var i, x :| 0 <= i < |log| && log[i].recipient.SlashSentinel? && Proves(log[i].evidence, v, x);
      InnocentUnproven(log[i].evidence, v, x);
    }
  }

  /** One recorded vote offense stands for one pair of votes. */
  lemma OffenseBinds(a: Tx, b: Tx, c: Tx, d: Tx, v: Address, w: Address, x: Offense)
    requires CollisionFree()
    requires forall i, j, k, m :: offenseDigest(i, j) == offenseDigest(k, m) ==> i == k && j == m
    requires Proves(VoteFault(a, b), v, x) && Proves(VoteFault(c, d), w, x)
    ensures (a == c && b == d) || (a == d && b == c)
  {
    hide SignedConflict;
  }

  lemma {:induction false} PrefixSigned(p: Params, l: Ledger, b: Block, n: nat)
    requires p.epoch != 0 && n <= |b.txs| && RunPrefix(p, l, b, n).Ok?
    ensures forall i :: 0 <= i < n ==> Signed(b.txs[i])
  {
    hide RunPrefix;
    hide ApplyTx;
    hide Signed;
    if n > 0 {
      BlockStep(p, l, b, n - 1);
      PrefixSigned(p, l, b, n - 1);
    }
  }

  /** Every transaction of a chain was signed by its sender, and has the shape of its kind. */
  lemma {:induction false} LogSigned(g: GenesisArgs, blocks: seq<Block>)
    requires Replay(g, blocks).Ok?
    ensures forall i :: 0 <= i < |TxLog(blocks)| ==> Signed(TxLog(blocks)[i])
  {
    hide ApplyBlock;
    hide Signed;
    hide RunPrefix;
    hide RunBlock;
    hide HeaderAccepted;
    if blocks != [] {
      var front, b := blocks[..|blocks| - 1], blocks[|blocks| - 1];
      LogSigned(g, front);
      BlockAccepted(g, blocks);
      PrefixEnds(g.params, LedgerAt(g, front), b);
      PrefixSigned(g.params, LedgerAt(g, front), b, |b.txs|);
    }
  }

  /** A signed vote that the one-vote rule keeps out convicts its signer: with an earlier vote of the chain it
      proves a fault. */
  lemma RefusedVoteConvicts(g: GenesisArgs, blocks: seq<Block>, b: Block, n: nat, tx: Tx)
    requires Replay(g, blocks).Ok? && n <= |b.txs|
    requires RunPrefix(g.params, LedgerAt(g, blocks), b, n).Ok?
    requires tx.evidence.VoteLink? && SignedVote(tx.sender, tx, tx.evidence.link)
    requires !NoOtherLink(LogAt(blocks, b, n), tx.sender, tx.evidence.link)
    ensures var log := LogAt(blocks, b, n);
            exists i, x :: 0 <= i < |log| && Proves(VoteFault(log[i], tx), tx.sender, x)
  {
    hide Replay;
    hide RunPrefix;
    hide TxLog;
    hide Signed;
    LogSigned(g, blocks);
    PrefixSigned(g.params, LedgerAt(g, blocks), b, n);
    var log := LogAt(blocks, b, n);
    var i :| 0 <= i < |log| && VotesAt(log[i], tx.sender, tx.evidence.link.th)
             && !SameEnds(log[i].evidence.link, tx.evidence.link);
    assert Signed(log[i]);
    assert SignedConflict(tx.sender, log[i], tx);
    var x, y := txDigest(log[i]), txDigest(tx);
    var id := if x <= y then offenseDigest(x, y) else offenseDigest(y, x);
    assert Proves(VoteFault(log[i], tx), tx.sender, VoteOffense(id));
  }

  // -- nobody acts for another -----------------------------------------------------------------------

  /** In this stretch of a chain a signed nothing. */
  ghost predicate SignedNothing(txs: seq<Tx>, a: Address) {
    forall i :: 0 <= i < |txs| ==> !(txs[i].sender == a && txSigned(txs[i]))
  }

  lemma StrangersTx(p: Params, ctx: Context, st: State, tx: Tx, a: Address)
    requires p.epoch != 0 && Solvent(st.accounts) && Innocent(a)
    requires TxValid(tx) && tx.sender != a
    requires ApplyTx(p, ctx, st, tx).Ok?
    ensures var acc, next := st.accounts, ApplyTx(p, ctx, st, tx).value.accounts;
            && Get(acc.balances, a) <= Get(next.balances, a) && Bonded(next, a) == Bonded(acc, a)
            && Get(next.stakes, a) == Get(acc.stakes, a) && Get(next.nonces, a) == Get(acc.nonces, a)
  {
    hide ApplyTx;
    hide Innocent;
    hide Proves;
    hide TxValid;
    hide VerifyFault;
    hide UnbondingOf;
    TxMoves(p, ctx, st, tx, a);
    StrangersFlow(p, ctx, st, tx, a);
  }

  lemma StrangersFlow(p: Params, ctx: Context, st: State, tx: Tx, a: Address)
    requires Solvent(st.accounts) && Innocent(a) && TxValid(tx) && tx.sender != a
    ensures var f := FlowOf(p, ctx, st, tx, a);
            0 <= f.liquid && f.staked == 0 && f.unbonding == 0
  {
    hide Innocent;
    hide Proves;
    hide VerifyFault;
    hide EntriesSum;
    var fault := VerifyFault(tx.evidence);
    if tx.recipient.SlashSentinel? && fault.Ok? {
      VerdictExactly(tx.evidence, fault.value.0, fault.value.1);
      if fault.value.0 == a { InnocentUnproven(tx.evidence, a, fault.value.1); }
      EntriesSumNonNegative(Queue(st.accounts.unbonding, fault.value.0));
    }
  }

  /** a is at least as well off, with the same stake and the same next nonce. */
  ghost predicate Unharmed(before: Accounts, after: Accounts, a: Address) {
    && Holding(before, a) <= Holding(after, a)
    && Get(after.stakes, a) == Get(before.stakes, a) && Get(after.nonces, a) == Get(before.nonces, a)
  }

  lemma {:induction false} StrangersTxs(p: Params, ctx: Context, st: State, txs: seq<Tx>, seen: set<Hash>, a: Address)
    requires p.epoch != 0 && Solvent(st.accounts) && Innocent(a) && SignedNothing(txs, a)
    requires ApplyTxs(p, ctx, st, txs, seen).Ok?
    ensures Unharmed(st.accounts, ApplyTxs(p, ctx, st, txs, seen).value.accounts, a)
    decreases |txs|
  {
    hide ApplyTx;
    hide Innocent;
    hide Solvent;
    hide UnbondingOf;
    if txs != [] {
      var next := ApplyTx(p, ctx, st, txs[0]).value;
      assert txs[0].sender != a;
      StrangersTx(p, ctx, st, txs[0], a);
      TxSolvent(p, ctx, st, txs[0]);
      StrangersTxs(p, ctx, next, txs[1..], seen + {TxId(txs[0])}, a);
    }
  }

  lemma MatureUnharmed(acc: Accounts, height: int, a: Address)
    ensures Unharmed(acc, Mature(acc, height), a)
  {
    hide Holding;
    MatureKeepsHolding(acc, height, a);
    BlockReleasesDue(acc, height, a, Entry(0, 0, 0));
  }

  /** Nobody acts for another: while an innocent address signs nothing, whatever the chain includes, its
      holding never falls and its stake and nonce stay as they are. */
  lemma {:induction false} UnsignedUnharmed(g: GenesisArgs, blocks: seq<Block>, k: nat, a: Address)
    requires Replay(g, blocks).Ok? && k <= |blocks| && Innocent(a)
    requires forall i :: k <= i < |blocks| ==> SignedNothing(blocks[i].txs, a)
    ensures Replay(g, blocks[..k]).Ok?
    ensures Unharmed(LedgerAt(g, blocks[..k]).state.accounts, LedgerAt(g, blocks).state.accounts, a)
    decreases |blocks|
  {
    hide ApplyBlock;
    hide ApplyTxs;
    hide HeaderAccepted;
    hide Innocent;
    hide Holding;
    hide SignedNothing;
    ReplayPrefix(g, blocks, k);
    if k == |blocks| {
      assert blocks[..k] == blocks;
    } else {
      var front, b := blocks[..|blocks| - 1], blocks[|blocks| - 1];
      assert front[..k] == blocks[..k];
      UnsignedUnharmed(g, front, k, a);
      BlockAccepted(g, blocks);
      ReplayBalanced(g, front);
      var l := LedgerAt(g, front);
      MatureUnharmed(l.state.accounts, b.header.index, a);
      MatureSolvent(l.state.accounts, b.header.index);
      StrangersTxs(g.params, ContextOf(l, b), BeginBlock(g.params, l.state, b), b.txs, {}, a);
    }
  }
}
