/** Plausible liveness: with an unchanging validator set, two thirds of the stake running the automatic
    voter can always justify and finalize the next checkpoint, whatever was voted before, and no two of the
    chain's votes become a fault by it. */
module Liveness {
  import opened Sums
  import opened Arithmetic
  import opened Records
  import opened Ledger
  import opened Conservation
  import opened Runs
  import opened Justification
  import opened History
  import opened AutoVoter
  import AccountableSafety

  // -- what a chain's votes were ---------------------------------------------------------------

  /** A vote of the chain went from a checkpoint that is justified now to a height within the chain. */
  ghost predicate LawfulVote(ffg: Finality, top: int, tx: Tx) {
    tx.recipient.VoteSentinel? ==>
      && tx.evidence.VoteLink? && tx.evidence.link.th <= top
      && tx.evidence.link.s in ffg.justified && tx.evidence.link.s in ffg.heightAt
      && ffg.heightAt[tx.evidence.link.s] == tx.evidence.link.sh
  }

  ghost predicate Lawful(log: seq<Tx>, ffg: Finality, top: int) {
    && (forall i :: 0 <= i < |log| ==> LawfulVote(ffg, top, log[i]))
    && (forall key :: key in ffg.seenTarget ==> key.1 <= top)
  }

  lemma TxLawful(p: Params, ctx: Context, chain: seq<Block>, st: State, log: seq<Tx>, tx: Tx)
    requires 0 < p.epoch
    requires Anchored(p, chain, st.ffg) && ctx.justifiedParent <= st.ffg.justified
    requires Lawful(log, st.ffg, |chain| - 1)
    requires ApplyTx(p, ctx, st, tx).Ok?
    ensures Lawful(log + [tx], ApplyTx(p, ctx, st, tx).value.ffg, |chain| - 1)
  {
    hide ApplyTx;
    hide Quorum;
    TxFinalityFrame(p, ctx, st, tx);
    var ffg := ApplyTx(p, ctx, st, tx).value.ffg;
    forall i | 0 <= i < |log| ensures LawfulVote(ffg, |chain| - 1, log[i]) {
      assert LawfulVote(st.ffg, |chain| - 1, log[i]);
    }
  }

  lemma {:induction false} TxsLawful(p: Params, ctx: Context, chain: seq<Block>, st: State, log: seq<Tx>,
                                     txs: seq<Tx>, seen: set<Hash>)
    requires 0 < p.epoch
    requires Anchored(p, chain, st.ffg) && ctx.justifiedParent <= st.ffg.justified
    requires Lawful(log, st.ffg, |chain| - 1)
    requires ApplyTxs(p, ctx, st, txs, seen).Ok?
    ensures Lawful(log + txs, ApplyTxs(p, ctx, st, txs, seen).value.ffg, |chain| - 1)
    decreases |txs|
  {
    hide ApplyTx;
    hide Anchored;
    hide Lawful;
    if txs == [] {
      assert log + txs == log;
    } else {
      TxLawful(p, ctx, chain, st, log, txs[0]);
      TxKeepsAnchored(p, ctx, chain, st, txs[0]);
      TxsLawful(p, ctx, chain, ApplyTx(p, ctx, st, txs[0]).value, log + [txs[0]], txs[1..], seen + {TxId(txs[0])});
      assert log + [txs[0]] + txs[1..] == log + txs;
    }
  }

  lemma BeginLawful(p: Params, l: Ledger, b: Block, log: seq<Tx>)
    requires CollisionFree() && 0 < p.epoch
    requires Anchored(p, l.chain, l.state.ffg) && b.header.index == |l.chain|
    requires forall i :: 0 <= i < |l.chain| ==> l.chain[i].header.index == i
    requires Lawful(log, l.state.ffg, |l.chain| - 1)
    ensures Lawful(log, BeginBlock(p, l.state, b).ffg, |l.chain|)
  {
    hide Mature;
    hide CollisionFree;
    hide Anchored;
    AccountableSafety.NewCheckpointIsNew(p, l, b);
    var ffg := BeginBlock(p, l.state, b).ffg;
    forall i | 0 <= i < |log| ensures LawfulVote(ffg, |l.chain|, log[i]) {
      assert LawfulVote(l.state.ffg, |l.chain| - 1, log[i]);
    }
  }

  /** In every reachable ledger, included votes have justified sources and targets on the chain. */
  lemma {:induction false} LogLawful(g: GenesisArgs, blocks: seq<Block>)
    requires CollisionFree() && Replay(g, blocks).Ok?
    ensures Lawful(TxLog(blocks), LedgerAt(g, blocks).state.ffg, |blocks|)
  {
    hide ApplyBlock;
    hide ApplyTxs;
    hide HeaderAccepted;
    hide CollisionFree;
    hide Lawful;
    hide Anchored;
    hide BeginBlock;
    if blocks == [] {
      GenesisLawful(g);
    } else {
      var front, b := blocks[..|blocks| - 1], blocks[|blocks| - 1];
      LogLawful(g, front);
      BlockAccepted(g, blocks);
      ReplayChain(g, front);
      ReplayAnchored(g, front);
      LastBlock(g, blocks);
      var l := LedgerAt(g, front);
      BeginLawful(g.params, l, b, TxLog(front));
      BeginKeepsAnchored(g.params, l, b);
      TxsLawful(g.params, ContextOf(l, b), l.chain + [Content(b)], BeginBlock(g.params, l.state, b), TxLog(front),
                b.txs, {});
    }
  }

  lemma GenesisLawful(g: GenesisArgs)
    requires Genesis(g).Ok?
    ensures Lawful(TxLog([]), Genesis(g).value.state.ffg, 0)
  {
  }

  // -- balance entries stay ----------------------------------------------------------------------

  lemma TxKeepsHolders(p: Params, ctx: Context, st: State, tx: Tx)
    requires p.epoch != 0
    requires ApplyTx(p, ctx, st, tx).Ok?
    ensures st.accounts.balances.Keys <= ApplyTx(p, ctx, st, tx).value.accounts.balances.Keys
  {
    hide CountVote;
    hide LinkAccepted;
    hide VestingKept;
    hide VerifyFault;
    hide ReporterShare;
    hide EntriesSum;
  }

  lemma {:induction false} TxsKeepHolders(p: Params, ctx: Context, st: State, txs: seq<Tx>, seen: set<Hash>)
    requires p.epoch != 0
    requires ApplyTxs(p, ctx, st, txs, seen).Ok?
    ensures st.accounts.balances.Keys <= ApplyTxs(p, ctx, st, txs, seen).value.accounts.balances.Keys
    decreases |txs|
  {
    hide ApplyTx;
    if txs != [] {
      TxKeepsHolders(p, ctx, st, txs[0]);
      TxsKeepHolders(p, ctx, ApplyTx(p, ctx, st, txs[0]).value, txs[1..], seen + {TxId(txs[0])});
    }
  }

  lemma MatureKeepsHolders(acc: Accounts, height: int)
    ensures acc.balances.Keys <= Mature(acc, height).balances.Keys
  {
    hide Pending;
    hide MaturedSum;
  }

  /** Whoever held anything at genesis, and the treasury, has a balance entry in every reachable ledger. */
  lemma {:induction false} HoldersStay(g: GenesisArgs, blocks: seq<Block>)
    requires Replay(g, blocks).Ok?
    ensures g.allocations.Keys <= LedgerAt(g, blocks).state.accounts.balances.Keys
    ensures g.params.treasury.Some? ==> g.params.treasury.value in LedgerAt(g, blocks).state.accounts.balances.Keys
  {
    hide ApplyBlock;
    hide ApplyTxs;
    hide HeaderAccepted;
    if blocks == [] {
      assert g.allocations.Keys <= GenesisAccounts(g).balances.Keys;
    } else {
      var front, b := blocks[..|blocks| - 1], blocks[|blocks| - 1];
      HoldersStay(g, front);
      BlockAccepted(g, blocks);
      var l := LedgerAt(g, front);
      MatureKeepsHolders(l.state.accounts, b.header.index);
      hide Mature;
      TxsKeepHolders(g.params, ContextOf(l, b), BeginBlock(g.params, l.state, b), b.txs, {});
    }
  }

  // -- one round of votes ------------------------------------------------------------------------

  /** v's vote for k would be accepted now. */
  ghost predicate CanVote(p: Params, ctx: Context, st: State, v: Address, k: Link)
    requires p.epoch != 0
  {
    LinkAccepted(p, ctx, st, v, k) && v in st.accounts.balances && 0 <= Get(st.accounts.balances, v)
  }

  /** A valid vote for k without fee, at its sender's next nonce. */
  ghost predicate FreeVote(acc: Accounts, k: Link, tx: Tx) {
    && TxValid(tx) && tx.recipient.VoteSentinel? && tx.fee == 0
    && tx.nonce == Get(acc.nonces, tx.sender) && tx.evidence == VoteLink(k)
  }

  /** One free vote for k takes effect and leaves the others theirs. */
  lemma VoteStep(p: Params, ctx: Context, st: State, k: Link, tx: Tx, other: Tx)
    requires p.epoch != 0
    requires FreeVote(st.accounts, k, tx) && CanVote(p, ctx, st, tx.sender, k)
    requires FreeVote(st.accounts, k, other) && CanVote(p, ctx, st, other.sender, k) && other.sender != tx.sender
    ensures ApplyTx(p, ctx, st, tx).Ok?
    ensures var next := ApplyTx(p, ctx, st, tx).value;
            FreeVote(next.accounts, k, other) && CanVote(p, ctx, next, other.sender, k)
  {
    hide TxValid;
    hide Quorum;
  }

  /** What it does to the finality record. */
  lemma VoteCounts(p: Params, ctx: Context, st: State, k: Link, tx: Tx)
    requires p.epoch != 0
    requires FreeVote(st.accounts, k, tx) && CanVote(p, ctx, st, tx.sender, k)
    ensures ApplyTx(p, ctx, st, tx).Ok?
    ensures var next := ApplyTx(p, ctx, st, tx).value;
            && next.ffg == CountVote(p, st.ffg, st.slashedAddrs, tx.sender, k)
            && next.slashedAddrs == st.slashedAddrs
  {
    hide TxValid;
    hide CountVote;
    hide LinkAccepted;
  }

  function SendersOf(txs: seq<Tx>): set<Address> {
    set i | 0 <= i < |txs| :: txs[i].sender
  }

  ghost predicate OnePerSender(txs: seq<Tx>) {
    forall i, j :: 0 <= i < j < |txs| ==> txs[i].sender != txs[j].sender
  }

  /** Where a round of votes for k leaves the record: everybody is counted; with a quorum k's target is
      justified and, if it is k's direct epoch child, the source finalized. */
  ghost predicate RoundCounted(p: Params, k: Link, voters: set<Address>, slashedAddrs: set<Address>,
                               before: Finality, after: Finality) {
    && before.justified <= after.justified
    && after.stakeAt == before.stakeAt
    && (forall key :: key in after.seenTarget ==> key in before.seenTarget || key.1 == k.th)
    && (after.finalized == before.finalized || after.finalized == Checkpoint(k.s, k.sh))
    && (k.s in before.stakeAt && Quorum(before.stakeAt[k.s], Voters(before, k.s, k.t) + voters, slashedAddrs) ==>
          && k.t in after.justified
          && (k.th == k.sh + p.epoch && before.finalized.height < k.sh ==> after.finalized == Checkpoint(k.s, k.sh)))
  }

  lemma LastVoteCounts(p: Params, ffg: Finality, slashedAddrs: set<Address>, v: Address, k: Link)
    requires k.s in ffg.stakeAt
    ensures RoundCounted(p, k, {v}, slashedAddrs, ffg, CountVote(p, ffg, slashedAddrs, v, k))
  {
    hide Quorum;
  }

  lemma RoundExtends(p: Params, ffg: Finality, slashedAddrs: set<Address>, v: Address, k: Link, rest: set<Address>,
                     after: Finality)
    requires k.s in ffg.stakeAt
    requires RoundCounted(p, k, rest, slashedAddrs, CountVote(p, ffg, slashedAddrs, v, k), after)
    ensures RoundCounted(p, k, {v} + rest, slashedAddrs, ffg, after)
  {
    hide Quorum;
    var next := CountVote(p, ffg, slashedAddrs, v, k);
    assert Voters(next, k.s, k.t) + rest == Voters(ffg, k.s, k.t) + ({v} + rest);
  }

  /** A round of free votes for k, one per sender, runs and is counted. */
  lemma {:induction false} RoundRuns(p: Params, ctx: Context, st: State, k: Link, txs: seq<Tx>, seen: set<Hash>)
    requires CollisionFree() && p.epoch != 0 && txs != []
    requires forall i :: 0 <= i < |txs| ==> FreeVote(st.accounts, k, txs[i]) && CanVote(p, ctx, st, txs[i].sender, k)
    requires OnePerSender(txs) && forall i :: 0 <= i < |txs| ==> TxId(txs[i]) !in seen
    ensures ApplyTxs(p, ctx, st, txs, seen).Ok?
    ensures RoundCounted(p, k, SendersOf(txs), st.slashedAddrs, st.ffg, ApplyTxs(p, ctx, st, txs, seen).value.ffg)
    decreases |txs|
  {
    hide ApplyTx;
    hide CanVote;
    hide TxValid;
    hide CountVote;
    hide RoundCounted;
    var tx, rest := txs[0], txs[1..];
    assert FreeVote(st.accounts, k, tx) && CanVote(p, ctx, st, tx.sender, k);
    VoteCounts(p, ctx, st, k, tx);
    SourceRecorded(p, ctx, st, tx.sender, k);
    var next := ApplyTx(p, ctx, st, tx).value;
    assert ApplyTxs(p, ctx, st, txs, seen) == ApplyFirst(p, ctx, st, txs, seen);
    if rest == [] {
      assert SendersOf(txs) == {tx.sender};
      assert ApplyTxs(p, ctx, next, rest, seen + {TxId(tx)}) == Ok(next);
      LastVoteCounts(p, st.ffg, st.slashedAddrs, tx.sender, k);
    } else {
      forall i | 0 <= i < |rest|
        ensures FreeVote(next.accounts, k, rest[i]) && CanVote(p, ctx, next, rest[i].sender, k)
                && TxId(rest[i]) !in seen + {TxId(tx)}
      {
        assert rest[i] == txs[i + 1];
        VoteStep(p, ctx, st, k, tx, rest[i]);
        DifferentIds(tx, rest[i]);
      }
      RoundRuns(p, ctx, next, k, rest, seen + {TxId(tx)});
      SendersSplit(txs);
      RoundExtends(p, st.ffg, st.slashedAddrs, tx.sender, k, SendersOf(rest),
                   ApplyTxs(p, ctx, next, rest, seen + {TxId(tx)}).value.ffg);
    }
  }

  lemma SourceRecorded(p: Params, ctx: Context, st: State, v: Address, k: Link)
    requires p.epoch != 0 && CanVote(p, ctx, st, v, k)
    ensures k.s in st.ffg.stakeAt
  {
  }

  lemma DifferentIds(a: Tx, b: Tx)
    requires CollisionFree() && a != b
    ensures TxId(a) != TxId(b)
  {
  }

  lemma SendersSplit(txs: seq<Tx>)
    requires txs != []
    ensures SendersOf(txs) == {txs[0].sender} + SendersOf(txs[1..])
  {
    var rest := txs[1..];
    forall v | v in SendersOf(txs) ensures v in {txs[0].sender} + SendersOf(rest) {
      var i :| 0 <= i < |txs| && txs[i].sender == v;
      if i > 0 {
        assert rest[i - 1] == txs[i];
      }
    }
    forall v | v in SendersOf(rest) ensures v in SendersOf(txs) {
      var i :| 0 <= i < |rest| && rest[i].sender == v;
      assert txs[i + 1] == rest[i];
    }
  }

  // -- a round in a block --------------------------------------------------------------------------

  /** Voters with two thirds of an unchanging stake. */
  ghost predicate Supermajority(g: GenesisArgs, voters: set<Address>) {
    && voters <= g.initialStakes.Keys && voters != {}
    && 3 * Sum(voters, g.initialStakes) >= 2 * Total(g.initialStakes)
  }

  /** txs are the voters' own automatic votes on l, one each, signed and without fee. */
  ghost predicate VotesOn(l: Ledger, epoch: int, voters: set<Address>, k: Link, txs: seq<Tx>)
    requires epoch != 0
  {
    && OnePerSender(txs) && SendersOf(txs) == voters
    && (forall i :: 0 <= i < |txs| ==> FreeVote(l.state.accounts, k, txs[i]))
    && (forall v :: v in voters ==> VoteFor(l, epoch, v, {}) == Some(k))
  }

  lemma StakePositive(g: GenesisArgs, v: Address)
    requires Genesis(g).Ok? && v in g.initialStakes
    ensures 0 < g.initialStakes[v] && v in g.allocations
  {
    hide ValidAllocations;
    hide ValidVesting;
  }

  lemma VotersCanVote(g: GenesisArgs, blocks: seq<Block>, b: Block, v: Address)
    requires CollisionFree() && Replay(g, blocks).Ok? && AccountableSafety.StaticBlocks(blocks)
    requires b.header.index == |blocks| + 1 && v in g.initialStakes
    requires VoteFor(LedgerAt(g, blocks), g.params.epoch, v, {}).Some?
    requires var l := LedgerAt(g, blocks);
             (v, VoteFor(l, g.params.epoch, v, {}).value.th) !in l.state.ffg.seenTarget
    ensures var l := LedgerAt(g, blocks);
            var k := VoteFor(l, g.params.epoch, v, {}).value;
            var st := BeginBlock(g.params, l.state, b);
            && CanVote(g.params, ContextOf(l, b), st, v, k)
            && k.s in st.ffg.stakeAt && st.ffg.stakeAt[k.s] == g.initialStakes && st.slashedAddrs == {}
  {
    hide Replay;
    hide VoteFor;
    hide CollisionFree;
    hide Mature;
    hide StakeFound;
    hide LinkAccepted;
    var l := LedgerAt(g, blocks);
    var k := VoteFor(l, g.params.epoch, v, {}).value;
    var st := BeginBlock(g.params, l.state, b);
    assert RunPrefix(g.params, l, b, 0) == Ok(st);
    EmittedVoteAccepted(g, blocks, v, {}, b, 0);
    EmittedLink(g, blocks, v, {});
    PrefixSnapshots(g, blocks, b, 0, k.sh);
    StaticStart(g, blocks, b);
    GenesisFirst(g, blocks);
    StakePositive(g, v);
    HoldersStay(g, blocks);
    MatureKeepsHolders(l.state.accounts, b.header.index);
    ReplayBalanced(g, blocks);
    MatureSolvent(l.state.accounts, b.header.index);
  }

  lemma GenesisFirst(g: GenesisArgs, blocks: seq<Block>)
    requires Replay(g, blocks).Ok?
    ensures Genesis(g).Ok?
  {
    hide ApplyBlock;
    ReplayPrefix(g, blocks, 0);
    assert blocks[..0] == [];
  }

  lemma StaticStart(g: GenesisArgs, blocks: seq<Block>, b: Block)
    requires CollisionFree() && Replay(g, blocks).Ok? && AccountableSafety.StaticBlocks(blocks)
    requires b.header.index == |blocks| + 1
    ensures AccountableSafety.StaticStake(g.initialStakes, BeginBlock(g.params, LedgerAt(g, blocks).state, b))
  {
    hide Replay;
    hide CollisionFree;
    hide Mature;
    hide Anchored;
    hide AccountableSafety.VotesIncluded;
    hide AccountableSafety.Grounded;
    hide AccountableSafety.StaticTxs;
    AccountableSafety.ReplaySafety(g, blocks);
    ReplayChain(g, blocks);
    AccountableSafety.BeginKeepsSafety(g, LedgerAt(g, blocks), b);
  }

  lemma SupermajorityIsQuorum(g: GenesisArgs, voters: set<Address>, more: set<Address>)
    requires Genesis(g).Ok? && Supermajority(g, voters) && voters <= more
    ensures Quorum(g.initialStakes, more, {})
  {
    var stakes := g.initialStakes;
    assert more - {} == more && stakes.Keys - {} == stakes.Keys;
    forall a | a in stakes ensures 0 < stakes[a] { StakePositive(g, a); }
    SumSubset(voters, more, stakes);
    var v :| v in voters;
    SumTake(stakes.Keys, stakes, v);
    SumNonNegative(stakes.Keys - {v}, stakes);
  }

  /** The voters' automatic votes, in the next block of the ledger they voted on, justify their target; and
      finalize their source when it is the target's direct epoch parent. */
  lemma VoteRound(g: GenesisArgs, blocks: seq<Block>, b: Block, voters: set<Address>, k: Link)
    requires CollisionFree() && Replay(g, blocks).Ok? && AccountableSafety.StaticBlocks(blocks)
    requires Supermajority(g, voters) && HeaderAccepted(LedgerAt(g, blocks), b)
    requires VotesOn(LedgerAt(g, blocks), g.params.epoch, voters, k, b.txs)
    requires forall v :: v in voters ==> (v, k.th) !in LedgerAt(g, blocks).state.ffg.seenTarget
    ensures Replay(g, blocks + [b]).Ok?
    ensures var before, after := LedgerAt(g, blocks).state.ffg, LedgerAt(g, blocks + [b]).state.ffg;
            && before.justified <= after.justified && k.t in after.justified
            && (forall key :: key in after.seenTarget ==> key in before.seenTarget || key.1 == k.th)
            && (after.finalized == before.finalized || after.finalized == Checkpoint(k.s, k.sh))
            && (k.th == k.sh + g.params.epoch && before.finalized.height < k.sh ==>
                  after.finalized == Checkpoint(k.s, k.sh))
  {
    hide Replay;
    hide VoteFor;
    hide CollisionFree;
    hide Mature;
    hide HeaderAccepted;
    hide CanVote;
    hide FreeVote;
    hide ApplyTxs;
    hide Supermajority;
    hide Quorum;
    hide Supply;
    var l := LedgerAt(g, blocks);
    NextHeight(g, blocks, b);
    RoundStarts(g, blocks, b, voters, k);
    var st := BeginBlock(g.params, l.state, b);
    RoundRuns(g.params, ContextOf(l, b), st, k, b.txs, {});
    GenesisFirst(g, blocks);
    SupermajorityIsQuorum(g, voters, Voters(st.ffg, k.s, k.t) + voters);
    AcceptedUnlessRunFails(g, blocks, b);
    ReplayStep(g, blocks, b);
  }

  lemma RoundStarts(g: GenesisArgs, blocks: seq<Block>, b: Block, voters: set<Address>, k: Link)
    requires CollisionFree() && Replay(g, blocks).Ok? && AccountableSafety.StaticBlocks(blocks)
    requires Supermajority(g, voters) && b.header.index == |blocks| + 1
    requires VotesOn(LedgerAt(g, blocks), g.params.epoch, voters, k, b.txs)
    requires forall v :: v in voters ==> (v, k.th) !in LedgerAt(g, blocks).state.ffg.seenTarget
    ensures var l := LedgerAt(g, blocks);
            var st := BeginBlock(g.params, l.state, b);
            && b.txs != []
            && (forall i :: 0 <= i < |b.txs| ==>
                  FreeVote(st.accounts, k, b.txs[i]) && CanVote(g.params, ContextOf(l, b), st, b.txs[i].sender, k))
            && k.s in st.ffg.stakeAt && st.ffg.stakeAt[k.s] == g.initialStakes && st.slashedAddrs == {}
  {
    hide Replay;
    hide VoteFor;
    hide CollisionFree;
    hide Mature;
    hide CanVote;
    hide TxValid;
    hide TakeSnapshot;
    var l := LedgerAt(g, blocks);
    var st := BeginBlock(g.params, l.state, b);
    MatureNonces(l.state.accounts, b.header.index);
    forall i | 0 <= i < |b.txs|
      ensures FreeVote(st.accounts, k, b.txs[i]) && CanVote(g.params, ContextOf(l, b), st, b.txs[i].sender, k)
      ensures k.s in st.ffg.stakeAt && st.ffg.stakeAt[k.s] == g.initialStakes && st.slashedAddrs == {}
    {
      assert FreeVote(l.state.accounts, k, b.txs[i]);
      assert b.txs[i].sender in voters;
      VotersCanVote(g, blocks, b, b.txs[i].sender);
    }
    var v :| v in voters;
    assert v in SendersOf(b.txs);
  }

  // -- quiet blocks between the rounds -------------------------------------------------------------

  ghost predicate Quiet(pad: seq<Block>) {
    forall i :: 0 <= i < |pad| ==> pad[i].txs == []
  }

  /** Blocks without transactions leave votes, justification and finality as they were. */
  lemma {:induction false} PadKeeps(g: GenesisArgs, blocks: seq<Block>, pad: seq<Block>)
    requires Quiet(pad) && Replay(g, blocks + pad).Ok?
    ensures Replay(g, blocks).Ok? && TxLog(blocks + pad) == TxLog(blocks)
    ensures var before, after := LedgerAt(g, blocks).state.ffg, LedgerAt(g, blocks + pad).state.ffg;
            && after.justified == before.justified && after.finalized == before.finalized
            && after.seenTarget == before.seenTarget
    decreases |pad|
  {
    hide ApplyBlock;
    hide Mature;
    hide HeaderAccepted;
    if pad == [] {
      assert blocks + pad == blocks;
    } else {
      var all, less, b := blocks + pad, pad[..|pad| - 1], pad[|pad| - 1];
      assert all[..|all| - 1] == blocks + less && all[|all| - 1] == b;
      BlockAccepted(g, all);
      PadKeeps(g, blocks, less);
      assert TxLog(blocks + less) + b.txs == TxLog(blocks + less);
    }
  }

  lemma StaticAppend(blocks: seq<Block>, more: seq<Block>)
    requires AccountableSafety.StaticBlocks(blocks) && AccountableSafety.StaticBlocks(more)
    ensures AccountableSafety.StaticBlocks(blocks + more)
  {
    hide AccountableSafety.StaticTxs;
  }

  lemma QuietIsStatic(pad: seq<Block>)
    requires Quiet(pad)
    ensures AccountableSafety.StaticBlocks(pad)
  {
  }

  // -- two rounds ------------------------------------------------------------------------------------

  /** Quiet blocks up to the epoch of boundary t, then a block with the voters' automatic votes for k. */
  ghost predicate RoundOn(g: GenesisArgs, blocks: seq<Block>, pad: seq<Block>, b: Block, voters: set<Address>,
                          k: Link, t: nat)
  {
    && Quiet(pad) && t <= |blocks + pad| < t + g.params.epoch
    && Replay(g, blocks + pad).Ok? && HeaderAccepted(LedgerAt(g, blocks + pad), b)
    && VotesOn(LedgerAt(g, blocks + pad), g.params.epoch, voters, k, b.txs)
  }

  /** Every such vote is for the checkpoint at t, from a justified one below. */
  lemma RoundLink(g: GenesisArgs, blocks: seq<Block>, pad: seq<Block>, b: Block, voters: set<Address>, k: Link, t: nat)
    requires Supermajority(g, voters) && RoundOn(g, blocks, pad, b, voters, k, t) && 0 < t && t % g.params.epoch == 0
    ensures var chain := LedgerAt(g, blocks + pad).chain;
            k.th == t && t < |chain| && k.t == BlockHash(chain[t]) && 0 <= k.sh < t
  {
    hide Replay;
    hide HeaderAccepted;
    hide TargetIn;
    hide SourceIn;
    hide FreeVote;
    var l := LedgerAt(g, blocks + pad);
    var v :| v in voters;
    ReplayChain(g, blocks + pad);
    LatestTarget(l.chain, g.params.epoch, t);
    EmittedLink(g, blocks + pad, v, {});
  }

  /** What one round with quiet blocks before it does. */
  lemma RoundAdvances(g: GenesisArgs, blocks: seq<Block>, pad: seq<Block>, b: Block, voters: set<Address>, k: Link,
                      t: nat)
    requires CollisionFree() && AccountableSafety.StaticBlocks(blocks) && Supermajority(g, voters)
    requires RoundOn(g, blocks, pad, b, voters, k, t) && 0 < t && t % g.params.epoch == 0
    requires Replay(g, blocks).Ok?
    requires forall v :: v in voters ==> (v, t) !in LedgerAt(g, blocks).state.ffg.seenTarget
    ensures Replay(g, blocks + pad + [b]).Ok? && AccountableSafety.StaticBlocks(blocks + pad + [b])
    ensures TxLog(blocks + pad + [b]) == TxLog(blocks) + b.txs
    ensures var before, l := LedgerAt(g, blocks).state.ffg, LedgerAt(g, blocks + pad + [b]);
            var after := l.state.ffg;
            && k.th == t && t < |l.chain| && k.t == BlockHash(l.chain[t]) && 0 <= k.sh < t
            && before.justified <= after.justified && k.t in after.justified
            && (forall key :: key in after.seenTarget ==> key in before.seenTarget || key.1 == t)
            && (after.finalized == before.finalized || after.finalized == Checkpoint(k.s, k.sh))
            && (t == k.sh + g.params.epoch && before.finalized.height < k.sh ==>
                  after.finalized == Checkpoint(k.s, k.sh))
  {
    hide Replay;
    hide HeaderAccepted;
    hide CollisionFree;
    hide Supermajority;
    var all := blocks + pad;
    RoundLink(g, blocks, pad, b, voters, k, t);
    PadKeeps(g, blocks, pad);
    QuietIsStatic(pad);
    StaticAppend(blocks, pad);
    VoteRound(g, all, b, voters, k);
    VotesAreStatic(g, all, b, voters, k);
    StaticAppend(all, [b]);
    assert (all + [b])[..|all|] == all;
    ReplayPrefix(g, all + [b], |all|);
  }

  lemma VotesAreStatic(g: GenesisArgs, all: seq<Block>, b: Block, voters: set<Address>, k: Link)
    requires Replay(g, all).Ok? && VotesOn(LedgerAt(g, all), g.params.epoch, voters, k, b.txs)
    ensures AccountableSafety.StaticBlocks([b])
  {
    hide Replay;
    hide VoteFor;
    hide TxValid;
  }

  lemma SourceAtBoundary(l: Ledger, epoch: int, t: nat)
    requires 0 < epoch && t % epoch == 0 && t < |l.chain|
    requires forall i :: 0 <= i < |l.chain| ==> l.chain[i].header.index == i
    requires BlockHash(l.chain[t]) in l.state.ffg.justified && l.state.ffg.finalized.height < t
    ensures SourceIn(l.chain, l, epoch, t + epoch) == Checkpoint(BlockHash(l.chain[t]), t)
  {
    hide SourceIn;
    SourceHighest(l.chain, l, epoch, t + epoch);
    assert Candidate(l, epoch, t + epoch, l.chain[t]);
    var src := SourceIn(l.chain, l, epoch, t + epoch);
    var i :| 0 <= i < |l.chain| && Candidate(l, epoch, t + epoch, l.chain[i])
             && src == Checkpoint(BlockHash(l.chain[i]), l.chain[i].header.index);
    OnlyBoundary(t, i, epoch);
  }

  lemma LinkFromScan(l: Ledger, epoch: int, v: Address, k: Link, t: nat)
    requires epoch != 0 && VoteFor(l, epoch, v, {}) == Some(k)
    requires TargetIn(l.chain, epoch) == Some(t) && l.chain[t].header.index == t
    ensures var src := SourceIn(l.chain, l, epoch, t);
            k.s == src.hash && k.sh == src.height
  {
    hide TargetIn;
    hide SourceIn;
  }

  /** A round's link starts where the scan for a source below t ends. */
  lemma RoundSource(g: GenesisArgs, blocks: seq<Block>, pad: seq<Block>, b: Block, voters: set<Address>, k: Link,
                    t: nat)
    requires Supermajority(g, voters) && RoundOn(g, blocks, pad, b, voters, k, t) && 0 < t && t % g.params.epoch == 0
    ensures var l := LedgerAt(g, blocks + pad);
            var src := SourceIn(l.chain, l, g.params.epoch, t);
            k.s == src.hash && k.sh == src.height
  {
    hide Replay;
    hide HeaderAccepted;
    hide VoteFor;
    hide FreeVote;
    hide TargetIn;
    hide SourceIn;
    var l := LedgerAt(g, blocks + pad);
    var v :| v in voters;
    ReplayChain(g, blocks + pad);
    LatestTarget(l.chain, g.params.epoch, t);
    LinkFromScan(l, g.params.epoch, v, k, t);
  }

  lemma RoundIsQuiet(g: GenesisArgs, blocks: seq<Block>, pad: seq<Block>, b: Block, voters: set<Address>, k: Link,
                     t: nat)
    requires RoundOn(g, blocks, pad, b, voters, k, t)
    ensures Quiet(pad) && Replay(g, blocks + pad).Ok?
  {
    hide Replay;
    hide HeaderAccepted;
    hide VotesOn;
  }

  /** Once t is justified and nothing at or above it is finalized, the second round votes from t. */
  lemma SecondLink(g: GenesisArgs, blocks: seq<Block>, pad: seq<Block>, b: Block, voters: set<Address>, k: Link, t: nat)
    requires Supermajority(g, voters) && Replay(g, blocks).Ok?
    requires 0 < t <= |blocks| && t % g.params.epoch == 0
    requires RoundOn(g, blocks, pad, b, voters, k, t + g.params.epoch)
    requires var l := LedgerAt(g, blocks);
             BlockHash(l.chain[t]) in l.state.ffg.justified && l.state.ffg.finalized.height < t
    ensures k.sh == t && k.s == BlockHash(LedgerAt(g, blocks).chain[t])
  {
    hide Replay;
    hide RoundOn;
    hide Supermajority;
    hide SourceIn;
    hide TxLog;
    hide Quiet;
    var all, e := blocks + pad, g.params.epoch;
    RoundIsQuiet(g, blocks, pad, b, voters, k, t + e);
    NextBoundary(t, e);
    RoundSource(g, blocks, pad, b, voters, k, t + e);
    PadKeeps(g, blocks, pad);
    KeptBlock(g, blocks, all, t);
    ReplayChain(g, all);
    SourceAtBoundary(LedgerAt(g, all), e, t);
  }

  lemma NextBoundary(t: nat, epoch: int)
    requires 0 < epoch && t % epoch == 0
    ensures (t + epoch) % epoch == 0
  {
    var q := t / epoch;
    assert t == q * epoch + t % epoch;
    MulSuccessor(q, epoch);
    RemainderOf(q + 1, 0, epoch);
  }

  // -- no new fault ------------------------------------------------------------------------------

  /** Every vote of txs is for k, one per sender. */
  ghost predicate VotesFor(txs: seq<Tx>, k: Link) {
    OnePerSender(txs) && forall i :: 0 <= i < |txs| ==> txs[i].evidence == VoteLink(k)
  }

  /** Every vote of the log ends below k's target and starts no higher than k. */
  ghost predicate OlderThan(log: seq<Tx>, k: Link) {
    forall i :: 0 <= i < |log| && log[i].recipient.VoteSentinel? && log[i].evidence.VoteLink? ==>
      log[i].evidence.link.th < k.th && log[i].evidence.link.sh <= k.sh
  }

  /** Votes for a link above everything cast before convict nobody. */
  lemma NoNewFault(log: seq<Tx>, txs: seq<Tx>, k: Link, i: nat, j: nat)
    requires VotesFor(txs, k) && OlderThan(log, k)
    requires i < |log + txs| && j < |log + txs|
    requires VerifyVoteFault((log + txs)[i], (log + txs)[j]).Ok?
    ensures i < |log| && j < |log|
  {
    hide TxValid;
  }

  /** On a lawful chain the voter's source is at least as high as every included vote's. */
  lemma LawfulIsOlder(g: GenesisArgs, blocks: seq<Block>, pad: seq<Block>, b: Block, voters: set<Address>, k: Link,
                      t: nat)
    requires CollisionFree() && Supermajority(g, voters) && Replay(g, blocks).Ok?
    requires |blocks| < t && t % g.params.epoch == 0 && RoundOn(g, blocks, pad, b, voters, k, t)
    ensures OlderThan(TxLog(blocks), k)
    ensures forall v :: v in voters ==> (v, t) !in LedgerAt(g, blocks).state.ffg.seenTarget
  {
    hide Replay;
    hide HeaderAccepted;
    hide CollisionFree;
    hide Supermajority;
    hide VotesOn;
    hide TxLog;
    var log := TxLog(blocks);
    LogLawful(g, blocks);
    RoundLink(g, blocks, pad, b, voters, k, t);
    forall i | 0 <= i < |log| && log[i].recipient.VoteSentinel? && log[i].evidence.VoteLink?
      ensures log[i].evidence.link.th < k.th && log[i].evidence.link.sh <= k.sh
    {
      assert LawfulVote(LedgerAt(g, blocks).state.ffg, |blocks|, log[i]);
      SourceCovers(g, blocks, pad, b, voters, k, t, log[i].evidence.link.s);
    }
  }

  /** The round's source is at least as high as every checkpoint justified before. */
  lemma SourceCovers(g: GenesisArgs, blocks: seq<Block>, pad: seq<Block>, b: Block, voters: set<Address>, k: Link,
                     t: nat,
                     s: Hash)
    requires Supermajority(g, voters) && Replay(g, blocks).Ok?
    requires |blocks| < t && t % g.params.epoch == 0 && RoundOn(g, blocks, pad, b, voters, k, t)
    requires s in LedgerAt(g, blocks).state.ffg.justified && s in LedgerAt(g, blocks).state.ffg.heightAt
    ensures LedgerAt(g, blocks).state.ffg.heightAt[s] <= k.sh
  {
    hide Replay;
    hide RoundOn;
    hide Supermajority;
    hide SourceIn;
    hide TxLog;
    hide Quiet;
    var all, e := blocks + pad, g.params.epoch;
    var l, h := LedgerAt(g, blocks), LedgerAt(g, blocks).state.ffg.heightAt[s];
    RoundIsQuiet(g, blocks, pad, b, voters, k, t);
    var m := LedgerAt(g, all);
    RoundSource(g, blocks, pad, b, voters, k, t);
    SourceHighest(m.chain, m, e, t);
    ReplayChain(g, all);
    ReplayAnchored(g, blocks);
    assert IsCheckpoint(g.params, l.chain, s, h);
    PadKeeps(g, blocks, pad);
    KeptBlock(g, blocks, all, h);
    assert Candidate(m, e, t, m.chain[h]);
  }

  lemma RoundVotes(g: GenesisArgs, blocks: seq<Block>, pad: seq<Block>, b: Block, voters: set<Address>, k: Link, t: nat)
    requires RoundOn(g, blocks, pad, b, voters, k, t)
    ensures VotesFor(b.txs, k)
  {
    hide Replay;
    hide HeaderAccepted;
    hide VoteFor;
    hide TxValid;
    forall i | 0 <= i < |b.txs| ensures b.txs[i].evidence == VoteLink(k) {
      assert FreeVote(LedgerAt(g, blocks + pad).state.accounts, k, b.txs[i]);
    }
  }

  lemma OlderThanNext(log: seq<Tx>, txs: seq<Tx>, k: Link, next: Link)
    requires OlderThan(log, k) && VotesFor(txs, k) && k.th < next.th && k.sh <= next.sh
    ensures OlderThan(log + txs, next)
  {
  }

  // -- the theorem -----------------------------------------------------------------------------------

  /** The chain after two rounds. */
  function TwoRounds(blocks: seq<Block>, pad: seq<Block>, b: Block, pad2: seq<Block>, b2: Block): seq<Block> {
    blocks + pad + [b] + pad2 + [b2]
  }

  /** The two rounds from any static ledger: the first justifies the checkpoint at t, the second, one epoch
      later, finalizes it. */
  lemma TwoRoundsFinalize(g: GenesisArgs, blocks: seq<Block>, voters: set<Address>, t: nat,
                          pad: seq<Block>, b: Block, k: Link, pad2: seq<Block>, b2: Block, k2: Link)
    requires CollisionFree() && Replay(g, blocks).Ok? && AccountableSafety.StaticBlocks(blocks)
    requires Supermajority(g, voters) && |blocks| < t && t % g.params.epoch == 0
    requires RoundOn(g, blocks, pad, b, voters, k, t)
    requires Replay(g, blocks + pad + [b]).Ok? ==>
               RoundOn(g, blocks + pad + [b], pad2, b2, voters, k2, t + g.params.epoch)
    ensures Replay(g, TwoRounds(blocks, pad, b, pad2, b2)).Ok?
    ensures var l := LedgerAt(g, TwoRounds(blocks, pad, b, pad2, b2));
            t < |l.chain| && l.state.ffg.finalized == Checkpoint(BlockHash(l.chain[t]), t)
    ensures TxLog(TwoRounds(blocks, pad, b, pad2, b2)) == TxLog(blocks) + b.txs + b2.txs
    ensures OlderThan(TxLog(blocks), k) && VotesFor(b.txs, k)
    ensures OlderThan(TxLog(blocks) + b.txs, k2) && VotesFor(b2.txs, k2)
  {
    hide Replay;
    hide CollisionFree;
    hide Supermajority;
    hide RoundOn;
    hide TxLog;
    hide AccountableSafety.StaticBlocks;
    hide OlderThan;
    hide VotesFor;
    var e, mid := g.params.epoch, blocks + pad + [b];
    LawfulIsOlder(g, blocks, pad, b, voters, k, t);
    FinalizedWithin(g, blocks);
    RoundAdvances(g, blocks, pad, b, voters, k, t);
    NextBoundary(t, e);
    MidLength(g, blocks, pad, b, voters, k, t);
    LogBelow(g, blocks);
    SecondLink(g, mid, pad2, b2, voters, k2, t);
    RoundAdvances(g, mid, pad2, b2, voters, k2, t + e);
    KeptBlock(g, mid, mid + pad2 + [b2], t);
    RoundVotes(g, blocks, pad, b, voters, k, t);
    RoundVotes(g, mid, pad2, b2, voters, k2, t + e);
    OlderThanNext(TxLog(blocks), b.txs, k, k2);
  }

  lemma MidLength(g: GenesisArgs, blocks: seq<Block>, pad: seq<Block>, b: Block, voters: set<Address>, k: Link, t: nat)
    requires RoundOn(g, blocks, pad, b, voters, k, t)
    ensures t <= |blocks + pad + [b]|
  {
    hide Replay;
    hide HeaderAccepted;
    hide VotesOn;
  }

  lemma FinalizedWithin(g: GenesisArgs, blocks: seq<Block>)
    requires Replay(g, blocks).Ok?
    ensures LedgerAt(g, blocks).state.ffg.finalized.height <= |blocks|
  {
    hide Replay;
    ReplayAnchored(g, blocks);
  }

  lemma LogBelow(g: GenesisArgs, blocks: seq<Block>)
    requires CollisionFree() && Replay(g, blocks).Ok?
    ensures forall key :: key in LedgerAt(g, blocks).state.ffg.seenTarget ==> key.1 <= |blocks|
  {
    hide Replay;
    hide CollisionFree;
    hide TxLog;
    LogLawful(g, blocks);
  }

  lemma KeptBlock(g: GenesisArgs, blocks: seq<Block>, more: seq<Block>, t: nat)
    requires Replay(g, more).Ok? && blocks <= more && t <= |blocks|
    ensures Replay(g, blocks).Ok? && LedgerAt(g, blocks).chain[t] == LedgerAt(g, more).chain[t]
  {
    hide Replay;
    ReplayPrefix(g, more, |blocks|);
    assert more[..|blocks|] == blocks;
  }

  /** Plausible liveness. From any ledger that transfers and votes can reach, and for any epoch boundary t above
      it: if proposers keep sealing blocks, and voters with two thirds of the stake have their automatic
      votes included once the chain has passed t and again one epoch later, the checkpoint at t becomes
      finalized, and every pair of votes on the chain that verify_vote_fault accepts was there before. */
  lemma PlausibleLiveness(g: GenesisArgs, blocks: seq<Block>, voters: set<Address>, t: nat,
                          pad: seq<Block>, b: Block, k: Link, pad2: seq<Block>, b2: Block, k2: Link)
    requires CollisionFree() && Replay(g, blocks).Ok? && AccountableSafety.StaticBlocks(blocks)
    requires Supermajority(g, voters) && |blocks| < t && t % g.params.epoch == 0
    requires RoundOn(g, blocks, pad, b, voters, k, t)
    requires Replay(g, blocks + pad + [b]).Ok? ==>
               RoundOn(g, blocks + pad + [b], pad2, b2, voters, k2, t + g.params.epoch)
    ensures Replay(g, TwoRounds(blocks, pad, b, pad2, b2)).Ok?
    ensures var l := LedgerAt(g, TwoRounds(blocks, pad, b, pad2, b2));
            t < |l.chain| && l.state.ffg.finalized == Checkpoint(BlockHash(l.chain[t]), t)
    ensures var log := TxLog(TwoRounds(blocks, pad, b, pad2, b2));
            forall i, j :: 0 <= i < |log| && 0 <= j < |log| && VerifyVoteFault(log[i], log[j]).Ok? ==>
              i < |TxLog(blocks)| && j < |TxLog(blocks)|
  {
    hide Replay;
    hide CollisionFree;
    hide Supermajority;
    hide RoundOn;
    hide TxLog;
    hide OlderThan;
    hide VotesFor;
    hide VerifyVoteFault;
    hide TwoRounds;
    TwoRoundsFinalize(g, blocks, voters, t, pad, b, k, pad2, b2, k2);
    var first, log := TxLog(blocks) + b.txs, TxLog(TwoRounds(blocks, pad, b, pad2, b2));
    forall i, j | 0 <= i < |log| && 0 <= j < |log| && VerifyVoteFault(log[i], log[j]).Ok?
      ensures i < |TxLog(blocks)| && j < |TxLog(blocks)|
    {
      NoNewFault(first, b2.txs, k2, i, j);
      NoNewFault(TxLog(blocks), b.txs, k, i, j);
    }
  }

  /** The voters do vote: on a ledger that passed the boundary t with quiet blocks only, every validator's
      automatic vote is for the checkpoint at t. */
  lemma VotersEmit(g: GenesisArgs, blocks: seq<Block>, pad: seq<Block>, t: nat, v: Address, voted: set<int>)
    requires Quiet(pad) && Replay(g, blocks + pad).Ok? && t !in voted
    requires |blocks| < t <= |blocks + pad| < t + g.params.epoch && t % g.params.epoch == 0
    requires v in LedgerAt(g, blocks + pad).state.accounts.stakes
    ensures var vote := VoteFor(LedgerAt(g, blocks + pad), g.params.epoch, v, voted);
            vote.Some? && vote.value.th == t && vote == VoteFor(LedgerAt(g, blocks + pad), g.params.epoch, v, {})
  {
    hide Replay;
    hide TargetIn;
    hide SourceIn;
    var l := LedgerAt(g, blocks + pad);
    ReplayChain(g, blocks + pad);
    PadKeeps(g, blocks, pad);
    FinalizedWithin(g, blocks);
    LatestTarget(l.chain, g.params.epoch, t);
    SourceHighest(l.chain, l, g.params.epoch, t);
  }
}
