/** p2p.py's automatic voter: one vote per target height, from the highest justified checkpoint. On a
    canonical chain that only grows it never commits a slashable fault; on any ledgers, exactly when one
    clashes with an earlier vote. */
module AutoVoter {
  import opened Sums
  import opened Arithmetic
  import opened Records
  import opened Ledger
  import opened Runs
  import opened Justification
  import opened History

  /** The height of the latest checkpoint above genesis. */
  function TargetIn(chain: seq<Block>, epoch: int): (r: Option<nat>)
    requires epoch != 0
    ensures r.Some? ==> r.value < |chain|
  {
    if chain == [] then None else
      var last := |chain| - 1;
      if chain[last].header.index > 0 && chain[last].header.index % epoch == 0 then Some(last)
      else TargetIn(chain[..last], epoch)
  }

  /** The source scan: start at the finalized checkpoint and rise through the justified ones below target. */
  function SourceIn(chain: seq<Block>, l: Ledger, epoch: int, target: int): Checkpoint
    requires epoch != 0
  {
    if chain == [] then l.state.ffg.finalized else
      var src := SourceIn(chain[..|chain| - 1], l, epoch, target);
      var b := chain[|chain| - 1];
      if b.header.index < target && b.header.index % epoch == 0 && BlockHash(b) in l.state.ffg.justified
         && b.header.index >= src.height
      then Checkpoint(BlockHash(b), b.header.index) else src
  }

  /** The link the voter would cast now, given the target heights it has voted for. */
  function VoteFor(l: Ledger, epoch: int, me: Address, voted: set<int>): Option<Link>
    requires epoch != 0
  {
    var target := TargetIn(l.chain, epoch);
    if me !in l.state.accounts.stakes || target.None? then None else
      var b := l.chain[target.value];
      var src := SourceIn(l.chain, l, epoch, b.header.index);
      if b.header.index in voted || src.height >= b.header.index then None
      else Some(Link(src.hash, src.height, BlockHash(b), b.header.index))
  }

  /** The reversed scan for the target. */
  method FindTarget(chain: seq<Block>, epoch: int) returns (r: Option<nat>)
    requires epoch != 0
    ensures r == TargetIn(chain, epoch)
  {
    var t := |chain|;
    assert chain[..t] == chain;
    while t > 0
      invariant 0 <= t <= |chain|
      invariant TargetIn(chain[..t], epoch) == TargetIn(chain, epoch)
    {
      var b := chain[t - 1];
      assert chain[..t][..t - 1] == chain[..t - 1];
      if b.header.index > 0 && b.header.index % epoch == 0 {
        return Some(t - 1);
      }
      t := t - 1;
    }
    r := None;
  }

  /** The forward scan for the source. */
  method FindSource(l: Ledger, epoch: int, target: int) returns (src: Checkpoint)
    requires epoch != 0
    ensures src == SourceIn(l.chain, l, epoch, target)
  {
    src := l.state.ffg.finalized;
    var i := 0;
    while i < |l.chain|
      invariant 0 <= i <= |l.chain|
      invariant src == SourceIn(l.chain[..i], l, epoch, target)
    {
      var b := l.chain[i];
      assert l.chain[..i + 1][..i] == l.chain[..i];
      if b.header.index < target && b.header.index % epoch == 0
         && BlockHash(b) in l.state.ffg.justified && b.header.index >= src.height {
        src := Checkpoint(BlockHash(b), b.header.index);
      }
      i := i + 1;
    }
    assert l.chain[..|l.chain|] == l.chain;
  }

  /** `auto_vote` up to the submission. */
  method ChooseVote(l: Ledger, epoch: int, me: Address, voted: set<int>) returns (r: Option<Link>)
    requires epoch != 0
    ensures r == VoteFor(l, epoch, me, voted)
  {
    hide TargetIn;
    hide SourceIn;
    if me !in l.state.accounts.stakes {
      return None;
    }
    var t := FindTarget(l.chain, epoch);
    if t.None? {
      return None;
    }
    var target := l.chain[t.value];
    if target.header.index in voted {
      return None;
    }
    var src := FindSource(l, epoch, target.header.index);
    if src.height >= target.header.index {
      return None;
    }
    r := Some(Link(src.hash, src.height, BlockHash(target), target.header.index));
  }

  // -- growth ----------------------------------------------------------------------------------

  lemma {:induction false} TargetGrows(chain: seq<Block>, k: nat, epoch: int)
    requires epoch != 0 && k <= |chain|
    ensures TargetIn(chain[..k], epoch).Some? ==>
              TargetIn(chain, epoch).Some? && TargetIn(chain[..k], epoch).value <= TargetIn(chain, epoch).value
  {
    if k == |chain| {
      assert chain[..k] == chain;
    } else {
      var last := |chain| - 1;
      assert chain[..last][..k] == chain[..k];
      TargetGrows(chain[..last], k, epoch);
    }
  }

  /** b is a justified checkpoint below target. */
  predicate Candidate(l: Ledger, epoch: int, target: int, b: Block)
    requires epoch != 0
  {
    b.header.index < target && b.header.index % epoch == 0 && BlockHash(b) in l.state.ffg.justified
  }

  /** The scan ends at least as high as finality and every candidate, and at one of them. */
  lemma {:induction false} SourceHighest(chain: seq<Block>, l: Ledger, epoch: int, target: int)
    requires epoch != 0
    ensures var src := SourceIn(chain, l, epoch, target);
            && l.state.ffg.finalized.height <= src.height
            && (forall i :: 0 <= i < |chain| && Candidate(l, epoch, target, chain[i]) ==>
                  chain[i].header.index <= src.height)
            && (src == l.state.ffg.finalized || SourceFound(chain, l, epoch, target, src))
  {
    if chain != [] {
      var front := chain[..|chain| - 1];
      SourceHighest(front, l, epoch, target);
      var src := SourceIn(chain, l, epoch, target);
      if SourceFound(front, l, epoch, target, src) {
        var i :| 0 <= i < |front| && Candidate(l, epoch, target, front[i])
                 && src == Checkpoint(BlockHash(front[i]), front[i].header.index);
        assert chain[i] == front[i];
      }
      forall i | 0 <= i < |chain| && Candidate(l, epoch, target, chain[i]) ensures chain[i].header.index <= src.height {
        if i < |front| { assert front[i] == chain[i]; }
      }
    }
  }

  ghost predicate SourceFound(chain: seq<Block>, l: Ledger, epoch: int, target: int, src: Checkpoint)
    requires epoch != 0
  {
    exists i :: 0 <= i < |chain| && Candidate(l, epoch, target, chain[i])
                && src == Checkpoint(BlockHash(chain[i]), chain[i].header.index)
  }

  // -- two votes -------------------------------------------------------------------------------

  /** Everything the source scan of m can end at lies below height h: its finalized checkpoint and every
      justified checkpoint of its chain below the target. */
  ghost predicate SourcesBelow(m: Ledger, epoch: int, target: int, h: int)
    requires epoch != 0
  {
    && m.state.ffg.finalized.height < h
    && forall i :: 0 <= i < |m.chain| && Candidate(m, epoch, target, m.chain[i]) ==> m.chain[i].header.index < h
  }

  /** Voting on m after having cast k is a fault: a target above k's while everything m can start from lies
      below k's source, or a target below k's while m can start from above it. It reads the earlier vote and
      the ledger, not the vote to come. */
  ghost predicate Clashes(k: Link, m: Ledger, epoch: int)
    requires epoch != 0 && TargetIn(m.chain, epoch).Some?
  {
    var target := m.chain[TargetIn(m.chain, epoch).value].header.index;
    if k.th < target then SourcesBelow(m, epoch, target, k.sh)
    else target < k.th && !SourcesBelow(m, epoch, target, k.sh + 1)
  }

  /** On any ledger, after any earlier vote it remembers, the voter never doubles, and it surrounds exactly
      when the ledger clashes with that vote. */
  lemma VoteClashesExactly(k: Link, m: Ledger, epoch: int, me: Address, voted: set<int>)
    requires epoch != 0
    requires VoteFor(m, epoch, me, voted).Some? && k.th in voted
    ensures var n := VoteFor(m, epoch, me, voted).value;
            && !DoubleVote(k, n) && !DoubleVote(n, k)
            && (SurroundVote(k, n) <==> Clashes(k, m, epoch))
  {
    hide SourceIn;
    hide TargetIn;
    hide Candidate;
    var target := m.chain[TargetIn(m.chain, epoch).value].header.index;
    var src := SourceIn(m.chain, m, epoch, target);
    SourceHighest(m.chain, m, epoch, target);
    if src != m.state.ffg.finalized {
      var i :| 0 <= i < |m.chain| && Candidate(m, epoch, target, m.chain[i])
               && src == Checkpoint(BlockHash(m.chain[i]), m.chain[i].header.index);
    }
  }

  // -- a lifetime ------------------------------------------------------------------------------

  /** One auto_vote call: the canonical ledger it saw, and whether the mempool took the vote. */
  datatype Call = Call(view: Ledger, submitted: bool)

  /** The target heights voted before the i-th call. */
  ghost function VotedBefore(epoch: int, me: Address, calls: seq<Call>, i: nat): set<int>
    requires epoch != 0 && i <= |calls|
    decreases i, 0
  {
    if i == 0 then {} else
      var earlier := VotedBefore(epoch, me, calls, i - 1);
      var vote := EmittedAt(epoch, me, calls, i - 1);
      if vote.Some? then earlier + {vote.value.th} else earlier
  }

  /** The vote the i-th call submits, if any. */
  ghost function EmittedAt(epoch: int, me: Address, calls: seq<Call>, i: nat): Option<Link>
    requires epoch != 0 && i < |calls|
    decreases i, 1
  {
    if !calls[i].submitted then None else VoteFor(calls[i].view, epoch, me, VotedBefore(epoch, me, calls, i))
  }

  lemma {:induction false} VotedAccumulates(epoch: int, me: Address, calls: seq<Call>, i: nat, j: nat)
    requires epoch != 0 && i < j <= |calls|
    ensures EmittedAt(epoch, me, calls, i).Some? ==>
              EmittedAt(epoch, me, calls, i).value.th in VotedBefore(epoch, me, calls, j)
    decreases j
  {
    hide EmittedAt;
    if i < j - 1 {
      VotedAccumulates(epoch, me, calls, i, j - 1);
    }
  }

  /** The signed transactions of a lifetime's votes. */
  ghost predicate Ballots(epoch: int, me: Address, calls: seq<Call>, ballots: seq<Tx>)
    requires epoch != 0
  {
    && |ballots| == |calls|
    && forall i :: 0 <= i < |calls| && EmittedAt(epoch, me, calls, i).Some? ==>
         IsVote(ballots[i]) && ballots[i].sender == me
         && ballots[i].evidence.link == EmittedAt(epoch, me, calls, i).value
  }

  /** Calls i and j both voted, and the ledger j saw clashes with the vote of i. */
  ghost predicate ClashAt(epoch: int, me: Address, calls: seq<Call>, i: nat, j: nat)
    requires epoch != 0 && i < |calls| && j < |calls|
  {
    && EmittedAt(epoch, me, calls, i).Some? && EmittedAt(epoch, me, calls, j).Some?
    && TargetIn(calls[j].view.chain, epoch).Some?
    && Clashes(EmittedAt(epoch, me, calls, i).value, calls[j].view, epoch)
  }

  /** For any calls on any ledgers, whatever branch switches lie between them, two votes convict the voter
      if and only if the ledger of the later call clashes with the earlier vote. */
  lemma FaultExactly(epoch: int, me: Address, calls: seq<Call>, ballots: seq<Tx>, i: nat, j: nat)
    requires epoch != 0 && i < j < |calls| && Ballots(epoch, me, calls, ballots)
    requires EmittedAt(epoch, me, calls, i).Some? && EmittedAt(epoch, me, calls, j).Some?
    ensures VerifyVoteFault(ballots[i], ballots[j]).Ok? <==> ClashAt(epoch, me, calls, i, j)
    ensures VerifyVoteFault(ballots[j], ballots[i]).Ok? <==> ClashAt(epoch, me, calls, i, j)
  {
    hide Clashes;
    hide TxValid;
    hide VotedBefore;
    hide TargetIn;
    hide SourceIn;
    VotedAccumulates(epoch, me, calls, i, j);
    VoteClashesExactly(EmittedAt(epoch, me, calls, i).value, calls[j].view, epoch, me,
                       VotedBefore(epoch, me, calls, j));
  }

  /** A pair of a lifetime's votes that the verifier accepts as a fault. */
  ghost predicate Convicted(epoch: int, me: Address, calls: seq<Call>, ballots: seq<Tx>)
    requires epoch != 0 && |ballots| == |calls|
  {
    exists i, j :: 0 <= i < j < |calls|
      && EmittedAt(epoch, me, calls, i).Some? && EmittedAt(epoch, me, calls, j).Some?
      && VerifyVoteFault(ballots[i], ballots[j]).Ok?
  }

  /** A whole lifetime is free of faults if and only if no call that voted saw a ledger that clashes with an
      earlier vote. */
  lemma LifetimeHonestExactly(epoch: int, me: Address, calls: seq<Call>, ballots: seq<Tx>)
    requires epoch != 0 && Ballots(epoch, me, calls, ballots)
    ensures Convicted(epoch, me, calls, ballots)
       <==> exists i, j :: 0 <= i < j < |calls| && ClashAt(epoch, me, calls, i, j)
  {
    hide EmittedAt;
    hide VerifyVoteFault;
    hide Clashes;
    if Convicted(epoch, me, calls, ballots) {
      var i, j :| 0 <= i < j < |calls|
        && EmittedAt(epoch, me, calls, i).Some? && EmittedAt(epoch, me, calls, j).Some?
        && VerifyVoteFault(ballots[i], ballots[j]).Ok?;
      FaultExactly(epoch, me, calls, ballots, i, j);
    }
    if i, j :| 0 <= i < j < |calls| && ClashAt(epoch, me, calls, i, j) {
      FaultExactly(epoch, me, calls, ballots, i, j);
    }
  }

  // -- a canonical chain that only grows ---------------------------------------------------------

  /** A later ledger of the same chain: nothing unjustified, finality not lower, the chain a prefix. */
  ghost predicate Extends(l: Ledger, m: Ledger) {
    && l.chain <= m.chain
    && l.state.ffg.justified <= m.state.ffg.justified
    && l.state.ffg.finalized.height <= m.state.ffg.finalized.height
    && (forall i :: 0 <= i < |m.chain| ==> m.chain[i].header.index == i)
  }

  lemma ReplayExtends(g: GenesisArgs, blocks: seq<Block>, k: nat)
    requires Replay(g, blocks).Ok? && k <= |blocks|
    ensures Replay(g, blocks[..k]).Ok? && Extends(LedgerAt(g, blocks[..k]), LedgerAt(g, blocks))
  {
    hide Replay;
    ReplayPrefix(g, blocks, k);
    ReplayChain(g, blocks);
    FinalityMonotone(g, blocks, k);
  }

  /** On a later ledger of the same chain there is always a source no lower than the earlier vote's, and the
      target is no lower, so nothing clashes. */
  lemma GrowthNeverClashes(l: Ledger, m: Ledger, epoch: int, me: Address, voted: set<int>)
    requires epoch != 0 && Extends(l, m)
    requires VoteFor(l, epoch, me, voted).Some?
    ensures TargetIn(m.chain, epoch).Some? && !Clashes(VoteFor(l, epoch, me, voted).value, m, epoch)
  {
    hide SourceIn;
    hide TargetIn;
    var k := VoteFor(l, epoch, me, voted).value;
    TargetGrows(m.chain, |l.chain|, epoch);
    assert m.chain[..|l.chain|] == l.chain;
    var t, u := TargetIn(l.chain, epoch).value, TargetIn(m.chain, epoch).value;
    assert l.chain[t] == m.chain[t];
    SourceHighest(l.chain, l, epoch, k.th);
    var src := SourceIn(l.chain, l, epoch, k.th);
    if src != l.state.ffg.finalized {
      var i :| 0 <= i < |l.chain| && Candidate(l, epoch, k.th, l.chain[i])
               && src == Checkpoint(BlockHash(l.chain[i]), l.chain[i].header.index);
      assert m.chain[i] == l.chain[i];
      assert Candidate(m, epoch, m.chain[u].header.index, m.chain[i]);
    }
  }

  /** Calls that saw ever longer prefixes of one chain: call i its first at[i] blocks. */
  ghost predicate Growing(g: GenesisArgs, blocks: seq<Block>, calls: seq<Call>, at: seq<nat>)
    requires Replay(g, blocks).Ok?
  {
    && |at| == |calls|
    && (forall i :: 0 <= i < |at| ==> at[i] <= |blocks| && Saw(g, blocks[..at[i]], calls[i].view))
    && (forall i, j :: 0 <= i < j < |at| ==> at[i] <= at[j])
  }

  ghost predicate Saw(g: GenesisArgs, blocks: seq<Block>, view: Ledger) {
    Replay(g, blocks) == Ok(view)
  }

  /** Honest automatic voter: for any interleaving of calls with growth of one canonical chain, within one
      process lifetime, no two of its votes form a fault that verify_vote_fault accepts. */
  lemma AutoVoterIsHonest(g: GenesisArgs, blocks: seq<Block>, me: Address, calls: seq<Call>, at: seq<nat>,
                          ballots: seq<Tx>)
    requires Replay(g, blocks).Ok? && Growing(g, blocks, calls, at)
    requires Ballots(g.params.epoch, me, calls, ballots)
    ensures !Convicted(g.params.epoch, me, calls, ballots)
  {
    hide Replay;
    hide Ballots;
    hide VotedBefore;
    hide VoteFor;
    hide Clashes;
    hide Convicted;
    hide Extends;
    LifetimeHonestExactly(g.params.epoch, me, calls, ballots);
    forall i, j | 0 <= i < j < |calls| ensures !ClashAt(g.params.epoch, me, calls, i, j) {
      if EmittedAt(g.params.epoch, me, calls, i).Some? {
        assert Saw(g, blocks[..at[i]], calls[i].view) && Saw(g, blocks[..at[j]], calls[j].view);
        ReplayExtends(g, blocks[..at[j]], at[i]);
        assert blocks[..at[j]][..at[i]] == blocks[..at[i]];
        GrowthNeverClashes(calls[i].view, calls[j].view, g.params.epoch, me, VotedBefore(g.params.epoch, me, calls, i));
      }
    }
  }

  // -- when it votes -----------------------------------------------------------------------------

  /** The only epoch boundary in [t, t + epoch) is t. */
  lemma OnlyBoundary(t: nat, n: nat, epoch: int)
    requires 0 < epoch && t % epoch == 0 && t <= n < t + epoch
    ensures n % epoch == 0 <==> n == t
  {
    var q := t / epoch;
    assert t == q * epoch + t % epoch;
    RemainderOf(q, n - t, epoch);
  }

  lemma {:induction false} LatestTarget(chain: seq<Block>, epoch: int, t: nat)
    requires 0 < epoch && t % epoch == 0 && 0 < t < |chain| <= t + epoch
    requires forall i :: 0 <= i < |chain| ==> chain[i].header.index == i
    ensures TargetIn(chain, epoch) == Some(t)
  {
    var last := |chain| - 1;
    OnlyBoundary(t, last, epoch);
    if last != t {
      LatestTarget(chain[..last], epoch, t);
    }
  }

  lemma {:induction false} NoTarget(chain: seq<Block>, epoch: int)
    requires 0 < epoch && |chain| <= epoch
    requires forall i :: 0 <= i < |chain| ==> chain[i].header.index == i
    ensures TargetIn(chain, epoch).None?
  {
    if chain != [] {
      RemainderOf(0, |chain| - 1, epoch);
      NoTarget(chain[..|chain| - 1], epoch);
    }
  }

  /** The latest epoch boundary at or below n. */
  function Boundary(n: nat, epoch: int): (t: int)
    requires 0 < epoch
    ensures 0 <= t <= n < t + epoch
  {
    n - n % epoch
  }

  lemma BoundaryAligned(n: nat, epoch: int)
    requires 0 < epoch
    ensures Boundary(n, epoch) % epoch == 0
  {
    var q := n / epoch;
    assert n == q * epoch + n % epoch;
    RemainderOf(q, 0, epoch);
  }

  /** On every reachable ledger the voter votes exactly when it has stake, the chain has passed a boundary above
      genesis and above finality, and it has not voted for that boundary; then for that boundary, from the
      finalized checkpoint or a justified one of its chain, such that no justified one below the target is
      higher. */
  lemma VotesExactlyWhen(g: GenesisArgs, blocks: seq<Block>, me: Address, voted: set<int>)
    requires Replay(g, blocks).Ok?
    ensures var l, t := LedgerAt(g, blocks), Boundary(|blocks|, g.params.epoch);
            var vote := VoteFor(l, g.params.epoch, me, voted);
            && (vote.Some? <==> && me in l.state.accounts.stakes && 0 < t && t !in voted
                                && l.state.ffg.finalized.height < t)
            && (vote.Some? ==> && vote.value.th == t && vote.value.t == BlockHash(l.chain[t])
                               && FromHighest(l, t, g.params.epoch, vote.value.s, vote.value.sh))
  {
    hide Replay;
    hide SourceIn;
    hide TargetIn;
    var l, e := LedgerAt(g, blocks), g.params.epoch;
    var t := Boundary(|blocks|, e);
    BoundaryAligned(|blocks|, e);
    ReplayChain(g, blocks);
    if t == 0 {
      NoTarget(l.chain, e);
    } else {
      LatestTarget(l.chain, e, t);
      SourceHighest(l.chain, l, e, t);
    }
  }

  /** (s, sh) is finalized or a justified checkpoint of the chain below t, and none of these is higher. */
  ghost predicate FromHighest(l: Ledger, t: int, epoch: int, s: Hash, sh: int)
    requires 0 < epoch && t <= |l.chain|
  {
    && l.state.ffg.finalized.height <= sh
    && (forall i :: 0 <= i < t && i % epoch == 0 && BlockHash(l.chain[i]) in l.state.ffg.justified ==> i <= sh)
    && (Checkpoint(s, sh) == l.state.ffg.finalized
        || (0 <= sh < t && sh % epoch == 0 && s == BlockHash(l.chain[sh]) && s in l.state.ffg.justified))
  }

  // -- the vote on its chain ---------------------------------------------------------------------

  /** The source and target of an emitted vote are checkpoints of the chain, the source a justified one. */
  lemma EmittedLink(g: GenesisArgs, blocks: seq<Block>, me: Address, voted: set<int>)
    requires Replay(g, blocks).Ok?
    requires VoteFor(LedgerAt(g, blocks), g.params.epoch, me, voted).Some?
    ensures var l, k := LedgerAt(g, blocks), VoteFor(LedgerAt(g, blocks), g.params.epoch, me, voted).value;
            && IsCheckpoint(g.params, l.chain, k.s, k.sh) && IsCheckpoint(g.params, l.chain, k.t, k.th)
            && k.sh < k.th && k.s in l.state.ffg.justified
  {
    hide Replay;
    hide SourceIn;
    var l := LedgerAt(g, blocks);
    ReplayChain(g, blocks);
    ReplayAnchored(g, blocks);
    TargetAligned(l.chain, g.params.epoch);
    var t := TargetIn(l.chain, g.params.epoch).value;
    hide TargetIn;
    SourceHighest(l.chain, l, g.params.epoch, t);
  }

  lemma {:induction false} TargetAligned(chain: seq<Block>, epoch: int)
    requires epoch != 0 && TargetIn(chain, epoch).Some?
    ensures chain[TargetIn(chain, epoch).value].header.index % epoch == 0
  {
    var last := |chain| - 1;
    if !(chain[last].header.index > 0 && chain[last].header.index % epoch == 0) {
      TargetAligned(chain[..last], epoch);
    }
  }

  /** The chain accepts what the voter emits, exactly when it may: at any point of the next block of the ledger
      it voted on, the link is accepted if and only if the voter had stake when the source checkpoint was
      made, has not been slashed, and has no other link on record for that target. */
  lemma EmittedVoteAccepted(g: GenesisArgs, blocks: seq<Block>, me: Address, voted: set<int>, b: Block, n: nat)
    requires CollisionFree() && Replay(g, blocks).Ok?
    requires VoteFor(LedgerAt(g, blocks), g.params.epoch, me, voted).Some?
    requires b.header.index == |blocks| + 1 && n <= |b.txs|
    requires RunPrefix(g.params, LedgerAt(g, blocks), b, n).Ok?
    ensures var l := LedgerAt(g, blocks);
            var k := VoteFor(l, g.params.epoch, me, voted).value;
            var st := RunPrefix(g.params, l, b, n).value;
            && 0 <= k.sh <= |blocks| && (k.sh > 0 ==> Replay(g, blocks[..k.sh - 1]).Ok?)
            && (LinkAccepted(g.params, ContextOf(l, b), st, me, k) <==>
                  && 0 < Get(StakeFound(g, blocks, k.sh), me)
                  && me !in st.slashedAddrs
                  && ((me, k.th) in st.ffg.seenTarget ==> st.ffg.seenTarget[(me, k.th)] == (k.s, k.t)))
  {
    hide Replay;
    hide RunPrefix;
    hide VoteFor;
    hide CollisionFree;
    hide StakeFound;
    var k := VoteFor(LedgerAt(g, blocks), g.params.epoch, me, voted).value;
    ReplayChain(g, blocks);
    EmittedLink(g, blocks, me, voted);
    PrefixSnapshots(g, blocks, b, n, k.sh);
    PrefixSnapshots(g, blocks, b, n, k.th);
  }
}
