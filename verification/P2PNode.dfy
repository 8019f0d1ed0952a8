/** p2p.py's P2PNode, its message handlers as atomic steps: blocks whose parent is unknown wait in a
    buffer and are drained when the parent arrives; a validator votes automatically. */
module P2PNode {
  import opened Sums
  import opened Records
  import opened Ledger
  import opened ForkChoice
  import opened AutoVoter
  import BlockTree
  import Chain
  import Mempool
  import NodeService

  const MAX_ORPHANS: nat := 5_000

  /** The waiting blocks, by the parent they wait for. */
  type Orphans = map<Hash, seq<Block>>

  function Buffered(orphans: Orphans): set<Block> {
    set h, b | h in orphans && b in orphans[h] :: b
  }

  /** Some wait although their parent is in the tree: the hashes of those parents. */
  ghost function Stranded(orphans: Orphans, stored: set<Hash>): set<Hash> {
    orphans.Keys * stored
  }

  /** What is still waited for is waited for by the same blocks. */
  ghost predicate SubBuffer(orphans: Orphans, before: Orphans) {
    forall h :: h in orphans ==> h in before && orphans[h] == before[h]
  }

  /** Adding a block puts its own hash into the tree, and no other. */
  lemma AfterBranches(c: Config, t: Tree, b: Block)
    requires ValidTree(c.genesis, t)
    ensures After(c, t, b).branches.Keys
         == if Add(c, t, b).Added? then t.branches.Keys + {BlockHash(b)} else t.branches.Keys
    ensures Add(c, t, b).Added? ==> BlockHash(b) !in t.branches
  {
    hide Admitted;
    hide ValidTree;
    hide Replay;
  }

  /** An insertion outside the block messages, such as a block this node produced itself, strands exactly the
      blocks that wait for it. */
  lemma InsertionStrandsExactly(c: Config, t: Tree, orphans: Orphans, b: Block)
    requires ValidTree(c.genesis, t)
    ensures Stranded(orphans, After(c, t, b).branches.Keys)
         == Stranded(orphans, t.branches.Keys)
            + (if Add(c, t, b).Added? && BlockHash(b) in orphans then {BlockHash(b)} else {})
  {
    hide BranchStored;
    hide Add;
    hide After;
    AfterBranches(c, t, b);
  }

  lemma BufferedAfterPush(orphans: Orphans, h: Hash, b: Block)
    ensures var next := orphans[h := (if h in orphans then orphans[h] else []) + [b]];
            Buffered(next) == Buffered(orphans) + {b}
  {
    var next := orphans[h := (if h in orphans then orphans[h] else []) + [b]];
    forall x | x in Buffered(orphans) + {b} ensures x in Buffered(next) {
      if x == b {
        assert b in next[h];
      } else {
        var k :| k in orphans && x in orphans[k];
        assert x in next[k];
      }
    }
    forall x | x in Buffered(next) ensures x in Buffered(orphans) + {b} {
      var k :| k in next && x in next[k];
      if x != b {
        assert k in orphans && x in orphans[k];
      }
    }
  }

  // -- what the offered blocks do to the tree ------------------------------------------------------

  /** The tree after a list of blocks was offered to it. */
  ghost function Offered(c: Config, t: Tree, bs: seq<Block>): (r: Tree)
    requires ValidTree(c.genesis, t)
    ensures ValidTree(c.genesis, r)
    decreases |bs|
  {
    if bs == [] then t else
      var before := Offered(c, t, bs[..|bs| - 1]);
      AfterKeepsValid(c, before, bs[|bs| - 1]);
      After(c, before, bs[|bs| - 1])
  }

  /** Those of them that were new and good, in order. */
  ghost function NewOnes(c: Config, t: Tree, bs: seq<Block>): seq<Block>
    requires ValidTree(c.genesis, t)
    decreases |bs|
  {
    if bs == [] then [] else
      var front, last := bs[..|bs| - 1], bs[|bs| - 1];
      NewOnes(c, t, front) + (if Add(c, Offered(c, t, front), last).Added? then [last] else [])
  }

  lemma OfferOne(c: Config, t: Tree, bs: seq<Block>, b: Block)
    requires ValidTree(c.genesis, t)
    ensures Offered(c, t, bs + [b]) == After(c, Offered(c, t, bs), b)
    ensures NewOnes(c, t, bs + [b])
         == NewOnes(c, t, bs) + (if Add(c, Offered(c, t, bs), b).Added? then [b] else [])
  {
    hide ValidTree;
    hide After;
    hide Add;
    assert (bs + [b])[..|bs|] == bs;
  }

  lemma OfferNone(c: Config, t: Tree)
    requires ValidTree(c.genesis, t)
    ensures Offered(c, t, []) == t && NewOnes(c, t, []) == []
  {
    hide ValidTree;
  }

  lemma {:induction false} OfferMore(c: Config, t: Tree, bs: seq<Block>, more: seq<Block>)
    requires ValidTree(c.genesis, t)
    ensures Offered(c, t, bs + more) == Offered(c, Offered(c, t, bs), more)
    ensures NewOnes(c, t, bs + more) == NewOnes(c, t, bs) + NewOnes(c, Offered(c, t, bs), more)
    decreases |more|
  {
    hide ValidTree;
    hide After;
    hide Add;
    hide Offered;
    hide NewOnes;
    if more == [] {
      assert bs + more == bs;
      OfferNone(c, Offered(c, t, bs));
    } else {
      var less, last := more[..|more| - 1], more[|more| - 1];
      OfferMore(c, t, bs, less);
      OfferOne(c, t, bs + less, last);
      OfferOne(c, Offered(c, t, bs), less, last);
      assert bs + less + [last] == bs + more && less + [last] == more;
    }
  }

  /** From tree t and log: offering done gave this tree, and appended the new ones to the log. */
  ghost predicate Progress(c: Config, t: Tree, log: seq<Block>, done: seq<Block>, tree: Tree, store: seq<Block>) {
    && ValidTree(c.genesis, t)
    && tree == Offered(c, t, done) && store == log + NewOnes(c, t, done)
    && t.branches.Keys <= tree.branches.Keys
  }

  lemma ProgressNone(c: Config, t: Tree, log: seq<Block>)
    requires ValidTree(c.genesis, t)
    ensures Progress(c, t, log, [], t, log)
  {
    hide ValidTree;
    OfferNone(c, t);
  }

  lemma ProgressOne(c: Config, t: Tree, log: seq<Block>, done: seq<Block>, tree: Tree, store: seq<Block>, b: Block)
    requires Progress(c, t, log, done, tree, store)
    ensures tree.finalized.hash in tree.branches
    ensures Progress(c, t, log, done + [b], After(c, tree, b), store + (if Add(c, tree, b).Added? then [b] else []))
    ensures After(c, tree, b).branches.Keys
         == tree.branches.Keys + (if Add(c, tree, b).Added? then {BlockHash(b)} else {})
    ensures Add(c, tree, b).Added? ==> BlockHash(b) !in tree.branches.Keys
  {
    hide BranchStored;
    hide After;
    hide Add;
    hide Offered;
    hide NewOnes;
    OfferOne(c, t, done, b);
    AfterBranches(c, tree, b);
  }

  lemma ProgressFirst(c: Config, t: Tree, log: seq<Block>, b: Block)
    requires ValidTree(c.genesis, t)
    ensures t.finalized.hash in t.branches
    ensures Progress(c, t, log, [b], After(c, t, b), if Add(c, t, b).Added? then log + [b] else log)
    ensures Add(c, t, b).Added? ==>
              After(c, t, b).branches.Keys == t.branches.Keys + {BlockHash(b)} && BlockHash(b) !in t.branches.Keys
    ensures !Add(c, t, b).Added? ==> After(c, t, b).branches.Keys == t.branches.Keys
  {
    hide Progress;
    hide After;
    hide Add;
    ProgressNone(c, t, log);
    ProgressOne(c, t, log, [], t, log, b);
    assert [] + [b] == [b] && log + [] == log;
  }

  lemma ProgressKeys(c: Config, t: Tree, log: seq<Block>, done: seq<Block>, tree: Tree, store: seq<Block>)
    requires Progress(c, t, log, done, tree, store)
    ensures t.branches.Keys <= tree.branches.Keys
  {
  }

  lemma ProgressMore(c: Config, t: Tree, log: seq<Block>, done: seq<Block>, tree: Tree, store: seq<Block>,
                     more: seq<Block>, next: Tree, nextStore: seq<Block>)
    requires Progress(c, t, log, done, tree, store) && Progress(c, tree, store, more, next, nextStore)
    ensures Progress(c, t, log, done + more, next, nextStore)
  {
    hide ValidTree;
    hide Offered;
    hide NewOnes;
    OfferMore(c, t, done, more);
  }

  /** x was waiting and is not any more. */
  ghost predicate TakenOut(before: Orphans, after: Orphans, x: Block) {
    exists h :: h in before && h !in after && x in before[h]
  }

  /** The waiting blocks that were taken out are among bs, and bs holds nothing else. */
  ghost predicate AllTakenOut(before: Orphans, after: Orphans, bs: seq<Block>) {
    forall x :: TakenOut(before, after, x) ==> x in bs
  }

  ghost predicate OnlyTakenOut(before: Orphans, after: Orphans, bs: seq<Block>) {
    forall x :: x in bs ==> TakenOut(before, after, x)
  }

  lemma TakeMore(before: Orphans, mid: Orphans, after: Orphans, bs: seq<Block>, more: seq<Block>)
    requires SubBuffer(mid, before) && SubBuffer(after, mid)
    ensures SubBuffer(after, before)
    ensures OnlyTakenOut(before, mid, bs) && OnlyTakenOut(mid, after, more) ==> OnlyTakenOut(before, after, bs + more)
    ensures AllTakenOut(before, mid, bs) && AllTakenOut(mid, after, more) ==> AllTakenOut(before, after, bs + more)
  {
    forall x | TakenOut(before, after, x) ensures TakenOut(before, mid, x) || TakenOut(mid, after, x) {
      var h :| h in before && h !in after && x in before[h];
      if h in mid {
        assert mid[h] == before[h];
      }
    }
    forall x | TakenOut(before, mid, x) || TakenOut(mid, after, x) ensures TakenOut(before, after, x) {
      if TakenOut(before, mid, x) {
        var h :| h in before && h !in mid && x in before[h];
        assert h !in after;
      } else {
        var h :| h in mid && h !in after && x in mid[h];
        assert h in before && before[h] == mid[h];
      }
    }
  }

  /** The queues of start that wait for h or for what is newly stored were taken out, and no others; done holds
      only blocks taken out, and with rest, when complete, all of them. */
  ghost predicate Drained(start: Orphans, orphans: Orphans, h: Hash, before: set<Hash>, after: set<Hash>,
                          done: seq<Block>, rest: seq<Block>, complete: bool) {
    && SubBuffer(orphans, start) && orphans.Keys == start.Keys - {h} - (after - before)
    && OnlyTakenOut(start, orphans, done)
    && (complete ==> AllTakenOut(start, orphans, done + rest))
  }

  lemma DrainNone(orphans: Orphans, h: Hash, stored: set<Hash>)
    requires h !in orphans
    ensures Drained(orphans, orphans, h, stored, stored, [], [], true)
  {
  }

  /** Popping one queue takes out exactly its blocks. */
  lemma DrainPop(orphans: Orphans, h: Hash, stored: set<Hash>)
    requires h in orphans
    ensures Drained(orphans, orphans - {h}, h, stored, stored, [], orphans[h][0..], true)
  {
    assert [] + orphans[h][0..] == orphans[h];
  }

  lemma DrainOffer(start: Orphans, orphans: Orphans, h: Hash, before: set<Hash>, after: set<Hash>, done: seq<Block>,
                   waiting: seq<Block>, i: nat)
    requires h in start && start[h] == waiting && i < |waiting|
    requires Drained(start, orphans, h, before, after, done, waiting[i..], true)
    ensures Drained(start, orphans, h, before, after, done + [waiting[i]], waiting[i + 1..], true)
    ensures Drained(start, orphans, h, before, after, done + [waiting[i]], [], false)
  {
    assert done + [waiting[i]] + waiting[i + 1..] == done + waiting[i..];
    assert TakenOut(start, orphans, waiting[i]);
  }

  /** Draining for a newly stored block continues the draining for h. */
  lemma DrainMore(start: Orphans, mid: Orphans, orphans: Orphans, h: Hash, k: Hash, before: set<Hash>, now: set<Hash>,
                  after: set<Hash>, done: seq<Block>, rest: seq<Block>, more: seq<Block>, complete: bool)
    requires Drained(start, mid, h, before, now - {k}, done, rest, true)
    requires Drained(mid, orphans, k, now, after, more, [], complete)
    requires before <= now - {k} && k in now && now <= after
    ensures Drained(start, orphans, h, before, after, done + more, if complete then rest else [], complete)
  {
    hide OnlyTakenOut;
    hide AllTakenOut;
    assert more + [] == more;
    TakeMore(start, mid, orphans, done, more);
    TakeMore(start, mid, orphans, done + rest, more);
    if complete {
      Reorder(start, orphans, done, rest, more);
    }
  }

  lemma Reorder(start: Orphans, orphans: Orphans, done: seq<Block>, rest: seq<Block>, more: seq<Block>)
    requires AllTakenOut(start, orphans, done + rest + more)
    ensures AllTakenOut(start, orphans, done + more + rest)
  {
    hide TakenOut;
  }

  lemma DrainedShrinks(start: Orphans, orphans: Orphans, h: Hash, before: set<Hash>, after: set<Hash>,
                       done: seq<Block>, rest: seq<Block>, complete: bool)
    requires h in start && Drained(start, orphans, h, before, after, done, rest, complete)
    ensures orphans.Keys < start.Keys
  {
    hide OnlyTakenOut;
    hide AllTakenOut;
    assert h !in orphans.Keys;
  }

  /** Draining for h is under way since tree t, log and buffer start: done was offered, and rest still will be. */
  ghost predicate Underway(c: Config, t: Tree, log: seq<Block>, start: Orphans, h: Hash, done: seq<Block>,
                           tree: Tree, store: seq<Block>, orphans: Orphans, rest: seq<Block>, complete: bool) {
    && Progress(c, t, log, done, tree, store)
    && Drained(start, orphans, h, t.branches.Keys, tree.branches.Keys, done, rest, complete)
  }

  /** The last block offered was accepted, and its own queue has still to be drained. */
  ghost predicate Stored(c: Config, t: Tree, log: seq<Block>, start: Orphans, h: Hash, done: seq<Block>,
                         k: Hash, next: Tree, store: seq<Block>, orphans: Orphans, rest: seq<Block>) {
    && Progress(c, t, log, done, next, store)
    && k !in t.branches.Keys && k in next.branches.Keys
    && Drained(start, orphans, h, t.branches.Keys, next.branches.Keys - {k}, done, rest, true)
  }

  lemma StepOffer(c: Config, t: Tree, log: seq<Block>, start: Orphans, h: Hash, done: seq<Block>,
                  tree: Tree, store: seq<Block>, orphans: Orphans, waiting: seq<Block>, i: nat)
    requires h in start && start[h] == waiting && i < |waiting|
    requires Underway(c, t, log, start, h, done, tree, store, orphans, Tail(waiting, i), true)
    ensures tree.finalized.hash in tree.branches
    ensures var b, more, rest := waiting[i], done + [waiting[i]], Tail(waiting, i + 1);
            var next := After(c, tree, b);
            if Add(c, tree, b).Added?
            then Stored(c, t, log, start, h, more, BlockHash(b), next, store + [b], orphans, rest)
            else && Underway(c, t, log, start, h, more, next, store, orphans, rest, true)
                 && Underway(c, t, log, start, h, more, next, store, orphans, [], false)
  {
    hide Progress;
    hide Drained;
    hide After;
    hide Add;
    var b := waiting[i];
    ProgressKeys(c, t, log, done, tree, store);
    ProgressOne(c, t, log, done, tree, store, b);
    DrainOffer(start, orphans, h, t.branches.Keys, tree.branches.Keys, done, waiting, i);
    assert store + [] == store;
    if Add(c, tree, b).Added? {
      assert After(c, tree, b).branches.Keys - {BlockHash(b)} == tree.branches.Keys;
    } else {
      assert After(c, tree, b).branches.Keys == tree.branches.Keys;
    }
  }

  lemma StepDrain(c: Config, t: Tree, log: seq<Block>, start: Orphans, h: Hash, done: seq<Block>,
                  k: Hash, next: Tree, store: seq<Block>, mid: Orphans, rest: seq<Block>,
                  more: seq<Block>, last: Tree, lastStore: seq<Block>, orphans: Orphans, complete: bool)
    requires h in start && Stored(c, t, log, start, h, done, k, next, store, mid, rest)
    requires Underway(c, next, store, mid, k, more, last, lastStore, orphans, [], complete)
    ensures Underway(c, t, log, start, h, done + more, last, lastStore, orphans, if complete then rest else [],
                     complete)
    ensures orphans.Keys < start.Keys
  {
    hide Progress;
    hide Drained;
    ProgressKeys(c, t, log, done, next, store);
    ProgressKeys(c, next, store, more, last, lastStore);
    ProgressMore(c, t, log, done, next, store, more, last, lastStore);
    DrainMore(start, mid, orphans, h, k, t.branches.Keys, next.branches.Keys, last.branches.Keys, done, rest, more,
              complete);
    DrainedShrinks(start, orphans, h, t.branches.Keys, last.branches.Keys, done + more, if complete then rest else [],
                   complete);
  }

  lemma DrainStart(c: Config, t: Tree, log: seq<Block>, start: Orphans, h: Hash)
    requires ValidTree(c.genesis, t)
    ensures h !in start ==> Underway(c, t, log, start, h, [], t, log, start, [], true)
    ensures h in start ==>
              && Underway(c, t, log, start, h, [], t, log, start - {h}, Tail(start[h], 0), true)
              && Tail(start[h], |start[h]|) == []
              && (start - {h}).Keys < start.Keys
  {
    hide Progress;
    hide Drained;
    hide ValidTree;
    ProgressNone(c, t, log);
    if h in start {
      DrainPop(start, h, t.branches.Keys);
      DrainedShrinks(start, start - {h}, h, t.branches.Keys, t.branches.Keys, [], start[h][0..], true);
    } else {
      DrainNone(start, h, t.branches.Keys);
    }
  }

  /** What was offered since. */
  function Since(offers: seq<Block>, offered: seq<Block>): seq<Block>
    requires offers <= offered
  {
    offered[|offers|..]
  }

  function Tail(waiting: seq<Block>, i: nat): seq<Block>
    requires i <= |waiting|
  {
    waiting[i..]
  }

  lemma SinceNow(offers: seq<Block>)
    ensures offers <= offers && Since(offers, offers) == []
  {
  }

  lemma SinceOne(offers: seq<Block>, offered: seq<Block>, b: Block)
    requires offers <= offered
    ensures offers <= offered + [b] && Since(offers, offered + [b]) == Since(offers, offered) + [b]
  {
  }

  lemma SinceMore(offers: seq<Block>, offered: seq<Block>, later: seq<Block>)
    requires offers <= offered <= later
    ensures offers <= later && Since(offers, later) == Since(offers, offered) + Since(offered, later)
  {
  }

  /** Exactly the queues that waited for newly stored parents were taken out; done holds only their blocks, and
      when complete all of them. */
  ghost predicate TookOut(start: Orphans, orphans: Orphans, before: set<Hash>, after: set<Hash>,
                          done: seq<Block>, complete: bool) {
    && SubBuffer(orphans, start) && orphans.Keys == start.Keys - (after - before)
    && OnlyTakenOut(start, orphans, done) && (complete ==> AllTakenOut(start, orphans, done))
  }

  lemma DrainedTook(start: Orphans, orphans: Orphans, k: Hash, before: set<Hash>, now: set<Hash>, after: set<Hash>,
                    done: seq<Block>, complete: bool)
    requires Drained(start, orphans, k, now, after, done, [], complete)
    requires now == before + {k} && k !in before && now <= after
    ensures TookOut(start, orphans, before, after, done, complete)
  {
    hide OnlyTakenOut;
    hide AllTakenOut;
    assert done + [] == done;
  }

  /** A message whose block was accepted, and everything drained for it. */
  lemma MessageDone(c: Config, t: Tree, log: seq<Block>, b: Block, next: Tree, nextLog: seq<Block>,
                    more: seq<Block>, last: Tree, lastLog: seq<Block>, start: Orphans, orphans: Orphans, complete: bool)
    requires Progress(c, t, log, [b], next, nextLog)
    requires next.branches.Keys == t.branches.Keys + {BlockHash(b)} && BlockHash(b) !in t.branches.Keys
    requires Underway(c, next, nextLog, start, BlockHash(b), more, last, lastLog, orphans, [], complete)
    ensures Progress(c, t, log, [b] + more, last, lastLog)
    ensures TookOut(start, orphans, t.branches.Keys, last.branches.Keys, more, complete)
  {
    hide Progress;
    hide Drained;
    hide TookOut;
    ProgressKeys(c, next, nextLog, more, last, lastLog);
    ProgressMore(c, t, log, [b], next, nextLog, more, last, lastLog);
    DrainedTook(start, orphans, BlockHash(b), t.branches.Keys, next.branches.Keys, last.branches.Keys, more, complete);
  }

  lemma NothingTook(orphans: Orphans, stored: set<Hash>, complete: bool)
    ensures TookOut(orphans, orphans, stored, stored, [], complete)
  {
  }

  lemma TookKeepsStranded(start: Orphans, orphans: Orphans, before: set<Hash>, after: set<Hash>,
                          done: seq<Block>, complete: bool)
    requires TookOut(start, orphans, before, after, done, complete) && before <= after
    ensures Stranded(orphans, after) == Stranded(start, before)
    ensures forall h :: h in Stranded(start, before) ==> h in orphans && orphans[h] == start[h]
  {
    hide OnlyTakenOut;
    hide AllTakenOut;
  }

  class P2PNode {
    const service: NodeService.NodeService
    var orphans: Orphans
    /** Every block handed to the tree so far, in order. */
    ghost var offered: seq<Block>
    var votedTargets: set<int>

    constructor (s: NodeService.NodeService)
      ensures service == s && orphans == map[] && votedTargets == {} && offered == []
    {
      service, orphans, votedTargets, offered := s, map[], {}, [];
    }

    /** `receive_block` on the service: the tree takes its step, the log and the pool follow. A refusal is a
        ValidationError or, as when a sender has no balance entry to debit, an exception of another class;
        which one is left open. */
    method Offer(b: Block) returns (accepted: bool, raised: bool)
      requires service.Valid()
      modifies this`offered, service, service.tree, service.tree.canonical, service.mempool
      ensures service.Valid()
      ensures service.tree.canonical == old(service.tree.canonical) || fresh(service.tree.canonical)
      ensures offered == old(offered) + [b]
      ensures service.tree.tree == After(service.config, old(service.tree.tree), b)
      ensures accepted <==> Add(service.config, old(service.tree.tree), b).Added?
      ensures raised ==> Add(service.config, old(service.tree.tree), b).Refused?
      ensures service.store == if accepted then old(service.store) + [b] else old(service.store)
      ensures service.mempool.pool
           == if accepted
              then Mempool.StillPending(old(service.mempool.pool),
                                        service.tree.canonical.View().state.accounts.nonces)
              else old(service.mempool.pool)
    {
      hide Genesis;
      hide ValidTree;
      hide Add;
      hide IsHead;
      hide RunAll;
      hide NodeService.LogReplays;
      hide BlockTree.Represents;
      var r := service.ReceiveBlock(b);
      offered := offered + [b];
      accepted := r.NewBlock?;
      raised := *;
      raised := raised && r.Error?;
    }

    /** `_drain_orphans`: the recursion ends because the set of waited-for parents shrinks. It takes out the
        queues that wait for parentHash and for what is newly stored, and no others, and offers their blocks to
        the tree; nobody is left waiting for what is newly stored, even when a stray exception cuts the loop
        short. Without one it offers every block it takes out. */
    method Drain(parentHash: Hash) returns (raised: bool)
      requires service.Valid()
      modifies this`orphans, this`offered, service, service.tree, service.tree.canonical, service.mempool
      ensures service.Valid()
      ensures service.tree.canonical == old(service.tree.canonical) || fresh(service.tree.canonical)
      ensures old(offered) <= offered
      ensures Underway(service.config, old(service.tree.tree), old(service.store), old(orphans), parentHash,
                       Since(old(offered), offered), service.tree.tree, service.store, orphans, [], !raised)
      decreases orphans.Keys
    {
      hide NodeService.NodeService.Valid;
      hide Mempool.StillPending;
      hide Chain.ProofOfStakeChain.View;
      hide Since;
      hide Tail;
      hide Underway;
      hide Stored;
      hide After;
      hide Add;
      hide ValidTree;
      ghost var start, t, log, offers := orphans, service.tree.tree, service.store, offered;
      TreeOfService();
      DrainStart(service.config, t, log, start, parentHash);
      SinceNow(offers);
      raised := false;
      if parentHash !in orphans {
        return;
      }
      var waiting := orphans[parentHash];
      orphans := orphans - {parentHash};
      var i := 0;
      while i < |waiting|
        invariant 0 <= i <= |waiting| && !raised
        invariant service.Valid()
        invariant service.tree.canonical == old(service.tree.canonical) || fresh(service.tree.canonical)
        invariant offers <= offered && orphans.Keys < start.Keys
        invariant Underway(service.config, t, log, start, parentHash, Since(offers, offered), service.tree.tree,
                           service.store, orphans, Tail(waiting, i), true)
      {
        ghost var mid, b, sofar := orphans, waiting[i], offered;
        StepOffer(service.config, t, log, start, parentHash, Since(offers, sofar), service.tree.tree, service.store,
                  orphans, waiting, i);
        SinceOne(offers, sofar, b);
        var accepted, stray := Offer(waiting[i]);
        if stray {
          return true;
        }
        if accepted {
          ghost var next, nextLog, done := service.tree.tree, service.store, offered;
          raised := Drain(BlockHash(waiting[i]));
          SinceMore(offers, done, offered);
          StepDrain(service.config, t, log, start, parentHash, Since(offers, done), BlockHash(b), next, nextLog, mid,
                    Tail(waiting, i + 1), Since(done, offered), service.tree.tree, service.store, orphans, !raised);
          if raised {
            return;
          }
        }
        i := i + 1;
      }
    }

    lemma TreeOfService()
      requires service.Valid()
      ensures ValidTree(service.config.genesis, service.tree.tree)
    {
      hide NodeService.LogReplays;
      hide BlockTree.Represents;
    }

    /** The message of a block whose parent is known: offer it, then drain for it. */
    method ApplyKnown(b: Block) returns (raised: bool)
      requires service.Valid()
      modifies this`orphans, this`offered, service, service.tree, service.tree.canonical, service.mempool
      ensures service.Valid()
      ensures old(offered) <= offered
      ensures var done := Since(old(offered), offered);
              && Progress(service.config, old(service.tree.tree), old(service.store), done,
                          service.tree.tree, service.store)
              && done != [] && done[0] == b
              && TookOut(old(orphans), orphans, old(service.tree.tree).branches.Keys,
                         service.tree.tree.branches.Keys, done[1..], !raised)
    {
      hide NodeService.NodeService.Valid;
      hide Mempool.StillPending;
      hide Chain.ProofOfStakeChain.View;
      hide Progress;
      hide Underway;
      hide TookOut;
      hide After;
      hide Add;
      hide ValidTree;
      ghost var start, t, log, offers := orphans, service.tree.tree, service.store, offered;
      TreeOfService();
      ProgressFirst(service.config, t, log, b);
      var accepted, stray := Offer(b);
      ghost var next, nextLog, sofar := service.tree.tree, service.store, offered;
      raised := stray;
      SinceOne(offers, offers, b);
      SinceNow(offers);
      assert Since(offers, sofar) == [b];
      if accepted {
        raised := Drain(BlockHash(b));
        SinceMore(offers, sofar, offered);
        assert ([b] + Since(sofar, offered))[1..] == Since(sofar, offered);
        MessageDone(service.config, t, log, b, next, nextLog, Since(sofar, offered), service.tree.tree, service.store,
                    start, orphans, !raised);
      } else {
        NothingTook(start, t.branches.Keys, !raised);
        assert [b][1..] == [];
      }
    }

    /** `_apply_or_buffer`: a block message is offered to the tree when its parent is known, and so is everybody
        who waits for what it newly stores; it is buffered when the parent is unknown and there is room. It
        strands nobody and frees nobody already stranded: whoever waits for a parent that was in the tree
        before goes on waiting, in the same queue, because the parent's own echo is known and drains nothing.
        Only a stray exception leaves blocks that were taken out without an offer. */
    method ApplyOrBuffer(b: Block) returns (raised: bool)
      requires service.Valid()
      modifies this`orphans, this`offered, service, service.tree, service.tree.canonical, service.mempool
      ensures service.Valid()
      ensures old(offered) <= offered
      ensures var done := Since(old(offered), offered);
              Progress(service.config, old(service.tree.tree), old(service.store), done,
                       service.tree.tree, service.store)
      ensures old(b.header.previousHash in service.tree.tree.branches) ==>
                var done := Since(old(offered), offered);
                && done != [] && done[0] == b
                && TookOut(old(orphans), orphans, old(service.tree.tree).branches.Keys,
                           service.tree.tree.branches.Keys, done[1..], !raised)
      ensures old(b.header.previousHash !in service.tree.tree.branches) ==>
                && !raised && offered == old(offered) && service.tree.tree == old(service.tree.tree)
                && (if |old(orphans)| < MAX_ORPHANS then Buffered(orphans) == old(Buffered(orphans)) + {b}
                    else orphans == old(orphans))
      ensures Stranded(orphans, service.tree.tree.branches.Keys)
           == old(Stranded(orphans, service.tree.tree.branches.Keys))
      ensures forall h :: h in old(Stranded(orphans, service.tree.tree.branches.Keys)) ==>
                h in orphans && orphans[h] == old(orphans)[h]
    {
      hide Buffered;
      hide Progress;
      hide TookOut;
      hide ValidTree;
      hide NodeService.NodeService.Valid;
      ghost var start, t, log, offers := orphans, service.tree.tree, service.store, offered;
      var known := KnowsParent(b);
      if known {
        raised := ApplyKnown(b);
        ProgressKeys(service.config, t, log, Since(offers, offered), service.tree.tree, service.store);
        TookKeepsStranded(start, orphans, t.branches.Keys, service.tree.tree.branches.Keys,
                          Since(offers, offered)[1..], !raised);
      } else {
        TreeOfService();
        ProgressNone(service.config, t, log);
        SinceNow(offers);
        var ph := b.header.previousHash;
        if |orphans| < MAX_ORPHANS {
          BufferedAfterPush(orphans, ph, b);
          orphans := orphans[ph := (if ph in orphans then orphans[ph] else []) + [b]];
        }
        raised := false;
      }
    }

    /** The look-up of the parent among the weights. */
    method KnowsParent(b: Block) returns (known: bool)
      requires service.Valid()
      ensures known <==> b.header.previousHash in service.tree.tree.branches
    {
      hide NodeService.LogReplays;
      service.tree.RepresentsKeys();
      known := b.header.previousHash in service.tree.weight;
    }

    /** `auto_vote`: choose the link, sign a ballot without fee at the next free nonce, submit it. The target is
        remembered and the ballot is in the pool unless there was no link or the pool refused. */
    method AutoVote(me: Option<Address>, publicKey: nat, signature: nat) returns (vote: Option<Tx>)
      requires service.Valid()
      modifies this`votedTargets, service.mempool
      ensures service.Valid() && service.tree.tree == old(service.tree.tree)
      ensures var l, epoch := service.tree.canonical.View(), service.config.genesis.params.epoch;
              var link := if me.None? then None else VoteFor(l, epoch, me.value, old(votedTargets));
              if link.None? then vote.None? && service.mempool.pool == old(service.mempool.pool) else
                var tx := BallotFor(l, old(service.mempool.pool), me.value, link.value, publicKey, signature);
                var admission := Mempool.Admit(old(service.mempool.pool), l.state.accounts.nonces, tx);
                && vote == (if admission.NotAdmitted? then None else Some(tx))
                && service.mempool.pool == (if admission.Admitted? then admission.pool else old(service.mempool.pool))
      ensures vote.None? ==> votedTargets == old(votedTargets)
      ensures vote.Some? ==>
                && vote.value.evidence.VoteLink?
                && votedTargets == old(votedTargets) + {vote.value.evidence.link.th}
                && Mempool.Pooled(service.mempool.pool, TxId(vote.value))
    {
      hide Genesis;
      hide ValidTree;
      hide IsHead;
      hide RunAll;
      hide NodeService.LogReplays;
      hide BlockTree.Represents;
      hide VoteFor;
      hide Mempool.ValidPool;
      hide Mempool.BySender;
      hide TxValid;
      if me.None? {
        return None;
      }
      var l := service.tree.canonical.View();
      var link := ChooseVote(l, service.config.genesis.params.epoch, me.value, votedTargets);
      if link.None? {
        return None;
      }
      var pending := CountPending(service.mempool.pool, me.value);
      var nonce := Get(l.state.accounts.nonces, me.value) + pending;
      var tx := Tx(me.value, VoteSentinel, 0, 0, nonce, publicKey, signature, VoteLink(link.value));
      ghost var before := service.mempool.pool;
      var r := service.mempool.Add(tx, l);
      AdmissionPools(before, l.state.accounts.nonces, tx);
      if r.NotAdmitted? {
        return None;
      }
      votedTargets := votedTargets + {link.value.th};
      vote := Some(tx);
    }
  }

  /** The ballot auto_vote signs: no amount, no fee, and a nonce behind the sender's pending transactions. */
  function BallotFor(l: Ledger, pool: seq<Tx>, me: Address, link: Link, publicKey: nat, signature: nat): Tx {
    Tx(me, VoteSentinel, 0, 0, Get(l.state.accounts.nonces, me) + |Mempool.BySender(pool, me)|,
       publicKey, signature, VoteLink(link))
  }

  /** The count of one sender's pending transactions. */
  method CountPending(pool: seq<Tx>, me: Address) returns (pending: nat)
    ensures pending == |Mempool.BySender(pool, me)|
  {
    pending := 0;
    var i := 0;
    while i < |pool|
      invariant 0 <= i <= |pool|
      invariant pending == |Mempool.BySender(pool[..i], me)|
    {
      assert pool[..i + 1][..i] == pool[..i];
      if pool[i].sender == me {
        pending := pending + 1;
      }
      i := i + 1;
    }
    assert pool[..|pool|] == pool;
  }

  /** What is not refused is in the pool. */
  lemma AdmissionPools(pool: seq<Tx>, nonces: map<Address, int>, tx: Tx)
    ensures var r := Mempool.Admit(pool, nonces, tx);
            && (r.Admitted? ==> Mempool.Pooled(r.pool, TxId(tx)))
            && (r.AlreadyPooled? ==> Mempool.Pooled(pool, TxId(tx)))
  {
    hide TxValid;
    var r := Mempool.Admit(pool, nonces, tx);
    if r.Admitted? {
      assert r.pool[|r.pool| - 1] == tx;
    }
  }

  lemma {:induction false} DeltasOfFront(txs: seq<Tx>, more: seq<Tx>, k: nat, u: int)
    requires k <= |txs|
    ensures Mempool.Deltas(txs + more, k, u) == Mempool.Deltas(txs, k, u)
    decreases k
  {
    hide Mempool.CostOf;
    if k > 0 {
      assert (txs + more)[1..] == txs[1..] + more;
      DeltasOfFront(txs[1..], more, k - 1, u);
    }
  }

  lemma NextAppended(txs: seq<Tx>, tx: Tx, nonce: int, balance: int, u: int)
    requires Mempool.Affordable(txs, |txs|, nonce, balance, u)
    requires tx.nonce == nonce + |txs| && Mempool.CostOf(tx, u).required <= balance + Mempool.Deltas(txs, |txs|, u)
    ensures Mempool.Affordable(txs + [tx], |txs| + 1, nonce, balance, u)
  {
    hide Mempool.CostOf;
    hide Mempool.Deltas;
    var next := txs + [tx];
    forall j | 0 <= j < |next| ensures Mempool.Next(next, j, nonce, balance, u) {
      DeltasOfFront(txs, [tx], j, u);
      if j < |txs| {
        assert Mempool.Next(txs, j, nonce, balance, u);
      }
    }
  }

  /** A transaction behind all of its sender's pending ones sorts last. */
  lemma SortedLast(pool: seq<Tx>, tx: Tx)
    requires var mine := Mempool.SortByNonce(Mempool.BySender(pool, tx.sender));
             mine != [] ==> mine[|mine| - 1].nonce <= tx.nonce
    ensures Mempool.SortByNonce(Mempool.BySender(pool + [tx], tx.sender))
         == Mempool.SortByNonce(Mempool.BySender(pool, tx.sender)) + [tx]
  {
    var own := Mempool.BySender(pool, tx.sender);
    assert (pool + [tx])[..|pool|] == pool;
    assert Mempool.BySender(pool + [tx], tx.sender) == own + [tx];
    assert (own + [tx])[..|own|] == own;
  }

  lemma SortLength(txs: seq<Tx>)
    ensures |Mempool.SortByNonce(txs)| == |txs|
  {
    Mempool.SortElements(txs);
    assert |Mempool.SortByNonce(txs)| == |multiset(Mempool.SortByNonce(txs))| == |multiset(txs)| == |txs|;
  }

  /** The ballot comes next: when all that the voter has pending follows from its nonce and can be paid for, so does
      the ballot behind it, and selection can take them all. */
  lemma BallotFollows(l: Ledger, pool: seq<Tx>, me: Address, link: Link, publicKey: nat, signature: nat, u: int)
    requires var mine := Mempool.SortByNonce(Mempool.BySender(pool, me));
             var nonce, balance := Get(l.state.accounts.nonces, me), Get(l.state.accounts.balances, me);
             && Mempool.Affordable(mine, |mine|, nonce, balance, u)
             && 0 <= balance + Mempool.Deltas(mine, |mine|, u)
    ensures var ballot := BallotFor(l, pool, me, link, publicKey, signature);
            var mine := Mempool.SortByNonce(Mempool.BySender(pool, me));
            var next := Mempool.SortByNonce(Mempool.BySender(pool + [ballot], me));
            var nonce, balance := Get(l.state.accounts.nonces, me), Get(l.state.accounts.balances, me);
            && next == mine + [ballot]
            && Mempool.Affordable(next, |next|, nonce, balance, u)
            && Mempool.Longest(next, next, nonce, balance, u)
  {
    hide Mempool.CostOf;
    hide Mempool.SortByNonce;
    hide Mempool.BySender;
    hide Mempool.Deltas;
    var ballot := BallotFor(l, pool, me, link, publicKey, signature);
    var mine := Mempool.SortByNonce(Mempool.BySender(pool, me));
    var nonce, balance := Get(l.state.accounts.nonces, me), Get(l.state.accounts.balances, me);
    SortLength(Mempool.BySender(pool, me));
    if mine != [] {
      assert Mempool.Next(mine, |mine| - 1, nonce, balance, u);
    }
    SortedLast(pool, ballot);
    FreeBallot(ballot, u);
    NextAppended(mine, ballot, nonce, balance, u);
  }

  lemma FreeBallot(ballot: Tx, u: int)
    requires ballot.recipient.VoteSentinel? && ballot.fee == 0
    ensures Mempool.CostOf(ballot, u) == Mempool.Cost(0, 0)
  {
  }

  /** Without a stray exception no waiting block is lost: it still waits or was offered. */
  lemma NothingLost(start: Orphans, orphans: Orphans, before: set<Hash>, after: set<Hash>, done: seq<Block>)
    requires TookOut(start, orphans, before, after, done, true)
    ensures forall x :: x in Buffered(start) ==> x in Buffered(orphans) || x in done
  {
    hide OnlyTakenOut;
    forall x | x in Buffered(start) ensures x in Buffered(orphans) || x in done {
      var h :| h in start && x in start[h];
      if h !in orphans {
        assert TakenOut(start, orphans, x);
      }
    }
  }
}
