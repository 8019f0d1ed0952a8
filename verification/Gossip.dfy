/** network.py's in-process gossip: a transaction floods the peer graph by mutual recursion between
    nodes, stops at nodes that have seen it or refuse it, and reaches everyone it should, once. */
module Gossip {
  import opened Records
  import opened Ledger
  import Mempool

  class Node {
    var peers: seq<Node>
    var seenTx: set<Hash>
    var pool: seq<Tx>
    var chain: Ledger

    constructor (l: Ledger)
      ensures peers == [] && seenTx == {} && pool == [] && chain == l
    {
      peers, seenTx, pool, chain := [], {}, [], l;
    }

    /** What this node's mempool would say to tx now. */
    function Verdict(tx: Tx): Mempool.Admission
      reads this
    {
      Mempool.Admit(pool, chain.state.accounts.nonces, tx)
    }

    predicate Admits(tx: Tx)
      reads this
    {
      !Verdict(tx).NotAdmitted?
    }

    /** The pool after the mempool looked at tx once. */
    function PoolAfter(tx: Tx): seq<Tx>
      reads this
    {
      match Verdict(tx)
      case Admitted(next) => next
      case _ => pool
    }

    /** `connect`: both directions, no duplicates, also when a node connects to itself. */
    method Connect(other: Node)
      modifies this`peers, other`peers
      ensures other in peers && this in other.peers
      ensures peers == old(peers) + (if other in old(peers) then [] else [other])
      ensures other.peers == old(other.peers) + (if this in old(other.peers) then [] else [this])
    {
      if other !in peers {
        peers := peers + [other];
      }
      if this !in other.peers {
        other.peers := other.peers + [this];
      }
    }

    /** `_recv_tx`: mark, admit, relay. It marks nodes of any region that admitting nodes keep tx within. */
    method RecvTx(tx: Tx, origin: Node?, ghost net: set<Node>, ghost region: set<Node>)
      requires this in net && Closed(net)
      requires this in region && Contains(net, tx, region)
      requires origin != null ==> origin in net && TxId(tx) in origin.seenTx
      modifies net`seenTx, net`pool
      ensures Closed(net) && Contains(net, tx, region) && TxId(tx) in this.seenTx
      ensures Flooded(net, tx)
      ensures forall n :: n in net && n !in region ==> n.seenTx == old(n.seenTx)
      decreases Unseen(net, tx), 0
    {
      hide Mempool.Admit;
      if TxId(tx) in seenTx {
        return;
      }
      var verdict := Mempool.Admit(pool, chain.state.accounts.nonces, tx);
      seenTx := seenTx + {TxId(tx)};
      if verdict.NotAdmitted? {
        return;
      }
      if verdict.Admitted? {
        pool := verdict.pool;
      }
      assert this in old(Unseen(net, tx)) && this !in Unseen(net, tx);
      RelayTx(tx, origin, net, region);
    }

    /** The relay loop: every peer but the one it came from. */
    method RelayTx(tx: Tx, origin: Node?, ghost net: set<Node>, ghost region: set<Node>)
      requires this in net && Closed(net) && TxId(tx) in seenTx
      requires Contains(net, tx, region) && forall i :: 0 <= i < |peers| ==> peers[i] in region
      requires origin != null ==> origin in net && TxId(tx) in origin.seenTx
      modifies net`seenTx, net`pool
      ensures Closed(net) && Contains(net, tx, region) && Flooded(net, tx) && PeersHave(net, this, tx)
      ensures forall n :: n in net && n !in region ==> n.seenTx == old(n.seenTx)
      decreases Unseen(net, tx), 1
    {
      hide TxId;
      hide Verdict;
      hide PoolAfter;
      hide Admits;
      hide Contains;
      var i := 0;
      while i < |peers|
        invariant 0 <= i <= |peers|
        invariant Closed(net) && Contains(net, tx, region) && TxId(tx) in seenTx && Flooded(net, tx)
        invariant forall n :: n in net && n !in region ==> n.seenTx == old(n.seenTx)
        invariant forall j :: 0 <= j < i ==> TxId(tx) in peers[j].seenTx
      {
        if peers[i] != origin {
          assert Unseen(net, tx) <= old(Unseen(net, tx));
          peers[i].RecvTx(tx, this, net, region);
        }
        i := i + 1;
      }
    }

    /** `broadcast_tx` of a transaction no node has seen: it ends, every node processes it at most once, and
        it arrives at exactly the nodes connected to this one through admitting nodes. */
    method BroadcastTx(tx: Tx, ghost net: set<Node>)
      requires this in net && Closed(net)
      requires forall n :: n in net ==> TxId(tx) !in n.seenTx
      modifies net`seenTx, net`pool
      ensures Closed(net) && Flooded(net, tx)
      ensures forall n :: n in net ==> (TxId(tx) in n.seenTx <==> Connected(old(Relays(net, tx)), this, n))
    {
      hide Mempool.Admit;
      ghost var relays := Relays(net, tx);
      ghost var region := set n | n in net && Connected(relays, this, n);
      ConnectedRegion(net, relays, this, region);
      RecvTx(tx, null, net, region);
      ghost var reached := set n | n in net && TxId(tx) in n.seenTx;
      forall n | n in reached ensures relays[n] <= reached {
        assert NodeFlooded(n, tx) && Relayed(net, n, tx);
      }
      ConnectedWithin(relays, this, reached);
    }
  }

  ghost predicate Closed(net: set<Node>)
    reads net
  {
    forall n, i :: n in net && 0 <= i < |n.peers| ==> n.peers[i] in net
  }

  /** The nodes still to come: the measure of the recursion. */
  ghost function Unseen(net: set<Node>, tx: Tx): set<Node>
    reads net
  {
    set n | n in net && TxId(tx) !in n.seenTx
  }

  /** What a flood does to one node: nothing if it had seen tx or is never reached; otherwise it marks tx
      and its mempool looks at tx exactly once. */
  twostate predicate NodeFlooded(n: Node, tx: Tx)
    reads n
  {
    && n.peers == old(n.peers) && n.chain == old(n.chain)
    && if old(TxId(tx) in n.seenTx) || TxId(tx) !in n.seenTx
       then n.seenTx == old(n.seenTx) && n.pool == old(n.pool)
       else n.seenTx == old(n.seenTx) + {TxId(tx)} && n.pool == old(n.PoolAfter(tx))
  }

  /** A node that newly got tx and admitted it has passed it to all its peers. */
  twostate predicate Relayed(net: set<Node>, n: Node, tx: Tx)
    requires Closed(net) && n in net
    reads net
  {
    old(TxId(tx) !in n.seenTx && n.Admits(tx)) && TxId(tx) in n.seenTx ==> PeersHave(net, n, tx)
  }

  ghost predicate PeersHave(net: set<Node>, n: Node, tx: Tx)
    requires Closed(net) && n in net
    reads net
  {
    forall i :: 0 <= i < |n.peers| ==> TxId(tx) in n.peers[i].seenTx
  }

  twostate predicate Flooded(net: set<Node>, tx: Tx)
    requires Closed(net)
    reads net
  {
    forall n :: n in net ==> NodeFlooded(n, tx) && Relayed(net, n, tx)
  }

  /** Whom each node would pass tx on to. */
  ghost function Relays(net: set<Node>, tx: Tx): map<Node, set<Node>>
    reads net
  {
    map n | n in net :: if n.Admits(tx) then (set p | p in n.peers) else {}
  }

  /** The nodes at most k relays from origin. */
  ghost function Reach(relays: map<Node, set<Node>>, origin: Node, k: nat): set<Node> {
    if k == 0 then {origin} else
      var near := Reach(relays, origin, k - 1);
      near + set m, n | m in near && m in relays && n in relays[m] :: n
  }

  ghost predicate Connected(relays: map<Node, set<Node>>, origin: Node, n: Node) {
    exists k: nat :: n in Reach(relays, origin, k)
  }

  /** No node of the region that has yet to see tx would relay it out of the region. */
  ghost predicate Contains(net: set<Node>, tx: Tx, region: set<Node>)
    reads net
  {
    forall n, i :: n in region * net && TxId(tx) !in n.seenTx && n.Admits(tx) && 0 <= i < |n.peers| ==>
      n.peers[i] in region
  }

  lemma ConnectedRegion(net: set<Node>, relays: map<Node, set<Node>>, origin: Node, region: set<Node>)
    requires origin in net && relays.Keys == net && forall n :: n in relays ==> relays[n] <= net
    requires region == set n | n in net && Connected(relays, origin, n)
    ensures origin in region && forall n :: n in region ==> relays[n] <= region
  {
    assert origin in Reach(relays, origin, 0);
    forall n, p | n in region && p in relays[n] ensures p in region {
      var k: nat :| n in Reach(relays, origin, k);
      assert p in Reach(relays, origin, k + 1);
    }
  }

  lemma {:induction false} ReachWithin(relays: map<Node, set<Node>>, origin: Node, s: set<Node>, k: nat)
    requires origin in s && forall n :: n in s && n in relays ==> relays[n] <= s
    ensures Reach(relays, origin, k) <= s
  {
    if k > 0 {
      ReachWithin(relays, origin, s, k - 1);
    }
  }

  /** A set that holds origin and whatever its nodes relay to holds everything connected to origin. */
  lemma ConnectedWithin(relays: map<Node, set<Node>>, origin: Node, s: set<Node>)
    requires origin in s && forall n :: n in s && n in relays ==> relays[n] <= s
    ensures forall n :: Connected(relays, origin, n) ==> n in s
  {
    forall n | Connected(relays, origin, n) ensures n in s {
      var k: nat :| n in Reach(relays, origin, k);
      ReachWithin(relays, origin, s, k);
    }
  }
}
