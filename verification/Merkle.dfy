/** core.py's merkle_root, and why a root fixes a duplicate-free list despite the
    duplicated last element. */
module Merkle {
  import opened Records

  /** The right partner of an element at an even position; an odd layer repeats its last element. */
  function Right(layer: seq<Hash>, i: nat): Hash
    requires 2 * i < |layer|
  {
    if 2 * i + 1 < |layer| then layer[2 * i + 1] else layer[2 * i]
  }

  /** The parents of a layer. */
  function Up(layer: seq<Hash>): (up: seq<Hash>)
    ensures |up| == (|layer| + 1) / 2
    ensures forall i :: 0 <= i < |up| ==> up[i] == PairHash(layer[2 * i], Right(layer, i))
  {
    seq((|layer| + 1) / 2, i requires 0 <= i < (|layer| + 1) / 2 => PairHash(layer[2 * i], Right(layer, i)))
  }

  function Root(layer: seq<Hash>): Hash
    requires layer != []
    decreases |layer|
  {
    if |layer| == 1 then layer[0] else Root(Up(layer))
  }

  function MerkleRoot(txids: seq<Hash>): Hash {
    if txids == [] then emptyDigest else Root(txids)
  }

  /** The loop of merkle_root. */
  method ComputeMerkleRoot(txids: seq<Hash>) returns (root: Hash)
    ensures root == MerkleRoot(txids)
  {
    if txids == [] {
      return emptyDigest;
    }
    var layer := txids;
    while |layer| > 1
      invariant layer != []
      invariant Root(layer) == Root(txids)
      decreases |layer|
    {
      var up := ParentLayer(layer);
      layer := up;
    }
    root := layer[0];
  }

  method ParentLayer(children: seq<Hash>) returns (up: seq<Hash>)
    ensures up == Up(children)
  {
    var layer := children;
    if |layer| % 2 == 1 {
      layer := layer + [layer[|layer| - 1]];
    }
    up := [];
    var i := 0;
    while i < |layer|
      invariant 0 <= i <= |layer| && i == 2 * |up|
      invariant forall k :: 0 <= k < |up| ==> up[k] == PairHash(layer[2 * k], layer[2 * k + 1])
    {
      up := up + [PairHash(layer[i], layer[i + 1])];
      i := i + 2;
    }
    assert forall k :: 0 <= k < |up| ==> layer[2 * k] == children[2 * k] && layer[2 * k + 1] == Right(children, k);
  }

  ghost predicate Distinct<T>(s: seq<T>) {
    forall i, j :: 0 <= i < j < |s| ==> s[i] != s[j]
  }

  /** The digest reached from a transaction id by pairing it, as left partner, with each of rights. */
  function Spine(t: Tx, rights: seq<Hash>): Hash {
    if rights == [] then TxId(t)
    else PairHash(Spine(t, rights[..|rights| - 1]), rights[|rights| - 1])
  }

  lemma PairInjective(a: Hash, b: Hash, c: Hash, d: Hash)
    requires CollisionFree()
    requires PairHash(a, b) == PairHash(c, d)
    ensures a == c && b == d
  {
  }

  /** A digest sits at one level only: a transaction id is never a pair. */
  lemma {:induction false} LevelUnique(t: Tx, r: seq<Hash>, u: Tx, q: seq<Hash>)
    requires CollisionFree()
    requires Spine(t, r) == Spine(u, q)
    ensures |r| == |q|
    decreases |r|
  {
    if r != [] && q != [] {
      var r', q' := r[..|r| - 1], q[..|q| - 1];
      PairInjective(Spine(t, r'), r[|r| - 1], Spine(u, q'), q[|q| - 1]);
      LevelUnique(t, r', u, q');
    }
  }

  lemma SpineUp(layer: seq<Hash>, t: Tx, r: seq<Hash>)
    requires layer != []
    requires layer[0] == Spine(t, r)
    ensures Up(layer)[0] == Spine(t, r + [Right(layer, 0)])
  {
    assert (r + [Right(layer, 0)])[..|r|] == r;
  }

  /** The levels between a layer and its root. */
  ghost function Depth(n: nat): nat
    requires 0 < n
  {
    if n == 1 then 0 else 1 + Depth((n + 1) / 2)
  }

  lemma {:induction false} RootSpine(layer: seq<Hash>, t: Tx, r: seq<Hash>) returns (q: seq<Hash>)
    requires layer != []
    requires layer[0] == Spine(t, r)
    ensures Root(layer) == Spine(t, q)
    ensures |q| == |r| + Depth(|layer|)
    decreases |layer|
  {
    if |layer| > 1 {
      SpineUp(layer, t, r);
      q := RootSpine(Up(layer), t, r + [Right(layer, 0)]);
    } else {
      q := r;
    }
  }

  lemma UpDistinct(layer: seq<Hash>)
    requires CollisionFree()
    requires Distinct(layer)
    ensures Distinct(Up(layer))
  {
    var up := Up(layer);
    forall i, j | 0 <= i < j < |up| ensures up[i] != up[j] {
      if up[i] == up[j] {
        PairInjective(layer[2 * i], Right(layer, i), layer[2 * j], Right(layer, j));
      }
    }
  }

  /** Padding never makes two duplicate-free layers look alike: the longer would end in a repeat. */
  lemma UpInjective(l: seq<Hash>, m: seq<Hash>)
    requires CollisionFree()
    requires Distinct(l) && Distinct(m)
    requires Up(l) == Up(m)
    ensures l == m
  {
    forall i | 0 <= i < |Up(l)| ensures l[2 * i] == m[2 * i] && Right(l, i) == Right(m, i) {
      assert Up(l)[i] == Up(m)[i];
      PairInjective(l[2 * i], Right(l, i), m[2 * i], Right(m, i));
    }
    var n := |Up(l)|;
    if n > 0 {
      assert Right(l, n - 1) == Right(m, n - 1);
    }
    assert |l| == |m|;
    forall i | 0 <= i < |l| ensures l[i] == m[i] {
      var k := i / 2;
      assert i == 2 * k || i == 2 * k + 1;
      assert Right(l, k) == Right(m, k);
    }
  }

  lemma {:induction false} SameDepth(l: seq<Hash>, m: seq<Hash>, t: Tx, r: seq<Hash>, u: Tx, q: seq<Hash>)
    requires CollisionFree()
    requires l != [] && m != []
    requires l[0] == Spine(t, r) && m[0] == Spine(u, q) && |r| == |q|
    requires Root(l) == Root(m)
    ensures Depth(|l|) == Depth(|m|)
  {
    var x := RootSpine(l, t, r);
    var y := RootSpine(m, u, q);
    LevelUnique(t, x, u, y);
  }

  lemma {:induction false} RootInjective(l: seq<Hash>, m: seq<Hash>, t: Tx, r: seq<Hash>, u: Tx, q: seq<Hash>)
    requires CollisionFree()
    requires l != [] && m != []
    requires Distinct(l) && Distinct(m)
    requires l[0] == Spine(t, r) && m[0] == Spine(u, q) && |r| == |q|
    requires Root(l) == Root(m)
    ensures l == m
    decreases |l|
  {
    SameDepth(l, m, t, r, u, q);
    if |l| > 1 {
      SpineUp(l, t, r);
      SpineUp(m, u, q);
      UpDistinct(l);
      UpDistinct(m);
      RootInjective(Up(l), Up(m), t, r + [Right(l, 0)], u, q + [Right(m, 0)]);
      UpInjective(l, m);
    }
  }

  lemma RootNotEmpty(l: seq<Hash>, t: Tx)
    requires CollisionFree()
    requires l != [] && l[0] == TxId(t)
    ensures Root(l) != emptyDigest
  {
    var q := RootSpine(l, t, []);
  }

  /** Two duplicate-free transaction lists of any lengths with one Merkle root are one list. */
  lemma MerkleBinding(txs: seq<Tx>, other: seq<Tx>)
    requires CollisionFree()
    requires Distinct(TxIds(txs)) && Distinct(TxIds(other))
    requires MerkleRoot(TxIds(txs)) == MerkleRoot(TxIds(other))
    ensures txs == other
  {
    var l, m := TxIds(txs), TxIds(other);
    if l == [] || m == [] {
      if l != [] { RootNotEmpty(l, txs[0]); }
      if m != [] { RootNotEmpty(m, other[0]); }
    } else {
      RootInjective(l, m, txs[0], [], other[0], []);
      forall i | 0 <= i < |txs| ensures txs[i] == other[i] {
        assert l[i] == m[i];
      }
    }
  }

  /** So a block hash fixes the transactions of a block that passed the Merkle and duplicate checks. */
  lemma BlockHashBindsTransactions(a: Block, b: Block)
    requires CollisionFree()
    requires a.header.merkleRoot == MerkleRoot(TxIds(a.txs)) && Distinct(TxIds(a.txs))
    requires b.header.merkleRoot == MerkleRoot(TxIds(b.txs)) && Distinct(TxIds(b.txs))
    requires BlockHash(a) == BlockHash(b)
    ensures Content(a) == Content(b)
  {
    assert a.header == b.header;
    MerkleBinding(a.txs, b.txs);
  }

  /** Without the in-block duplicate check the root does not fix the list: repeating the last
      transaction of an odd list keeps the root. */
  lemma DuplicateKeepsRoot(txs: seq<Tx>)
    requires |txs| % 2 == 1 && 1 < |txs|
    ensures MerkleRoot(TxIds(txs + [txs[|txs| - 1]])) == MerkleRoot(TxIds(txs))
  {
    var ids := TxIds(txs);
    var dup := TxIds(txs + [txs[|txs| - 1]]);
    assert dup == ids + [ids[|ids| - 1]];
    assert |Up(dup)| == |Up(ids)|;
    forall i | 0 <= i < |Up(ids)| ensures Up(dup)[i] == Up(ids)[i] {
      assert Right(dup, i) == Right(ids, i);
    }
    assert Up(dup) == Up(ids);
  }
}
