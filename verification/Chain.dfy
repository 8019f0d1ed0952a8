/** consensus.py's ProofOfStakeChain as an object: its fields, the maturation loop, the transaction
    loop and the all-or-nothing commit, proved against the ledger functions. */
module Chain {
  import opened Sums
  import opened Records
  import opened Merkle
  import opened Election
  import opened Ledger
  import opened Vesting
  import Conservation

  // -- genesis ---------------------------------------------------------------------------------

  /** Python's `sum(m.values())`: any order of the dictionary gives the total. */
  method SumValues(m: map<Address, int>) returns (total: int)
    ensures total == Total(m)
  {
    total := 0;
    var todo := m.Keys;
    while todo != {}
      invariant todo <= m.Keys
      invariant total + Sum(todo, m) == Total(m)
      decreases |todo|
    {
      var a :| a in todo;
      SumTake(todo, m, a);
      total := total + m[a];
      todo := todo - {a};
    }
  }

  /** Every allocation is a number of units, and together they are the whole supply. */
  method CheckAllocations(g: GenesisArgs) returns (ok: bool)
    ensures ok == ValidAllocations(g)
  {
    hide Total;
    var todo := g.allocations.Keys;
    while todo != {}
      invariant todo <= g.allocations.Keys
      invariant forall a :: a in g.allocations && a !in todo ==> 0 <= g.allocations[a]
      decreases |todo|
    {
      var a :| a in todo;
      if g.allocations[a] < 0 {
        return false;
      }
      todo := todo - {a};
    }
    var total := SumValues(g.allocations);
    ok := total == MAX_SUPPLY_UNITS;
  }

  /** The bootstrap loop: each initial stake, in any order, moves from its owner's balance into stake. */
  method BootstrapStakes(g: GenesisArgs) returns (ok: bool, balances: map<Address, int>, stakes: map<Address, int>)
    ensures ok == ValidInitialStakes(g)
    ensures ok ==> balances == LiquidAtGenesis(g) && stakes == g.initialStakes
  {
    balances, stakes := g.allocations, map[];
    var todo := g.initialStakes.Keys;
    while todo != {}
      invariant todo <= g.initialStakes.Keys
      invariant balances.Keys == g.allocations.Keys && stakes.Keys == g.initialStakes.Keys - todo
      invariant forall a :: a in stakes ==> stakes[a] == g.initialStakes[a]
      invariant forall a :: a in balances ==> balances[a] == g.allocations[a] - Get(stakes, a)
      invariant forall a :: a in stakes ==> 0 < stakes[a] <= Get(g.allocations, a)
      decreases |todo|
    {
      var a :| a in todo;
      var amount := g.initialStakes[a];
      if amount <= 0 || Get(balances, a) < amount {
        return false, balances, stakes;
      }
      balances := balances[a := balances[a] - amount];
      stakes := stakes[a := Get(stakes, a) + amount];
      todo := todo - {a};
    }
    ok := true;
  }

  /** The grant loop: four non-negative integers, and no more than the holder has, staked or not. */
  method CheckGrants(vesting: map<Address, Grant>, balances: map<Address, int>, stakes: map<Address, int>)
    returns (ok: bool)
    ensures ok <==> forall a :: a in vesting ==>
                      ValidGrant(vesting[a]) && vesting[a].total <= Get(balances, a) + Get(stakes, a)
  {
    var todo := vesting.Keys;
    while todo != {}
      invariant todo <= vesting.Keys
      invariant forall a :: a in vesting && a !in todo ==>
                  ValidGrant(vesting[a]) && vesting[a].total <= Get(balances, a) + Get(stakes, a)
      decreases |todo|
    {
      var a :| a in todo;
      if !ValidGrant(vesting[a]) {
        return false;
      }
      var held := Get(balances, a) + Get(stakes, a);
      if vesting[a].total > held {
        return false;
      }
      todo := todo - {a};
    }
    ok := true;
  }

  /** Staking moved money, so what an address holds is still its allocation. */
  lemma HeldAtGenesis(g: GenesisArgs, a: Address)
    requires ValidInitialStakes(g)
    ensures Get(LiquidAtGenesis(g), a) + Get(g.initialStakes, a) == Get(g.allocations, a)
  {
  }

  // -- maturation ------------------------------------------------------------------------------

  /** One queue of the maturation loop: what is kept and what is released. */
  method SplitQueue(q: seq<Entry>, height: int) returns (remaining: seq<Entry>, released: int)
    ensures remaining == Pending(q, height)
    ensures released == MaturedSum(q, height)
  {
    remaining, released := [], 0;
    var i := 0;
    while i < |q|
      invariant 0 <= i <= |q|
      invariant remaining == Pending(q[..i], height)
      invariant released == MaturedSum(q[..i], height)
    {
      assert q[..i + 1][..i] == q[..i];
      if q[i].releaseHeight <= height {
        released := released + q[i].amount;
      } else {
        remaining := remaining + [q[i]];
      }
      i := i + 1;
    }
    assert q[..|q|] == q;
  }

  /** The balances once every address outside todo has matured. */
  ghost predicate Released(acc: Accounts, height: int, todo: set<Address>, balances: map<Address, int>) {
    && (forall a :: a in balances <==> a in acc.balances || (a in MaturedBalances(acc, height) && a !in todo))
    && (forall a :: a in balances ==>
          balances[a] == if a in todo then acc.balances[a] else MaturedBalances(acc, height)[a])
  }

  /** The queues once every address outside todo has matured. */
  ghost predicate Kept(u: map<Address, seq<Entry>>, height: int, todo: set<Address>,
                       unbonding: map<Address, seq<Entry>>)
  {
    && (forall a :: a in unbonding <==> a in StillUnbonding(u, height) && a !in todo)
    && (forall a :: a in unbonding ==> unbonding[a] == StillUnbonding(u, height)[a])
  }

  lemma ReleaseStart(acc: Accounts, height: int)
    ensures Released(acc, height, acc.unbonding.Keys, acc.balances)
  {
  }

  lemma ReleaseStep(acc: Accounts, height: int, todo: set<Address>, addr: Address, balances: map<Address, int>)
    requires addr in todo && todo <= acc.unbonding.Keys
    requires Released(acc, height, todo, balances)
    ensures var q := acc.unbonding[addr];
            Released(acc, height, todo - {addr},
                     if |Pending(q, height)| < |q| then Credit(balances, addr, MaturedSum(q, height)) else balances)
  {
    var q := acc.unbonding[addr];
    Conservation.MaturitySplits(q, height);
    hide Pending;
    hide MaturedSum;
  }

  /** The maturation loop over all addresses, in any order. */
  method MatureUnbonding(acc: Accounts, height: int) returns (r: Accounts)
    ensures r == Mature(acc, height)
  {
    hide Pending;
    hide MaturedSum;
    hide Released;
    var balances, unbonding := acc.balances, map[];
    var todo := acc.unbonding.Keys;
    ReleaseStart(acc, height);
    while todo != {}
      invariant todo <= acc.unbonding.Keys
      invariant Released(acc, height, todo, balances)
      invariant Kept(acc.unbonding, height, todo, unbonding)
      decreases |todo|
    {
      var addr :| addr in todo;
      var remaining, released := SplitQueue(acc.unbonding[addr], height);
      ReleaseStep(acc, height, todo, addr, balances);
      if |remaining| < |acc.unbonding[addr]| {
        balances := Credit(balances, addr, released);
      }
      if remaining != [] {
        unbonding := unbonding[addr := remaining];
      }
      todo := todo - {addr};
    }
    ReleaseEnd(acc, height, balances);
    assert unbonding == StillUnbonding(acc.unbonding, height);
    r := acc.(balances := balances, unbonding := unbonding);
  }

  lemma ReleaseEnd(acc: Accounts, height: int, balances: map<Address, int>)
    requires Released(acc, height, {}, balances)
    ensures balances == MaturedBalances(acc, height)
  {
  }

  class ProofOfStakeChain {
    const params: Params
    var chain: seq<Block>
    var balances: map<Address, int>
    var nonces: map<Address, int>
    var stakes: map<Address, int>
    var unbonding: map<Address, seq<Entry>>
    var slashed: set<Offense>
    var slashedAddrs: set<Address>
    var ffg: Finality

    predicate Valid()
      reads this
    {
      chain != [] && params.epoch != 0
    }

    /** The object's whole state as one ledger. */
    function View(): Ledger
      reads this
    {
      Ledger(chain, State(Accounts(balances, nonces, stakes, unbonding), slashed, slashedAddrs, ffg))
    }

    constructor (p: Params, l: Ledger)
      requires l.chain != [] && p.epoch != 0
      ensures Valid() && params == p && View() == l
    {
      params := p;
      chain := l.chain;
      balances := l.state.accounts.balances;
      nonces := l.state.accounts.nonces;
      stakes := l.state.accounts.stakes;
      unbonding := l.state.accounts.unbonding;
      slashed := l.state.slashed;
      slashedAddrs := l.state.slashedAddrs;
      ffg := l.state.ffg;
    }

    /** Boot from genesis; null when the constructor of the source raises. */
    static method Create(g: GenesisArgs) returns (c: ProofOfStakeChain?)
      ensures c != null <==> Genesis(g).Ok?
      ensures c != null ==> fresh(c) && c.Valid() && c.params == g.params && c.View() == Genesis(g).value
    {
      hide Total;
      hide ValidAllocations;
      hide ValidInitialStakes;
      hide ValidGrant;
      var minted := CheckAllocations(g);
      if !minted {
        return null;
      }
      var staked, balances, stakes := BootstrapStakes(g);
      if !staked {
        return null;
      }
      forall a ensures Get(balances, a) + Get(stakes, a) == Get(g.allocations, a) {
        HeldAtGenesis(g, a);
      }
      var granted := CheckGrants(g.params.vesting, balances, stakes);
      if !granted {
        return null;
      }
      if g.params.treasury.Some? && g.params.treasury.value !in balances {
        balances := balances[g.params.treasury.value := 0];
      }
      if g.params.epoch <= 0 {
        return null;
      }
      var genesis := GenesisBlock(g.timestamp);
      var hash := BlockHash(genesis);
      var ffg := Finality(map[hash := stakes], map[hash := 0], map[], map[], {hash}, Checkpoint(hash, 0));
      var acc := Accounts(balances, map a | a in g.allocations :: 0, stakes, map[]);
      c := new ProofOfStakeChain(g.params, Ledger([genesis], State(acc, {}, {}, ffg)));
    }

    /** Linkage, index, Merkle root and proposer. */
    method CheckHeader(b: Block) returns (ok: bool)
      requires Valid()
      ensures ok == HeaderAccepted(View(), b)
      ensures ok <==> && b.header.previousHash == BlockHash(chain[|chain| - 1])
                      && b.header.index == chain[|chain| - 1].header.index + 1
                      && b.header.merkleRoot == MerkleRoot(TxIds(b.txs))
                      && Elect(stakes, Seed(b.header.previousHash, b.header.index)) == Some(b.header.validator)
                      && b.seal.Seal? && sealSigned(b.header, b.seal)
    {
      hide MerkleRoot;
      hide Elect;
      var head := chain[|chain| - 1];
      if b.header.previousHash != BlockHash(head) || b.header.index != head.header.index + 1 {
        return false;
      }
      var root := ComputeMerkleRoot(TxIds(b.txs));
      if b.header.merkleRoot != root {
        return false;
      }
      var elected := ElectValidator(stakes, Seed(b.header.previousHash, b.header.index));
      ok := elected == Some(b.header.validator) && SealAuthentic(b);
    }

    /** `_apply_block_pre` on a working copy of the state. */
    method Prepare(b: Block) returns (st: State)
      requires Valid()
      ensures st == BeginBlock(params, View().state, b)
    {
      var acc := MatureUnbonding(Accounts(balances, nonces, stakes, unbonding), b.header.index);
      var next := ffg;
      if b.header.index % params.epoch == 0 {
        next := next.(stakeAt := next.stakeAt[BlockHash(b) := stakes],
                      heightAt := next.heightAt[BlockHash(b) := b.header.index]);
      }
      st := State(acc, slashed, slashedAddrs, next);
    }

    /** The transaction loop, on the working copy. */
    method RunTransactions(b: Block, start: State) returns (r: Result<State>)
      requires Valid()
      ensures r == ApplyTxs(params, ContextOf(View(), b), start, b.txs, {})
    {
      hide ApplyTx;
      hide TxAdmissible;
      var ctx := Context(b.header.index, b.header.validator, ffg.justified);
      var st, seen, i := start, {}, 0;
      while i < |b.txs|
        invariant 0 <= i <= |b.txs|
        invariant ApplyTxs(params, ctx, start, b.txs, {}) == ApplyTxs(params, ctx, st, b.txs[i..], seen)
      {
        var tx := b.txs[i];
        assert b.txs[i..][0] == tx && b.txs[i..][1..] == b.txs[i + 1..];
        assert ApplyTxs(params, ctx, st, b.txs[i..], seen) == ApplyFirst(params, ctx, st, b.txs[i..], seen);
        if !TxAdmissible(st, tx, seen) {
          return Rejected;
        }
        var next := ApplyTx(params, ctx, st, tx);
        if next.Rejected? {
          return Rejected;
        }
        st, seen, i := next.value, seen + {TxId(tx)}, i + 1;
      }
      r := Ok(st);
    }

    /** `submit_block`: on success the whole new state, on any failure the untouched old one. */
    method SubmitBlock(b: Block) returns (ok: bool)
      requires Valid()
      modifies this
      ensures Valid()
      ensures ok == ApplyBlock(params, old(View()), b).Ok?
      ensures ok ==> View() == ApplyBlock(params, old(View()), b).value
      ensures !ok ==> View() == old(View())
      ensures old(Elect(stakes, Seed(b.header.previousHash, b.header.index))) != Some(b.header.validator) ==> !ok
    {
      hide HeaderAccepted;
      hide ApplyTxs;
      hide BeginBlock;
      hide Supply;
      hide Elect;
      hide MerkleRoot;
      var admitted := CheckHeader(b);
      if !admitted {
        return false;
      }
      var start := Prepare(b);
      var run := RunTransactions(b, start);
      if run.Rejected? || Supply(run.value.accounts) != MAX_SUPPLY_UNITS {
        return false;
      }
      var st := run.value;
      chain := chain + [Content(b)];
      balances, nonces := st.accounts.balances, st.accounts.nonces;
      stakes, unbonding := st.accounts.stakes, st.accounts.unbonding;
      slashed, slashedAddrs, ffg := st.slashed, st.slashedAddrs, st.ffg;
      ok := true;
    }

    /** `stake_of`. */
    function StakeOf(a: Address): int
      reads this
    {
      Get(stakes, a)
    }
  }
}
