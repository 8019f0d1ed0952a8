/** The ledger of core.py and consensus.py as one record, and one block as one step.

    The source works on copies of its dictionaries and commits them only when the whole block
    passed, so a step is a function from a state to a new state or a rejection. */
module Ledger {
  import opened Sums
  import opened Records
  import opened Vesting
  import opened Merkle
  import opened Election

  const MAX_SUPPLY_UNITS: int := 100_000_000_000_000
  const REPORTER_BPS: int := 500
  const GENESIS_PREV: Hash := 0
  const GENESIS_VALIDATOR: Address := 0

  /** One delayed withdrawal. */
  datatype Entry = Entry(amount: int, bondHeight: int, releaseHeight: int)

  /** The three pools of money, and the nonces. */
  datatype Accounts = Accounts(
    balances: map<Address, int>,
    nonces: map<Address, int>,
    stakes: map<Address, int>,
    unbonding: map<Address, seq<Entry>>)

  datatype Checkpoint = Checkpoint(hash: Hash, height: int)

  /** The Casper-FFG record: stake snapshots and heights of checkpoints, votes per link, the one link
      each voter cast per target height, and what is justified and finalized. */
  datatype Finality = Finality(
    stakeAt: map<Hash, map<Address, int>>,
    heightAt: map<Hash, int>,
    votes: map<(Hash, Hash), set<Address>>,
    seenTarget: map<(Address, int), (Hash, Hash)>,
    justified: set<Hash>,
    finalized: Checkpoint)

  datatype State = State(
    accounts: Accounts,
    slashed: set<Offense>,
    slashedAddrs: set<Address>,
    ffg: Finality)

  datatype Ledger = Ledger(chain: seq<Block>, state: State)

  datatype Params = Params(
    vesting: map<Address, Grant>,
    unbondingBlocks: int,
    treasury: Option<Address>,
    epoch: int)

  datatype GenesisArgs = GenesisArgs(
    allocations: map<Address, int>,
    initialStakes: map<Address, int>,
    timestamp: int,
    params: Params)

  // -- unbonding queues --------------------------------------------------------------------

  function EntriesSum(q: seq<Entry>): int {
    if q == [] then 0 else EntriesSum(q[..|q| - 1]) + q[|q| - 1].amount
  }

  function Pending(q: seq<Entry>, height: int): (r: seq<Entry>)
    ensures |r| <= |q|
  {
    if q == [] then [] else
      var rest := Pending(q[..|q| - 1], height);
      if q[|q| - 1].releaseHeight <= height then rest else rest + [q[|q| - 1]]
  }

  function MaturedSum(q: seq<Entry>, height: int): int {
    if q == [] then 0 else
      MaturedSum(q[..|q| - 1], height)
      + (if q[|q| - 1].releaseHeight <= height then q[|q| - 1].amount else 0)
  }

  function Queue(u: map<Address, seq<Entry>>, a: Address): seq<Entry> {
    if a in u then u[a] else []
  }

  function UnbondingOf(acc: Accounts, a: Address): int {
    EntriesSum(Queue(acc.unbonding, a))
  }

  function UnbondingTotals(u: map<Address, seq<Entry>>): map<Address, int> {
    map a | a in u :: EntriesSum(u[a])
  }

  /** Liquid plus staked plus unbonding, of one address. */
  function Holding(acc: Accounts, a: Address): int {
    Get(acc.balances, a) + Get(acc.stakes, a) + UnbondingOf(acc, a)
  }

  /** Active stake plus still-unbonding: what a slash confiscates. */
  function Bonded(acc: Accounts, a: Address): int {
    Get(acc.stakes, a) + UnbondingOf(acc, a)
  }

  function Supply(acc: Accounts): int {
    Total(acc.balances) + Total(acc.stakes) + Total(UnbondingTotals(acc.unbonding))
  }

  // -- genesis -----------------------------------------------------------------------------

  function GenesisBlock(timestamp: int): Block {
    Block(Header(0, GENESIS_PREV, timestamp, emptyDigest, GENESIS_VALIDATOR, 0), [], Unsealed)
  }

  function GenesisHash(g: GenesisArgs): Hash {
    BlockHash(GenesisBlock(g.timestamp))
  }

  predicate ValidAllocations(g: GenesisArgs) {
    && (forall a :: a in g.allocations ==> 0 <= g.allocations[a])
    && Total(g.allocations) == MAX_SUPPLY_UNITS
  }

  predicate ValidInitialStakes(g: GenesisArgs) {
    forall a :: a in g.initialStakes ==>
      0 < g.initialStakes[a] && g.initialStakes[a] <= Get(g.allocations, a)
  }

  predicate ValidVesting(g: GenesisArgs) {
    forall a :: a in g.params.vesting ==>
      ValidGrant(g.params.vesting[a]) && g.params.vesting[a].total <= Get(g.allocations, a)
  }

  function LiquidAtGenesis(g: GenesisArgs): map<Address, int> {
    map a | a in g.allocations :: g.allocations[a] - Get(g.initialStakes, a)
  }

  /** Initial stakes move from balance to stake; the treasury becomes a balance holder. */
  function GenesisAccounts(g: GenesisArgs): Accounts {
    var liquid := LiquidAtGenesis(g);
    var balances := if g.params.treasury.Some? && g.params.treasury.value !in liquid
                    then liquid[g.params.treasury.value := 0] else liquid;
    Accounts(balances, map a | a in g.allocations :: 0, g.initialStakes, map[])
  }

  function GenesisFinality(g: GenesisArgs): Finality {
    var h := GenesisHash(g);
    Finality(map[h := g.initialStakes], map[h := 0], map[], map[], {h}, Checkpoint(h, 0))
  }

  function Genesis(g: GenesisArgs): Result<Ledger> {
    if ValidAllocations(g) && ValidInitialStakes(g) && ValidVesting(g) && 0 < g.params.epoch
    then Ok(Ledger([GenesisBlock(g.timestamp)], State(GenesisAccounts(g), {}, {}, GenesisFinality(g))))
    else Rejected
  }

  // -- before the transactions: maturation and the epoch snapshot ------------------------------

  function MaturedBalances(acc: Accounts, height: int): map<Address, int> {
    map a | a in acc.balances.Keys
                 + (set b | b in acc.unbonding && |Pending(acc.unbonding[b], height)| < |acc.unbonding[b]|)
      :: Get(acc.balances, a) + MaturedSum(Queue(acc.unbonding, a), height)
  }

  function StillUnbonding(u: map<Address, seq<Entry>>, height: int): map<Address, seq<Entry>> {
    map a | a in u && Pending(u[a], height) != [] :: Pending(u[a], height)
  }

  function Mature(acc: Accounts, height: int): Accounts {
    acc.(balances := MaturedBalances(acc, height), unbonding := StillUnbonding(acc.unbonding, height))
  }

  function TakeSnapshot(p: Params, ffg: Finality, stakes: map<Address, int>, hash: Hash, height: int): Finality
    requires p.epoch != 0
  {
    if height % p.epoch == 0
    then ffg.(stakeAt := ffg.stakeAt[hash := stakes], heightAt := ffg.heightAt[hash := height])
    else ffg
  }

  function BeginBlock(p: Params, st: State, b: Block): State
    requires p.epoch != 0
  {
    st.(accounts := Mature(st.accounts, b.header.index),
        ffg := TakeSnapshot(p, st.ffg, st.accounts.stakes, BlockHash(b), b.header.index))
  }

  // -- transactions ------------------------------------------------------------------------

  /** What a transaction sees of its block: height, proposer, and the parent's justified set. */
  datatype Context = Context(height: int, proposer: Address, justifiedParent: set<Hash>)

  /** Debit the sender, then credit the fee to the proposer; the sender key must exist to be debited. */
  function PayFee(balances: map<Address, int>, sender: Address, fee: int, proposer: Address): map<Address, int>
  {
    Credit(Credit(balances, sender, -fee), proposer, fee)
  }

  function ApplyTransfer(ctx: Context, acc: Accounts, tx: Tx, recipient: Address): Result<Accounts> {
    var cost := tx.amount + tx.fee;
    if Get(acc.balances, tx.sender) < cost then Rejected else
      var debited := Credit(acc.balances, tx.sender, -cost);
      var paid := Credit(debited, recipient, tx.amount);
      var bumped := acc.nonces[tx.sender := tx.nonce + 1];
      Ok(acc.(balances := Credit(paid, ctx.proposer, tx.fee),
              nonces := if recipient in bumped then bumped else bumped[recipient := 0]))
  }

  function ApplyStake(ctx: Context, acc: Accounts, tx: Tx): Result<Accounts> {
    var cost := tx.amount + tx.fee;
    if Get(acc.balances, tx.sender) < cost then Rejected else
      var debited := Credit(acc.balances, tx.sender, -cost);
      Ok(acc.(balances := Credit(debited, ctx.proposer, tx.fee),
              stakes := Credit(acc.stakes, tx.sender, tx.amount),
              nonces := acc.nonces[tx.sender := tx.nonce + 1]))
  }

  /** A sender without a balance entry makes the source raise a KeyError: also a rejection. */
  function ApplyUnstake(p: Params, ctx: Context, acc: Accounts, tx: Tx): Result<Accounts> {
    if Get(acc.balances, tx.sender) < tx.fee then Rejected
    else if Get(acc.stakes, tx.sender) < tx.amount then Rejected
    else if tx.sender !in acc.balances || tx.sender !in acc.stakes then Rejected
    else
      var left := acc.stakes[tx.sender] - tx.amount;
      var delayed := p.unbondingBlocks > 0;
      var entry := Entry(tx.amount, ctx.height, ctx.height + p.unbondingBlocks);
      var debited := Credit(acc.balances, tx.sender, -tx.fee);
      var returned := if delayed then debited else Credit(debited, tx.sender, tx.amount);
      if left == 0 && |acc.stakes| <= 1 then Rejected else
        Ok(Accounts(
          Credit(returned, ctx.proposer, tx.fee),
          acc.nonces[tx.sender := tx.nonce + 1],
          if left == 0 then acc.stakes - {tx.sender} else acc.stakes[tx.sender := left],
          if delayed then acc.unbonding[tx.sender := Queue(acc.unbonding, tx.sender) + [entry]] else acc.unbonding))
  }

  /** The reporter's share and the beneficiary of a slash. */
  function ReporterShare(bonded: int): int {
    bonded * REPORTER_BPS / 10000
  }

  function ConfiscatedAccounts(ctx: Context, acc: Accounts, tx: Tx, offender: Address, treasury: Address): Accounts {
    var bonded := Bonded(acc, offender);
    var share := ReporterShare(bonded);
    var beneficiary := if tx.sender != offender then tx.sender else treasury;
    var paid := PayFee(acc.balances, tx.sender, tx.fee, ctx.proposer);
    Accounts(
      Credit(Credit(paid, beneficiary, share), treasury, bonded - share),
      acc.nonces[tx.sender := tx.nonce + 1],
      acc.stakes - {offender},
      acc.unbonding - {offender})
  }

  function ApplySlash(p: Params, ctx: Context, st: State, tx: Tx): Result<State> {
    var fault := VerifyFault(tx.evidence);
    if fault.Rejected? || p.treasury.None? then Rejected else
      var (offender, offense) := fault.value;
      if offense in st.slashed then Rejected
      else if Get(st.accounts.balances, tx.sender) < tx.fee || tx.sender !in st.accounts.balances then Rejected
      else Ok(st.(accounts := ConfiscatedAccounts(ctx, st.accounts, tx, offender, p.treasury.value),
                  slashed := st.slashed + {offense},
                  slashedAddrs := st.slashedAddrs + {offender}))
  }

  /** The rules a finality link must meet before any money or vote moves. */
  predicate LinkAccepted(p: Params, ctx: Context, st: State, voter: Address, k: Link)
    requires p.epoch != 0
  {
    var ffg := st.ffg;
    && 0 <= k.sh && 0 <= k.th
    && k.sh % p.epoch == 0 && k.th % p.epoch == 0 && k.sh < k.th
    && k.s in ffg.stakeAt && k.t in ffg.stakeAt
    && k.s in ffg.heightAt && ffg.heightAt[k.s] == k.sh
    && k.t in ffg.heightAt && ffg.heightAt[k.t] == k.th
    && k.s in ctx.justifiedParent
    && voter !in st.slashedAddrs
    && 0 < Get(ffg.stakeAt[k.s], voter)
    && ((voter, k.th) in ffg.seenTarget ==> ffg.seenTarget[(voter, k.th)] == (k.s, k.t))
  }

  function Voters(ffg: Finality, s: Hash, t: Hash): set<Address> {
    if (s, t) in ffg.votes then ffg.votes[(s, t)] else {}
  }

  /** At least two thirds of the source's snapshot stake, proven-Byzantine voters left out of both sides. */
  predicate Quorum(snapshot: map<Address, int>, voters: set<Address>, slashedAddrs: set<Address>) {
    var voted := Sum(voters - slashedAddrs, snapshot);
    var total := Sum(snapshot.Keys - slashedAddrs, snapshot);
    0 < total && 3 * voted >= 2 * total
  }

  /** Record one vote, then justify the target and finalize its direct epoch parent if the quorum is there. */
  function CountVote(p: Params, ffg: Finality, slashedAddrs: set<Address>, voter: Address, k: Link): Finality
    requires k.s in ffg.stakeAt
  {
    var voters := Voters(ffg, k.s, k.t) + {voter};
    var cast := ffg.(votes := ffg.votes[(k.s, k.t) := voters],
                     seenTarget := ffg.seenTarget[(voter, k.th) := (k.s, k.t)]);
    if !Quorum(ffg.stakeAt[k.s], voters, slashedAddrs) then cast else
      cast.(justified := ffg.justified + {k.t},
            finalized := if k.th == k.sh + p.epoch && ffg.finalized.height < k.sh
                         then Checkpoint(k.s, k.sh) else ffg.finalized)
  }

  function ApplyVote(p: Params, ctx: Context, st: State, tx: Tx): Result<State>
    requires p.epoch != 0
  {
    if !tx.evidence.VoteLink? || !LinkAccepted(p, ctx, st, tx.sender, tx.evidence.link) then Rejected
    else if Get(st.accounts.balances, tx.sender) < tx.fee || tx.sender !in st.accounts.balances then Rejected
    else
      var acc := st.accounts;
      Ok(st.(accounts := acc.(balances := PayFee(acc.balances, tx.sender, tx.fee, ctx.proposer),
                              nonces := acc.nonces[tx.sender := tx.nonce + 1]),
             ffg := CountVote(p, st.ffg, st.slashedAddrs, tx.sender, tx.evidence.link)))
  }

  function LockedOf(p: Params, a: Address, height: int): int {
    if a in p.vesting then Locked(p.vesting[a], height) else 0
  }

  predicate VestingKept(p: Params, height: int, acc: Accounts, a: Address) {
    LockedOf(p, a, height) <= 0 || LockedOf(p, a, height) <= Holding(acc, a)
  }

  /** Transfer, stake and unstake move money; each ends with the sender's vesting check. */
  function MoveMoney(p: Params, ctx: Context, acc: Accounts, tx: Tx): Result<Accounts>
  {
    match tx.recipient
    case StakeSentinel => ApplyStake(ctx, acc, tx)
    case UnstakeSentinel => ApplyUnstake(p, ctx, acc, tx)
    case Account(a) => ApplyTransfer(ctx, acc, tx, a)
    case _ => Rejected
  }

  function ApplyTx(p: Params, ctx: Context, st: State, tx: Tx): Result<State>
    requires p.epoch != 0
  {
    if tx.recipient.SlashSentinel? then ApplySlash(p, ctx, st, tx)
    else if tx.recipient.VoteSentinel? then ApplyVote(p, ctx, st, tx)
    else
      var moved := MoveMoney(p, ctx, st.accounts, tx);
      if moved.Rejected? || !VestingKept(p, ctx.height, moved.value, tx.sender) then Rejected
      else Ok(st.(accounts := moved.value))
  }

  /** The checks every transaction of a block passes before its kind is looked at. */
  predicate TxAdmissible(st: State, tx: Tx, seen: set<Hash>) {
    TxId(tx) !in seen && TxValid(tx) && Get(st.accounts.nonces, tx.sender) == tx.nonce
  }

  /** The transaction loop of a block. */
  function ApplyTxs(p: Params, ctx: Context, st: State, txs: seq<Tx>, seen: set<Hash>): Result<State>
    requires p.epoch != 0
    decreases |txs|, 1
  {
    if txs == [] then Ok(st) else ApplyFirst(p, ctx, st, txs, seen)
  }

  /** One turn of the loop, then the rest. */
  function ApplyFirst(p: Params, ctx: Context, st: State, txs: seq<Tx>, seen: set<Hash>): Result<State>
    requires p.epoch != 0 && txs != []
    decreases |txs|, 0
  {
    if !TxAdmissible(st, txs[0], seen) then Rejected else
      var next := ApplyTx(p, ctx, st, txs[0]);
      if next.Rejected? then Rejected
      else ApplyTxs(p, ctx, next.value, txs[1..], seen + {TxId(txs[0])})
  }

  // -- blocks ------------------------------------------------------------------------------

  function Head(l: Ledger): Block
    requires l.chain != []
  {
    l.chain[|l.chain| - 1]
  }

  /** The elected validator sealed the block. */
  predicate ProposerAccepted(stakes: map<Address, int>, b: Block) {
    && Elect(stakes, Seed(b.header.previousHash, b.header.index)) == Some(b.header.validator)
    && SealAuthentic(b)
  }

  predicate HeaderAccepted(l: Ledger, b: Block)
    requires l.chain != []
  {
    && b.header.previousHash == BlockHash(Head(l))
    && b.header.index == Head(l).header.index + 1
    && b.header.merkleRoot == MerkleRoot(TxIds(b.txs))
    && ProposerAccepted(l.state.accounts.stakes, b)
  }

  function ContextOf(l: Ledger, b: Block): Context {
    Context(b.header.index, b.header.validator, l.state.ffg.justified)
  }

  /** The state after the block's transactions, before the supply check. */
  function RunBlock(p: Params, l: Ledger, b: Block): Result<State>
    requires p.epoch != 0
  {
    ApplyTxs(p, ContextOf(l, b), BeginBlock(p, l.state, b), b.txs, {})
  }

  /** The state while the block runs, after its first n transactions. */
  function RunPrefix(p: Params, l: Ledger, b: Block, n: nat): Result<State>
    requires p.epoch != 0 && n <= |b.txs|
  {
    ApplyTxs(p, ContextOf(l, b), BeginBlock(p, l.state, b), b.txs[..n], {})
  }

  /** `submit_block`: everything or nothing. */
  function ApplyBlock(p: Params, l: Ledger, b: Block): (r: Result<Ledger>)
    requires p.epoch != 0 && l.chain != []
    ensures r.Ok? ==> r.value.chain == l.chain + [Content(b)]
  {
    if !HeaderAccepted(l, b) then Rejected else
      var run := RunBlock(p, l, b);
      if run.Rejected? || Supply(run.value.accounts) != MAX_SUPPLY_UNITS then Rejected
      else Ok(Ledger(l.chain + [Content(b)], run.value))
  }

  /** Replay from genesis. */
  function Replay(g: GenesisArgs, blocks: seq<Block>): (r: Result<Ledger>)
    ensures r.Ok? ==> 0 < g.params.epoch && |r.value.chain| == |blocks| + 1
    decreases |blocks|, 1
  {
    if blocks == [] then Genesis(g) else ReplayLast(g, blocks)
  }

  /** Replay all but the last block, then submit the last one. */
  function ReplayLast(g: GenesisArgs, blocks: seq<Block>): (r: Result<Ledger>)
    requires blocks != []
    ensures r.Ok? ==> 0 < g.params.epoch && |r.value.chain| == |blocks| + 1
    decreases |blocks|, 0
  {
    var before := Replay(g, blocks[..|blocks| - 1]);
    if before.Rejected? then Rejected
    else ApplyBlock(g.params, before.value, blocks[|blocks| - 1])
  }
}
