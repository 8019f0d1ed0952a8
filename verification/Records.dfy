/** The records of core.py and the digests and signatures over them.

    Addresses and digests are numbers; equal-length lower-case hex digests compare as the numbers
    they spell, which is the order fork choice uses. The cryptographic functions are constants
    without a definition, so every theorem holds for whichever functions they are; the theorems
    that need collision-freeness say so with `requires CollisionFree()`. */
module Records {
  import opened Sums

  type Hash = nat

  datatype Option<+T> = None | Some(value: T)

  /** A raised exception, of any class, is a rejection. */
  datatype Result<+T> = Ok(value: T) | Rejected

  /** A recipient is a payee or one of the reserved sentinels that make a transaction an operation. */
  datatype Recipient =
    | Account(address: Address)
    | StakeSentinel
    | UnstakeSentinel
    | SlashSentinel
    | VoteSentinel

  /** A finality link: source and target checkpoints with their claimed heights. */
  datatype Link = Link(s: Hash, sh: int, t: Hash, th: int)

  /** What the JSON text of `tx.evidence` decodes to. */
  datatype Evidence =
    | NoEvidence
    | VoteLink(link: Link)
    | BlockFault(b1: Block, b2: Block)
    | VoteFault(a: Tx, b: Tx)
    | Malformed(text: nat)

  datatype Tx = Tx(
    sender: Address,
    recipient: Recipient,
    amount: int,
    fee: int,
    nonce: int,
    publicKey: nat,
    signature: nat,
    evidence: Evidence)

  datatype Header = Header(
    index: int,
    previousHash: Hash,
    timestamp: int,
    merkleRoot: Hash,
    validator: Address,
    nonce: int)

  /** The proposer's public key and signature: outside the header, so outside the block hash. */
  datatype Seal = Unsealed | Seal(pubkey: nat, signature: nat)

  datatype Block = Block(header: Header, txs: seq<Tx>, seal: Seal)

  const headerDigest: Header -> Hash
  const txDigest: Tx -> Hash
  const pairDigest: (Hash, Hash) -> Hash
  const emptyDigest: Hash
  const seedDigest: (Hash, int) -> nat
  const offenseDigest: (Hash, Hash) -> Hash
  const txSigned: Tx -> bool
  const sealSigned: (Header, Seal) -> bool

  function BlockHash(b: Block): Hash {
    headerDigest(b.header)
  }

  function TxId(tx: Tx): Hash {
    txDigest(tx)
  }

  function PairHash(a: Hash, b: Hash): Hash {
    pairDigest(a, b)
  }

  /** The integer read from sha256(previous hash, height). */
  function Seed(previousHash: Hash, index: int): nat {
    seedDigest(previousHash, index)
  }

  /** The public key hashes to the sender and the signature verifies over the payload. */
  predicate TxAuthentic(tx: Tx) {
    txSigned(tx)
  }

  /** The block carries a seal whose key hashes to the validator and signs the block hash. */
  predicate SealAuthentic(b: Block) {
    b.seal.Seal? && sealSigned(b.header, b.seal)
  }

  /** No two different preimages among headers, transactions and Merkle nodes share a digest. */
  ghost predicate CollisionFree() {
    && (forall h, k :: headerDigest(h) == headerDigest(k) ==> h == k)
    && (forall t, u :: txDigest(t) == txDigest(u) ==> t == u)
    && (forall a, b, c, d :: pairDigest(a, b) == pairDigest(c, d) ==> a == c && b == d)
    && (forall t, a, b :: txDigest(t) != pairDigest(a, b))
    && (forall t :: txDigest(t) != emptyDigest)
    && (forall a, b :: pairDigest(a, b) != emptyDigest)
  }

  /** What the block hash and the ledger depend on: everything but the seal. */
  function Content(b: Block): Block {
    b.(seal := Unsealed)
  }

  function TxIds(txs: seq<Tx>): (ids: seq<Hash>)
    ensures |ids| == |txs|
    ensures forall i :: 0 <= i < |txs| ==> ids[i] == TxId(txs[i])
  {
    seq(|txs|, i requires 0 <= i < |txs| => TxId(txs[i]))
  }

  /** `Transaction.is_valid`: shape, then signature. */
  predicate TxValid(tx: Tx) {
    && 0 <= tx.amount && 0 <= tx.fee && 0 <= tx.nonce
    && (if tx.recipient.SlashSentinel? || tx.recipient.VoteSentinel?
        then tx.amount == 0 && !tx.evidence.NoEvidence?
        else 0 < tx.amount)
    && TxAuthentic(tx)
  }

  /** Recorded offenses; the two kinds never collide. */
  datatype Offense = BlockOffense(offender: Address, height: int) | VoteOffense(id: Hash)

  predicate DoubleVote(la: Link, lb: Link) {
    la.th == lb.th && (la.t != lb.t || la.s != lb.s)
  }

  predicate SurroundVote(la: Link, lb: Link) {
    (la.sh < lb.sh && lb.th < la.th) || (lb.sh < la.sh && la.th < lb.th)
  }

  predicate IsVote(tx: Tx) {
    TxValid(tx) && tx.recipient.VoteSentinel? && tx.evidence.VoteLink?
  }

  function OffenseId(a: Hash, b: Hash): Hash {
    if a <= b then offenseDigest(a, b) else offenseDigest(b, a)
  }

  /** `verify_vote_fault`: two of one voter's own votes that double or surround. */
  function VerifyVoteFault(a: Tx, b: Tx): Result<(Address, Offense)> {
    if !IsVote(a) || !IsVote(b) || a.sender != b.sender then Rejected
    else if !DoubleVote(a.evidence.link, b.evidence.link) && !SurroundVote(a.evidence.link, b.evidence.link)
    then Rejected
    else Ok((a.sender, VoteOffense(OffenseId(TxId(a), TxId(b)))))
  }

  /** `verify_equivocation`: two distinct blocks one validator sealed on one parent at one height. */
  function VerifyEquivocation(a: Block, b: Block): Result<(Address, Offense)> {
    if a.header.index != b.header.index || a.header.previousHash != b.header.previousHash then Rejected
    else if a.header.validator != b.header.validator || BlockHash(a) == BlockHash(b) then Rejected
    else if !SealAuthentic(a) || !SealAuthentic(b) then Rejected
    else Ok((a.header.validator, BlockOffense(a.header.validator, a.header.index)))
  }

  /** The two fault kinds of a slash transaction's evidence. */
  function VerifyFault(e: Evidence): Result<(Address, Offense)> {
    match e
    case VoteFault(a, b) => VerifyVoteFault(a, b)
    case BlockFault(a, b) => VerifyEquivocation(a, b)
    case _ => Rejected
  }
}
