/** The node the explorer reads, as values: a chain is a function from block
    number to the outcome of fetching that block, and every other read call
    is a function from its argument to its (possibly failed) answer. */
module Chain {
  import opened Wrappers

  type Address = string
  type Hash = string

  /** A transaction "to" this address is treated as a contract creation. */
  const ZeroAddress: Address := "0x0000000000000000000000000000000000000000"

  datatype Tx = Tx(hash: Hash, from: Address, to: Option<Address>, value: nat, gasPrice: Option<nat>)

  /** A block as the node returns it. `transactions` is `None` when the
      response carries no transaction list. */
  datatype Block = Block(
    number: int,
    timestamp: int,
    miner: Address,
    gasUsed: Option<nat>,
    gasLimit: Option<nat>,
    transactions: Option<seq<Tx>>)

  /** Outcome of `getBlock(n)`: a block, `null` (no such block), or a rejected call. */
  datatype Fetch = Found(block: Block) | Missing | Failed

  /** Answers of the four ERC-20 read calls; `None` is a call that failed. */
  datatype Probe = Probe(name: Option<string>, symbol: Option<string>, decimals: Option<nat>, totalSupply: Option<nat>)

  /** The node. `receipt(h)` is the `contractAddress` of the receipt of `h`
      (`None` when the call fails, there is no receipt or no address);
      `gasPrice` is `None` when `getFeeData` fails and `Some(None)` when it
      reports no gas price. */
  datatype Node = Node(
    latest: Option<nat>,
    blockAt: int -> Fetch,
    receipt: Hash -> Option<Address>,
    probe: Address -> Probe,
    balance: Address -> Option<nat>,
    nonce: Address -> Option<nat>,
    gasPrice: Option<Option<nat>>)

  /** `getBlock(b, true).catch(() => null)`, then the truthiness test `if (block)`. */
  function Fetched(f: Fetch): Option<Block> {
    if f.Found? then Some(f.block) else None
  }

  /** A node whose blocks carry the number they were fetched by. */
  ghost predicate Consistent(node: Node) {
    forall b :: node.blockAt(b).Found? ==> node.blockAt(b).block.number == b
  }

  /** The transaction list of a fetched block; a block without one contributes nothing. */
  function TxsOf(blk: Block): seq<Tx> {
    if blk.transactions.Some? then blk.transactions.value else []
  }

  /** `!tx.to || tx.to === ZeroAddress`: a missing, empty or zero destination. */
  predicate IsCreation(to: Option<Address>) {
    to == None || to == Some("") || to == Some(ZeroAddress)
  }

  /** The contract a transaction created, as its receipt reports it: only a
      creation is looked up, and a missing or empty `contractAddress` gives
      nothing. */
  function CreatedBy(node: Node, hash: Hash, to: Option<Address>): (r: Option<Address>)
    ensures r.Some? ==> IsCreation(to) && r.value != "" && node.receipt(hash) == r
    ensures IsCreation(to) && node.receipt(hash).Some? && node.receipt(hash).value != "" ==> r.Some?
  {
    if IsCreation(to) && node.receipt(hash).Some? && node.receipt(hash).value != "" then node.receipt(hash)
    else None
  }

  // --------------------------------------------------------------- summaries

  datatype BlockSummary = BlockSummary(number: int, timestamp: int, miner: Address, txCount: nat, gasUsed: nat, gasLimit: nat)

  /** The record every scanner stores per transaction; amounts are kept as
      numbers rather than as their decimal strings. */
  datatype TxSummary = TxSummary(
    hash: Hash,
    from: Address,
    to: Option<Address>,
    value: nat,
    blockNumber: int,
    timestamp: int,
    gasPrice: nat)

  function SummarizeBlock(blk: Block): (s: BlockSummary)
    ensures s.number == blk.number && s.txCount == |TxsOf(blk)|
  {
    BlockSummary(blk.number, blk.timestamp, blk.miner, |TxsOf(blk)|, blk.gasUsed.GetOr(0), blk.gasLimit.GetOr(0))
  }

  /** A transaction summary carries its block's number and timestamp. */
  function SummarizeTx(tx: Tx, blk: Block): (s: TxSummary)
    ensures s.hash == tx.hash && s.blockNumber == blk.number && s.timestamp == blk.timestamp
  {
    TxSummary(tx.hash, tx.from, tx.to, tx.value, blk.number, blk.timestamp, tx.gasPrice.GetOr(0))
  }

  /** The summaries of a block's transactions, in block order. */
  function SummarizeAll(txs: seq<Tx>, blk: Block): (r: seq<TxSummary>)
    ensures |r| == |txs|
    ensures forall i :: 0 <= i < |txs| ==> r[i] == SummarizeTx(txs[i], blk)
  {
    if txs == [] then [] else SummarizeAll(txs[..|txs| - 1], blk) + [SummarizeTx(txs[|txs| - 1], blk)]
  }

  /** The contiguous block numbers `lo, lo + 1, ..., hi - 1`. */
  function Range(lo: int, hi: int): (r: seq<int>)
    ensures |r| == if hi <= lo then 0 else hi - lo
    ensures forall k :: 0 <= k < |r| ==> r[k] == lo + k
    decreases hi - lo
  {
    if hi <= lo then [] else Range(lo, hi - 1) + [hi - 1]
  }
}
