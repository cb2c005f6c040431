/** The persisted cache document of `lib/cache.js`: its shape, the empty
    cache, reading it back, and the invariant every sync keeps. */
module CacheStore {
  import opened Wrappers
  import opened Chain
  import opened Sorting

  /** An ERC-20 token record. `supplyFormatted` is `totalSupplyFormatted`,
      the supply in whole units (`totalSupply / 10^decimals`) that the
      tokens are ranked by, kept exact rather than as a double. */
  datatype Token = Token(address: Address, name: string, symbol: string, decimals: nat, totalSupply: nat, supplyFormatted: real)

  function TokenAddress(t: Token): Address { t.address }

  /** The comparator `(a, b) => b.totalSupplyFormatted - a.totalSupplyFormatted`:
      a larger supply comes first. */
  predicate MoreSupply(a: Token, b: Token) { a.supplyFormatted > b.supplyFormatted }

  lemma {:induction false} MoreSupplyIsStrict()
    ensures StrictOrder(MoreSupply)
  {
  }

  datatype CacheState = CacheState(
    lastScannedBlock: int,
    blocks: seq<BlockSummary>,
    transactions: seq<TxSummary>,
    contracts: seq<Address>,
    tokens: seq<Token>,
    checkedContracts: seq<Address>,
    lastSynced: Option<string>)

  /** What the cache file holds: nothing, text that does not parse, or a document. */
  datatype Stored = NoFile | Unreadable | Parsed(cache: CacheState)

  ghost predicate NoDuplicates<T>(s: seq<T>) {
    forall i, j :: 0 <= i < j < |s| ==> s[i] != s[j]
  }

  /** Blocks in strictly ascending order, none past the cursor. */
  ghost predicate BlocksWf(blocks: seq<BlockSummary>, cursor: int) {
    && (forall i, j :: 0 <= i < j < |blocks| ==> blocks[i].number < blocks[j].number)
    && (forall i :: 0 <= i < |blocks| ==> blocks[i].number <= cursor)
  }

  /** Transactions in ascending block order, none past the cursor. */
  ghost predicate TxsWf(txs: seq<TxSummary>, cursor: int) {
    && (forall i, j :: 0 <= i < j < |txs| ==> txs[i].blockNumber <= txs[j].blockNumber)
    && (forall i :: 0 <= i < |txs| ==> txs[i].blockNumber <= cursor)
  }

  /** The invariant of a cache built by syncs: the chain data in order up
      to the cursor; contracts and checked contracts free of duplicates,
      every contract checked; tokens unique by address, all checked, and
      ranked by supply. */
  ghost predicate Wf(c: CacheState) {
    && BlocksWf(c.blocks, c.lastScannedBlock)
    && TxsWf(c.transactions, c.lastScannedBlock)
    && NoDuplicates(c.contracts)
    && NoDuplicates(c.checkedContracts)
    && (forall a :: a in c.contracts ==> a in c.checkedContracts)
    && DistinctBy(c.tokens, TokenAddress)
    && (forall t :: t in c.tokens ==> t.address in c.checkedContracts)
    && Sorted(c.tokens, MoreSupply)
  }

  /** `emptyCache()`: nothing scanned yet, so the next sync starts at block 0. */
  function EmptyCache(): (c: CacheState)
    ensures Wf(c)
    ensures c.lastScannedBlock + 1 == 0
    ensures c.blocks == [] && c.transactions == [] && c.contracts == [] && c.tokens == [] && c.checkedContracts == []
    ensures c.lastSynced == None
  {
    CacheState(-1, [], [], [], [], [], None)
  }

  /** `readCache()`: the stored document, or the empty cache when there is no
      file or it cannot be read or parsed. */
  function ReadCache(stored: Stored): (c: CacheState)
    ensures stored.Parsed? ==> c == stored.cache
    ensures !stored.Parsed? ==> c == EmptyCache()
  {
    match stored
    case Parsed(cache) => cache
    case _ => EmptyCache()
  }

  /** `writeCache(cache)`: a failed write is logged and swallowed, leaving the
      file as it was. */
  function WriteCache(stored: Stored, c: CacheState, writeOk: bool): (r: Stored)
    ensures ReadCache(r) == if writeOk then c else ReadCache(stored)
  {
    if writeOk then Parsed(c) else stored
  }
}
