# CPNV scan — a Dafny model of the explorer's core

This project models the core of a small Ethereum block explorer and proves
properties of that model. The explorer is a Next.js application. Its core is:

- **lib/cache.js**: an incremental cache that scans new blocks in windows of
  twenty. It records block and transaction summaries and detects contract
  creations from receipts. It probes new contracts for the four ERC-20 read
  calls, ranks the tokens it finds by supply, and advances a cursor. A
  network graph is derived from the cached transactions.
- **lib/ethereum.js**: the node read helpers.
  - Getters that fall back to `"0"`, `"0.0"` or `0` on failure.
  - `getRecentBlocks`.
  - `getRecentTransactions`, a backward scan in windows.
  - `getAllTransactions` and `getAllAddressTransactions`, forward scans that
    report progress after every window.
- **components/Heatmap.js**: the day × hour aggregation, the colour scale,
  the per-day total, and the progress percentage.
- **The page helpers**:
  - `truncate` and `timeAgo`, in their per-page variants;
  - the search-box router of the home page;
  - the newest-first order, the pagination and the seven-button page window
    of the transactions page;
  - the blocks page and its null filter;
  - the rank and avatar columns of the tokens page.

The node is a value (`Chain.Node`), made of functions:

- `blockAt` gives, for a block number, the outcome of fetching it: a block,
  `null`, or a rejected call;
- `receipt`, `probe`, `balance` and `nonce` give the answers of the other
  read calls.

The disk is a value (`CacheStore.Stored`). The clock is passed in as a
parameter.

Where the source mutates state step by step, the model is imperative and is
proved against a recursive specification function. This covers the scan
loops of `syncCache`, the token probe loop, the graph builder, the three
window scanners, the heatmap aggregation and the transactions page's `page`
state, which is the class `TransactionsPage.Pager`. The properties are then
proved as lemmas about those functions.

Module layout, one module per file:

- `Wrappers`, `JsString`, `Assoc`, `Sorting`: the JavaScript semantics the
  code relies on:
  - `slice`, `trim`, `parseInt`, `toLowerCase` and string `<`;
  - an object used as an insertion-ordered dictionary;
  - a stable `Array.prototype.sort`.
- `Chain`: the node and the summaries the scanners store.
- `BlockScan`: the windows and the blocks a range yields.
- `CacheStore`, `CacheScan`, `TokenProbe`, `CacheSync`, `NetworkGraph`:
  lib/cache.js.
- `Ethereum`: lib/ethereum.js.
- `Heatmap`: components/Heatmap.js.
- `Display`, `TransactionsPage`, `Dashboard`, `BlocksPage`, `TokensPage`:
  the pages.

Points where the code behaves differently from what a reader might expect, and which the model follows:

- **The cursor.** The code moves `lastScannedBlock` to `latest` after
  every scan that is not short-circuited, even when blocks were skipped
  because their fetch failed. Those blocks are never revisited.
  `CacheSync.Sync` states exactly this. A stricter cursor would stop
  before the first skipped block; the code does not.
- **Contract creations.** A creation is a transaction whose `to` is
  missing, empty *or the zero address*, not only a null `to`.
- **Uniqueness.** Transactions are not de-duplicated by hash. Nothing in
  the model claims they are.
- **Too many decimals.** A contract answering `decimals()` with more than
  80 makes `ethers.formatUnits` throw inside the `try`. The old entry has
  already been filtered out, the new one is never pushed, and the address
  stays checked. `TokenProbe.MakeToken` is `None` there.
- **The heatmap.** It reads its data from `getTransactionHeatmapData`.
  That function is not part of this model. The aggregation over whatever
  data it yields is modelled.

## Model

| member | source | states |
|---|---|---|
| JsString.Lower | lib/cache.js:178-179 | `toLowerCase` keeps the length and maps each character on its own |
| JsString.LowerIdempotent | lib/ethereum.js:184 | lowering twice is lowering once, and leaves no upper-case ASCII letter |
| JsString.Slice | lib/cache.js:201 | `slice` never lengthens, and is the plain subsequence for in-range indices |
| JsString.SliceFrom | lib/cache.js:201 | `slice(-n)` is the last `n` characters; `slice(-0)` is the whole string |
| JsString.Trim | app/page.js:72 | `trim` yields a string with no white space at either end, never longer than the input, and leaves a trimmed string as it is |
| JsString.TrimInfix | app/page.js:72 | the result of `trim` is an infix of the input with only white space before and after it |
| JsString.DigitPrefix | components/Heatmap.js:58 | the digit run `parseInt` reads is all digits and is followed by a non-digit |
| JsString.ParseIntOfDecimal | components/Heatmap.js:58 | `parseInt` of a number's decimal rendering, followed by a non-digit, gives the number back |
| JsString.StrLessIrreflexive | lib/cache.js:183 | the string order used by `sort()` is irreflexive |
| JsString.StrLessTransitive | lib/cache.js:183 | the string order is transitive |
| JsString.StrLessTotal | lib/cache.js:183 | two different strings are always ordered one way or the other |
| JsString.SplitJoin | lib/cache.js:207 | `key.split('-')` recovers the two dash-free parts that were joined by `-` |
| Assoc.GetMissing | lib/cache.js:184 | a key is absent (`edgeMap[key] \|\| 0` falls back) exactly when it is not among the keys |
| Assoc.GetPut | lib/cache.js:184 | assigning `edgeMap[key]` changes the value of that key and of no other |
| Assoc.KeysPut | lib/cache.js:206 | assignment keeps an existing key in place and appends a new one, as `Object.entries` orders them |
| Assoc.PutDistinct | lib/cache.js:184 | assignment never creates a second entry for a key |
| Assoc.SumPut | lib/cache.js:184 | assignment changes the sum of the values by the new value minus the old one |
| Sorting.SortBy | lib/cache.js:160 | `sort` with a consistent comparator yields a sorted permutation of its input |
| Sorting.SortedMembers | lib/cache.js:160 | sorting neither adds nor loses an element |
| Sorting.SortDistinct | lib/cache.js:160 | sorting keeps elements with pairwise different keys pairwise different |
| Sorting.SortBySorted | lib/ethereum.js:125 | being stable, the sort leaves an already sorted list unchanged |
| Sorting.SortByStable | lib/ethereum.js:124-125 | for a comparator whose ties are transitive, any two tied elements keep their mutual order: the elements equal to either of them appear in the output in the order of the input |
| Chain.CreatedBy | lib/cache.js:111-115 | an address is reported only for a creation whose receipt names a non-empty `contractAddress`, and always then |
| Chain.SummarizeBlock | lib/cache.js:89-96 | a block summary carries the block's number and `txCount` equal to its number of transactions |
| Chain.SummarizeTx | lib/cache.js:100-108 | a transaction summary carries its hash and its block's number and timestamp |
| Chain.SummarizeAll | lib/cache.js:99-108 | one summary per transaction, in order |
| BlockScan.FetchWindow | lib/cache.js:79-84 | the promises of a window are the fetches of `i .. end`, in order |
| BlockScan.WindowsCover | lib/cache.js:77-78 | the windows are non-empty, at most 20 wide, and together request every block from the start to `latest` once, ascending |
| BlockScan.WindowsShape | lib/cache.js:77-78 | window `k` is `[start + 20k, min(start + 20k + 19, latest)]`; there is one iff `start <= latest`; the last ends at `latest` |
| BlockScan.ScanCounts | lib/cache.js:86-108 | the transactions stored number exactly those the fetched blocks carry; with no failed fetch every block of the range is stored |
| BlockScan.FoundBlocksOrdered | lib/cache.js:86-87 | against a truthful node the stored blocks lie in the range and ascend strictly |
| BlockScan.AllTxsOrdered | lib/cache.js:98-108 | transactions of ascending blocks ascend by block number and stay in the blocks' range |
| BlockScan.FoundBlocksSplit | lib/cache.js:77-87 | scanning a range yields the blocks of its two halves, one after the other |
| BlockScan.AllTxsAppend | lib/cache.js:98-108 | the transactions of two block lists are those of each, concatenated |
| CacheStore.MoreSupplyIsStrict | lib/cache.js:160 | the comparator `b.totalSupplyFormatted - a.totalSupplyFormatted` is a strict order |
| CacheStore.EmptyCache | lib/cache.js:23-33 | the empty cache has cursor -1, so scanning starts at block 0; every list is empty, there is no sync time, and it satisfies the cache invariant |
| CacheStore.ReadCache | lib/cache.js:36-46 | a parsed file is the cache; a missing or unreadable file gives `emptyCache()` |
| CacheStore.WriteCache | lib/cache.js:49-58 | after a write, reading gives the cache written; a failed write leaves the disk as it was |
| CacheScan.RecordTxStep | lib/cache.js:100-121 | one transaction pushes its summary, and pushes its created contract, when not yet known, onto both `contracts` and `newContracts` |
| CacheScan.RecordBlockStep | lib/cache.js:89-124 | one fetched block appends its summary and its transactions, and grows `contracts` by exactly its created addresses |
| CacheScan.ScanStepTrans | lib/cache.js:77-127 | two consecutive scan steps compose into one that appends both parts |
| CacheScan.ScanRangeStep | lib/cache.js:86-123 | a scan appends exactly the fetched blocks' summaries and transactions and nothing else; `contracts` stays duplicate-free and gains exactly the created addresses, the same ones pushed onto `newContracts` |
| CacheScan.ScanRangeSplit | lib/cache.js:77-127 | scanning a range in two parts is scanning it at once |
| CacheScan.ScanRangeFrame | lib/cache.js:81 | a scan depends only on the blocks of its range and on the receipts |
| CacheScan.RecordAgrees | lib/cache.js:113 | visiting a block depends on the node only through its receipts |
| CacheScan.VisitBlock | lib/cache.js:87-125 | the in-place visit of one fetched block leaves the state its specification describes |
| CacheScan.VisitFetched | lib/cache.js:86-126 | visiting a window's results in request order is scanning that window |
| CacheScan.ScanBlocks | lib/cache.js:77-127 | the window loop ends in the state of one ascending scan from the cursor to `latest`, having requested the windows' blocks in order |
| TokenProbe.MakeToken | lib/cache.js:143-156 | a record is built iff the decimals (defaulting to 18) are at most 80; it holds the probe's name, symbol and raw supply, those decimals, and the supply scaled by `10^decimals` |
| TokenProbe.FormatUnits | lib/cache.js:153 | formatting succeeds iff `decimals` is at most 80; then the result times `10^decimals` is the raw supply, and it is never negative |
| TokenProbe.RemoveAddress | lib/cache.js:146 | the filter drops exactly the records of that address |
| TokenProbe.RemoveKeepsOrder | lib/cache.js:146 | dropping one address leaves every other address's record as it was |
| TokenProbe.RemoveDistinct | lib/cache.js:146 | the filter keeps addresses unique |
| TokenProbe.ProbeOneTokens | lib/cache.js:131-156 | for an unchecked address that answers name, symbol and supply, one probe drops its old record and records the new one unless formatting throws; no other address's record changes |
| TokenProbe.ProbeAllTokens | lib/cache.js:130-157 | after the probe loop, a new, unchecked, qualifying address has exactly the record `MakeToken` builds (none when formatting throws); every other address keeps the record it had |
| TokenProbe.ProbeAllChecked | lib/cache.js:130-132 | the checked list only grows, gains exactly the probed addresses, and stays duplicate-free, so no address is probed twice |
| TokenProbe.ProbeOneWf | lib/cache.js:131-156 | one probe keeps tokens unique by address and every token's address checked |
| TokenProbe.ProbeAllTokensWf | lib/cache.js:143-154 | tokens stay unique by address and every token's address is checked |
| TokenProbe.ClassifyContracts | lib/cache.js:130-157 | the in-place probe loop computes the specified registry and appends exactly the probed addresses to `checkedContracts` |
| CacheSync.Sync | lib/cache.js:61-169 | the cursor becomes `max(cursor, latest)` even if blocks were skipped; a cache already at `latest` is returned unchanged; otherwise the sync time is set |
| CacheSync.ScannedFacts | lib/cache.js:77-127 | the scan phase appends the new blocks' summaries and transactions, leaves tokens and checked contracts alone, and grows `contracts` by the created addresses |
| CacheSync.SyncFacts | lib/cache.js:129-163 | after the scan, the probe phase runs, the tokens are sorted by supply, and the cursor and sync time are set |
| CacheSync.SyncChainAppends | lib/cache.js:89-108 | a sync only appends to `blocks` and `transactions`, exactly the new blocks and their transactions |
| CacheSync.SyncAppends | lib/cache.js:111-132 | `contracts` gains exactly the created addresses, and `checkedContracts` gains exactly the new contracts |
| CacheSync.SyncChainWf | lib/cache.js:77-108 | against a truthful node, blocks stay strictly ascending and transactions ascending by block, none past the new cursor |
| CacheSync.SyncListsWf | lib/cache.js:116-160 | contracts and checked contracts stay duplicate-free, every contract is checked, tokens stay address-unique, checked, and sorted by supply |
| CacheSync.SyncWf | lib/cache.js:61-169 | every sync preserves the cache invariant |
| CacheSync.NewContractsExact | lib/cache.js:116-119 | `newContracts` is exactly the contracts this sync added |
| CacheSync.SyncTokens | lib/cache.js:130-156 | each new, never-checked contract is listed once as a token iff its probe qualifies and its decimals are at most 80; every other address keeps its token records |
| CacheSync.SyncIdempotent | lib/cache.js:65-70 | a second sync to the same head changes nothing |
| CacheSync.SyncIncremental | lib/cache.js:65-77 | syncing to `mid` and then to `latest` stores the same blocks, transactions and cursor as syncing to `latest` at once |
| CacheSync.SyncIncrementalContracts | lib/cache.js:111-119 | both ways know the same contracts |
| CacheSync.SyncCache | lib/cache.js:61-169 | `syncCache` reads the disk, writes back only when it scanned, and returns the synced cache; with no head it fails and leaves the disk alone |
| Ethereum.GetGasPrice | lib/ethereum.js:31-39 | a failed fee query gives `"0"`, a missing gas price formats 0 |
| Ethereum.GetBalance | lib/ethereum.js:55-63 | a failed balance query gives `"0.0"` |
| Ethereum.GetTransactionCount | lib/ethereum.js:65-72 | a failed nonce query gives 0 |
| Ethereum.RecentNumbersShape | lib/ethereum.js:76-84 | the numbers asked for descend strictly from `latest`, never below 0, and there are `min(count, latest + 1)` of them |
| Ethereum.AllOrFail | lib/ethereum.js:84 | `Promise.all` rejects iff one fetch rejects, and otherwise yields every answer in request order |
| Ethereum.GetRecentBlocks | lib/ethereum.js:76-85 | the loop requests exactly those numbers, in that order, with no fallback for a failed fetch |
| Ethereum.FilterMembers | lib/ethereum.js:200 | the address filter keeps exactly the matching transactions |
| Ethereum.PushBlockTxs | lib/ethereum.js:108-120 | the inner loop appends the kept summaries of one block's transactions, in order |
| Ethereum.PushTxs | lib/ethereum.js:107-121 | the block loop appends the kept transactions of the fetched blocks, skipping failed and transaction-less ones |
| Ethereum.NewestFirst | lib/ethereum.js:125 | the sort by block number descending is a permutation, sorted newest block first |
| Ethereum.NewestFirstStable | lib/ethereum.js:124-125 | two transactions of the same block come out of the sort in the order the scan found them |
| Ethereum.BackwardWindow | lib/ethereum.js:98-99 | one backward window `[max(start - 19, 0), start]` followed by the rest is the whole backward scan |
| Ethereum.BackwardPrefix | lib/ethereum.js:98-103 | the backward scan collects a prefix of all transactions newest block first, and stops once it has `count` or ran past block 0 |
| Ethereum.BlocksDescOrdered | lib/ethereum.js:101-102 | against a truthful node the blocks of a backward window descend strictly |
| Ethereum.TxsDescSorted | lib/ethereum.js:98-121 | the backward scan's transactions are newest block first |
| Ethereum.BackwardSorted | lib/ethereum.js:124-125 | the sort at the end leaves the already ordered backward result as it is |
| Ethereum.RecentTxsNewest | lib/ethereum.js:91-127 | `getRecentTransactions` returns the first `count` transactions of the chain, newest block first |
| Ethereum.RecentTxsBounded | lib/ethereum.js:125-126 | at most `count` transactions are returned, sorted by block number descending |
| Ethereum.FetchDesc | lib/ethereum.js:100-105 | a backward window's promises are the fetches of `start` down to `end` |
| Ethereum.BackwardStep | lib/ethereum.js:98 | while fewer than `count` are held and `start >= 0`, the loop takes one more window |
| Ethereum.PushWindowDesc | lib/ethereum.js:99-121 | one iteration appends that window's transactions, newest block first |
| Ethereum.ScanBackward | lib/ethereum.js:94-122 | the backward loop computes the specified backward scan |
| Ethereum.GetRecentTransactions | lib/ethereum.js:91-127 | the method returns the sorted, sliced backward scan, and fails without a head |
| Ethereum.SnapshotPrefix | lib/ethereum.js:164-169 | what is collected up to block `n` extends what is collected up to `m <= n` |
| Ethereum.ScanWindow | lib/ethereum.js:140-170 | one forward window appends its kept transactions and reports a copy of everything so far, `min(end + 1, latest + 1)` scanned of `latest + 1` |
| Ethereum.ForwardScan | lib/ethereum.js:139-171 | the forward loop collects every kept transaction from block 0 up, with one report per window |
| Ethereum.GetAllTransactions | lib/ethereum.js:133-174 | every transaction of the chain in scan order, with one progress report per window |
| Ethereum.GetAllAddressTransactions | lib/ethereum.js:181-226 | exactly the transactions from or to the address, compared in lower case, with one report per window |
| Ethereum.InvolvesCaseInsensitive | lib/ethereum.js:184-200 | the match ignores ASCII case on both sides |
| Ethereum.ProgressShape | lib/ethereum.js:164-169 | `scanned` increases strictly from window to window, never exceeds the total, and the last report equals it |
| Ethereum.ReportsGrow | lib/ethereum.js:166 | every snapshot is a prefix of the final result |
| NetworkGraph.EdgeKeySymmetric | lib/cache.js:183 | the edge key of `(a, b)` is that of `(b, a)` |
| NetworkGraph.AddOnceMembers | lib/cache.js:180-182 | `Set.add` adds the element once, keeping insertion order |
| NetworkGraph.TallyTxAddresses | lib/cache.js:178-185 | one transaction adds its lower-cased, non-empty endpoints to the address set and nothing else |
| NetworkGraph.TallyAddresses | lib/cache.js:177-186 | the address set holds exactly the endpoints of the transactions, once each |
| NetworkGraph.TallyEdges | lib/cache.js:181-185 | keys are stored once; the weight under a key is the number of transactions whose sorted, joined endpoints give that key; a key no transaction gives is absent |
| NetworkGraph.EdgeKeyInjective | lib/cache.js:183 | between addresses without a dash, two equal keys come from the same unordered pair |
| NetworkGraph.EdgeOfPair | lib/cache.js:181-183 | a transaction contributes the key of `(a, b)` exactly when it has a non-empty recipient and runs between `a` and `b`, in either direction |
| NetworkGraph.CountKeyPair | lib/cache.js:177-185 | for dash-free addresses, counting by key equals counting transactions between the pair |
| NetworkGraph.TallyPairs | lib/cache.js:177-185 | the edge between two dash-free addresses weighs the number of transactions between them, either way, and is absent when there is none |
| NetworkGraph.TallyWeights | lib/cache.js:184 | the weights add up to the number of transactions with a destination |
| NetworkGraph.LabelShape | lib/cache.js:201 | a node label is the first 6 characters, `...` and the last 4 |
| NetworkGraph.NodeFor | lib/cache.js:194-203 | a node carries the address, its label, and the balance in ether, or 0 when the query fails |
| NetworkGraph.EdgesOf | lib/cache.js:206-209 | one edge per map entry, in entry order |
| NetworkGraph.EdgeEndpoints | lib/cache.js:206-208 | splitting a key gives the endpoints in string order, with the weight |
| NetworkGraph.CountTransaction | lib/cache.js:178-185 | the in-place loop body updates the set and the map as specified |
| NetworkGraph.CountTransactions | lib/cache.js:177-186 | the transaction loop builds the specified set and map |
| NetworkGraph.BuildNodes | lib/cache.js:193-204 | one node per address, in set order |
| NetworkGraph.GetNetworkGraph | lib/cache.js:172-212 | nodes for every participant address and edges for every weighted pair |
| Heatmap.GetColorShade | components/Heatmap.js:10-18 | `getColor` picks the legend colour of the shade the thresholds give |
| Heatmap.FifthBelow | components/Heatmap.js:12-16 | compared exactly, `count / max < k / 5` is `5 * count < k * max` |
| Heatmap.ZeroIsLightest | components/Heatmap.js:11 | the lightest colour is shown iff the count is 0 |
| Heatmap.ShadeMonotone | components/Heatmap.js:12-17 | a larger count is never lighter |
| Heatmap.AtMaximumIsDarkest | components/Heatmap.js:12-17 | a count at or above the maximum gets the darkest colour |
| Heatmap.KeyParts | components/Heatmap.js:56-58 | a key `YYYY-MM-DD-HH` splits into its date and the hour number |
| Heatmap.AddEntry | components/Heatmap.js:56-62 | one entry stores its count under its day and hour, raises the maximum to it, and adds it to the total |
| Heatmap.Aggregate | components/Heatmap.js:51-63 | the `forEach` builds the specified day table, maximum and total |
| Heatmap.StoreCount | components/Heatmap.js:59-60 | storing an entry sets that day and hour and no other cell |
| Heatmap.TableDays | components/Heatmap.js:59 | the table has a day iff some entry names it |
| Heatmap.TableCounts | components/Heatmap.js:59-60 | each cell holds the count of the last entry for that day and hour |
| Heatmap.TableHoursDistinct | components/Heatmap.js:60 | a day's row has one entry per hour |
| Heatmap.TotalIsSum | components/Heatmap.js:53-62 | `totalTxs` is the sum of all counts |
| Heatmap.MaxCountBounds | components/Heatmap.js:52-61 | `maxCount` is 0 or one of the counts, and no count exceeds it |
| Heatmap.DateBeforeIsStrict | components/Heatmap.js:65 | the date order is strict |
| Heatmap.DatesAscending | components/Heatmap.js:65 | the dates are exactly the table's days, in ascending string order |
| Heatmap.DayRow | components/Heatmap.js:131-132 | a day row has 24 cells, each the stored count or 0 |
| Heatmap.DayTotalIsRowSum | components/Heatmap.js:162 | the day total (reduce over the stored values) is the sum of the 24 cells shown |
| Heatmap.ProgressBounds | components/Heatmap.js:66 | with no total the percentage is 0; during a scan it is between 0 and 100; a finished scan shows 100 |
| Heatmap.ProgressMonotone | components/Heatmap.js:66 | more blocks scanned never show a smaller percentage |
| Display.Truncate | app/page.js:26-31 | null or empty gives `''`; a short string is kept; a long one keeps its first `start` and last `end` characters around `...`; never longer than the input |
| Display.TruncateShortens | app/page.js:28-30 | a truncated string is exactly `start + end + 3` long and keeps both ends of the input |
| Display.RenderAmount | app/page.js:20-23 | `parseInt` of a rendered age is its amount |
| Display.Present | app/page.js:54 | `filter(Boolean)` keeps exactly the present blocks |
| Display.PresentAppend | app/page.js:54 | the filter keeps the list's order |
| Display.PresentAll | app/page.js:54 | a list without nulls passes unchanged |
| Display.PresentDescending | app/blocks/page.js:31 | present elements keep their strictly descending order |
| TransactionsPage.NewestFirst | app/transactions/page.js:39 | the sorted copy is a permutation, by block number descending and then timestamp descending |
| TransactionsPage.NewestFirstStable | app/transactions/page.js:39 | sorting a list already in that order changes nothing |
| TransactionsPage.TotalPages | app/transactions/page.js:51 | `ceil(n / 25)`: 0 pages iff no transaction; otherwise the fewest pages of 25 that hold them all |
| TransactionsPage.PageSlice | app/transactions/page.js:52 | a page holds at most 25 transactions |
| TransactionsPage.PagesPartition | app/transactions/page.js:51-52 | transaction `k` is on page `k / 25 + 1` at position `k % 25`, a page that exists |
| TransactionsPage.PagesFull | app/transactions/page.js:51-52 | every page before the last is full and no existing page is empty |
| TransactionsPage.PageButtons | app/transactions/page.js:132-142 | `min(totalPages, 7)` consecutive page numbers, all within `[1, totalPages]`, including the current page when it exists; they start at 1 when there are at most 7 pages or the page is at most 4, start three before the page in the middle, and end at the last page from `totalPages - 3` on |
| TransactionsPage.Pager.constructor | app/transactions/page.js:29-40 | the page starts at 1 over the sorted copy |
| TransactionsPage.Pager.Prev | app/transactions/page.js:131 | "previous" does nothing on page 1 and otherwise goes back one page |
| TransactionsPage.Pager.Next | app/transactions/page.js:149 | "next" does nothing on the last page and otherwise goes on one page |
| TransactionsPage.Pager.Select | app/transactions/page.js:144 | a page button selects its page, which stays valid |
| TransactionsPage.ShownOnValidPage | app/transactions/page.js:52 | a valid page of a non-empty list shows between 1 and 25 transactions |
| TransactionsPage.Elapsed | app/transactions/page.js:15-21 | below a minute the raw seconds; otherwise the largest unit that fits, its amount rounded down |
| TransactionsPage.TimeAgoAmount | app/transactions/page.js:17-20 | the number shown is that amount |
| TransactionsPage.HashCell | app/transactions/page.js:101 | a 66-character hash shows as its first 10 characters, `...` and its last 6 |
| Dashboard.HandleSearch | app/page.js:70-78 | an empty trimmed query does nothing; 66 characters with `0x` is a transaction, else 42 with `0x` an address, else all digits a block, each carrying the trimmed query |
| Dashboard.SearchIgnoresSpace | app/page.js:72 | surrounding white space never changes the route |
| Dashboard.DigitsGoToBlock | app/page.js:76 | a run of digits always routes to the block page, whatever its length |
| Dashboard.SearchRejects | app/page.js:77 | a query is rejected iff it is non-empty, not hash- or address-shaped, and not all digits |
| Dashboard.NoHexCheck | app/page.js:74 | what follows `0x` is not checked to be hexadecimal |
| Dashboard.Elapsed | app/page.js:16-24 | "just now" iff under 5 seconds; raw seconds below a minute; otherwise the largest unit that fits, rounded down |
| Dashboard.AgesAgree | app/page.js:19-23 | from 5 seconds on, the home page and the transactions page pick the same amount and unit |
| Dashboard.TimeAgoAmount | app/page.js:19-23 | "just now" below 5 seconds; otherwise the number shown is the amount |
| Dashboard.MinerCell | app/page.js:243 | a miner address shows as its first 8 characters, `...` and its last 4 |
| BlocksPage.Truncate | app/blocks/page.js:17-21 | a missing or empty string gives `''` and a string of at most `start + end + 3` characters is returned unchanged, whatever `end` is; it agrees with the other pages' `truncate` in those cases and whenever `end > 0`; with `end` 0 a longer string is followed by `...` and the whole string |
| BlocksPage.MinerCell | app/blocks/page.js:80 | a miner address shows as its first 10 characters, `...` and its last 6 |
| BlocksPage.Elapsed | app/blocks/page.js:8-15 | as on the home page, but never in days: an hour or more is counted in hours |
| BlocksPage.AgesAgree | app/blocks/page.js:8-15 | below a day it agrees with the home page; from a day on it shows 24 hours or more |
| BlocksPage.ShownBlocks | app/blocks/page.js:30-31 | the blocks shown are at most `count`, strictly newest first, each among the `count` most recent |
| TokensPage.Avatar | app/tokens/page.js:105 | the avatar is the first two characters of the symbol, or fewer |
| TokensPage.Rows | app/tokens/page.js:94-126 | one row per token, in order, row `i` ranked `i + 1`, with the avatar and the truncated contract |
| TokensPage.RanksFollowSupply | app/tokens/page.js:96 | over the cache's sorted list, ranks run from 1 up and a better rank never has a smaller supply |
| TokensPage.ContractCell | app/tokens/page.js:126 | a contract address shows as its first 10 characters, `...` and its last 6 |

## Left out

- **Node calls and the ethers.js library.** This covers `getProvider`'s lazily created provider, transport errors and the ABI encoding of the ERC-20 calls. The node is a value whose answers are given. Rejections are explicit outcomes (`Fetch.Failed`, `None`) and are never exceptions.
- **Concurrency.** The promises of one window are modelled as fetched one after another. The results are consumed in request order, as the source consumes them. Two syncs running at once (there is no mutual exclusion) are not modelled.
- **Files, JSON and the clock.** `readCache` and `writeCache` work on a `Stored` value: a missing file, an unreadable file, or a parsed cache. A write that fails, which the source swallows, is the parameter `writeOk`. `Date.now()` is the parameter `now`, in seconds. `new Date().toISOString()` is an opaque string passed in.
- **Number formatting.** `formatUnits` for gas prices and `formatEther` for balances are passed-in functions. The heatmap colour thresholds are exact: they compare rationals, not floats.
- TokenProbe.FormatUnits: the limit of 80 decimals is that of the ethers library's fixed-point formats, which are not part of this model; other errors of `formatUnits` cannot occur for a `uint256` supply. `parseFloat(ethers.formatUnits(supply, decimals))` rounds to a double. This model keeps the exact rational, so supply comparisons that float rounding would tie are kept strict here.
- NetworkGraph.NodeFor: the balance is the exact rational amount of ether, not the rounded double `parseFloat(formatEther(...))`.
- Heatmap.GetColorShade: the source divides in double precision, and `count / maxCount` can round onto a threshold `k / 5` once the counts are large, near `10^15`. The model compares exactly, with `5 * count < k * maxCount`.
- Heatmap.ProgressBounds: `Math.round` is modelled as rounding half up on exact reals. Rounding errors of the floating-point division are not modelled.
- Ethereum.ForwardScan, Ethereum.GetAllTransactions, Ethereum.GetAllAddressTransactions: the `onProgress` callback is optional (`if (onProgress)`). The model always returns the sequence of reports it would receive; a caller without a callback ignores it, and the scan itself does not depend on it.
- **Amounts as strings.** The `toString()` of amounts (`value`, `gasPrice`, `gasUsed`, `totalSupply`) is not modelled. Summaries keep the numbers; a missing gas value becomes 0.
- **JavaScript strings.**
  - `toLowerCase` is modelled for ASCII letters only.
  - String `<` compares code points, whereas JavaScript compares UTF-16 code units; the two agree on the hexadecimal addresses the code sorts.
  - `length` counts characters, not UTF-16 code units.
- **The heatmap's data source.** `getTransactionHeatmapData` is not part of this model. The abort flag and the React state of the heatmap are left out too.
- Heatmap.Dates: `Object.keys(dayHourMap).sort()` is specified on the day table as a ghost, sorted enumeration of its keys. It is not an executable loop.
- **The pages' presentation.** This covers React state, effects and timers, the `hsl` avatar colours, `formatSupply` and the `toFixed` displays. It also covers the `'—'`/`''` placeholders for a missing timestamp, and the alert, error and loading views.
- **Other parts of the application.** The Next.js API route `app/api/cache/route.js` is a switch over `syncCache` and the cache views. It is not part of this model. Neither are the D3 layout of the network page, `app/layout.js` or the theme toggle.
- **Behaviour the code does not have.** Nothing is claimed about it: re-scanning skipped blocks, de-duplicating transactions by hash, re-probing checked contracts, or serialising concurrent syncs.
