/** The home page (`app/page.js`): the search box that routes a query to a
    transaction, an address or a block, and the ages shown next to the six
    most recent blocks and transactions. */
module Dashboard {
  import opened Wrappers
  import opened JsString
  import opened Display
  import TransactionsPage

  // ------------------------------------------------------ search

  /** Where `handleSearch` sends the browser: nowhere for an empty query, to
      one of the three detail pages, or to an `alert` for a query it cannot
      classify. */
  datatype Route = Stay | ToTx(hash: string) | ToAddress(address: string) | ToBlock(number: string) | Invalid

  function Path(r: Route): Option<string> {
    match r
    case ToTx(q) => Some("/tx/" + q)
    case ToAddress(q) => Some("/address/" + q)
    case ToBlock(q) => Some("/block/" + q)
    case _ => None
  }

  /** `handleSearch` on the search box's text. Only the length and the `0x`
      prefix are looked at for hashes and addresses; a block number is a
      non-empty run of ASCII digits (`/^\d+$/`). Every route carries the
      trimmed query. */
  function HandleSearch(query: string): (r: Route)
    ensures r.Stay? <==> Trim(query) == []
    ensures r.ToTx? <==> |Trim(query)| == 66 && StartsWith(Trim(query), "0x")
    ensures r.ToAddress? <==> |Trim(query)| == 42 && StartsWith(Trim(query), "0x")
    ensures r.ToBlock? ==> r.number == Trim(query) && AllDigits(r.number) && r.number != []
    ensures r.ToTx? ==> r.hash == Trim(query)
    ensures r.ToAddress? ==> r.address == Trim(query)
  {
    var q := Trim(query);
    if q == [] then Stay
    else if |q| == 66 && StartsWith(q, "0x") then ToTx(q)
    else if |q| == 42 && StartsWith(q, "0x") then ToAddress(q)
    else if AllDigits(q) then ToBlock(q)
    else Invalid
  }

  /** Surrounding white space never changes where a query goes. */
  lemma {:induction false} SearchIgnoresSpace(query: string)
    ensures HandleSearch(Trim(query)) == HandleSearch(query)
  {
    var q := Trim(query);
    assert Trim(q) == q;
  }

  /** A (trimmed) block number always reaches the block page, whatever its
      length: no run of digits starts with `0x`. */
  lemma {:induction false} DigitsGoToBlock(query: string)
    requires Trim(query) != [] && AllDigits(Trim(query))
    ensures HandleSearch(query) == ToBlock(Trim(query))
  {
    var q := Trim(query);
    if |q| >= 2 {
      assert IsDigit(q[1]);
      assert !StartsWith(q, "0x");
    }
  }

  /** Anything else is rejected: not empty, not shaped like a hash or an
      address, and not all digits. */
  lemma {:induction false} SearchRejects(query: string)
    ensures HandleSearch(query).Invalid? <==>
              && Trim(query) != []
              && !((|Trim(query)| == 66 || |Trim(query)| == 42) && StartsWith(Trim(query), "0x"))
              && !AllDigits(Trim(query))
  {
  }

  /** The characters after `0x` are not checked: sixty-four `z`s make a
      transaction hash as far as the search box is concerned. */
  lemma {:induction false} NoHexCheck()
    ensures HandleSearch("0x" + seq(64, _ => 'z')) == ToTx("0x" + seq(64, _ => 'z'))
  {
    var q := "0x" + seq(64, _ => 'z');
    assert q[0] != ' ' && q[|q| - 1] == 'z';
    assert Trim(q) == q;
    assert q[..2] == "0x";
  }

  // ------------------------------------------------------ time ago

  /** `timeAgo`'s buckets: "just now" below five seconds (negative
      differences included), then seconds, whole minutes, hours and days. */
  function Elapsed(diff: int): (a: Age)
    ensures a.JustNow? <==> diff < 5
    ensures 5 <= diff < 60 ==> a == Ago(diff, Seconds)
    ensures diff >= 60 ==> Floors(diff, a) && a.unit != Seconds
    ensures diff >= 60 ==> forall u :: UnitLength(u) <= diff ==> UnitLength(u) <= UnitLength(a.unit)
  {
    if diff < 5 then JustNow
    else if diff < 60 then Ago(diff, Seconds)
    else if diff < 3600 then Ago(diff / 60, Minutes)
    else if diff < 86400 then Ago(diff / 3600, Hours)
    else Ago(diff / 86400, Days)
  }

  function UnitName(u: Unit): string {
    match u
    case Seconds => " secs ago"
    case Minutes => " mins ago"
    case Hours => " hrs ago"
    case Days => " days ago"
  }

  function TimeAgo(now: int, timestamp: int): string {
    Render(Elapsed(now - timestamp), UnitName)
  }

  /** From five seconds on, the home page picks the same unit and amount as
      the transactions page; only the wording differs. */
  lemma {:induction false} AgesAgree(diff: int)
    requires diff >= 5
    ensures Elapsed(diff) == TransactionsPage.Elapsed(diff)
  {
  }

  /** Below five seconds the text is "just now"; otherwise it starts with
      the rounded-down amount. */
  lemma {:induction false} TimeAgoAmount(now: int, timestamp: int)
    ensures now - timestamp < 5 ==> TimeAgo(now, timestamp) == "just now"
    ensures now - timestamp >= 5 ==> ParseInt(TimeAgo(now, timestamp)) == Some(Elapsed(now - timestamp).amount)
  {
    var a := Elapsed(now - timestamp);
    if a.Ago? {
      RenderAmount(a.amount, a.unit, UnitName);
    }
  }

  // ------------------------------------------------------ cells

  /** The miner column: `truncate(block.miner, 8, 4)` of a 42-character address. */
  lemma {:induction false} MinerCell(miner: string)
    requires |miner| == 42
    ensures Truncate(Some(miner), 8, 4) == miner[..8] + "..." + miner[38..]
  {
  }
}
