/** The tokens page (`app/tokens/page.js`): the cached ERC-20 tokens, one
    numbered row each, in the order the cache keeps them. */
module TokensPage {
  import opened Wrappers
  import opened JsString
  import opened Sorting
  import opened CacheStore
  import opened Display

  /** One table row: the rank, the two-letter avatar, the token, and the
      shortened contract address. */
  datatype Row = Row(rank: nat, avatar: string, token: Token, contract: string)

  /** `token.symbol.slice(0, 2)`: at most the first two characters. */
  function Avatar(symbol: string): (a: string)
    ensures |a| == Min(2, |symbol|) && a == symbol[..|a|]
  {
    Slice(symbol, 0, 2)
  }

  /** `tokens.map((token, i) => …)`: row `i` shows rank `i + 1`. */
  function Rows(tokens: seq<Token>): (rows: seq<Row>)
    ensures |rows| == |tokens|
    ensures forall i :: 0 <= i < |rows| ==> rows[i].token == tokens[i] && rows[i].rank == i + 1
    ensures forall i :: 0 <= i < |rows| ==>
              rows[i].avatar == Avatar(tokens[i].symbol) && rows[i].contract == Truncate(Some(tokens[i].address), 10, 6)
  {
    seq(|tokens|, i requires 0 <= i < |tokens| =>
      Row(i + 1, Avatar(tokens[i].symbol), tokens[i], Truncate(Some(tokens[i].address), 10, 6)))
  }

  /** With the list as the cache keeps it (largest supply first), ranks run
      1, 2, 3, … and a better rank never has a smaller supply. */
  lemma {:induction false} RanksFollowSupply(tokens: seq<Token>)
    requires Sorted(tokens, MoreSupply)
    ensures forall i :: 0 <= i < |Rows(tokens)| ==> 1 <= Rows(tokens)[i].rank <= |tokens|
    ensures forall i, j :: 0 <= i < j < |Rows(tokens)| ==>
              Rows(tokens)[i].rank < Rows(tokens)[j].rank
              && Rows(tokens)[i].token.supplyFormatted >= Rows(tokens)[j].token.supplyFormatted
  {
    var rows := Rows(tokens);
    forall i, j | 0 <= i < j < |rows|
      ensures rows[i].token.supplyFormatted >= rows[j].token.supplyFormatted
    {
      assert !MoreSupply(tokens[j], tokens[i]);
    }
  }

  /** The contract column of a 42-character address: ten characters, `...`,
      and the last six. */
  lemma {:induction false} ContractCell(address: string)
    requires |address| == 42
    ensures Truncate(Some(address), 10, 6) == address[..10] + "..." + address[36..]
  {
  }
}
