/** The ERC-20 half of `syncCache` (`lib/cache.js`): every newly found
    contract that has not been checked before is checked once, by calling
    `name`, `symbol`, `decimals` and `totalSupply`, and becomes a token when
    the answers qualify. */
module TokenProbe {
  import opened Wrappers
  import opened Chain
  import opened Sorting
  import opened CacheStore

  /** The decimals assumed when `decimals()` fails. */
  const DefaultDecimals: nat := 18

  function Pow10(n: nat): (r: nat)
    ensures r >= 1
  {
    if n == 0 then 1 else 10 * Pow10(n - 1)
  }

  /** `name && symbol && totalSupply !== null`: both strings non-empty and a
      supply present; a failed `decimals()` does not disqualify. */
  predicate Qualifies(p: Probe) {
    p.name.Some? && p.name.value != "" && p.symbol.Some? && p.symbol.value != "" && p.totalSupply.Some?
  }

  /** The most decimals an ethers fixed-point format accepts; `formatUnits`
      throws for more. */
  const MaxFormatDecimals: nat := 80

  /** The token record stored for a qualifying contract; `None` when building
      it throws, because `formatUnits` rejects the decimals, and the
      surrounding `catch` drops it. */
  function MakeToken(addr: Address, p: Probe): (t: Option<Token>)
    requires Qualifies(p)
    ensures t.Some? <==> p.decimals.GetOr(DefaultDecimals) <= MaxFormatDecimals
    ensures t.Some? ==> t.value.address == addr && t.value.name == p.name.value && t.value.symbol == p.symbol.value
    ensures t.Some? ==> t.value.totalSupply == p.totalSupply.value
    ensures t.Some? ==> t.value.decimals == if p.decimals.Some? then p.decimals.value else DefaultDecimals
    ensures t.Some? ==> Some(t.value.supplyFormatted) == FormatUnits(t.value.totalSupply, t.value.decimals)
  {
    var dec := p.decimals.GetOr(DefaultDecimals);
    var supply := FormatUnits(p.totalSupply.value, dec);
    if supply.Some? then Some(Token(addr, p.name.value, p.symbol.value, dec, p.totalSupply.value, supply.value))
    else None
  }

  /** `ethers.formatUnits(amount, decimals)` as an exact number: the amount
      in whole units, which scaled back by `10^decimals` is the amount;
      `None` stands for the error thrown past `MaxFormatDecimals`. */
  function FormatUnits(amount: nat, decimals: nat): (r: Option<real>)
    ensures r.Some? <==> decimals <= MaxFormatDecimals
    ensures r.Some? ==> r.value * (Pow10(decimals) as real) == amount as real
    ensures r.Some? ==> r.value >= 0.0
  {
    if decimals > MaxFormatDecimals then None
    else
      var scale := Pow10(decimals) as real;
      DivideBack(amount as real, scale);
      Some(amount as real / scale)
  }

  lemma {:induction false} DivideBack(x: real, y: real)
    requires y > 0.0
    ensures (x / y) * y == x
    ensures x >= 0.0 ==> x / y >= 0.0
  {
  }

  /** `tokens.filter(t => t.address !== addr)`. */
  function RemoveAddress(ts: seq<Token>, a: Address): (r: seq<Token>)
    ensures forall t :: t in r <==> t in ts && t.address != a
    ensures |r| <= |ts|
  {
    if ts == [] then [] else (if ts[0].address == a then [] else [ts[0]]) + RemoveAddress(ts[1..], a)
  }

  /** The first token listed for an address. */
  function TokenAt(ts: seq<Token>, a: Address): (r: Option<Token>)
    ensures r.Some? ==> r.value in ts && r.value.address == a
    ensures r.None? <==> forall t :: t in ts ==> t.address != a
  {
    if ts == [] then None else if ts[0].address == a then Some(ts[0]) else TokenAt(ts[1..], a)
  }

  /** The two lists the classification updates. */
  datatype Registry = Registry(checked: seq<Address>, tokens: seq<Token>)

  /** One contract: skipped when already checked; otherwise marked checked,
      probed, and on qualifying listed in place of any earlier entry. */
  function ProbeOne(reg: Registry, node: Node, addr: Address): Registry {
    if addr in reg.checked then reg
    else
      var checked := reg.checked + [addr];
      var p := node.probe(addr);
      if Qualifies(p) then
        var kept := RemoveAddress(reg.tokens, addr);
        Registry(checked, if MakeToken(addr, p).Some? then kept + [MakeToken(addr, p).value] else kept)
      else Registry(checked, reg.tokens)
  }

  function ProbeAll(reg: Registry, node: Node, addrs: seq<Address>): Registry
    decreases |addrs|
  {
    if addrs == [] then reg else ProbeOne(ProbeAll(reg, node, addrs[..|addrs| - 1]), node, addrs[|addrs| - 1])
  }

  // ------------------------------------------------------ lemmas

  lemma {:induction false} RemoveKeepsOrder(ts: seq<Token>, a: Address, b: Address)
    requires a != b
    ensures TokenAt(RemoveAddress(ts, a), b) == TokenAt(ts, b)
    decreases |ts|
  {
    if ts != [] {
      var rest := RemoveAddress(ts[1..], a);
      RemoveKeepsOrder(ts[1..], a, b);
      if ts[0].address == a {
        assert RemoveAddress(ts, a) == rest;
        assert TokenAt(ts, b) == TokenAt(ts[1..], b);
      } else {
        var r := [ts[0]] + rest;
        assert RemoveAddress(ts, a) == r;
        assert r[0] == ts[0] && r[1..] == rest;
        if ts[0].address == b {
          assert TokenAt(r, b) == Some(ts[0]);
        } else {
          assert TokenAt(r, b) == TokenAt(rest, b);
        }
      }
    }
  }

  lemma {:induction false} TokenAtAppend(ts: seq<Token>, t: Token, b: Address)
    requires forall u :: u in ts ==> u.address != t.address || t.address != b
    ensures TokenAt(ts + [t], b) == if t.address == b then Some(t) else TokenAt(ts, b)
    decreases |ts|
  {
    if ts != [] {
      assert (ts + [t])[1..] == ts[1..] + [t];
      TokenAtAppend(ts[1..], t, b);
    } else {
      assert [t][1..] == [];
    }
  }

  lemma {:induction false} RemoveDistinct(ts: seq<Token>, a: Address)
    requires DistinctBy(ts, TokenAddress)
    ensures DistinctBy(RemoveAddress(ts, a), TokenAddress)
    decreases |ts|
  {
    if ts != [] {
      RemoveDistinct(ts[1..], a);
      var rest := RemoveAddress(ts[1..], a);
      if ts[0].address != a {
        var r := [ts[0]] + rest;
        forall i, j | 0 <= i < j < |r| ensures TokenAddress(r[i]) != TokenAddress(r[j]) {
          if i == 0 {
            assert r[j] in rest;
            var tail := ts[1..];
            var m :| 0 <= m < |tail| && tail[m] == r[j];
            assert ts[m + 1] == r[j];
          } else {
            assert r[i] == rest[i - 1] && r[j] == rest[j - 1];
          }
        }
      }
    }
  }

  /** The effect of one probe on the token list, address by address. */
  lemma {:induction false} ProbeOneTokens(reg: Registry, node: Node, addr: Address, b: Address)
    ensures TokenAt(ProbeOne(reg, node, addr).tokens, b) ==
      if b == addr && addr !in reg.checked && Qualifies(node.probe(addr)) then MakeToken(addr, node.probe(addr))
      else TokenAt(reg.tokens, b)
  {
    var p := node.probe(addr);
    if addr !in reg.checked && Qualifies(p) {
      var kept := RemoveAddress(reg.tokens, addr);
      if b != addr {
        RemoveKeepsOrder(reg.tokens, addr, b);
      }
      if MakeToken(addr, p).Some? {
        TokenAtAppend(kept, MakeToken(addr, p).value, b);
      }
    }
  }

  /** After classifying `addrs`, the token listed for an address is the one
      its probes describe when it was among them, not checked before and
      qualifying, and otherwise whatever was listed before. */
  lemma {:induction false} ProbeAllTokens(reg: Registry, node: Node, addrs: seq<Address>, b: Address)
    ensures TokenAt(ProbeAll(reg, node, addrs).tokens, b) ==
      if b in addrs && b !in reg.checked && Qualifies(node.probe(b)) then MakeToken(b, node.probe(b))
      else TokenAt(reg.tokens, b)
    decreases |addrs|
  {
    if addrs != [] {
      var init := addrs[..|addrs| - 1];
      var last := addrs[|addrs| - 1];
      ProbeAllTokens(reg, node, init, b);
      ProbeAllChecked(reg, node, init);
      ProbeOneTokens(ProbeAll(reg, node, init), node, last, b);
      assert addrs == init + [last];
    }
  }

  /** The checked list only grows, by exactly the addresses that were not
      checked yet, each once: no contract is probed twice. */
  lemma {:induction false} ProbeAllChecked(reg: Registry, node: Node, addrs: seq<Address>)
    ensures |reg.checked| <= |ProbeAll(reg, node, addrs).checked|
    ensures ProbeAll(reg, node, addrs).checked[..|reg.checked|] == reg.checked
    ensures forall a :: a in ProbeAll(reg, node, addrs).checked <==> a in reg.checked || a in addrs
    ensures NoDuplicates(reg.checked) ==> NoDuplicates(ProbeAll(reg, node, addrs).checked)
    decreases |addrs|
  {
    if addrs != [] {
      var init := addrs[..|addrs| - 1];
      ProbeAllChecked(reg, node, init);
      assert addrs == init + [addrs[|addrs| - 1]];
      var last := addrs[|addrs| - 1];
      var mid := ProbeAll(reg, node, init).checked;
      assert ProbeAll(reg, node, addrs).checked == if last in mid then mid else mid + [last];
      assert (mid + [last])[..|reg.checked|] == mid[..|reg.checked|];
    }
  }

  /** One probe keeps token addresses unique and every listed token checked. */
  lemma {:induction false} ProbeOneWf(reg: Registry, node: Node, addr: Address)
    requires DistinctBy(reg.tokens, TokenAddress)
    requires forall t :: t in reg.tokens ==> t.address in reg.checked
    ensures DistinctBy(ProbeOne(reg, node, addr).tokens, TokenAddress)
    ensures forall t :: t in ProbeOne(reg, node, addr).tokens ==> t.address in ProbeOne(reg, node, addr).checked
  {
    var p := node.probe(addr);
    if addr !in reg.checked && Qualifies(p) {
      RemoveDistinct(reg.tokens, addr);
      var rest := RemoveAddress(reg.tokens, addr);
      if MakeToken(addr, p).Some? {
        var r := rest + [MakeToken(addr, p).value];
        forall i, j | 0 <= i < j < |r| ensures TokenAddress(r[i]) != TokenAddress(r[j]) {
          if j == |r| - 1 {
            assert r[i] in rest;
          } else {
            assert r[i] == rest[i] && r[j] == rest[j];
          }
        }
      }
    }
  }

  /** Token addresses stay unique and every listed token stays checked. */
  lemma {:induction false} ProbeAllTokensWf(reg: Registry, node: Node, addrs: seq<Address>)
    requires DistinctBy(reg.tokens, TokenAddress)
    requires forall t :: t in reg.tokens ==> t.address in reg.checked
    ensures DistinctBy(ProbeAll(reg, node, addrs).tokens, TokenAddress)
    ensures forall t :: t in ProbeAll(reg, node, addrs).tokens ==> t.address in ProbeAll(reg, node, addrs).checked
    decreases |addrs|
  {
    if addrs != [] {
      var init := addrs[..|addrs| - 1];
      ProbeAllTokensWf(reg, node, init);
      ProbeOneWf(ProbeAll(reg, node, init), node, addrs[|addrs| - 1]);
    }
  }

  // ------------------------------------------------------ the loop

  /** `for (const addr of newContracts) { ... }`. The ghost output lists
      the addresses whose four read calls were made. */
  method ClassifyContracts(checked: seq<Address>, tokens: seq<Token>, node: Node, addrs: seq<Address>)
    returns (checked': seq<Address>, tokens': seq<Token>, ghost probed: seq<Address>)
    ensures Registry(checked', tokens') == ProbeAll(Registry(checked, tokens), node, addrs)
    ensures checked' == checked + probed
  {
    checked', tokens', probed := checked, tokens, [];
    for k := 0 to |addrs|
      invariant Registry(checked', tokens') == ProbeAll(Registry(checked, tokens), node, addrs[..k])
      invariant checked' == checked + probed
    {
      var addr := addrs[k];
      assert addrs[..k + 1][..k] == addrs[..k];
      if addr in checked' {
        continue;
      }
      checked' := checked' + [addr];
      probed := probed + [addr];
      var p := node.probe(addr);
      if Qualifies(p) {
        var dec := if p.decimals.Some? then p.decimals.value else DefaultDecimals;
        tokens' := RemoveAddress(tokens', addr);
        var supply := FormatUnits(p.totalSupply.value, dec);
        if supply.Some? {
          tokens' := tokens' + [Token(addr, p.name.value, p.symbol.value, dec, p.totalSupply.value, supply.value)];
        }
      }
    }
    assert addrs[..|addrs|] == addrs;
  }
}
