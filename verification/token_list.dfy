/** The card grid of src/components/tokens/TokenList.tsx: the liquidity
    map filled in by the cards, the marketcap ordering and the page slice
    it shows when handed the full list. Its pager is Pagination.PagerView. */
module TokenList {
  import opened Common
  import opened Pagination
  import opened SortOptions
  import opened JsStrings

  /** `TokenLiquidityData`: contract address to the liquidity a card reported. */
  type LiquidityData = map<string, int>

  /** `updateLiquidityData(address, amount)`: `{ ...prev, [address]: amount }`. */
  function UpdateLiquidityData(prev: LiquidityData, address: string, amount: int): (r: LiquidityData)
    ensures address in r && r[address] == amount
    ensures r.Keys == prev.Keys + {address}
    ensures forall k :: k in prev && k != address ==> r[k] == prev[k]
  {
    prev[address := amount]
  }

  /** `liquidityData[t.address] || BigInt(0)`: a missing entry reads as 0
      (and so does a stored `0n`, which is falsy but equal to the default). */
  function LiquidityOf(data: LiquidityData, t: Token): (v: int)
    ensures t.address in data ==> v == data[t.address]
    ensures t.address !in data ==> v == 0
  {
    if t.address in data && data[t.address] != 0 then data[t.address] else 0
  }

  /** After an update only the tokens at that address read a new liquidity. */
  lemma UpdateChangesOnlyThatAddress(prev: LiquidityData, address: string, amount: int, t: Token)
    ensures LiquidityOf(UpdateLiquidityData(prev, address, amount), t)
         == (if t.address == address then amount else LiquidityOf(prev, t))
  {
  }

  predicate DescendingLiquidity(data: LiquidityData, ts: seq<Token>)
  {
    forall i, j :: 0 <= i < j < |ts| ==> LiquidityOf(data, ts[i]) >= LiquidityOf(data, ts[j])
  }

  /** Puts `t` in front of the first token with strictly less liquidity. */
  function InsertByLiquidity(data: LiquidityData, t: Token, ts: seq<Token>): (r: seq<Token>)
    requires DescendingLiquidity(data, ts)
    ensures multiset(r) == multiset(ts) + multiset{t}
    ensures |r| > 0 && (r[0] == t || (|ts| > 0 && r[0] == ts[0]))
    ensures DescendingLiquidity(data, r)
  {
    if |ts| == 0 then [t]
    else if LiquidityOf(data, t) >= LiquidityOf(data, ts[0]) then
      ConsDescending(data, t, ts);
      [t] + ts
    else
      var rest := InsertByLiquidity(data, t, ts[1..]);
      assert ts == [ts[0]] + ts[1..];
      ConsDescending(data, ts[0], rest);
      [ts[0]] + rest
  }

  /** A token with at least the liquidity of a descending list's head can
      go in front of it. */
  lemma ConsDescending(data: LiquidityData, x: Token, ts: seq<Token>)
    requires DescendingLiquidity(data, ts)
    requires |ts| > 0 ==> LiquidityOf(data, x) >= LiquidityOf(data, ts[0])
    ensures DescendingLiquidity(data, [x] + ts)
  {
    var r := [x] + ts;
    forall i, j | 0 <= i < j < |r|
      ensures LiquidityOf(data, r[i]) >= LiquidityOf(data, r[j])
    {
      if i == 0 {
        assert LiquidityOf(data, ts[0]) >= LiquidityOf(data, ts[j - 1]);
      } else {
        assert r[i] == ts[i - 1] && r[j] == ts[j - 1];
      }
    }
  }

  /** The `sortType === 'marketcap'` ordering: highest liquidity first. */
  function SortByLiquidity(data: LiquidityData, ts: seq<Token>): (r: seq<Token>)
    ensures multiset(r) == multiset(ts)
    ensures DescendingLiquidity(data, r)
  {
    if |ts| == 0 then []
    else
      assert ts == [ts[0]] + ts[1..];
      InsertByLiquidity(data, ts[0], SortByLiquidity(data, ts[1..]))
  }

  /** `displayTokens`: the marketcap ordering when that sort is active, then
      the page slice when the component is handed the full list. */
  function DisplayTokens(tokens: seq<Token>, sortType: SortOption, data: LiquidityData,
                         currentPage: int, itemsPerPage: int, isFullList: bool): (r: seq<Token>)
    ensures !isFullList ==> multiset(r) == multiset(tokens)
    ensures !isFullList && sortType != Marketcap ==> r == tokens
    ensures sortType == Marketcap ==> DescendingLiquidity(data, r)
    ensures isFullList && currentPage >= 1 && itemsPerPage >= 0 ==> |r| <= itemsPerPage
    ensures isFullList && sortType != Marketcap ==> r == PageSlice(tokens, currentPage, itemsPerPage)
    ensures isFullList && sortType == Marketcap ==>
      r == PageSlice(SortByLiquidity(data, tokens), currentPage, itemsPerPage)
  {
    var sorted := if sortType == Marketcap then SortByLiquidity(data, tokens) else tokens;
    if isFullList then
      var page := PageSlice(sorted, currentPage, itemsPerPage);
      if sortType == Marketcap then
        SliceKeepsOrder(data, sorted, currentPage, itemsPerPage);
        page
      else page
    else sorted
  }

  /** A page of a descending list is descending. */
  lemma SliceKeepsOrder(data: LiquidityData, ts: seq<Token>, page: int, perPage: int)
    requires DescendingLiquidity(data, ts)
    ensures DescendingLiquidity(data, PageSlice(ts, page, perPage))
  {
    var r := PageSlice(ts, page, perPage);
    var a, b := ResolveIndex(PageStart(page, perPage), |ts|), ResolveIndex(PageStart(page, perPage) + perPage, |ts|);
    if a < b {
      assert forall i :: 0 <= i < |r| ==> r[i] == ts[a + i];
    }
  }

  /** On the full list the grid shows exactly the items of the chosen page
      of the (possibly re-ordered) list, so the pages together show every
      token once. */
  lemma {:induction false} FullListPagesCoverTokens(tokens: seq<Token>, sortType: SortOption,
                                                    data: LiquidityData, perPage: nat)
    requires perPage > 0
    ensures var sorted := DisplayTokens(tokens, sortType, data, 1, perPage, false);
      && multiset(sorted) == multiset(tokens)
      && Flatten(Pages(sorted, perPage)) == sorted
      && |Pages(sorted, perPage)| == PageCount(|tokens|, perPage)
      && (forall p :: 1 <= p <= |Pages(sorted, perPage)| ==>
            DisplayTokens(tokens, sortType, data, p, perPage, true) == Pages(sorted, perPage)[p - 1])
  {
    var sorted := DisplayTokens(tokens, sortType, data, 1, perPage, false);
    assert |sorted| == |tokens| by {
      assert |multiset(sorted)| == |multiset(tokens)|;
    }
    PagesPartitionList(sorted, perPage);
    PagesCount(sorted, perPage);
    forall p | 1 <= p <= |Pages(sorted, perPage)|
      ensures DisplayTokens(tokens, sortType, data, p, perPage, true) == Pages(sorted, perPage)[p - 1]
    {
      PagesAreSlices(sorted, perPage, p);
    }
  }
}
