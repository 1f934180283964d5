/** The list state of the home page, src/pages/index.tsx: the trending and
    marketcap pages cut from the full trending list, the normalisation of
    every fetched page, the live feed of new tokens (shown at once or kept
    in a buffer), the show-new toggle, search and sort. Backend answers and
    the live feed are parameters. */
module HomePage {
  import opened Common
  import opened JsStrings
  import opened Pagination
  import opened SortOptions

  /** `TOKENS_PER_PAGE`. */
  const TokensPerPage: nat := 3

  /** A fetched page as the backend or the trending branch builds it;
      `data` and `tokens` may each be missing. */
  datatype Response = Response(data: Option<seq<Token>>, tokens: Option<seq<Token>>, totalCount: int,
                               currentPage: int, totalPages: int, fullList: bool)

  /** `PaginatedResponse` after `adjustedTokens`. */
  datatype Paginated = Paginated(data: seq<Token>, totalCount: int, currentPage: int, totalPages: int, fullList: bool)

  /** The trending branch: page `currentPage` of the whole list, three per page. */
  function TrendingResponse(all: seq<Token>, currentPage: int): (r: Response)
    ensures r.data == Some(PageSlice(all, currentPage, TokensPerPage))
    ensures r.totalCount == |all| && r.totalPages == PageCount(|all|, TokensPerPage)
    ensures currentPage >= 1 ==> |r.data.value| <= TokensPerPage
    ensures !r.fullList
  {
    Response(Some(PageSlice(all, currentPage, TokensPerPage)), None, |all|, currentPage,
             PageCount(|all|, TokensPerPage), false)
  }

  /** The marketcap branch: the whole list, marked for TokenList to page. */
  function MarketcapResponse(all: seq<Token>, currentPage: int): (r: Response)
    ensures r.data == Some(all) && r.fullList
    ensures r.totalCount == |all| && r.totalPages == PageCount(|all|, TokensPerPage)
  {
    Response(Some(all), None, |all|, currentPage, PageCount(|all|, TokensPerPage), true)
  }

  /** The trending pages 1..totalPages together are the trending list,
      each token once and in order. */
  lemma TrendingPagesCoverList(all: seq<Token>)
    ensures |Pages(all, TokensPerPage)| == TrendingResponse(all, 1).totalPages
    ensures Flatten(Pages(all, TokensPerPage)) == all
    ensures forall p :: 1 <= p <= |Pages(all, TokensPerPage)| ==>
      TrendingResponse(all, p).data == Some(Pages(all, TokensPerPage)[p - 1])
  {
    PagesCount(all, TokensPerPage);
    PagesPartitionList(all, TokensPerPage);
    forall p | 1 <= p <= |Pages(all, TokensPerPage)|
      ensures TrendingResponse(all, p).data == Some(Pages(all, TokensPerPage)[p - 1])
    {
      PagesAreSlices(all, TokensPerPage, p);
    }
  }

  /** `adjustedTokens`: `data || tokens || []` (an array, even empty, is
      truthy), and a zero page number or page count becomes 1. */
  function Adjust(r: Response): (p: Paginated)
    ensures r.data.Some? ==> p.data == r.data.value
    ensures r.data.None? && r.tokens.Some? ==> p.data == r.tokens.value
    ensures r.data.None? && r.tokens.None? ==> p.data == []
    ensures p.totalCount == r.totalCount && p.fullList == r.fullList
    ensures p.currentPage == (if r.currentPage == 0 then 1 else r.currentPage)
    ensures p.totalPages == (if r.totalPages == 0 then 1 else r.totalPages)
  {
    Paginated(if r.data.Some? then r.data.value else if r.tokens.Some? then r.tokens.value else [],
              r.totalCount,
              if r.currentPage == 0 then 1 else r.currentPage,
              if r.totalPages == 0 then 1 else r.totalPages,
              r.fullList)
  }

  /** An empty trending list still reports one page, so the pager stays hidden. */
  lemma EmptyTrendingHasOnePage(currentPage: int)
    ensures Adjust(TrendingResponse([], currentPage)).totalPages == 1
    ensures PagerView(currentPage, Adjust(TrendingResponse([], currentPage)).totalPages) == Hidden
  {
  }

  /** `{ data: [], totalCount: 0, currentPage: 1, totalPages: 1 }`. */
  const EmptyPage := Response(Some([]), None, 0, 1, 1, false)

  /** How the backend call of a branch ended. */
  datatype Backend = Answered(response: Response) | NullAnswer | NotFound | Threw

  const FetchError := "Failed to fetch tokens. Please try again later."
  const SortError := "Failed to sort tokens. Please try again."

  // ---- the page state ----

  datatype Home = Home(
    tokens: Option<Paginated>,
    currentPage: int,
    sort: SortOption,
    searchQuery: string,
    showNewTokens: bool,
    newTokensBuffer: seq<Token>,
    displayedNewTokens: seq<Token>,
    allTrendingTokens: seq<Token>,
    error: Option<string>,
    noRecentTokens: bool,
    noLiquidityTokens: bool,
    lastFeed: seq<Token>)

  /** `lastFeed` is the `newTokens` state: the batch the live feed delivered last. */
  const Initial := Home(None, 1, Trending, "", false, [], [], [], None, false, false, [])

  /** `fetchTokens()` against the current state. `trendingFeed` is what
      `getAllTokensTrends()` gave (None when it threw) and `backend` how the
      search, recent or liquidity call ended. */
  function FetchTokens(h: Home, trendingFeed: Option<seq<Token>>, backend: Backend): (r: Home)
    ensures r.currentPage == h.currentPage && r.sort == h.sort && r.searchQuery == h.searchQuery
    ensures r.showNewTokens == h.showNewTokens && r.newTokensBuffer == h.newTokensBuffer
    ensures r.displayedNewTokens == h.displayedNewTokens
    ensures r.error.Some? ==> r.error == Some(FetchError) && r.tokens == h.tokens
    ensures r.error.None? ==> r.tokens.Some?
    ensures r.noRecentTokens ==> h.sort == New && Trim(h.searchQuery) == "" && r.tokens == Some(Adjust(EmptyPage))
    ensures r.noLiquidityTokens ==> h.sort == Finalized && Trim(h.searchQuery) == "" && r.tokens == Some(Adjust(EmptyPage))
    ensures Trim(h.searchQuery) != "" ==>
      (r.error.None? <==> backend.Answered?) && (backend.Answered? ==> r.tokens == Some(Adjust(backend.response)))
    ensures Trim(h.searchQuery) == "" && h.sort in {Trending, Marketcap} && |h.allTrendingTokens| > 0 ==>
      && r.allTrendingTokens == h.allTrendingTokens
      && r.tokens == Some(Adjust(if h.sort == Trending then TrendingResponse(h.allTrendingTokens, h.currentPage)
                                else MarketcapResponse(h.allTrendingTokens, h.currentPage)))
    ensures Trim(h.searchQuery) == "" && h.sort in {Trending, Marketcap} && |h.allTrendingTokens| == 0 ==>
      && (r.error.Some? <==> trendingFeed.None?)
      && (trendingFeed.Some? ==>
            && r.allTrendingTokens == trendingFeed.value
            && r.tokens == Some(Adjust(if h.sort == Trending then TrendingResponse(trendingFeed.value, h.currentPage)
                                      else MarketcapResponse(trendingFeed.value, h.currentPage))))
    ensures Trim(h.searchQuery) == "" && h.sort in {New, Finalized} && backend.Answered? ==>
      r.error.None? && r.tokens == Some(Adjust(backend.response))
    ensures Trim(h.searchQuery) == "" ==> (r.noRecentTokens <==> h.sort == New && backend == NullAnswer)
    ensures Trim(h.searchQuery) == "" ==> (r.noLiquidityTokens <==> h.sort == Finalized && backend == NotFound)
  {
    var cleared := h.(error := None, noRecentTokens := false, noLiquidityTokens := false);
    var failed := cleared.(error := Some(FetchError));
    if Trim(h.searchQuery) != "" then
      (match backend
       case Answered(resp) => cleared.(tokens := Some(Adjust(resp)))
       case _ => failed)
    else match h.sort
      case Trending | Marketcap =>
        var source := if |h.allTrendingTokens| == 0 then trendingFeed else Some(h.allTrendingTokens);
        (match source
         case None => failed
         case Some(all) =>
           var resp := if h.sort == Marketcap then MarketcapResponse(all, h.currentPage)
                       else TrendingResponse(all, h.currentPage);
           cleared.(tokens := Some(Adjust(resp)), allTrendingTokens := all))
      case New =>
        (match backend
         case Answered(resp) => cleared.(tokens := Some(Adjust(resp)))
         case NullAnswer => cleared.(tokens := Some(Adjust(EmptyPage)), noRecentTokens := true)
         case _ => failed)
      case Finalized =>
        (match backend
         case Answered(resp) => cleared.(tokens := Some(Adjust(resp)))
         case NotFound => cleared.(tokens := Some(Adjust(EmptyPage)), noLiquidityTokens := true)
         case _ => failed)
  }

  // ---- live feed ----

  function Ids(ts: seq<Token>): set<string>
  {
    set t | t in ts :: t.id
  }

  /** `newTokens.filter(t => !excluded.some(e => e.id === t.id))`. */
  function WithoutIds(ts: seq<Token>, excluded: set<string>): (r: seq<Token>)
    ensures forall t :: t in r <==> t in ts && t.id !in excluded
    ensures |r| <= |ts|
  {
    if |ts| == 0 then []
    else (if ts[0].id in excluded then [] else [ts[0]]) + WithoutIds(ts[1..], excluded)
  }

  /** A batch whose ids are all excluded leaves nothing. */
  lemma {:induction false} WithoutIdsAllExcluded(ts: seq<Token>, excluded: set<string>)
    requires forall t :: t in ts ==> t.id in excluded
    ensures WithoutIds(ts, excluded) == []
    decreases |ts|
  {
    if |ts| > 0 {
      assert ts[0] in ts;
      WithoutIdsAllExcluded(ts[1..], excluded);
    }
  }

  /** The effect run when the live feed delivers `newTokens`. */
  function ReceiveNewTokens(h: Home, newTokens: seq<Token>): (r: Home)
    ensures r.showNewTokens == h.showNewTokens
    ensures |newTokens| == 0 || (h.showNewTokens && h.tokens.None?) ==> r == h
    ensures |newTokens| > 0 && h.showNewTokens && h.tokens.Some? ==>
      var added := WithoutIds(newTokens, Ids(h.tokens.value.data) + Ids(h.displayedNewTokens));
      && r.tokens.Some?
      && r.tokens.value.data == added + h.tokens.value.data
      && r.tokens.value.totalCount == h.tokens.value.totalCount + |added|
      && r.displayedNewTokens == h.displayedNewTokens + added
      && r.newTokensBuffer == h.newTokensBuffer
    ensures |newTokens| > 0 && !h.showNewTokens ==>
      && r.newTokensBuffer == WithoutIds(newTokens, Ids(h.newTokensBuffer)) + h.newTokensBuffer
      && r.tokens == h.tokens && r.displayedNewTokens == h.displayedNewTokens
  {
    if |newTokens| == 0 then h
    else if h.showNewTokens then
      match h.tokens
      case None => h
      case Some(page) =>
        var added := WithoutIds(newTokens, Ids(page.data) + Ids(h.displayedNewTokens));
        h.(tokens := Some(page.(data := added + page.data, totalCount := page.totalCount + |added|)),
           displayedNewTokens := h.displayedNewTokens + added)
    else
      h.(newTokensBuffer := WithoutIds(newTokens, Ids(h.newTokensBuffer)) + h.newTokensBuffer)
  }

  /** While shown, no new token whose id is already listed (in the page or
      among the shown new tokens) is added again. */
  lemma ShownMergeAddsNoListedId(h: Home, newTokens: seq<Token>)
    requires |newTokens| > 0 && h.showNewTokens && h.tokens.Some?
    ensures var r := ReceiveNewTokens(h, newTokens);
      forall i :: 0 <= i < |r.tokens.value.data| - |h.tokens.value.data| ==>
        r.tokens.value.data[i] in newTokens
        && r.tokens.value.data[i].id !in Ids(h.tokens.value.data)
        && r.tokens.value.data[i].id !in Ids(h.displayedNewTokens)
  {
    var added := WithoutIds(newTokens, Ids(h.tokens.value.data) + Ids(h.displayedNewTokens));
    var r := ReceiveNewTokens(h, newTokens);
    forall i | 0 <= i < |r.tokens.value.data| - |h.tokens.value.data|
      ensures r.tokens.value.data[i] in added
    {
      assert r.tokens.value.data[i] == added[i];
    }
  }

  // ---- the show-new toggle ----

  /** The objects among `ts`. */
  function Identities(ts: seq<Token>): (r: set<nat>)
    ensures forall t :: t in ts ==> t.identity in r
    ensures forall n :: n in r ==> exists t :: t in ts && t.identity == n
  {
    set t | t in ts :: t.identity
  }

  /** `data.filter(t => !gone.includes(t))`: `includes` compares object
      references, so a token goes exactly when it is the same object as one
      in `gone`; an equal-looking copy stays. */
  function Without(ts: seq<Token>, gone: seq<Token>): (r: seq<Token>)
    ensures |r| <= |ts|
  {
    if |ts| == 0 then []
    else (if ts[0].identity in Identities(gone) then [] else [ts[0]]) + Without(ts[1..], gone)
  }

  lemma {:induction false} WithoutAppend(a: seq<Token>, b: seq<Token>, gone: seq<Token>)
    ensures Without(a + b, gone) == Without(a, gone) + Without(b, gone)
    decreases |a|
  {
    if |a| > 0 {
      var head := if a[0].identity in Identities(gone) then [] else [a[0]];
      assert (a + b)[0] == a[0];
      assert (a + b)[1..] == a[1..] + b;
      assert Without(a + b, gone) == head + Without(a[1..] + b, gone);
      WithoutAppend(a[1..], b, gone);
      assert Without(a, gone) == head + Without(a[1..], gone);
      assert head + (Without(a[1..], gone) + Without(b, gone)) == (head + Without(a[1..], gone)) + Without(b, gone);
    } else {
      assert a + b == b;
    }
  }

  /** The filter keeps exactly the tokens that are not the same object as
      one in `gone`. */
  lemma {:induction false} WithoutMembers(ts: seq<Token>, gone: seq<Token>, t: Token)
    ensures t in Without(ts, gone) <==> t in ts && t.identity !in Identities(gone)
    decreases |ts|
  {
    if |ts| > 0 {
      WithoutMembers(ts[1..], gone, t);
      assert ts == [ts[0]] + ts[1..];
    }
  }

  lemma {:induction false} WithoutNothingGone(ts: seq<Token>, gone: seq<Token>)
    requires forall t :: t in ts ==> t.identity !in Identities(gone)
    ensures Without(ts, gone) == ts
    decreases |ts|
  {
    if |ts| > 0 {
      WithoutNothingGone(ts[1..], gone);
    }
  }

  lemma {:induction false} WithoutAllGone(ts: seq<Token>, gone: seq<Token>)
    requires forall t :: t in ts ==> t.identity in Identities(gone)
    ensures Without(ts, gone) == []
    decreases |ts|
  {
    if |ts| > 0 {
      WithoutAllGone(ts[1..], gone);
    }
  }

  /** `toggleNewTokens()`. */
  function ToggleNewTokens(h: Home): (r: Home)
    ensures r.showNewTokens == !h.showNewTokens
    ensures !r.showNewTokens ==> r.displayedNewTokens == [] && r.newTokensBuffer == h.displayedNewTokens
    ensures r.showNewTokens ==> r.displayedNewTokens == h.newTokensBuffer && r.newTokensBuffer == []
    ensures r.tokens.Some? <==> h.tokens.Some?
    ensures h.tokens.Some? && r.showNewTokens ==>
      r.tokens.value.data == h.newTokensBuffer + h.tokens.value.data
      && r.tokens.value.totalCount == h.tokens.value.totalCount + |h.newTokensBuffer|
    ensures h.tokens.Some? && !r.showNewTokens ==>
      r.tokens.value.data == Without(h.tokens.value.data, h.displayedNewTokens)
      && r.tokens.value.totalCount == h.tokens.value.totalCount - |h.displayedNewTokens|
  {
    if h.showNewTokens then
      h.(showNewTokens := false,
         tokens := match h.tokens
           case None => None
           case Some(page) => Some(page.(data := Without(page.data, h.displayedNewTokens),
                                         totalCount := page.totalCount - |h.displayedNewTokens|)),
         newTokensBuffer := h.displayedNewTokens,
         displayedNewTokens := [])
    else
      h.(showNewTokens := true,
         tokens := match h.tokens
           case None => None
           case Some(page) => Some(page.(data := h.newTokensBuffer + page.data,
                                         totalCount := page.totalCount + |h.newTokensBuffer|)),
         displayedNewTokens := h.newTokensBuffer,
         newTokensBuffer := [])
  }

  /** Putting the buffer in front of the data and filtering it out again
      gives the data back exactly when no object is in both. */
  lemma PrependThenFilter(b: seq<Token>, d: seq<Token>)
    ensures Without(b + d, b) == d <==> forall t :: t in d ==> t.identity !in Identities(b)
  {
    WithoutAppend(b, d, b);
    WithoutAllGone(b, b);
    assert Without(b + d, b) == Without(d, b);
    if forall t :: t in d ==> t.identity !in Identities(b) {
      WithoutNothingGone(d, b);
    } else {
      var t :| t in d && t.identity in Identities(b);
      WithoutMembers(d, b, t);
    }
  }

  /** Turning the new tokens on and off again restores the page exactly
      when none of the buffered tokens was already on it; a buffered token
      that was on the page is filtered out of it on the way back. */
  lemma ToggleOnOffRestores(h: Home)
    requires !h.showNewTokens && h.displayedNewTokens == []
    ensures h.tokens.None? ==> ToggleNewTokens(ToggleNewTokens(h)) == h
    ensures h.tokens.Some? ==>
      (ToggleNewTokens(ToggleNewTokens(h)) == h <==>
       forall t :: t in h.tokens.value.data ==> t.identity !in Identities(h.newTokensBuffer))
  {
    if h.tokens.Some? {
      var b, d := h.newTokensBuffer, h.tokens.value.data;
      var r := ToggleNewTokens(ToggleNewTokens(h));
      PrependThenFilter(b, d);
      assert r.tokens.value.data == Without(b + d, b);
      assert r == h.(tokens := Some(h.tokens.value.(data := Without(b + d, b))));
    }
  }

  /** A buffered token and a separate backend object with the same id and
      address: toggling on and off keeps the backend object, so the page
      comes back as it was. */
  lemma ToggleKeepsEqualLookingCopy(h: Home, t: Token, u: Token)
    requires !h.showNewTokens && h.displayedNewTokens == []
    requires t.identity != u.identity && t.id == u.id && t.address == u.address
    requires h.newTokensBuffer == [t] && h.tokens.Some? && h.tokens.value.data == [u]
    ensures ToggleNewTokens(ToggleNewTokens(h)) == h
  {
    ToggleOnOffRestores(h);
  }

  // ---- search, sort and paging ----

  /** `handleSearch(query)`. */
  function HandleSearch(h: Home, query: string): (r: Home)
    ensures query == h.searchQuery ==> r == h
    ensures query != h.searchQuery ==> r.searchQuery == query
    ensures r.currentPage == (if query != h.searchQuery && Trim(query) != "" then 1 else h.currentPage)
    ensures r == h.(searchQuery := r.searchQuery, currentPage := r.currentPage)
  {
    if query == h.searchQuery then h
    else if Trim(query) != "" then h.(searchQuery := query, currentPage := 1)
    else h.(searchQuery := query)
  }

  /** `handleSort(option)`; `trendingFeed` is the outcome of the trending
      fetch it makes when switching to marketcap with no trending list. */
  function HandleSort(h: Home, option: SortOption, trendingFeed: Option<seq<Token>>): (r: Home)
    ensures option == Marketcap && |h.allTrendingTokens| == 0 && trendingFeed.None? ==>
      r == h.(error := Some(SortError))
    ensures !(option == Marketcap && |h.allTrendingTokens| == 0 && trendingFeed.None?) ==>
      && r.sort == option && r.currentPage == 1 && r.searchQuery == ""
      && r.tokens == h.tokens && r.showNewTokens == h.showNewTokens
      && r.newTokensBuffer == h.newTokensBuffer && r.displayedNewTokens == h.displayedNewTokens
      && (option in {New, Finalized} ==> r.allTrendingTokens == [])
      && (option == Trending || (option == Marketcap && |h.allTrendingTokens| > 0) ==>
            r.allTrendingTokens == h.allTrendingTokens)
      && (option == Marketcap && |h.allTrendingTokens| == 0 ==> r.allTrendingTokens == trendingFeed.value)
  {
    if option == Marketcap && |h.allTrendingTokens| == 0 then
      match trendingFeed
      case None => h.(error := Some(SortError))
      case Some(all) => h.(allTrendingTokens := all, sort := option, currentPage := 1, searchQuery := "")
    else
      var trending := if option == New || option == Finalized then [] else h.allTrendingTokens;
      h.(allTrendingTokens := trending, sort := option, currentPage := 1, searchQuery := "")
  }

  // ---- whole runs ----

  datatype Event =
    | Feed(newTokens: seq<Token>)
    | Toggle
    | Search(query: string)
    | Sort(option: SortOption, sortFeed: Option<seq<Token>>)
    | PageChange(page: int)
    | Fetch(trendingFeed: Option<seq<Token>>, backend: Backend)

  /** One event. A delivery stores the batch and runs the feed effect on it.
      A click on the toggle runs the handler and then the feed effect once
      more on the last batch, because that effect depends on
      `[newTokens, showNewTokens]` (src/pages/index.tsx:75). */
  function Step(h: Home, e: Event): (r: Home)
    ensures e.Toggle? ==> r.showNewTokens == !h.showNewTokens && r.lastFeed == h.lastFeed
    ensures e.Feed? ==> r.showNewTokens == h.showNewTokens && r.lastFeed == e.newTokens
    ensures !e.Toggle? && !e.Feed? ==>
      && r.showNewTokens == h.showNewTokens && r.lastFeed == h.lastFeed
      && r.newTokensBuffer == h.newTokensBuffer && r.displayedNewTokens == h.displayedNewTokens
  {
    match e
    case Feed(ts) => ReceiveNewTokens(h.(lastFeed := ts), ts)
    case Toggle => ReceiveNewTokens(ToggleNewTokens(h), h.lastFeed)
    case Search(q) => HandleSearch(h, q)
    case Sort(o, f) => HandleSort(h, o, f)
    case PageChange(p) => h.(currentPage := p)
    case Fetch(f, b) => FetchTokens(h, f, b)
  }

  function Run(h: Home, events: seq<Event>): Home
    decreases |events|
  {
    if |events| == 0 then h else Run(Step(h, events[0]), events[1..])
  }

  /** While new tokens are hidden none are marked as shown, and every token
      of the last delivered batch has its id in the buffer. */
  predicate Consistent(h: Home)
  {
    !h.showNewTokens ==>
      h.displayedNewTokens == [] && forall t :: t in h.lastFeed ==> t.id in Ids(h.newTokensBuffer)
  }

  /** A hidden merge leaves every id of the merged batch in the buffer. */
  lemma HiddenMergeBuffersIds(h: Home, ts: seq<Token>)
    requires !h.showNewTokens
    ensures forall t :: t in ts ==> t.id in Ids(ReceiveNewTokens(h, ts).newTokensBuffer)
  {
    var b := ReceiveNewTokens(h, ts).newTokensBuffer;
    forall t | t in ts ensures t.id in Ids(b) {
      var added := WithoutIds(ts, Ids(h.newTokensBuffer));
      if t.id in Ids(h.newTokensBuffer) {
        var u :| u in h.newTokensBuffer && u.id == t.id;
        assert u in b;
      } else {
        assert t in added;
        assert t in b;
      }
    }
  }

  lemma StepKeepsConsistent(h: Home, e: Event)
    requires Consistent(h)
    ensures Consistent(Step(h, e))
  {
    match e
    case Feed(ts) =>
      if !h.showNewTokens { HiddenMergeBuffersIds(h.(lastFeed := ts), ts); }
    case Toggle =>
      if h.showNewTokens { HiddenMergeBuffersIds(ToggleNewTokens(h), h.lastFeed); }
    case _ =>
  }

  /** Every state reachable from a consistent one is consistent. */
  lemma {:induction false} RunStaysConsistent(h: Home, events: seq<Event>)
    requires Consistent(h)
    ensures Consistent(Run(h, events))
    decreases |events|
  {
    if |events| > 0 {
      StepKeepsConsistent(h, events[0]);
      RunStaysConsistent(Step(h, events[0]), events[1..]);
    }
  }

  /** Merging a batch whose ids are all buffered changes nothing while hidden. */
  lemma HiddenMergeOfBufferedIds(h: Home, ts: seq<Token>)
    requires !h.showNewTokens && forall t :: t in ts ==> t.id in Ids(h.newTokensBuffer)
    ensures ReceiveNewTokens(h, ts) == h
  {
    WithoutIdsAllExcluded(ts, Ids(h.newTokensBuffer));
    assert [] + h.newTokensBuffer == h.newTokensBuffer;
  }

  /** Merging a batch whose ids are all among the shown new tokens changes
      nothing while shown. */
  lemma ShownMergeOfDisplayedIds(h: Home, ts: seq<Token>)
    requires h.showNewTokens && forall t :: t in ts ==> t.id in Ids(h.displayedNewTokens)
    ensures ReceiveNewTokens(h, ts) == h
  {
    if h.tokens.Some? {
      var added := WithoutIds(ts, Ids(h.tokens.value.data) + Ids(h.displayedNewTokens));
      WithoutIdsAllExcluded(ts, Ids(h.tokens.value.data) + Ids(h.displayedNewTokens));
      assert h.displayedNewTokens + [] == h.displayedNewTokens;
      assert [] + h.tokens.value.data == h.tokens.value.data;
    }
  }

  /** Two clicks on the toggle, each with its re-run of the feed effect,
      give back a consistent hidden state exactly as the handler alone does:
      the page is restored when no buffered object is on it. */
  lemma ToggleClicksRestore(h: Home)
    requires Consistent(h) && !h.showNewTokens
    requires h.tokens.Some? ==> forall t :: t in h.tokens.value.data ==> t.identity !in Identities(h.newTokensBuffer)
    ensures Step(Step(h, Toggle), Toggle) == h
  {
    var on := ToggleNewTokens(h);
    assert on.displayedNewTokens == h.newTokensBuffer;
    ShownMergeOfDisplayedIds(on, h.lastFeed);
    assert Step(h, Toggle) == on;
    var off := ToggleNewTokens(on);
    ToggleOnOffRestores(h);
    assert off == h;
    HiddenMergeOfBufferedIds(h, h.lastFeed);
  }

  /** The handler round trip, and the two-click round trip with the feed
      effect's re-runs, both restore every reachable hidden state whose
      buffered objects are not on the page. */
  lemma ReachableToggleRestores(events: seq<Event>)
    requires !Run(Initial, events).showNewTokens
    requires var h := Run(Initial, events);
      h.tokens.Some? ==> forall t :: t in h.tokens.value.data ==> t.identity !in Identities(h.newTokensBuffer)
    ensures ToggleNewTokens(ToggleNewTokens(Run(Initial, events))) == Run(Initial, events)
    ensures Step(Step(Run(Initial, events), Toggle), Toggle) == Run(Initial, events)
  {
    RunStaysConsistent(Initial, events);
    ToggleOnOffRestores(Run(Initial, events));
    ToggleClicksRestore(Run(Initial, events));
  }

  /** Off then on can list one id twice: a shown page holds the backend's
      object `u`, and the last batch holds a different object `t` with the
      same id, which the shown merge skipped. Turning off re-runs the merge
      in its hidden branch, which checks only the buffer and so buffers `t`;
      turning on puts `t` in front of `u`. */
  lemma OffOnListsIdTwice(h: Home, t: Token, u: Token)
    requires h.showNewTokens && h.displayedNewTokens == [] && h.newTokensBuffer == []
    requires h.tokens.Some? && h.tokens.value.data == [u] && h.lastFeed == [t]
    requires t.id == u.id && t.identity != u.identity
    ensures var r := Step(Step(h, Toggle), Toggle);
      r.tokens.value.data == [t, u] && r.tokens.value.totalCount == h.tokens.value.totalCount + 1
  {
    var off := ToggleNewTokens(h);
    assert Without([u], []) == [u];
    assert off.tokens.value.data == [u];
    assert WithoutIds([t], Ids([])) == [t];
    var offRerun := Step(h, Toggle);
    assert offRerun.newTokensBuffer == [t];
    var on := ToggleNewTokens(offRerun);
    assert on.tokens.value.data == [t, u];
    assert on.displayedNewTokens == [t];
    ShownMergeOfDisplayedIds(on, [t]);
  }
}
