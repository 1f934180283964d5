# Agent Pad front end: display and state logic in Dafny

This project models the logic of the Agent Pad memecoin launchpad front end. The original is a Next.js application written in TypeScript. Rendering, React hooks, wallet and contract calls and HTTP are not modelled. What remains is what the pages and components decide from their inputs:

- relative-time, address and website shortening (`src/utils/blockchainUtils.ts`);
- the page-number strip and pager shared by the token grid, the token table and the trade history;
- page slicing, page counts and the marketcap ordering of the grid;
- the header-sort toggle of the table, which moves only an arrow;
- holder shares in basis points, their two-decimal rendering, the filtered holder rows and the bonding-curve row;
- the home page's list state: trending and marketcap pages, response normalisation, the live feed of new tokens, the show-new toggle, search and sort;
- the five-minute price cache;
- the token-creation form: upload with its 1 MiB limit, submit, confirm, button label, navigation guard;
- the image upload API route, as an ordered decision from request to status and JSON body;
- the bonding-curve progress of cards and the detail panel, description truncation, and the liquidity effect of a card;
- the page metadata (SEO) and the sort selector.

Each source component is one module. Shared pieces live in `Common` and `JsStrings`:

- `Option` stands for `undefined`/`null`;
- JavaScript truthiness of strings;
- `slice` with negative and out-of-range indices;
- `trim`;
- ASCII `toLowerCase`;
- decimal rendering of integers.

The pieces common to several components have their own modules:

- `Pagination` holds the page strip, the pager, slicing and page counts;
- `BondingProgress` holds the progress percentage;
- `PriceCache` holds the price cache.

Clocks, environment variables, backend answers, chain reads and the live feed all become parameters of the functions that use them. Numbers are exact: integers are unbounded and JavaScript numbers are exact reals. The `NaN` and infinities of JavaScript numbers are kept where the code guards against them with `|| 0` or `Math.min`.

The progress bars clamp only from above. The code (`src/components/tokens/TokenCard.tsx:61-62`, `src/components/TokenDetails/TokenInfo.tsx:88-89`) applies `Math.min(…, 100)` and no lower bound, so a negative `NEXT_PUBLIC_DEX_TARGET` gives a negative percentage. `BondingProgress.Percentage`, `TokenCard.Progress` and `TokenInfo.CalculateProgress` therefore promise `0 <= progress` only for a positive target.

## Model

| member | source | states |
|---|---|---|
| TimeFormat.DiffInSeconds | src/utils/blockchainUtils.ts:347 | the whole-second difference is the floor of the millisecond difference over 1000: d·1000 ≤ now − then < d·1000 + 1000 |
| TimeFormat.ComponentsAsWritten | src/utils/blockchainUtils.ts:349-354 | for a non-negative difference every count lies in its unit's range and seconds through months are the mixed-radix digits of d modulo 360 days; for a negative difference every count is ≤ 0 and the year count negative |
| TimeFormat.MixedRadix | src/utils/blockchainUtils.ts:349-353 | the seconds, minutes, hours, days and months counts reassemble d modulo twelve 30-day months, and with d div 360 days reassemble d itself |
| TimeFormat.ComponentsFollowJsArithmetic | src/utils/blockchainUtils.ts:349-354 | each integer count equals the source expression (`%` keeping the dividend's sign, `/` real division, `Math.floor`) evaluated on exact reals, for every difference including negative ones |
| TimeFormat.Parts | src/utils/blockchainUtils.ts:356-381 | the accumulation emits at most two parts, each with a positive count, in yr, mo, d, h, m, s order, and seconds only when nothing else is emitted |
| TimeFormat.PartsAreSignificantUnits | src/utils/blockchainUtils.ts:359-381 | the guarded accumulation equals an independent reading: the two most significant positive units among yr..m, or the seconds alone |
| TimeFormat.FormatTimestamp | src/utils/blockchainUtils.ts:356-383 | the result always ends in " ago" and is the emitted parts joined by single blanks; the trim removes exactly the trailing blank of the accumulation |
| TimeFormat.NonPositiveRendersBareAgo | src/utils/blockchainUtils.ts:347-383 | a timestamp now or in the future emits no part and renders as " ago" |
| TimeFormat.AsWrittenLosesYearAndMonth | src/utils/blockchainUtils.ts:353-354 | from 360 up to 365 days both the year count and the month count are 0 |
| TimeFormat.AsWrittenThreeSixtyDaysRendersAgo | src/utils/blockchainUtils.ts:344-384 | a difference of exactly 360 days renders as " ago", as if no time had passed |
| TimeFormat.ComponentsFixed | src/utils/blockchainUtils.ts:349-354 | with 360-day years the six counts are all in range and reassemble d exactly |
| TimeFormat.FixedNamesSomeUnit | src/utils/blockchainUtils.ts:344-384 | with 360-day years every positive difference names at least one unit, so it never renders " ago" alone |
| TimeFormat.V1PartBands | src/utils/blockchainUtils.ts:391-401 | the cascade picks the unit by the band d falls in (<1 min, <1 h, <1 day, <30 days, <360 days, beyond), each in both directions, with the count d div that unit's length |
| TimeFormat.V1CountBounds | src/utils/blockchainUtils.ts:392-401 | from one minute on the count is at least 1 and below its unit's threshold (60, 24, 30, 12) |
| TimeFormat.FormatTimestampV1 | src/utils/blockchainUtils.ts:386-402 | below a minute (negative differences included) the signed seconds with "s"; in each band above it the whole count of that band's unit with its suffix: minutes "m", hours "hr", days "d", 30-day months "mo", 360-day years "yr" |
| AddressFormat.FormatAddressV2 | src/utils/blockchainUtils.ts:433-436 | the result is the last min(6, length) characters of the address, the whole address when it is short |
| AddressFormat.FormatAddressV3 | src/utils/blockchainUtils.ts:438-441 | the result is the first min(5, length) characters, "...", then the last min(4, length) characters |
| AddressFormat.ShortenAddress | src/utils/blockchainUtils.ts:443-445 | the result is the characters from position 2, at most six, and empty for addresses of two characters or fewer |
| AddressFormat.StripScheme | src/utils/blockchainUtils.ts:453 | the unanchored, non-global replace removes only the leftmost `http://`/`https://` (shortening the string by exactly its length) and leaves a scheme-free string unchanged |
| AddressFormat.StripLeadingHttps | src/utils/blockchainUtils.ts:453 | a leading `https://` is removed and nothing else |
| AddressFormat.StripLeadingHttp | src/utils/blockchainUtils.ts:453 | a leading `http://` is removed and nothing else |
| AddressFormat.ShortenWebsite | src/utils/blockchainUtils.ts:451-456 | as written: a prefix of the ORIGINAL string whose length is the slash index in the STRIPPED string; with no slash the last character is dropped; empty input gives "" |
| AddressFormat.ShortenWebsiteCutsIntoScheme | src/utils/blockchainUtils.ts:453-455 | "https://a.io/x" shortens to "http" |
| AddressFormat.ShortenWebsiteDropsLastCharacter | src/utils/blockchainUtils.ts:454-455 | "a.io" shortens to "a.i" |
| AddressFormat.ShortenWebsiteFixed | src/utils/blockchainUtils.ts:451-456 | corrected: "" for ""; otherwise the stripped string up to (not including) its first slash, and all of it when it has no slash |
| AddressFormat.ShortenWebsiteFixedGivesHost | src/utils/blockchainUtils.ts:451-456 | corrected: `https://host/path` with a slash-free host yields exactly the host |
| AddressFormat.ShortenWebsiteFixedGivesHttpHost | src/utils/blockchainUtils.ts:451-456 | corrected: `http://host/path` with a slash-free host yields exactly the host |
| Pagination.PaginationRange | src/components/tokens/TokenList.tsx:74-94 | up to five pages lists 1..total (nothing for total 0); beyond that exactly five items from 1 to total; page numbers strictly increase, stay in 1..total, and include the current page when it is in range |
| Pagination.ExactlyOneActive | src/components/tokens/TokenList.tsx:138-146 | for a current page in range exactly one strip item is the current page, so exactly one button is `active` |
| Pagination.PagerView | src/components/tokens/TokenList.tsx:116-167 | the pager is shown iff there are at least two pages; first/prev are disabled iff on page 1, next/last iff on the last page |
| Pagination.PagerStaysInRange | src/components/tokens/TokenList.tsx:116-167 | from a page in range, every enabled button and every page number leads to a page in 1..total |
| Pagination.PageSlice | src/components/tokens/TokenList.tsx:64-69 | for page ≥ 1 the result is the window of at most perPage items starting at (page−1)·perPage, clipped to the list |
| Pagination.PageCount | src/pages/index.tsx:143 | `Math.ceil(count / perPage)`: the smallest r with count ≤ r·perPage, and 0 exactly for an empty list |
| Pagination.PagesPartitionList | src/components/tokens/TokenList.tsx:64-69 | the pages read in order give back the whole list |
| Pagination.PagesCount | src/pages/index.tsx:143 | the number of non-empty pages is `Math.ceil(length / perPage)` |
| Pagination.PagesAreSlices | src/components/tokens/TokenList.tsx:64-69 | page p of the partition is exactly what the slice for `currentPage = p` shows |
| TokenList.UpdateLiquidityData | src/components/tokens/TokenList.tsx:45-50 | the address maps to the new amount, the key set grows by at most that address, and every other key keeps its value |
| TokenList.LiquidityOf | src/components/tokens/TokenList.tsx:58-59 | a stored amount is read as is (a stored 0 and a missing entry both read 0) |
| TokenList.UpdateChangesOnlyThatAddress | src/components/tokens/TokenList.tsx:45-50 | after an update only tokens at that address read a different liquidity |
| TokenList.InsertByLiquidity | src/components/tokens/TokenList.tsx:56-62 | inserting into a descending list adds exactly that token and keeps the list descending |
| TokenList.SortByLiquidity | src/components/tokens/TokenList.tsx:56-62 | the marketcap ordering is a permutation of its input in descending liquidity |
| TokenList.DisplayTokens | src/components/tokens/TokenList.tsx:53-72 | without the full list every token is shown (untouched unless sorted by marketcap); with it, the page slice of at most itemsPerPage tokens, taken after sorting by liquidity under marketcap; under marketcap the shown tokens are descending |
| TokenList.SliceKeepsOrder | src/components/tokens/TokenList.tsx:64-69 | a page of a descending list is descending |
| TokenList.FullListPagesCoverTokens | src/components/tokens/TokenList.tsx:53-72 | over pages 1..ceil(n/perPage) the full-list grid shows every token of the (possibly re-ordered) list once, in order |
| TokenTable.TableRangeIsTokenListRange | src/components/tokens/TokenTable.tsx:151-171 | the table's copy of the page strip equals the grid's on every input |
| TokenTable.DisplayTokens | src/components/tokens/TokenTable.tsx:130-141 | the input as given, or on the full list its window of at most itemsPerPage tokens from (page−1)·itemsPerPage |
| TokenTable.NeverReorders | src/components/tokens/TokenTable.tsx:130-141 | what the table shows is always a run of consecutive input tokens in input order |
| TokenTable.RequestSort | src/components/tokens/TokenTable.tsx:143-149 | the key always becomes the clicked one; the direction is descending iff the clicked key was already sorted ascending |
| TokenTable.RequestSortTwice | src/components/tokens/TokenTable.tsx:143-149 | two clicks on a header restore the configuration iff that column was already sorted; otherwise they leave it descending |
| TokenTable.HeaderArrow | src/components/tokens/TokenTable.tsx:179-184 | a column shows an arrow iff it is the sort key, the up arrow iff ascending |
| TokenTable.ColumnKeysDistinct | src/components/tokens/TokenTable.tsx:36-102 | the five column keys are pairwise different |
| TokenTable.View | src/components/tokens/TokenTable.tsx:130-256 | an arrow on at most one header, present iff the sort key is one of the column keys; the rows a consecutive run of the input in its order, all of it without the full list; the pager shown iff there are at least two pages |
| TokenTable.SortingMovesOnlyTheArrow | src/components/tokens/TokenTable.tsx:130-184 | rows and pager are the same under every sort configuration, and at most one column carries an arrow |
| TransactionHistory.HistoryRangeIsTokenListRange | src/components/TokenDetails/TransactionHistory.tsx:27-47 | the history's copy of the page strip equals the grid's on every input |
| TransactionHistory.ToggleRow | src/components/TokenDetails/TransactionHistory.tsx:102 | a click collapses the row iff it was the expanded one, and otherwise expands exactly that row |
| TransactionHistory.ToggleRowTwice | src/components/TokenDetails/TransactionHistory.tsx:102 | two clicks on a row restore the state iff nothing or that row was open before; they always end with nothing or that row open |
| TransactionHistory.RowOf | src/components/TokenDetails/TransactionHistory.tsx:72-86 | the maker cell is the shortened sender, the hash cell the first min(8, length) characters of the hash, and the row is open iff its id is the expanded one |
| TransactionHistory.View | src/components/TokenDetails/TransactionHistory.tsx:165-220 | one row per trade in order, open exactly on the trade whose id is the expanded one, so none when nothing is open and at most one when ids are distinct; "No transactions yet" iff there are none; the pager shown iff there are at least two pages |
| TransactionHistory.AtMostOneExpanded | src/components/TokenDetails/TransactionHistory.tsx:25-102 | with distinct ids at most one row is open, and it is the row whose id was clicked last |
| TokenHolders.TotalSupply | src/components/TokenDetails/TokenHolders.tsx:31-38 | a zero supply means every counted holder has a zero balance |
| TokenHolders.CountedHolders | src/components/TokenDetails/TokenHolders.tsx:31-38 | exactly the holders whose address differs from the token's, ignoring case |
| TokenHolders.TotalSupplyIsSumOfCounted | src/components/TokenDetails/TokenHolders.tsx:31-38 | the left-to-right fold equals the sum of the balances of exactly the counted holders |
| TokenHolders.CountedBalanceAtMostSupply | src/components/TokenDetails/TokenHolders.tsx:31-38 | every counted holder's balance is part of the supply |
| TokenHolders.BasisPoints | src/components/TokenDetails/TokenHolders.tsx:46 | bp is the floor of balance·10000 / supply: bp·supply ≤ balance·10000 < (bp+1)·supply |
| TokenHolders.FormatBasisPoints | src/components/TokenDetails/TokenHolders.tsx:47 | digits, a point, exactly two digits, then "%" |
| TokenHolders.FormatBasisPointsReadsBack | src/components/TokenDetails/TokenHolders.tsx:47 | reading the whole-percent digits and the two decimals back gives the basis points |
| TokenHolders.CalculatePercentage | src/components/TokenDetails/TokenHolders.tsx:40-48 | "0%" for the token contract or a zero supply, otherwise the rendered basis points of the balance |
| TokenHolders.CountedShareAtMostWhole | src/components/TokenDetails/TokenHolders.tsx:46 | a counted holder's share is at most 10000 basis points |
| TokenHolders.SharesSumAtMostWhole | src/components/TokenDetails/TokenHolders.tsx:31-47 | the shares of all counted holders add up to at most 10000 basis points |
| TokenHolders.FilteredHolders | src/components/TokenDetails/TokenHolders.tsx:56-59 | exactly the holders that are neither the token contract nor the bonding-curve manager, ignoring case |
| TokenHolders.FilteredHoldersAppend | src/components/TokenDetails/TokenHolders.tsx:56-59 | filtering a concatenation concatenates the filtered parts, so order is kept |
| TokenHolders.BondingCurveHolder | src/components/TokenDetails/TokenHolders.tsx:51-53 | absent iff no holder is the manager; otherwise the first holder that is |
| TokenHolders.BondingCurveShare | src/components/TokenDetails/TokenHolders.tsx:51-80 | "0%" without a manager holding, otherwise that holding's percentage of the supply |
| TokenHolders.HolderCell | src/components/TokenDetails/TokenHolders.tsx:86-102 | "Creator" on an exact, case-sensitive match with the creator, else the shortened address |
| TokenHolders.HoldersPagerView | src/components/TokenDetails/TokenHolders.tsx:121-150 | shown iff there are at least two pages; lists every page 1..total; prev disabled iff on page 1, next iff on the last page |
| TokenHolders.View | src/components/TokenDetails/TokenHolders.tsx:72-150 | the bonding-curve row and one row per filtered holder in order, every share "0%" or a formatted percentage of at most 100.00%; the empty message iff `tokenHolders` is empty; the numbered pager iff there are at least two pages |
| PriceCache.RefreshPrice | src/pages/index.tsx:83-95 | the backend is asked iff the cache is missing or at least five minutes old; a fresh cache is served unchanged; a successful fetch is shown and stamped; a failed one shows nothing new and keeps the cache |
| PriceCache.CachedForFiveMinutes | src/components/TokenDetails/TokenInfo.tsx:32-61 | a price fetched at t is served without asking the backend by every refresh before t + 300000 ms, and the first at or after it asks again |
| PriceCache.FailureKeepsAsking | src/pages/index.tsx:83-95 | a failed fetch leaves the cache stale, so the next refresh asks again |
| SortOptions.OptionForLabel | src/components/ui/SortOptions.tsx:10-15 | a text maps to an option iff it is one of the four labels |
| SortOptions.LabelSelectsOption | src/components/ui/SortOptions.tsx:10-15 | every option is the image of its label |
| SortOptions.OptionHasLabel | src/components/ui/SortOptions.tsx:3-15 | every label is the label of the option it selects |
| SortOptions.LabelsSelectDistinctOptions | src/components/ui/SortOptions.tsx:10-15 | different labels select different options |
| SortOptions.Buttons | src/components/ui/SortOptions.tsx:20-32 | four buttons in key order, each calling `onSort` with its mapped option, highlighted iff that option is the current sort, which is iff its caption is the current sort's label |
| SortOptions.ExactlyOneHighlighted | src/components/ui/SortOptions.tsx:24-28 | for every current sort some button is highlighted, and every highlighted one is the current sort's label |
| HomePage.TrendingResponse | src/pages/index.tsx:147-157 | the page slice of three tokens from the full trending list, with the full count and `Math.ceil(count/3)` pages |
| HomePage.MarketcapResponse | src/pages/index.tsx:139-145 | the whole list marked `fullList`, with the same count and page total |
| HomePage.TrendingPagesCoverList | src/pages/index.tsx:147-178 | the trending pages 1..totalPages hold every token once, in order |
| HomePage.Adjust | src/pages/index.tsx:206-213 | data is `data`, else `tokens`, else empty; a zero page number or page total becomes 1; count and full-list flag pass through |
| HomePage.EmptyTrendingHasOnePage | src/pages/index.tsx:206-213 | an empty trending list reports one page, so its pager is hidden |
| HomePage.FetchTokens | src/pages/index.tsx:119-221 | a search is answered by the search call (error otherwise); trending and marketcap reuse the stored list once there is one, and otherwise take the trending feed, failing iff it is missing; new and finalized show the answered page; the "no recent" flag is set iff the new-tokens call answered null, the "no liquidity" flag iff the finalized call answered 404, each with an empty page; a failure keeps the old tokens; paging, sort, query and the new-token lists never change |
| HomePage.WithoutIds | src/pages/index.tsx:53-68 | keeps exactly the tokens whose id is not excluded |
| HomePage.ReceiveNewTokens | src/pages/index.tsx:47-75 | while shown: unseen ids are prepended to the page, the old data stays as suffix, the count grows by the number added, and the same tokens join the shown list; while hidden: unseen ids are prepended to the buffer; an empty delivery changes nothing |
| HomePage.ShownMergeAddsNoListedId | src/pages/index.tsx:51-63 | every prepended token came from the feed and has an id neither on the page nor among the shown new tokens |
| HomePage.WithoutMembers | src/pages/index.tsx:286-288 | the filter keeps a token iff it was in the data and is not the same object as a shown new token; `includes` compares references, so an equal-looking copy stays |
| HomePage.ToggleNewTokens | src/pages/index.tsx:277-311 | the click handler alone. On: buffer prepended to the data, count raised by its length, buffer moved to shown. Off: shown tokens removed from the data, count lowered by their number, shown tokens moved to the buffer. A click is this handler followed by the feed effect's re-run, as `HomePage.Step` has it |
| HomePage.ToggleOnOffRestores | src/pages/index.tsx:277-311 | on then off restores the page state exactly when no object in the buffer is also in the data (both directions); a separate copy with the same id and address does not prevent it |
| HomePage.ToggleKeepsEqualLookingCopy | src/pages/index.tsx:277-311 | a buffered token and a separate backend object with the same id and address: on then off keeps the backend object and restores the page |
| HomePage.HandleSearch | src/pages/index.tsx:232-243 | an unchanged query changes nothing; otherwise only the query changes, plus page 1 when the new query is not blank |
| HomePage.HandleSort | src/pages/index.tsx:245-270 | switching sets the sort, page 1 and an empty query, drops the trending list for new/graduated, and loads it for marketcap when missing; a failed load only sets the sort error |
| HomePage.Step | src/pages/index.tsx:47-311 | a delivery stores the batch and merges it; a toggle click flips `showNewTokens` and re-runs the feed effect on the stored batch (its dependencies include `showNewTokens`); every other event leaves the new-token lists, the stored batch and the toggle alone |
| HomePage.RunStaysConsistent | src/pages/index.tsx:47-311 | along every sequence of events, while new tokens are hidden none is marked as shown and every id of the last delivered batch is in the buffer |
| HomePage.ToggleClicksRestore | src/pages/index.tsx:47-311 | in a consistent hidden state whose buffered objects are not on the page, two clicks (each with the effect's re-run) restore the state exactly |
| HomePage.OffOnListsIdTwice | src/pages/index.tsx:47-311 | shown, with the backend's object on the page and a different object with the same id as the last batch: off then on lists that id twice and raises the count by one |
| HomePage.ReachableToggleRestores | src/pages/index.tsx:47-311 | in every reachable hidden state with no buffered object on the page, both the handler round trip and the two-click round trip with the effect's re-runs restore the state |
| CreateToken.UploadFailureText | src/pages/create.tsx:74-81 | an axios failure with a response reads "Failed to upload image: " with the route's error or the axios message; any other failure gives the generic text |
| CreateToken.HandleFileUpload | src/pages/create.tsx:47-94 | the preview is set first; an oversized file changes nothing else but the toast; otherwise the upload ends idle and not uploading, keeping a returned URL or the previous one |
| CreateToken.SizeLimitIsInclusive | src/pages/create.tsx:20-51 | a file of exactly 1048576 bytes is uploaded; one byte more is refused before any upload |
| CreateToken.HandleSubmit | src/pages/create.tsx:115-122 | without an image URL only an error toast; with one only the purchase popup opens |
| CreateToken.FailureText | src/pages/create.tsx:158-178 | non-Error: unexpected; user rejection: cancelled; no token address: chain failure; otherwise backend failure |
| CreateToken.HandlePurchaseConfirm | src/pages/create.tsx:124-180 | the popup closes and creating is set first; the backend update is called iff the chain returned an address and an image URL is set; success goes creating → updating → completed and navigates to the token; every failure ends idle with an error toast chosen as in FailureText |
| CreateToken.ButtonText | src/pages/create.tsx:182-191 | the label is "Create Token" iff the step is idle |
| CreateToken.ButtonTextDistinguishesSteps | src/pages/create.tsx:182-191 | different steps never share a label; only the creating label depends on the loading flag |
| CreateToken.EnabledButtonOpensPopup | src/pages/create.tsx:115-193 | when the button is enabled, submitting opens the purchase popup and changes nothing else |
| CreateToken.ConfirmGuardPrompts | src/pages/create.tsx:467-478 | through a confirm the "Please Wait" modal is up from the first step on, reading "created" on the creating step and "updated" on the update step, and is down on the last step |
| CreateToken.NoRunReachesError | src/pages/create.tsx:36-228 | no sequence of edits, uploads, submits, cancels and confirms reaches the 'error' step, leaves an upload running, or leaves the navigation guard up between handlers |
| UploadRoute.FirstFile | src/pages/api/upload-to-ipfs.ts:29 | a single file is itself; an array gives its first element, or none when empty |
| UploadRoute.Handle | src/pages/api/upload-to-ipfs.ts:15-100 | non-POST iff 405 "Method not allowed"; a throwing `form.parse` gives 500 "Failed to upload image to IPFS"; no file gives 400; a non-PNG gives 400 before the size check; over 1048576 bytes gives 400; for a valid file a failed read or a non-axios exception gives 500 "Failed to upload image to IPFS", a missing key or bucket 500 "Server configuration error", an axios error its status (500 without one) and body; a URL reply iff the request is valid, the server is configured and the upstream returned a cid, and then it is 200 with the gateway prefix and the first cid |
| UploadRoute.AfterValidation | src/pages/api/upload-to-ipfs.ts:50-100 | a failed file read gives 500 "Failed to upload image to IPFS"; once the file is read a missing key or bucket gives 500 "Server configuration error"; once configured an axios error gives its status (500 without one) and body, another exception 500 "Failed to upload image to IPFS", and no cid 500 "No CID found in the response" |
| UploadRoute.OnlyFirstFileCounts | src/pages/api/upload-to-ipfs.ts:29 | files after the first never change the reply |
| UploadRoute.ValidationPrecedesConfiguration | src/pages/api/upload-to-ipfs.ts:29-68 | an invalid upload gets the same 400 whatever the configuration or the storage service |
| BondingProgress.Percentage | src/components/tokens/TokenCard.tsx:58-61 | at most 100; 0 without liquidity or for a non-finite target; for a zero target 100 iff there is liquidity; for a positive target non-negative, 100 iff the liquidity reaches the target, else exactly liquidity/target·100 |
| BondingProgress.PercentageMonotone | src/components/TokenDetails/TokenInfo.tsx:86-89 | with a positive target more liquidity never shows less progress |
| BondingProgress.Round2 | src/components/tokens/TokenCard.tsx:62 | within half a hundredth of its input; below 100 iff the input is below 99.995; keeps non-negativity and the bound 100 |
| BondingProgress.Round2Idempotent | src/components/tokens/TokenCard.tsx:62 | rounding a rounded value changes nothing |
| TokenInfo.TruncateDescription | src/components/TokenDetails/TokenInfo.tsx:92-95 | unchanged when it fits; otherwise the first maxLength characters and "...", of length maxLength + 3 |
| TokenInfo.TruncateUnchangedIff | src/components/TokenDetails/TokenInfo.tsx:92-95 | the result is the input iff it fits, or is exactly three characters over and already ends in "..." |
| TokenInfo.TruncateIdempotent | src/components/TokenDetails/TokenInfo.tsx:92-95 | truncating twice with the same limit equals truncating once |
| TokenInfo.ReadsLiquidityIffNotCompleted | src/components/TokenDetails/TokenInfo.tsx:38-39 | the chain is asked for liquidity iff the token has no liquidity events |
| TokenInfo.CalculateProgress | src/components/TokenDetails/TokenInfo.tsx:83-90 | 100 when completed; never above 100; for a positive target non-negative and 100 iff the liquidity reaches the target |
| TokenInfo.Bar | src/components/TokenDetails/TokenInfo.tsx:241-251 | caption absent iff completed; a completed bar is full; otherwise width and caption agree, 0 while nothing has been read |
| TokenInfo.BarFollowsRead | src/components/TokenDetails/TokenInfo.tsx:38-251 | a completed token reads nothing and shows a full bar whatever a stale read says; an uncompleted one reads its own address |
| TokenCard.LiquidityReadAddress | src/components/tokens/TokenCard.tsx:29-30 | the card reads its own address iff the token's event count is not positive |
| TokenCard.LiquidityEffect | src/components/tokens/TokenCard.tsx:33-52 | state changes iff fetching is enabled and the reading is a nonzero amount differing from the state, and then it becomes that amount's decimal form; the callback fires iff given and the state changed, with the reading |
| TokenCard.EffectReportsOnce | src/components/tokens/TokenCard.tsx:33-52 | run again on its own result with the same reading, the effect changes nothing and reports nothing |
| TokenCard.ReportsExactlyChangedAmounts | src/components/tokens/TokenCard.tsx:33-45 | holding amount `held`, a new reading is reported iff it is nonzero and differs from `held` |
| TokenCard.Progress | src/components/tokens/TokenCard.tsx:54-63 | 100 when the event count is positive; never above 100; otherwise the rounded percentage, non-negative for a positive target |
| TokenCard.LabelShownIff | src/components/tokens/TokenCard.tsx:275 | the trading layout's `progress < 100` holds iff the token is not completed (its `_count` has no liquidity events; the layout is a separate question) and the unrounded percentage is below 99.995 |
| TokenCard.LayoutOf | src/components/tokens/TokenCard.tsx:132 | the graduated layout iff `isEnded` and the token has a non-empty liquidity-event list |
| TokenCard.View | src/components/tokens/TokenCard.tsx:26-295 | reads liquidity iff not completed; progress at most 100; the graduated layout iff ended with a non-empty event list, and then a full bar captioned "Completed" with no percentage label; the trading layout's bar is as wide as the progress and labelled iff the progress is below 100 |
| TokenCard.CompletedCardIsFull | src/components/tokens/TokenCard.tsx:54-66 | a completed card reads nothing, shows 100 on a full bar and no label, whatever its state holds |
| TokenCard.LayoutIgnoresCount | src/components/tokens/TokenCard.tsx:26-189 | the layout follows the event list, not `_count`: an ended token with events but no counted events shows the full "Completed" bar while still reading liquidity; without the list it keeps the trading layout |
| Seo.Domain | src/components/seo/SEO.tsx:21 | never empty; the environment value when it is set and non-empty |
| Seo.BuildSeo | src/components/seo/SEO.tsx:23-28 | with a token the title is "name (symbol) - Agent Pad", else the title prop or the default; description and image take the token field, then the prop, then the default, skipping empty strings; url is domain + path |
| Seo.NoTagIsEmpty | src/components/seo/SEO.tsx:21-28 | no tag is ever empty |
| Seo.TokenOverridesProps | src/components/seo/SEO.tsx:24-26 | with a token the title prop is ignored, and an empty token description and logo behave as a missing token |
| Seo.DomainPrefixesUrls | src/components/seo/SEO.tsx:21-27 | an empty domain setting behaves like a missing one, and the URL then starts with `https://flarelaunch.net` |

## Left out

- React rendering, hooks, `useEffect` wiring, `setInterval` polling, the 4-second delay and `router.push`. The handlers are pure functions of the state; the clock, environment variables and every awaited result are parameters.
- Wallet, viem/wagmi reads and contract calls in `src/utils/blockchainUtils.ts` (lines 15-317), including token creation and its receipt polling. They are network and foreign-library calls; their outcomes are inputs (`CreateToken.ChainOutcome`, the liquidity readings).
- `formatAmount`, `formatAmountV2`, `formatAmountV3` and the `formatUsdValue` functions. They rest on IEEE floats, `toFixed`, `Math.log10` and `Intl` formatting.
- The multipart parsing, the temporary-file read and the HTTP call of the upload route. They are given as `UploadRoute.Request` and `UploadRoute.Upstream`. The `originalFilename || 'unnamed_file'` name never reaches a reply, so it is not modelled.
- Navbar, the purchase popup, `all.tsx`, the token and profile pages, static pages and configuration. They are outside the logic modelled here.
- The TokenTable column formatters, which call hooks and return fixed strings.
- The social-link fields of the creation form. They are passed through to the backend without any logic.
- Malformed BigInt or number strings. Balances and liquidity are taken as already-parsed natural numbers.
- TokenList.SortByLiquidity: the comparator never returns 0, so the order of equal liquidities depends on the JavaScript engine. The model uses a stable insertion sort and claims only a permutation in descending liquidity.
- Object references: a `Token` carries an `identity` that stands for its JavaScript object. Which objects the backend and the live feed hand out is an input and is not modelled. Only `HomePage.Without` (the `includes` filter) compares identities; the other filters compare ids.
- TokenHolders.FormatBasisPoints: `(bp / 100).toFixed(2)` is stated as integer formatting of the basis points, not as floating-point rounding.
- BondingProgress.Percentage: floating-point division and `Math.round` are exact real arithmetic here, so IEEE rounding effects are not claimed.
- BondingProgress.Round2: `Math.round` is `floor(x + 0.5)` on exact reals; the float error of `x * 100` is not modelled.
- TimeFormat.ComponentsAsWritten: `new Date(timestamp)` parsing is left out; the whole-second difference is the input. An unparsable timestamp (NaN) is not modelled.
- JsStrings.ToLower: `toLowerCase` is modelled for ASCII letters only, which is enough for hexadecimal addresses.
- TokenInfo.TruncateDescription: lengths and cut positions count Unicode scalar values, not UTF-16 code units, so text outside the Basic Multilingual Plane is measured and cut elsewhere than in the browser (250 copies of U+1F680 have length 500 in JavaScript).
- JsStrings.Slice: strings are sequences of Unicode scalar values, so `length`, `slice` and `indexOf` (`JsStrings.IndexOf`) agree with JavaScript's UTF-16 code units only on text inside the Basic Multilingual Plane.
- CreateToken.NoRunReachesError: every handler runs to completion before the next starts. Overlapping uploads are not modelled. The drop zone (`src/pages/create.tsx:371`) is never disabled, so a second file can be dropped while a first one uploads. The first upload's `finally` (lines 82-85) then clears `isUploading` and sets the step to idle while the second still runs. If creation starts before the second upload ends, its `finally` sets the step to idle mid-creation and the navigation guard drops.
- PriceCache.RefreshPrice: the cache is a module-level variable shared by all mounted components; overlapping refreshes are not modelled.

Observations on the code, modelled as written:

- `TokenHolders.View` decides the "no data" message from `tokenHolders`, while the rows come from `allHolders`.
- `CreateToken.HandleFileUpload` sets the preview before the size check. A failed upload keeps the previous image URL while the preview shows the new file.
- Two overlapping uploads can reset the step to idle while a token is being created (see `CreateToken.NoRunReachesError` above); the model runs handlers one at a time and does not show this.
- No handler assigns the `'error'` step (`CreateToken.NoRunReachesError`), so its button label is never shown.
- A description of exactly maxLength + 3 characters that already ends in "..." comes back unchanged (`TokenInfo.TruncateUnchangedIff`).
- The card's label disappears from 99.995% on, because of the rounding (`TokenCard.LabelShownIff`).
- Each toggle click re-runs the feed effect on the last batch (`src/pages/index.tsx:75`). The hidden branch de-duplicates against the buffer only, so turning off then on can list a token id twice and count it twice (`HomePage.OffOnListsIdTwice`).

## Findings

| source | as written | input that shows it | evidently intended | confidence | as-written member | corrected member |
|---|---|---|---|---|---|---|
| src/utils/blockchainUtils.ts:353-354 | years divide by 365 days while months wrap after 12 × 30 = 360 days, so a difference from 360 up to 365 days counts neither a month nor a year | diffInSeconds = 31104000 (360 days) renders " ago" | years of twelve 30-day months, so every positive difference names some unit | not executed | TimeFormat.AsWrittenThreeSixtyDaysRendersAgo | TimeFormat.FixedNamesSomeUnit |
| src/utils/blockchainUtils.ts:453-455 | the slash index is taken in the string with the scheme removed but applied to the original string, and a missing slash gives index −1, which drops the last character | "https://a.io/x" gives "http"; "a.io" gives "a.i" | the host: the stripped string up to its first slash, all of it when there is none | not executed | AddressFormat.ShortenWebsiteCutsIntoScheme | AddressFormat.ShortenWebsiteFixed |
