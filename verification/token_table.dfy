/** The table view of src/components/tokens/TokenTable.tsx: its own copy of
    the page strip, the unsorted page slice, and the header sort toggle that
    only moves an arrow. */
module TokenTable {
  import opened Common
  import opened Pagination

  /** TokenTable's `getPaginationRange`, written out again as the file has it. */
  function TablePaginationRange(current: int, total: int): (r: seq<PageItem>)
    ensures |r| <= Max(5, total)
  {
    if total <= 5 then seq(Max(0, total), i => Number(i + 1))
    else if current <= 2 then [Number(1), Number(2), Number(3), Gap, Number(total)]
    else if current >= total - 1 then
      [Number(1), Gap, Number(total - 2), Number(total - 1), Number(total)]
    else [Number(1), Gap, Number(current), Gap, Number(total)]
  }

  /** The copy agrees with the TokenList one on every input. */
  lemma TableRangeIsTokenListRange(current: int, total: int)
    ensures TablePaginationRange(current, total) == PaginationRange(current, total)
  {
  }

  /** `displayTokens`: the input as given, or its page slice on the full list. */
  function DisplayTokens(tokens: seq<Token>, currentPage: int, itemsPerPage: int, isFullList: bool): (r: seq<Token>)
    ensures !isFullList ==> r == tokens
    ensures isFullList && currentPage >= 1 && itemsPerPage >= 0 ==>
      && |r| <= itemsPerPage
      && r == tokens[Min(PageStart(currentPage, itemsPerPage), |tokens|)..
                     Min(PageStart(currentPage, itemsPerPage) + itemsPerPage, |tokens|)]
  {
    if isFullList then PageSlice(tokens, currentPage, itemsPerPage) else tokens
  }

  /** The table never reorders: what it shows is a run of consecutive
      tokens of its input, in their order. */
  lemma NeverReorders(tokens: seq<Token>, currentPage: int, itemsPerPage: int, isFullList: bool)
    ensures exists a, b ::
      (0 <= a <= b <= |tokens| && DisplayTokens(tokens, currentPage, itemsPerPage, isFullList) == tokens[a..b])
  {
    var r := DisplayTokens(tokens, currentPage, itemsPerPage, isFullList);
    if !isFullList {
      assert r == tokens[0..|tokens|];
    } else {
      var s := PageStart(currentPage, itemsPerPage);
      var a, b := JsStrings.ResolveIndex(s, |tokens|), JsStrings.ResolveIndex(s + itemsPerPage, |tokens|);
      if a < b {
        assert r == tokens[a..b];
      } else {
        assert r == tokens[a..a];
      }
    }
  }

  // ---- header sorting ----

  datatype Direction = Ascending | Descending

  /** `sortConfig`: the clicked column key (`null` before any click) and a direction. */
  datatype SortConfig = SortConfig(key: Option<string>, direction: Direction)

  const InitialSortConfig := SortConfig(None, Ascending)

  /** `requestSort(key)`: descending only when `key` is already the
      ascending sort key, ascending otherwise. */
  function RequestSort(config: SortConfig, key: string): (r: SortConfig)
    ensures r.key == Some(key)
    ensures r.direction == Descending <==> config == SortConfig(Some(key), Ascending)
  {
    var direction :=
      if config.key == Some(key) && config.direction == Ascending then Descending else Ascending;
    SortConfig(Some(key), direction)
  }

  /** Two clicks on the same header give back the starting configuration
      exactly when that column was already the sorted one (in either
      direction); from any other column they end on it descending. */
  lemma RequestSortTwice(config: SortConfig, key: string)
    ensures RequestSort(RequestSort(config, key), key) == config <==> config.key == Some(key)
    ensures config.key != Some(key) ==>
      RequestSort(RequestSort(config, key), key) == SortConfig(Some(key), Descending)
  {
  }

  /** The column keys of `tableInfo`. */
  const ColumnKeys: seq<string> := ["name", "marketcap", "price", "createdAt", "creatorAddress"]

  /** The text after a header label: an up or down triangle on the sorted column. */
  function HeaderArrow(config: SortConfig, columnKey: string): (arrow: string)
    ensures arrow != "" <==> config.key == Some(columnKey)
    ensures arrow == " \U{25B2}" <==> config.key == Some(columnKey) && config.direction == Ascending
  {
    if config.key == Some(columnKey) then
      (if config.direction == Ascending then " \U{25B2}" else " \U{25BC}")
    else ""
  }

  lemma ColumnKeysDistinct()
    ensures forall i, j :: 0 <= i < j < |ColumnKeys| ==> ColumnKeys[i] != ColumnKeys[j]
  {
  }

  datatype TableView = TableView(arrows: seq<string>, rows: seq<Token>, pager: Pager)

  /** The rendered table: an arrow on at most one header, the one whose key
      was clicked last; the rows, a consecutive run of the input in its
      order; and the pager, shown iff there are at least two pages. */
  function View(tokens: seq<Token>, config: SortConfig, currentPage: int, totalPages: int,
                itemsPerPage: int, isFullList: bool): (v: TableView)
    ensures |v.arrows| == |ColumnKeys|
    ensures forall i :: 0 <= i < |ColumnKeys| ==> v.arrows[i] == HeaderArrow(config, ColumnKeys[i])
    ensures forall i, j :: 0 <= i < j < |v.arrows| ==> v.arrows[i] == "" || v.arrows[j] == ""
    ensures (exists i :: 0 <= i < |v.arrows| && v.arrows[i] != "") <==>
      config.key.Some? && config.key.value in ColumnKeys
    ensures v.rows == DisplayTokens(tokens, currentPage, itemsPerPage, isFullList)
    ensures !isFullList ==> v.rows == tokens
    ensures exists a, b :: 0 <= a <= b <= |tokens| && v.rows == tokens[a..b]
    ensures v.pager == PagerView(currentPage, totalPages)
    ensures v.pager.Shown? <==> totalPages > 1
  {
    ColumnKeysDistinct();
    NeverReorders(tokens, currentPage, itemsPerPage, isFullList);
    TableView(seq(|ColumnKeys|, i requires 0 <= i < |ColumnKeys| => HeaderArrow(config, ColumnKeys[i])),
              DisplayTokens(tokens, currentPage, itemsPerPage, isFullList),
              PagerView(currentPage, totalPages))
  }

  /** Clicking a header changes nothing but the arrows: rows and pager are
      the same under any sort configuration, and at most one column (the
      clicked one) carries an arrow. */
  lemma SortingMovesOnlyTheArrow(tokens: seq<Token>, c1: SortConfig, c2: SortConfig, currentPage: int,
                                 totalPages: int, itemsPerPage: int, isFullList: bool)
    ensures View(tokens, c1, currentPage, totalPages, itemsPerPage, isFullList).rows
         == View(tokens, c2, currentPage, totalPages, itemsPerPage, isFullList).rows
    ensures View(tokens, c1, currentPage, totalPages, itemsPerPage, isFullList).pager
         == View(tokens, c2, currentPage, totalPages, itemsPerPage, isFullList).pager
    ensures forall i, j :: 0 <= i < j < |ColumnKeys| ==>
      View(tokens, c1, currentPage, totalPages, itemsPerPage, isFullList).arrows[i] == "" ||
      View(tokens, c1, currentPage, totalPages, itemsPerPage, isFullList).arrows[j] == ""
  {
    ColumnKeysDistinct();
  }
}
