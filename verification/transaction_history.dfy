/** The trade list of src/components/TokenDetails/TransactionHistory.tsx:
    its copy of the page strip, the single expanded row of the mobile view,
    the shortened maker and hash cells, the empty message and the pager. */
module TransactionHistory {
  import opened Common
  import opened Pagination
  import opened JsStrings
  import AddressFormat

  /** TransactionHistory's `getPaginationRange`, written out again as the file has it. */
  function HistoryPaginationRange(current: int, total: int): (r: seq<PageItem>)
    ensures |r| <= Max(5, total)
  {
    if total <= 5 then seq(Max(0, total), i => Number(i + 1))
    else if current <= 2 then [Number(1), Number(2), Number(3), Gap, Number(total)]
    else if current >= total - 1 then
      [Number(1), Gap, Number(total - 2), Number(total - 1), Number(total)]
    else [Number(1), Gap, Number(current), Gap, Number(total)]
  }

  /** The copy agrees with the TokenList one on every input. */
  lemma HistoryRangeIsTokenListRange(current: int, total: int)
    ensures HistoryPaginationRange(current, total) == PaginationRange(current, total)
  {
  }

  /** The fields of a `Transaction` the list reads. */
  datatype Transaction = Transaction(id: string, senderAddress: string, txHash: string)

  /** `expandedRow`: the id of the one expanded row, or `null`. */
  type Expanded = Option<string>

  /** A click on row `id`: `expandedRow === id ? null : id`. */
  function ToggleRow(expanded: Expanded, id: string): (r: Expanded)
    ensures r == None <==> expanded == Some(id)
    ensures r.Some? ==> r.value == id
  {
    if expanded == Some(id) then None else Some(id)
  }

  /** Clicking the same row twice restores the previous state exactly when
      nothing or that very row was expanded; when another row was open the
      second click leaves this one open. */
  lemma ToggleRowTwice(expanded: Expanded, id: string)
    ensures ToggleRow(ToggleRow(expanded, id), id) == expanded <==> expanded == None || expanded == Some(id)
    ensures ToggleRow(ToggleRow(expanded, id), id) == None || ToggleRow(ToggleRow(expanded, id), id) == Some(id)
  {
  }

  datatype Row = Row(maker: string, hashPrefix: string, isExpanded: bool)

  /** One row: `shortenAddress(senderAddress)`, `txHash.slice(0, 8)` and
      whether it is the expanded one. */
  function RowOf(tx: Transaction, expanded: Expanded): (row: Row)
    ensures row.maker == AddressFormat.ShortenAddress(tx.senderAddress)
    ensures |row.hashPrefix| == AddressFormat.Min(8, |tx.txHash|) && row.hashPrefix == tx.txHash[..|row.hashPrefix|]
    ensures row.isExpanded <==> expanded == Some(tx.id)
  {
    Row(AddressFormat.ShortenAddress(tx.senderAddress), Slice(tx.txHash, 0, 8), expanded == Some(tx.id))
  }

  datatype HistoryView = HistoryView(rows: seq<Row>, showEmptyMessage: bool, pager: Pager)

  predicate DistinctIds(transactions: seq<Transaction>)
  {
    forall i, j :: 0 <= i < j < |transactions| ==> transactions[i].id != transactions[j].id
  }

  /** The rendered list: one row per trade in order, open exactly on the
      trade whose id is `expanded` (so at most one open row when ids are
      distinct, and none when nothing was clicked open), the empty message
      iff there are no trades, and the pager iff there are two pages or more. */
  function View(transactions: seq<Transaction>, expanded: Expanded,
                transactionPage: int, totalTransactionPages: int): (v: HistoryView)
    ensures |v.rows| == |transactions|
    ensures forall i :: 0 <= i < |transactions| ==> v.rows[i] == RowOf(transactions[i], expanded)
    ensures forall i :: 0 <= i < |transactions| ==>
      (v.rows[i].isExpanded <==> expanded == Some(transactions[i].id))
    ensures expanded.None? ==> forall i :: 0 <= i < |v.rows| ==> !v.rows[i].isExpanded
    ensures DistinctIds(transactions) ==>
      forall i, j :: 0 <= i < j < |v.rows| ==> !(v.rows[i].isExpanded && v.rows[j].isExpanded)
    ensures (exists i :: 0 <= i < |v.rows| && v.rows[i].isExpanded) <==>
      expanded.Some? && exists i :: 0 <= i < |transactions| && transactions[i].id == expanded.value
    ensures v.showEmptyMessage <==> |v.rows| == 0
    ensures v.pager == PagerView(transactionPage, totalTransactionPages)
    ensures v.pager.Shown? <==> totalTransactionPages > 1
  {
    HistoryView(seq(|transactions|, i requires 0 <= i < |transactions| => RowOf(transactions[i], expanded)),
                |transactions| == 0,
                PagerView(transactionPage, totalTransactionPages))
  }

  /** With distinct transaction ids at most one row is open, and it is the
      row last clicked open. */
  lemma AtMostOneExpanded(transactions: seq<Transaction>, expanded: Expanded, page: int, total: int)
    requires DistinctIds(transactions)
    ensures forall i, j :: 0 <= i < j < |transactions| ==>
      !(View(transactions, expanded, page, total).rows[i].isExpanded &&
        View(transactions, expanded, page, total).rows[j].isExpanded)
    ensures forall i :: 0 <= i < |transactions| && View(transactions, expanded, page, total).rows[i].isExpanded ==>
      expanded == Some(transactions[i].id)
  {
  }
}
