/** Pagination shared by the token list, the token table and the
    transaction history: the windowed page-number strip
    `getPaginationRange` (as written in src/components/tokens/TokenList.tsx),
    the first/prev/next/last buttons around it, page slicing
    `slice((p - 1) * n, p * n)` and the page count `Math.ceil(count / n)`. */
module Pagination {
  import opened JsStrings

  datatype PageItem = Number(page: int) | Gap

  function Max(a: int, b: int): int { if a < b then b else a }
  function Min(a: int, b: int): int { if a < b then a else b }

  /** The page numbers of the strip, in order, are strictly increasing. */
  predicate NumbersIncreasing(items: seq<PageItem>)
  {
    forall i, j :: 0 <= i < j < |items| && items[i].Number? && items[j].Number? ==>
      items[i].page < items[j].page
  }

  /** `Array.from({ length: total }, (_, i) => i + 1)`; a negative length
      gives an empty array. */
  function AllPages(total: int): (r: seq<PageItem>)
    ensures |r| == Max(0, total)
    ensures forall i :: 0 <= i < |r| ==> r[i] == Number(i + 1)
  {
    seq(Max(0, total), i => Number(i + 1))
  }

  /** `getPaginationRange(current, total)`. */
  function PaginationRange(current: int, total: int): (r: seq<PageItem>)
    ensures total <= 5 ==> r == AllPages(total)
    ensures total > 5 ==> |r| == 5 && r[0] == Number(1) && r[4] == Number(total)
    ensures NumbersIncreasing(r)
    ensures forall i :: 0 <= i < |r| && r[i].Number? ==> 1 <= r[i].page <= total
    ensures 1 <= current <= total ==> Number(current) in r
  {
    if total <= 5 then
      var all := AllPages(total);
      assert 1 <= current <= total ==> all[current - 1] == Number(current);
      all
    else if current <= 2 then [Number(1), Number(2), Number(3), Gap, Number(total)]
    else if current >= total - 1 then
      [Number(1), Gap, Number(total - 2), Number(total - 1), Number(total)]
    else [Number(1), Gap, Number(current), Gap, Number(total)]
  }

  /** In range, exactly one number of the strip is the current page, so
      exactly one page button carries the `active` class. */
  lemma ExactlyOneActive(current: int, total: int)
    requires 1 <= current <= total
    ensures exists i ::
      (0 <= i < |PaginationRange(current, total)| && PaginationRange(current, total)[i] == Number(current))
    ensures forall i, j ::
      (0 <= i < |PaginationRange(current, total)| && 0 <= j < |PaginationRange(current, total)| &&
       PaginationRange(current, total)[i] == Number(current) &&
       PaginationRange(current, total)[j] == Number(current)) ==> i == j
  {
    var r := PaginationRange(current, total);
    assert Number(current) in r;
    forall i, j | 0 <= i < |r| && 0 <= j < |r| && r[i] == Number(current) && r[j] == Number(current)
      ensures i == j
    {
      SamePageSamePosition(r, i, j);
    }
  }

  /** In a strip whose numbers increase, a page number occurs at most once. */
  lemma SamePageSamePosition(r: seq<PageItem>, i: int, j: int)
    requires NumbersIncreasing(r)
    requires 0 <= i < |r| && 0 <= j < |r| && r[i].Number? && r[i] == r[j]
    ensures i == j
  {
  }

  datatype Button = Button(target: int, disabled: bool)

  /** The pager under a list: hidden unless there are at least two pages. */
  datatype Pager =
    | Hidden
    | Shown(first: Button, prev: Button, items: seq<PageItem>, next: Button, last: Button)

  function PagerView(current: int, total: int): (p: Pager)
    ensures p.Shown? <==> total > 1
    ensures p.Shown? ==> (p.first.disabled <==> current == 1) && (p.prev.disabled <==> current == 1)
    ensures p.Shown? ==> (p.next.disabled <==> current == total) && (p.last.disabled <==> current == total)
  {
    if total > 1 then
      Shown(Button(1, current == 1), Button(current - 1, current == 1),
            PaginationRange(current, total),
            Button(current + 1, current == total), Button(total, current == total))
    else Hidden
  }

  /** Every page an enabled control of the pager leads to exists. */
  predicate Navigable(p: Pager, total: int)
  {
    p.Shown? ==>
      && (forall b :: b in [p.first, p.prev, p.next, p.last] && !b.disabled ==> 1 <= b.target <= total)
      && (forall i :: 0 <= i < |p.items| && p.items[i].Number? ==> 1 <= p.items[i].page <= total)
  }

  /** From any page in range, no control of the pager leaves the range. */
  lemma PagerStaysInRange(current: int, total: int)
    requires 1 <= current <= total
    ensures Navigable(PagerView(current, total), total)
  {
  }

  // ---- page slicing and page count ----

  /** `(page - 1) * perPage`, where a page's items begin. */
  function PageStart(page: int, perPage: int): (r: int)
    ensures page >= 1 && perPage >= 0 ==> r >= 0
  {
    (page - 1) * perPage
  }

  lemma PageStartStep(page: int, perPage: int)
    ensures PageStart(page + 1, perPage) == PageStart(page, perPage) + perPage
  {
  }

  /** `list.slice((page - 1) * perPage, (page - 1) * perPage + perPage)`:
      for a page number of at least 1 this is the window of `perPage`
      items from PageStart, cut off at the end of the list. */
  function PageSlice<T>(xs: seq<T>, page: int, perPage: int): (r: seq<T>)
    ensures page >= 1 && perPage >= 0 ==>
      && |r| <= perPage
      && r == xs[Min(PageStart(page, perPage), |xs|)..Min(PageStart(page, perPage) + perPage, |xs|)]
  {
    var start := PageStart(page, perPage);
    Slice(xs, start, start + perPage)
  }

  /** `Math.ceil(count / perPage)`. */
  function PageCount(count: nat, perPage: nat): (r: nat)
    requires perPage > 0
    ensures (r - 1) * perPage < count <= r * perPage || (count == 0 && r == 0)
    ensures r == 0 <==> count == 0
  {
    (count + perPage - 1) / perPage
  }

  /** The pages 1..PageCount, read in order, are the whole list: every item
      is on exactly one page, and in its original position. */
  function Pages<T>(xs: seq<T>, perPage: nat): (ps: seq<seq<T>>)
    requires perPage > 0
    decreases |xs|
  {
    if |xs| == 0 then []
    else [xs[..Min(perPage, |xs|)]] + Pages(xs[Min(perPage, |xs|)..], perPage)
  }

  function Flatten<T>(pss: seq<seq<T>>): seq<T>
  {
    if |pss| == 0 then [] else pss[0] + Flatten(pss[1..])
  }

  lemma {:induction false} PagesPartitionList<T>(xs: seq<T>, perPage: nat)
    requires perPage > 0
    ensures Flatten(Pages(xs, perPage)) == xs
    decreases |xs|
  {
    if |xs| > 0 {
      var k := Min(perPage, |xs|);
      PagesPartitionList(xs[k..], perPage);
      assert xs == xs[..k] + xs[k..];
    }
  }

  lemma {:induction false} PagesCount<T>(xs: seq<T>, perPage: nat)
    requires perPage > 0
    ensures |Pages(xs, perPage)| == PageCount(|xs|, perPage)
    decreases |xs|
  {
    var r := PageCount(|xs|, perPage);
    if |xs| > perPage {
      var rest := xs[perPage..];
      PagesCount(rest, perPage);
      var q := PageCount(|rest|, perPage);
      assert |Pages(xs, perPage)| == q + 1;
      MulSucc(q - 1, perPage);
      MulSucc(q, perPage);
      CeilUnique(|xs|, perPage, r, q + 1);
    } else if |xs| > 0 {
      assert |Pages(xs, perPage)| == 1;
      CeilUnique(|xs|, perPage, r, 1);
    }
  }

  lemma MulSucc(q: int, n: int)
    ensures (q + 1) * n == q * n + n
  {
  }

  /** `Math.ceil(count / perPage)` is the only page count whose last page
      holds the last item. */
  lemma CeilUnique(count: nat, perPage: nat, r: int, s: int)
    requires perPage > 0
    requires (r - 1) * perPage < count <= r * perPage
    requires (s - 1) * perPage < count <= s * perPage
    ensures r == s
  {
    if r < s {
      MulMonotone(r, s - 1, perPage);
    } else if s < r {
      MulMonotone(s, r - 1, perPage);
    }
  }

  lemma MulMonotone(a: int, b: int, n: nat)
    requires a <= b
    ensures a * n <= b * n
  {
  }

  /** Page `p` of Pages is what the component shows for `currentPage == p`. */
  lemma {:induction false} PagesAreSlices<T>(xs: seq<T>, perPage: nat, p: int)
    requires perPage > 0
    requires 1 <= p <= |Pages(xs, perPage)|
    ensures Pages(xs, perPage)[p - 1] == PageSlice(xs, p, perPage)
    decreases |xs|
  {
    var k := Min(perPage, |xs|);
    var rest := xs[k..];
    if p > 1 {
      assert Pages(xs, perPage)[p - 1] == Pages(rest, perPage)[p - 2];
      PagesAreSlices(rest, perPage, p - 1);
      SliceOfSuffix(xs, perPage, p);
    } else {
      assert PageStart(1, perPage) == 0;
    }
  }

  /** Page `p` of the list is page `p - 1` of the list without its first page. */
  lemma SliceOfSuffix<T>(xs: seq<T>, perPage: nat, p: int)
    requires perPage > 0 && p > 1 && |xs| > perPage
    ensures PageSlice(xs[perPage..], p - 1, perPage) == PageSlice(xs, p, perPage)
  {
    var rest := xs[perPage..];
    var s := PageStart(p, perPage);
    PageStartStep(p - 1, perPage);
    assert PageStart(p - 1, perPage) == s - perPage;
    var a, b := Min(s - perPage, |rest|), Min(s, |rest|);
    assert perPage + a == Min(s, |xs|);
    assert perPage + b == Min(s + perPage, |xs|);
    assert rest[a..b] == xs[perPage + a..perPage + b];
  }
}
