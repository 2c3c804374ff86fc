/**
 * The two pieces of logic on the leads index page: the list of page links shown
 * under the table, and the direction a click on a column header asks for.
 *
 * A rendered pagination entry is reduced to what distinguishes it: a link to page
 * `n`, highlighted when it is the current page, or an ellipsis.
 */
module LeadsIndexPage {

  datatype Item = Page(n: int, active: bool) | Ellipsis

  /** Up to this many pages every page gets a link. */
  const MaxVisible := 5

  function Max(a: int, b: int): int { if a < b then b else a }
  function Min(a: int, b: int): int { if a < b then a else b }

  /** The links for pages `lo..hi`, in order, the one equal to `cur` highlighted. */
  function Links(lo: int, hi: int, cur: int): (r: seq<Item>)
    ensures |r| == if lo <= hi then hi - lo + 1 else 0
    decreases hi - lo
  {
    if lo > hi then [] else Links(lo, hi - 1, cur) + [Page(hi, hi == cur)]
  }

  /** The `i`-th link is for page `lo + i`. */
  lemma {:induction false} LinksAt(lo: int, hi: int, cur: int)
    ensures forall i :: 0 <= i < |Links(lo, hi, cur)| ==> Links(lo, hi, cur)[i] == Page(lo + i, lo + i == cur)
    decreases hi - lo
  {
    if lo <= hi {
      LinksAt(lo, hi - 1, cur);
    }
  }

  function OptionalEllipsis(show: bool): seq<Item> {
    if show then [Ellipsis] else []
  }

  /**
   * The entries the page renders for current page `cur` of `last`: every page when
   * there are at most five; otherwise the first page, an ellipsis when `cur` is past
   * 3, the pages next to `cur` strictly between the first and the last, an ellipsis
   * when `cur` is more than two before the end, and the last page.
   */
  function PaginationItems(cur: int, last: int): seq<Item> {
    if last <= MaxVisible then Links(1, last, cur)
    else
      [Page(1, cur == 1)] + OptionalEllipsis(cur > 3)
      + Links(Max(2, cur - 1), Min(last - 1, cur + 1), cur)
      + OptionalEllipsis(cur < last - 2) + [Page(last, last == cur)]
  }

  /** The entries are pushed in the order the page builds them. */
  method RenderPaginationItems(cur: int, last: int) returns (items: seq<Item>)
    ensures items == PaginationItems(cur, last)
  {
    items := [];
    if last <= MaxVisible {
      items := PushLinks(items, 1, last, cur);
    } else {
      items := items + [Page(1, 1 == cur)];
      if cur > 3 {
        items := items + [Ellipsis];
      }
      var start := Max(2, cur - 1);
      var end := Min(last - 1, cur + 1);
      items := PushLinks(items, start, end, cur);
      if cur < last - 2 {
        items := items + [Ellipsis];
      }
      items := items + [Page(last, last == cur)];
    }
  }

  /** The loop pushing one link per page of `lo..hi`. */
  method PushLinks(items: seq<Item>, lo: int, hi: int, cur: int) returns (r: seq<Item>)
    ensures r == items + Links(lo, hi, cur)
  {
    r := items;
    var i := lo;
    while i <= hi
      invariant lo <= i <= Max(lo, hi + 1)
      invariant r == items + Links(lo, i - 1, cur)
    {
      r := r + [Page(i, i == cur)];
      i := i + 1;
    }
    assert i - 1 == hi || hi < lo;
  }

  /** Page `p` has a link among `items`. */
  predicate Shown(items: seq<Item>, p: int) {
    exists i :: 0 <= i < |items| && items[i].Page? && items[i].n == p
  }

  /** The links are in increasing page order and all name pages `1..last`. */
  predicate Ordered(items: seq<Item>, last: int) {
    (forall i :: 0 <= i < |items| && items[i].Page? ==> 1 <= items[i].n <= last) &&
    (forall i, j :: 0 <= i < j < |items| && items[i].Page? && items[j].Page? ==> items[i].n < items[j].n)
  }

  /**
   * No page goes missing silently: two adjacent links name adjacent pages, and an
   * ellipsis always sits between two links and stands for at least one page.
   */
  predicate Gapless(items: seq<Item>) {
    forall i :: 0 <= i < |items| ==>
      if items[i].Page? then
        (i + 1 < |items| && items[i + 1].Page? ==> items[i + 1].n == items[i].n + 1)
      else
        0 < i < |items| - 1 && items[i - 1].Page? && items[i + 1].Page? &&
        items[i + 1].n >= items[i - 1].n + 2
  }

  /** Exactly the link for page `cur` is highlighted. */
  predicate HighlightsCurrent(items: seq<Item>, cur: int) {
    forall i :: 0 <= i < |items| && items[i].Page? ==> (items[i].active <==> items[i].n == cur)
  }

  /** With at most five pages, every page from 1 to `last` is linked, in order, and nothing else. */
  lemma SmallShowsAll(cur: int, last: int)
    requires last <= MaxVisible
    ensures var items := PaginationItems(cur, last);
      |items| == Max(0, last) && forall i :: 0 <= i < |items| ==> items[i] == Page(i + 1, i + 1 == cur)
  {
    LinksAt(1, last, cur);
  }

  /** With more than five pages, the first and the last page are always linked, at the ends. */
  lemma LargeShowsEnds(cur: int, last: int)
    requires last > MaxVisible
    ensures var items := PaginationItems(cur, last);
      3 <= |items| <= 7 && items[0] == Page(1, cur == 1) && items[|items| - 1] == Page(last, last == cur)
  {
  }

  /**
   * Where each entry sits when there are more than five pages: page 1, an optional
   * ellipsis, the `m` links from `lo`, an optional ellipsis, the last page.
   */
  lemma LargeLayout(cur: int, last: int) returns (h: nat, lo: int, m: nat)
    requires last > MaxVisible
    ensures var items := PaginationItems(cur, last);
      h == (if cur > 3 then 2 else 1) && lo == Max(2, cur - 1) &&
      (m > 0 ==> lo + m - 1 == Min(last - 1, cur + 1)) &&
      |items| == h + m + (if cur < last - 2 then 2 else 1) &&
      items[0] == Page(1, cur == 1) && (h == 2 ==> items[1] == Ellipsis) &&
      (forall i :: h <= i < h + m ==> items[i] == Page(lo + i - h, lo + i - h == cur)) &&
      (cur < last - 2 ==> items[h + m] == Ellipsis) &&
      items[|items| - 1] == Page(last, last == cur)
  {
    h := if cur > 3 then 2 else 1;
    lo := Max(2, cur - 1);
    var hi := Min(last - 1, cur + 1);
    var a := [Page(1, cur == 1)] + OptionalEllipsis(cur > 3);
    var mid := Links(lo, hi, cur);
    var b := OptionalEllipsis(cur < last - 2) + [Page(last, last == cur)];
    m := |mid|;
    LinksAt(lo, hi, cur);
    var items := a + mid + b;
    assert items == PaginationItems(cur, last);
    forall i | h <= i < h + m
      ensures items[i] == Page(lo + i - h, lo + i - h == cur)
    {
      assert items[i] == mid[i - h];
    }
  }

  /** The links are in increasing order and within `1..last`, for any current page. */
  lemma PaginationOrdered(cur: int, last: int)
    ensures Ordered(PaginationItems(cur, last), last)
  {
    if last > MaxVisible {
      var items := PaginationItems(cur, last);
      var h, lo, m := LargeLayout(cur, last);
      assert forall i :: 0 <= i < |items| && items[i].Page? ==>
        (i == 0 && items[i].n == 1) || (h <= i < h + m && items[i].n == lo + i - h) ||
        (i == |items| - 1 && items[i].n == last);
    } else {
      LinksAt(1, last, cur);
    }
  }

  /** Adjacent links name adjacent pages, and every ellipsis hides at least one page. */
  lemma PaginationGapless(cur: int, last: int)
    ensures Gapless(PaginationItems(cur, last))
  {
    if last > MaxVisible {
      var items := PaginationItems(cur, last);
      var h, lo, m := LargeLayout(cur, last);
      assert forall i :: 0 <= i < |items| && items[i].Ellipsis? ==> (h == 2 && i == 1) || (cur < last - 2 && i == h + m);
    } else {
      LinksAt(1, last, cur);
    }
  }

  /** The highlighted link is the one for the current page. */
  lemma PaginationHighlightsCurrent(cur: int, last: int)
    ensures HighlightsCurrent(PaginationItems(cur, last), cur)
  {
    if last > MaxVisible {
      var h, lo, m := LargeLayout(cur, last);
    } else {
      LinksAt(1, last, cur);
    }
  }

  /**
   * The pages with a link: all of `1..last` when there are at most five, otherwise the
   * first, the last, and the current page with its two neighbours.
   */
  lemma ShownPages(cur: int, last: int, p: int)
    ensures Shown(PaginationItems(cur, last), p) <==>
      1 <= p <= last && (last <= MaxVisible || p == 1 || p == last || cur - 1 <= p <= cur + 1)
  {
    var items := PaginationItems(cur, last);
    if last <= MaxVisible {
      LinksAt(1, last, cur);
      if 1 <= p <= last {
        assert items[p - 1] == Page(p, p == cur);
      }
    } else {
      var h, lo, m := LargeLayout(cur, last);
      if p == 1 {
        assert items[0] == Page(1, cur == 1);
      } else if p == last {
        assert items[|items| - 1] == Page(last, last == cur);
      } else if 1 <= p <= last && cur - 1 <= p <= cur + 1 {
        assert items[h + p - lo].n == p;
      }
    }
  }

  /** Some link is highlighted exactly when the current page is one of the pages. */
  lemma CurrentShown(cur: int, last: int)
    ensures (exists i :: 0 <= i < |PaginationItems(cur, last)| && PaginationItems(cur, last)[i] == Page(cur, true))
      <==> 1 <= cur <= last
  {
    var items := PaginationItems(cur, last);
    ShownPages(cur, last, cur);
    PaginationHighlightsCurrent(cur, last);
    if 1 <= cur <= last {
      var i :| 0 <= i < |items| && items[i].Page? && items[i].n == cur;
      assert items[i] == Page(cur, true);
    }
  }

  /** The sort state the page sends: a column and a direction. */
  datatype Sort = Sort(sort_by: string, sort_direction: string)

  /**
   * A click on column `column`: the same column sorted ascending turns descending;
   * anything else (another column, or the same column in any other direction) sorts
   * `column` ascending.
   */
  function HandleSort(f: Sort, column: string): (r: Sort)
    ensures r.sort_by == column
    ensures r.sort_direction == "desc" <==> f.sort_by == column && f.sort_direction == "asc"
    ensures r.sort_direction == "asc" || r.sort_direction == "desc"
  {
    Sort(column, if f.sort_by == column && f.sort_direction == "asc" then "desc" else "asc")
  }

  /** Clicking the same header again always flips the direction. */
  lemma SortToggles(f: Sort, column: string)
    ensures HandleSort(HandleSort(f, column), column).sort_direction != HandleSort(f, column).sort_direction
  {
  }

  /** From the first click on a column, the states repeat with period two. */
  lemma SortPeriodTwo(f: Sort, column: string)
    ensures HandleSort(HandleSort(HandleSort(f, column), column), column) == HandleSort(f, column)
  {
  }
}
