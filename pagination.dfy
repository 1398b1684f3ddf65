/**
 * The paging of the shortcut grid: how many shortcuts a page holds, how
 * many pages there are, and how the current page moves with the page
 * buttons and the mouse wheel. The three page globals of the new-tab page
 * are the fields of a `Pager`.
 */
module Pagination {
  import opened Wrappers

  /** `totalPages`: a whole number of pages, or NaN (zero shortcuts make `0 / 0`). */
  datatype PageCount = Pages(count: int) | NotANumber

  function Min(a: int, b: int): int {
    if a <= b then a else b
  }

  function Max(a: int, b: int): int {
    if a >= b then a else b
  }

  /** `parseInt(setting) || fallback`: an unreadable or zero setting gives the fallback. */
  function SettingOr(parsed: Option<int>, fallback: int): (v: int)
    requires fallback != 0
    ensures v != 0
    ensures parsed.Some? && parsed.value != 0 ==> v == parsed.value
    ensures parsed.None? || parsed.value == 0 ==> v == fallback
  {
    match parsed
    case Some(v) => if v == 0 then fallback else v
    case None => fallback
  }

  const DefaultRows: int := 3
  const DefaultColumns: int := 6

  /** `Math.ceil(a / b)` on integers: the least integer `q` with `q >= a / b`. */
  function CeilDiv(a: int, b: int): (q: int)
    requires b != 0
    ensures b > 0 ==> (q - 1) * b < a <= q * b
    ensures b < 0 ==> q * b <= a < (q - 1) * b
  {
    if b > 0 then
      var k := (-a) / b;
      assert -a == k * b + (-a) % b;
      -k
    else
      var d := -b;
      var k := a / d;
      assert a == k * d + a % d;
      assert -k * b == k * d;
      -k
  }

  /**
   * `itemsPerPage`: as many rows as the user set, but no more than the rows
   * the first page needs, times the columns.
   */
  function ItemsPerPage(n: nat, rows: int, columns: int): int
    requires rows != 0 && columns != 0
  {
    Min(rows, CeilDiv(Min(n, rows * columns), columns)) * columns
  }

  /** A page holds no items only when there are no shortcuts and both settings are positive. */
  lemma ItemsPerPageZero(n: nat, rows: int, columns: int)
    requires rows != 0 && columns != 0
    ensures ItemsPerPage(n, rows, columns) == 0 <==> n == 0 && rows > 0 && columns > 0
  {
    var first := Min(n, rows * columns);
    var needed := CeilDiv(first, columns);
    var m := Min(rows, needed);
    ProductZero(m, columns);
    if rows > 0 && columns < 0 {
      ProductNegative(rows, columns);
      CeilDivExact(rows, columns);
    } else if rows > 0 {
      MulPositiveBoth(rows, columns);
      CeilDivZero(first, columns);
    }
  }

  lemma ProductZero(a: int, b: int)
    requires b != 0
    ensures a * b == 0 <==> a == 0
  {
    if a != 0 {
      if a > 0 && b > 0 { MulPositiveBoth(a, b); }
      else if a > 0 { MulPositiveBoth(a, -b); }
      else if b > 0 { MulPositiveBoth(-a, b); }
      else { MulPositiveBoth(-a, -b); }
    }
  }

  lemma MulPositiveBoth(a: int, b: int)
    requires a > 0 && b > 0
    ensures a * b > 0
  {
  }

  lemma ProductNegative(a: int, b: int)
    requires a > 0 && b < 0
    ensures a * b < 0
  {
    MulPositiveBoth(a, -b);
  }

  /** Rounding up a whole multiple gives the multiplier back. */
  lemma CeilDivExact(q: int, b: int)
    requires b != 0
    ensures CeilDiv(q * b, b) == q
  {
    var r := CeilDiv(q * b, b);
    if b > 0 {
      PinnedAbove(r, q, b);
    } else {
      var d := -b;
      assert (-r) * d == r * b && (-q) * d == q * b && (1 - r) * d == (r - 1) * b;
      PinnedBelow(-r, -q, d);
    }
  }

  /** `(r - 1) * b < q * b <= r * b` with `b > 0` pins `r` to `q`. */
  lemma PinnedAbove(r: int, q: int, b: int)
    requires b > 0 && (r - 1) * b < q * b <= r * b
    ensures r == q
  {
    MulCancel(r - 1, q, b);
    if q < r {
      MulMonotone(q, r - 1, b);
    }
  }

  /** `x * d <= y * d < (x + 1) * d` with `d > 0` pins `y` to `x`. */
  lemma PinnedBelow(x: int, y: int, d: int)
    requires d > 0 && x * d <= y * d < (x + 1) * d
    ensures x == y
  {
    MulCancel(y, x + 1, d);
    if x < y {
      MulMonotone(x + 1, y, d);
    }
  }

  /** With positive columns, no item at all is exactly what needs no row. */
  lemma CeilDivZero(a: int, b: int)
    requires a >= 0 && b > 0
    ensures CeilDiv(a, b) == 0 <==> a == 0
  {
    var q := CeilDiv(a, b);
    assert (q - 1) * b < a <= q * b;
    if q <= 0 {
      MulMonotone(q, 0, b);
    } else if q >= 2 {
      MulMonotone(1, q - 1, b);
    } else {
      assert q * b == b;
    }
  }

  /** The items per page and the page count for `n` shortcuts. */
  function Layout(n: nat, rows: int, columns: int): (PageCount, int)
    requires rows != 0 && columns != 0
  {
    var perPage := ItemsPerPage(n, rows, columns);
    ItemsPerPageZero(n, rows, columns);
    if perPage == 0 then (NotANumber, 0) else (Pages(CeilDiv(n, perPage)), perPage)
  }

  /**
   * With positive settings and at least one shortcut, a page holds a whole
   * number of rows, at most the rows set, and the first page has no empty
   * row: the rows are exactly the ones its items need.
   */
  lemma ItemsPerPageFillsRows(n: nat, rows: int, columns: int)
    requires n >= 1 && rows >= 1 && columns >= 1
    ensures var perPage := ItemsPerPage(n, rows, columns);
      perPage % columns == 0 && columns <= perPage <= rows * columns &&
      perPage - columns < Min(n, rows * columns) <= perPage
  {
    MulMonotone(1, rows, columns);
    var first := Min(n, rows * columns);
    var needed := CeilDiv(first, columns);
    assert (needed - 1) * columns < first <= needed * columns;
    MulCancel(needed - 1, rows, columns);
    MulPositive(needed, columns);
    assert ItemsPerPage(n, rows, columns) == needed * columns;
    MulMod(needed, columns);
    MulMonotone(1, needed, columns);
    MulMonotone(needed, rows, columns);
  }

  lemma MulMonotone(a: int, b: int, c: int)
    requires a <= b && c >= 0
    ensures a * c <= b * c
  {
    assert b * c - a * c == (b - a) * c;
  }

  lemma MulCancel(a: int, b: int, c: int)
    requires c > 0 && a * c < b * c
    ensures a < b
  {
    if a >= b {
      MulMonotone(b, a, c);
    }
  }

  lemma MulPositive(a: int, c: int)
    requires c > 0 && a * c > 0
    ensures a > 0
  {
    if a <= 0 {
      MulMonotone(a, 0, c);
    }
  }

  lemma MulMod(a: int, c: int)
    requires c > 0
    ensures (a * c) % c == 0
  {
    var q := (a * c) / c;
    var r := (a * c) % c;
    assert a * c == q * c + r;
    assert (a - q) * c == r;
    if a - q >= 1 {
      MulMonotone(1, a - q, c);
    } else if a - q <= -1 {
      MulMonotone(a - q, -1, c);
    }
  }

  /**
   * With positive settings and at least one shortcut, there is at least one
   * page, and the pages hold every shortcut with the last one not empty.
   */
  lemma PagesCoverShortcuts(n: nat, rows: int, columns: int)
    requires n >= 1 && rows >= 1 && columns >= 1
    ensures Layout(n, rows, columns).0.Pages?
    ensures var (total, perPage) := Layout(n, rows, columns);
      total.count >= 1 && (total.count - 1) * perPage < n <= total.count * perPage
  {
    ItemsPerPageFillsRows(n, rows, columns);
    var perPage := ItemsPerPage(n, rows, columns);
    var total := CeilDiv(n, perPage);
    assert (total - 1) * perPage < n <= total * perPage;
    MulPositive(total, perPage);
  }

  /** `currentPage > totalPages` is false against NaN. */
  predicate Beyond(page: int, total: PageCount) {
    total.Pages? && page > total.count
  }

  /** `changePage(page)` leaves the page as it is when `page < 1 || page > totalPages`. */
  predicate Accepts(total: PageCount, page: int) {
    !(page < 1 || Beyond(page, total))
  }

  /** On a whole number of pages, `changePage` takes exactly the pages from 1 to the count. */
  lemma AcceptsWithinBounds(count: int, page: int)
    ensures Accepts(Pages(count), page) <==> 1 <= page <= count
    ensures Accepts(NotANumber, page) <==> page >= 1
  {
  }

  /** Vertical scrolling turns pages too, when it is the larger movement. */
  function Direction(dx: int, dy: int): int {
    if (if dx < 0 then -dx else dx) < (if dy < 0 then -dy else dy) then dy else dx
  }

  class Pager {
    var currentPage: int
    var totalPages: PageCount
    var itemsPerPage: int

    /** The current page is at least 1 and, on a whole number of pages, at most their count (or 1). */
    predicate Valid()
      reads this
    {
      currentPage >= 1 && (totalPages.Pages? ==> currentPage <= Max(1, totalPages.count))
    }

    /** The globals as the page declares them. */
    constructor ()
      ensures Valid()
      ensures currentPage == 1 && totalPages == Pages(1) && itemsPerPage == 0
    {
      currentPage := 1;
      totalPages := Pages(1);
      itemsPerPage := 0;
    }

    /**
     * The page arithmetic of `renderShortcuts` for `n` shortcuts and the
     * parsed row and column settings; a current page beyond the last moves
     * to the last (or to 1).
     */
    method Render(n: nat, rowsSetting: Option<int>, columnsSetting: Option<int>)
      requires Valid()
      modifies this
      ensures Valid()
      ensures var rows := SettingOr(rowsSetting, DefaultRows);
        var columns := SettingOr(columnsSetting, DefaultColumns);
        (totalPages, itemsPerPage) == Layout(n, rows, columns)
      ensures currentPage == if Beyond(old(currentPage), totalPages) then Max(1, totalPages.count) else old(currentPage)
    {
      var rows := SettingOr(rowsSetting, DefaultRows);
      var columns := SettingOr(columnsSetting, DefaultColumns);
      var first := Min(n, rows * columns);
      var needed := CeilDiv(first, columns);
      var effectiveRows := Min(rows, needed);
      itemsPerPage := effectiveRows * columns;
      ItemsPerPageZero(n, rows, columns);
      if itemsPerPage == 0 {
        totalPages := NotANumber;
      } else {
        totalPages := Pages(CeilDiv(n, itemsPerPage));
      }
      if Beyond(currentPage, totalPages) {
        currentPage := Max(1, totalPages.count);
      }
    }

    /** `loadShortcuts`: back to the first page, then the same arithmetic and the render. */
    method Load(n: nat, rowsSetting: Option<int>, columnsSetting: Option<int>)
      requires Valid()
      modifies this
      ensures Valid() && currentPage == 1
      ensures var rows := SettingOr(rowsSetting, DefaultRows);
        var columns := SettingOr(columnsSetting, DefaultColumns);
        (totalPages, itemsPerPage) == Layout(n, rows, columns)
    {
      currentPage := 1;
      var rows := SettingOr(rowsSetting, DefaultRows);
      var columns := SettingOr(columnsSetting, DefaultColumns);
      var first := Min(n, rows * columns);
      var effectiveRows := Min(rows, CeilDiv(first, columns));
      itemsPerPage := effectiveRows * columns;
      ItemsPerPageZero(n, rows, columns);
      totalPages := if itemsPerPage == 0 then NotANumber else Pages(CeilDiv(n, itemsPerPage));
      Render(n, rowsSetting, columnsSetting);
    }

    /** `changePage(page)` */
    method ChangePage(page: int)
      requires Valid()
      modifies this
      ensures Valid()
      ensures currentPage == if Accepts(totalPages, page) then page else old(currentPage)
      ensures totalPages == old(totalPages) && itemsPerPage == old(itemsPerPage)
    {
      if page < 1 || Beyond(page, totalPages) {
        return;
      }
      currentPage := page;
    }

    /**
     * The wheel handler: nothing while a modal is open or with at most one
     * page; otherwise one page on in the scroll direction, unless already
     * at the end that way.
     */
    method Wheel(modalOpen: bool, dx: int, dy: int)
      requires Valid()
      modifies this
      ensures Valid()
      ensures totalPages == old(totalPages) && itemsPerPage == old(itemsPerPage)
      ensures modalOpen || (totalPages.Pages? && totalPages.count <= 1) ==> currentPage == old(currentPage)
      ensures !modalOpen && totalPages.Pages? && totalPages.count > 1 ==>
        var d := Direction(dx, dy);
        currentPage ==
          if d > 0 && old(currentPage) < totalPages.count then old(currentPage) + 1
          else if d < 0 && old(currentPage) > 1 then old(currentPage) - 1
          else old(currentPage)
      ensures !modalOpen && totalPages.NotANumber? ==>
        currentPage == if Direction(dx, dy) < 0 && old(currentPage) > 1 then old(currentPage) - 1 else old(currentPage)
    {
      if modalOpen {
        return;
      }
      if totalPages.Pages? && totalPages.count <= 1 {
        return;
      }
      var deltaX := dx;
      if (if dx < 0 then -dx else dx) < (if dy < 0 then -dy else dy) {
        deltaX := dy;
      }
      if deltaX > 0 && totalPages.Pages? && currentPage < totalPages.count {
        ChangePage(currentPage + 1);
      } else if deltaX < 0 && currentPage > 1 {
        ChangePage(currentPage - 1);
      }
    }
  }
}
