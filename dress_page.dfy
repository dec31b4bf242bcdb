/** The dress catalogue page (src/app/dress/page.tsx): its state, the effect
    that recomputes the shown list, pagination and the selection toggles. */
module Dress {
  import opened JsArray
  import opened Catalog

  const PageSize: nat := 9
  const SizeChoices: seq<string> := ["XS", "S", "M", "L", "XL"]
  const ColorChoices: seq<string> := ["black", "red", "blue", "green", "yellow"]

  /** `Math.max(1, Math.ceil(n / PAGE_SIZE))`: enough pages of nine for `n`
      products and never fewer than one. */
  function TotalPages(n: nat): (r: nat)
    ensures r >= 1
    ensures n == 0 ==> r == 1
    ensures n > 0 ==> (r - 1) * PageSize < n <= r * PageSize
  {
    if n == 0 then 1 else (n + PageSize - 1) / PageSize
  }

  /** `filtered.slice((page - 1) * PAGE_SIZE, page * PAGE_SIZE)`: never more
      than nine products; for a page in range, the run of consecutive products
      that starts at position (page - 1) * 9. */
  function PageItems(s: seq<Product>, page: int): (r: seq<Product>)
    ensures |r| <= PageSize
    ensures 1 <= page <= TotalPages(|s|) && |s| > 0 ==>
      var lo := (page - 1) * PageSize;
      lo < |s| && r == s[lo..if page * PageSize <= |s| then page * PageSize else |s|]
  {
    Slice(s, (page - 1) * PageSize, page * PageSize)
  }

  /** Every product is shown on exactly one page in range: the one its
      position falls in, at the matching place. */
  lemma PageOfItem(s: seq<Product>, i: nat)
    requires i < |s|
    ensures var page := i / PageSize + 1;
      1 <= page <= TotalPages(|s|) && i % PageSize < |PageItems(s, page)| &&
      PageItems(s, page)[i % PageSize] == s[i]
    ensures forall page :: 1 <= page <= TotalPages(|s|) && page != i / PageSize + 1 ==>
      !((page - 1) * PageSize <= i < page * PageSize)
  {
    var page := i / PageSize + 1;
    var n := TotalPages(|s|);
    assert (page - 1) * PageSize <= i < page * PageSize;
    assert i < n * PageSize;
  }

  /** `toggleArr`: a present value is removed (every copy of it), an absent
      one is appended at the end. */
  function Toggle(arr: seq<string>, v: string): (r: seq<string>)
    ensures v in arr ==> v !in r && forall x :: x != v ==> (x in r <==> x in arr)
    ensures v !in arr ==> r == arr + [v]
  {
    if v in arr then
      KeepMembership(arr, (x: string) => x != v);
      Keep(arr, (x: string) => x != v)
    else arr + [v]
  }

  /** Removing a present value drops exactly its copies: every other value
      keeps its multiplicity, and one more value after the list is kept at
      the end (so the others stay in order) unless it is the value itself. */
  lemma ToggleRemoves(arr: seq<string>, v: string)
    requires v in arr
    ensures multiset(Toggle(arr, v)) == multiset(arr)[v := 0]
    ensures forall x :: x != v ==> Toggle(arr + [x], v) == Toggle(arr, v) + [x]
    ensures Toggle(arr + [v], v) == Toggle(arr, v)
  {
    var f := (x: string) => x != v;
    DropCount(arr, v);
    forall x ensures Toggle(arr + [x], v) == Keep(arr, f) + (if f(x) then [x] else []) {
      assert v in arr + [x];
      KeepSnoc(arr, x, f);
    }
  }

  /** Filtering out a value removes all its copies and nothing else. */
  lemma {:induction false} DropCount(arr: seq<string>, v: string)
    ensures multiset(Keep(arr, (x: string) => x != v)) == multiset(arr)[v := 0]
    decreases |arr|
  {
    var f := (x: string) => x != v;
    if arr != [] {
      var front, last := arr[..|arr| - 1], arr[|arr| - 1];
      assert arr == front + [last];
      DropCount(front, v);
      KeepSnoc(front, last, f);
    }
  }

  /** Toggling the same value twice restores the membership of every value. */
  lemma ToggleTwice(arr: seq<string>, v: string)
    ensures forall x :: x in Toggle(Toggle(arr, v), v) <==> x in arr
  {
  }

  /** On a list without the value, toggling twice restores the list itself. */
  lemma {:induction false} ToggleTwiceExact(arr: seq<string>, v: string)
    requires v !in arr
    ensures Toggle(Toggle(arr, v), v) == arr
  {
    var f := (x: string) => x != v;
    KeepSnoc(arr, v, f);
    KeepAll(arr, f);
  }

  /** `items.sort(cmp)` in place: a stable insertion sort whose result is the
      sort function's. */
  method SortInPlace(a: array<Product>, k: SortKey)
    modifies a
    ensures a[..] == SortBy(old(a[..]), k)
  {
    ghost var s := a[..];
    var i := 0;
    while i < a.Length
      invariant 0 <= i <= a.Length
      invariant a[..i] == SortBy(s[..i], k)
      invariant forall m :: i <= m < a.Length ==> a[m] == s[m]
    {
      assert a[i] == s[i];
      InsertLast(a, i, k);
      SortByStep(s, i, k);
      i := i + 1;
    }
    assert a[..] == a[..a.Length] && s == s[..a.Length];
  }

  /** The sort of one more element inserts it into the sort so far. */
  lemma SortByStep(s: seq<Product>, i: nat, k: SortKey)
    requires i < |s|
    ensures SortBy(s[..i + 1], k) == Insert(SortBy(s[..i], k), s[i], k)
  {
    assert s[..i + 1][..i] == s[..i];
  }

  /** One pass of the insertion sort: `a[i]` is moved into the sorted prefix
      `a[..i]`, shifting the elements it precedes one place right. */
  method InsertLast(a: array<Product>, i: nat, k: SortKey)
    requires i < a.Length
    modifies a
    ensures a[..i + 1] == Insert(old(a[..i]), old(a[i]), k)
    ensures forall m :: i < m < a.Length ==> a[m] == old(a[m])
  {
    ghost var sorted := a[..i];
    var x := a[i];
    var j := i;
    while j > 0 && Compare(a[j - 1], x, k) > 0.0
      invariant 0 <= j <= i
      invariant forall m :: 0 <= m < j ==> a[m] == sorted[m]
      invariant forall m :: j < m <= i ==> a[m] == sorted[m - 1]
      invariant forall m :: i < m < a.Length ==> a[m] == old(a[m])
      invariant forall m :: j <= m < i ==> Compare(sorted[m], x, k) > 0.0
    {
      a[j] := a[j - 1];
      j := j - 1;
    }
    a[j] := x;
    InsertAt(sorted, x, k, j);
    Shifted(a[..i + 1], sorted, x, j);
  }

  /** A sequence that agrees with `t` before `j`, holds `x` at `j` and `t`
      shifted one place right after it is `t` with `x` inserted at `j`. */
  lemma Shifted(r: seq<Product>, t: seq<Product>, x: Product, j: nat)
    requires j <= |t| && |r| == |t| + 1
    requires forall m :: 0 <= m < j ==> r[m] == t[m]
    requires r[j] == x
    requires forall m :: j < m < |r| ==> r[m] == t[m - 1]
    ensures r == t[..j] + [x] + t[j..]
  {
  }

  /** `x` is inserted right after the last element it does not precede. */
  lemma {:induction false} InsertAt(t: seq<Product>, x: Product, k: SortKey, j: nat)
    requires j <= |t|
    requires forall m :: j <= m < |t| ==> Compare(t[m], x, k) > 0.0
    requires j == 0 || Compare(t[j - 1], x, k) <= 0.0
    ensures Insert(t, x, k) == t[..j] + [x] + t[j..]
    decreases |t|
  {
    if j < |t| {
      var front, last := t[..|t| - 1], t[|t| - 1];
      assert Compare(last, x, k) > 0.0;
      InsertBehind(t, x, k);
      assert front[..j] == t[..j];
      InsertAt(front, x, k, j);
      assert t[j..] == front[j..] + [last];
      assert Insert(t, x, k) == t[..j] + [x] + front[j..] + [last];
    } else {
      InsertAfterAll(t, x, k);
      assert t[..j] == t && t[j..] == [];
    }
  }

  /** The three filter stages of the recompute effect, one after another;
      a stage with nothing selected is skipped. */
  method FilterStages(all: seq<Product>, f: Filters) returns (items: seq<Product>)
    ensures items == Keep(all, AdmitTest(f))
  {
    items := all;
    items := Keep(items, PriceTest(f));
    if |f.sizes| > 0 {
      items := Keep(items, SizeTest(f));
    }
    if |f.colors| > 0 {
      items := Keep(items, ColorTest(f));
    }
    StagedFilter(all, f);
  }

  /** The sort step: the filtered products held in an array of their own,
      sorted in place with the comparator of the sort key and read back. */
  method SortedCopy(items: seq<Product>, k: SortKey) returns (r: seq<Product>)
    ensures r == SortBy(items, k)
  {
    var a := new Product[|items|](i requires 0 <= i < |items| => items[i]);
    assert forall m :: 0 <= m < a.Length ==> a[m] == items[m];
    assert a[..] == items;
    SortInPlace(a, k);
    r := a[..];
  }

  /** The state of the page. `filtered` and `page` are what the recompute
      effect last set; the selections are the filter controls. */
  class DressPage {
    var allProducts: seq<Product>
    var filtered: seq<Product>
    var page: int
    var sortBy: SortKey
    var sizes: seq<string>
    var colors: seq<string>
    var priceLow: real
    var priceHigh: real

    function Selection(): Filters
      reads this
    {
      Filters(sizes, colors, priceLow, priceHigh)
    }

    /** The shown list is always the listing of the current selections, and
        the page cursor names one of its pages. */
    ghost predicate Valid()
      reads this
    {
      && filtered == Listing(allProducts, Selection(), sortBy)
      && 1 <= page <= TotalPages(|filtered|)
    }

    /** The products on the current page. */
    function Visible(): (r: seq<Product>)
      reads this
      requires Valid()
      ensures |r| <= PageSize
      ensures forall i :: 0 <= i < |r| ==> r[i] in allProducts && Admits(r[i], Selection())
    {
      var r := PageItems(filtered, page);
      ListingMembers(allProducts, Selection(), sortBy);
      assert forall i :: 0 <= i < |r| ==> r[i] in filtered;
      r
    }

    /** The first render: nothing loaded, page 1, `featured`, the full
        price range [0, 1000], the effect already run once. */
    constructor()
      ensures Valid()
      ensures allProducts == [] && filtered == [] && page == 1
      ensures sortBy == Featured && sizes == [] && colors == []
      ensures priceLow == 0.0 && priceHigh == 1000.0
    {
      allProducts := [];
      filtered := [];
      page := 1;
      sortBy := Featured;
      sizes := [];
      colors := [];
      priceLow := 0.0;
      priceHigh := 1000.0;
    }

    /** The recompute effect: start again from a copy of the whole source,
        run the price, size and colour stages, sort in place, publish the
        result and go back to page 1. */
    method Recompute()
      modifies this
      ensures Valid() && page == 1
      ensures filtered == Listing(allProducts, Selection(), sortBy)
      ensures allProducts == old(allProducts) && sortBy == old(sortBy)
      ensures sizes == old(sizes) && colors == old(colors)
      ensures priceLow == old(priceLow) && priceHigh == old(priceHigh)
    {
      var items := FilterStages(allProducts, Selection());
      filtered := SortedCopy(items, sortBy);
      page := 1;
    }

    /** The product list arrives; the effect runs again. */
    method SetProducts(all: seq<Product>)
      modifies this
      ensures Valid() && page == 1 && allProducts == all
      ensures filtered == Listing(all, Selection(), sortBy)
      ensures sortBy == old(sortBy) && sizes == old(sizes) && colors == old(colors)
      ensures priceLow == old(priceLow) && priceHigh == old(priceHigh)
    {
      allProducts := all;
      Recompute();
    }

    /** A size checkbox. */
    method ToggleSize(v: string)
      modifies this
      ensures Valid() && page == 1 && sizes == Toggle(old(sizes), v)
      ensures allProducts == old(allProducts) && sortBy == old(sortBy) && colors == old(colors)
      ensures priceLow == old(priceLow) && priceHigh == old(priceHigh)
    {
      sizes := Toggle(sizes, v);
      Recompute();
    }

    /** A colour swatch. */
    method ToggleColor(v: string)
      modifies this
      ensures Valid() && page == 1 && colors == Toggle(old(colors), v)
      ensures allProducts == old(allProducts) && sortBy == old(sortBy) && sizes == old(sizes)
      ensures priceLow == old(priceLow) && priceHigh == old(priceHigh)
    {
      colors := Toggle(colors, v);
      Recompute();
    }

    /** The sort selector. */
    method SetSortBy(k: SortKey)
      modifies this
      ensures Valid() && page == 1 && sortBy == k
      ensures allProducts == old(allProducts) && sizes == old(sizes) && colors == old(colors)
      ensures priceLow == old(priceLow) && priceHigh == old(priceHigh)
    {
      sortBy := k;
      Recompute();
    }

    /** The price slider. */
    method SetPriceRange(low: real, high: real)
      modifies this
      ensures Valid() && page == 1 && priceLow == low && priceHigh == high
      ensures allProducts == old(allProducts) && sortBy == old(sortBy)
      ensures sizes == old(sizes) && colors == old(colors)
    {
      priceLow, priceHigh := low, high;
      Recompute();
    }

    /** Previous: one page back, never below page 1. */
    method PreviousPage()
      requires Valid()
      modifies this`page
      ensures Valid()
      ensures page == if old(page) - 1 < 1 then 1 else old(page) - 1
    {
      page := if page - 1 < 1 then 1 else page - 1;
    }

    /** Next: one page on, never past the last page. */
    method NextPage()
      requires Valid()
      modifies this`page
      ensures Valid()
      ensures var last := TotalPages(|filtered|);
        page == if old(page) + 1 > last then last else old(page) + 1
    {
      var last := TotalPages(|filtered|);
      page := if page + 1 > last then last else page + 1;
    }

    /** The numbered button `i + 1`; there is one for each `i` below the page
        count. */
    method GoToPage(i: int)
      requires Valid() && 0 <= i < TotalPages(|filtered|)
      modifies this`page
      ensures Valid() && page == i + 1
    {
      page := i + 1;
    }
  }
}
