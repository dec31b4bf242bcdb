/** The dress catalogue's filter and sort rules (src/app/dress/page.tsx):
    which products a filter selection admits, the four sort orders, and
    what the stable sort guarantees. */
module Catalog {
  import opened Wrappers
  import JsText
  import opened JsArray

  /** A product as the catalogue receives it. `createdAt` is the instant the
      creation date denotes (None when it is missing or does not parse). */
  datatype Product = Product(
    id: string,
    name: string,
    price: real,
    images: Option<seq<string>>,
    isFeatured: Option<bool>,
    sizes: Option<seq<string>>,
    colors: Option<seq<string>>,
    createdAt: Option<int>)

  datatype SortKey = Featured | PriceAsc | PriceDesc | Newest

  /** The filter selection: ticked sizes, colour swatches, the price slider. */
  datatype Filters = Filters(sizes: seq<string>, colors: seq<string>, low: real, high: real)

  // ---------------------------------------------------------------------
  // Filter stages
  // ---------------------------------------------------------------------

  /** The price stage: both ends of the range are inclusive. */
  predicate InPriceRange(p: Product, low: real, high: real) {
    low <= p.price <= high
  }

  /** `(p.sizes || [])`: a missing list counts as empty. */
  function OrEmpty(values: Option<seq<string>>): seq<string> {
    values.GetOr([])
  }

  /** `values.map(x => x.toLowerCase())`. */
  function LowerAll(values: seq<string>): (r: seq<string>)
    ensures |r| == |values|
    ensures forall j :: 0 <= j < |values| ==> r[j] == JsText.Lower(values[j])
  {
    seq(|values|, j requires 0 <= j < |values| => JsText.Lower(values[j]))
  }

  /** `selected.some(s => values.map(toLowerCase).includes(s.toLowerCase()))`:
      some selected value equals some product value, ignoring case. */
  function AnySelected(selected: seq<string>, values: seq<string>): (b: bool)
    ensures b <==> exists i, j :: 0 <= i < |selected| && 0 <= j < |values| &&
                                  JsText.SameIgnoringCase(selected[i], values[j])
    decreases |selected|
  {
    if selected == [] then false
    else
      var here := JsText.Lower(selected[0]) in LowerAll(values);
      var later := AnySelected(selected[1..], values);
      assert here ==> exists j :: 0 <= j < |values| && JsText.SameIgnoringCase(selected[0], values[j]);
      assert later ==> exists i, j :: 1 <= i < |selected| && 0 <= j < |values| &&
                                      JsText.SameIgnoringCase(selected[i], values[j]) by {
        if later {
          var i, j :| 0 <= i < |selected[1..]| && 0 <= j < |values| &&
                      JsText.SameIgnoringCase(selected[1..][i], values[j]);
          assert selected[1..][i] == selected[i + 1];
        }
      }
      assert (exists i, j :: 0 <= i < |selected| && 0 <= j < |values| &&
                             JsText.SameIgnoringCase(selected[i], values[j])) ==> here || later by {
        if exists i, j :: 0 <= i < |selected| && 0 <= j < |values| &&
                          JsText.SameIgnoringCase(selected[i], values[j]) {
          var i, j :| 0 <= i < |selected| && 0 <= j < |values| &&
                      JsText.SameIgnoringCase(selected[i], values[j]);
          if i == 0 {
            assert LowerAll(values)[j] == JsText.Lower(selected[0]);
          } else {
            assert selected[1..][i - 1] == selected[i];
          }
        }
      }
      here || later
  }

  /** The size or colour stage for one product: with nothing selected it
      keeps everything, otherwise the product needs a matching value. */
  predicate StagePasses(selected: seq<string>, values: Option<seq<string>>) {
    |selected| == 0 || AnySelected(selected, OrEmpty(values))
  }

  /** A product survives all three stages. */
  predicate Admits(p: Product, f: Filters) {
    InPriceRange(p, f.low, f.high) && StagePasses(f.sizes, p.sizes) && StagePasses(f.colors, p.colors)
  }

  function PriceTest(f: Filters): Product -> bool {
    (p: Product) => InPriceRange(p, f.low, f.high)
  }

  function SizeTest(f: Filters): Product -> bool {
    (p: Product) => AnySelected(f.sizes, OrEmpty(p.sizes))
  }

  function ColorTest(f: Filters): Product -> bool {
    (p: Product) => AnySelected(f.colors, OrEmpty(p.colors))
  }

  function AdmitTest(f: Filters): Product -> bool {
    (p: Product) => Admits(p, f)
  }

  /** What survives the price and size stages. */
  function PriceSizeTest(f: Filters): Product -> bool {
    (p: Product) => InPriceRange(p, f.low, f.high) && StagePasses(f.sizes, p.sizes)
  }

  /** Running the three stages one after another, each skipped when nothing
      is selected for it, keeps exactly the products the filter admits, in
      their source order. */
  lemma StagedFilter(all: seq<Product>, f: Filters)
    ensures var a := Keep(all, PriceTest(f));
            var b := if |f.sizes| > 0 then Keep(a, SizeTest(f)) else a;
            var c := if |f.colors| > 0 then Keep(b, ColorTest(f)) else b;
            c == Keep(all, AdmitTest(f))
  {
    var a := Keep(all, PriceTest(f));
    var b := if |f.sizes| > 0 then Keep(a, SizeTest(f)) else a;
    if |f.sizes| > 0 {
      KeepKeep(all, PriceTest(f), SizeTest(f), PriceSizeTest(f));
    } else {
      KeepSame(all, PriceTest(f), PriceSizeTest(f));
    }
    assert b == Keep(all, PriceSizeTest(f));
    if |f.colors| > 0 {
      KeepKeep(all, PriceSizeTest(f), ColorTest(f), AdmitTest(f));
    } else {
      KeepSame(all, PriceSizeTest(f), AdmitTest(f));
    }
  }

  /** What a filter can admit, stated without the stages: the price is in the
      inclusive range, and each active stage finds a case-insensitive match;
      a product without a size (colour) list never passes an active size
      (colour) stage. */
  lemma AdmitsMeaning(p: Product, f: Filters)
    ensures Admits(p, f) <==>
      && f.low <= p.price <= f.high
      && (|f.sizes| == 0 || exists i, j :: 0 <= i < |f.sizes| && 0 <= j < |OrEmpty(p.sizes)| &&
                                          JsText.SameIgnoringCase(f.sizes[i], OrEmpty(p.sizes)[j]))
      && (|f.colors| == 0 || exists i, j :: 0 <= i < |f.colors| && 0 <= j < |OrEmpty(p.colors)| &&
                                           JsText.SameIgnoringCase(f.colors[i], OrEmpty(p.colors)[j]))
    ensures p.sizes == None && |f.sizes| > 0 ==> !Admits(p, f)
    ensures p.colors == None && |f.colors| > 0 ==> !Admits(p, f)
    ensures |f.sizes| == 0 && |f.colors| == 0 ==> (Admits(p, f) <==> f.low <= p.price <= f.high)
  {
  }

  /** Case-insensitive matching works in both directions: a selected label
      matches a stored value exactly when the value matches the label. */
  lemma AnySelectedSymmetric(a: seq<string>, b: seq<string>)
    ensures AnySelected(a, b) == AnySelected(b, a)
  {
    if AnySelected(a, b) {
      var i, j :| 0 <= i < |a| && 0 <= j < |b| && JsText.SameIgnoringCase(a[i], b[j]);
      assert JsText.SameIgnoringCase(b[j], a[i]);
    }
    if AnySelected(b, a) {
      var j, i :| 0 <= j < |b| && 0 <= i < |a| && JsText.SameIgnoringCase(b[j], a[i]);
      assert JsText.SameIgnoringCase(a[i], b[j]);
    }
  }

  // ---------------------------------------------------------------------
  // Sorting
  // ---------------------------------------------------------------------

  /** `Number(p.isFeatured)`. */
  function Rank(p: Product): int {
    if p.isFeatured == Some(true) then 1 else 0
  }

  predicate IsFeatured(p: Product) {
    p.isFeatured == Some(true)
  }

  predicate IsPlain(p: Product) {
    !IsFeatured(p)
  }

  /** The comparator handed to `items.sort` for each key: negative when `a`
      goes first, positive when `b` does, zero for a tie. Under `Newest` an
      undated product counts as the oldest. */
  function Compare(a: Product, b: Product, k: SortKey): real {
    match k
    case Featured => (Rank(b) - Rank(a)) as real
    case PriceAsc => a.price - b.price
    case PriceDesc => b.price - a.price
    case Newest =>
      match (a.createdAt, b.createdAt)
      case (Some(ta), Some(tb)) => (tb - ta) as real
      case (None, Some(_)) => 1.0
      case (Some(_), None) => -1.0
      case (None, None) => 0.0
  }

  /** What each comparator decides: featured before plain; the lower or
      the higher price first; the newer date first and an undated product
      after every dated one. Ties are exactly the equal keys. */
  lemma CompareMeaning(a: Product, b: Product, k: SortKey)
    ensures var r := Compare(a, b, k);
      && (k == Featured ==> (r < 0.0 <==> IsFeatured(a) && IsPlain(b)) &&
                            (r == 0.0 <==> IsFeatured(a) == IsFeatured(b)))
      && (k == PriceAsc ==> (r < 0.0 <==> a.price < b.price) && (r == 0.0 <==> a.price == b.price))
      && (k == PriceDesc ==> (r < 0.0 <==> a.price > b.price) && (r == 0.0 <==> a.price == b.price))
      && (k == Newest ==>
           (r < 0.0 <==> a.createdAt.Some? && (b.createdAt.None? || a.createdAt.value > b.createdAt.value)) &&
           (r == 0.0 <==> a.createdAt == b.createdAt))
  {
  }

  lemma CompareAntisymmetric(a: Product, b: Product, k: SortKey)
    ensures Compare(a, b, k) == -Compare(b, a, k)
  {
  }

  lemma CompareTransitive(a: Product, b: Product, c: Product, k: SortKey)
    requires Compare(a, b, k) <= 0.0 && Compare(b, c, k) <= 0.0
    ensures Compare(a, c, k) <= 0.0
  {
  }

  // The comparators as written. `Number(undefined)` and the time of an
  // invalid date are NaN, and `Array.prototype.sort` reads a NaN result as
  // a tie. `None` stands for NaN below.

  /** How `Array.prototype.sort` reads a comparator result: NaN is +0. */
  function SortReading(v: Option<int>): int {
    if v.Some? then v.value else 0
  }

  /** `Number(b.isFeatured) - Number(a.isFeatured)` as written. */
  function FeaturedAsWritten(a: Product, b: Product): (v: Option<int>)
    ensures v.None? <==> a.isFeatured.None? || b.isFeatured.None?
  {
    if a.isFeatured.Some? && b.isFeatured.Some? then
      Some((if b.isFeatured.value then 1 else 0) - (if a.isFeatured.value then 1 else 0))
    else None
  }

  /** `new Date(b.createdAt || '').getTime() - new Date(a.createdAt || '').getTime()`
      as written. */
  function NewestAsWritten(a: Product, b: Product): (v: Option<int>)
    ensures v.None? <==> a.createdAt.None? || b.createdAt.None?
  {
    if a.createdAt.Some? && b.createdAt.Some? then Some(b.createdAt.value - a.createdAt.value) else None
  }

  function Sample(isFeatured: Option<bool>, createdAt: Option<int>): Product {
    Product("p", "p", 0.0, None, isFeatured, None, None, createdAt)
  }

  /** A product without `isFeatured` ties with a featured and with a plain
      product, which do not tie with each other: the comparator as written
      is inconsistent, and the order it gives is implementation-defined. */
  lemma FeaturedAsWrittenInconsistent()
    ensures var yes, unknown, no := Sample(Some(true), None), Sample(None, None), Sample(Some(false), None);
      SortReading(FeaturedAsWritten(yes, unknown)) == 0 &&
      SortReading(FeaturedAsWritten(unknown, no)) == 0 &&
      SortReading(FeaturedAsWritten(yes, no)) < 0
  {
  }

  /** An undated product ties with a newer and with an older product, which
      do not tie with each other: the same inconsistency under `newest`. */
  lemma NewestAsWrittenInconsistent()
    ensures var newer, undated, older := Sample(None, Some(2)), Sample(None, None), Sample(None, Some(1));
      SortReading(NewestAsWritten(newer, undated)) == 0 &&
      SortReading(NewestAsWritten(undated, older)) == 0 &&
      SortReading(NewestAsWritten(newer, older)) < 0
  {
  }

  /** Where both sides are defined, the model's comparator is the one as
      written. */
  lemma CompareAgreesAsWritten(a: Product, b: Product)
    ensures FeaturedAsWritten(a, b).Some? ==> Compare(a, b, Featured) == FeaturedAsWritten(a, b).value as real
    ensures NewestAsWritten(a, b).Some? ==> Compare(a, b, Newest) == NewestAsWritten(a, b).value as real
  {
  }

  /** `s` is in comparator order. */
  predicate Sorted(s: seq<Product>, k: SortKey) {
    forall i, j :: 0 <= i < j < |s| ==> Compare(s[i], s[j], k) <= 0.0
  }

  /** One step of a stable insertion sort: `x`, which came after everything
      in `t`, goes after every element it does not precede. */
  function Insert(t: seq<Product>, x: Product, k: SortKey): seq<Product>
    decreases |t|
  {
    if t == [] then [x]
    else if Compare(t[|t| - 1], x, k) <= 0.0 then t + [x]
    else Insert(t[..|t| - 1], x, k) + [t[|t| - 1]]
  }

  /** The stable sort `items.sort(cmp)` performs (ECMAScript requires
      `Array.prototype.sort` to be stable). */
  function SortBy(s: seq<Product>, k: SortKey): seq<Product>
    decreases |s|
  {
    if s == [] then [] else Insert(SortBy(s[..|s| - 1], k), s[|s| - 1], k)
  }

  /** The products that tie with `z` under `k`, in order. */
  function Ties(s: seq<Product>, z: Product, k: SortKey): seq<Product> {
    Keep(s, TieTest(z, k))
  }

  function TieTest(z: Product, k: SortKey): Product -> bool {
    (y: Product) => Compare(y, z, k) == 0.0
  }

  lemma {:induction false} InsertPermutes(t: seq<Product>, x: Product, k: SortKey)
    ensures multiset(Insert(t, x, k)) == multiset(t) + multiset{x}
    decreases |t|
  {
    if t != [] && Compare(t[|t| - 1], x, k) > 0.0 {
      InsertPermutes(t[..|t| - 1], x, k);
      assert t == t[..|t| - 1] + [t[|t| - 1]];
    }
  }

  /** Sorting rearranges and never adds or drops a product. */
  lemma {:induction false} SortPermutes(s: seq<Product>, k: SortKey)
    ensures multiset(SortBy(s, k)) == multiset(s)
    ensures |SortBy(s, k)| == |s|
    decreases |s|
  {
    if s != [] {
      SortPermutes(s[..|s| - 1], k);
      InsertPermutes(SortBy(s[..|s| - 1], k), s[|s| - 1], k);
      assert s == s[..|s| - 1] + [s[|s| - 1]];
    }
    assert |multiset(SortBy(s, k))| == |SortBy(s, k)|;
  }

  lemma {:induction false} InsertSorted(t: seq<Product>, x: Product, k: SortKey)
    requires Sorted(t, k)
    ensures Sorted(Insert(t, x, k), k)
    decreases |t|
  {
    if t != [] {
      var last := t[|t| - 1];
      if Compare(last, x, k) <= 0.0 {
        var r := t + [x];
        forall i, j | 0 <= i < j < |r| ensures Compare(r[i], r[j], k) <= 0.0 {
          if j == |t| && i < |t| - 1 {
            CompareTransitive(t[i], last, x, k);
          }
        }
      } else {
        var front := t[..|t| - 1];
        InsertSorted(front, x, k);
        InsertPermutes(front, x, k);
        var m := Insert(front, x, k);
        var r := m + [last];
        forall i, j | 0 <= i < j < |r| ensures Compare(r[i], r[j], k) <= 0.0 {
          if j == |m| {
            assert m[i] in multiset(m);
            if m[i] == x {
              CompareAntisymmetric(last, x, k);
            } else {
              assert m[i] in multiset(front);
              var q :| 0 <= q < |front| && front[q] == m[i];
              assert t[q] == m[i];
            }
          }
        }
      }
    }
  }

  /** The sort's output is in comparator order. */
  lemma {:induction false} SortSorted(s: seq<Product>, k: SortKey)
    ensures Sorted(SortBy(s, k), k)
    decreases |s|
  {
    if s != [] {
      SortSorted(s[..|s| - 1], k);
      InsertSorted(SortBy(s[..|s| - 1], k), s[|s| - 1], k);
    }
  }

  /** Two products that tie with a third tie with each other. */
  lemma CompareTieTransitive(a: Product, b: Product, z: Product, k: SortKey)
    requires Compare(a, z, k) == 0.0 && Compare(b, z, k) == 0.0
    ensures Compare(a, b, k) == 0.0
  {
  }

  /** The ties of `s` extended by one product. */
  lemma TiesSnoc(s: seq<Product>, y: Product, z: Product, k: SortKey)
    ensures Ties(s + [y], z, k) == Ties(s, z, k) + TieOf(y, z, k)
  {
    KeepSnoc(s, y, TieTest(z, k));
  }

  /** `[y]` when `y` ties with `z`, else nothing. */
  function TieOf(y: Product, z: Product, k: SortKey): seq<Product> {
    if Compare(y, z, k) == 0.0 then [y] else []
  }

  lemma {:induction false} InsertTies(t: seq<Product>, x: Product, z: Product, k: SortKey)
    ensures Ties(Insert(t, x, k), z, k) == Ties(t, z, k) + TieOf(x, z, k)
    decreases |t|
  {
    if t == [] {
      TiesSnoc([], x, z, k);
    } else if Compare(t[|t| - 1], x, k) <= 0.0 {
      TiesSnoc(t, x, z, k);
    } else {
      var front, last := t[..|t| - 1], t[|t| - 1];
      assert t == front + [last];
      InsertTies(front, x, z, k);
      InsertBehind(t, x, k);
      TiesSnoc(Insert(front, x, k), last, z, k);
      TiesSnoc(front, last, z, k);
      TiesCommute(Ties(front, z, k), last, x, z, k);
    }
  }

  /** When the last element of `t` goes after `x`, it stays last. */
  lemma InsertBehind(t: seq<Product>, x: Product, k: SortKey)
    requires t != [] && Compare(t[|t| - 1], x, k) > 0.0
    ensures Insert(t, x, k) == Insert(t[..|t| - 1], x, k) + [t[|t| - 1]]
  {
  }

  /** When `x` does not precede the last element of `t`, it goes last. */
  lemma InsertAfterAll(t: seq<Product>, x: Product, k: SortKey)
    requires t == [] || Compare(t[|t| - 1], x, k) <= 0.0
    ensures Insert(t, x, k) == t + [x]
  {
  }

  /** Two products that do not tie with each other cannot both tie with `z`. */
  lemma TiesCommute(before: seq<Product>, a: Product, b: Product, z: Product, k: SortKey)
    requires Compare(a, b, k) != 0.0
    ensures before + TieOf(b, z, k) + TieOf(a, z, k) == before + TieOf(a, z, k) + TieOf(b, z, k)
  {
    if Compare(a, z, k) == 0.0 && Compare(b, z, k) == 0.0 {
      CompareTieTransitive(a, b, z, k);
    }
  }

  /** The sort is stable: the products that tie with any `z` come out in the
      order they went in. */
  lemma {:induction false} SortStable(s: seq<Product>, z: Product, k: SortKey)
    ensures Ties(SortBy(s, k), z, k) == Ties(s, z, k)
    decreases |s|
  {
    if s != [] {
      var front, x := s[..|s| - 1], s[|s| - 1];
      SortStable(front, z, k);
      assert SortBy(s, k) == Insert(SortBy(front, k), x, k);
      InsertTies(SortBy(front, k), x, z, k);
      assert s == front + [x];
      TiesSnoc(front, x, z, k);
    }
  }

  lemma {:induction false} InsertFeatured(fs: seq<Product>, ns: seq<Product>, x: Product)
    requires forall i :: 0 <= i < |fs| ==> IsFeatured(fs[i])
    requires forall i :: 0 <= i < |ns| ==> IsPlain(ns[i])
    requires IsFeatured(x)
    ensures Insert(fs + ns, x, Featured) == fs + [x] + ns
    decreases |ns|
  {
    var t := fs + ns;
    if ns == [] {
      assert t == fs;
      if t != [] {
        assert IsFeatured(t[|t| - 1]);
      }
    } else {
      var front, last := ns[..|ns| - 1], ns[|ns| - 1];
      assert t[..|t| - 1] == fs + front;
      assert t[|t| - 1] == last;
      assert Compare(last, x, Featured) > 0.0;
      InsertFeatured(fs, front, x);
      assert ns == front + [last];
      assert fs + [x] + ns == (fs + [x] + front) + [last];
    }
  }

  /** Inserting a plain product after featured and plain ones appends it. */
  lemma InsertPlain(fs: seq<Product>, ns: seq<Product>, x: Product)
    requires forall i :: 0 <= i < |fs| ==> IsFeatured(fs[i])
    requires IsPlain(x)
    ensures Insert(fs + ns, x, Featured) == fs + ns + [x]
  {
    var t := fs + ns;
    if t != [] {
      assert Compare(t[|t| - 1], x, Featured) <= 0.0;
    }
  }

  /** Under `featured` all featured products come first, then all others,
      and each group keeps the order the products had before the sort. */
  lemma {:induction false} FeaturedFirst(s: seq<Product>)
    ensures SortBy(s, Featured) == Keep(s, IsFeatured) + Keep(s, IsPlain)
    decreases |s|
  {
    if s != [] {
      var front, x := s[..|s| - 1], s[|s| - 1];
      FeaturedFirst(front);
      assert s == front + [x];
      SortSnoc(s, Featured);
      FeaturedStep(front, x);
    }
  }

  lemma FeaturedStep(front: seq<Product>, x: Product)
    requires SortBy(front, Featured) == Keep(front, IsFeatured) + Keep(front, IsPlain)
    ensures Insert(SortBy(front, Featured), x, Featured) == Keep(front + [x], IsFeatured) + Keep(front + [x], IsPlain)
  {
    KeepSnoc(front, x, IsFeatured);
    KeepSnoc(front, x, IsPlain);
    var fs, ns := Keep(front, IsFeatured), Keep(front, IsPlain);
    if IsFeatured(x) {
      InsertFeatured(fs, ns, x);
      assert Keep(front + [x], IsFeatured) == fs + [x];
      assert Keep(front + [x], IsPlain) == ns;
    } else {
      InsertPlain(fs, ns, x);
      assert Keep(front + [x], IsFeatured) == fs;
      assert Keep(front + [x], IsPlain) == ns + [x];
    }
  }

  /** One step of the sort: the last product is inserted into the sorted rest. */
  lemma SortSnoc(s: seq<Product>, k: SortKey)
    requires s != []
    ensures SortBy(s, k) == Insert(SortBy(s[..|s| - 1], k), s[|s| - 1], k)
  {
  }

  /** The first element of a sorted arrangement precedes every element. */
  lemma SortedHead(a: seq<Product>, y: Product, k: SortKey)
    requires Sorted(a, k) && y in a
    ensures Compare(a[0], y, k) <= 0.0
  {
    var n :| 0 <= n < |a| && a[n] == y;
    if n == 0 {
      CompareAntisymmetric(y, y, k);
    }
  }

  /** Two sorted arrangements of the same products are the same when only
      equal products tie. */
  lemma {:induction false} SortedUnique(a: seq<Product>, b: seq<Product>, k: SortKey)
    requires multiset(a) == multiset(b)
    requires Sorted(a, k) && Sorted(b, k)
    requires forall x, y :: x in a && y in a && Compare(x, y, k) == 0.0 ==> x == y
    ensures a == b
    decreases |a|
  {
    if |a| > 0 {
      SameHead(a, b, k);
      TailOf(a, k);
      TailOf(b, k);
      NoTiesTail(a, k);
      SortedUnique(a[1..], b[1..], k);
      assert a == [a[0]] + a[1..] && b == [b[0]] + b[1..];
    }
  }

  /** Two sorted arrangements of the same products without ties start with
      the same product. */
  lemma SameHead(a: seq<Product>, b: seq<Product>, k: SortKey)
    requires |a| > 0 && multiset(a) == multiset(b)
    requires Sorted(a, k) && Sorted(b, k)
    requires forall x, y :: x in a && y in a && Compare(x, y, k) == 0.0 ==> x == y
    ensures |b| > 0 && a[0] == b[0]
  {
    assert |multiset(a)| == |a| && |multiset(b)| == |b|;
    assert a[0] in multiset(b) && b[0] in multiset(a);
    SortedHead(a, b[0], k);
    SortedHead(b, a[0], k);
    CompareAntisymmetric(a[0], b[0], k);
  }

  /** The tail of a non-empty sorted arrangement is sorted and holds the
      rest of the products. */
  lemma TailOf(a: seq<Product>, k: SortKey)
    requires |a| > 0 && Sorted(a, k)
    ensures Sorted(a[1..], k)
    ensures multiset(a[1..]) == multiset(a) - multiset{a[0]}
  {
    assert a == [a[0]] + a[1..];
    forall i, j | 0 <= i < j < |a[1..]| ensures Compare(a[1..][i], a[1..][j], k) <= 0.0 {
      assert a[1..][i] == a[i + 1] && a[1..][j] == a[j + 1];
    }
  }

  /** A tail has no ties its whole arrangement does not have. */
  lemma NoTiesTail(a: seq<Product>, k: SortKey)
    requires |a| > 0
    requires forall x, y :: x in a && y in a && Compare(x, y, k) == 0.0 ==> x == y
    ensures forall x, y :: x in a[1..] && y in a[1..] && Compare(x, y, k) == 0.0 ==> x == y
  {
    forall x, y | x in a[1..] && y in a[1..] && Compare(x, y, k) == 0.0 ensures x == y {
      assert x in a && y in a;
    }
  }

  /** With pairwise distinct prices, `priceDesc` is exactly the reverse of
      `priceAsc`. */
  lemma DistinctPricesReverse(s: seq<Product>)
    requires forall x, y :: x in s && y in s && x.price == y.price ==> x == y
    ensures SortBy(s, PriceDesc) == Reverse(SortBy(s, PriceAsc))
  {
    var asc, desc := SortBy(s, PriceAsc), SortBy(s, PriceDesc);
    SortPermutes(s, PriceAsc);
    SortPermutes(s, PriceDesc);
    SortSorted(s, PriceAsc);
    SortSorted(s, PriceDesc);
    ReversePermutes(asc);
    var rev := Reverse(asc);
    assert Sorted(rev, PriceDesc) by {
      forall i, j | 0 <= i < j < |rev| ensures Compare(rev[i], rev[j], PriceDesc) <= 0.0 {
        assert Compare(asc[|asc| - 1 - j], asc[|asc| - 1 - i], PriceAsc) <= 0.0;
      }
    }
    forall x, y | x in desc && y in desc && Compare(x, y, PriceDesc) == 0.0 ensures x == y {
      assert x in multiset(s) && y in multiset(s);
    }
    SortedUnique(desc, rev, PriceDesc);
  }

  // ---------------------------------------------------------------------
  // The whole pipeline
  // ---------------------------------------------------------------------

  /** The list the catalogue shows for a source list, a filter selection and
      a sort key: the admitted products, sorted. */
  function Listing(all: seq<Product>, f: Filters, k: SortKey): seq<Product> {
    SortBy(Keep(all, AdmitTest(f)), k)
  }

  /** Every listed product comes from the source, as often at most as it
      occurs there, and a product is listed exactly when it is in the source
      and the filter admits it. */
  lemma ListingMembers(all: seq<Product>, f: Filters, k: SortKey)
    ensures multiset(Listing(all, f, k)) <= multiset(all)
    ensures forall x :: x in Listing(all, f, k) <==> x in all && Admits(x, f)
    ensures multiset(Listing(all, f, k)) == multiset(Keep(all, AdmitTest(f)))
  {
    var kept := Keep(all, AdmitTest(f));
    SortPermutes(kept, k);
    KeepSubMultiset(all, AdmitTest(f));
    forall x ensures x in Listing(all, f, k) <==> x in all && Admits(x, f) {
      assert x in Listing(all, f, k) <==> x in multiset(kept);
      KeepMembers(all, AdmitTest(f), x);
    }
  }

  /** The order each key produces: `priceAsc` non-decreasing prices,
      `priceDesc` non-increasing, `newest` dated products newest first and
      undated ones last, `featured` featured products first. */
  lemma ListingOrder(all: seq<Product>, f: Filters, k: SortKey)
    ensures var r := Listing(all, f, k);
      && (k == PriceAsc ==> forall i, j :: 0 <= i < j < |r| ==> r[i].price <= r[j].price)
      && (k == PriceDesc ==> forall i, j :: 0 <= i < j < |r| ==> r[i].price >= r[j].price)
      && (k == Newest ==> forall i, j :: 0 <= i < j < |r| && r[j].createdAt.Some? ==>
                            r[i].createdAt.Some? && r[i].createdAt.value >= r[j].createdAt.value)
      && (k == Featured ==> forall i, j :: 0 <= i < j < |r| && IsFeatured(r[j]) ==> IsFeatured(r[i]))
  {
    var r := Listing(all, f, k);
    SortSorted(Keep(all, AdmitTest(f)), k);
    assert forall i, j :: 0 <= i < j < |r| ==> Compare(r[i], r[j], k) <= 0.0;
  }
}
