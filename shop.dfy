/**
 * The product listing of the shop page (src/pages/Shop.tsx:33-116): the
 * filter-and-sort pipeline over the catalogue, the colour and size toggles,
 * the active-filter counter and the reset.
 */
module Shop {
  import opened Types
  import opened Text

  /** The price slider's full range. */
  const PriceFloor: real := 0.0
  const PriceCeiling: real := 200.0

  /** The page's filter state: the URL's `category` and `search` parameters and the filter panel. */
  datatype ShopFilters = ShopFilters(
    categorySlug: Option<string>,
    searchQuery: string,
    priceFilter: (real, real),
    selectedColors: seq<string>,
    selectedSizes: seq<string>,
    sortBy: string)

  datatype SortKey = PriceLow | PriceHigh | Rating | Newest

  /** The `switch (sortBy)`: three named orders, and newest-first for anything else. */
  function SortKeyOf(sortBy: string): (k: SortKey)
    ensures k == Newest <==> sortBy != "price-low" && sortBy != "price-high" && sortBy != "rating"
  {
    if sortBy == "price-low" then PriceLow
    else if sortBy == "price-high" then PriceHigh
    else if sortBy == "rating" then Rating
    else Newest
  }

  /** `if (categorySlug)`: present and non-empty. */
  predicate CategorySet(f: ShopFilters)
  {
    f.categorySlug.Some? && f.categorySlug.value != ""
  }

  // ---------------------------------------------------------------------
  // Filtering

  /** `s.filter(keep)`: the kept elements, each as often as in `s`, in order. */
  function Filter<T(!new)>(s: seq<T>, keep: T -> bool): (r: seq<T>)
    ensures forall x :: x in r <==> x in s && keep(x)
    ensures forall x :: multiset(r)[x] == if keep(x) then multiset(s)[x] else 0
    ensures |r| <= |s|
  {
    if s == [] then []
    else
      var rest := Filter(s[1..], keep);
      assert s == [s[0]] + s[1..];
      if keep(s[0]) then [s[0]] + rest else rest
  }

  /** When every element is kept, filtering changes nothing. */
  lemma {:induction false} FilterKeepsAll<T(!new)>(s: seq<T>, keep: T -> bool)
    requires forall x :: x in s ==> keep(x)
    ensures Filter(s, keep) == s
  {
    if s != [] {
      FilterKeepsAll(s[1..], keep);
    }
  }

  lemma {:induction false} FilterAppend<T(!new)>(a: seq<T>, b: seq<T>, keep: T -> bool)
    ensures Filter(a + b, keep) == Filter(a, keep) + Filter(b, keep)
  {
    if a == [] {
      assert a + b == b;
    } else {
      assert (a + b)[1..] == a[1..] + b;
      FilterAppend(a[1..], b, keep);
    }
  }

  /** `Math.min(...variants.map(v => v.price))`, with None for the Infinity of an empty list. */
  function MinPrice(variants: seq<ProductVariant>): (m: Option<real>)
    ensures m.None? <==> variants == []
    ensures m.Some? ==> exists i :: 0 <= i < |variants| && variants[i].price == m.value
    ensures m.Some? ==> forall i :: 0 <= i < |variants| ==> m.value <= variants[i].price
  {
    if variants == [] then None
    else
      var first := variants[0].price;
      match MinPrice(variants[1..])
      case None => Some(first)
      case Some(rest) =>
        assert forall i :: 1 <= i < |variants| ==> variants[i] == variants[1..][i - 1];
        Some(if first < rest then first else rest)
  }

  /**
   * The price filter: the cheapest variant lies in `[lo, hi]`. A product
   * without variants has minimum Infinity, which no finite `hi` admits.
   */
  predicate InPriceRange(p: Product, lo: real, hi: real)
  {
    match MinPrice(p.variants)
    case None => false
    case Some(m) => lo <= m <= hi
  }

  predicate MatchesCategory(p: Product, slug: string)
  {
    Lower(p.category) == Lower(slug)
  }

  /** Name, description or some tag contains the (already lower-cased) query. */
  predicate MatchesQuery(p: Product, query: string)
  {
    Includes(Lower(p.name), query)
      || Includes(Lower(p.description), query)
      || exists i :: 0 <= i < |p.tags| && Includes(Lower(p.tags[i]), query)
  }

  predicate HasColorIn(p: Product, colors: seq<string>)
  {
    exists i :: 0 <= i < |p.variants| && p.variants[i].color in colors
  }

  predicate HasSizeIn(p: Product, sizes: seq<string>)
  {
    exists i :: 0 <= i < |p.variants| && p.variants[i].size in sizes
  }

  /** The products that survive the five filters, in catalogue order. */
  function Narrow(products: seq<Product>, f: ShopFilters): (r: seq<Product>)
    ensures |r| <= |products|
    ensures forall p :: p in r ==> InPriceRange(p, f.priceFilter.0, f.priceFilter.1)
  {
    var byCategory :=
      if CategorySet(f) then Filter(products, p => MatchesCategory(p, f.categorySlug.value))
      else products;
    var bySearch :=
      if f.searchQuery != "" then Filter(byCategory, p => MatchesQuery(p, Lower(f.searchQuery)))
      else byCategory;
    var byPrice := Filter(bySearch, p => InPriceRange(p, f.priceFilter.0, f.priceFilter.1));
    var byColor :=
      if |f.selectedColors| > 0 then Filter(byPrice, p => HasColorIn(p, f.selectedColors))
      else byPrice;
    if |f.selectedSizes| > 0 then Filter(byColor, p => HasSizeIn(p, f.selectedSizes))
    else byColor
  }

  /** Reference definition: a product is listed when it passes every active filter. */
  ghost predicate Shown(f: ShopFilters, p: Product)
  {
    (CategorySet(f) ==> Lower(p.category) == Lower(f.categorySlug.value))
    && (f.searchQuery != "" ==> MatchesQuery(p, Lower(f.searchQuery)))
    && InPriceRange(p, f.priceFilter.0, f.priceFilter.1)
    && (|f.selectedColors| > 0 ==> HasColorIn(p, f.selectedColors))
    && (|f.selectedSizes| > 0 ==> HasSizeIn(p, f.selectedSizes))
  }

  /** Filtering keeps exactly the shown products, each with its catalogue multiplicity. */
  lemma NarrowKeepsShown(products: seq<Product>, f: ShopFilters)
    ensures forall p :: multiset(Narrow(products, f))[p]
                     == if Shown(f, p) then multiset(products)[p] else 0
  {
  }

  // ---------------------------------------------------------------------
  // Sorting

  /** The sort needs `variants[0]` only for the two price orders. */
  predicate Sortable(k: SortKey, p: Product)
  {
    (k == PriceLow || k == PriceHigh) ==> |p.variants| > 0
  }

  /** "`a` may precede `b`" for each order, in the products' own fields. */
  predicate OrderedAs(k: SortKey, a: Product, b: Product)
    requires Sortable(k, a) && Sortable(k, b)
  {
    match k
    case PriceLow => a.variants[0].price <= b.variants[0].price
    case PriceHigh => a.variants[0].price >= b.variants[0].price
    case Rating => a.averageRating >= b.averageRating
    case Newest => a.createdAt >= b.createdAt
  }

  /** The comparator passed to `result.sort`: negative when `a` belongs before `b`. */
  function Compare(k: SortKey, a: Product, b: Product): (r: real)
    requires Sortable(k, a) && Sortable(k, b)
    ensures r <= 0.0 <==> OrderedAs(k, a, b)
  {
    match k
    case PriceLow => a.variants[0].price - b.variants[0].price
    case PriceHigh => b.variants[0].price - a.variants[0].price
    case Rating => b.averageRating - a.averageRating
    case Newest => (b.createdAt - a.createdAt) as real
  }

  ghost predicate AllSortable(k: SortKey, s: seq<Product>)
  {
    forall p :: p in s ==> Sortable(k, p)
  }

  /** No pair of products is out of order under the comparator. */
  ghost predicate SortedBy(k: SortKey, s: seq<Product>)
    requires AllSortable(k, s)
  {
    forall i, j :: 0 <= i < j < |s| ==> Compare(k, s[i], s[j]) <= 0.0
  }

  /** The comparator is antisymmetric: swapping the operands negates it. */
  lemma CompareSwap(k: SortKey, a: Product, b: Product)
    requires Sortable(k, a) && Sortable(k, b)
    ensures Compare(k, a, b) == -Compare(k, b, a)
  {
  }

  /** Insert `x` before the first element it does not follow; ties keep `x` first. */
  function Insert(k: SortKey, x: Product, s: seq<Product>): (r: seq<Product>)
    requires Sortable(k, x) && AllSortable(k, s)
    ensures multiset(r) == multiset(s) + multiset{x}
    ensures forall y :: y in r <==> y == x || y in s
  {
    if s == [] then [x]
    else if Compare(k, x, s[0]) <= 0.0 then [x] + s
    else
      assert s == [s[0]] + s[1..];
      [s[0]] + Insert(k, x, s[1..])
  }

  /** Inserting into a sorted list keeps it sorted. */
  lemma {:induction false} InsertSorted(k: SortKey, x: Product, s: seq<Product>)
    requires Sortable(k, x) && AllSortable(k, s) && SortedBy(k, s)
    ensures AllSortable(k, Insert(k, x, s))
    ensures SortedBy(k, Insert(k, x, s))
  {
    if s != [] && Compare(k, x, s[0]) > 0.0 {
      var tail := s[1..];
      assert AllSortable(k, tail) && SortedBy(k, tail);
      InsertSorted(k, x, tail);
      var rest := Insert(k, x, tail);
      HeadPrecedesInsert(k, x, s);
      ConsSorted(k, s[0], rest);
    } else if s != [] {
      ConsSorted(k, x, s);
    }
  }

  /** When `x` goes after the head, the head precedes everything `x` is inserted among. */
  lemma HeadPrecedesInsert(k: SortKey, x: Product, s: seq<Product>)
    requires Sortable(k, x) && AllSortable(k, s) && SortedBy(k, s)
    requires s != [] && Compare(k, x, s[0]) > 0.0
    ensures forall y :: y in Insert(k, x, s[1..]) ==> Compare(k, s[0], y) <= 0.0
  {
    var tail := s[1..];
    forall y | y in Insert(k, x, tail) ensures Compare(k, s[0], y) <= 0.0 {
      if y == x {
        CompareSwap(k, x, s[0]);
      } else {
        var m :| 0 <= m < |tail| && tail[m] == y;
        assert s[m + 1] == y;
      }
    }
  }

  /** A head that precedes every element of a sorted list makes a sorted list. */
  lemma ConsSorted(k: SortKey, h: Product, rest: seq<Product>)
    requires Sortable(k, h) && AllSortable(k, rest) && SortedBy(k, rest)
    requires forall y :: y in rest ==> Compare(k, h, y) <= 0.0
    ensures AllSortable(k, [h] + rest)
    ensures SortedBy(k, [h] + rest)
  {
    var r := [h] + rest;
    forall i, j | 0 <= i < j < |r| ensures Compare(k, r[i], r[j]) <= 0.0 {
      assert r[j] == rest[j - 1];
      if i > 0 {
        assert r[i] == rest[i - 1];
      }
    }
  }

  /** `result.sort(compare)`: an insertion sort, stable like the host's. */
  function SortProducts(k: SortKey, s: seq<Product>): (r: seq<Product>)
    requires AllSortable(k, s)
    ensures multiset(r) == multiset(s)
    ensures forall y :: y in r <==> y in s
  {
    if s == [] then []
    else
      assert s == [s[0]] + s[1..];
      Insert(k, s[0], SortProducts(k, s[1..]))
  }

  /** The sort's result is ordered by the comparator. */
  lemma {:induction false} SortProductsSorted(k: SortKey, s: seq<Product>)
    requires AllSortable(k, s)
    ensures AllSortable(k, SortProducts(k, s))
    ensures SortedBy(k, SortProducts(k, s))
  {
    if s != [] {
      assert s == [s[0]] + s[1..];
      SortProductsSorted(k, s[1..]);
      InsertSorted(k, s[0], SortProducts(k, s[1..]));
    }
  }

  /** The `filteredProducts` list the page renders. */
  function FilteredProducts(products: seq<Product>, f: ShopFilters): (r: seq<Product>)
    ensures |r| <= |products|
    ensures forall p :: p in r ==> |p.variants| > 0
  {
    var narrowed := Narrow(products, f);
    NarrowedHaveVariants(products, f);
    SortProducts(SortKeyOf(f.sortBy), narrowed)
  }

  /** Every product past the price filter has a variant, so the sort's `variants[0]` exists. */
  lemma NarrowedHaveVariants(products: seq<Product>, f: ShopFilters)
    ensures forall p :: p in Narrow(products, f) ==> |p.variants| > 0
  {
  }

  /**
   * The listing holds exactly the shown products, each as often as in the
   * catalogue (a permutation of a subset), ordered by the selected key.
   */
  lemma FilteredProductsCorrect(products: seq<Product>, f: ShopFilters)
    ensures forall p :: multiset(FilteredProducts(products, f))[p]
                     == if Shown(f, p) then multiset(products)[p] else 0
    ensures forall p :: p in FilteredProducts(products, f) <==> p in products && Shown(f, p)
    ensures |FilteredProducts(products, f)| <= |products|
    ensures AllSortable(SortKeyOf(f.sortBy), FilteredProducts(products, f))
    ensures SortedBy(SortKeyOf(f.sortBy), FilteredProducts(products, f))
  {
    var k := SortKeyOf(f.sortBy);
    var n := Narrow(products, f);
    NarrowedHaveVariants(products, f);
    var r := SortProducts(k, n);
    assert r == FilteredProducts(products, f);
    NarrowKeepsShown(products, f);
    assert multiset(r) == multiset(n);
    forall p ensures p in r <==> p in products && Shown(f, p) {
      assert p in r <==> multiset(r)[p] > 0;
      assert p in products <==> multiset(products)[p] > 0;
    }
    assert |r| == |multiset(r)| == |multiset(n)| == |n|;
    SortProductsSorted(k, n);
  }

  /** Soundness: a listed product comes from the catalogue and passes every active filter. */
  lemma ListedIsShown(products: seq<Product>, f: ShopFilters, p: Product)
    requires p in FilteredProducts(products, f)
    ensures p in products && Shown(f, p)
  {
    FilteredProductsCorrect(products, f);
  }

  /** Each filter, stated on a shown product in the page's own terms. */
  lemma ShownMeans(f: ShopFilters, p: Product)
    requires Shown(f, p)
    ensures CategorySet(f) ==> Lower(p.category) == Lower(f.categorySlug.value)
    ensures f.searchQuery != "" ==>
      Includes(Lower(p.name), Lower(f.searchQuery))
      || Includes(Lower(p.description), Lower(f.searchQuery))
      || exists i :: 0 <= i < |p.tags| && Includes(Lower(p.tags[i]), Lower(f.searchQuery))
    ensures |p.variants| > 0
    ensures forall i :: 0 <= i < |p.variants| ==> f.priceFilter.0 <= p.variants[i].price
    ensures exists i :: (0 <= i < |p.variants|
      && f.priceFilter.0 <= p.variants[i].price <= f.priceFilter.1)
    ensures |f.selectedColors| > 0 ==>
      exists i :: 0 <= i < |p.variants| && p.variants[i].color in f.selectedColors
    ensures |f.selectedSizes| > 0 ==>
      exists i :: 0 <= i < |p.variants| && p.variants[i].size in f.selectedSizes
  {
    var m := MinPrice(p.variants).value;
    var i :| 0 <= i < |p.variants| && p.variants[i].price == m;
  }

  /** The four orders, stated on the listing in the page's own terms. */
  lemma FilteredProductsOrder(products: seq<Product>, f: ShopFilters)
    ensures var r := FilteredProducts(products, f);
      forall i, j :: 0 <= i < j < |r| ==>
        |r[i].variants| > 0 && |r[j].variants| > 0
        && OrderedAs(SortKeyOf(f.sortBy), r[i], r[j])
  {
    var k := SortKeyOf(f.sortBy);
    var n := Narrow(products, f);
    NarrowedHaveVariants(products, f);
    var r := SortProducts(k, n);
    assert r == FilteredProducts(products, f);
    SortProductsSorted(k, n);
    forall i, j | 0 <= i < j < |r|
      ensures |r[i].variants| > 0 && |r[j].variants| > 0
      ensures OrderedAs(k, r[i], r[j])
    {
      assert r[i] in n && r[j] in n;
    }
  }


  // ---------------------------------------------------------------------
  // Colour and size toggles, counter, reset

  /** `prev.includes(v) ? prev.filter(c => c !== v) : [...prev, v]`. */
  function Toggle(list: seq<string>, v: string): (r: seq<string>)
    ensures v in r <==> v !in list
    ensures forall x :: x != v ==> (x in r <==> x in list)
  {
    if v in list then Filter(list, c => c != v) else list + [v]
  }

  /** Toggling an absent value twice restores the list. */
  lemma ToggleTwiceAbsent(list: seq<string>, v: string)
    requires v !in list
    ensures Toggle(Toggle(list, v), v) == list
  {
    FilterAppend(list, [v], c => c != v);
    FilterKeepsAll(list, c => c != v);
    assert Filter([v], c => c != v) == [];
  }

  /** Toggling a present value twice removes its duplicates and moves it to the end. */
  lemma ToggleTwicePresent(list: seq<string>, v: string)
    requires v in list
    ensures Toggle(Toggle(list, v), v) == Filter(list, c => c != v) + [v]
  {
  }

  /** `toggleColor(color)`: flips that colour's selection and touches nothing else. */
  function ToggleColor(f: ShopFilters, color: string): (r: ShopFilters)
    ensures color in r.selectedColors <==> color !in f.selectedColors
    ensures forall x :: x != color ==> (x in r.selectedColors <==> x in f.selectedColors)
    ensures r.(selectedColors := f.selectedColors) == f
  {
    f.(selectedColors := Toggle(f.selectedColors, color))
  }

  /** `toggleSize(size)`: flips that size's selection and touches nothing else. */
  function ToggleSize(f: ShopFilters, size: string): (r: ShopFilters)
    ensures size in r.selectedSizes <==> size !in f.selectedSizes
    ensures forall x :: x != size ==> (x in r.selectedSizes <==> x in f.selectedSizes)
    ensures r.(selectedSizes := f.selectedSizes) == f
  {
    f.(selectedSizes := Toggle(f.selectedSizes, size))
  }

  /** A narrower price range than the slider's full one. */
  predicate PriceNarrowed(f: ShopFilters)
  {
    f.priceFilter.0 > PriceFloor || f.priceFilter.1 < PriceCeiling
  }

  /**
   * `activeFiltersCount`: one for a category, one for a narrowed price
   * range, and one per selected colour and size. The search query is not counted.
   */
  function ActiveFiltersCount(f: ShopFilters): (n: nat)
    ensures n == 0 <==> !CategorySet(f) && !PriceNarrowed(f) && f.selectedColors == [] && f.selectedSizes == []
    ensures n >= |f.selectedColors| + |f.selectedSizes|
    ensures n <= |f.selectedColors| + |f.selectedSizes| + 2
  {
    (if CategorySet(f) then 1 else 0)
    + (if PriceNarrowed(f) then 1 else 0)
    + |f.selectedColors|
    + |f.selectedSizes|
  }

  /** Filtering one value out shortens a list by that value's number of occurrences. */
  lemma {:induction false} FilterOutLength(list: seq<string>, keep: string -> bool, v: string)
    requires forall x :: keep(x) <==> x != v
    ensures |Filter(list, keep)| == |list| - multiset(list)[v]
  {
    if list != [] {
      FilterOutLength(list[1..], keep, v);
      assert list == [list[0]] + list[1..];
      assert multiset(list)[v] == multiset([list[0]])[v] + multiset(list[1..])[v];
    }
  }

  /** Toggling a value lengthens the list by one, or shortens it by all its occurrences. */
  lemma ToggleLength(list: seq<string>, v: string)
    ensures v !in list ==> |Toggle(list, v)| == |list| + 1
    ensures v in list ==> |Toggle(list, v)| == |list| - multiset(list)[v]
  {
    if v in list {
      FilterOutLength(list, c => c != v, v);
    }
  }

  /**
   * Each selected colour counts once: toggling a new colour adds one to the
   * counter, and toggling a selected one removes all its occurrences.
   */
  lemma ToggleColorCounts(f: ShopFilters, color: string)
    ensures color !in f.selectedColors ==>
      ActiveFiltersCount(ToggleColor(f, color)) == ActiveFiltersCount(f) + 1
    ensures color in f.selectedColors ==>
      ActiveFiltersCount(ToggleColor(f, color))
        == ActiveFiltersCount(f) - multiset(f.selectedColors)[color]
  {
    ToggleLength(f.selectedColors, color);
  }

  /** The same for sizes. */
  lemma ToggleSizeCounts(f: ShopFilters, size: string)
    ensures size !in f.selectedSizes ==>
      ActiveFiltersCount(ToggleSize(f, size)) == ActiveFiltersCount(f) + 1
    ensures size in f.selectedSizes ==>
      ActiveFiltersCount(ToggleSize(f, size))
        == ActiveFiltersCount(f) - multiset(f.selectedSizes)[size]
  {
    ToggleLength(f.selectedSizes, size);
  }

  /** `clearFilters`: drop the URL parameters, reset the price range, empty both selections; keep the order. */
  function ClearFilters(f: ShopFilters): (r: ShopFilters)
    ensures ActiveFiltersCount(r) == 0
    ensures r.searchQuery == "" && r.priceFilter == (PriceFloor, PriceCeiling)
    ensures r.sortBy == f.sortBy
  {
    f.(categorySlug := None, searchQuery := "", priceFilter := (PriceFloor, PriceCeiling),
       selectedColors := [], selectedSizes := [])
  }

  /** After a reset the listing is every catalogue product whose cheapest variant costs 0 to 200. */
  lemma ClearedListing(products: seq<Product>, f: ShopFilters, p: Product)
    ensures p in FilteredProducts(products, ClearFilters(f))
        <==> p in products && InPriceRange(p, PriceFloor, PriceCeiling)
  {
    FilteredProductsCorrect(products, ClearFilters(f));
  }
}
