/**
 * The catalog query engine (lib/queries.ts): category listing with
 * per-category product counts, slug lookups, the filtered, sorted and
 * paged product listing, the featured, new-arrival and related lists, and
 * the two search variants. Every query reads a `Store`; the running
 * storefront passes `Catalog.STORE`. The source's `async` wrappers are
 * plain functions here.
 */
module Queries {
  import opened JsBuiltins
  import opened Catalog
  import opened StableSort

  // ---------------------------------------------------------------------
  // Categories
  // ---------------------------------------------------------------------

  /** A category record spread together with `_count: { products }`. */
  datatype CategoryWithCount = CategoryWithCount(category: Category, productCount: nat)

  function InCategory(id: int): Product -> bool {
    (p: Product) => p.categoryId == id
  }

  function WithCount(st: Store, c: Category): CategoryWithCount {
    CategoryWithCount(c, Count(st.products, InCategory(c.id)))
  }

  /** `getCategories`: one entry per category, in table order, with its product count. */
  function GetCategories(st: Store): (r: seq<CategoryWithCount>)
    ensures |r| == |st.categories|
    ensures forall i :: 0 <= i < |r| ==>
      r[i].category == st.categories[i] &&
      r[i].productCount == |Filter(st.products, InCategory(st.categories[i].id))|
  {
    seq(|st.categories|, i requires 0 <= i < |st.categories| => WithCount(st, st.categories[i]))
  }

  function SumCounts(r: seq<CategoryWithCount>): nat {
    if r == [] then 0 else r[0].productCount + SumCounts(r[1..])
  }

  /** The number of categories carrying a given id. */
  function CategoriesWithId(cats: seq<Category>, id: int): nat {
    if cats == [] then 0 else (if cats[0].id == id then 1 else 0) + CategoriesWithId(cats[1..], id)
  }

  /** Sum over `cats` of the number of products of `ps` in each. */
  function CountsOver(cats: seq<Category>, ps: seq<Product>): nat {
    if cats == [] then 0 else |Filter(ps, InCategory(cats[0].id))| + CountsOver(cats[1..], ps)
  }

  lemma {:induction false} CountsOverCons(cats: seq<Category>, p: Product, ps: seq<Product>)
    ensures CountsOver(cats, [p] + ps) == CategoriesWithId(cats, p.categoryId) + CountsOver(cats, ps)
  {
    if cats != [] {
      CountsOverCons(cats[1..], p, ps);
      FilterAppend([p], ps, InCategory(cats[0].id));
    }
  }

  lemma {:induction false} UniqueIdCountsOnce(cats: seq<Category>, i: int)
    requires CategoryKeysUnique(cats) && 0 <= i < |cats|
    ensures CategoriesWithId(cats, cats[i].id) == 1
  {
    if i == 0 {
      NoCategoryWithId(cats[1..], cats[0].id);
    } else {
      UniqueIdCountsOnce(cats[1..], i - 1);
    }
  }

  lemma {:induction false} NoCategoryWithId(cats: seq<Category>, id: int)
    requires forall j :: 0 <= j < |cats| ==> cats[j].id != id
    ensures CategoriesWithId(cats, id) == 0
  {
    if cats != [] {
      NoCategoryWithId(cats[1..], id);
    }
  }

  /** When every product's category is one of `cats`, the counts add up to the number of products. */
  lemma {:induction false} CountsOverAll(cats: seq<Category>, ps: seq<Product>)
    requires CategoryKeysUnique(cats)
    requires forall k :: 0 <= k < |ps| ==> exists i :: 0 <= i < |cats| && cats[i].id == ps[k].categoryId
    ensures CountsOver(cats, ps) == |ps|
  {
    if ps == [] {
      CountsOverNone(cats);
    } else {
      var i :| 0 <= i < |cats| && cats[i].id == ps[0].categoryId;
      UniqueIdCountsOnce(cats, i);
      assert ps == [ps[0]] + ps[1..];
      CountsOverCons(cats, ps[0], ps[1..]);
      CountsOverAll(cats, ps[1..]);
    }
  }

  lemma {:induction false} CountsOverNone(cats: seq<Category>)
    ensures CountsOver(cats, []) == 0
  {
    if cats != [] {
      CountsOverNone(cats[1..]);
    }
  }

  lemma {:induction false} SumCountsIsCountsOver(st: Store, cats: seq<Category>, r: seq<CategoryWithCount>)
    requires |r| == |cats|
    requires forall i :: 0 <= i < |r| ==> r[i].productCount == |Filter(st.products, InCategory(cats[i].id))|
    ensures SumCounts(r) == CountsOver(cats, st.products)
  {
    if r != [] {
      SumCountsIsCountsOver(st, cats[1..], r[1..]);
    }
  }

  /**
   * In a valid store every product is counted under exactly one category,
   * so the per-category counts add up to the number of products.
   */
  lemma CategoryCountsSum(st: Store)
    requires ValidStore(st)
    ensures SumCounts(GetCategories(st)) == |st.products|
  {
    SumCountsIsCountsOver(st, st.categories, GetCategories(st));
    forall k | 0 <= k < |st.products|
      ensures exists i :: 0 <= i < |st.categories| && st.categories[i].id == st.products[k].categoryId
    {
      var c := st.products[k].category;
      var i :| 0 <= i < |st.categories| && st.categories[i] == c;
    }
    CountsOverAll(st.categories, st.products);
  }

  function HasCategorySlug(slug: string): Category -> bool {
    (c: Category) => c.slug == slug
  }

  /** `getCategoryBySlug`: `null` (`None`) exactly when no category has the slug. */
  function GetCategoryBySlug(st: Store, slug: string): (r: Option<CategoryWithCount>)
    ensures r.None? <==> forall i :: 0 <= i < |st.categories| ==> st.categories[i].slug != slug
    ensures r.Some? ==>
      r.value.category in st.categories && r.value.category.slug == slug &&
      r.value == WithCount(st, r.value.category)
  {
    match Find(st.categories, HasCategorySlug(slug))
    case None => None
    case Some(c) => Some(WithCount(st, c))
  }

  /** With distinct slugs, looking up a category's slug yields that category and its count. */
  lemma CategoryBySlugFindsIt(st: Store, c: Category)
    requires CategoryKeysUnique(st.categories) && c in st.categories
    ensures GetCategoryBySlug(st, c.slug) == Some(WithCount(st, c))
  {
    FindUnique(st.categories, HasCategorySlug(c.slug), c);
  }

  function HasProductSlug(slug: string): Product -> bool {
    (p: Product) => p.slug == slug
  }

  /** `getProductBySlug`: total; `None` exactly when no product has the slug. */
  function GetProductBySlug(st: Store, slug: string): (r: Option<Product>)
    ensures r.None? <==> forall i :: 0 <= i < |st.products| ==> st.products[i].slug != slug
    ensures r.Some? ==> r.value in st.products && r.value.slug == slug
  {
    Find(st.products, HasProductSlug(slug))
  }

  /** With distinct slugs, looking up a product's slug yields that product. */
  lemma ProductBySlugFindsIt(st: Store, p: Product)
    requires ProductKeysUnique(st.products) && p in st.products
    ensures GetProductBySlug(st, p.slug) == Some(p)
  {
    FindUnique(st.products, HasProductSlug(p.slug), p);
  }

  // ---------------------------------------------------------------------
  // Product listing
  // ---------------------------------------------------------------------

  datatype OrderBy = CreatedAt | Price | Name
  datatype Direction = Asc | Desc

  /** `GetProductsOptions`; `None` is an absent (`undefined`) field. */
  datatype ProductsOptions = ProductsOptions(
    categorySlug: Option<string>,
    metalType: Option<string>,
    minPrice: Option<int>,
    maxPrice: Option<int>,
    page: Option<int>,
    limit: Option<int>,
    featured: Option<bool>,
    isNewArrival: Option<bool>,
    orderBy: Option<OrderBy>,
    order: Option<Direction>)

  const NO_OPTIONS := ProductsOptions(None, None, None, None, None, None, None, None, None, None)

  /** `Math.ceil(total / limit)` as a JavaScript number: a division by zero gives `Infinity`, or `NaN` for `0 / 0`. */
  datatype PageCount = Pages(n: int) | Infinity | NaN

  /** The response envelope of `getProducts`. */
  datatype ProductPage = ProductPage(
    products: seq<Product>, total: nat, page: int, limit: int, totalPages: PageCount)

  /** A string option is truthy when present and non-empty. */
  predicate Truthy(o: Option<string>) {
    o.Some? && o.value != ""
  }

  // The six filters, each true when its option does not apply.

  predicate KeepCategory(o: ProductsOptions, p: Product) {
    Truthy(o.categorySlug) ==> p.category.slug == o.categorySlug.value
  }

  predicate KeepMetal(o: ProductsOptions, p: Product) {
    Truthy(o.metalType) ==> p.metalType == o.metalType.value
  }

  predicate KeepMinPrice(o: ProductsOptions, p: Product) {
    o.minPrice.Some? ==> p.price >= o.minPrice.value
  }

  predicate KeepMaxPrice(o: ProductsOptions, p: Product) {
    o.maxPrice.Some? ==> p.price <= o.maxPrice.value
  }

  predicate KeepFeatured(o: ProductsOptions, p: Product) {
    o.featured.Some? ==> p.featured == o.featured.value
  }

  predicate KeepNewArrival(o: ProductsOptions, p: Product) {
    o.isNewArrival.Some? ==> p.isNewArrival == o.isNewArrival.value
  }

  /** A product is listed when it passes every supplied filter. */
  predicate Matches(o: ProductsOptions, p: Product) {
    && KeepCategory(o, p) && KeepMetal(o, p)
    && KeepMinPrice(o, p) && KeepMaxPrice(o, p)
    && KeepFeatured(o, p) && KeepNewArrival(o, p)
  }

  function Matcher(o: ProductsOptions): Product -> bool {
    (p: Product) => Matches(o, p)
  }

  /** `getRaw(a) < getRaw(b)`: dates by timestamp, prices as numbers, names as strings. */
  predicate KeyLess(a: Product, b: Product, key: OrderBy) {
    match key
    case CreatedAt => a.createdAt < b.createdAt
    case Price => a.price < b.price
    case Name => StrLess(a.name, b.name)
  }

  /** The comparator passed to `sort` in `getProducts`. */
  function Compare(a: Product, b: Product, key: OrderBy, order: Direction): int {
    if KeyLess(a, b, key) then (if order == Asc then -1 else 1)
    else if KeyLess(b, a, key) then (if order == Asc then 1 else -1)
    else 0
  }

  function Comparator(key: OrderBy, order: Direction): (Product, Product) -> int {
    (a: Product, b: Product) => Compare(a, b, key, order)
  }

  /** Each key is a strict order in which incomparable products have the same key. */
  lemma KeyLessOrder(a: Product, b: Product, c: Product, key: OrderBy)
    ensures !KeyLess(a, a, key)
    ensures KeyLess(a, b, key) ==> !KeyLess(b, a, key)
    ensures !KeyLess(b, a, key) && !KeyLess(c, b, key) ==> !KeyLess(c, a, key)
  {
    if key == Name {
      StrLessIrreflexive(a.name);
      StrLessTotal(a.name, b.name);
      StrLessTotal(b.name, c.name);
      StrLessTotal(a.name, c.name);
      if StrLess(c.name, a.name) && !StrLess(b.name, a.name) && !StrLess(c.name, b.name) {
        if StrLess(a.name, b.name) {
          StrLessTransitive(c.name, a.name, b.name);
        }
      }
    }
  }

  /** The `getProducts` comparator is consistent for every key and direction. */
  lemma ComparatorConsistent(key: OrderBy, order: Direction)
    ensures Consistent(Comparator(key, order))
  {
    var cmp := Comparator(key, order);
    forall a, b ensures cmp(a, b) < 0 <==> cmp(b, a) > 0 {
      KeyLessOrder(a, b, b, key);
      KeyLessOrder(b, a, a, key);
    }
    forall a, b, c | cmp(a, b) <= 0 && cmp(b, c) <= 0 ensures cmp(a, c) <= 0 {
      KeyLessOrder(a, b, c, key);
      KeyLessOrder(c, b, a, key);
      KeyLessOrder(a, c, c, key);
      KeyLessOrder(c, a, a, key);
    }
  }

  /** `Math.ceil(total / limit)`. */
  function TotalPages(total: nat, limit: int): (r: PageCount)
    ensures limit != 0 ==> r.Pages?
    ensures limit == 0 ==> r == if total == 0 then NaN else Infinity
  {
    if limit > 0 then Pages((total + limit - 1) / limit)
    else if limit == 0 then (if total == 0 then NaN else Infinity)
    else Pages(-(total / -limit))
  }

  /** The page count rounds `total / limit` up: the smallest `n` with `total <= n * limit` (and dually for a negative limit). */
  lemma TotalPagesCeil(total: nat, limit: int)
    requires limit != 0
    ensures var n := TotalPages(total, limit).n;
      limit > 0 ==> (n - 1) * limit < total <= n * limit
    ensures var n := TotalPages(total, limit).n;
      limit < 0 ==> n * limit <= total < (n - 1) * limit
  {
  }

  /** The products passing the filters, in comparator order. */
  function Matching(st: Store, o: ProductsOptions): seq<Product> {
    SortBy(Filter(st.products, Matcher(o)), Comparator(o.orderBy.GetOr(CreatedAt), o.order.GetOr(Desc)))
  }

  /** `sorted.slice((page - 1) * limit, page * limit)`. */
  function PageOf(sorted: seq<Product>, page: int, limit: int): seq<Product> {
    Slice(sorted, (page - 1) * limit, page * limit)
  }

  /** The response for one page of an already sorted list. */
  function Envelope(sorted: seq<Product>, page: int, limit: int): ProductPage {
    ProductPage(PageOf(sorted, page, limit), |sorted|, page, limit, TotalPages(|sorted|, limit))
  }

  /** The envelope `getProducts` returns, computed from one combined filter. */
  function Listing(st: Store, o: ProductsOptions): ProductPage {
    Envelope(Matching(st, o), o.page.GetOr(1), o.limit.GetOr(12))
  }

  /** The first `n` filters of `getProducts`, in source order. */
  predicate MatchesFirst(o: ProductsOptions, n: nat, p: Product) {
    && (n >= 1 ==> KeepCategory(o, p))
    && (n >= 2 ==> KeepMetal(o, p))
    && (n >= 3 ==> KeepMinPrice(o, p))
    && (n >= 4 ==> KeepMaxPrice(o, p))
    && (n >= 5 ==> KeepFeatured(o, p))
    && (n >= 6 ==> KeepNewArrival(o, p))
  }

  function MatcherFirst(o: ProductsOptions, n: nat): Product -> bool {
    (p: Product) => MatchesFirst(o, n, p)
  }

  /** Filtering by the next condition extends the prefix of filters applied. */
  lemma FilterApplied(s: seq<Product>, o: ProductsOptions, n: nat, keep: Product -> bool)
    requires n >= 1
    requires forall p :: MatchesFirst(o, n, p) == (MatchesFirst(o, n - 1, p) && keep(p))
    ensures Filter(Filter(s, MatcherFirst(o, n - 1)), keep) == Filter(s, MatcherFirst(o, n))
  {
    FilterFilter(s, MatcherFirst(o, n - 1), keep, MatcherFirst(o, n));
  }

  /** A filter whose option is absent changes nothing. */
  lemma FilterSkipped(s: seq<Product>, o: ProductsOptions, n: nat)
    requires n >= 1
    requires forall p :: MatchesFirst(o, n, p) == MatchesFirst(o, n - 1, p)
    ensures Filter(s, MatcherFirst(o, n - 1)) == Filter(s, MatcherFirst(o, n))
  {
    FilterCongruent(s, MatcherFirst(o, n - 1), MatcherFirst(o, n));
  }

  // The callbacks `getProducts` passes to `filter`, one per option.

  function SlugIs(slug: string): Product -> bool {
    (p: Product) => p.category.slug == slug
  }

  function MetalIs(metal: string): Product -> bool {
    (p: Product) => p.metalType == metal
  }

  function PriceAtLeast(minPrice: int): Product -> bool {
    (p: Product) => p.price >= minPrice
  }

  function PriceAtMost(maxPrice: int): Product -> bool {
    (p: Product) => p.price <= maxPrice
  }

  function FeaturedIs(featured: bool): Product -> bool {
    (p: Product) => p.featured == featured
  }

  function NewArrivalIs(isNewArrival: bool): Product -> bool {
    (p: Product) => p.isNewArrival == isNewArrival
  }

  // One lemma per filter step: applying the step (when its option is
  // supplied) to the result of the earlier steps gives the result of one more.

  lemma CategoryStep(s: seq<Product>, o: ProductsOptions)
    ensures var before := Filter(s, MatcherFirst(o, 0));
      (if Truthy(o.categorySlug) then Filter(before, SlugIs(o.categorySlug.value)) else before)
        == Filter(s, MatcherFirst(o, 1))
  {
    if Truthy(o.categorySlug) {
      FilterApplied(s, o, 1, SlugIs(o.categorySlug.value));
    } else {
      FilterSkipped(s, o, 1);
    }
  }

  lemma MetalStep(s: seq<Product>, o: ProductsOptions)
    ensures var before := Filter(s, MatcherFirst(o, 1));
      (if Truthy(o.metalType) then Filter(before, MetalIs(o.metalType.value)) else before)
        == Filter(s, MatcherFirst(o, 2))
  {
    if Truthy(o.metalType) {
      FilterApplied(s, o, 2, MetalIs(o.metalType.value));
    } else {
      FilterSkipped(s, o, 2);
    }
  }

  lemma MinPriceStep(s: seq<Product>, o: ProductsOptions)
    ensures var before := Filter(s, MatcherFirst(o, 2));
      (if o.minPrice.Some? then Filter(before, PriceAtLeast(o.minPrice.value)) else before)
        == Filter(s, MatcherFirst(o, 3))
  {
    if o.minPrice.Some? {
      FilterApplied(s, o, 3, PriceAtLeast(o.minPrice.value));
    } else {
      FilterSkipped(s, o, 3);
    }
  }

  lemma MaxPriceStep(s: seq<Product>, o: ProductsOptions)
    ensures var before := Filter(s, MatcherFirst(o, 3));
      (if o.maxPrice.Some? then Filter(before, PriceAtMost(o.maxPrice.value)) else before)
        == Filter(s, MatcherFirst(o, 4))
  {
    if o.maxPrice.Some? {
      FilterApplied(s, o, 4, PriceAtMost(o.maxPrice.value));
    } else {
      FilterSkipped(s, o, 4);
    }
  }

  lemma FeaturedStep(s: seq<Product>, o: ProductsOptions)
    ensures var before := Filter(s, MatcherFirst(o, 4));
      (if o.featured.Some? then Filter(before, FeaturedIs(o.featured.value)) else before)
        == Filter(s, MatcherFirst(o, 5))
  {
    if o.featured.Some? {
      FilterApplied(s, o, 5, FeaturedIs(o.featured.value));
    } else {
      FilterSkipped(s, o, 5);
    }
  }

  lemma NewArrivalStep(s: seq<Product>, o: ProductsOptions)
    ensures var before := Filter(s, MatcherFirst(o, 5));
      (if o.isNewArrival.Some? then Filter(before, NewArrivalIs(o.isNewArrival.value)) else before)
        == Filter(s, MatcherFirst(o, 6))
  {
    if o.isNewArrival.Some? {
      FilterApplied(s, o, 6, NewArrivalIs(o.isNewArrival.value));
    } else {
      FilterSkipped(s, o, 6);
    }
  }

  /** All six steps together are the combined filter. */
  lemma AllFiltersStep(s: seq<Product>, o: ProductsOptions)
    ensures Filter(s, MatcherFirst(o, 0)) == s
    ensures Filter(s, MatcherFirst(o, 6)) == Filter(s, Matcher(o))
  {
    FilterKeepsAll(s, MatcherFirst(o, 0));
    FilterCongruent(s, MatcherFirst(o, 6), Matcher(o));
  }

  /**
   * The filtering half of `getProducts`: start from a copy of the product
   * list and narrow it by each supplied filter in turn.
   */
  method FilterProducts(products: seq<Product>, o: ProductsOptions) returns (filtered: seq<Product>)
    ensures filtered == Filter(products, Matcher(o))
  {
    var s := products;
    AllFiltersStep(s, o);

    filtered := s;
    CategoryStep(s, o);
    if Truthy(o.categorySlug) {
      filtered := Filter(filtered, SlugIs(o.categorySlug.value));
    }
    MetalStep(s, o);
    if Truthy(o.metalType) {
      filtered := Filter(filtered, MetalIs(o.metalType.value));
    }
    MinPriceStep(s, o);
    if o.minPrice.Some? {
      filtered := Filter(filtered, PriceAtLeast(o.minPrice.value));
    }
    MaxPriceStep(s, o);
    if o.maxPrice.Some? {
      filtered := Filter(filtered, PriceAtMost(o.maxPrice.value));
    }
    FeaturedStep(s, o);
    if o.featured.Some? {
      filtered := Filter(filtered, FeaturedIs(o.featured.value));
    }
    NewArrivalStep(s, o);
    if o.isNewArrival.Some? {
      filtered := Filter(filtered, NewArrivalIs(o.isNewArrival.value));
    }
  }

  /**
   * `getProducts`: filter, sort with the requested key and direction (newest
   * first by default), and cut out the requested page.
   */
  method GetProducts(st: Store, o: ProductsOptions) returns (r: ProductPage)
    ensures r == Listing(st, o)
  {
    var page := o.page.GetOr(1);
    var limit := o.limit.GetOr(12);
    var orderBy := o.orderBy.GetOr(CreatedAt);
    var order := o.order.GetOr(Desc);

    var filtered := FilterProducts(st.products, o);
    var sorted := SortBy(filtered, Comparator(orderBy, order));

    var total := |sorted|;
    var products := Slice(sorted, (page - 1) * limit, page * limit);
    r := ProductPage(products, total, page, limit, TotalPages(total, limit));
  }

  // ---------------------------------------------------------------------
  // Properties of the listing
  // ---------------------------------------------------------------------

  /** The comparator `getProducts` sorts with for options `o`. */
  function ListingComparator(o: ProductsOptions): (Product, Product) -> int {
    Comparator(o.orderBy.GetOr(CreatedAt), o.order.GetOr(Desc))
  }

  /**
   * The sorted list is a permutation of the matching products, in
   * comparator order, and products with equal keys keep their store order.
   */
  lemma MatchingOrdered(st: Store, o: ProductsOptions, y: Product)
    ensures multiset(Matching(st, o)) == multiset(Filter(st.products, Matcher(o)))
    ensures Sorted(Matching(st, o), ListingComparator(o))
    ensures SameKey(Matching(st, o), y, ListingComparator(o)) == SameKey(Filter(st.products, Matcher(o)), y, ListingComparator(o))
  {
    var cmp := ListingComparator(o);
    ComparatorConsistent(o.orderBy.GetOr(CreatedAt), o.order.GetOr(Desc));
    SortBySorted(Filter(st.products, Matcher(o)), cmp);
    SortByStable(Filter(st.products, Matcher(o)), y, cmp);
  }

  /** A product is in the sorted list exactly when it is in the store and passes every filter. */
  lemma MatchingMembers(st: Store, o: ProductsOptions, p: Product)
    ensures p in Matching(st, o) <==> p in st.products && Matches(o, p)
  {
    var filtered := Filter(st.products, Matcher(o));
    assert p in Matching(st, o) <==> p in multiset(Matching(st, o));
    assert p in filtered <==> p in multiset(filtered);
    FilterMembers(st.products, Matcher(o), p);
  }

  /**
   * The listing in key order: ascending keys never decrease, descending
   * keys never increase. By default the newest product comes first.
   */
  lemma ListingKeyOrder(st: Store, o: ProductsOptions, i: int, j: int)
    requires 0 <= i < j < |Matching(st, o)|
    ensures var m, key := Matching(st, o), o.orderBy.GetOr(CreatedAt);
      if o.order.GetOr(Desc) == Asc then !KeyLess(m[j], m[i], key) else !KeyLess(m[i], m[j], key)
    ensures o.orderBy.None? && o.order.None? ==> Matching(st, o)[i].createdAt >= Matching(st, o)[j].createdAt
  {
    var m := Matching(st, o);
    MatchingOrdered(st, o, m[i]);
    assert Compare(m[i], m[j], o.orderBy.GetOr(CreatedAt), o.order.GetOr(Desc)) <= 0;
    KeyLessOrder(m[i], m[j], m[j], o.orderBy.GetOr(CreatedAt));
  }

  /**
   * `total` counts every matching product whatever the page and limit, and
   * `totalPages` is computed from it with the listing's limit.
   */
  lemma ListingTotal(st: Store, o: ProductsOptions)
    ensures Listing(st, o).total == Count(st.products, Matcher(o))
    ensures Listing(st, o).totalPages == TotalPages(Count(st.products, Matcher(o)), o.limit.GetOr(12))
    ensures Listing(st, o).page == o.page.GetOr(1) && Listing(st, o).limit == o.limit.GetOr(12)
  {
  }

  /** A page holds a contiguous run of the sorted list. */
  lemma EnvelopeRun(sorted: seq<Product>, page: int, limit: int)
    ensures var r, a := Envelope(sorted, page, limit).products, RelativeIndex((page - 1) * limit, |sorted|);
      a + |r| <= |sorted| && r == sorted[a..a + |r|]
  {
  }

  /** Every listed product is in the store and passes every supplied filter. */
  lemma ListingSound(st: Store, o: ProductsOptions, p: Product)
    requires p in Listing(st, o).products
    ensures p in st.products && Matches(o, p)
  {
    EnvelopeRun(Matching(st, o), o.page.GetOr(1), o.limit.GetOr(12));
    MatchingMembers(st, o, p);
  }

  /** Without sort options the sorted list is newest first. */
  lemma MatchingNewestFirst(st: Store, o: ProductsOptions)
    requires o.orderBy.None? && o.order.None?
    ensures NewestFirstOrder(Matching(st, o))
  {
    forall i, j | 0 <= i < j < |Matching(st, o)|
      ensures Matching(st, o)[i].createdAt >= Matching(st, o)[j].createdAt
    {
      ListingKeyOrder(st, o, i, j);
    }
  }

  /** Every run of a newest-first list is newest first. */
  lemma RunNewestFirst(m: seq<Product>, a: nat, r: seq<Product>)
    requires NewestFirstOrder(m)
    requires a + |r| <= |m| && r == m[a..a + |r|]
    ensures NewestFirstOrder(r)
  {
    forall i, j | 0 <= i < j < |r| ensures r[i].createdAt >= r[j].createdAt {
      assert r[i] == m[a + i] && r[j] == m[a + j];
    }
  }

  /** Without sort options every page is newest first. */
  lemma ListingNewestFirst(st: Store, o: ProductsOptions)
    requires o.orderBy.None? && o.order.None?
    ensures NewestFirstOrder(Listing(st, o).products)
  {
    var m, page, limit := Matching(st, o), o.page.GetOr(1), o.limit.GetOr(12);
    MatchingNewestFirst(st, o);
    EnvelopeRun(m, page, limit);
    RunNewestFirst(m, RelativeIndex((page - 1) * limit, |m|), Envelope(m, page, limit).products);
  }

  /** Options that pass the same products and sort the same way give the same sorted list. */
  lemma MatchingCongruent(st: Store, o1: ProductsOptions, o2: ProductsOptions)
    requires o1.orderBy == o2.orderBy && o1.order == o2.order
    requires forall i :: 0 <= i < |st.products| ==> Matches(o1, st.products[i]) == Matches(o2, st.products[i])
    ensures Matching(st, o1) == Matching(st, o2)
  {
    FilterCongruent(st.products, Matcher(o1), Matcher(o2));
  }

  /** An empty-string category slug filters nothing. */
  lemma EmptySlugMatching(st: Store, o: ProductsOptions)
    ensures Matching(st, o.(categorySlug := Some(""))) == Matching(st, o.(categorySlug := None))
  {
    MatchingCongruent(st, o.(categorySlug := Some("")), o.(categorySlug := None));
  }

  /** An empty-string metal type filters nothing. */
  lemma EmptyMetalMatching(st: Store, o: ProductsOptions)
    ensures Matching(st, o.(metalType := Some(""))) == Matching(st, o.(metalType := None))
  {
    MatchingCongruent(st, o.(metalType := Some("")), o.(metalType := None));
  }

  /** Hence the listing for an empty-string slug or metal is the unfiltered one. */
  lemma EmptyStringFilters(st: Store, o: ProductsOptions)
    ensures Listing(st, o.(categorySlug := Some(""))) == Listing(st, o.(categorySlug := None))
    ensures Listing(st, o.(metalType := Some(""))) == Listing(st, o.(metalType := None))
  {
    EmptySlugMatching(st, o);
    EmptyMetalMatching(st, o);
  }

  /** The sorted list depends on the filters and the order, not on the page or the limit. */
  lemma MatchingIgnoresPage(st: Store, o: ProductsOptions, page: Option<int>, limit: Option<int>)
    ensures Matching(st, o.(page := page, limit := limit)) == Matching(st, o)
  {
    FilterCongruent(st.products, Matcher(o.(page := page, limit := limit)), Matcher(o));
  }

  // ---------------------------------------------------------------------
  // Page arithmetic
  // ---------------------------------------------------------------------

  lemma MulMono(a: int, b: int, c: int)
    requires a <= b && c >= 0
    ensures a * c <= b * c
  {
  }

  /** The bounds of page `page`: `limit` apart, from zero, and past `total` after the last page. */
  lemma PageBounds(total: nat, page: int, limit: int)
    requires page >= 1 && limit >= 1
    ensures 0 <= (page - 1) * limit && page * limit == (page - 1) * limit + limit
    ensures page > TotalPages(total, limit).n ==> (page - 1) * limit >= total
  {
    var n := TotalPages(total, limit).n;
    TotalPagesCeil(total, limit);
    MulMono(0, page - 1, limit);
    if page > n {
      MulMono(n, page - 1, limit);
    }
  }

  /** For `page >= 1` and `limit >= 1` the page is the run `[(page - 1) * limit, page * limit)`, cut off at the end. */
  lemma PageOfRun(sorted: seq<Product>, page: int, limit: int)
    requires page >= 1 && limit >= 1
    ensures PageOf(sorted, page, limit) == sorted[Min((page - 1) * limit, |sorted|)..Min(page * limit, |sorted|)]
    ensures Min((page - 1) * limit, |sorted|) <= Min(page * limit, |sorted|)
    ensures page * limit == (page - 1) * limit + limit
  {
    PageBounds(|sorted|, page, limit);
  }

  /**
   * For `page >= 1` and `limit >= 1` the page is the run
   * `[(page - 1) * limit, page * limit)` of the sorted list, cut off at its
   * end: at most `limit` products, and none on a page past the last one.
   */
  lemma EnvelopePage(sorted: seq<Product>, page: int, limit: int)
    requires page >= 1 && limit >= 1
    ensures var e := Envelope(sorted, page, limit);
      && e.products == sorted[Min((page - 1) * limit, |sorted|)..Min(page * limit, |sorted|)]
      && |e.products| <= limit
      && e.totalPages.Pages?
      && (page > e.totalPages.n ==> e.products == [])
  {
    PageBounds(|sorted|, page, limit);
    PageOfRun(sorted, page, limit);
  }

  /** The first `n` pages of a sorted list, concatenated. */
  function FirstPages(sorted: seq<Product>, limit: int, n: nat): seq<Product> {
    if n == 0 then [] else FirstPages(sorted, limit, n - 1) + PageOf(sorted, n, limit)
  }

  lemma JoinRuns<T>(s: seq<T>, lo: int, hi: int)
    requires 0 <= lo <= hi <= |s|
    ensures s[..lo] + s[lo..hi] == s[..hi]
  {
  }

  /** Appending page `n` to the first `n - 1` pages gives the first `n` pages' worth of products. */
  lemma FirstPagesStep(sorted: seq<Product>, limit: int, n: nat)
    requires limit >= 1 && n > 0
    requires FirstPages(sorted, limit, n - 1) == sorted[..Min((n - 1) * limit, |sorted|)]
    ensures FirstPages(sorted, limit, n) == sorted[..Min(n * limit, |sorted|)]
  {
    PageBounds(|sorted|, n, limit);
    var lo, hi := Min((n - 1) * limit, |sorted|), Min(n * limit, |sorted|);
    PageOfRun(sorted, n, limit);
    JoinRuns(sorted, lo, hi);
  }

  /** The first `n` pages are the first `n * limit` products. */
  lemma {:induction false} FirstPagesPrefix(sorted: seq<Product>, limit: int, n: nat)
    requires limit >= 1
    ensures FirstPages(sorted, limit, n) == sorted[..Min(n * limit, |sorted|)]
  {
    if n > 0 {
      FirstPagesPrefix(sorted, limit, n - 1);
      FirstPagesStep(sorted, limit, n);
    }
  }

  /** Pages `1..totalPages` together hold the whole sorted list, each product once, in order. */
  lemma AllPages(sorted: seq<Product>, limit: int)
    requires limit >= 1
    ensures FirstPages(sorted, limit, TotalPages(|sorted|, limit).n) == sorted
  {
    var n := TotalPages(|sorted|, limit).n;
    TotalPagesCeil(|sorted|, limit);
    FirstPagesPrefix(sorted, limit, n);
  }

  /** Page `k` of the listing is page `k` of the sorted list, whatever page `o` asked for. */
  lemma ListingPage(st: Store, o: ProductsOptions, k: int)
    ensures Listing(st, o.(page := Some(k))).products == PageOf(Matching(st, o), k, o.limit.GetOr(12))
  {
    MatchingIgnoresPage(st, o, Some(k), o.limit);
    assert o.(page := Some(k)) == o.(page := Some(k), limit := o.limit);
  }

  /**
   * With the filters and order fixed and `limit >= 1`, requesting pages
   * `1..totalPages` one by one (each page `k` is `PageOf` the sorted list,
   * by `ListingPage`) returns the whole sorted list exactly once, in order.
   */
  lemma PagesCoverListing(st: Store, o: ProductsOptions)
    requires o.limit.GetOr(12) >= 1
    ensures Listing(st, o).totalPages.Pages?
    ensures FirstPages(Matching(st, o), o.limit.GetOr(12), Listing(st, o).totalPages.n) == Matching(st, o)
  {
    AllPages(Matching(st, o), o.limit.GetOr(12));
  }

  /**
   * For `page >= 1` and `limit >= 1` a listing page holds at most `limit`
   * products, and a page past the last one is empty.
   */
  lemma ListingPageBounds(st: Store, o: ProductsOptions)
    requires o.page.GetOr(1) >= 1 && o.limit.GetOr(12) >= 1
    ensures |Listing(st, o).products| <= o.limit.GetOr(12)
    ensures Listing(st, o).totalPages.Pages?
    ensures o.page.GetOr(1) > Listing(st, o).totalPages.n ==> Listing(st, o).products == []
  {
    EnvelopePage(Matching(st, o), o.page.GetOr(1), o.limit.GetOr(12));
  }

  /** In a valid store a product is in a category by slug exactly when it is in it by id. */
  lemma SlugMatchesId(st: Store, c: Category, p: Product)
    requires ValidStore(st) && c in st.categories && p in st.products
    ensures p.category.slug == c.slug <==> p.categoryId == c.id
  {
    var k :| 0 <= k < |st.products| && st.products[k] == p;
    var i :| 0 <= i < |st.categories| && st.categories[i] == c;
    var j :| 0 <= j < |st.categories| && st.categories[j] == p.category;
    if i < j || j < i {
      assert p.category.slug != c.slug && p.categoryId != c.id;
    }
  }

  /**
   * Listing a category by its slug reports as `total` the same product count
   * `getCategories` and `getCategoryBySlug` show for it.
   */
  lemma CategoryListingTotal(st: Store, c: Category)
    requires ValidStore(st) && c in st.categories && c.slug != ""
    ensures Listing(st, NO_OPTIONS.(categorySlug := Some(c.slug))).total == WithCount(st, c).productCount
  {
    var o := NO_OPTIONS.(categorySlug := Some(c.slug));
    forall i | 0 <= i < |st.products|
      ensures Matcher(o)(st.products[i]) == InCategory(c.id)(st.products[i])
    {
      SlugMatchesId(st, c, st.products[i]);
    }
    FilterCongruent(st.products, Matcher(o), InCategory(c.id));
  }

  // ---------------------------------------------------------------------
  // Featured, new-arrival and related lists; search
  // ---------------------------------------------------------------------

  /** `s.filter(keep).sort(cmp).slice(0, limit)`. */
  function Top(s: seq<Product>, keep: Product -> bool, cmp: (Product, Product) -> int, limit: int): seq<Product> {
    Slice(SortBy(Filter(s, keep), cmp), 0, limit)
  }

  /** The capped list is a prefix of the sorted list, as long as `limit` allows (a negative `limit` drops that many from the end). */
  lemma TopPrefix(s: seq<Product>, keep: Product -> bool, cmp: (Product, Product) -> int, limit: int)
    ensures var r, n := Top(s, keep, cmp, limit), Count(s, keep);
      && |r| <= n && r == SortBy(Filter(s, keep), cmp)[..|r|]
      && |r| == (if limit >= 0 then Min(limit, n) else if n + limit > 0 then n + limit else 0)
  {
  }

  /** The capped list holds only products of `s` that pass `keep`. */
  lemma TopMembers(s: seq<Product>, keep: Product -> bool, cmp: (Product, Product) -> int, limit: int)
    ensures forall p :: p in Top(s, keep, cmp, limit) ==> p in s && keep(p)
  {
    var sorted := SortBy(Filter(s, keep), cmp);
    TopPrefix(s, keep, cmp, limit);
    forall p | p in Top(s, keep, cmp, limit) ensures p in s && keep(p) {
      assert p in multiset(sorted);
      FilterMembers(s, keep, p);
    }
  }

  /** With a consistent comparator the capped list is in comparator order. */
  lemma TopSorted(s: seq<Product>, keep: Product -> bool, cmp: (Product, Product) -> int, limit: int)
    requires Consistent(cmp)
    ensures Sorted(Top(s, keep, cmp, limit), cmp)
  {
    SortBySorted(Filter(s, keep), cmp);
    TopPrefix(s, keep, cmp, limit);
  }

  /**
   * A product that passes `keep` is left out of the capped list only when
   * the cap is full, and then every kept product comes before it in
   * comparator order: the list is the first `limit` of the sorted matches.
   */
  lemma TopDropsOnlyWhenFull(s: seq<Product>, keep: Product -> bool, cmp: (Product, Product) -> int, limit: int, p: Product)
    requires Sorted(SortBy(Filter(s, keep), cmp), cmp)
    requires p in s && keep(p) && p !in Top(s, keep, cmp, limit)
    ensures var r := Top(s, keep, cmp, limit);
      && |r| < Count(s, keep)
      && (limit >= 0 ==> |r| == limit)
      && forall x :: x in r ==> cmp(x, p) <= 0
  {
    var sorted := SortBy(Filter(s, keep), cmp);
    TopPrefix(s, keep, cmp, limit);
    FilterMembers(s, keep, p);
    assert p in multiset(sorted);
    SortedPrefixOmits(sorted, |Top(s, keep, cmp, limit)|, cmp, p);
  }

  /** The comparator `(a, b) => b.createdAt - a.createdAt`. */
  function NewestFirst(): (Product, Product) -> int {
    (a: Product, b: Product) => b.createdAt - a.createdAt
  }

  lemma NewestFirstConsistent()
    ensures Consistent(NewestFirst())
  {
  }

  predicate NewestFirstOrder(r: seq<Product>) {
    forall i, j :: 0 <= i < j < |r| ==> r[i].createdAt >= r[j].createdAt
  }

  /**
   * A capped list sorted newest first is the first `limit` of the passing
   * products, newest first: it keeps only what passes, and a passing
   * product is left out only when the cap is full and it is no newer than
   * anything kept.
   */
  lemma NewestTop(s: seq<Product>, keep: Product -> bool, limit: int)
    ensures var r := Top(s, keep, NewestFirst(), limit);
      && (forall p :: p in r ==> p in s && keep(p))
      && NewestFirstOrder(r)
      && (limit >= 0 ==> |r| == Min(limit, Count(s, keep)))
      && r == SortBy(Filter(s, keep), NewestFirst())[..|r|]
      && (forall p :: p in s && keep(p) && p !in r ==> Dropped(r, p, Count(s, keep), limit))
  {
    var r := Top(s, keep, NewestFirst(), limit);
    NewestFirstConsistent();
    TopPrefix(s, keep, NewestFirst(), limit);
    TopMembers(s, keep, NewestFirst(), limit);
    TopSorted(s, keep, NewestFirst(), limit);
    SortBySorted(Filter(s, keep), NewestFirst());
    forall p | p in s && keep(p) && p !in r ensures Dropped(r, p, Count(s, keep), limit) {
      TopDropsOnlyWhenFull(s, keep, NewestFirst(), limit, p);
    }
  }

  /**
   * `p`, one of `count` matches, was cut from the newest-first list `r`:
   * the list is shorter than the matches, as long as a non-negative
   * `limit` allows, and holds nothing older than `p`.
   */
  predicate Dropped(r: seq<Product>, p: Product, count: nat, limit: int) {
    && |r| < count
    && (limit >= 0 ==> |r| == limit)
    && forall x :: x in r ==> x.createdAt >= p.createdAt
  }

  function IsFeatured(): Product -> bool {
    (p: Product) => p.featured
  }

  function IsNewArrival(): Product -> bool {
    (p: Product) => p.isNewArrival
  }

  function IsRelated(productId: int, categoryId: int): Product -> bool {
    (p: Product) => p.categoryId == categoryId && p.id != productId
  }

  /** `getFeaturedProducts`: featured products, newest first, at most `limit`. */
  function GetFeaturedProducts(st: Store, limit: int := 8): (r: seq<Product>)
    ensures forall p :: p in r ==> p in st.products && p.featured
    ensures NewestFirstOrder(r)
    ensures limit >= 0 ==> |r| == Min(limit, Count(st.products, IsFeatured()))
    ensures |r| <= Count(st.products, IsFeatured())
    ensures r == SortBy(Filter(st.products, IsFeatured()), NewestFirst())[..|r|]
    ensures forall p :: p in st.products && p.featured && p !in r ==>
      Dropped(r, p, Count(st.products, IsFeatured()), limit)
  {
    NewestTop(st.products, IsFeatured(), limit);
    Top(st.products, IsFeatured(), NewestFirst(), limit)
  }

  /** `getNewArrivals`: new arrivals, newest first, at most `limit`. */
  function GetNewArrivals(st: Store, limit: int := 8): (r: seq<Product>)
    ensures forall p :: p in r ==> p in st.products && p.isNewArrival
    ensures NewestFirstOrder(r)
    ensures limit >= 0 ==> |r| == Min(limit, Count(st.products, IsNewArrival()))
    ensures |r| <= Count(st.products, IsNewArrival())
    ensures r == SortBy(Filter(st.products, IsNewArrival()), NewestFirst())[..|r|]
    ensures forall p :: p in st.products && p.isNewArrival && p !in r ==>
      Dropped(r, p, Count(st.products, IsNewArrival()), limit)
  {
    NewestTop(st.products, IsNewArrival(), limit);
    Top(st.products, IsNewArrival(), NewestFirst(), limit)
  }

  /** `getRelatedProducts`: other products of the same category, newest first, at most `limit`. */
  function GetRelatedProducts(st: Store, productId: int, categoryId: int, limit: int := 4): (r: seq<Product>)
    ensures forall p :: p in r ==> p in st.products && p.categoryId == categoryId && p.id != productId
    ensures NewestFirstOrder(r)
    ensures limit >= 0 ==> |r| == Min(limit, Count(st.products, IsRelated(productId, categoryId)))
    ensures |r| <= Count(st.products, IsRelated(productId, categoryId))
    ensures r == SortBy(Filter(st.products, IsRelated(productId, categoryId)), NewestFirst())[..|r|]
    ensures forall p :: p in st.products && p.categoryId == categoryId && p.id != productId && p !in r ==>
      Dropped(r, p, Count(st.products, IsRelated(productId, categoryId)), limit)
  {
    NewestTop(st.products, IsRelated(productId, categoryId), limit);
    Top(st.products, IsRelated(productId, categoryId), NewestFirst(), limit)
  }

  /** `{ products, total }` returned by `searchProducts`. */
  datatype SearchResult = SearchResult(products: seq<Product>, total: nat)

  /** `!query || query.trim().length < 2`; the empty string trims to length 0. */
  predicate IsShortQuery(query: string) {
    |Trim(query)| < 2
  }

  /** `query.trim().toLowerCase()`. */
  function NormalizeQuery(query: string): string {
    ToLower(Trim(query))
  }

  /** The full-search test: a substring of the lower-cased name, description, metal or category name, or exactly a tag. */
  predicate SearchMatches(p: Product, q: string) {
    || Includes(ToLower(p.name), q)
    || Includes(ToLower(p.description), q)
    || q in p.tags
    || Includes(ToLower(p.metalType), q)
    || Includes(ToLower(p.category.name), q)
  }

  function SearchMatcher(q: string): Product -> bool {
    (p: Product) => SearchMatches(p, q)
  }

  /**
   * `searchProducts`: nothing for a short query; otherwise the matching
   * products, newest first, at most `limit`, with `total` the length of
   * that capped list.
   */
  function SearchProducts(st: Store, query: string, limit: int := 20): (r: SearchResult)
    ensures IsShortQuery(query) ==> r == SearchResult([], 0)
    ensures r.total == |r.products|
    ensures forall p :: p in r.products ==> p in st.products && SearchMatches(p, NormalizeQuery(query))
    ensures NewestFirstOrder(r.products)
    ensures !IsShortQuery(query) && limit >= 0 ==>
      r.total == Min(limit, Count(st.products, SearchMatcher(NormalizeQuery(query))))
    ensures |r.products| <= Count(st.products, SearchMatcher(NormalizeQuery(query)))
    ensures !IsShortQuery(query) ==>
      r.products == SortBy(Filter(st.products, SearchMatcher(NormalizeQuery(query))), NewestFirst())[..|r.products|]
    ensures !IsShortQuery(query) ==>
      forall p :: p in st.products && SearchMatches(p, NormalizeQuery(query)) && p !in r.products ==>
        Dropped(r.products, p, Count(st.products, SearchMatcher(NormalizeQuery(query))), limit)
  {
    if IsShortQuery(query) then SearchResult([], 0)
    else
      var q := NormalizeQuery(query);
      NewestTop(st.products, SearchMatcher(q), limit);
      var products := Top(st.products, SearchMatcher(q), NewestFirst(), limit);
      SearchResult(products, |products|)
  }

  /** The record a suggestion is projected to. */
  datatype Suggestion = Suggestion(id: int, name: string, slug: string, images: seq<string>, price: int)

  function ToSuggestion(p: Product): (s: Suggestion)
    ensures s.id == p.id && s.name == p.name && s.slug == p.slug && s.images == p.images && s.price == p.price
  {
    Suggestion(p.id, p.name, p.slug, p.images, p.price)
  }

  /** `tags.some((t) => t.includes(q))`. */
  predicate SomeTagIncludes(tags: seq<string>, q: string) {
    exists k :: 0 <= k < |tags| && Includes(tags[k], q)
  }

  /** The suggestion test: a substring of the lower-cased name or of some tag. */
  predicate SuggestionMatches(p: Product, q: string) {
    Includes(ToLower(p.name), q) || SomeTagIncludes(p.tags, q)
  }

  function SuggestionMatcher(q: string): Product -> bool {
    (p: Product) => SuggestionMatches(p, q)
  }

  /**
   * `(a, b) => a.name.localeCompare(b.name)`, taken as lexicographic order
   * with results -1, 0, 1; this is the listing comparator for names, ascending.
   */
  function ByName(): (Product, Product) -> int {
    Comparator(Name, Asc)
  }

  /** The products `getSearchSuggestions` keeps, sorted by name and capped. */
  function SuggestedProducts(st: Store, q: string, limit: int): seq<Product> {
    Top(st.products, SuggestionMatcher(q), ByName(), limit)
  }

  /** A list sorted by `ByName` never puts a name before a smaller one. */
  lemma NameOrdered(r: seq<Product>)
    requires Sorted(r, ByName())
    ensures forall i, j :: 0 <= i < j < |r| ==> !StrLess(r[j].name, r[i].name)
  {
    forall i, j | 0 <= i < j < |r| ensures !StrLess(r[j].name, r[i].name) {
      assert Compare(r[i], r[j], Name, Asc) <= 0;
      KeyLessOrder(r[i], r[j], r[j], Name);
    }
  }

  /** In name order, a product sorted no later than `p` has a name that `p`'s does not precede. */
  lemma ByNameBefore(x: Product, p: Product)
    requires ByName()(x, p) <= 0
    ensures !StrLess(p.name, x.name)
  {
    KeyLessOrder(x, p, p, Name);
  }

  /**
   * The suggested products are the first `limit` matches in name order:
   * they match, come in name order, are as many as `limit` allows, and a
   * match is left out only when the cap is full and its name is not
   * smaller than any kept name.
   */
  lemma SuggestedProductsProps(st: Store, q: string, limit: int)
    ensures var top, n := SuggestedProducts(st, q, limit), Count(st.products, SuggestionMatcher(q));
      && (forall p :: p in top ==> p in st.products && SuggestionMatches(p, q))
      && (forall i, j :: 0 <= i < j < |top| ==> !StrLess(top[j].name, top[i].name))
      && (limit >= 0 ==> |top| == Min(limit, n))
      && |top| <= n
      && top == SortBy(Filter(st.products, SuggestionMatcher(q)), ByName())[..|top|]
      && (forall p :: p in st.products && SuggestionMatches(p, q) && p !in top ==>
            && |top| < n && (limit >= 0 ==> |top| == limit)
            && forall x :: x in top ==> !StrLess(p.name, x.name))
  {
    var top := SuggestedProducts(st, q, limit);
    ComparatorConsistent(Name, Asc);
    TopPrefix(st.products, SuggestionMatcher(q), ByName(), limit);
    TopMembers(st.products, SuggestionMatcher(q), ByName(), limit);
    TopSorted(st.products, SuggestionMatcher(q), ByName(), limit);
    SortBySorted(Filter(st.products, SuggestionMatcher(q)), ByName());
    NameOrdered(top);
    forall p | p in st.products && SuggestionMatches(p, q) && p !in top
      ensures |top| < Count(st.products, SuggestionMatcher(q)) && (limit >= 0 ==> |top| == limit)
      ensures forall x :: x in top ==> !StrLess(p.name, x.name)
    {
      TopDropsOnlyWhenFull(st.products, SuggestionMatcher(q), ByName(), limit, p);
      forall x | x in top ensures !StrLess(p.name, x.name) {
        ByNameBefore(x, p);
      }
    }
  }

  /** Each product projected to its suggestion record, in order. */
  function ToSuggestions(top: seq<Product>): (r: seq<Suggestion>)
    ensures |r| == |top|
    ensures forall i :: 0 <= i < |r| ==> r[i] == ToSuggestion(top[i])
  {
    seq(|top|, i requires 0 <= i < |top| => ToSuggestion(top[i]))
  }

  /**
   * The cut seen through the projection: a matching product whose
   * suggestion is missing was dropped because the cap is full, and its
   * name is not smaller than any suggested name.
   */
  lemma SuggestionsKeepBest(st: Store, q: string, limit: int)
    ensures var r := ToSuggestions(SuggestedProducts(st, q, limit));
      forall p :: p in st.products && SuggestionMatches(p, q) && ToSuggestion(p) !in r ==>
        && |r| < Count(st.products, SuggestionMatcher(q))
        && (limit >= 0 ==> |r| == limit)
        && forall s :: s in r ==> !StrLess(p.name, s.name)
  {
    var top := SuggestedProducts(st, q, limit);
    var r := ToSuggestions(top);
    SuggestedProductsProps(st, q, limit);
    forall p | p in st.products && SuggestionMatches(p, q) && ToSuggestion(p) !in r
      ensures |r| < Count(st.products, SuggestionMatcher(q)) && (limit >= 0 ==> |r| == limit)
      ensures forall s :: s in r ==> !StrLess(p.name, s.name)
    {
      assert p !in top by {
        forall i | 0 <= i < |top| ensures top[i] != p {
          assert r[i] == ToSuggestion(top[i]);
        }
      }
      forall s | s in r ensures !StrLess(p.name, s.name) {
        var i :| 0 <= i < |r| && r[i] == s;
        assert top[i] in top;
      }
    }
  }

  /**
   * `getSearchSuggestions`: nothing for a short query; otherwise the first
   * `limit` matching products in name order, each projected to its
   * suggestion record. A match is left out only when the cap is full and
   * its name is not smaller than any suggested name.
   */
  function GetSearchSuggestions(st: Store, query: string, limit: int := 5): (r: seq<Suggestion>)
    ensures IsShortQuery(query) ==> r == []
    ensures !IsShortQuery(query) ==>
      var sorted := SortBy(Filter(st.products, SuggestionMatcher(NormalizeQuery(query))), ByName());
      && |r| <= |sorted|
      && (forall i :: 0 <= i < |r| ==> r[i] == ToSuggestion(sorted[i]))
      && (forall i :: 0 <= i < |r| ==> sorted[i] in st.products && SuggestionMatches(sorted[i], NormalizeQuery(query)))
    ensures forall i, j :: 0 <= i < j < |r| ==> !StrLess(r[j].name, r[i].name)
    ensures !IsShortQuery(query) && limit >= 0 ==>
      |r| == Min(limit, Count(st.products, SuggestionMatcher(NormalizeQuery(query))))
    ensures !IsShortQuery(query) ==>
      forall p :: p in st.products && SuggestionMatches(p, NormalizeQuery(query)) && ToSuggestion(p) !in r ==>
        && |r| < Count(st.products, SuggestionMatcher(NormalizeQuery(query)))
        && (limit >= 0 ==> |r| == limit)
        && forall s :: s in r ==> !StrLess(p.name, s.name)
  {
    if IsShortQuery(query) then []
    else
      SuggestedProductsProps(st, NormalizeQuery(query), limit);
      SuggestionsKeepBest(st, NormalizeQuery(query), limit);
      SuggestionsAreSortedPrefix(st, NormalizeQuery(query), limit);
      ToSuggestions(SuggestedProducts(st, NormalizeQuery(query), limit))
  }

  /** The projected suggestions are the projections of a prefix of the name-sorted matches. */
  lemma SuggestionsAreSortedPrefix(st: Store, q: string, limit: int)
    ensures var r, sorted := ToSuggestions(SuggestedProducts(st, q, limit)), SortBy(Filter(st.products, SuggestionMatcher(q)), ByName());
      && |r| <= |sorted|
      && (forall i :: 0 <= i < |r| ==> r[i] == ToSuggestion(sorted[i]))
      && (forall i :: 0 <= i < |r| ==> sorted[i] in st.products && SuggestionMatches(sorted[i], q))
  {
    var top := SuggestedProducts(st, q, limit);
    var sorted := SortBy(Filter(st.products, SuggestionMatcher(q)), ByName());
    SuggestedProductsProps(st, q, limit);
    assert forall i :: 0 <= i < |top| ==> top[i] == sorted[i] && top[i] in top;
  }

  /** Lower-casing the query first changes neither the guard nor the normalised query. */
  lemma QueryCaseInsensitive(query: string)
    ensures IsShortQuery(ToLower(query)) == IsShortQuery(query)
    ensures NormalizeQuery(ToLower(query)) == NormalizeQuery(query)
  {
    var t := Trim(query);
    TrimLower(query);
    ToLowerFixesLower(t);
    ToLowerFixesLower(ToLower(t));
    assert Trim(ToLower(query)) == ToLower(t);
  }

  /** Both searches ignore the case of the query. */
  lemma SearchCaseInsensitive(st: Store, query: string, limit: int)
    ensures SearchProducts(st, ToLower(query), limit) == SearchProducts(st, query, limit)
    ensures GetSearchSuggestions(st, ToLower(query), limit) == GetSearchSuggestions(st, query, limit)
  {
    QueryCaseInsensitive(query);
  }

  /** In a valid store every tag is lower-case, so a tag without surrounding blanks is its own normalised query. */
  lemma TagIsNormalised(st: Store, p: Product, tag: string)
    requires ValidStore(st) && p in st.products && tag in p.tags && Trim(tag) == tag
    ensures NormalizeQuery(tag) == tag
  {
    var i :| 0 <= i < |st.products| && st.products[i] == p;
    var k :| 0 <= k < |p.tags| && p.tags[k] == tag;
    assert IsLower(st.products[i].tags[k]);
    ToLowerFixesLower(tag);
  }

  /**
   * In a valid store, searching for one of a product's tags as written
   * passes the short-query guard and matches that product: tags are stored
   * lower-case, so the lower-cased query equals the tag.
   */
  lemma TagQueryMatches(st: Store, p: Product, tag: string)
    requires ValidStore(st) && p in st.products && tag in p.tags
    requires |tag| >= 2 && Trim(tag) == tag
    ensures !IsShortQuery(tag)
    ensures SearchMatches(p, NormalizeQuery(tag))
  {
    TagIsNormalised(st, p, tag);
  }

  /**
   * Searching for a product's own tag finds it whenever no more than twenty
   * products match: the cap of twenty cannot push it out.
   */
  lemma TagQueryFound(st: Store, p: Product, tag: string)
    requires ValidStore(st) && p in st.products && tag in p.tags
    requires |tag| >= 2 && Trim(tag) == tag
    requires Count(st.products, SearchMatcher(tag)) <= 20
    ensures p in SearchProducts(st, tag).products
  {
    TagQueryRoom(st, p, tag);
    SearchFindsWhenRoom(st, tag, p);
  }

  /** The tag query is long enough, matches the product, and its matches fit the cap. */
  lemma TagQueryRoom(st: Store, p: Product, tag: string)
    requires ValidStore(st) && p in st.products && tag in p.tags
    requires |tag| >= 2 && Trim(tag) == tag
    requires Count(st.products, SearchMatcher(tag)) <= 20
    ensures !IsShortQuery(tag) && SearchMatches(p, NormalizeQuery(tag))
    ensures Count(st.products, SearchMatcher(NormalizeQuery(tag))) <= 20
  {
    TagIsNormalised(st, p, tag);
    TagQueryMatches(st, p, tag);
  }

  /** With no more than twenty matches, the full search returns every match. */
  lemma SearchFindsWhenRoom(st: Store, query: string, p: Product)
    requires !IsShortQuery(query) && p in st.products && SearchMatches(p, NormalizeQuery(query))
    requires Count(st.products, SearchMatcher(NormalizeQuery(query))) <= 20
    ensures p in SearchProducts(st, query).products
  {
    var r := SearchProducts(st, query);
    assert |r.products| == Count(st.products, SearchMatcher(NormalizeQuery(query)));
  }

  /**
   * Matching is by plain substring, not by word: the query "ring" matches a
   * product named "Gold Hoop Earrings", in both searches.
   */
  lemma RingMatchesEarrings(p: Product)
    requires p.name == "Gold Hoop Earrings"
    ensures !IsShortQuery("ring") && NormalizeQuery("ring") == "ring"
    ensures SearchMatches(p, "ring") && SuggestionMatches(p, "ring")
  {
    TrimNoWhitespace("ring");
    ToLowerFixesLower("ring");
    assert ToLower(p.name) == "gold hoop earrings";
    assert OccursAt(ToLower(p.name), "ring", 13);
  }
}
