/**
 * `GET /api/products` (app/api/products/route.ts): query-string
 * coercion into `GetProductsOptions`, then `getProducts`. The JSON
 * serialisation and the 500 branch are not modelled.
 */
module ProductsRoute {
  import opened JsBuiltins
  import opened Catalog
  import opened Queries

  /** A numeric parameter, when given, is written in decimal digits. */
  predicate DecimalParam(params: Params, key: string) {
    key in params ==> AllDigits(params[key])
  }

  predicate DecimalParams(params: Params) {
    && DecimalParam(params, "minPrice") && DecimalParam(params, "maxPrice")
    && DecimalParam(params, "page") && DecimalParam(params, "limit")
  }

  /** `get(key) ? Number(get(key)) : undefined`. */
  function NumberParam(params: Params, key: string): (r: Option<int>)
    requires DecimalParam(params, key)
    ensures r.Some? <==> key in params && params[key] != ""
    ensures r.Some? ==> r.value >= 0 && r.value == DigitsValue(params[key])
  {
    if key in params && params[key] != "" then Some(DigitsValue(params[key])) else None
  }

  /** A number written into the query string with `String(n)` reads back as `n`. */
  lemma NumberParamRoundTrip(key: string, n: nat)
    ensures DecimalParam(map[key := DecimalString(n)], key)
    ensures NumberParam(map[key := DecimalString(n)], key) == Some(n)
  {
    DigitsValueOfDecimal(n);
  }

  /** `get(key) === "true" ? true : undefined`. */
  function FlagParam(params: Params, key: string): (r: Option<bool>)
    ensures r != Some(false)
    ensures r == Some(true) <==> key in params && params[key] == "true"
  {
    if key in params && params[key] == "true" then Some(true) else None
  }

  /** The parameter is present and not empty. */
  predicate Given(params: Params, key: string) {
    key in params && params[key] != ""
  }

  /**
   * The options the route passes to `getProducts`: category and metal
   * forwarded as given, the prices and the page numbers read as decimals,
   * page 1 and limit 12 by default, the two flags set only by "true", and
   * no sort options.
   */
  function RequestOptions(params: Params): (o: ProductsOptions)
    requires DecimalParams(params)
    ensures o.orderBy == None && o.order == None
    ensures o.featured != Some(false) && o.isNewArrival != Some(false)
    ensures o.featured == Some(true) <==> "featured" in params && params["featured"] == "true"
    ensures o.isNewArrival == Some(true) <==> "newArrival" in params && params["newArrival"] == "true"
    ensures o.page.Some? && o.limit.Some? && o.page.value >= 0 && o.limit.value >= 0
    ensures o.page.value == if Given(params, "page") then DigitsValue(params["page"]) else 1
    ensures o.limit.value == if Given(params, "limit") then DigitsValue(params["limit"]) else 12
    ensures o.categorySlug.Some? <==> Given(params, "category")
    ensures o.categorySlug.Some? ==> o.categorySlug.value == params["category"]
    ensures o.metalType.Some? <==> Given(params, "metal")
    ensures o.metalType.Some? ==> o.metalType.value == params["metal"]
    ensures o.minPrice.Some? <==> Given(params, "minPrice")
    ensures o.minPrice.Some? ==> o.minPrice.value == DigitsValue(params["minPrice"])
    ensures o.maxPrice.Some? <==> Given(params, "maxPrice")
    ensures o.maxPrice.Some? ==> o.maxPrice.value == DigitsValue(params["maxPrice"])
  {
    ProductsOptions(
      TextParam(params, "category"),
      TextParam(params, "metal"),
      NumberParam(params, "minPrice"),
      NumberParam(params, "maxPrice"),
      Some(NumberParam(params, "page").GetOr(1)),
      Some(NumberParam(params, "limit").GetOr(12)),
      FlagParam(params, "featured"),
      FlagParam(params, "newArrival"),
      None,
      None)
  }

  /** The response body. */
  function GetProductsRoute(st: Store, params: Params): ProductPage
    requires DecimalParams(params)
  {
    Listing(st, RequestOptions(params))
  }

  /** Every listed product is in the store and obeys each filter the query string asks for. */
  lemma RouteListsMatching(st: Store, params: Params, p: Product)
    requires DecimalParams(params)
    requires p in GetProductsRoute(st, params).products
    ensures p in st.products
    ensures "category" in params && params["category"] != "" ==> p.category.slug == params["category"]
    ensures "metal" in params && params["metal"] != "" ==> p.metalType == params["metal"]
    ensures "minPrice" in params && params["minPrice"] != "" ==> p.price >= DigitsValue(params["minPrice"])
    ensures "maxPrice" in params && params["maxPrice"] != "" ==> p.price <= DigitsValue(params["maxPrice"])
    ensures "featured" in params && params["featured"] == "true" ==> p.featured
    ensures "newArrival" in params && params["newArrival"] == "true" ==> p.isNewArrival
  {
    ListingSound(st, RequestOptions(params), p);
  }

  /** The route sets no sort options, so every page it returns is newest first. */
  lemma RouteNewestFirst(st: Store, params: Params)
    requires DecimalParams(params)
    ensures NewestFirstOrder(GetProductsRoute(st, params).products)
  {
    ListingNewestFirst(st, RequestOptions(params));
  }

  /** `total` counts every matching product, not only the page; page and limit are echoed. */
  lemma RouteTotal(st: Store, params: Params)
    requires DecimalParams(params)
    ensures var r, o := GetProductsRoute(st, params), RequestOptions(params);
      && r.total == Count(st.products, Matcher(o))
      && r.page == (if "page" in params && params["page"] != "" then DigitsValue(params["page"]) else 1)
      && r.limit == (if "limit" in params && params["limit"] != "" then DigitsValue(params["limit"]) else 12)
  {
    ListingTotal(st, RequestOptions(params));
  }

  /** An empty parameter is the same as a missing one (`"" || undefined`). */
  lemma EmptyParamIsAbsent(params: Params, key: string)
    requires DecimalParams(params)
    ensures DecimalParams(params[key := ""]) && DecimalParams(params - {key})
    ensures RequestOptions(params[key := ""]) == RequestOptions(params - {key})
  {
  }

  /** With no query string: all products, newest first, the first twelve of them. */
  lemma EmptyQuery(st: Store)
    ensures var r := GetProductsRoute(st, map[]);
      && r.total == |st.products|
      && |r.products| == Min(12, |st.products|)
      && multiset(Matching(st, RequestOptions(map[]))) == multiset(st.products)
      && r.products == Matching(st, RequestOptions(map[]))[..|r.products|]
  {
    var o := RequestOptions(map[]);
    FilterKeepsAll(st.products, Matcher(o));
    ListingTotal(st, o);
    EnvelopePage(Matching(st, o), 1, 12);
  }
}
