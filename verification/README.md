# Jewellery storefront catalog, modelled in Dafny

This project models the data and query core of a small jewellery storefront:
its fixed catalog of seven categories and twenty-eight products, the query
engine that lists, filters, sorts, pages and searches that catalog, the two
JSON endpoints that turn a query string into a query, the page list of the
pagination control, and the string helpers (`slugify`, `truncate`, `cn`).

Modules, one per source file plus two for the JavaScript built-ins the code
relies on:

- `JsBuiltins`: `Array.prototype.filter`/`find`/`findIndex`/`slice`/`join`,
  `String.prototype.toLowerCase`/`trim`/`includes`, the `<` order on strings,
  `Number()` on decimal digit strings and `URLSearchParams.get` (first-value
  lookup), each with its contract.
- `StableSort`: `Array.prototype.sort` with a comparator. The sort is stable,
  so for a consistent comparator the result is determined; `SortBy` is that
  result, proved sorted, a permutation and stable.
- `Catalog` (lib/data.ts): the `Category` and `Product` records, the category
  and product tables, `makeProduct`, and the data invariants (`ValidStore`)
  proved of the concrete tables.
- `Queries` (lib/queries.ts): every exported query. Each reads a `Store`
  value (the two tables); the running storefront passes `Catalog.STORE`, so
  the properties hold for any well-formed catalog, not only this one.
  `getProducts` reassigns a local array once per filter; it is the method
  `GetProducts` (with the loop-free filter chain `FilterProducts`), proved
  equal to the specification function `Listing`, about which the listing
  properties are proved.
- `Pagination` (components/Pagination.tsx): the method `PageList` builds the
  `pages` array with the source's loops, proved equal to `Window`, whose
  shape (increasing numbers, "..." exactly at gaps, current page shown) is
  proved separately; and the previous/next links.
- `Utils` (lib/utils.ts): `slugify`, `truncate`, `cn`, `METAL_TYPES`.
- `ProductsRoute` (app/api/products/route.ts) and `SearchRoute`
  (app/api/search/route.ts): query-string coercion and dispatch.

Numbers are unbounded integers; prices are whole rupees and dates epoch
milliseconds in the tables, so no floating point arises in the queries.
`page` and `limit` are arbitrary integers, and `slice` follows JavaScript's
rules for negative and out-of-range indices. `Math.ceil(total / limit)` is a
small datatype (a number, `Infinity` or `NaN`), because the route lets a
client pass `limit=0`.

Where the project's own documentation and the code disagree, the model
follows the code:
- The search `total` is the length of the capped result list, not the
  number of all matches (lib/queries.ts:135-137).
- Search matches by substring, so "ring" finds "Gold Hoop Earrings"
  (`Queries.RingMatchesEarrings`).
- `page` and `limit` are never clamped. A page past the end is empty, and a
  zero or negative limit flows into `slice` and the page count.

## Model

| member | source | states |
|---|---|---|
| JsBuiltins.TextParam | app/api/products/route.ts:7-8 | `get(key) \|\| undefined`: present exactly when the key is given with a non-empty value, and then that value |
| JsBuiltins.TrimIsTheTrim | lib/queries.ts:122 | `trim` is exactly the string with the white space cut from both ends: `r` is such a trim of `s` if and only if `r == Trim(s)` |
| JsBuiltins.TrimmedUnique | lib/queries.ts:122 | a string has only one trim, whatever slice position witnesses it |
| JsBuiltins.TrimTrims | lib/queries.ts:122 | `Trim(s)` is the slice of `s` after its leading white space, with only white space after it and none at its ends |
| Catalog.MakeProduct | lib/data.ts:101-131 | the product carries the category record whose id is its `categoryId` (the lookup at line 115), `updatedAt == createdAt`, and every field of the row: id, name, slug, description, price, tags, metal, images, both flags and `createdAt` |
| Catalog.CategoriesWellKeyed | lib/data.ts:32-96 | seven categories with ids 1..7 in order and pairwise distinct ids and slugs |
| Catalog.CategoryByIdResolves | lib/data.ts:115 | `CATEGORIES.find(c => c.id === id)` succeeds exactly for ids 1..7 and returns the category at index `id - 1` |
| Catalog.ProductRowsValid | lib/data.ts:134-600 | 28 rows with ids 1..28 in order, well-formed fields and pairwise distinct slugs |
| Catalog.ProductsFromRows | lib/data.ts:134-600 | each product is `makeProduct` of the row at the same index |
| Catalog.ProductsWellKeyed | lib/data.ts:134-600 | products have ids 1..28 in order and distinct ids and slugs |
| Catalog.ProductCategoriesResolve | lib/data.ts:101-131 | every product's category id is in 1..7 and its embedded category is the table's record with that id |
| Catalog.ProductTableWellFormed | lib/data.ts:134-600 | every product has an image, a positive price, a metal from `METAL_TYPES` and lower-case tags |
| Catalog.StoreIsValid | lib/data.ts:32-600 | the concrete store satisfies every invariant the query engine assumes |
| StableSort.SortBySorted | lib/queries.ts:69-79 | with a consistent comparator the sorted array is in comparator order |
| StableSort.SortByStable | lib/queries.ts:69-79 | elements the comparator calls equal keep their input order (the sort is stable) |
| Queries.ComparatorConsistent | lib/queries.ts:69-79 | the listing comparator, for every sort key and direction, is antisymmetric and transitive, so the sort result is determined |
| Queries.GetCategories | lib/queries.ts:14-19 | one entry per category, in table order, each with the number of products whose `categoryId` is that category's id |
| Queries.CategoryCountsSum | lib/queries.ts:14-19 | in a valid store the per-category counts add up to the number of products |
| Queries.GetCategoryBySlug | lib/queries.ts:21-28 | `null` exactly when no category has the slug; otherwise a category with that slug, with its product count |
| Queries.CategoryBySlugFindsIt | lib/queries.ts:21-28 | with distinct slugs, looking up a category's own slug returns that category and its count |
| Queries.GetProductBySlug | lib/queries.ts:93-95 | `null` exactly when no product has the slug; otherwise a stored product with that slug |
| Queries.ProductBySlugFindsIt | lib/queries.ts:93-95 | with distinct slugs, looking up a product's own slug returns that product |
| Queries.TotalPagesCeil | lib/queries.ts:89 | for a non-zero limit the page count `n` is the ceiling of `total / limit` |
| Queries.FilterProducts | lib/queries.ts:59-66 | the chain of conditional filters keeps exactly the products matching every given option, in table order |
| Queries.GetProducts | lib/queries.ts:45-91 | the result is the specification `Listing`: defaults applied, filtered, sorted, sliced and wrapped |
| Queries.MatchingOrdered | lib/queries.ts:59-79 | the sorted matches are a permutation of the filtered products, in comparator order, and products with equal keys keep table order |
| Queries.MatchingMembers | lib/queries.ts:59-79 | a product is among the sorted matches iff it is in the store and passes every given filter |
| Queries.ListingKeyOrder | lib/queries.ts:55-56 | matches are ordered by the chosen key in the chosen direction; by default newest `createdAt` first |
| Queries.ListingTotal | lib/queries.ts:81-90 | `total` counts all matches, not the page; `totalPages` is computed from it; `page` and `limit` echo the options with defaults 1 and 12 |
| Queries.ListingSound | lib/queries.ts:61-66 | every listed product is in the store and passes every given filter |
| Queries.ListingNewestFirst | lib/queries.ts:55-56 | without sort options, every page of the listing is newest first |
| Queries.EmptyStringFilters | lib/queries.ts:61-62 | an empty category slug or metal is falsy and filters nothing, the same as leaving it out |
| Queries.MatchingIgnoresPage | lib/queries.ts:81-82 | the matches do not depend on `page` or `limit` |
| Queries.EnvelopePage | lib/queries.ts:82-89 | for positive page and limit the page is the run `[(page-1)*limit, page*limit)` of the matches clipped to their length, at most `limit` long, and empty past the last page |
| Queries.AllPages | lib/queries.ts:82-89 | pages 1..totalPages, joined, give back every match exactly once, in order |
| Queries.ListingPage | lib/queries.ts:82 | the listing for page `k` is page `k` of the same sorted matches |
| Queries.PagesCoverListing | lib/queries.ts:81-89 | for a positive limit, the listing's own `totalPages` pages cover all matches |
| Queries.ListingPageBounds | lib/queries.ts:82-89 | for positive page and limit, a page has at most `limit` products and is empty past `totalPages` |
| Queries.CategoryListingTotal | lib/queries.ts:14-28 | in a valid store, filtering by a category's slug gives a `total` equal to that category's product count |
| Queries.GetFeaturedProducts | lib/queries.ts:97-101 | the first `limit` featured products in newest-first order, i.e. a prefix of the sorted featured products, `min(limit, #featured)` of them; a featured product is left out only when the cap is full and every kept product is at least as new |
| Queries.GetNewArrivals | lib/queries.ts:103-107 | the first `limit` new arrivals in newest-first order, i.e. a prefix of the sorted new arrivals, `min(limit, #new arrivals)` of them; a new arrival is left out only when the cap is full and every kept product is at least as new |
| Queries.GetRelatedProducts | lib/queries.ts:109-117 | the first `limit` products of the category other than the given product, in newest-first order (a prefix of them sorted), `min(limit, #related)` of them; a related product is left out only when the cap is full and every kept product is at least as new |
| Queries.TopDropsOnlyWhenFull | lib/queries.ts:97-117 | for any filter and comparator, a kept-by-filter product missing from the capped sorted list means the cap was reached and every listed product sorts no later than it |
| Queries.NewestTop | lib/queries.ts:97-138 | the capped newest-first list holds only kept products, in newest-first order, is a prefix of the sorted kept products, and drops a kept product only when full and no newer than anything listed |
| Queries.SearchProducts | lib/queries.ts:121-138 | a short query gives `{[], 0}`; otherwise the first `limit` matching stored products in newest-first order (a prefix of the sorted matches), `min(limit, #matches)` of them, `total` the length of that list; a match is left out only when the cap is full and every kept product is at least as new |
| Queries.ToSuggestion | lib/queries.ts:152 | a suggestion keeps exactly the product's id, name, slug, images and price |
| Queries.GetSearchSuggestions | lib/queries.ts:140-153 | a short query gives `[]`; otherwise the suggestions of the first `limit` matches in name order (a prefix of the matches sorted by name), `min(limit, #matches)` of them; a match is missing only when the cap is full and its name is not smaller than any suggested name |
| Queries.SuggestedProductsProps | lib/queries.ts:140-151 | the products behind the suggestions match, are in name order, are a prefix of the matches sorted by name, and a match is dropped only when the cap is full and its name is not smaller |
| Queries.SuggestionsKeepBest | lib/queries.ts:140-153 | seen through the projection to suggestions: a matching product whose suggestion is missing means a full cap and a name not smaller than any suggested one |
| Queries.SuggestionsAreSortedPrefix | lib/queries.ts:140-153 | the suggestions are, position by position, the projections of the first matches sorted by name |
| Queries.QueryCaseInsensitive | lib/queries.ts:122-124 | lower-casing the query changes neither the short-query guard nor the normalised query |
| Queries.SearchCaseInsensitive | lib/queries.ts:121-153 | both searches give the same answer for a query and its lower-cased form |
| Queries.TagQueryMatches | lib/queries.ts:124-130 | in a valid store a product's own tag, used as the query, passes the guard and matches that product |
| Queries.TagQueryFound | lib/queries.ts:121-138 | searching for a product's own tag returns that product whenever at most twenty products match |
| Queries.SearchFindsWhenRoom | lib/queries.ts:121-138 | with at most twenty matches the full search leaves none out |
| Queries.RingMatchesEarrings | lib/queries.ts:128 | matching is by substring: "ring" matches "Gold Hoop Earrings" in both searches |
| Pagination.PageList | components/Pagination.tsx:16-35 | `null` for at most one page; otherwise the array the loops push is `Window(currentPage, totalPages)` |
| Pagination.SmallWindow | components/Pagination.tsx:25-26 | with two to seven pages the list is exactly 1..totalPages |
| Pagination.LargeWindowShape | components/Pagination.tsx:27-35 | with more than seven pages the list starts at 1, ends at `totalPages` and has at most seven entries |
| Pagination.WindowIncreasing | components/Pagination.tsx:24-35 | page numbers strictly increase and lie in 1..totalPages, for any current page |
| Pagination.WindowGaps | components/Pagination.tsx:24-35 | adjacent numbers are consecutive pages and every "..." sits between numbers more than one apart |
| Pagination.WindowShowsCurrent | components/Pagination.tsx:24-35 | a current page in range always appears in the list |
| Pagination.WindowEllipses | components/Pagination.tsx:29-33 | the left "..." appears iff page 2 is hidden, the right one iff page `totalPages - 1` is hidden |
| Pagination.NavLinksInRange | components/Pagination.tsx:41-42 | Prev is disabled exactly on page 1 and Next exactly on the last page (lines 77-78); an enabled link leads to a page in range |
| Utils.SlugifyAlphabet | lib/utils.ts:11-18 | a slug has only `a-z`, `0-9` and `-`, so the final trim removes nothing |
| Utils.SlugifyNoDoubleHyphen | lib/utils.ts:15-16 | a slug never holds two hyphens in a row |
| Utils.SlugifyIdempotent | lib/utils.ts:11-18 | slugifying a slug changes nothing |
| Utils.SlugifyKeepsLeadingHyphen | lib/utils.ts:15-17 | text starting with a space or hyphen gives a slug starting with `-`: the trim runs after the replacement and removes nothing |
| Utils.SlugifyKeepsTrailingHyphen | lib/utils.ts:15-17 | likewise, text ending with a space or hyphen gives a slug ending with `-` |
| Utils.Truncate | lib/utils.ts:20-23 | text within the length is unchanged; longer text becomes exactly the trim of its first `length` characters (the trimmed slice, by `TrimIsTheTrim` the only one) followed by the three-character suffix as written, so at most `length + 3` characters |
| Utils.TruncateWithEllipsis | lib/utils.ts:20-23 | the same cut followed by the single character "…": exactly the trimmed first `length` characters plus "…", at most `length + 1` characters |
| Utils.TruncateSuffixIsMisencoded | lib/utils.ts:22 | `truncate("abcdef", 2)` is "ab" plus three characters, not "ab…" |
| Utils.KeptClasses | lib/utils.ts:26 | `filter(Boolean)`: every truthy argument's string is kept, everything kept is a non-empty argument string, and no more than the arguments |
| Utils.KeptClassesAppend | lib/utils.ts:26 | keeping distributes over concatenation, so the kept strings stay in argument order |
| Utils.KeptClassesOne | lib/utils.ts:26 | a single argument is kept, as its string, exactly when it is truthy |
| Utils.CnAllFalsy | lib/utils.ts:25-27 | with only falsy arguments `cn` is the empty string |
| Utils.CnWords | lib/utils.ts:25-27 | for space-free class names, splitting `cn`'s result on spaces gives back exactly the kept classes |
| Utils.MetalTypesDistinct | lib/utils.ts:29-36 | six pairwise distinct metal names |
| ProductsRoute.NumberParam | app/api/products/route.ts:9-12 | a number is present exactly when the parameter is given and non-empty, and is then the decimal value of its digits |
| ProductsRoute.NumberParamRoundTrip | app/api/products/route.ts:9-12 | a number written in decimal reads back as itself |
| ProductsRoute.FlagParam | app/api/products/route.ts:13-14 | a flag is `true` exactly for the string "true" and otherwise absent, never `false` |
| ProductsRoute.RequestOptions | app/api/products/route.ts:7-25 | category and metal forwarded exactly when given, with their values; prices read as decimals when given; page and limit the given numbers or the defaults 1 and 12; flags `true` exactly for "true" and never `false`; no sort options |
| ProductsRoute.RouteListsMatching | app/api/products/route.ts:7-27 | every returned product is in the store and obeys each filter the query string asks for |
| ProductsRoute.RouteNewestFirst | app/api/products/route.ts:16-25 | the route never sets sort options, so its pages are newest first |
| ProductsRoute.RouteTotal | app/api/products/route.ts:11-27 | `total` counts all matches; `page` and `limit` are the given numbers or 1 and 12 |
| ProductsRoute.EmptyParamIsAbsent | app/api/products/route.ts:7-14 | an empty parameter gives the same options as a missing one |
| ProductsRoute.EmptyQuery | app/api/products/route.ts:7-27 | with no query string: all products count, sorted newest first, and the first twelve are returned |
| SearchRoute.GetSearchRoute | app/api/search/route.ts:7-20 | a missing or short query gives `{products: [], total: 0}`; otherwise the answer is suggestions iff `mode` is "suggestions" |
| SearchRoute.Dispatch | app/api/search/route.ts:14-20 | suggestions mode calls `getSearchSuggestions(q, 5)`, any other mode `searchProducts(q)` with limit 20 |
| SearchRoute.SuggestionsMode | app/api/search/route.ts:14-17 | at most five suggestions of matching products, in name order; a match is missing only when five are shown and its name is not smaller than any shown |
| SearchRoute.FullMode | app/api/search/route.ts:19-20 | the first twenty matching products newest first (a prefix of the sorted matches), `total` their number; a match is missing only when twenty are shown, none older than it |
| SearchRoute.OtherModesAreFull | app/api/search/route.ts:8 | any mode other than "suggestions" answers like the default mode "full" |
| SearchRoute.RouteCaseInsensitive | app/api/search/route.ts:7-20 | the endpoint ignores the case of the query |

## Left out

- Rendering: the JSX of the pagination control, its CSS classes and `aria` attributes, and `getPageUrl` (components/Pagination.tsx:18-22), which only formats a URL.
- `async`/`Promise`: every query is modelled as a synchronous function of the store; none awaits anything but the static tables.
- The `try`/`catch` branches with status 500, `console.error`, and `NextResponse.json` serialisation. The modelled code paths throw nothing, so these branches are never taken.
- `formatPrice` (lib/utils.ts:3-9), the categories endpoint and the page components. They are outside the modelled core, and `Intl.NumberFormat` is locale data.
- ProductsRoute.NumberParam: `Number()` is modelled only on decimal digit strings (the route's members require `DecimalParams`). Signs, fractions, exponents, whitespace and `NaN` from non-numeric text are not modelled.
- `toLowerCase` is modelled for ASCII letters only, and `localeCompare` as plain lexicographic order on code points (`StrLess`). Locale collation and full Unicode case mapping are not modelled.
- Utils.Truncate, Queries.IsShortQuery, Queries.SearchProducts, Queries.GetSearchSuggestions, JsBuiltins.Slice: a Dafny string is a sequence of Unicode code points, while JavaScript's `length`, `slice` and `trim` count UTF-16 code units. The two agree on text within the Basic Multilingual Plane, which covers the whole catalog; for characters outside it (emoji, say) the model's lengths and cut positions differ from the source's.
- `Date` values are epoch milliseconds (`getTime()`), and image URLs are plain strings.
- `URLSearchParams` is modelled as a map from names to first values. Repeated parameters and percent-decoding are not modelled.
- `getProducts` sorts its local copy in place. The model sorts a value (`SortBy`), so the aliasing-free copy at lib/queries.ts:59 is implicit: `PRODUCTS` is never reordered, because the model has no shared mutable array.
- `featured` or `isNewArrival` set to `false` is modelled in `getProducts`, but the route never produces it (`ProductsRoute.FlagParam`).

## Findings

| source | as written | input that shows it | evidently intended | confidence | as-written member | corrected member |
|---|---|---|---|---|---|---|
| lib/utils.ts:22 | the suffix literal is the three characters U+00E2 U+20AC U+00A6, the UTF-8 bytes of "…" decoded as Windows-1252 | `truncate("abcdef", 2)` gives "ab" followed by three characters (five in all) | a single "…" (U+2026), giving "ab…" | not executed | Utils.TruncateSuffixIsMisencoded | Utils.TruncateWithEllipsis |
