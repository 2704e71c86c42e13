/**
 * `GET /api/search` (app/api/search/route.ts): the short-query guard and
 * the choice between full results and suggestions. The JSON serialisation
 * and the 500 branch are not modelled.
 */
module SearchRoute {
  import opened JsBuiltins
  import opened Catalog
  import opened StableSort
  import opened Queries

  /** The two response bodies: `{ products, total }` or an array of suggestions. */
  datatype Response = Results(result: SearchResult) | Suggestions(suggestions: seq<Suggestion>)

  /** `get("q") || ""`. */
  function QueryParam(params: Params): string {
    TextParam(params, "q").GetOr("")
  }

  /** `get("mode") || "full"`. */
  function ModeParam(params: Params): string {
    TextParam(params, "mode").GetOr("full")
  }

  /** The answer for a query and a mode. */
  function Answer(st: Store, q: string, mode: string): Response {
    if q == "" || IsShortQuery(q) then Results(SearchResult([], 0))
    else if mode == "suggestions" then Suggestions(GetSearchSuggestions(st, q, 5))
    else Results(SearchProducts(st, q))
  }

  /** The response body. */
  function GetSearchRoute(st: Store, params: Params): (r: Response)
    ensures IsShortQuery(QueryParam(params)) ==> r == Results(SearchResult([], 0))
    ensures !IsShortQuery(QueryParam(params)) ==>
      (r.Suggestions? <==> "mode" in params && params["mode"] == "suggestions")
  {
    Answer(st, QueryParam(params), ModeParam(params))
  }

  /** A long enough `q` is forwarded untrimmed: to the suggestions with limit 5, otherwise to the full search with limit 20. */
  lemma Dispatch(st: Store, params: Params)
    requires "q" in params && !IsShortQuery(params["q"])
    ensures "mode" in params && params["mode"] == "suggestions" ==>
      GetSearchRoute(st, params) == Suggestions(GetSearchSuggestions(st, params["q"], 5))
    ensures !("mode" in params && params["mode"] == "suggestions") ==>
      GetSearchRoute(st, params) == Results(SearchProducts(st, params["q"], 20))
  {
    assert params["q"] != "";
  }

  /** The answer ignores the case of the query. */
  lemma AnswerCaseInsensitive(st: Store, q: string, mode: string)
    ensures Answer(st, ToLower(q), mode) == Answer(st, q, mode)
  {
    QueryCaseInsensitive(q);
    if !IsShortQuery(q) {
      assert ToLower(q) != "";
      if mode == "suggestions" {
        SearchCaseInsensitive(st, q, 5);
      } else {
        SearchCaseInsensitive(st, q, 20);
      }
    }
  }

  /**
   * In suggestions mode: at most five suggestions, in name order, each from
   * a matching product; a match is missing only when five are shown, none
   * with a larger name.
   */
  lemma SuggestionsMode(st: Store, params: Params)
    requires "mode" in params && params["mode"] == "suggestions"
    requires !IsShortQuery(QueryParam(params))
    ensures var r := GetSearchRoute(st, params);
      var q := NormalizeQuery(QueryParam(params));
      && r.Suggestions?
      && |r.suggestions| == Min(5, Count(st.products, SuggestionMatcher(q)))
      && (forall i, j :: 0 <= i < j < |r.suggestions| ==> !StrLess(r.suggestions[j].name, r.suggestions[i].name))
      && (forall s :: s in r.suggestions ==>
            exists p :: p in st.products && SuggestionMatches(p, q) && s == ToSuggestion(p))
      && (forall p :: p in st.products && SuggestionMatches(p, q) && ToSuggestion(p) !in r.suggestions ==>
            && |r.suggestions| == 5
            && forall s :: s in r.suggestions ==> !StrLess(p.name, s.name))
  {
    var r := GetSearchRoute(st, params).suggestions;
    var q := NormalizeQuery(QueryParam(params));
    var top := SuggestedProducts(st, q, 5);
    forall s | s in r
      ensures exists p :: p in st.products && SuggestionMatches(p, q) && s == ToSuggestion(p)
    {
      var i :| 0 <= i < |r| && r[i] == s;
      assert top[i] in top;
    }
  }

  /**
   * In any other mode: the first twenty matching products, newest first,
   * `total` their number; a match is missing only when twenty are shown,
   * none older than it.
   */
  lemma FullMode(st: Store, params: Params)
    requires !("mode" in params && params["mode"] == "suggestions")
    requires !IsShortQuery(QueryParam(params))
    ensures var r := GetSearchRoute(st, params);
      var q := NormalizeQuery(QueryParam(params));
      && r.Results?
      && r.result.total == |r.result.products| == Min(20, Count(st.products, SearchMatcher(q)))
      && NewestFirstOrder(r.result.products)
      && (forall p :: p in r.result.products ==> p in st.products && SearchMatches(p, q))
      && r.result.products == SortBy(Filter(st.products, SearchMatcher(q)), NewestFirst())[..|r.result.products|]
      && (forall p :: p in st.products && SearchMatches(p, q) && p !in r.result.products ==>
            && |r.result.products| == 20
            && forall x :: x in r.result.products ==> x.createdAt >= p.createdAt)
  {
  }

  /** Any mode other than "suggestions", missing or not, answers like "full". */
  lemma OtherModesAreFull(st: Store, params: Params, mode: string)
    requires mode != "suggestions"
    ensures GetSearchRoute(st, params["mode" := mode]) == GetSearchRoute(st, params - {"mode"})
  {
    assert QueryParam(params["mode" := mode]) == QueryParam(params - {"mode"});
  }

  /** The query is case-insensitive: lower-casing `q` changes nothing. */
  lemma RouteCaseInsensitive(st: Store, params: Params)
    requires "q" in params
    ensures GetSearchRoute(st, params["q" := ToLower(params["q"])]) == GetSearchRoute(st, params)
  {
    var lowered := params["q" := ToLower(params["q"])];
    assert QueryParam(lowered) == ToLower(QueryParam(params));
    assert ModeParam(lowered) == ModeParam(params);
    AnswerCaseInsensitive(st, QueryParam(params), ModeParam(params));
  }
}
