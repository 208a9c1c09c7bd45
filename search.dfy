/**
 * The search bar of components/SearchBar.tsx: the query typed so far, the
 * suggestion list filled by a lookup, and whether the dropdown is open. The
 * lodash debounce timer and the network are outside the model: one fired
 * lookup is a method whose response is a parameter, and what is handed to
 * `onSearch` and to the router is returned.
 */
module Search {
  import opened Wrappers
  import opened JsBuiltins

  /** How many lookup results the dropdown keeps. */
  const MaxSuggestions := 5

  const SearchEndpoint := "https://api.themoviedb.org/3/search/multi?api_key="

  /** One entry of the multi-search response. */
  datatype SearchResult = SearchResult(id: int, name: Option<string>, title: Option<string>, mediaType: string)

  /** A string is truthy when it is present and non-empty. */
  predicate Truthy(s: Option<string>) {
    s.Some? && s.value != ""
  }

  /** `suggestion.title || suggestion.name || ''` */
  function SuggestionTitle(s: SearchResult): (t: string)
    ensures Truthy(s.title) ==> t == s.title.value
    ensures !Truthy(s.title) && Truthy(s.name) ==> t == s.name.value
    ensures t == "" <==> !Truthy(s.title) && !Truthy(s.name)
  {
    if Truthy(s.title) then s.title.value
    else if Truthy(s.name) then s.name.value
    else ""
  }

  /** The detail page prefix chosen by `media_type`; '' for any other type. */
  function BaseUrl(mediaType: string): string {
    if mediaType == "movie" then "/movie"
    else if mediaType == "tv" then "/serie"
    else if mediaType == "person" then "/artist"
    else ""
  }

  /** `${baseUrl}/${suggestion.id}` */
  function DetailRoute(s: SearchResult): string {
    BaseUrl(s.mediaType) + "/" + Decimal(s.id)
  }

  predicate KnownMediaType(mediaType: string) {
    mediaType == "movie" || mediaType == "tv" || mediaType == "person"
  }

  /** Movies go to /movie/id, series to /serie/id, people to /artist/id; anything else to /id. */
  lemma DetailRoutes(s: SearchResult)
    ensures s.mediaType == "movie" ==> DetailRoute(s) == "/movie/" + Decimal(s.id)
    ensures s.mediaType == "tv" ==> DetailRoute(s) == "/serie/" + Decimal(s.id)
    ensures s.mediaType == "person" ==> DetailRoute(s) == "/artist/" + Decimal(s.id)
    ensures !KnownMediaType(s.mediaType) ==> DetailRoute(s) == "/" + Decimal(s.id)
  {
  }

  /** Two suggestions of known types lead to the same page only when they have the same type and id. */
  lemma DetailRouteInjective(a: SearchResult, b: SearchResult)
    requires KnownMediaType(a.mediaType) && KnownMediaType(b.mediaType)
    ensures DetailRoute(a) == DetailRoute(b) ==> a.mediaType == b.mediaType && a.id == b.id
  {
    var p, q := BaseUrl(a.mediaType) + "/", BaseUrl(b.mediaType) + "/";
    assert DetailRoute(a) == p + Decimal(a.id);
    assert DetailRoute(b) == q + Decimal(b.id);
    if DetailRoute(a) == DetailRoute(b) {
      assert p[1] == DetailRoute(a)[1] == DetailRoute(b)[1] == q[1];
      assert a.mediaType == b.mediaType;
      PrefixedDecimalInjective(p, q, a.id, b.id);
    }
  }

  /** The request URL of a lookup; the query is inserted as typed. */
  function LookupUrl(apiKey: string, query: string): string {
    SearchEndpoint + apiKey + "&query=" + query + "&language=fr-FR"
  }

  /**
   * The query sits untouched between `&query=` and the language parameter:
   * it can be cut back out of the URL, so distinct queries request distinct
   * URLs under the same key.
   */
  lemma LookupUrlCarriesQuery(apiKey: string, query: string, other: string)
    ensures var url, start := LookupUrl(apiKey, query), |SearchEndpoint + apiKey + "&query="|;
      start + |query| <= |url| && url[start..start + |query|] == query
    ensures LookupUrl(apiKey, query) == LookupUrl(apiKey, other) ==> query == other
  {
    var head := SearchEndpoint + apiKey + "&query=";
    assert LookupUrl(apiKey, query) == head + query + "&language=fr-FR";
    assert LookupUrl(apiKey, other) == head + other + "&language=fr-FR";
    assert (head + query + "&language=fr-FR")[|head|..|head| + |query|] == query;
    assert (head + other + "&language=fr-FR")[|head|..|head| + |other|] == other;
  }

  /** `!searchQuery.trim()`: the submit button is disabled. */
  predicate SubmitDisabled(query: string) {
    Trim(query) == []
  }

  /** The button is disabled exactly for the empty and the all-whitespace queries. */
  lemma SubmitDisabledIffBlank(query: string)
    ensures SubmitDisabled(query) <==> IsBlank(query)
  {
    TrimEmptyIffBlank(query);
  }

  class SearchBar {
    var searchQuery: string
    var suggestions: seq<SearchResult>
    var showSuggestions: bool

    /** The list never holds more than a lookup keeps. */
    predicate Valid()
      reads this
    {
      |suggestions| <= MaxSuggestions
    }

    /** The dropdown is rendered. */
    predicate DropdownVisible()
      reads this
    {
      showSuggestions && |suggestions| > 0
    }

    constructor ()
      ensures Valid()
      ensures searchQuery == "" && suggestions == [] && !showSuggestions
    {
      searchQuery := "";
      suggestions := [];
      showSuggestions := false;
    }

    /** The input's `onChange`. */
    method OnChange(value: string)
      modifies this`searchQuery, this`showSuggestions
      ensures searchQuery == value && showSuggestions
    {
      searchQuery := value;
      showSuggestions := true;
    }

    /** The input's `onFocus`. */
    method OnFocus()
      modifies this`showSuggestions
      ensures showSuggestions
    {
      showSuggestions := true;
    }

    /**
     * One fired lookup for `query`. `response` is what the request yields:
     * `Some(results)` on success, `None` when the fetch or the decoding
     * throws. The request issued, if any, is returned.
     */
    method RunLookup(query: string, apiKey: string, response: Option<seq<SearchResult>>) returns (request: Option<string>)
      requires Valid()
      modifies this`suggestions
      ensures Valid()
      ensures IsBlank(query) ==> request == None && suggestions == [] && !DropdownVisible()
      ensures !IsBlank(query) ==> request == Some(LookupUrl(apiKey, query))
      ensures !IsBlank(query) && response.Some? ==>
        |suggestions| == (if |response.value| < MaxSuggestions then |response.value| else MaxSuggestions)
        && suggestions <= response.value
      ensures !IsBlank(query) && response.None? ==> suggestions == old(suggestions)
    {
      TrimEmptyIffBlank(query);
      if Trim(query) == [] {
        suggestions := [];
        return None;
      }
      request := Some(LookupUrl(apiKey, query));
      match response
      case Some(results) =>
        suggestions := SliceTo(results, MaxSuggestions);
      case None =>
    }

    /** `handleSubmit`: the query handed to `onSearch`, if any. */
    method HandleSubmit() returns (searched: Option<string>)
      modifies this`showSuggestions
      ensures SubmitDisabled(searchQuery) ==> searched == None && showSuggestions == old(showSuggestions)
      ensures !SubmitDisabled(searchQuery) ==> searched == Some(searchQuery) && !showSuggestions && !DropdownVisible()
    {
      if Trim(searchQuery) != [] {
        searched := Some(searchQuery);
        showSuggestions := false;
      } else {
        searched := None;
      }
    }

    /**
     * `handleSuggestionClick`: the title goes into the input and to
     * `onSearch`, the dropdown closes, and the detail page is the route.
     */
    method HandleSuggestionClick(s: SearchResult) returns (searched: string, route: string)
      modifies this`searchQuery, this`showSuggestions
      ensures searchQuery == searched == SuggestionTitle(s)
      ensures !showSuggestions && !DropdownVisible()
      ensures route == DetailRoute(s)
    {
      var title := SuggestionTitle(s);
      searchQuery := title;
      searched := title;
      showSuggestions := false;
      route := DetailRoute(s);
    }
  }
}
