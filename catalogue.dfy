/**
 * What the movie and series catalogue pages (pages/movies.tsx,
 * pages/series.tsx) share: truthiness of a filter, the discover request
 * with its query parameters, the search request, the year options of the
 * year filter, and the saving and restoring of a filter in a key/value
 * store (the browser's localStorage).
 */
module Catalogue {
  import opened Wrappers
  import opened JsBuiltins

  /**
   * A filter is `number | null`; it takes effect when it is truthy, that
   * is, present and non-zero.
   */
  predicate IsSet(filter: Option<int>) {
    filter.Some? && filter.value != 0
  }

  const ApiBase := "https://api.themoviedb.org/3/"

  /** The year parameter of the movie discover request. */
  const MovieYearKey := "primary_release_year"
  /** The year parameter of the series discover request. */
  const SerieYearKey := "first_air_date_year"
  const GenreKey := "with_genres"
  const PageKey := "page"

  /** One `&key=value` pair of a query string. */
  datatype Param = Param(key: string, value: string)

  /** `&key=value` */
  function ParamText(p: Param): string {
    "&" + p.key + "=" + p.value
  }

  /** The query string, each pair introduced by '&'. */
  function QueryString(params: seq<Param>): string {
    if params == [] then "" else ParamText(params[0]) + QueryString(params[1..])
  }

  lemma {:induction false} QueryStringAppend(a: seq<Param>, b: seq<Param>)
    ensures QueryString(a + b) == QueryString(a) + QueryString(b)
    decreases |a|
  {
    if a == [] {
      assert a + b == b;
    } else {
      QueryStringAppend(a[1..], b);
      assert (a + b)[0] == a[0] && (a + b)[1..] == a[1..] + b;
      var head := ParamText(a[0]);
      assert QueryString(a + b) == head + (QueryString(a[1..]) + QueryString(b));
    }
  }

  /**
   * The parameters after the API key of a discover request: language and
   * adult filter, the year if set, the genre if set, and the page last.
   */
  function DiscoverParams(yearKey: string, year: Option<int>, genre: Option<int>, page: int): seq<Param> {
    [Param("language", "fr-FR"), Param("include_adult", "false")]
    + (if IsSet(year) then [Param(yearKey, Decimal(year.value))] else [])
    + (if IsSet(genre) then [Param(GenreKey, Decimal(genre.value))] else [])
    + [Param(PageKey, Decimal(page))]
  }

  /** The URL of a discover request; `kind` is 'movie' or 'tv'. */
  function DiscoverUrl(kind: string, apiKey: string, yearKey: string, year: Option<int>, genre: Option<int>, page: int): string {
    ApiBase + "discover/" + kind + "?api_key=" + apiKey + QueryString(DiscoverParams(yearKey, year, genre, page))
  }

  /** A year key that no other discover parameter uses. */
  predicate DistinctYearKey(yearKey: string) {
    yearKey != "language" && yearKey != "include_adult" && yearKey != GenreKey && yearKey != PageKey
  }

  /** `DiscoverParams` with its optional middle made explicit. */
  lemma DiscoverParamsShape(yearKey: string, year: Option<int>, genre: Option<int>, page: int)
    ensures var y := if IsSet(year) then [Param(yearKey, Decimal(year.value))] else [];
      var g := if IsSet(genre) then [Param(GenreKey, Decimal(genre.value))] else [];
      DiscoverParams(yearKey, year, genre, page)
        == [Param("language", "fr-FR"), Param("include_adult", "false")] + y + g + [Param(PageKey, Decimal(page))]
  {
  }

  /** The year parameter is present exactly when the year filter is set, and then carries that year. */
  lemma DiscoverParamsYear(yearKey: string, year: Option<int>, genre: Option<int>, page: int)
    requires DistinctYearKey(yearKey)
    ensures var ps := DiscoverParams(yearKey, year, genre, page);
      && (IsSet(year) <==> exists i | 0 <= i < |ps| :: ps[i].key == yearKey)
      && (forall i | 0 <= i < |ps| && ps[i].key == yearKey :: ps[i].value == Decimal(year.value))
  {
    DiscoverParamsShape(yearKey, year, genre, page);
    var ps := DiscoverParams(yearKey, year, genre, page);
    if IsSet(year) {
      assert ps[2].key == yearKey;
    }
  }

  /** The genre parameter is present exactly when the genre filter is set, and then carries that genre. */
  lemma DiscoverParamsGenre(yearKey: string, year: Option<int>, genre: Option<int>, page: int)
    requires DistinctYearKey(yearKey)
    ensures var ps := DiscoverParams(yearKey, year, genre, page);
      && (IsSet(genre) <==> exists i | 0 <= i < |ps| :: ps[i].key == GenreKey)
      && (forall i | 0 <= i < |ps| && ps[i].key == GenreKey :: ps[i].value == Decimal(genre.value))
  {
    DiscoverParamsShape(yearKey, year, genre, page);
    var ps := DiscoverParams(yearKey, year, genre, page);
    if IsSet(genre) {
      assert ps[|ps| - 2].key == GenreKey;
    }
  }

  /** The page is always the last parameter and appears only there. */
  lemma DiscoverParamsPage(yearKey: string, year: Option<int>, genre: Option<int>, page: int)
    requires DistinctYearKey(yearKey)
    ensures var ps := DiscoverParams(yearKey, year, genre, page);
      && ps[|ps| - 1] == Param(PageKey, Decimal(page))
      && (forall i | 0 <= i < |ps| - 1 :: ps[i].key != PageKey)
  {
    DiscoverParamsShape(yearKey, year, genre, page);
  }

  /** Every discover URL ends with the page parameter. */
  lemma DiscoverUrlEndsWithPage(kind: string, apiKey: string, yearKey: string, year: Option<int>, genre: Option<int>, page: int)
    ensures var url := DiscoverUrl(kind, apiKey, yearKey, year, genre, page);
      var tail := "&page=" + Decimal(page);
      |tail| <= |url| && url[|url| - |tail|..] == tail
  {
    var ps := DiscoverParams(yearKey, year, genre, page);
    var init := ps[..|ps| - 1];
    assert ps == init + [Param(PageKey, Decimal(page))];
    QueryStringAppend(init, [Param(PageKey, Decimal(page))]);
    assert QueryString([Param(PageKey, Decimal(page))]) == "&page=" + Decimal(page);
  }

  /** What a discover request yields: one page of results and the page count. */
  datatype DiscoverResponse<T> = DiscoverResponse(results: seq<T>, totalPages: int)

  /** The URL of a title search; `kind` is 'movie' or 'tv', the query goes in as typed. */
  function SearchUrl(kind: string, apiKey: string, query: string): string {
    ApiBase + "search/" + kind + "?api_key=" + apiKey + "&language=fr-FR&query=" + query
  }

  /**
   * The query is the last parameter of a search URL, as typed: it is the
   * URL's tail, so distinct queries request distinct URLs for the same kind.
   */
  lemma SearchUrlCarriesQuery(kind: string, apiKey: string, query: string, other: string)
    ensures var url, tail := SearchUrl(kind, apiKey, query), "&query=" + query;
      |tail| <= |url| && url[|url| - |tail|..] == tail
    ensures SearchUrl(kind, apiKey, query) == SearchUrl(kind, apiKey, other) ==> query == other
  {
    var head := ApiBase + "search/" + kind + "?api_key=" + apiKey + "&language=fr-FR";
    assert SearchUrl(kind, apiKey, query) == head + "&query=" + query;
    assert SearchUrl(kind, apiKey, other) == head + "&query=" + other;
    assert (head + "&query=" + query)[|head| + 7..] == query;
    assert (head + "&query=" + other)[|head| + 7..] == other;
  }

  /** `Array.from({ length: 150 }, (_, i) => 2024 - i)` */
  function YearOptions(): seq<int> {
    seq(150, i => 2024 - i)
  }

  /** 150 years from 2024 down to 1875, newest first, each once. */
  lemma YearOptionsSpec()
    ensures |YearOptions()| == 150
    ensures YearOptions()[0] == 2024 && YearOptions()[149] == 1875
    ensures forall i, j | 0 <= i < j < 150 :: YearOptions()[i] > YearOptions()[j]
    ensures forall y :: y in YearOptions() <==> 1875 <= y <= 2024
  {
    var ys := YearOptions();
    forall y | 1875 <= y <= 2024 ensures y in ys {
      assert ys[2024 - y] == y;
    }
  }

  // ---------------------------------------------------------------------
  // The key/value store
  // ---------------------------------------------------------------------

  /**
   * `saved ? parseInt(saved) : null` on `getItem(key)`: a missing or empty
   * item, and an item that does not parse, give no filter.
   */
  function SavedFilter(store: map<string, string>, key: string): Option<int> {
    if key in store && store[key] != "" then ParseInt(store[key]) else None
  }

  /**
   * `if (x) setItem(key, x.toString()) else removeItem(key)`.
   */
  function StoreFilter(store: map<string, string>, key: string, filter: Option<int>): (updated: map<string, string>)
    ensures forall k | k != key :: (k in updated <==> k in store) && (k in store ==> updated[k] == store[k])
    ensures key in updated <==> IsSet(filter)
  {
    if IsSet(filter) then store[key := Decimal(filter.value)] else store - {key}
  }

  /** What is stored is what is restored; a filter that is not set is not restored. */
  lemma StoreFilterRoundTrip(store: map<string, string>, key: string, filter: Option<int>)
    ensures SavedFilter(StoreFilter(store, key, filter), key) == if IsSet(filter) then filter else None
  {
    if IsSet(filter) {
      ParseIntOfDecimal(filter.value);
    }
  }

  /** Storing under one key does not change what another key restores. */
  lemma StoreFilterIndependent(store: map<string, string>, key: string, other: string, filter: Option<int>)
    requires other != key
    ensures SavedFilter(StoreFilter(store, key, filter), other) == SavedFilter(store, other)
  {
  }
}
