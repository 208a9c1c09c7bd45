/**
 * The series catalogue page, pages/series.tsx: the same list, page and
 * filter state as the movie page, with two differences: a genre change
 * keeps the year, and both filters are saved in the browser's key/value
 * store and restored from it when the page is created. The store is the
 * `store` field.
 */
module Series {
  import opened Wrappers
  import opened JsBuiltins
  import opened Catalogue

  datatype Serie = Serie(id: int, name: string)

  const GenreItem := "selectedGenre"
  const YearItem := "selectedYear"

  class SeriesPage {
    var series: seq<Serie>
    var loading: bool
    var isLoadingMore: bool
    var selectedGenre: Option<int>
    var selectedYear: Option<int>
    var page: int
    var totalPages: int
    var store: map<string, string>

    /** Every transition keeps the page at 1 or beyond. */
    predicate Valid()
      reads this
    {
      page >= 1
    }

    /** The "load more" button is shown. */
    predicate LoadMoreVisible()
      reads this
    {
      !loading && !isLoadingMore && page < totalPages && |series| > 0
    }

    /** The reset button is shown: a genre or a year is selected. */
    predicate ResetVisible()
      reads this
    {
      IsSet(selectedGenre) || IsSet(selectedYear)
    }

    /**
     * The initial state. `inBrowser` is `typeof window !== 'undefined'`;
     * only in a browser are the filters read back from `storage`.
     */
    constructor (inBrowser: bool, storage: map<string, string>)
      ensures Valid()
      ensures series == [] && loading && !isLoadingMore && page == 1 && totalPages == 0
      ensures store == storage
      ensures selectedGenre == if inBrowser then SavedFilter(storage, GenreItem) else None
      ensures selectedYear == if inBrowser then SavedFilter(storage, YearItem) else None
    {
      series := [];
      loading := true;
      isLoadingMore := false;
      page := 1;
      totalPages := 0;
      store := storage;
      selectedGenre := if inBrowser then SavedFilter(storage, GenreItem) else None;
      selectedYear := if inBrowser then SavedFilter(storage, YearItem) else None;
    }

    /**
     * `fetchSeries(selectedGenre || undefined)`, run to completion.
     * `response` is `None` when the request or its decoding throws.
     */
    method FetchSeries(apiKey: string, response: Option<DiscoverResponse<Serie>>) returns (url: Option<string>)
      modifies this`series, this`totalPages, this`loading, this`isLoadingMore
      ensures page == 0 ==> url == None && unchanged(this)
      ensures page != 0 ==> url == Some(DiscoverUrl("tv", apiKey, SerieYearKey, selectedYear, selectedGenre, page))
      ensures page != 0 ==> !loading && !isLoadingMore
      ensures page != 0 && response.None? ==> series == old(series) && totalPages == old(totalPages)
      ensures page != 0 && response.Some? ==> totalPages == response.value.totalPages
      ensures page == 1 && response.Some? ==> series == response.value.results
      ensures page != 0 && page != 1 && response.Some? ==> series == old(series) + response.value.results
    {
      if page == 0 {
        return None;
      }
      var isFirstLoad := page == 1;
      if isFirstLoad { loading := true; } else { isLoadingMore := true; }
      url := Some(DiscoverUrl("tv", apiKey, SerieYearKey, selectedYear, selectedGenre, page));
      if response.Some? {
        var data := response.value;
        series := if isFirstLoad then data.results else series + data.results;
        totalPages := data.totalPages;
      }
      loading := false;
      isLoadingMore := false;
    }

    /** `loadMore` */
    method LoadMore()
      requires Valid()
      modifies this`page
      ensures Valid()
      ensures old(page) < totalPages ==> page == old(page) + 1
      ensures old(page) >= totalPages ==> page == old(page)
    {
      if page < totalPages {
        page := page + 1;
      }
    }

    /**
     * `handleGenreChange`: page 1, nothing shown, the year kept, and the
     * genre saved (or its item removed when it is not set).
     */
    method HandleGenreChange(genreId: Option<int>)
      modifies this`series, this`page, this`selectedGenre, this`store
      ensures Valid()
      ensures series == [] && page == 1 && selectedGenre == genreId && selectedYear == old(selectedYear)
      ensures store == StoreFilter(old(store), GenreItem, genreId)
      ensures SavedFilter(store, GenreItem) == if IsSet(genreId) then genreId else None
      ensures SavedFilter(store, YearItem) == SavedFilter(old(store), YearItem)
    {
      series := [];
      page := 1;
      selectedGenre := genreId;
      StoreFilterRoundTrip(store, GenreItem, genreId);
      store := StoreFilter(store, GenreItem, genreId);
    }

    /** `handleYearChange`: page 1, nothing shown, and the year saved or its item removed. */
    method HandleYearChange(year: Option<int>)
      modifies this`series, this`page, this`selectedYear, this`store
      ensures Valid()
      ensures series == [] && page == 1 && selectedYear == year && selectedGenre == old(selectedGenre)
      ensures store == StoreFilter(old(store), YearItem, year)
      ensures SavedFilter(store, YearItem) == if IsSet(year) then year else None
      ensures SavedFilter(store, GenreItem) == SavedFilter(old(store), GenreItem)
    {
      series := [];
      page := 1;
      selectedYear := year;
      StoreFilterRoundTrip(store, YearItem, year);
      store := StoreFilter(store, YearItem, year);
    }

    /** `handleReset`: both filters cleared and both items removed; other items are kept. */
    method HandleReset()
      modifies this`series, this`page, this`selectedGenre, this`selectedYear, this`store
      ensures Valid()
      ensures series == [] && page == 1 && selectedGenre == None && selectedYear == None
      ensures store == old(store) - {GenreItem, YearItem}
      ensures SavedFilter(store, GenreItem) == None && SavedFilter(store, YearItem) == None
      ensures !ResetVisible() && !LoadMoreVisible()
    {
      series := [];
      page := 1;
      selectedGenre := None;
      selectedYear := None;
      store := store - {GenreItem};
      store := store - {YearItem};
    }

    /**
     * `handleSearch(query, 'tv')`: the list is emptied and the page reset,
     * then filled with the search results when the request succeeds.
     */
    method HandleSearch(query: string, apiKey: string, response: Option<seq<Serie>>) returns (url: string)
      modifies this`series, this`page
      ensures Valid()
      ensures url == SearchUrl("tv", apiKey, query)
      ensures page == 1
      ensures series == if response.Some? then response.value else []
    {
      series := [];
      page := 1;
      url := SearchUrl("tv", apiKey, query);
      if response.Some? {
        series := response.value;
      }
    }
  }

  /**
   * A page created after a genre and a year change restores the filters
   * those changes left set.
   */
  method RestoreAfterChanges(storage: map<string, string>, genreId: Option<int>, year: Option<int>)
    returns (restored: SeriesPage)
    ensures restored.selectedGenre == if IsSet(genreId) then genreId else None
    ensures restored.selectedYear == if IsSet(year) then year else None
  {
    var before := new SeriesPage(true, storage);
    before.HandleGenreChange(genreId);
    before.HandleYearChange(year);
    restored := new SeriesPage(true, before.store);
  }
}
