/**
 * The movie catalogue page, pages/movies.tsx: the list shown, the page
 * reached and the page count, and the genre and year filters. Requests are
 * outside the model: a fetch method takes the response as a parameter and
 * returns the URL it requested. React re-runs the fetch after the page or a
 * filter changes; here the caller calls `FetchMovies` again.
 */
module Movies {
  import opened Wrappers
  import opened JsBuiltins
  import opened Catalogue

  datatype Movie = Movie(id: int, title: string)

  class MoviesPage {
    var movies: seq<Movie>
    var loading: bool
    var isLoadingMore: bool
    var selectedGenre: Option<int>
    var selectedYear: Option<int>
    var page: int
    var totalPages: int

    /** Every transition keeps the page at 1 or beyond. */
    predicate Valid()
      reads this
    {
      page >= 1
    }

    /** The "Charger plus de films" button is shown. */
    predicate LoadMoreVisible()
      reads this
    {
      !loading && !isLoadingMore && page < totalPages && |movies| > 0
    }

    /** The reset button is shown: a genre or a year is selected. */
    predicate ResetVisible()
      reads this
    {
      IsSet(selectedGenre) || IsSet(selectedYear)
    }

    constructor ()
      ensures Valid()
      ensures movies == [] && loading && !isLoadingMore
      ensures selectedGenre == None && selectedYear == None
      ensures page == 1 && totalPages == 0
    {
      movies := [];
      loading := true;
      isLoadingMore := false;
      selectedGenre := None;
      selectedYear := None;
      page := 1;
      totalPages := 0;
    }

    /**
     * `fetchMovies(selectedGenre || undefined)`, run to completion.
     * `response` is `None` when the request or its decoding throws. Page 1
     * replaces the list, later pages append to it.
     */
    method FetchMovies(apiKey: string, response: Option<DiscoverResponse<Movie>>) returns (url: Option<string>)
      modifies this`movies, this`totalPages, this`loading, this`isLoadingMore
      ensures page == 0 ==> url == None && unchanged(this)
      ensures page != 0 ==> url == Some(DiscoverUrl("movie", apiKey, MovieYearKey, selectedYear, selectedGenre, page))
      ensures page != 0 ==> !loading && !isLoadingMore
      ensures page != 0 && response.None? ==> movies == old(movies) && totalPages == old(totalPages)
      ensures page != 0 && response.Some? ==> totalPages == response.value.totalPages
      ensures page == 1 && response.Some? ==> movies == response.value.results
      ensures page != 0 && page != 1 && response.Some? ==> movies == old(movies) + response.value.results
    {
      if page == 0 {
        return None;
      }
      var isFirstLoad := page == 1;
      if isFirstLoad { loading := true; } else { isLoadingMore := true; }
      url := Some(DiscoverUrl("movie", apiKey, MovieYearKey, selectedYear, selectedGenre, page));
      if response.Some? {
        var data := response.value;
        movies := if isFirstLoad then data.results else movies + data.results;
        totalPages := data.totalPages;
      }
      loading := false;
      isLoadingMore := false;
    }

    /** `loadMore` */
    method LoadMore()
      requires Valid()
      modifies this`page
      ensures Valid()
      ensures old(page) < totalPages ==> page == old(page) + 1
      ensures old(page) >= totalPages ==> page == old(page)
    {
      if page < totalPages {
        page := page + 1;
      }
    }

    /** `handleGenreChange`: a new genre starts over on page 1 and clears the year. */
    method HandleGenreChange(genreId: Option<int>)
      modifies this`movies, this`page, this`selectedYear, this`selectedGenre
      ensures Valid()
      ensures movies == [] && page == 1 && selectedYear == None && selectedGenre == genreId
    {
      movies := [];
      page := 1;
      selectedYear := None;
      selectedGenre := genreId;
    }

    /** `handleYearChange`: a new year starts over on page 1 and keeps the genre. */
    method HandleYearChange(year: Option<int>)
      modifies this`movies, this`page, this`selectedYear
      ensures Valid()
      ensures movies == [] && page == 1 && selectedYear == year
    {
      movies := [];
      page := 1;
      selectedYear := year;
    }

    /** `handleReset`: both filters cleared, back to page 1 with nothing shown. */
    method HandleReset()
      modifies this`movies, this`page, this`selectedGenre, this`selectedYear
      ensures Valid()
      ensures movies == [] && page == 1 && selectedGenre == None && selectedYear == None
      ensures !ResetVisible() && !LoadMoreVisible()
    {
      movies := [];
      page := 1;
      selectedGenre := None;
      selectedYear := None;
    }

    /**
     * `handleSearch(query, 'movie')`: the list is emptied and the page reset,
     * then filled with the search results when the request succeeds.
     */
    method HandleSearch(query: string, apiKey: string, response: Option<seq<Movie>>) returns (url: string)
      modifies this`movies, this`page
      ensures Valid()
      ensures url == SearchUrl("movie", apiKey, query)
      ensures page == 1
      ensures movies == if response.Some? then response.value else []
    {
      movies := [];
      page := 1;
      url := SearchUrl("movie", apiKey, query);
      if response.Some? {
        movies := response.value;
      }
    }
  }
}
