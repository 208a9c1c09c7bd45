# CinéVerse core logic in Dafny

CinéVerse is a Next.js front end over The Movie Database (TMDB) and Firebase. This project
models the parts of it that decide something, and proves what they promise:

- the field validator `checkValidity` (module `Validation`);
- the sign-in/sign-up form: its rule tables, first-failure messages, live and whole-form validation,
  submit gating and provider error messages (module `Auth`, class `AuthPage`);
- the search bar's query and suggestion state (module `Search`, class `SearchBar`);
- the age-rating badge (module `AgeRating`);
- the movie and series catalogue pages, with their filters, paging, request URLs and, for series, the
  filters kept in localStorage (modules `Catalogue`, `Movies`, `Series`);
- the scrolling card row, the page metadata and the route table (modules `ScrollableCards`,
  `SeoMetadata`, `Routes`).

The JavaScript built-ins these parts rely on are written out over `seq<char>` in `JsBuiltins`:
- `trim`, with the ECMAScript WhiteSpace and LineTerminator code points;
- integer-to-string conversion;
- `parseInt` with no radix (`NaN` is `None`);
- `slice(0, end)`;
- `toUpperCase` on ASCII letters.

Component state that React updates in place is a class. Its fields are the `useState` variables, and
each handler is a method that assigns them. Requests, the Firebase provider and the router are not
called. A method takes what they would return as a parameter (`Option` for "threw"), and returns the
request URL, the provider call or the route it would hand over.

Two behaviours of the code are easy to miss:
- a failed suggestion lookup leaves the previous suggestions in place, it does not clear them;
- submitting a query and choosing a suggestion hide the dropdown but do not empty the suggestion list.

## Model

| member | source | states |
|---|---|---|
| `Validation.CheckValidity` | shared/utility.ts:1-43 | the seven guarded updates return true exactly when every rule present with a truthy parameter holds of the value |
| `Validation.TestClass` | shared/utility.ts:30-40 | the character-class test finds a match exactly when some character of the value is in the class |
| `Validation.PassesByKey` | shared/utility.ts:10-42 | the verdict `Validation.Passes` is the conjunction over the seven keys of "the key is absent or its rule holds" |
| `Validation.KeyHoldsByGuard` | shared/utility.ts:13-40 | each key's verdict is the code's truthiness guard implying its test: non-blank, the length bounds, the email pattern, a character of the class |
| `Validation.EmptyAcceptsAll` | shared/utility.ts:13-40 | a record with no keys accepts every string |
| `Validation.FalsyRuleSkipped` | shared/utility.ts:13-40 | a rule with parameter false or 0 accepts everything alone and leaves the verdict to the other keys |
| `Validation.SingleRule` | shared/utility.ts:10-42 | a one-key record passes exactly when that rule holds |
| `Validation.AndComposition` | shared/utility.ts:10-42 | the verdict on a record equals the AND of the verdicts on its single-rule records |
| `Validation.PresentWith` | pages/auth.tsx:66-68 | setting a key in the record replaces that key's rule and keeps the others |
| `Validation.FromEntriesPresent` | pages/auth.tsx:66-68 | a record built from entries with distinct keys holds exactly the entries' rules |
| `Validation.TablePasses` | pages/auth.tsx:66-69 | the record of a table with distinct keys passes exactly when each row's rule holds |
| `Validation.RequiredRule` | shared/utility.ts:13-15 | `required` fails exactly for the empty and the all-whitespace strings |
| `Validation.LengthRules` | shared/utility.ts:17-23 | `minLength n` holds iff the length is at least n, `maxLength n` iff at most n |
| `Validation.EmailAnywhere` | shared/utility.ts:25-28 | the unanchored pattern accepts any string that contains an address-shaped substring |
| `Validation.EmailExampleExact` | shared/utility.ts:25-28 | "a@b.c" passes the email rule |
| `Validation.EmailExampleInside` | shared/utility.ts:25-28 | "Ab@cd.ef" passes the email rule through its substring "b@cd.ef" |
| `Validation.EmailNeedsAt` | shared/utility.ts:25-28 | a string without '@' fails the email rule |
| `Validation.LocalPartLastChar` | shared/utility.ts:26 | a local part of the pattern ends with a local-part character |
| `Validation.EmailNeedsLocalChar` | shared/utility.ts:25-28 | a string with no lower-case local-part character fails the email rule |
| `Validation.EmailUpperCaseRefused` | shared/utility.ts:25-28 | "USER@EXAMPLE.COM" fails, because the character classes are lower-case only |
| `Validation.CharClassRules` | shared/utility.ts:30-40 | the upper-case, lower-case and special-character rules hold iff some character is in A-Z, a-z, or the listed special set |
| `JsBuiltins.TrimEmptyIffBlank` | shared/utility.ts:14 | `value.trim() === ''` (`JsBuiltins.Trim`) holds exactly for strings made only of whitespace |
| `JsBuiltins.ParseIntOfDecimal` | pages/series.tsx:29 | `parseInt` (`JsBuiltins.ParseInt`) reads back exactly the integer that `toString` (`JsBuiltins.Decimal`) wrote |
| `JsBuiltins.DecimalInjective` | lib/routes.ts:6-8 | distinct integers have distinct decimal texts |
| `JsBuiltins.PrefixedDecimalInjective` | lib/routes.ts:6-8 | `${prefix}${id}` under equal-length prefixes determines both the prefix and the id |
| `JsBuiltins.SliceTo` | components/SearchBar.tsx:45 | `slice(0, end)` is a prefix whose length is end capped at the length, or counted back from the end when negative |
| `JsBuiltins.ToUpper` | components/Card/AgeRating.tsx:75 | upper-casing keeps the length and maps each character to its upper case |
| `JsBuiltins.ToUpperIdempotent` | components/Card/AgeRating.tsx:75 | upper-casing twice is upper-casing once |
| `Auth.FirstFailure` | pages/auth.tsx:78-88 | the message is '' when every rule holds, else the message of the first rule in table order that fails |
| `Auth.GetErrorMessage` | pages/auth.tsx:78-88 | the loop with early return yields exactly the first-failure message |
| `Auth.TablesWellFormed` | pages/auth.tsx:31-51 | each field's table has distinct rule keys and non-empty messages |
| `Auth.EmailTableWellFormed` | pages/auth.tsx:31-34 | the email table has distinct keys and non-empty messages |
| `Auth.PasswordTableWellFormed` | pages/auth.tsx:35-41 | the password table has distinct keys and non-empty messages |
| `Auth.UsernameTableWellFormed` | pages/auth.tsx:42-46 | the username table has distinct keys and non-empty messages |
| `Auth.InvalidIffMessage` | pages/auth.tsx:31-88 | for each field, the full-table check fails iff the first-failure message is non-empty |
| `Auth.FieldCheck` | pages/auth.tsx:64-69 | `checkValidity` on a field's whole record accepts exactly what every row of its table accepts |
| `Auth.FormValidByFields` | pages/auth.tsx:96-119 | the form is valid iff each field of the mode passes and, in signup only, the passwords match |
| `Auth.FieldErrorsKeys` | pages/auth.tsx:98-110 | the error map built by the loop names exactly the failing fields, each with its first-failure message |
| `Auth.FieldErrorsStep` | pages/auth.tsx:98-110 | checking one more field adds its first-failure message exactly when it fails, and leaves the map otherwise |
| `Auth.FieldErrorsMessages` | pages/auth.tsx:98-110 | every message the loop records is the field's first failure and is not empty |
| `Auth.ValidateField` | pages/auth.tsx:98-110 | the callback's verdict is the field's table verdict, and it adds the field's non-empty first-failure message only on a failure |
| `Auth.FormErrorsKeys` | pages/auth.tsx:92-118 | the new error map names exactly the failing fields of the mode plus confirmPassword on a signup mismatch, and never username or confirmPassword at login |
| `Auth.FormErrorsMessages` | pages/auth.tsx:106-116 | each failing field carries its non-empty first-failure message, and a mismatch carries the mismatch message |
| `Auth.ValidIffNoErrors` | pages/auth.tsx:91-120 | `validateForm` returns true exactly when it leaves the error map empty |
| `Auth.IntendedChangedError` | pages/auth.tsx:69-72 | the live error for the new value is '' iff the value passes, otherwise the message of one of its failing rules |
| `Auth.FirstFailureAt` | pages/auth.tsx:78-88 | when row k is the first row that fails, its message is the one returned |
| `Auth.GoodPasswordRows` | pages/auth.tsx:35-41 | "Abcdefgh!" meets each of the five password rules |
| `Auth.GoodPasswordPasses` | pages/auth.tsx:35-41 | "Abcdefgh!" meets every password rule |
| `Auth.BadPasswordRows` | pages/auth.tsx:35-41 | "Abcdefgh" meets the first four password rules and not the special-character rule |
| `Auth.BadPasswordFails` | pages/auth.tsx:35-41 | "Abcdefgh" fails the password table and its first failure is the special-character rule |
| `Auth.ChangedError` | pages/auth.tsx:69-79 | the error `handleChange` records is empty exactly when the new value or the old value passes, so a failing value whose predecessor passed gets no message |
| `Auth.StaleMessageExample` | pages/auth.tsx:69-79 | typing "Abcdefgh!" then "Abcdefgh" leaves an invalid field with no message |
| `Auth.AuthErrorMessage` | pages/auth.tsx:144-149 | the provider error message is never empty |
| `Auth.AuthErrorMessages` | pages/auth.tsx:144-149 | the three known codes get their fixed messages, and exactly the other codes get the generic one |
| `Auth.AuthPage.constructor` | pages/auth.tsx:11-24 | login mode, empty form, no error, no validation errors, not loading |
| `Auth.AuthPage.SelectMode` | pages/auth.tsx:173-181 | the mode buttons set login or signup mode |
| `Auth.AuthPage.HandleChange` | pages/auth.tsx:54-75 | the changed field gets its value, only that field's error is replaced, and it is '' when the new value passes |
| `Auth.AuthPage.ValidateForm` | pages/auth.tsx:91-120 | returns true iff the form is valid, and replaces the error map wholesale with the form's errors |
| `Auth.AuthPage.HandleSubmit` | pages/auth.tsx:123-153 | no provider call unless the form is valid; login or signup by mode; redirect on success; mapped error message on failure |
| `Search.SuggestionTitle` | components/SearchBar.tsx:78 | the title if truthy, else the name if truthy, else '' |
| `Search.DetailRoutes` | components/SearchBar.tsx:86-89 | the suggestion route `Search.DetailRoute`: movie, tv and person go to /movie/id, /serie/id and /artist/id, any other type to /id |
| `Search.DetailRouteInjective` | components/SearchBar.tsx:86-89 | suggestions of known types share a route only when they have the same type and id |
| `Search.LookupUrlCarriesQuery` | components/SearchBar.tsx:41-43 | the lookup URL (`Search.LookupUrl`) holds the query as typed after `&query=`, so distinct queries request distinct URLs |
| `Search.SubmitDisabledIffBlank` | components/SearchBar.tsx:130 | the submit button (`Search.SubmitDisabled`) is disabled iff the query is empty or all whitespace |
| `Search.SearchBar.constructor` | components/SearchBar.tsx:27-29 | empty query, no suggestions, dropdown hidden |
| `Search.SearchBar.OnChange` | components/SearchBar.tsx:108-111 | typing stores the query and opens the dropdown |
| `Search.SearchBar.OnFocus` | components/SearchBar.tsx:112 | focusing opens the dropdown |
| `Search.SearchBar.RunLookup` | components/SearchBar.tsx:33-51 | a blank query clears the list with no request, so the dropdown (`Search.SearchBar.DropdownVisible`, open and non-empty, SearchBar.tsx:139) is hidden; a success keeps the first min(5, n) results in order; a failure keeps the list; at most 5 suggestions are ever held |
| `Search.SearchBar.HandleSubmit` | components/SearchBar.tsx:67-73 | the untrimmed query goes to onSearch and the dropdown hides only when the trimmed query is non-empty; otherwise nothing changes |
| `Search.SearchBar.HandleSuggestionClick` | components/SearchBar.tsx:76-93 | the query and the onSearch argument become the suggestion's title, the dropdown hides, and the route is its detail page |
| `AgeRating.FindFrench` | components/Card/AgeRating.tsx:47 | finds the first entry with country FR, or reports that there is none |
| `AgeRating.FindCertified` | components/Card/AgeRating.tsx:56-60 | finds the first entry with a non-empty certification of the media kind, or reports that there is none |
| `AgeRating.GetRating` | components/Card/AgeRating.tsx:43-70 | the rating shown is never empty |
| `AgeRating.NoResultsNotRated` | components/Card/AgeRating.tsx:44 | no results, or an empty list, give 'NR' |
| `AgeRating.FrenchPreferred` | components/Card/AgeRating.tsx:47-53 | the first FR entry's certification wins when it is non-empty |
| `AgeRating.FirstCertifiedFallback` | components/Card/AgeRating.tsx:56-69 | otherwise the first certified entry in list order is shown, and 'NR' when there is none |
| `AgeRating.RatingComesFromEntries` | components/Card/AgeRating.tsx:43-70 | the rating is 'NR' or the certification of one of the entries |
| `AgeRating.GetRatingInfo` | components/Card/AgeRating.tsx:74-120 | a code has no label exactly when it has no colour class |
| `AgeRating.RatingBuckets` | components/Card/AgeRating.tsx:76-118 | each label is given exactly for the codes of its group, and every other code gets no label |
| `AgeRating.CodeGroupsDisjoint` | components/Card/AgeRating.tsx:76-118 | no code belongs to two groups of the switch |
| `AgeRating.RatingInfoCaseInsensitive` | components/Card/AgeRating.tsx:75 | the bucket depends only on the upper-cased code |
| `AgeRating.LowerCaseCode` | components/Card/AgeRating.tsx:75-112 | 'tv-ma' lands in '-18' |
| `AgeRating.BadgeShapeByCode` | components/Card/AgeRating.tsx:74-128 | the badge (`AgeRating.BadgeShape`) is wide exactly when the upper-cased code is one of U, G, TV-G, NR, 10, ALL, and round for every other code |
| `AgeRating.NotRatedBadge` | components/Card/AgeRating.tsx:76-128 | an unrated title shows 'Tous publics' in the wide badge |
| `Catalogue.QueryStringAppend` | pages/movies.tsx:51 | the query string of joined parameter lists is the join of their query strings |
| `Catalogue.DiscoverParamsYear` | pages/movies.tsx:50-51 | in the parameters `Catalogue.DiscoverParams` of a discover URL (`Catalogue.DiscoverUrl`, also pages/series.tsx:66-67), the year parameter is present exactly when the year filter is set, and then carries that year |
| `Catalogue.DiscoverParamsGenre` | pages/movies.tsx:50-51 | the genre parameter is present exactly when the genre filter is set, and then carries that genre |
| `Catalogue.DiscoverParamsPage` | pages/movies.tsx:50-51 | the page parameter is always last and appears nowhere else |
| `Catalogue.DiscoverUrlEndsWithPage` | pages/movies.tsx:51 | every discover URL ends with `&page=` and the page |
| `Catalogue.SearchUrlCarriesQuery` | pages/movies.tsx:103-105 | the search URL (`Catalogue.SearchUrl`) ends with `&query=` and the query as typed, so distinct queries request distinct URLs |
| `Catalogue.YearOptionsSpec` | pages/movies.tsx:173 | 150 years, 2024 down to 1875, strictly decreasing, and exactly the years in that range |
| `Catalogue.StoreFilter` | pages/series.tsx:103-119 | a set filter is stored under its key, an unset one removes the key, and every other key is kept |
| `Catalogue.StoreFilterRoundTrip` | pages/series.tsx:26-39 | restoring (`Catalogue.SavedFilter`) after storing gives back a set filter, and nothing for an unset one |
| `Catalogue.StoreFilterIndependent` | pages/series.tsx:103-119 | storing one filter does not change what the other key restores |
| `Movies.MoviesPage.constructor` | pages/movies.tsx:19-26 | empty list, loading, no filters, page 1 of 0 |
| `Movies.MoviesPage.FetchMovies` | pages/movies.tsx:43-67 | page 0 does nothing; otherwise the URL carries the filters and page, page 1 replaces the list, later pages append, the page count follows the response, and a failure keeps both |
| `Movies.MoviesPage.LoadMore` | pages/movies.tsx:73-77 | the page goes up by exactly one when below the page count, otherwise nothing changes |
| `Movies.MoviesPage.HandleGenreChange` | pages/movies.tsx:79-84 | empties the list, returns to page 1, clears the year and sets the genre |
| `Movies.MoviesPage.HandleYearChange` | pages/movies.tsx:86-90 | empties the list, returns to page 1 and sets the year, keeping the genre |
| `Movies.MoviesPage.HandleReset` | pages/movies.tsx:92-97 | empties the list, returns to page 1, clears both filters and hides the reset button (`Movies.MoviesPage.ResetVisible`, movies.tsx:180) and the load-more button (`Movies.MoviesPage.LoadMoreVisible`, movies.tsx:217) |
| `Movies.MoviesPage.HandleSearch` | pages/movies.tsx:99-111 | page 1, and the list holds the search results or nothing when the request fails |
| `Series.SeriesPage.constructor` | pages/series.tsx:20-39 | in a browser the filters are parsed back from the store; otherwise they are unset |
| `Series.SeriesPage.FetchSeries` | pages/series.tsx:58-84 | as for movies, with `first_air_date_year` for the year |
| `Series.SeriesPage.LoadMore` | pages/series.tsx:92-96 | the page goes up by exactly one only when below the page count |
| `Series.SeriesPage.HandleGenreChange` | pages/series.tsx:99-108 | page 1, empty list, the year kept, and the stored genre restores to the new genre if set, to nothing otherwise |
| `Series.SeriesPage.HandleYearChange` | pages/series.tsx:111-120 | page 1, empty list, the genre kept, and the stored year restores to the new year if set, to nothing otherwise |
| `Series.SeriesPage.HandleReset` | pages/series.tsx:123-130 | both filters cleared and both keys removed, every other key kept, and the reset button (`Series.SeriesPage.ResetVisible`, series.tsx:227) and the load-more button (`Series.SeriesPage.LoadMoreVisible`, series.tsx:267) hidden |
| `Series.SeriesPage.HandleSearch` | pages/series.tsx:133-145 | page 1, and the list holds the search results or nothing when the request fails |
| `Series.RestoreAfterChanges` | pages/series.tsx:26-39 | a page created after a genre and a year change restores exactly the filters that were set |
| `ScrollableCards.ShownItems` | components/ScrollableCards.tsx:86 | the first `limit` items in order, 15 when the prop is left out, and all but the last `-limit` items for a negative limit |
| `ScrollableCards.PictureReadsOwnField` | components/ScrollableCards.tsx:31-104 | the card's picture (`ScrollableCards.CardPicture`, lines 94-104) is the placeholder exactly when the path of its type is falsy; it never reads (through `ScrollableCards.ImagePath`, lines 31-34) the poster of a person card nor the profile picture of a movie or series card, and two truthy paths give the same image iff they are equal |
| `ScrollableCards.NameAgreesWithSuggestion` | components/ScrollableCards.tsx:37-40 | a card's name (`ScrollableCards.Name`) is the search suggestion's text for the same item when its field is truthy, except for a series or person with a different truthy title, which the suggestion prefers |
| `ScrollableCards.LinkInjective` | components/ScrollableCards.tsx:49-58 | two cards link (`ScrollableCards.Link`) to the same page only when they have the same type and id |
| `ScrollableCards.LinkAgreesWithSearch` | components/ScrollableCards.tsx:49-58 | a card links to the same page as a search suggestion of that type and id |
| `ScrollableCards.PlaceholderIconsDistinct` | components/ScrollableCards.tsx:61-70 | through `ScrollableCards.PlaceholderIcon`, each type has a non-empty icon of its own |
| `SeoMetadata.FormattedDescription` | components/SeoMetadata.tsx:12 | ends with '...', is at most 158 long, keeps the first min(155, n) characters, is d + '...' for short d, and "undefined..." without a description |
| `SeoMetadata.FullTitle` | components/SeoMetadata.tsx:13 | the title followed by the site name |
| `SeoMetadata.DoubleSuffix` | components/SeoMetadata.tsx:13 | a title that already ends with the site name gets it twice, unlike the same title without it |
| `SeoMetadata.DoubleSuffixExample` | components/SeoMetadata.tsx:13 | "Films" with the site name already appended renders with the site name twice, and the intended title does not |
| `SeoMetadata.IntendedFullTitle` | components/SeoMetadata.tsx:13 | ends with the site name, and adds it only when it is missing |
| `SeoMetadata.IntendedFullTitleIdempotent` | components/SeoMetadata.tsx:13 | applying the intended title twice changes nothing |
| `SeoMetadata.IntendedSuffixOptional` | components/SeoMetadata.tsx:13 | the intended title is the same whether or not the page already appended the site name |
| `Routes.AllUnderBase` | lib/routes.ts:2-11 | every route, fixed or built, begins with /cineverse |
| `Routes.DetailRouteInjective` | lib/routes.ts:6-8 | each builder of `Routes.DetailRoute` maps distinct ids to distinct paths, and no two builders produce the same path |
| `Routes.ConstantsDistinct` | lib/routes.ts:2-11 | the fixed routes differ from each other and from every built route |

## Left out

- The lodash debounce timer and its cancellation. `RunLookup` is one lookup that has fired.
- All network requests and JSON decoding. Responses are parameters: `None` means the request threw.
- The race between overlapping responses.
- The transient `loading` and `isLoadingMore` flags while a request is pending. A fetch method shows the state after the request settles.
- React's effect that re-runs the fetch after the page or a filter changes. The caller calls the fetch method again.
- Firebase login and signup, and the router. `HandleSubmit` returns the provider call and whether it redirects.
- The media-type label of a suggestion and the rest of the rendering (layout, class names other than the badge shape).
- Release years built with the JavaScript `Date` engine, and the star rating with its floating-point arithmetic.
- Genre lists, which are fetched and only displayed.
- `parseInt` returning `NaN` is the same `None` as a missing value. Every use of a filter tests its truthiness, and `NaN` and `null` are both falsy.
- `parseInt` above 2^53 loses precision in JavaScript. The model's integers are exact.
- Ids and years are integers. The API's `number` could in principle be fractional, and `toString` of a fraction is not modelled.
- `JsBuiltins.ToUpper`: only ASCII letters are upper-cased. JavaScript also upper-cases other scripts. The ratings codes are ASCII.
- Strings are sequences of Unicode code points, while JavaScript strings are sequences of UTF-16 code units. For a character outside the Basic Multilingual Plane (an emoji, say), JavaScript counts two where the model counts one: "😀😀😀😀" has length 4 here and 8 in JavaScript.
- `Validation.LengthRules`: `minLength` and `maxLength` count code points, not UTF-16 code units, so they differ from the code for characters outside the Basic Multilingual Plane; this carries over to the password and username tables of `Auth`.
- `JsBuiltins.SliceTo`: counts code points, not UTF-16 code units, and never splits a surrogate pair as JavaScript's `slice` can.
- `SeoMetadata.FormattedDescription`: the 155-character cut counts code points, not UTF-16 code units.
- `JsBuiltins.Decimal`: only integers below 10^21 in magnitude are written as JavaScript writes them; larger numbers, which JavaScript writes in exponent notation, do not occur as ids, years, genres or pages.
- The `console.error` logging in the catch blocks (components/SearchBar.tsx:47 and :91, components/Card/AgeRating.tsx:34, pages/movies.tsx:37, :62 and :109, pages/series.tsx:51, :79 and :143). It has no effect on the state.

## Findings

| source | as written | input that shows it | evidently intended | confidence | as-written member | corrected member |
|---|---|---|---|---|---|---|
| pages/auth.tsx:69-79 | the live check decides validity on the new value but asks `getErrorMessage` for the message, which reads the field from the `formData` of the previous render | password field holding "Abcdefgh!" (valid) edited to "Abcdefgh": the field is invalid and its error is set to '' | the message of the first rule the new value fails ("Au moins un caractère spécial requis …") | high; not executed | `Auth.StaleMessageExample` | `Auth.IntendedChangedError` |
| components/SeoMetadata.tsx:13 | the site name is always appended, and pages/movies.tsx:116 and pages/series.tsx:151 pass titles that already end with it | the title "Films" with the site name already appended renders with the site name twice | the site name appears once | medium; not executed | `SeoMetadata.DoubleSuffixExample` | `SeoMetadata.IntendedFullTitle` |

The page methods keep the behaviour as written:
- `Auth.AuthPage.HandleChange` records `Auth.ChangedError`, which takes its message from the old value;
- `SeoMetadata.FullTitle` is the title as rendered.

The corrected definitions carry the intended property, and the pages can use them in place of the written ones.
