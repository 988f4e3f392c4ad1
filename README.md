# MovieDB: a Dafny model of the fetch, cache and fallback pipeline

This project models the data-access core of the MovieDB iOS app, a client for
The Movie Database API:

- the error taxonomy `AppError`, its user-facing descriptions, and the mapping of HTTP
  status codes into it;
- the endpoints (`APIEndpoint`, `MovieCategory`) and the `URLRequest` each one builds,
  with a bearer `Authorization` header (section 2.1 of RFC 6750);
- `NetworkManager.fetch`: offline check, bad-URL check, transport errors, status
  validation and decoding, in that order;
- the Core Data movie cache: a table of `CachedMovie` rows, read with a
  category-and-freshness predicate and rewritten category by category;
- the local and remote data sources, the `MovieRepository` fetch policy and the two
  use cases;
- `ViewState`, the list and detail view models, and the `ErrorManager` toast queue.

Time is a number of seconds and is passed in as `now`. The network is a parameter
(`Network`) made of four parts: the monitor's status, the API key, the session
(request to transport outcome) and the decoder (body to decoded value or decoding
error). `Fetched.sent` records which requests reached the session. Swift's
`async`/`await` is modelled as plain sequential code.

The repository follows the code in `MovieRepository.swift`, which is network-first
with write-through:

1. fetch from the network;
2. on success, save the results for the category and return them;
3. on any failure (a failed save included), return what `try? getMovies` yields;
4. rethrow the original error only when that read is nil or throws.

The Core Data cache never returns nil: it
returns the `compactMap` of the fresh rows, so an expired or empty category reads
as `[]`. A failed fetch against such a cache therefore yields `[]`, not the error
(`Repository.ErrorSurfacesOnlyWhenReadThrows`).

`MovieRepository.swift` as shown has no `fetchMovieDetails`, although
`MovieRepositoryProtocol` declares it and the detail use case calls it. It is
modelled as plain delegation to `MovieRemoteDataSource.fetchMovieDetails`.

Modules, one per file:

| module | models |
|---|---|
| `Wrappers` | `Option`, `Result`, `Outcome` |
| `Decimal` | integer text as written by Swift string interpolation |
| `AppErrors` | `AppError`, descriptions, `with(context:)`, `==`, `validateStatusCode` |
| `Categories` | `MovieCategory` |
| `Endpoints` | `APIEndpoint`, `HTTPMethod`, the base URL, `urlRequest` |
| `Networking` | `NetworkManager.fetch` and `decode` |
| `Movies` | `Movie`, `Genre`, `MoviesDBRoot`, the formatted properties |
| `MovieCache` | `CachedMovie`, `update(with:category:)`, `toDomainModel()`, `CoreDataMovieCache` |
| `DataSources` | `MovieLocalDataSource`, `MovieRemoteDataSource` |
| `Repository` | `MovieRepository` and its fetch policy |
| `UseCases` | `FetchMoviesUseCase`, `FetchMovieDetailsUseCase` |
| `ViewStates` | `ViewState`, `ErrorInfo` |
| `ViewModels` | `MovieListViewModel`, `MovieDetailViewModel` |
| `ErrorManagement` | `ErrorManager` |

## Model

| member | source | states |
|---|---|---|
| Decimal.NatRoundTrip | MovieDB/Core/Networking/APIEndpoint.swift:17 | reading back the decimal text of a natural number gives that number |
| Decimal.IntRoundTrip | MovieDB/Core/Networking/APIEndpoint.swift:17 | reading back the interpolated text of any integer, negative ones included, gives that integer |
| Decimal.IntToStringInjective | MovieDB/Core/Networking/APIEndpoint.swift:17 | different integers are written as different texts |
| AppErrors.ErrorDescription | MovieDB/Core/Networking/AppError.swift:22-43 | `unknown` is described by its own message; every other case has a non-empty text |
| AppErrors.ClientErrorMessage | MovieDB/Core/Networking/AppError.swift:45-53 | codes other than 400, 401, 404 and 429 get "Request failed (code N)." with N in decimal |
| AppErrors.ServerDescriptionIgnoresCode | MovieDB/Core/Networking/AppError.swift:34-35 | every server error has the same description, whatever its code |
| AppErrors.ClientDescriptionInjective | MovieDB/Core/Networking/AppError.swift:45-53 | two generic client-error descriptions are equal only for the same code |
| AppErrors.DisplayMessage | MovieDB/Features/Listing/Presentation/ViewModels/MovieListViewModel.swift:28-33 | an `AppError` shows its `errorDescription`; any other error shows its `localizedDescription` |
| AppErrors.WithContext | MovieDB/Core/Networking/AppError.swift:58-65 | `decodingFailed` becomes `unknown` with no code, described as "Decoding failed: " + context; every other error is returned as it is |
| AppErrors.WithContextIdempotent | MovieDB/Core/Networking/AppError.swift:58-65 | attaching a second context changes nothing |
| AppErrors.Equal | MovieDB/Core/Networking/AppError.swift:69-86 | the hand-written `==` holds exactly when both sides are the same case with the same associated values |
| AppErrors.ValidateStatusCode | MovieDB/Core/Networking/AppError.swift:90-107 | passes exactly for 200 through 299; otherwise it fails with an error from which `StatusCodeOf` reads the given code back (`invalidAPIKey` and `rateLimitExceeded` carry no payload, the code being implied by the case) |
| AppErrors.ValidateStatusCodeCases | MovieDB/Core/Networking/AppError.swift:91-105 | 401 is `invalidAPIKey`, 429 is `rateLimitExceeded`, other 4xx codes are `clientError`, 5xx codes are `serverError`, and everything else outside 2xx is `unknown` with "Unexpected HTTP status: N" |
| AppErrors.ValidateStatusCodeInjective | MovieDB/Core/Networking/AppError.swift:90-107 | different failing status codes give different errors |
| AppErrors.ValidateFollowsStatusClass | MovieDB/Core/Networking/AppError.swift:91-105 | the outcome follows the status class of section 15 of RFC 9110: success iff 2xx, a client-side error iff 4xx, a server error iff 5xx, `unknown` otherwise |
| Categories.FromRawValue | MovieDB/Listing/Domain/Enums/MovieCategory.swift:10-13 | a raw value is recognised only as the category that has it |
| Categories.RawValue | MovieDB/Listing/Domain/Enums/MovieCategory.swift:10-13 | body only: each case's raw value ("Now Playing", "Popular", "Upcoming"); its meaning is stated by Categories.FromRawValue and Categories.RawValueRoundTrip |
| Categories.RawValueRoundTrip | MovieDB/Listing/Domain/Enums/MovieCategory.swift:10-13 | every category is recovered from its raw value |
| Categories.Id | MovieDB/Listing/Domain/Enums/MovieCategory.swift:15-17 | the identifier names the category it belongs to |
| Categories.Endpoint | MovieDB/Listing/Domain/Enums/MovieCategory.swift:27-33 | every category's path lies under "/movie/" |
| Categories.Icon | MovieDB/Listing/Domain/Enums/MovieCategory.swift:19-25 | body only: each case's SF Symbol name ("film", "flame", "calendar"); Categories.CategoryMapsInjective states the names are distinct |
| Categories.AllCasesComplete | MovieDB/Listing/Domain/Enums/MovieCategory.swift:10-13 | `allCases` lists every category exactly once |
| Categories.CategoryMapsInjective | MovieDB/Listing/Domain/Enums/MovieCategory.swift:19-33 | distinct categories have distinct raw values, icons and endpoint paths |
| Endpoints.Path | MovieDB/Core/Networking/APIEndpoint.swift:14-18 | a list endpoint's path is its category path verbatim; a detail path is "/movie/" followed by text that reads back as the id |
| Endpoints.Method | MovieDB/Core/Networking/APIEndpointContract.swift:17 | body only: every endpoint is a GET; Endpoints.UrlRequest states that the request carries that method |
| Endpoints.BearerCredentials | MovieDB/Core/Networking/APIEndpoint.swift:32-35 | the header value is "Bearer " followed by the key, unchanged |
| Endpoints.UrlRequest | MovieDB/Core/Networking/APIEndpoint.swift:21-38 | a request exists iff the URL components form a URL; it uses the base scheme and host, the base path followed by the endpoint path, the endpoint's method, and exactly one header, the bearer `Authorization` |
| Endpoints.ConfiguredRequestsForm | MovieDB/Core/Configuration.swift:11 | against the configured base URL every endpoint yields a request, to api.themoviedb.org, with path "/3" followed by the endpoint path |
| Endpoints.DetailRequestExample | MovieDB/Core/Networking/APIEndpoint.swift:17 | the detail request for movie 5 goes to "/3/movie/5" |
| Networking.MapUrlError | MovieDB/Core/Networking/NetworkManager.swift:48-55 | a URL error is `offline` iff its code is not-connected or connection-lost; otherwise it is `unknown` with its description |
| Networking.Fetch | MovieDB/Core/Networking/NetworkManager.swift:28-61 | any monitor status but connected fails as `offline` without a request; `badURL` iff connected with no request or the session throws `badURL`; the session is called at most once; success iff a 2xx HTTP response whose body decodes, with the decoded value; `emptyData` arises only when the session throws it |
| Networking.Receive | MovieDB/Core/Networking/NetworkManager.swift:38-46 | success iff the response is HTTP with a 2xx status and the body decodes, carrying the decoded value; a failing status surfaces as the error its code maps to; once a response has arrived the failure is never offline, badURL or emptyData |
| Networking.FetchFailureCases | MovieDB/Core/Networking/NetworkManager.swift:38-60 | after the request is sent: a non-HTTP response is "Invalid response type", a failing status rethrows the validator's error, an undecodable 2xx body is `decodingFailed`, URL errors are mapped, an `AppError` the session throws is rethrown unchanged, and any other error becomes `unknown` with its description |
| Movies.RuntimeParts | MovieDB/Features/Listing/Domain/Entities/Movie.swift:29-30 | hours times 60 plus minutes is the runtime; minutes lie strictly between -60 and 60; both truncate toward zero |
| Movies.FormattedRuntime | MovieDB/Features/Listing/Domain/Entities/Movie.swift:27-32 | absent exactly when the runtime is absent |
| Movies.RuntimeTextRoundTrip | MovieDB/Features/Listing/Domain/Entities/Movie.swift:27-32 | the "Hh Mm" text determines the runtime it was made from, negative runtimes included |
| Movies.RuntimeTextExamples | MovieDB/Features/Listing/Domain/Entities/Movie.swift:27-32 | 120 minutes is "2h 0m" and 140 is "2h 20m" |
| Movies.RemoveUS | MovieDB/Features/Listing/Domain/Entities/Movie.swift:36 | removing "US" never lengthens the text, and leaves a text without "US" as it is |
| Movies.FormattedAmount | MovieDB/Features/Listing/Domain/Entities/Movie.swift:34-44 | a formatted amount exists iff the amount exists and the currency formatter accepts it |
| Movies.FormattedBudget | MovieDB/Features/Listing/Domain/Entities/Movie.swift:34-38 | no budget, no formatted budget |
| Movies.FormattedRevenue | MovieDB/Features/Listing/Domain/Entities/Movie.swift:40-44 | no revenue, no formatted revenue |
| Movies.FormattedReleaseDate | MovieDB/Features/Listing/Domain/Entities/Movie.swift:46-60 | a date that parses as yyyy-MM-dd is shown in long style; any other text is shown unchanged |
| MovieCache.ToDomainModel | MovieDB/Core/CoreData/CoreDataMovieCache.swift:121-145 | a row converts to a movie iff its title, release date and overview are present, keeping its id and poster path |
| MovieCache.Update | MovieDB/Core/CoreData/CoreDataMovieCache.swift:109-119 | the record belongs to the category and is fresh for a read at the save time; it keeps the id and always has a title and release date, and has an overview exactly when the movie has one, so (MovieCache.CacheRoundTrip) it reads back exactly then |
| MovieCache.CacheRoundTrip | MovieDB/Core/CoreData/CoreDataMovieCache.swift:109-145 | a movie stored and read back is the cached copy (poster path as subtitle, release date as original title, missing vote as 0, detail fields dropped), or nothing when it had no overview |
| MovieCache.FreshMoviesMembership | MovieDB/Core/CoreData/CoreDataMovieCache.swift:38-50 | a movie is read iff some row of the category, updated no earlier than now minus the interval, converts to it |
| MovieCache.ReadAfterSave | MovieDB/Core/CoreData/CoreDataMovieCache.swift:53-65 | within the interval after a save, the category reads back exactly the cached copies of the saved list, in the model's table order |
| MovieCache.SaveReplacesCategory | MovieDB/Core/CoreData/CoreDataMovieCache.swift:53-65 | a save replaces the category: nothing from before it survives, so the read holds the saved movies with their multiplicities and no others |
| MovieCache.SaveLeavesOtherCategories | MovieDB/Core/CoreData/CoreDataMovieCache.swift:69-82 | saving one category changes no other category's read |
| MovieCache.ExpiredSaveReadsEmpty | MovieDB/Core/CoreData/CoreDataMovieCache.swift:41-45 | once more than the interval has passed since a save, the category reads as the empty list |
| MovieCache.CoreDataMovieCache.constructor | MovieDB/Core/CoreData/CoreDataMovieCache.swift:26-35 | a store created fresh is empty; rows left by earlier launches of the shared store are any initial table, which every lemma covers |
| MovieCache.CoreDataMovieCache.GetMovies | MovieDB/Core/CoreData/CoreDataMovieCache.swift:38-50 | never nil: the converted fresh rows of the category |
| MovieCache.CoreDataMovieCache.DeleteMovies | MovieDB/Core/CoreData/CoreDataMovieCache.swift:69-82 | the table loses exactly the rows of the category, the others keeping their order |
| MovieCache.CoreDataMovieCache.SaveMovies | MovieDB/Core/CoreData/CoreDataMovieCache.swift:53-65 | the category's rows are deleted and one new row per movie, stamped with the save time, is appended |
| DataSources.MovieLocalDataSource.constructor | MovieDB/Features/Listing/Data/DataSources/Local/MovieLocalDataSource.swift:14-16 | the data source wraps the given cache |
| DataSources.MovieLocalDataSource.GetMovies | MovieDB/Features/Listing/Data/DataSources/Local/MovieLocalDataSource.swift:18-20 | the cache's read with the fixed one-hour interval |
| DataSources.MovieLocalDataSource.SaveMovies | MovieDB/Features/Listing/Data/DataSources/Local/MovieLocalDataSource.swift:22-24 | the cache's save, unchanged |
| DataSources.RemoteFetchMovies | MovieDB/Listing/Data/DataSources/Remote/MovieRemoteDataSource.swift:17-20 | one GET request when connected, none otherwise, to "/3" plus the category path, with the bearer header |
| DataSources.RemoteFetchMovieDetails | MovieDB/Listing/Data/DataSources/Remote/MovieRemoteDataSource.swift:22-24 | one request when connected, none otherwise, whose path is "/3/movie/" followed by text that reads back as the movie id |
| Repository.ResultsOrEmpty | MovieDB/Listing/Data/Repositories/MovieRepository.swift:22 | a page without results counts as the empty list |
| Repository.Fallback | MovieDB/Listing/Data/Repositories/MovieRepository.swift:27-31 | the original error is rethrown iff the cache read gave nothing; otherwise the cached list is returned, the empty list included |
| Repository.FetchMoviesOutcome | MovieDB/Listing/Data/Repositories/MovieRepository.swift:19-33 | the table afterwards is either unchanged or exactly the returned list saved for the category; a failure never changes the table |
| Repository.MovieRepository.constructor | MovieDB/Listing/Data/Repositories/MovieRepository.swift:14-17 | the repository keeps the given local data source |
| Repository.MovieRepository.FetchMovies | MovieDB/Listing/Data/Repositories/MovieRepository.swift:19-33 | the result and the new table are those of the network-first policy |
| Repository.MovieRepository.FetchMovieDetails | MovieDB/Features/Listing/Domain/Repositories/MovieRepositoryProtocol.swift:12 | the remote detail fetch, unchanged |
| Repository.NetworkFirstWriteThrough | MovieDB/Listing/Data/Repositories/MovieRepository.swift:21-26 | when the fetch and the save succeed, the fetched list is returned whatever the cache held, and exactly that list is saved |
| Repository.WriteThroughReadsBack | MovieDB/Listing/Data/Repositories/MovieRepository.swift:24 | for an hour after a successful fetch, the category reads back the cached copies of exactly the returned movies |
| Repository.FailureLeavesCache | MovieDB/Listing/Data/Repositories/MovieRepository.swift:19-33 | a failed fetch or save leaves the table unchanged |
| Repository.FallbackServesCache | MovieDB/Listing/Data/Repositories/MovieRepository.swift:27-30 | after a failure, a readable cache answers with its fresh movies, even an empty list |
| Repository.ErrorSurfacesOnlyWhenReadThrows | MovieDB/Listing/Data/Repositories/MovieRepository.swift:27-31 | the caller sees an error iff something failed and the cache read threw; it is the remote error, or the save's error when only the save failed |
| Repository.OfflineServesCache | MovieDB/Listing/Data/Repositories/MovieRepository.swift:19-33 | offline, no request is sent and nothing is written; the answer is the cached movies, or `offline` if the read throws |
| UseCases.FetchMoviesUseCase.Execute | MovieDB/Features/Listing/Domain/UseCases/FetchMoviesUseCase.swift:19-21 | the repository's answer and table for the stored category |
| UseCases.FetchMovieDetailsUseCase.Execute | MovieDB/Features/Details/Domain/UseCases/FetchMovieDetailsUseCase.swift:21-23 | the repository's answer, from a request whose path carries the movie id |
| ViewStates.MakeErrorInfo | MovieDB/Core/Utilities/ViewState.swift:20-24 | retryable by default, with no code |
| ViewStates.IsLoading | MovieDB/Core/Utilities/ViewState.swift:30-32 | body only: true exactly in the loading state; ViewStates.AccessorsExclusive relates it to `data` and `error` |
| ViewStates.Data | MovieDB/Core/Utilities/ViewState.swift:34-36 | a value exactly in the success state, and that value is the success payload |
| ViewStates.ErrorOf | MovieDB/Core/Utilities/ViewState.swift:38-40 | error info exactly in the error state, and that info is the one the state carries |
| ViewStates.AccessorsExclusive | MovieDB/Core/Utilities/ViewState.swift:29-41 | exactly one of `isLoading`, `data` and `error` answers, except in the idle state, where none does |
| ViewStates.StartLoading | MovieDB/Core/Utilities/ViewState.swift:45-47 | any state becomes loading |
| ViewStates.HandleResult | MovieDB/Core/Utilities/ViewState.swift:49-59 | loading is over; a success shows its data; a failure shows its description, retryable |
| ViewModels.ListState | MovieDB/Features/Listing/Presentation/ViewModels/MovieListViewModel.swift:24-37 | not loading; the movies on success; otherwise the error's display message, retryable, with no code |
| ViewModels.ListStateAgreesWithHandleResult | MovieDB/Features/Listing/Presentation/ViewModels/MovieListViewModel.swift:28-35 | for an `AppError` the list screen reaches the state `handleResult` computes |
| ViewModels.MovieListViewModel.constructor | MovieDB/Features/Listing/Presentation/ViewModels/MovieListViewModel.swift:11-20 | the screen starts loading, titled with the category's raw value |
| ViewModels.MovieListViewModel.LoadMovies | MovieDB/Features/Listing/Presentation/ViewModels/MovieListViewModel.swift:22-38 | publishes loading and then the final state of the use case's answer; the cache changes as the repository changes it |
| ViewModels.OfflineListShowsCache | MovieDB/Features/Listing/Presentation/ViewModels/MovieListViewModel.swift:24-26 | offline with a readable cache, the list shows the category's fresh cached movies |
| ViewModels.OfflineListShowsOfflineError | MovieDB/Core/Networking/NetworkManager.swift:29-32 | offline with an unreadable cache, the list shows the offline message |
| ViewModels.DetailState | MovieDB/Details/Presentation/ViewModels/MovieDetailViewModel.swift:24-31 | not loading; the detailed movie on success; otherwise the error's description |
| ViewModels.DetailStateIsHandleResult | MovieDB/Details/Presentation/ViewModels/MovieDetailViewModel.swift:27-31 | the detail screen's final state is what `handleResult` computes, from any prior state |
| ViewModels.MovieDetailViewModel.constructor | MovieDB/Details/Presentation/ViewModels/MovieDetailViewModel.swift:12-19 | the screen starts loading, for the given movie |
| ViewModels.MovieDetailViewModel.LoadDetails | MovieDB/Details/Presentation/ViewModels/MovieDetailViewModel.swift:21-33 | publishes loading and then the final state of the fetch for the screen's own movie id |
| ErrorManagement.ErrorManager.constructor | MovieDB/Core/Utilities/ErrorManager.swift:21-25 | nothing on screen and nothing queued |
| ErrorManagement.ErrorManager.ProcessNextError | MovieDB/Core/Utilities/ErrorManager.swift:51-56 | the queue head is promoted only when nothing is on screen and something waits; the pending sequence is unchanged |
| ErrorManagement.ErrorManager.Show | MovieDB/Core/Utilities/ErrorManager.swift:27-34 | the error joins the end of the pending sequence and is on screen at once if the screen was empty |
| ErrorManagement.ErrorManager.Dismiss | MovieDB/Core/Utilities/ErrorManager.swift:36-42 | the error on screen leaves and the next pending one, if any, takes its place |
| ErrorManagement.ErrorManager.DismissAll | MovieDB/Core/Utilities/ErrorManager.swift:44-49 | nothing is left on screen or queued |
| ErrorManagement.ScreenShowsOldestPending | MovieDB/Core/Utilities/ErrorManager.swift:51-56 | the error on screen is the earliest shown error not yet gone, and the queue holds the later ones in the order shown |

## Left out

- Views, navigation, image loading and the toast's rendering: they present state and hold no logic.
- `NetworkMonitor`'s internals: its status is an input.
- The `ErrorManager.shared.show(.offline)` call inside `fetch`: a side effect on the global toast queue. `ErrorManager` is modelled on its own.
- `ErrorManager`'s `DispatchQueue.main.async` hops and the `Timer` that dismisses after `duration`: each call runs to completion in turn, and the timer firing is `Dismiss` called from outside.
- `ErrorManagement.ErrorManager.DismissAll`: one atomic step. In the source, `dismissAll` clears the queue and then runs `dismiss()` as a second main-queue hop (ErrorManager.swift:44-48), so a `show` queued between the two hops is promoted and then cleared at once; the model does not capture that interleaving.
- `ViewModels.MovieDetailViewModel.LoadDetails`: finishes on return. In the source, `loadDetails` wraps its body in a `Task {}` (MovieDetailViewModel.swift:22) and returns before even `.loading` is published; the model does not capture the caller observing the state before the task runs.
- JSON decoding and `configureDecoder`: the decoder is a parameter that yields a value or a decoding error.
- The `print` calls in `decode` and in the older view models: console output only.
- `URLComponents` beyond its nil rule. With a host, a non-empty path must start with "/"; without one, the path must not start with "//". Percent-encoding and query items are out.
- `NumberFormatter` and `DateFormatter` output: the currency formatter and the date parser and printer are parameters.
- Movies.FormattedBudget: states only what follows from the code around the formatter, because the formatter's output is a parameter.
- Movies.FormattedRevenue: states only what follows from the code around the formatter, for the same reason.
- Core Data's machinery: contexts, `perform`, persistent stores and the `fatalError` on a failed store load.
- Save and fetch failures inside the store are outside `CoreDataMovieCache`. The repository receives them as `StoreFaults`. A failed save leaves the table unchanged, although a real store could keep the deletion and lose the insertions.
- The order Core Data returns rows in. The model reads rows in table order; `MovieCache.SaveReplacesCategory` states the read by multiset and `MovieCache.ReadAfterSave` by sequence.
- Dates: `Date()` is the `now` parameter in seconds. `voteAverage` is a `real` that is only copied or defaulted to 0.
- `Int64(movie.id)` conversion: ids are unbounded integers, and 64-bit truncation cannot occur on the 64-bit targets the app runs on.
- `Configuration.apiKey` is read from the process environment; it is the `apiKey` parameter.
- The older duplicate files (the first `MovieListViewModel`, the `Listing/` copies of `Movie` and `MovieListView`, and the earlier `FetchMovieDetailsUseCase`) are superseded drafts.
- The freshness boundary "fresh one second before the interval ends, absent one second after it" is not one lemma. `MovieCache.SaveReplacesCategory` states the inclusive side (up to and including `now + interval`); `MovieCache.ExpiredSaveReadsEmpty` states the exclusive side.
- `ViewState.isRetryable` always answers true, so `ErrorInfo.retryable` is always true in the model.
