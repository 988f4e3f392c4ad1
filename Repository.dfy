/** `MovieRepository`: network-first with write-through. A successful fetch is
    saved to the cache for its category and returned; on any failure, a failed save
    included, the repository falls back to the cache and rethrows the original
    error only when the cache read gives nil or throws. */
module Repository {
  import opened Wrappers
  import opened Movies
  import Categories
  import MovieCache
  import AppErrors
  import Networking
  import DataSources

  /** How the local store behaves on this call: the error `saveMovies` throws, if
      any, and whether `getMovies` throws. */
  datatype StoreFaults = StoreFaults(saveError: Option<AppErrors.ThrownError>, readThrows: bool)

  /** `moviesDTO.results ?? []`: a page without results is an empty list, not an error. */
  function ResultsOrEmpty(page: MoviesDBRoot): (ms: seq<Movie>)
    ensures page.results.Some? ==> ms == page.results.value
    ensures page.results.None? ==> ms == []
  {
    match page.results
    case Some(ms) => ms
    case None => []
  }

  /** The `catch` block: `try?` turns a throwing read into nil, and any non-nil
      list, the empty one included, is returned in place of the error. */
  function Fallback(error: AppErrors.ThrownError, cached: Option<seq<Movie>>): (r: Result<seq<Movie>, AppErrors.ThrownError>)
    ensures r.Failure? <==> cached.None?
    ensures r.Failure? ==> r.error == error
    ensures r.Success? ==> r.value == cached.value
  {
    match cached
    case Some(ms) => Success(ms)
    case None => Failure(error)
  }

  /** What `try? await localDataSource.getMovies(category:)` yields against table `t`. */
  function CachedRead(t: seq<MovieCache.CachedMovie>, c: Categories.MovieCategory, readThrows: bool, now: int): Option<seq<Movie>> {
    if readThrows then None else Some(MovieCache.FreshMovies(t, c, 3600, now))
  }

  /** `fetchMovies(category:)` against table `t` at time `now`: the result and the
      table afterwards. */
  function FetchMoviesOutcome(t: seq<MovieCache.CachedMovie>, c: Categories.MovieCategory,
                              net: DataSources.Network<MoviesDBRoot>, faults: StoreFaults, now: int)
    : (out: (Result<seq<Movie>, AppErrors.ThrownError>, seq<MovieCache.CachedMovie>))
    // the table is either untouched or holds exactly the returned list saved for `c`
    ensures out.1 == t || (out.0.Success? && out.1 == MovieCache.Saved(t, out.0.value, c, now))
    // a failure never changes the table
    ensures out.0.Failure? ==> out.1 == t
  {
    match DataSources.RemoteFetchMovies(net, c).result
    case Success(page) =>
      if faults.saveError.None? then
        (Success(ResultsOrEmpty(page)), MovieCache.Saved(t, ResultsOrEmpty(page), c, now))
      else
        (Fallback(faults.saveError.value, CachedRead(t, c, faults.readThrows, now)), t)
    case Failure(e) =>
      (Fallback(AppErrors.App(e), CachedRead(t, c, faults.readThrows, now)), t)
  }

  class MovieRepository {
    const local: DataSources.MovieLocalDataSource

    constructor (local: DataSources.MovieLocalDataSource)
      ensures this.local == local
    {
      this.local := local;
    }

    method FetchMovies(c: Categories.MovieCategory, net: DataSources.Network<MoviesDBRoot>, faults: StoreFaults, now: int)
      returns (r: Result<seq<Movie>, AppErrors.ThrownError>)
      modifies local.cache
      ensures (r, local.cache.records) == FetchMoviesOutcome(old(local.cache.records), c, net, faults, now)
    {
      var fetched := DataSources.RemoteFetchMovies(net, c);
      var error: AppErrors.ThrownError;
      match fetched.result {
        case Success(page) =>
          var movies := ResultsOrEmpty(page);
          if faults.saveError.None? {
            local.SaveMovies(movies, c, now);
            return Success(movies);
          }
          error := faults.saveError.value;
        case Failure(e) =>
          error := AppErrors.App(e);
      }
      var cached := if faults.readThrows then None else local.GetMovies(c, now);
      r := Fallback(error, cached);
    }

    /** `fetchMovieDetails(movieId:)`: plain delegation to the remote data source. */
    function FetchMovieDetails(net: DataSources.Network<Movie>, movieId: int): (f: Networking.Fetched<Movie>)
      ensures f == DataSources.RemoteFetchMovieDetails(net, movieId)
    {
      DataSources.RemoteFetchMovieDetails(net, movieId)
    }
  }

  // ---------------------------------------------------------------------------
  // Properties of the fetch policy

  /** Network-first: when the fetch and the save succeed, the result is the fetched
      list (or [] for a page without results), whatever the cache held, and the
      category is written with exactly that list. */
  lemma NetworkFirstWriteThrough(t: seq<MovieCache.CachedMovie>, t': seq<MovieCache.CachedMovie>,
                                 c: Categories.MovieCategory, net: DataSources.Network<MoviesDBRoot>,
                                 faults: StoreFaults, now: int)
    requires DataSources.RemoteFetchMovies(net, c).result.Success? && faults.saveError.None?
    ensures var page := DataSources.RemoteFetchMovies(net, c).result.value;
      && FetchMoviesOutcome(t, c, net, faults, now).0 == Success(ResultsOrEmpty(page))
      && FetchMoviesOutcome(t, c, net, faults, now).0 == FetchMoviesOutcome(t', c, net, faults, now).0
      && FetchMoviesOutcome(t, c, net, faults, now).1 == MovieCache.Saved(t, ResultsOrEmpty(page), c, now)
  {
  }

  /** Write-through: right after a successful fetch and save, the cache reads back,
      for the next hour, the cached copies of exactly the returned movies. */
  lemma WriteThroughReadsBack(t: seq<MovieCache.CachedMovie>, c: Categories.MovieCategory,
                              net: DataSources.Network<MoviesDBRoot>, faults: StoreFaults, now: int, later: int)
    requires DataSources.RemoteFetchMovies(net, c).result.Success? && faults.saveError.None?
    requires now <= later <= now + 3600
    ensures var (r, t2) := FetchMoviesOutcome(t, c, net, faults, now);
      r.Success? && multiset(MovieCache.FreshMovies(t2, c, 3600, later)) == multiset(MovieCache.CachedCopies(r.value))
  {
    var page := DataSources.RemoteFetchMovies(net, c).result.value;
    MovieCache.SaveReplacesCategory(t, ResultsOrEmpty(page), c, now, 3600, later);
  }

  /** Every failure leaves the cache as it was. */
  lemma FailureLeavesCache(t: seq<MovieCache.CachedMovie>, c: Categories.MovieCategory,
                           net: DataSources.Network<MoviesDBRoot>, faults: StoreFaults, now: int)
    requires DataSources.RemoteFetchMovies(net, c).result.Failure? || faults.saveError.Some?
    ensures FetchMoviesOutcome(t, c, net, faults, now).1 == t
  {
  }

  /** The fallback: after a failed fetch or a failed save, a readable cache answers
      with its fresh movies, even when that is the empty list. */
  lemma FallbackServesCache(t: seq<MovieCache.CachedMovie>, c: Categories.MovieCategory,
                            net: DataSources.Network<MoviesDBRoot>, faults: StoreFaults, now: int)
    requires DataSources.RemoteFetchMovies(net, c).result.Failure? || faults.saveError.Some?
    requires !faults.readThrows
    ensures FetchMoviesOutcome(t, c, net, faults, now).0 == Success(MovieCache.FreshMovies(t, c, 3600, now))
  {
  }

  /** The original error reaches the caller exactly when something failed and the
      cache read threw: the remote error when the fetch failed, the save's error when
      only the save did. With the Core Data cache, whose read is never nil, an
      expired or empty cache therefore hides a failed fetch behind an empty list. */
  lemma ErrorSurfacesOnlyWhenReadThrows(t: seq<MovieCache.CachedMovie>, c: Categories.MovieCategory,
                                        net: DataSources.Network<MoviesDBRoot>, faults: StoreFaults, now: int)
    ensures var remote, r := DataSources.RemoteFetchMovies(net, c).result, FetchMoviesOutcome(t, c, net, faults, now).0;
      && (r.Failure? <==> faults.readThrows && (remote.Failure? || faults.saveError.Some?))
      && (r.Failure? && remote.Failure? ==> r.error == AppErrors.App(remote.error))
      && (r.Failure? && remote.Success? ==> r.error == faults.saveError.value)
  {
  }

  /** Offline (or with the monitor undecided), no request is sent, nothing is
      written, and the caller gets the cached movies, or `offline` if the read throws. */
  lemma OfflineServesCache(t: seq<MovieCache.CachedMovie>, c: Categories.MovieCategory,
                           net: DataSources.Network<MoviesDBRoot>, faults: StoreFaults, now: int)
    requires net.monitor != Networking.Connected
    ensures DataSources.RemoteFetchMovies(net, c).sent == []
    ensures FetchMoviesOutcome(t, c, net, faults, now) ==
              (if faults.readThrows then Failure(AppErrors.App(AppErrors.Offline))
               else Success(MovieCache.FreshMovies(t, c, 3600, now)), t)
  {
  }
}
