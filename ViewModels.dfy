/** The two screens' view models. Each publishes `loading` first and then one final
    state built from the use case's answer. */
module ViewModels {
  import Wrappers
  import opened Movies
  import Categories
  import AppErrors
  import Networking
  import DataSources
  import Repository
  import MovieCache
  import UseCases
  import Decimal
  import opened ViewStates

  /** The list screen's final state for a use-case answer: the movies, or the error's
      display text (`errorDescription` for an `AppError`, `localizedDescription`
      otherwise), retryable and without a code. */
  function ListState(r: Wrappers.Result<seq<Movie>, AppErrors.ThrownError>): (s: ViewState<seq<Movie>>)
    ensures !IsLoading(s)
    ensures r.Success? ==> Data(s) == Wrappers.Some(r.value)
    ensures r.Failure? ==> ErrorOf(s) == Wrappers.Some(MakeErrorInfo(AppErrors.DisplayMessage(r.error)))
  {
    match r
    case Success(ms) => Success(ms)
    case Failure(e) => Error(MakeErrorInfo(AppErrors.DisplayMessage(e)))
  }

  /** The list screen builds its state itself, but for an `AppError` it lands on the
      same state `handleResult` would. */
  lemma ListStateAgreesWithHandleResult(prior: ViewState<seq<Movie>>, r: Wrappers.Result<seq<Movie>, AppErrors.AppError>)
    ensures ListState(match r case Success(ms) => Wrappers.Success(ms) case Failure(e) => Wrappers.Failure(AppErrors.App(e)))
            == HandleResult(prior, r)
  {
  }

  /** `MovieListViewModel`. */
  class MovieListViewModel {
    var state: ViewState<seq<Movie>>
    /** Every value `state` has been given, in order: what a subscriber to the
        published state sees. */
    ghost var published: seq<ViewState<seq<Movie>>>
    const title: string
    const category: Categories.MovieCategory
    const fetchMoviesUseCase: UseCases.FetchMoviesUseCase

    constructor (category: Categories.MovieCategory, fetchMoviesUseCase: UseCases.FetchMoviesUseCase)
      ensures state == Loading && published == [Loading]
      ensures this.category == category && this.fetchMoviesUseCase == fetchMoviesUseCase
      ensures title == Categories.RawValue(category)
    {
      state := Loading;
      published := [Loading];
      this.fetchMoviesUseCase := fetchMoviesUseCase;
      this.category := category;
      title := Categories.RawValue(category);
    }

    /** `loadMovies()`: publishes `loading`, runs the use case, then publishes the
        movies or the error. */
    method LoadMovies(net: DataSources.Network<MoviesDBRoot>, faults: Repository.StoreFaults, now: int)
      modifies this, fetchMoviesUseCase.repository.local.cache
      ensures var (r, t) := Repository.FetchMoviesOutcome(old(fetchMoviesUseCase.repository.local.cache.records),
                                                           fetchMoviesUseCase.category, net, faults, now);
        && state == ListState(r)
        && fetchMoviesUseCase.repository.local.cache.records == t
      ensures published == old(published) + [Loading, state]
    {
      state := Loading;
      published := published + [state];
      var r := fetchMoviesUseCase.Execute(net, faults, now);
      match r {
        case Success(movies) =>
          state := Success(movies);
        case Failure(e) =>
          state := Error(MakeErrorInfo(AppErrors.DisplayMessage(e)));
      }
      published := published + [state];
    }
  }

  /** Offline with a readable cache, the list screen shows the cached movies of its
      category, and an empty list rather than an error when none are fresh. */
  lemma OfflineListShowsCache(t: seq<MovieCache.CachedMovie>, c: Categories.MovieCategory,
                              net: DataSources.Network<MoviesDBRoot>, faults: Repository.StoreFaults, now: int)
    requires net.monitor != Networking.Connected && !faults.readThrows
    ensures ListState(Repository.FetchMoviesOutcome(t, c, net, faults, now).0)
            == Success(MovieCache.FreshMovies(t, c, 3600, now))
  {
    Repository.OfflineServesCache(t, c, net, faults, now);
  }

  /** Offline with an unreadable cache, the list screen shows the offline message. */
  lemma OfflineListShowsOfflineError(t: seq<MovieCache.CachedMovie>, c: Categories.MovieCategory,
                                     net: DataSources.Network<MoviesDBRoot>, faults: Repository.StoreFaults, now: int)
    requires net.monitor != Networking.Connected && faults.readThrows
    ensures ListState(Repository.FetchMoviesOutcome(t, c, net, faults, now).0)
            == Error(MakeErrorInfo(AppErrors.ErrorDescription(AppErrors.Offline)))
  {
    Repository.OfflineServesCache(t, c, net, faults, now);
  }

  /** The detail screen's final state for a use-case answer: the detailed movie, or
      the error's description. */
  function DetailState(r: Wrappers.Result<Movie, AppErrors.AppError>): (s: ViewState<Movie>)
    ensures !IsLoading(s)
    ensures r.Success? ==> Data(s) == Wrappers.Some(r.value)
    ensures r.Failure? ==> ErrorOf(s) == Wrappers.Some(MakeErrorInfo(AppErrors.ErrorDescription(r.error)))
  {
    match r
    case Success(m) => Success(m)
    case Failure(e) => Error(MakeErrorInfo(AppErrors.DisplayMessage(AppErrors.App(e))))
  }

  /** Every error the detail fetch can raise is an `AppError`, so the detail screen's
      state is exactly what `handleResult` computes, whatever the state before. */
  lemma DetailStateIsHandleResult(prior: ViewState<Movie>, r: Wrappers.Result<Movie, AppErrors.AppError>)
    ensures DetailState(r) == HandleResult(prior, r)
  {
  }

  /** `MovieDetailViewModel`. */
  class MovieDetailViewModel {
    var state: ViewState<Movie>
    ghost var published: seq<ViewState<Movie>>
    const movie: Movie
    const fetchDetailsUseCase: UseCases.FetchMovieDetailsUseCase

    constructor (movie: Movie, fetchDetailsUseCase: UseCases.FetchMovieDetailsUseCase)
      ensures state == Loading && published == [Loading]
      ensures this.movie == movie && this.fetchDetailsUseCase == fetchDetailsUseCase
    {
      state := Loading;
      published := [Loading];
      this.movie := movie;
      this.fetchDetailsUseCase := fetchDetailsUseCase;
    }

    /** `loadDetails()`: publishes `loading`, fetches the details of the movie the
        screen was opened with, then publishes the detailed movie or the error. */
    method LoadDetails(net: DataSources.Network<Movie>)
      modifies this
      ensures var f := fetchDetailsUseCase.Execute(net, movie.id);
        && state == DetailState(f.result)
        && (f.sent != [] ==> Decimal.ParseInt(f.sent[0].url.path[|"/3/movie/"|..]) == Wrappers.Some(movie.id))
      ensures published == old(published) + [Loading, state]
    {
      state := Loading;
      published := published + [state];
      var f := fetchDetailsUseCase.Execute(net, movie.id);
      match f.result {
        case Success(m) =>
          state := Success(m);
        case Failure(e) =>
          state := Error(MakeErrorInfo(AppErrors.DisplayMessage(AppErrors.App(e))));
      }
      published := published + [state];
    }
  }
}
