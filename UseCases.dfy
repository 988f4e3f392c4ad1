/** The two use cases: single-call façades over the repository. */
module UseCases {
  import opened Wrappers
  import opened Movies
  import Categories
  import AppErrors
  import Networking
  import DataSources
  import Decimal
  import Repository

  /** `FetchMoviesUseCase`: the repository and the category are fixed at construction. */
  datatype FetchMoviesUseCase = FetchMoviesUseCase(repository: Repository.MovieRepository,
                                                   category: Categories.MovieCategory) {

    /** `execute()`: the repository's list or error for the stored category, unchanged. */
    method Execute(net: DataSources.Network<MoviesDBRoot>, faults: Repository.StoreFaults, now: int)
      returns (r: Result<seq<Movie>, AppErrors.ThrownError>)
      modifies repository.local.cache
      ensures (r, repository.local.cache.records)
              == Repository.FetchMoviesOutcome(old(repository.local.cache.records), category, net, faults, now)
    {
      r := repository.FetchMovies(category, net, faults, now);
    }
  }

  /** `FetchMovieDetailsUseCase`: holds only the repository. */
  datatype FetchMovieDetailsUseCase = FetchMovieDetailsUseCase(repository: Repository.MovieRepository) {

    /** `execute(movieId:)`: the repository's movie or error, unchanged, for a request
        that carries the given id; nothing is cached, so each call fetches again. */
    function Execute(net: DataSources.Network<Movie>, movieId: int): (f: Networking.Fetched<Movie>)
      ensures f == repository.FetchMovieDetails(net, movieId)
      ensures |f.sent| == (if net.monitor == Networking.Connected then 1 else 0)
      ensures f.sent != [] ==> Decimal.ParseInt(f.sent[0].url.path[|"/3/movie/"|..]) == Some(movieId)
    {
      repository.FetchMovieDetails(net, movieId)
    }
  }
}
