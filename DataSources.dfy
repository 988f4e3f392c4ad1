/** The two data sources: the local one over the Core Data cache with a fixed
    one-hour expiry, and the remote one binding the network manager to the list
    and detail endpoints. */
module DataSources {
  import opened Wrappers
  import opened Movies
  import Categories
  import MovieCache
  import Endpoints
  import Networking
  import Decimal

  class MovieLocalDataSource {
    const cache: MovieCache.CoreDataMovieCache
    /** One hour, in seconds. */
    const expirationInterval: int := 3600

    constructor (cache: MovieCache.CoreDataMovieCache)
      ensures this.cache == cache
    {
      this.cache := cache;
    }

    /** `getMovies(category:)`: the cache's answer under the one-hour expiry,
        passed on unchanged; with the Core Data cache it is never nil. */
    function GetMovies(c: Categories.MovieCategory, now: int): (r: Option<seq<Movie>>)
      reads cache
      ensures r == cache.GetMovies(c, 3600, now)
      ensures r.Some? && r.value == MovieCache.FreshMovies(cache.records, c, 3600, now)
    {
      cache.GetMovies(c, expirationInterval, now)
    }

    /** `saveMovies(_:category:)`: forwards exactly the given movies and category. */
    method SaveMovies(movies: seq<Movie>, c: Categories.MovieCategory, now: int)
      modifies cache
      ensures cache.records == MovieCache.Saved(old(cache.records), movies, c, now)
    {
      cache.SaveMovies(movies, c, now);
    }
  }

  /** What the network manager works with on one call: the connectivity monitor's
      status, the configured API key, the session and the decoder for the type the
      caller expects. */
  datatype Network<T> = Network(
    monitor: Networking.NetworkStatus,
    apiKey: string,
    session: Endpoints.Request -> Networking.Transport,
    decode: Networking.Body -> Networking.Decoded<T>)

  /** `NetworkManager.fetch(endpoint:)` for one of the app's endpoints, whose
      `urlRequest` is built against the configured base URL. */
  function NetworkFetch<T>(net: Network<T>, e: Endpoints.APIEndpoint): Networking.Fetched<T> {
    Networking.Fetch(net.monitor, Endpoints.UrlRequest(e, Endpoints.BaseURL, net.apiKey), net.session, net.decode)
  }

  /** `MovieRemoteDataSource.fetchMovies(category:)`: one GET request, sent only when
      connected, to the base path followed by the category's fixed path, carrying
      the bearer header; the network's value or error is passed on unchanged. */
  function RemoteFetchMovies(net: Network<MoviesDBRoot>, c: Categories.MovieCategory): (f: Networking.Fetched<MoviesDBRoot>)
    ensures f == NetworkFetch(net, Endpoints.Movies(Categories.Endpoint(c)))
    ensures |f.sent| == (if net.monitor == Networking.Connected then 1 else 0)
    ensures f.sent != [] ==> && f.sent[0].url.path == "/3" + Categories.Endpoint(c)
                             && f.sent[0].httpMethod == "GET"
                             && f.sent[0].headers[Endpoints.AuthorizationField] == Endpoints.BearerCredentials(net.apiKey)
  {
    var e := Endpoints.Movies(Categories.Endpoint(c));
    Endpoints.ConfiguredRequestsForm(e, net.apiKey);
    NetworkFetch(net, e)
  }

  /** `MovieRemoteDataSource.fetchMovieDetails(movieId:)`: one GET request, sent only
      when connected, whose path ends in the decimal movie id; the network's value or
      error is passed on unchanged. */
  function RemoteFetchMovieDetails(net: Network<Movie>, movieId: int): (f: Networking.Fetched<Movie>)
    ensures f == NetworkFetch(net, Endpoints.MovieDetail(movieId))
    ensures |f.sent| == (if net.monitor == Networking.Connected then 1 else 0)
    ensures f.sent != [] ==> && |f.sent[0].url.path| > |"/3/movie/"|
                             && f.sent[0].url.path[..|"/3/movie/"|] == "/3/movie/"
                             && Decimal.ParseInt(f.sent[0].url.path[|"/3/movie/"|..]) == Some(movieId)
  {
    var e := Endpoints.MovieDetail(movieId);
    Endpoints.ConfiguredRequestsForm(e, net.apiKey);
    var path := Endpoints.Path(e);
    assert "/3" + path == "/3/movie/" + path[|Endpoints.DetailPrefix|..];
    NetworkFetch(net, e)
  }
}
