/** `MovieCategory`: the three list tabs, each bound to one fixed upstream path. */
module Categories {
  import opened Wrappers

  datatype MovieCategory = NowPlaying | Popular | Upcoming

  /** `CaseIterable.allCases`, in declaration order. */
  const AllCases: seq<MovieCategory> := [NowPlaying, Popular, Upcoming]

  /** The `String` raw value. */
  function RawValue(c: MovieCategory): string {
    match c
    case NowPlaying => "Now Playing"
    case Popular => "Popular"
    case Upcoming => "Upcoming"
  }

  /** The synthesised `init?(rawValue:)`: the inverse of `RawValue`. */
  function FromRawValue(s: string): (r: Option<MovieCategory>)
    ensures r.Some? ==> RawValue(r.value) == s
  {
    if s == "Now Playing" then Some(NowPlaying)
    else if s == "Popular" then Some(Popular)
    else if s == "Upcoming" then Some(Upcoming)
    else None
  }

  lemma RawValueRoundTrip(c: MovieCategory)
    ensures FromRawValue(RawValue(c)) == Some(c)
  {
  }

  /** `Identifiable.id`: the raw value, so distinct categories have distinct ids. */
  function Id(c: MovieCategory): (id: string)
    ensures FromRawValue(id) == Some(c)
  {
    RawValue(c)
  }

  /** The SF Symbol shown on the category's tab. */
  function Icon(c: MovieCategory): string {
    match c
    case NowPlaying => "film"
    case Popular => "flame"
    case Upcoming => "calendar"
  }

  const MoviePathPrefix: string := "/movie/"

  /** The upstream path of the category's list. */
  function Endpoint(c: MovieCategory): (path: string)
    ensures |path| > |MoviePathPrefix| && path[..|MoviePathPrefix|] == MoviePathPrefix
  {
    match c
    case NowPlaying => "/movie/now_playing"
    case Popular => "/movie/popular"
    case Upcoming => "/movie/upcoming"
  }

  /** Every category is listed once in `AllCases`. */
  lemma AllCasesComplete(c: MovieCategory)
    ensures c in AllCases
    ensures forall i, j :: 0 <= i < j < |AllCases| ==> AllCases[i] != AllCases[j]
  {
  }

  /** Distinct categories fetch from distinct paths, raw values and icons. */
  lemma CategoryMapsInjective(c: MovieCategory, d: MovieCategory)
    requires c != d
    ensures Endpoint(c) != Endpoint(d)
    ensures RawValue(c) != RawValue(d)
    ensures Icon(c) != Icon(d)
  {
    match (c, d)
    case (NowPlaying, Popular) => assert Endpoint(c)[7] != Endpoint(d)[7];
    case (NowPlaying, Upcoming) => assert Endpoint(c)[7] != Endpoint(d)[7];
    case (Popular, NowPlaying) => assert Endpoint(c)[7] != Endpoint(d)[7];
    case (Popular, Upcoming) => assert Endpoint(c)[7] != Endpoint(d)[7];
    case (Upcoming, NowPlaying) => assert Endpoint(c)[7] != Endpoint(d)[7];
    case (Upcoming, Popular) => assert Endpoint(c)[7] != Endpoint(d)[7];
    case _ =>
  }
}
