/** `CoreDataMovieCache`: a table of `CachedMovie` records partitioned by category
    and stamped with the time they were written. Reads filter by category and
    freshness; a save replaces the category's records wholesale. The clock is the
    `now` parameter (whole seconds); the store has no order, so the properties
    below speak of membership and multisets. */
module MovieCache {
  import opened Wrappers
  import opened Movies
  import Categories

  /** A `CachedMovie` managed object. Core Data attributes are optional, so a stored
      record may lack any of them. */
  datatype CachedMovie = CachedMovie(
    id: int,
    title: Option<string>,
    posterPath: Option<string>,
    releaseDate: Option<string>,
    overview: Option<string>,
    voteAverage: real,
    category: Option<string>,
    lastUpdatedDate: Option<int>)

  /** `movie.voteAverage ?? 0`. */
  function VoteOrZero(v: Option<real>): real {
    if v.Some? then v.value else 0.0
  }

  /** `update(with:category:)` applied to a newly inserted object at time `now`. */
  function Update(m: Movie, c: Categories.MovieCategory, now: int): (r: CachedMovie)
    // the record belongs to `c` and is fresh for a read made at the moment of the save
    ensures IsSelected(r, Categories.RawValue(c), now)
    // the attributes a read needs are written, the overview only when the movie has one
    ensures r.id == m.id && r.title.Some? && r.releaseDate.Some? && (r.overview.Some? <==> m.overview.Some?)
  {
    CachedMovie(
      m.id, Some(m.title), m.posterPath, Some(m.releaseDate), m.overview,
      VoteOrZero(m.voteAverage),
      Some(Categories.RawValue(c)), Some(now))
  }

  /** `toDomainModel()`: a movie from a record that has a title, a release date and
      an overview; nothing from any other record. */
  function ToDomainModel(r: CachedMovie): (m: Option<Movie>)
    ensures m.Some? <==> r.title.Some? && r.releaseDate.Some? && r.overview.Some?
    ensures m.Some? ==> m.value.id == r.id && m.value.posterPath == r.posterPath
  {
    if r.title.None? || r.releaseDate.None? || r.overview.None? then None
    else Some(Movie(
      r.id, r.title.value, r.posterPath, r.releaseDate, r.overview, Some(r.voteAverage),
      r.posterPath, None, r.releaseDate.value, None, None, None, None, None))
  }

  /** What a movie looks like after a trip through the store: identity, title,
      overview, poster and release date kept, the vote average defaulted to zero,
      the poster path copied into `subtitle` and the release date into
      `originalTitle`, and every detail-only field dropped. */
  function CachedCopy(m: Movie): Movie {
    Movie(
      id := m.id, title := m.title, subtitle := m.posterPath, originalTitle := Some(m.releaseDate),
      overview := m.overview,
      voteAverage := Some(VoteOrZero(m.voteAverage)),
      posterPath := m.posterPath, backdropPath := None, releaseDate := m.releaseDate,
      genres := None, runtime := None, budget := None, revenue := None, status := None)
  }

  /** Writing a movie and reading it back gives its cached copy, unless it has no
      overview, in which case the record is dropped on read. */
  lemma CacheRoundTrip(m: Movie, c: Categories.MovieCategory, now: int)
    ensures ToDomainModel(Update(m, c, now)) == if m.overview.Some? then Some(CachedCopy(m)) else None
  {
  }

  // ---------------------------------------------------------------------------
  // The table as a sequence of records

  /** `category == raw AND lastUpdatedDate >= cutoff`, the read's fetch predicate. */
  predicate IsSelected(r: CachedMovie, raw: string, cutoff: int) {
    r.category == Some(raw) && r.lastUpdatedDate.Some? && r.lastUpdatedDate.value >= cutoff
  }

  /** The records the read's fetch request returns. */
  function Select(t: seq<CachedMovie>, raw: string, cutoff: int): seq<CachedMovie>
    decreases |t|
  {
    if t == [] then []
    else Select(t[..|t| - 1], raw, cutoff) + (if IsSelected(t[|t| - 1], raw, cutoff) then [t[|t| - 1]] else [])
  }

  /** `compactMap { $0.toDomainModel() }`. */
  function CompactMap(t: seq<CachedMovie>): seq<Movie>
    decreases |t|
  {
    if t == [] then []
    else CompactMap(t[..|t| - 1]) +
         (match ToDomainModel(t[|t| - 1]) case Some(m) => [m] case None => [])
  }

  /** The table once every record of category `raw` has been deleted. */
  function WithoutCategory(t: seq<CachedMovie>, raw: string): seq<CachedMovie>
    decreases |t|
  {
    if t == [] then []
    else WithoutCategory(t[..|t| - 1], raw) + (if t[|t| - 1].category == Some(raw) then [] else [t[|t| - 1]])
  }

  /** The records inserted for `ms`, one per movie. */
  function NewRecords(ms: seq<Movie>, c: Categories.MovieCategory, now: int): (rs: seq<CachedMovie>)
    ensures |rs| == |ms|
    decreases |ms|
  {
    if ms == [] then [] else NewRecords(ms[..|ms| - 1], c, now) + [Update(ms[|ms| - 1], c, now)]
  }

  /** Inserting one more movie appends one more record. */
  lemma {:induction false} NewRecordsStep(ms: seq<Movie>, i: int, c: Categories.MovieCategory, now: int)
    requires 0 <= i < |ms|
    ensures NewRecords(ms[..i + 1], c, now) == NewRecords(ms[..i], c, now) + [Update(ms[i], c, now)]
  {
    assert ms[..i + 1][..i] == ms[..i];
  }

  /** `getMovies(category:expirationInterval:)` evaluated at time `now`. */
  function FreshMovies(t: seq<CachedMovie>, c: Categories.MovieCategory, expirationInterval: int, now: int): seq<Movie> {
    CompactMap(Select(t, Categories.RawValue(c), now - expirationInterval))
  }

  /** The table after `saveMovies(ms, category: c)` at time `now`. */
  function Saved(t: seq<CachedMovie>, ms: seq<Movie>, c: Categories.MovieCategory, now: int): seq<CachedMovie> {
    WithoutCategory(t, Categories.RawValue(c)) + NewRecords(ms, c, now)
  }

  /** The movies of `ms` that survive a trip through the store, as they come back. */
  function CachedCopies(ms: seq<Movie>): seq<Movie>
    decreases |ms|
  {
    if ms == [] then []
    else CachedCopies(ms[..|ms| - 1]) +
         (if ms[|ms| - 1].overview.Some? then [CachedCopy(ms[|ms| - 1])] else [])
  }

  // ---------------------------------------------------------------------------
  // Helper facts about the table functions

  lemma {:induction false} SelectAppend(a: seq<CachedMovie>, b: seq<CachedMovie>, raw: string, cutoff: int)
    ensures Select(a + b, raw, cutoff) == Select(a, raw, cutoff) + Select(b, raw, cutoff)
    decreases |b|
  {
    if b != [] {
      assert (a + b)[..|a + b| - 1] == a + b[..|b| - 1];
      SelectAppend(a, b[..|b| - 1], raw, cutoff);
    } else {
      assert a + b == a;
    }
  }

  lemma {:induction false} CompactMapAppend(a: seq<CachedMovie>, b: seq<CachedMovie>)
    ensures CompactMap(a + b) == CompactMap(a) + CompactMap(b)
    decreases |b|
  {
    if b != [] {
      assert (a + b)[..|a + b| - 1] == a + b[..|b| - 1];
      CompactMapAppend(a, b[..|b| - 1]);
    } else {
      assert a + b == a;
    }
  }

  /** Once a category is deleted, selecting from what is left finds a category's
      records exactly when it is a different category. */
  lemma {:induction false} SelectWithout(t: seq<CachedMovie>, deleted: string, raw: string, cutoff: int)
    ensures Select(WithoutCategory(t, deleted), raw, cutoff) == if raw == deleted then [] else Select(t, raw, cutoff)
    decreases |t|
  {
    if t != [] {
      var init := t[..|t| - 1];
      SelectWithout(init, deleted, raw, cutoff);
      SelectAppend(WithoutCategory(init, deleted),
                   if t[|t| - 1].category == Some(deleted) then [] else [t[|t| - 1]], raw, cutoff);
    }
  }

  /** The newly inserted records are all selected by a cutoff no later than the
      save, and none is selected for another category. */
  lemma {:induction false} SelectNew(ms: seq<Movie>, c: Categories.MovieCategory, now: int, raw: string, cutoff: int)
    ensures raw == Categories.RawValue(c) && cutoff <= now ==> Select(NewRecords(ms, c, now), raw, cutoff) == NewRecords(ms, c, now)
    ensures raw != Categories.RawValue(c) || cutoff > now ==> Select(NewRecords(ms, c, now), raw, cutoff) == []
    decreases |ms|
  {
    if ms != [] {
      var init := NewRecords(ms[..|ms| - 1], c, now);
      SelectNew(ms[..|ms| - 1], c, now, raw, cutoff);
      SelectAppend(init, [Update(ms[|ms| - 1], c, now)], raw, cutoff);
      assert Select([Update(ms[|ms| - 1], c, now)], raw, cutoff)
          == Select([], raw, cutoff) + (if IsSelected(Update(ms[|ms| - 1], c, now), raw, cutoff) then [Update(ms[|ms| - 1], c, now)] else []);
    }
  }

  lemma {:induction false} CompactMapNew(ms: seq<Movie>, c: Categories.MovieCategory, now: int)
    ensures CompactMap(NewRecords(ms, c, now)) == CachedCopies(ms)
    decreases |ms|
  {
    if ms != [] {
      var last := ms[|ms| - 1];
      CompactMapNew(ms[..|ms| - 1], c, now);
      CompactMapAppend(NewRecords(ms[..|ms| - 1], c, now), [Update(last, c, now)]);
      assert [Update(last, c, now)][..0] == [];
      CacheRoundTrip(last, c, now);
    }
  }

  // ---------------------------------------------------------------------------
  // Properties of reads and saves

  /** Reading a table is reading all but its last record, then the last one. */
  lemma {:induction false} ReadLast(t: seq<CachedMovie>, raw: string, cutoff: int)
    requires t != []
    ensures CompactMap(Select(t, raw, cutoff)) == CompactMap(Select(t[..|t| - 1], raw, cutoff)) +
              (if IsSelected(t[|t| - 1], raw, cutoff) && ToDomainModel(t[|t| - 1]).Some?
               then [ToDomainModel(t[|t| - 1]).value] else [])
  {
    var last := t[|t| - 1];
    var tail := if IsSelected(last, raw, cutoff) then [last] else [];
    CompactMapAppend(Select(t[..|t| - 1], raw, cutoff), tail);
    if tail != [] {
      assert tail[..|tail| - 1] == [];
    }
  }

  /** Every movie a read returns comes from a selected record. */
  lemma {:induction false} ReadComesFromSelected(t: seq<CachedMovie>, raw: string, cutoff: int, m: Movie)
    ensures m in CompactMap(Select(t, raw, cutoff)) ==>
              exists i :: 0 <= i < |t| && IsSelected(t[i], raw, cutoff) && ToDomainModel(t[i]) == Some(m)
    decreases |t|
  {
    if t != [] && m in CompactMap(Select(t, raw, cutoff)) {
      var init := t[..|t| - 1];
      ReadLast(t, raw, cutoff);
      if m in CompactMap(Select(init, raw, cutoff)) {
        ReadComesFromSelected(init, raw, cutoff, m);
        var i :| 0 <= i < |init| && IsSelected(init[i], raw, cutoff) && ToDomainModel(init[i]) == Some(m);
        assert t[i] == init[i];
      } else {
        assert IsSelected(t[|t| - 1], raw, cutoff) && ToDomainModel(t[|t| - 1]) == Some(m);
      }
    }
  }

  /** Every selected record that converts is returned by the read. */
  lemma {:induction false} SelectedIsRead(t: seq<CachedMovie>, raw: string, cutoff: int, i: int)
    requires 0 <= i < |t|
    ensures IsSelected(t[i], raw, cutoff) && ToDomainModel(t[i]).Some? ==>
              ToDomainModel(t[i]).value in CompactMap(Select(t, raw, cutoff))
    decreases |t|
  {
    var init := t[..|t| - 1];
    ReadLast(t, raw, cutoff);
    if i < |init| {
      SelectedIsRead(init, raw, cutoff, i);
      assert t[i] == init[i];
    }
  }

  /** What a read returns, movie by movie, for any category and cutoff. */
  lemma {:induction false} ReadMembership(t: seq<CachedMovie>, raw: string, cutoff: int, m: Movie)
    ensures m in CompactMap(Select(t, raw, cutoff)) <==>
              exists i :: 0 <= i < |t| && IsSelected(t[i], raw, cutoff) && ToDomainModel(t[i]) == Some(m)
  {
    ReadComesFromSelected(t, raw, cutoff, m);
    forall i | 0 <= i < |t| && IsSelected(t[i], raw, cutoff) && ToDomainModel(t[i]) == Some(m)
      ensures m in CompactMap(Select(t, raw, cutoff))
    {
      SelectedIsRead(t, raw, cutoff, i);
    }
  }

  /** A movie is read back exactly when some record of the category, written no
      earlier than the cutoff, has a title, a release date and an overview and
      maps to it. */
  lemma {:induction false} FreshMoviesMembership(t: seq<CachedMovie>, c: Categories.MovieCategory,
                                                 expirationInterval: int, now: int, m: Movie)
    ensures m in FreshMovies(t, c, expirationInterval, now) <==>
              exists i :: 0 <= i < |t| && IsSelected(t[i], Categories.RawValue(c), now - expirationInterval)
                                    && ToDomainModel(t[i]) == Some(m)
  {
    ReadMembership(t, Categories.RawValue(c), now - expirationInterval, m);
  }

  /** Selecting the saved category from a saved table, with a cutoff no later than
      the save, finds exactly the new records. */
  lemma {:induction false} SelectAfterSaveFresh(t: seq<CachedMovie>, ms: seq<Movie>, c: Categories.MovieCategory,
                                                now: int, cutoff: int)
    requires cutoff <= now
    ensures Select(Saved(t, ms, c, now), Categories.RawValue(c), cutoff) == NewRecords(ms, c, now)
  {
    var raw := Categories.RawValue(c);
    var kept, added := WithoutCategory(t, raw), NewRecords(ms, c, now);
    SelectAppend(kept, added, raw, cutoff);
    SelectWithout(t, raw, raw, cutoff);
    SelectNew(ms, c, now, raw, cutoff);
  }

  /** With a cutoff later than the save, it finds nothing. */
  lemma {:induction false} SelectAfterSaveExpired(t: seq<CachedMovie>, ms: seq<Movie>, c: Categories.MovieCategory,
                                                  now: int, cutoff: int)
    requires cutoff > now
    ensures Select(Saved(t, ms, c, now), Categories.RawValue(c), cutoff) == []
  {
    var raw := Categories.RawValue(c);
    var kept, added := WithoutCategory(t, raw), NewRecords(ms, c, now);
    SelectAppend(kept, added, raw, cutoff);
    SelectWithout(t, raw, raw, cutoff);
    SelectNew(ms, c, now, raw, cutoff);
  }

  /** The read after a save converts exactly the records the save inserted. */
  lemma {:induction false} ReadAfterSaveRecords(t: seq<CachedMovie>, ms: seq<Movie>, c: Categories.MovieCategory,
                                                now: int, expirationInterval: int, later: int)
    requires later - expirationInterval <= now
    ensures FreshMovies(Saved(t, ms, c, now), c, expirationInterval, later) == CompactMap(NewRecords(ms, c, now))
  {
    SelectAfterSaveFresh(t, ms, c, now, later - expirationInterval);
  }

  /** The read after a save, record by record (the model's table has an order;
      the store's does not, which is why the property below is stated on multisets). */
  lemma {:induction false} ReadAfterSave(t: seq<CachedMovie>, ms: seq<Movie>, c: Categories.MovieCategory, now: int,
                                         expirationInterval: int, later: int)
    requires later - expirationInterval <= now
    ensures FreshMovies(Saved(t, ms, c, now), c, expirationInterval, later) == CachedCopies(ms)
  {
    ReadAfterSaveRecords(t, ms, c, now, expirationInterval, later);
    CompactMapNew(ms, c, now);
  }

  /** Replace, not merge: right after a save, and for as long as the save is within
      the expiration interval (up to and including `expirationInterval` seconds
      later), the category reads back exactly the cached copies of the saved movies,
      as many as were saved with an overview, whatever it held before. */
  lemma {:induction false} SaveReplacesCategory(t: seq<CachedMovie>, ms: seq<Movie>, c: Categories.MovieCategory, now: int,
                                                expirationInterval: int, later: int)
    requires later - expirationInterval <= now
    ensures multiset(FreshMovies(Saved(t, ms, c, now), c, expirationInterval, later)) == multiset(CachedCopies(ms))
    ensures |FreshMovies(Saved(t, ms, c, now), c, expirationInterval, later)| == |CachedCopies(ms)|
  {
    ReadAfterSave(t, ms, c, now, expirationInterval, later);
  }

  /** Selecting another category's records from a saved table finds the records
      it had before the save. */
  lemma {:induction false} SelectAfterSaveOther(t: seq<CachedMovie>, ms: seq<Movie>, c: Categories.MovieCategory,
                                                now: int, other: string, cutoff: int)
    requires other != Categories.RawValue(c)
    ensures Select(Saved(t, ms, c, now), other, cutoff) == Select(t, other, cutoff)
  {
    var kept, added := WithoutCategory(t, Categories.RawValue(c)), NewRecords(ms, c, now);
    SelectAppend(kept, added, other, cutoff);
    SelectWithout(t, Categories.RawValue(c), other, cutoff);
    SelectNew(ms, c, now, other, cutoff);
  }

  /** A save leaves what every other category reads unchanged, at any time and
      under any expiration interval. */
  lemma {:induction false} SaveLeavesOtherCategories(t: seq<CachedMovie>, ms: seq<Movie>, c: Categories.MovieCategory,
                                  d: Categories.MovieCategory, now: int, expirationInterval: int, later: int)
    requires c != d
    ensures FreshMovies(Saved(t, ms, c, now), d, expirationInterval, later) == FreshMovies(t, d, expirationInterval, later)
  {
    Categories.CategoryMapsInjective(c, d);
    SelectAfterSaveOther(t, ms, c, now, Categories.RawValue(d), later - expirationInterval);
  }

  /** Once a save is older than the expiration interval (the bound is inclusive, so
      this is from `expirationInterval + 1` seconds on), its category reads as the
      empty list, not nil. */
  lemma {:induction false} ExpiredSaveReadsEmpty(t: seq<CachedMovie>, ms: seq<Movie>, c: Categories.MovieCategory, now: int,
                              expirationInterval: int, later: int)
    requires later - expirationInterval > now
    ensures FreshMovies(Saved(t, ms, c, now), c, expirationInterval, later) == []
  {
    SelectAfterSaveExpired(t, ms, c, now, later - expirationInterval);
  }

  // ---------------------------------------------------------------------------
  // The store

  class CoreDataMovieCache {
    /** The `CachedMovie` objects in the persistent store. */
    var records: seq<CachedMovie>

    /** A cache over an empty (for instance in-memory) store. */
    constructor ()
      ensures records == []
    {
      records := [];
    }

    /** `getMovies(category:expirationInterval:)` at time `now`: always a list,
        possibly empty, never nil. */
    function GetMovies(c: Categories.MovieCategory, expirationInterval: int, now: int): (r: Option<seq<Movie>>)
      reads this
      ensures r == Some(FreshMovies(records, c, expirationInterval, now))
    {
      Some(CompactMap(Select(records, Categories.RawValue(c), now - expirationInterval)))
    }

    /** `deleteMovies(for:)`: deletes each record of the category, keeping the rest. */
    method DeleteMovies(c: Categories.MovieCategory)
      modifies this
      ensures records == WithoutCategory(old(records), Categories.RawValue(c))
    {
      var raw := Categories.RawValue(c);
      var kept: seq<CachedMovie> := [];
      var i := 0;
      while i < |records|
        invariant 0 <= i <= |records|
        invariant kept == WithoutCategory(records[..i], raw)
      {
        assert records[..i + 1][..i] == records[..i];
        if records[i].category != Some(raw) {
          kept := kept + [records[i]];
        }
        i := i + 1;
      }
      assert records[..|records|] == records;
      records := kept;
    }

    /** `saveMovies(_:category:)` at time `now`: deletes the category's records,
        creates one record per movie, each stamped `now`, in the context, and
        commits them with `save()`. */
    method SaveMovies(movies: seq<Movie>, c: Categories.MovieCategory, now: int)
      modifies this
      ensures records == Saved(old(records), movies, c, now)
    {
      DeleteMovies(c);
      var inserted: seq<CachedMovie> := [];
      var i := 0;
      while i < |movies|
        invariant 0 <= i <= |movies|
        invariant records == WithoutCategory(old(records), Categories.RawValue(c))
        invariant inserted == NewRecords(movies[..i], c, now)
      {
        NewRecordsStep(movies, i, c, now);
        inserted := inserted + [Update(movies[i], c, now)];
        i := i + 1;
      }
      assert movies[..|movies|] == movies;
      records := records + inserted;
    }
  }
}
