/** The `Movie` entity, the page envelope the list endpoint returns, and the
    movie's computed display properties. */
module Movies {
  import opened Wrappers
  import Decimal

  datatype Genre = Genre(id: Option<int>, name: Option<string>)

  /** `Movie`. `voteAverage` is a `Double` upstream; the model only copies it and
      defaults it to zero. Its `Identifiable` identity is `id`. */
  datatype Movie = Movie(
    id: int,
    title: string,
    subtitle: Option<string>,
    originalTitle: Option<string>,
    overview: Option<string>,
    voteAverage: Option<real>,
    posterPath: Option<string>,
    backdropPath: Option<string>,
    releaseDate: string,
    genres: Option<seq<Genre>>,
    runtime: Option<int>,
    budget: Option<int>,
    revenue: Option<int>,
    status: Option<string>)

  /** `MoviesDBRoot<[Movie]>`, the list endpoint's envelope; every field may be absent. */
  datatype MoviesDBRoot = MoviesDBRoot(
    page: Option<int>,
    results: Option<seq<Movie>>,
    totalPages: Option<int>,
    totalResults: Option<int>)

  // ---------------------------------------------------------------------------
  // Runtime

  /** Swift's integer `/`, which truncates toward zero. */
  function TruncatingDiv(a: int, b: nat): int
    requires b > 0
  {
    if a >= 0 then a / b else -((-a) / b)
  }

  /** Swift's integer `%`, whose result takes the sign of the dividend. */
  function TruncatingRem(a: int, b: nat): int
    requires b > 0
  {
    a - b * TruncatingDiv(a, b)
  }

  /** `runtime / 60` and `runtime % 60` with Swift's operators: the two parts add back
      up to the runtime, the minutes stay below an hour and share the runtime's sign,
      and for a non-negative runtime they are the usual quotient and remainder. */
  function RuntimeParts(runtime: int): (parts: (int, int))
    ensures parts.0 * 60 + parts.1 == runtime
    ensures -60 < parts.1 < 60
    ensures runtime >= 0 ==> 0 <= parts.1 && parts.0 == runtime / 60 && parts.1 == runtime % 60
    ensures runtime < 0 ==> parts.0 <= 0 && parts.1 <= 0
  {
    (TruncatingDiv(runtime, 60), TruncatingRem(runtime, 60))
  }

  /** The text of a runtime of the given minutes, "<hours>h <minutes>m". */
  function RuntimeText(runtime: int): string {
    var parts := RuntimeParts(runtime);
    Decimal.IntToString(parts.0) + "h " + Decimal.IntToString(parts.1) + "m"
  }

  /** `formattedRuntime`: nil exactly when the runtime is unknown. */
  function FormattedRuntime(m: Movie): (s: Option<string>)
    ensures s.None? <==> m.runtime.None?
    ensures s.Some? ==> s.value == RuntimeText(m.runtime.value)
  {
    match m.runtime
    case None => None
    case Some(r) => Some(RuntimeText(r))
  }

  /** The first position of `c` in `s`. */
  function IndexOf(s: string, c: char): (r: Option<nat>)
    ensures r.Some? ==> r.value < |s| && s[r.value] == c && c !in s[..r.value]
    ensures r.None? ==> c !in s
  {
    if |s| == 0 then None
    else if s[0] == c then Some(0)
    else match IndexOf(s[1..], c)
      case None => None
      case Some(k) => assert s[..k + 1] == [s[0]] + s[1..][..k]; Some(k + 1)
  }

  /** Reads "<hours>h <minutes>m" back into minutes. */
  function ParseRuntime(s: string): Option<int> {
    match IndexOf(s, 'h')
    case None => None
    case Some(k) => ParseParts(s[..k], s[k + 1..])
  }

  /** The hours text and what follows the `h`, " <minutes>m", read back into minutes. */
  function ParseParts(hs: string, rest: string): Option<int> {
    if |rest| < 2 || rest[0] != ' ' || rest[|rest| - 1] != 'm' then None
    else match (Decimal.ParseInt(hs), Decimal.ParseInt(rest[1..|rest| - 1]))
      case (Some(hours), Some(minutes)) => Some(hours * 60 + minutes)
      case _ => None
  }

  lemma {:induction false} NoLetterH(i: int)
    ensures 'h' !in Decimal.IntToString(i)
  {
    var s := Decimal.IntToString(i);
    if i < 0 {
      assert forall j :: 1 <= j < |s| ==> s[j] == Decimal.NatToString(-i)[j - 1];
    }
  }

  /** The first `c` in `a + [c] + b` is the one after `a` when `a` has none. */
  lemma {:induction false} IndexOfAfter(a: string, c: char, b: string)
    requires c !in a
    ensures IndexOf(a + [c] + b, c) == Some(|a|)
  {
    if |a| > 0 {
      assert (a + [c] + b)[1..] == a[1..] + [c] + b;
      IndexOfAfter(a[1..], c, b);
    } else {
      assert (a + [c] + b)[0] == c;
    }
  }

  /** The first `h` splits the text into the hours and the rest. */
  lemma {:induction false} ParseRuntimeSplit(hs: string, rest: string)
    requires 'h' !in hs
    ensures ParseRuntime(hs + ['h'] + rest) == ParseParts(hs, rest)
  {
    var s := hs + ['h'] + rest;
    IndexOfAfter(hs, 'h', rest);
    assert s[..|hs|] == hs;
    assert s[|hs| + 1..] == rest;
  }

  /** " <m>m" after the hours reads back as hours and minutes. */
  lemma {:induction false} ParsePartsJoined(hs: string, ms: string, hours: int, minutes: int)
    requires Decimal.ParseInt(hs) == Some(hours) && Decimal.ParseInt(ms) == Some(minutes)
    ensures ParseParts(hs, [' '] + ms + ['m']) == Some(hours * 60 + minutes)
  {
    var rest := [' '] + ms + ['m'];
    assert rest[1..|rest| - 1] == ms;
  }

  /** Parsing "<h>h <m>m" where the hours part contains no `h`. */
  lemma {:induction false} ParseJoined(hs: string, ms: string, hours: int, minutes: int)
    requires 'h' !in hs
    requires Decimal.ParseInt(hs) == Some(hours) && Decimal.ParseInt(ms) == Some(minutes)
    ensures ParseRuntime(hs + "h " + ms + "m") == Some(hours * 60 + minutes)
  {
    assert hs + "h " + ms + "m" == hs + ['h'] + ([' '] + ms + ['m']);
    ParseRuntimeSplit(hs, [' '] + ms + ['m']);
    ParsePartsJoined(hs, ms, hours, minutes);
  }

  /** The runtime text determines the runtime: no minutes are lost in formatting. */
  lemma RuntimeTextRoundTrip(runtime: int)
    ensures ParseRuntime(RuntimeText(runtime)) == Some(runtime)
  {
    var parts := RuntimeParts(runtime);
    NoLetterH(parts.0);
    Decimal.IntRoundTrip(parts.0);
    Decimal.IntRoundTrip(parts.1);
    ParseJoined(Decimal.IntToString(parts.0), Decimal.IntToString(parts.1), parts.0, parts.1);
  }

  /** Two and a bit hours, as the detail screen shows them. */
  lemma RuntimeTextExamples()
    ensures RuntimeText(120) == "2h 0m"
    ensures RuntimeText(140) == "2h 20m"
  {
    assert RuntimeParts(140) == (2, 20);
    assert Decimal.NatToString(20) == Decimal.NatToString(2) + [Decimal.DigitChar(0)];
  }

  // ---------------------------------------------------------------------------
  // Money and dates (the formatters are inputs)

  /** `replacingOccurrences(of: "US", with: "")`, one left-to-right pass. */
  function RemoveUS(s: string): (r: string)
    ensures |r| <= |s|
    ensures (forall i :: 0 <= i < |s| - 1 ==> !(s[i] == 'U' && s[i + 1] == 'S')) ==> r == s
  {
    if |s| < 2 then s
    else if s[0] == 'U' && s[1] == 'S' then RemoveUS(s[2..])
    else [s[0]] + RemoveUS(s[1..])
  }

  /** An amount through the currency formatter with "US" removed; nil when the
      amount is nil or the formatter gives nothing. */
  function FormattedAmount(amount: Option<int>, currency: int -> Option<string>): (r: Option<string>)
    ensures amount.None? ==> r.None?
    ensures r.Some? <==> amount.Some? && currency(amount.value).Some?
  {
    match amount
    case None => None
    case Some(a) =>
      match currency(a)
      case None => None
      case Some(text) => Some(RemoveUS(text))
  }

  /** `formattedBudget`. */
  function FormattedBudget(m: Movie, currency: int -> Option<string>): (r: Option<string>)
    ensures m.budget.None? ==> r.None?
  {
    FormattedAmount(m.budget, currency)
  }

  /** `formattedRevenue`. */
  function FormattedRevenue(m: Movie, currency: int -> Option<string>): (r: Option<string>)
    ensures m.revenue.None? ==> r.None?
  {
    FormattedAmount(m.revenue, currency)
  }

  /** `formattedReleaseDate`: the long date when the text parses as yyyy-MM-dd,
      otherwise the text unchanged. */
  function FormattedReleaseDate<Date>(m: Movie, parse: string -> Option<Date>, longStyle: Date -> string): (r: string)
    ensures parse(m.releaseDate).None? ==> r == m.releaseDate
    ensures parse(m.releaseDate).Some? ==> r == longStyle(parse(m.releaseDate).value)
  {
    match parse(m.releaseDate)
    case None => m.releaseDate
    case Some(date) => longStyle(date)
  }
}
