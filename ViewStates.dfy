/** `ViewState`: what a screen shows while it loads, once it has data, or after an
    error. */
module ViewStates {
  import Wrappers
  import AppErrors

  /** `ErrorInfo`. */
  datatype ErrorInfo = ErrorInfo(message: string, retryable: bool, code: Wrappers.Option<int>)

  /** `ErrorInfo(message:)`: retryable, with no code. */
  function MakeErrorInfo(message: string): (e: ErrorInfo)
    ensures e.message == message && e.retryable && e.code.None?
  {
    ErrorInfo(message, true, Wrappers.None)
  }

  datatype ViewState<T> = Idle | Loading | Success(data: T) | Error(info: ErrorInfo)

  /** `isLoading`. */
  predicate IsLoading<T>(s: ViewState<T>) {
    s.Loading?
  }

  /** `data`: the payload of a success, nil otherwise. */
  function Data<T>(s: ViewState<T>): (d: Wrappers.Option<T>)
    ensures d.Some? <==> s.Success?
    ensures s.Success? ==> d == Wrappers.Some(s.data)
  {
    match s
    case Success(d) => Wrappers.Some(d)
    case _ => Wrappers.None
  }

  /** `error`: the error info of a failure, nil otherwise. */
  function ErrorOf<T>(s: ViewState<T>): (e: Wrappers.Option<ErrorInfo>)
    ensures e.Some? <==> s.Error?
    ensures s.Error? ==> e == Wrappers.Some(s.info)
  {
    match s
    case Error(info) => Wrappers.Some(info)
    case _ => Wrappers.None
  }

  /** At most one of the accessors answers, and only the idle state answers none. */
  lemma AccessorsExclusive<T>(s: ViewState<T>)
    ensures (if IsLoading(s) then 1 else 0) + (if Data(s).Some? then 1 else 0) + (if ErrorOf(s).Some? then 1 else 0)
            == (if s.Idle? then 0 else 1)
  {
  }

  /** `startLoading()`: loading, from any state. */
  function StartLoading<T>(s: ViewState<T>): (r: ViewState<T>)
    ensures IsLoading(r)
  {
    Loading
  }

  /** `handleResult(_:)`: a success shows its data; a failure shows its description,
      retryable and without a code. Either way loading is over. */
  function HandleResult<T>(s: ViewState<T>, result: Wrappers.Result<T, AppErrors.AppError>): (r: ViewState<T>)
    ensures !IsLoading(r)
    ensures result.Success? ==> Data(r) == Wrappers.Some(result.value)
    ensures result.Failure? ==> ErrorOf(r) == Wrappers.Some(MakeErrorInfo(AppErrors.ErrorDescription(result.error)))
  {
    match result
    case Success(d) => Success(d)
    case Failure(e) => Error(MakeErrorInfo(AppErrors.ErrorDescription(e)))
  }
}
