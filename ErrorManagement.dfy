/** `ErrorManager`: the app-wide toast queue. One error is on screen at a time; the
    others wait in first-in, first-out order. */
module ErrorManagement {
  import opened Wrappers
  import opened AppErrors

  class ErrorManager {
    var errorQueue: seq<AppError>
    var currentError: Option<AppError>
    /** Every error ever shown, in order. */
    ghost var shown: seq<AppError>
    /** The errors that are no longer pending (dismissed from the screen, or dropped
        from the queue by `dismissAll`), in the order they were shown. */
    ghost var retired: seq<AppError>

    /** The error on screen followed by the waiting ones. */
    function Pending(): (p: seq<AppError>)
      reads this
      ensures |p| == |errorQueue| + (if currentError.Some? then 1 else 0)
      ensures currentError.Some? ==> p[0] == currentError.value
    {
      (if currentError.Some? then [currentError.value] else []) + errorQueue
    }

    /** No error waits while the screen shows none, and every error shown is either
        retired or still pending, in the order it was shown: the pending errors are
        the latest ones shown, and the one on screen is the oldest of them. */
    ghost predicate Valid()
      reads this
    {
      && (currentError.None? ==> errorQueue == [])
      && shown == retired + Pending()
    }

    /** The shared instance starts with nothing on screen and nothing queued. */
    constructor ()
      ensures Valid() && Pending() == [] && shown == []
    {
      errorQueue := [];
      currentError := None;
      shown := [];
      retired := [];
    }

    /** `processNextError()`: promotes the head of the queue only when nothing is on
        screen and something waits. The pending sequence is unchanged. */
    method ProcessNextError()
      modifies this
      requires shown == retired + Pending()
      ensures Valid()
      ensures Pending() == old(Pending())
      ensures old(currentError).Some? ==> currentError == old(currentError) && errorQueue == old(errorQueue)
      ensures old(currentError).None? && old(errorQueue) != [] ==>
                currentError == Some(old(errorQueue)[0]) && errorQueue == old(errorQueue)[1..]
      ensures old(currentError).None? && old(errorQueue) == [] ==> currentError.None? && errorQueue == []
      ensures shown == old(shown) && retired == old(retired)
    {
      if currentError.None? && errorQueue != [] {
        currentError := Some(errorQueue[0]);
        errorQueue := errorQueue[1..];
      }
    }

    /** `show(_:)`: appends the error to the queue, then tries to promote. */
    method Show(e: AppError)
      modifies this
      requires Valid()
      ensures Valid()
      ensures Pending() == old(Pending()) + [e]
      ensures currentError == if old(currentError).None? then Some(e) else old(currentError)
      ensures shown == old(shown) + [e] && retired == old(retired)
    {
      errorQueue := errorQueue + [e];
      shown := shown + [e];
      ProcessNextError();
    }

    /** `dismiss()`: clears the error on screen, then promotes the next one, if any. */
    method Dismiss()
      modifies this
      requires Valid()
      ensures Valid()
      ensures Pending() == if old(Pending()) == [] then [] else old(Pending())[1..]
      ensures currentError == if Pending() == [] then None else Some(Pending()[0])
      ensures shown == old(shown)
    {
      if currentError.Some? {
        retired := retired + [currentError.value];
      }
      currentError := None;
      ProcessNextError();
    }

    /** `dismissAll()`: empties the queue, then does what `dismiss()` does: clears
        the screen and tries to promote, which finds nothing. Nothing is left. */
    method DismissAll()
      modifies this
      requires Valid()
      ensures Valid()
      ensures currentError.None? && errorQueue == [] && Pending() == []
      ensures retired == old(retired) + old(Pending()) && shown == old(shown)
    {
      retired := retired + Pending();
      errorQueue := [];
      currentError := None;
      ProcessNextError();
    }
  }

  /** The pending errors of a valid manager are a suffix of the shown ones, so the
      error on screen is the earliest shown error not yet retired: errors reach the
      screen in the order they were shown. */
  lemma {:induction false} ScreenShowsOldestPending(shown: seq<AppError>, retired: seq<AppError>,
                                                    current: AppError, queue: seq<AppError>)
    requires shown == retired + ([current] + queue)
    ensures |retired| < |shown| && shown[|retired|] == current
    ensures shown[|retired| + 1..] == queue
  {
    assert shown[|retired|..] == [current] + queue;
  }
}
