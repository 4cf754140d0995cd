/** What controller-runtime does with the result of a reconcile, and the optional ignore hooks. */
module ControllerRuntime {
  import opened SignerErrors

  datatype Hook = NoHook | HookError | HookSays(ignore: bool)

  /** The error handed to controller-runtime. A terminal error is not retried, and it is recognised
      inside an aggregate as well. */
  datatype Returned = NoError | RetryError | TerminalError | Aggregate(errs: seq<Returned>)

  predicate IsTerminalError(e: Returned)
    decreases e
  {
    match e
    case NoError => false
    case RetryError => false
    case TerminalError => true
    case Aggregate(errs) => exists i :: 0 <= i < |errs| && IsTerminalError(errs[i])
  }

  /** An error of Sign or Check that a controller returns as it is; it may contain a terminal error. */
  function AsReturned(e: Error): Returned {
    if As(e, TerminalErr).Some? then TerminalError else RetryError
  }

  /** controller-runtime puts the key back after a non-terminal error, or when asked to. */
  predicate ComesBack(requeue: bool, e: Returned) {
    if e == NoError then requeue else !IsTerminalError(e)
  }

  /** What happened to the patch. */
  datatype Applied = Accepted | ObjectGone | NotEncoded | Rejected {
    /** The patch failed in a way that the reconcile returns as an error. */
    predicate Lost() {
      NotEncoded? || Rejected?
    }
  }
}
