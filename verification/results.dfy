/** Success/failure carriers used by the pipeline, and the all-or-nothing
    combination of a list of pending results (the behaviour of `Promise.all`). */
module Results {

  datatype Option<+T> = None | Some(value: T)

  /** A computation that either produced a value or failed with an error. */
  datatype Result<+T, +E> = Success(value: T) | Failure(error: E) {

    predicate IsFailure() {
      Failure?
    }

    function PropagateFailure<U>(): Result<U, E>
      requires Failure?
    {
      Failure(error)
    }

    function Extract(): T
      requires Success?
    {
      value
    }
  }

  /** Waits for every pending result: succeeds with all the values, in the
      order they were issued, exactly when every one of them succeeded. */
  function All<T>(pending: seq<Option<T>>): (r: Option<seq<T>>)
    ensures r.Some? <==> forall k :: 0 <= k < |pending| ==> pending[k].Some?
    ensures r.Some? ==> |r.value| == |pending|
    ensures r.Some? ==> forall k :: 0 <= k < |pending| ==> pending[k] == Some(r.value[k])
  {
    if |pending| == 0 then Some([])
    else
      match pending[0]
      case None => None
      case Some(first) =>
        match All(pending[1..])
        case None => None
        case Some(rest) => Some([first] + rest)
  }
}
