/** Failure-carrying values used throughout the model.

    Go functions in dbsync return `(value, error)` pairs; every error the
    program produces is eventually formatted with `%s`, so an error is modelled
    by its message text.
 */
module Results {

  /** A value that may be absent (a Go nil pointer or a missing map entry). */
  datatype Option<+T> = None | Some(value: T)

  /** The `(value, error)` pair of a Go function: exactly one side is meaningful. */
  datatype Result<+T> = Ok(value: T) | Err(error: string)

  /** The lone `error` return of a Go function: nil or a message. */
  datatype Outcome = Pass | Fail(error: string)

  /** Position of the first failure in `rs`, or `|rs|` when every entry succeeded. */
  function FirstFailure<T>(rs: seq<Result<T>>): (k: nat)
    ensures k <= |rs|
    ensures forall j :: 0 <= j < k ==> rs[j].Ok?
    ensures k < |rs| ==> rs[k].Err?
  {
    if |rs| == 0 then 0
    else if rs[0].Err? then 0
    else 1 + FirstFailure(rs[1..])
  }
}
