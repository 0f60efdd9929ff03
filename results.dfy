/** Failure-carrying values shared by the modules of this model. */
module Results {

  /** A value that may be absent: a missing store field, a missing table entry, a JavaScript `undefined`. */
  datatype Option<T> = None | Some(value: T)

  /** The value of a read that can be rejected (`throw new Error(...)` in the service layer). */
  datatype Result<T> = Ok(value: T) | Err(message: string)

  /** The outcome of an operation that returns nothing but can be rejected. */
  datatype Outcome = Done | Failed(message: string)

  /** The value carried by `o`, or `default` when there is none. */
  function GetOr<T>(o: Option<T>, default: T): (r: T)
    ensures o.Some? ==> r == o.value
    ensures o.None? ==> r == default
  {
    if o.Some? then o.value else default
  }

  /** JavaScript's `a[i]`: the element at `i`, or `undefined` outside the array. */
  function At<T>(s: seq<T>, i: int): (r: Option<T>)
    ensures r.Some? <==> 0 <= i < |s|
    ensures r.Some? ==> r.value == s[i]
  {
    if 0 <= i < |s| then Some(s[i]) else None
  }
}
