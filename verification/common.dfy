/** Failure-carrying datatypes shared by every component, and the
    all-or-nothing map that both the shift parser and the tile pool use. */
module Common {

  /** A value that may be absent (Python's `None`). */
  datatype Option<+T> = None | Some(value: T)

  /** A computed value, or the error a Python `raise` would carry. */
  datatype Result<+T, +E> = Success(value: T) | Failure(error: E) {

    predicate IsFailure() {
      Failure?
    }

    function PropagateFailure<U>(): Result<U, E>
      requires Failure?
    {
      Failure(error)
    }

    function Extract(): T
      requires Success?
    {
      value
    }
  }

  function Max(a: nat, b: nat): nat {
    if a < b then b else a
  }

  /** Applies `f` to every element in order and stops at the first failure,
      so either every element succeeded and the results line up with the
      inputs, or the error of the earliest failing element is returned and
      no partial list escapes. */
  function MapAll<A, B, E>(f: A -> Result<B, E>, xs: seq<A>): (r: Result<seq<B>, E>)
    ensures r.Success? <==> (forall i :: 0 <= i < |xs| ==> f(xs[i]).Success?)
    ensures r.Success? ==>
      |r.value| == |xs| && forall i :: 0 <= i < |xs| ==> r.value[i] == f(xs[i]).value
    ensures r.Failure? ==>
      exists i :: 0 <= i < |xs| && f(xs[i]) == Failure(r.error) &&
                  forall j :: 0 <= j < i ==> f(xs[j]).Success?
    decreases |xs|
  {
    if |xs| == 0 then Success([])
    else
      match f(xs[0])
      case Failure(e) => Failure(e)
      case Success(y) =>
        match MapAll(f, xs[1..])
        case Failure(e) => Failure(e)
        case Success(ys) => Success([y] + ys)
  }
}
