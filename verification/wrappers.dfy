/** Failure-compatible wrappers shared by every module of the model.

    `Option<T>` stands for Rust's `Option` and Python's `None`-or-value;
    `Result<T>` stands for Rust's `Result<T, String>`: every error in the
    application is carried as a human-readable message. */
module Wrappers {

  datatype Option<+T> = None | Some(value: T) {
    predicate IsFailure() { None? }

    function PropagateFailure<U>(): Option<U>
      requires None?
    {
      None
    }

    function Extract(): T
      requires Some?
    {
      value
    }

    function GetOr(default: T): T {
      match this
      case Some(v) => v
      case None => default
    }

    /** `or` / `or_else`: this value when present, else `other`. */
    function Or(other: Option<T>): Option<T> {
      if Some? then this else other
    }
  }

  datatype Result<+T> = Ok(value: T) | Err(error: string) {
    predicate IsFailure() { Err? }

    function PropagateFailure<U>(): Result<U>
      requires Err?
    {
      Err(error)
    }

    function Extract(): T
      requires Ok?
    {
      value
    }

    function ToOption(): Option<T> {
      match this
      case Ok(v) => Some(v)
      case Err(_) => None
    }
  }

  /** `iter().filter_map(f)`: the present results of `f`, in order. */
  function FilterMap<A, B>(xs: seq<A>, f: A -> Option<B>): (r: seq<B>)
    ensures |r| <= |xs|
    ensures forall i :: 0 <= i < |r| ==> exists k :: 0 <= k < |xs| && f(xs[k]) == Some(r[i])
    ensures forall k :: 0 <= k < |xs| && f(xs[k]).Some? ==> f(xs[k]).value in r
  {
    if |xs| == 0 then []
    else
      var rest := FilterMap(xs[1..], f);
      assert forall i :: 0 <= i < |rest| ==> exists k :: 0 <= k < |xs| && f(xs[k]) == Some(rest[i]) by {
        forall i | 0 <= i < |rest| ensures exists k :: 0 <= k < |xs| && f(xs[k]) == Some(rest[i]) {
          var k :| 0 <= k < |xs[1..]| && f(xs[1..][k]) == Some(rest[i]);
          assert xs[k + 1] == xs[1..][k];
        }
      }
      assert forall k :: 1 <= k < |xs| ==> xs[k] == xs[1..][k - 1];
      match f(xs[0])
      case Some(y) => [y] + rest
      case None => rest
  }
}
