/** Option and Result values shared by every module of the model. */
module Wrappers {

  /** Python's `None` or a present value. */
  datatype Option<+T> = None | Some(value: T) {
    predicate IsFailure() {
      None?
    }

    function PropagateFailure<U>(): Option<U>
      requires None?
    {
      None
    }

    function Extract(): T
      requires Some?
    {
      value
    }
  }

  /** A computation that either produced a value or raised an error. */
  datatype Result<+T, +E> = Success(value: T) | Failure(error: E) {
    predicate IsFailure() {
      Failure?
    }

    function PropagateFailure<U>(): Result<U, E>
      requires Failure?
    {
      Failure(error)
    }

    function Extract(): T
      requires Success?
    {
      value
    }
  }

  /** Python's `a or b` on optional strings: `a` when it is present and non-empty, else `b`. */
  function OrElse(a: Option<string>, b: Option<string>): (r: Option<string>)
    ensures r == a || r == b
    ensures a.Some? && a.value != "" ==> r == a
  {
    if a.Some? && a.value != "" then a else b
  }

  /** Python truthiness of an optional string. */
  predicate Truthy(a: Option<string>) {
    a.Some? && a.value != ""
  }

  /** Python's `list(filter(None, map(f, xs)))` for an `f` whose only falsy result is `None`. */
  function FilterMap<T, U>(xs: seq<T>, f: T -> Option<U>): (r: seq<U>)
    ensures |r| <= |xs|
  {
    if xs == [] then []
    else
      var c := f(xs[|xs| - 1]);
      FilterMap(xs[..|xs| - 1], f) + (if c.Some? then [c.value] else [])
  }

  /** A value is kept exactly when some element maps to it. */
  lemma {:induction false} FilterMapMember<T, U>(xs: seq<T>, f: T -> Option<U>, y: U)
    ensures y in FilterMap(xs, f) <==> exists k :: 0 <= k < |xs| && f(xs[k]) == Some(y)
  {
    if xs != [] {
      var init := xs[..|xs| - 1];
      FilterMapMember(init, f, y);
      if exists k :: 0 <= k < |xs| && f(xs[k]) == Some(y) {
        var k :| 0 <= k < |xs| && f(xs[k]) == Some(y);
        if k < |init| {
          assert init[k] == xs[k];
        }
      }
      if exists k :: 0 <= k < |init| && f(init[k]) == Some(y) {
        var k :| 0 <= k < |init| && f(init[k]) == Some(y);
        assert xs[k] == init[k];
      }
    }
  }
}
