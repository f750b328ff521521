/** Option and Result, used for the source's None values and raised exceptions. */
module Wrappers {

  datatype Option<+T> = None | Some(value: T)

  datatype Result<+T, +E> = Ok(value: T) | Err(error: E) {
    predicate IsFailure() {
      Err?
    }

    function PropagateFailure<U>(): Result<U, E>
      requires Err?
    {
      Err(error)
    }

    function Extract(): T
      requires Ok?
    {
      value
    }
  }

  /** f applied to each element from left to right; the first failure
      ends the walk and is the result. */
  function MapAll<A, B, E>(xs: seq<A>, f: A -> Result<B, E>): Result<seq<B>, E>
    decreases |xs|
  {
    if xs == [] then Ok([])
    else
      var init :- MapAll(xs[..|xs| - 1], f);
      var last :- f(xs[|xs| - 1]);
      Ok(init + [last])
  }

  lemma MapAllSnoc<A, B, E>(xs: seq<A>, i: nat, f: A -> Result<B, E>, init: seq<B>, last: B)
    requires i < |xs|
    requires MapAll(xs[..i], f) == Ok(init)
    requires f(xs[i]) == Ok(last)
    ensures MapAll(xs[..i + 1], f) == Ok(init + [last])
  {
    assert xs[..i + 1][..i] == xs[..i];
  }

  /** Once a prefix fails, the whole walk fails with the same error. */
  lemma {:induction false} MapAllFailure<A, B, E>(xs: seq<A>, k: nat, f: A -> Result<B, E>)
    requires k <= |xs|
    requires MapAll(xs[..k], f).Err?
    ensures MapAll(xs, f) == MapAll(xs[..k], f)
    decreases |xs| - k
  {
    if k < |xs| {
      assert xs[..k + 1][..k] == xs[..k];
      MapAllFailure(xs, k + 1, f);
    } else {
      assert xs[..k] == xs;
    }
  }

  /** The first element on which f fails decides the error. */
  lemma MapAllStopsAt<A, B, E>(xs: seq<A>, i: nat, f: A -> Result<B, E>)
    requires i < |xs|
    requires MapAll(xs[..i], f).Ok?
    requires f(xs[i]).Err?
    ensures MapAll(xs, f) == Err(f(xs[i]).error)
  {
    assert xs[..i + 1][..i] == xs[..i];
    MapAllFailure(xs, i + 1, f);
  }

  /** The walk succeeds exactly when f succeeds on every element. */
  lemma {:induction false} MapAllOk<A, B, E>(xs: seq<A>, f: A -> Result<B, E>)
    ensures MapAll(xs, f).Ok? <==> forall k :: 0 <= k < |xs| ==> f(xs[k]).Ok?
    decreases |xs|
  {
    if xs != [] {
      var n := |xs| - 1;
      MapAllOk(xs[..n], f);
      assert forall k :: 0 <= k < n ==> xs[..n][k] == xs[k];
    }
  }

  /** A successful walk has one result per element, f's result on it. */
  lemma {:induction false} MapAllValues<A, B, E>(xs: seq<A>, f: A -> Result<B, E>)
    requires MapAll(xs, f).Ok?
    ensures |MapAll(xs, f).value| == |xs|
    ensures forall k :: 0 <= k < |xs| ==> f(xs[k]) == Ok(MapAll(xs, f).value[k])
    decreases |xs|
  {
    if xs != [] {
      var n := |xs| - 1;
      MapAllValues(xs[..n], f);
      assert forall k :: 0 <= k < n ==> xs[..n][k] == xs[k];
    }
  }

  /** Walking a concatenation walks the first part, then the second. */
  lemma {:induction false} MapAllAppend<A, B, E>(a: seq<A>, b: seq<A>, f: A -> Result<B, E>)
    ensures MapAll(a + b, f) ==
      match MapAll(a, f)
      case Err(e) => Err(e)
      case Ok(ra) =>
        match MapAll(b, f)
        case Err(e) => Err(e)
        case Ok(rb) => Ok(ra + rb)
    decreases |b|
  {
    if b == [] {
      assert a + b == a;
      if MapAll(a, f).Ok? {
        assert MapAll(a, f).value + [] == MapAll(a, f).value;
      }
    } else {
      var n := |b| - 1;
      assert (a + b)[..|a + b| - 1] == a + b[..n];
      assert (a + b)[|a + b| - 1] == b[n];
      MapAllAppend(a, b[..n], f);
      if MapAll(a, f).Ok? && MapAll(b[..n], f).Ok? && f(b[n]).Ok? {
        assert MapAll(a, f).value + (MapAll(b[..n], f).value + [f(b[n]).value]) ==
          (MapAll(a, f).value + MapAll(b[..n], f).value) + [f(b[n]).value];
      }
    }
  }
}
