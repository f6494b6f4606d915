/** Option and Result, the failure-compatible wrappers the parser uses in place of
    Python's None and raised exceptions. */
module Outcomes {

  datatype Option<+T> = None | Some(value: T) {
    predicate IsFailure() { None? }

    function PropagateFailure<U>(): Option<U>
      requires None?
    {
      None
    }

    function Extract(): T
      requires Some?
    {
      value
    }
  }

  datatype Result<+T, +E> = Ok(value: T) | Err(error: E) {
    predicate IsFailure() { Err? }

    function PropagateFailure<U>(): Result<U, E>
      requires Err?
    {
      Err(error)
    }

    function Extract(): T
      requires Ok?
    {
      value
    }
  }

  /** `xs` put in front of a successful list; an error is passed on unchanged. */
  function Prepend<T, E>(xs: seq<T>, r: Result<seq<T>, E>): Result<seq<T>, E> {
    match r
    case Ok(rest) => Ok(xs + rest)
    case Err(e) => Err(e)
  }

  lemma PrependNothing<T, E>(r: Result<seq<T>, E>)
    ensures Prepend([], r) == r
  {
    if r.Ok? {
      assert [] + r.value == r.value;
    }
  }

  lemma PrependTwice<T, E>(a: seq<T>, b: seq<T>, r: Result<seq<T>, E>)
    ensures Prepend(a, Prepend(b, r)) == Prepend(a + b, r)
  {
    if r.Ok? {
      assert a + (b + r.value) == (a + b) + r.value;
    }
  }

  /** The first element and the rest of `a + b`, for a non-empty `a`. */
  lemma TailOfAppend<T>(a: seq<T>, b: seq<T>)
    requires |a| > 0
    ensures (a + b)[0] == a[0] && (a + b)[1..] == a[1..] + b
  {
  }

  /** `f` applied to each element in turn, giving up at the first error. */
  function MapResult<A, B, E>(xs: seq<A>, f: A -> Result<B, E>): (r: Result<seq<B>, E>)
    ensures r.Ok? ==> |r.value| == |xs|
  {
    if |xs| == 0 then Ok([])
    else
      match f(xs[0])
      case Err(e) => Err(e)
      case Ok(y) => Prepend([y], MapResult(xs[1..], f))
  }

  /** A successful run holds `f`'s value for every element, in order; otherwise
      it carries the error of the first element `f` refuses. */
  lemma {:induction false} MapResultMeaning<A, B, E>(xs: seq<A>, f: A -> Result<B, E>)
    ensures MapResult(xs, f).Ok? <==> forall i | 0 <= i < |xs| :: f(xs[i]).Ok?
    ensures MapResult(xs, f).Ok? ==>
      forall i | 0 <= i < |xs| :: f(xs[i]) == Ok(MapResult(xs, f).value[i])
    ensures MapResult(xs, f).Err? ==>
      exists i | 0 <= i < |xs| ::
        f(xs[i]) == Err(MapResult(xs, f).error) && forall j | 0 <= j < i :: f(xs[j]).Ok?
  {
    if |xs| > 0 {
      var rest := xs[1..];
      MapResultMeaning(rest, f);
      assert forall i | 1 <= i < |xs| :: rest[i - 1] == xs[i];
      var r := MapResult(xs, f);
      if f(xs[0]).Ok? && MapResult(rest, f).Ok? {
        assert r.value == [f(xs[0]).value] + MapResult(rest, f).value;
        forall i | 0 <= i < |xs| ensures f(xs[i]) == Ok(r.value[i]) {
          if i > 0 {
            assert r.value[i] == MapResult(rest, f).value[i - 1];
          }
        }
      } else if f(xs[0]).Ok? {
        var i :| 0 <= i < |rest| && f(rest[i]) == Err(r.error) && forall j | 0 <= j < i :: f(rest[j]).Ok?;
        assert f(xs[i + 1]) == Err(r.error);
        assert forall j | 0 <= j < i + 1 :: f(xs[j]).Ok? by {
          forall j | 0 < j < i + 1 ensures f(xs[j]).Ok? {
            assert xs[j] == rest[j - 1];
          }
        }
      } else {
        assert f(xs[0]) == Err(r.error);
      }
    }
  }
}
