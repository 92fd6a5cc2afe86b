/** Option and Result values used wherever the Python code returns NaN/None or raises. */
module Wrappers {

  datatype Option<+T> = None | Some(value: T)

  /** The exception a Python call would raise, by its class name. */
  datatype Error =
    | IndexError
    | KeyError
    | ValueError
    | AttributeError
    | Exception

  datatype Result<+T> = Success(value: T) | Failure(error: Error) {
    predicate IsFailure() { Failure? }

    function PropagateFailure<U>(): Result<U>
      requires Failure?
    {
      Failure(error)
    }

    function Extract(): T
      requires Success?
    {
      value
    }
  }

  /** Applies `f` to every element in order, as a pandas `apply` does: the first element
      whose call raises makes the whole call raise. */
  function MapAll<T, U>(s: seq<T>, f: T -> Result<U>): (r: Result<seq<U>>)
    ensures r.Success? <==> forall i :: 0 <= i < |s| ==> f(s[i]).Success?
    ensures r.Success? ==> |r.value| == |s| && forall i :: 0 <= i < |s| ==> f(s[i]) == Success(r.value[i])
    ensures r.Failure? ==>
      exists i :: (0 <= i < |s| && f(s[i]) == Failure(r.error) && forall j :: 0 <= j < i ==> f(s[j]).Success?)
  {
    if s == [] then Success([])
    else
      var head := f(s[0]);
      var tail := MapAll(s[1..], f);
      assert forall i :: 1 <= i < |s| ==> s[1..][i - 1] == s[i];
      if head.Failure? then Failure(head.error)
      else if tail.Failure? then
        var i :| 0 <= i < |s| - 1 && f(s[1..][i]) == Failure(tail.error)
          && (forall j :: 0 <= j < i ==> f(s[1..][j]).Success?);
        assert f(s[i + 1]) == Failure(tail.error);
        Failure(tail.error)
      else Success([head.value] + tail.value)
  }

  /** When every call succeeds, the values are the results of the calls, in order. */
  lemma MapAllSucceeds<T, U>(s: seq<T>, f: T -> Result<U>, vals: seq<U>)
    requires |vals| == |s| && forall i :: 0 <= i < |s| ==> f(s[i]) == Success(vals[i])
    ensures MapAll(s, f) == Success(vals)
  {
    var r := MapAll(s, f);
    assert r.Success?;
    assert forall i :: 0 <= i < |s| ==> r.value[i] == vals[i];
    assert r.value == vals;
  }

  /** The error is that of the first call that fails. */
  lemma MapAllFirstFailure<T, U>(s: seq<T>, f: T -> Result<U>, i: nat)
    requires i < |s| && f(s[i]).Failure? && forall j :: 0 <= j < i ==> f(s[j]).Success?
    ensures MapAll(s, f) == Failure(f(s[i]).error)
  {
    var r := MapAll(s, f);
    var k :| 0 <= k < |s| && f(s[k]) == Failure(r.error) && forall j :: 0 <= j < k ==> f(s[j]).Success?;
    assert k == i;
  }
}
