/** Option and Result, the two failure-compatible wrappers the model uses for Java's
    null and for the exceptions the query service lets escape. */
module Wrappers {

  datatype Option<+T> = None | Some(value: T) {
    function GetOr(default: T): T {
      match this
      case Some(v) => v
      case None => default
    }
  }

  datatype Result<+R, +E> = Success(value: R) | Failure(error: E) {
    predicate IsFailure() {
      Failure?
    }

    function PropagateFailure<U>(): Result<U, E>
      requires Failure?
    {
      Failure(error)
    }

    function Extract(): R
      requires Success?
    {
      value
    }
  }

  /** The values of `rs` from `i` on, in order, or the first failure among them: what a
      loop that stops at its first exception collects. */
  function Collect<T, E>(rs: seq<Result<T, E>>, i: nat): Result<seq<T>, E>
    requires i <= |rs|
    decreases |rs| - i
  {
    if i == |rs| then Success([])
    else
      match rs[i]
      case Failure(e) => Failure(e)
      case Success(v) =>
        match Collect(rs, i + 1)
        case Failure(e) => Failure(e)
        case Success(rest) => Success([v] + rest)
  }

  /** Collecting succeeds exactly when every result from `i` on does; it then holds their
      values in order, and otherwise the error of the first failure. */
  lemma {:induction false} CollectShape<T, E>(rs: seq<Result<T, E>>, i: nat)
    requires i <= |rs|
    ensures var x := Collect(rs, i);
      && (x.Success? <==> forall k :: i <= k < |rs| ==> rs[k].Success?)
      && (x.Success? ==> |x.value| == |rs| - i && forall k :: i <= k < |rs| ==> x.value[k - i] == rs[k].value)
      && (x.Failure? ==> exists k :: i <= k < |rs| && rs[k].Failure? && x.error == rs[k].error
                                  && forall j :: i <= j < k ==> rs[j].Success?)
    decreases |rs| - i
  {
    if i < |rs| {
      var x := Collect(rs, i);
      var xr := Collect(rs, i + 1);
      CollectShape(rs, i + 1);
      if rs[i].Success? {
        if xr.Success? {
          assert x.value == [rs[i].value] + xr.value;
          forall k | i <= k < |rs|
            ensures x.value[k - i] == rs[k].value
          {
            if k > i {
              assert x.value[k - i] == xr.value[k - (i + 1)];
            }
          }
        } else {
          var k :| i + 1 <= k < |rs| && rs[k].Failure? && xr.error == rs[k].error
                   && forall j :: i + 1 <= j < k ==> rs[j].Success?;
          assert x.error == rs[k].error && forall j :: i <= j < k ==> rs[j].Success?;
        }
      }
    }
  }
}
