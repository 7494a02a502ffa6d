/** Option and Result, the two failure-carrying values the rest of the model uses:
    Option for a value that may be absent (an out-of-range cell, a file that
    cannot be opened), Result for a computation that may raise. */
module Outcomes {

  datatype Option<+T> = None | Some(value: T)

  datatype Result<+T, +E> = Success(value: T) | Failure(error: E)

  /** The outcomes of steps run in order: every value, or the error of the
      first step that fails (the steps after it are not run). */
  function Collect<T, E>(rs: seq<Result<T, E>>): Result<seq<T>, E> {
    if rs == [] then Success([])
    else
      match Collect(rs[..|rs| - 1])
      case Failure(e) => Failure(e)
      case Success(vs) =>
        match rs[|rs| - 1]
        case Failure(e) => Failure(e)
        case Success(v) => Success(vs + [v])
  }

  /** Success means every step succeeded, and the values are theirs, in order. */
  lemma {:induction false} CollectSuccess<T, E>(rs: seq<Result<T, E>>)
    requires Collect(rs).Success?
    ensures |Collect(rs).value| == |rs|
    ensures forall i :: 0 <= i < |rs| ==> rs[i] == Success(Collect(rs).value[i])
    decreases |rs|
  {
    if rs != [] {
      var init := rs[..|rs| - 1];
      CollectSuccess(init);
      assert forall i :: 0 <= i < |init| ==> rs[i] == init[i];
    }
  }

  /** Failure carries the error of a failing step, every earlier step having
      succeeded. */
  lemma {:induction false} CollectFailure<T, E>(rs: seq<Result<T, E>>)
    requires Collect(rs).Failure?
    ensures exists i :: 0 <= i < |rs| && rs[i] == Failure(Collect(rs).error)
                        && forall j :: 0 <= j < i ==> rs[j].Success?
    decreases |rs|
  {
    var init := rs[..|rs| - 1];
    assert forall j :: 0 <= j < |init| ==> rs[j] == init[j];
    if Collect(init).Failure? {
      CollectFailure(init);
      var i :| 0 <= i < |init| && init[i] == Failure(Collect(rs).error)
               && forall j :: 0 <= j < i ==> init[j].Success?;
      assert rs[i] == init[i];
    } else {
      CollectSuccess(init);
      assert rs[|init|] == Failure(Collect(rs).error);
    }
  }

  /** Once a prefix fails, the later steps do not change the error. */
  lemma {:induction false} CollectFailurePersists<T, E>(rs: seq<Result<T, E>>, k: nat)
    requires k <= |rs| && Collect(rs[..k]).Failure?
    ensures Collect(rs) == Collect(rs[..k])
    decreases |rs|
  {
    if k < |rs| {
      var init := rs[..|rs| - 1];
      assert init[..k] == rs[..k];
      CollectFailurePersists(init, k);
    } else {
      assert rs[..k] == rs;
    }
  }
}
