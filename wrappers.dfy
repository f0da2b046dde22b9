/** Option and Result values, and the "keep the fulfilled ones" filter that
    models `Promise.allSettled(...).filter(fulfilled)` and the
    "push on success, log and skip on failure" batch loops. */
module Wrappers {

  datatype Option<+T> = None | Some(value: T) {
    function GetOr(default: T): T {
      match this
      case Some(v) => v
      case None => default
    }
  }

  datatype Result<+T, +E> = Success(value: T) | Failure(error: E)

  /** The values of the successful outcomes, in order. */
  function Successes<T, E>(rs: seq<Result<T, E>>): (vs: seq<T>)
    ensures |vs| <= |rs|
    ensures forall v :: v in vs ==> Success(v) in rs
  {
    if rs == [] then []
    else if rs[0].Success? then [rs[0].value] + Successes(rs[1..])
    else Successes(rs[1..])
  }

  /** Keeping the successes distributes over concatenation: the filter keeps
      the relative order of whatever it keeps. */
  lemma {:induction false} SuccessesAppend<T, E>(a: seq<Result<T, E>>, b: seq<Result<T, E>>)
    ensures Successes(a + b) == Successes(a) + Successes(b)
  {
    if a == [] {
      assert a + b == b;
    } else {
      assert (a + b)[1..] == a[1..] + b;
      SuccessesAppend(a[1..], b);
    }
  }

  /** One more outcome adds its value exactly when it succeeded. */
  lemma SuccessesSnoc<T, E>(rs: seq<Result<T, E>>, r: Result<T, E>)
    ensures Successes(rs + [r]) == Successes(rs) + (if r.Success? then [r.value] else [])
  {
    SuccessesAppend(rs, [r]);
    assert [r][1..] == [];
  }

  /** Nothing is dropped when nothing fails. */
  lemma {:induction false} SuccessesAllSucceed<T, E>(rs: seq<Result<T, E>>)
    requires forall i :: 0 <= i < |rs| ==> rs[i].Success?
    ensures |Successes(rs)| == |rs|
    ensures forall i :: 0 <= i < |rs| ==> Successes(rs)[i] == rs[i].value
  {
    if rs != [] {
      SuccessesAllSucceed(rs[1..]);
    }
  }

  /** Everything is dropped when everything fails. */
  lemma {:induction false} SuccessesAllFail<T, E>(rs: seq<Result<T, E>>)
    requires forall i :: 0 <= i < |rs| ==> rs[i].Failure?
    ensures Successes(rs) == []
  {
    if rs != [] {
      SuccessesAllFail(rs[1..]);
    }
  }
}
