/** Option and Result, the failure-carrying values the rest of the model returns. */
module Wrappers {

  datatype Option<+T> = None | Some(value: T)

  /** Failure-compatible, so that `:-` propagates an error as a raised exception would. */
  datatype Result<+T, +E> = Ok(value: T) | Err(error: E) {

    predicate IsFailure()
    {
      Err?
    }

    function PropagateFailure<U>(): Result<U, E>
      requires Err?
    {
      Err(error)
    }

    function Extract(): T
      requires Ok?
    {
      value
    }
  }

  /**
   * A loop over results already computed: the first failure ends it, a
   * None is skipped and a Some is appended.
   */
  function Kept<T, E>(cs: seq<Result<Option<T>, E>>): Result<seq<T>, E>
    decreases |cs|
  {
    if cs == [] then Ok([])
    else
      var q :- Kept(cs[..|cs| - 1]);
      var c :- cs[|cs| - 1];
      if c.Some? then Ok(q + [c.value]) else Ok(q)
  }

  /** Each value kept is one of the results. */
  lemma {:induction false} KeptSound<T, E>(cs: seq<Result<Option<T>, E>>)
    requires Kept(cs).Ok?
    ensures forall i | 0 <= i < |Kept(cs).value| :: exists j | 0 <= j < |cs| :: cs[j] == Ok(Some(Kept(cs).value[i]))
    decreases |cs|
  {
    if cs != [] {
      var p := cs[..|cs| - 1];
      KeptSound(p);
      var q := Kept(p).value;
      var q' := Kept(cs).value;
      forall i | 0 <= i < |q'| ensures exists j | 0 <= j < |cs| :: cs[j] == Ok(Some(q'[i])) {
        if i < |q| {
          var j :| 0 <= j < |p| && p[j] == Ok(Some(q[i]));
          assert cs[j] == p[j] && q'[i] == q[i];
        } else {
          assert cs[|p|] == Ok(Some(q'[i]));
        }
      }
    }
  }

  /** Each result that is a value is kept. */
  lemma {:induction false} KeptComplete<T, E>(cs: seq<Result<Option<T>, E>>, j: int, d: T)
    requires Kept(cs).Ok? && 0 <= j < |cs| && cs[j] == Ok(Some(d))
    ensures exists i | 0 <= i < |Kept(cs).value| :: Kept(cs).value[i] == d
    decreases |cs|
  {
    var p := cs[..|cs| - 1];
    var q := Kept(p).value;
    var q' := Kept(cs).value;
    if j < |p| {
      assert p[j] == cs[j];
      KeptComplete(p, j, d);
      var i :| 0 <= i < |q| && q[i] == d;
      assert q'[i] == q[i];
    } else {
      assert q' == q + [d];
      assert q'[|q|] == d;
    }
  }

  /** The loop completes exactly when no result is a failure. */
  lemma {:induction false} KeptOk<T, E>(cs: seq<Result<Option<T>, E>>)
    ensures Kept(cs).Ok? <==> forall i | 0 <= i < |cs| :: cs[i].Ok?
    decreases |cs|
  {
    if cs != [] {
      var p := cs[..|cs| - 1];
      assert forall i | 0 <= i < |p| :: p[i] == cs[i];
      KeptOk(p);
    }
  }
}
