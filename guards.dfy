/**
 * Ordered guard chains: the admin controllers check a list of conditions in a
 * fixed order and answer with the rejection of the first one that fails.
 */
module Guards {
  import opened Common
  import opened ApiResults

  /**
   * The answer of a guarded controller action: refused by a guard (with the
   * guard's answer), thrown by a check that throws, or performed.
   */
  datatype Response<T> = Refused(answer: ApiResult<T>) | Threw(error: Exception) | Done(answer: ApiResult<T>)

  /** One guard: whether its condition holds, and what is answered when it does not. */
  datatype Check<E> = Check(holds: bool, rejection: E)

  predicate AllHold<E>(cs: seq<Check<E>>) {
    forall i :: 0 <= i < |cs| ==> cs[i].holds
  }

  /** The position of the first failing guard, or None when every guard holds. */
  function FirstFailing<E>(cs: seq<Check<E>>): (r: Option<nat>)
    ensures r.None? <==> AllHold(cs)
    ensures r.Some? ==> r.value < |cs| && !cs[r.value].holds && forall j :: 0 <= j < r.value ==> cs[j].holds
    decreases |cs|
  {
    if |cs| == 0 then None
    else if !cs[0].holds then Some(0)
    else
      match FirstFailing(cs[1..])
      case None => None
      case Some(i) =>
        Some(i + 1)
  }

  /** The rejection of the first failing guard, or None when every guard holds. */
  function FirstRejection<E>(cs: seq<Check<E>>): (r: Option<E>)
    ensures r.None? <==> AllHold(cs)
    ensures r.Some? ==> exists i :: 0 <= i < |cs| && !cs[i].holds && r.value == cs[i].rejection
                                    && AllHold(cs[..i])
  {
    match FirstFailing(cs)
    case None => None
    case Some(i) => Some(cs[i].rejection)
  }

  /** The chain looks at its first guard, and at the rest only when that one holds. */
  lemma FirstRejectionCons<E>(c: Check<E>, cs: seq<Check<E>>)
    ensures FirstRejection([c] + cs) == if !c.holds then Some(c.rejection) else FirstRejection(cs)
  {
    assert ([c] + cs)[1..] == cs;
  }

  /** The guarded action: the first rejection if any guard fails, else what the action answers. */
  function Guarded<T>(cs: seq<Check<Response<T>>>, action: Response<T>): (r: Response<T>)
    ensures AllHold(cs) ==> r == action
    ensures !AllHold(cs) ==> exists i :: 0 <= i < |cs| && !cs[i].holds && AllHold(cs[..i]) && r == cs[i].rejection
  {
    match FirstRejection(cs)
    case None => action
    case Some(x) => x
  }

  /** A failing guard decides the answer when every guard before it holds. */
  lemma {:induction false} FirstFailureWins<E>(cs: seq<Check<E>>, i: nat)
    requires i < |cs| && !cs[i].holds && AllHold(cs[..i])
    ensures FirstRejection(cs) == Some(cs[i].rejection)
    decreases i
  {
    if i > 0 {
      assert cs[0] == cs[..i][0];
      assert cs[1..][..i - 1] == cs[..i][1..];
      FirstFailureWins(cs[1..], i - 1);
    }
  }

  /** Guards placed after a failing one are never looked at. */
  lemma LaterGuardsIrrelevant<E>(front: seq<Check<E>>, back1: seq<Check<E>>, back2: seq<Check<E>>)
    requires !AllHold(front)
    ensures FirstRejection(front + back1) == FirstRejection(front + back2)
  {
    var i := FirstFailing(front).value;
    assert (front + back1)[..i] == front[..i];
    assert (front + back2)[..i] == front[..i];
    FirstFailureWins(front + back1, i);
    FirstFailureWins(front + back2, i);
  }
}
