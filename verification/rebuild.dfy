/** Draining a generator of formatted elements into a new container.

    The sequence combinators are generators wrapped by `return_arg_type`, the mapping
    combinators generators wrapped by `to_dict`; either wrapper consumes the generator before
    the call returns. Each step of the generator yields a value or raises. The first step that
    raises ends the call with that exception and every value produced so far is discarded;
    otherwise the container holds every yielded value, in order.
 */
module Rebuild {
  import opened Exceptions

  /** Step `k` is the first step of `steps` that raises, and it raises `e`. */
  ghost predicate FailsFirstAt<U, E>(steps: seq<Result<U, E>>, k: int, e: E) {
    && 0 <= k < |steps|
    && steps[k] == Err(e)
    && forall j | 0 <= j < k :: steps[j].Ok?
  }

  /** The outcome of draining a generator whose steps are `steps`. */
  function Gather<U, E>(steps: seq<Result<U, E>>): (r: Result<seq<U>, E>)
    ensures r.Ok? <==> forall i | 0 <= i < |steps| :: steps[i].Ok?
    ensures r.Ok? ==> |r.value| == |steps| && forall i | 0 <= i < |steps| :: steps[i] == Ok(r.value[i])
    ensures r.Err? ==> exists k :: FailsFirstAt(steps, k, r.error)
  {
    if steps == [] then Ok([])
    else
      match steps[0]
      case Err(e) =>
        assert FailsFirstAt(steps, 0, e);
        Err(e)
      case Ok(head) =>
        match Gather(steps[1..])
        case Err(e) =>
          FailureAfterSuccess(steps, e);
          Err(e)
        case Ok(tail) => Ok([head] + tail)
  }

  /** A step that succeeds does not change which later step fails first. */
  lemma FailureAfterSuccess<U, E>(steps: seq<Result<U, E>>, e: E)
    requires |steps| > 0 && steps[0].Ok?
    requires exists k :: FailsFirstAt(steps[1..], k, e)
    ensures exists k :: FailsFirstAt(steps, k, e)
  {
    var k :| FailsFirstAt(steps[1..], k, e);
    assert FailsFirstAt(steps, k + 1, e);
  }

  /** Draining two generators one after the other is draining their concatenation. */
  lemma {:induction false} GatherAppend<U, E>(a: seq<Result<U, E>>, b: seq<Result<U, E>>)
    ensures Gather(a + b) == (var x :- Gather(a); var y :- Gather(b); Ok(x + y))
  {
    if a == [] {
      assert a + b == b;
      match Gather(b)
      case Err(_) =>
      case Ok(y) => assert [] + y == y;
    } else {
      assert (a + b)[0] == a[0];
      assert (a + b)[1..] == a[1..] + b;
      GatherAppend(a[1..], b);
      match a[0]
      case Err(_) =>
      case Ok(head) =>
        match Gather(a[1..])
        case Err(_) =>
        case Ok(x) =>
          match Gather(b)
          case Err(_) =>
          case Ok(y) =>
            assert [head] + (x + y) == ([head] + x) + y;
    }
  }
}
