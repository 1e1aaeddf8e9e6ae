/**
 The user-supplied filter pipeline: an ordered list of `rows -> rows` stages
 applied one after the other, where any stage may raise. A raising stage is
 a `Err(cause)` result and stops the pipeline.
 */
module Pipeline {
  import opened Basics

  /** One filter stage; the error carries the cause the stage raised. */
  type Filter<!T> = seq<T> -> Result<seq<T>, string>

  /** Applies `filters` left to right to `rows`, stopping at the first failure.
      A failure reports a cause some stage raised, and stages that never raise
      make a pipeline that never fails. */
  function Run<T(!new)>(filters: seq<Filter<T>>, rows: seq<T>): (r: Result<seq<T>, string>)
    ensures r.Err? ==> exists i, xs :: 0 <= i < |filters| && filters[i](xs) == Err(r.error)
    ensures (forall i, xs :: 0 <= i < |filters| ==> filters[i](xs).Ok?) ==> r.Ok?
    decreases |filters|
  {
    if |filters| == 0 then Ok(rows)
    else
      match filters[0](rows)
      case Err(cause) => Err(cause)
      case Ok(next) =>
        var rest := Run(filters[1..], next);
        assert rest.Err? ==> exists i, xs :: 0 <= i < |filters| && filters[i](xs) == Err(rest.error) by {
          if rest.Err? {
            var i, xs :| 0 <= i < |filters| - 1 && filters[1..][i](xs) == Err(rest.error);
            assert filters[1..][i] == filters[i + 1];
          }
        }
        assert (forall i, xs :: 0 <= i < |filters| ==> filters[i](xs).Ok?) ==> rest.Ok? by {
          if forall i, xs :: 0 <= i < |filters| ==> filters[i](xs).Ok? {
            forall i, xs | 0 <= i < |filters| - 1
              ensures filters[1..][i](xs).Ok?
            {
              assert filters[1..][i] == filters[i + 1];
            }
          }
        }
        rest
  }

  /** Feeds an intermediate result to the rest of a pipeline. */
  function Then<T(!new)>(mid: Result<seq<T>, string>, filters: seq<Filter<T>>): (r: Result<seq<T>, string>) {
    match mid
    case Err(cause) => Err(cause)
    case Ok(rows) => Run(filters, rows)
  }

  /** An empty pipeline is the identity. */
  lemma RunEmpty<T(!new)>(rows: seq<T>)
    ensures Run([], rows) == Ok(rows)
  {
  }

  /** A one-stage pipeline is that stage. */
  lemma RunSingle<T(!new)>(f: Filter<T>, rows: seq<T>)
    ensures Run([f], rows) == f(rows)
  {
    assert [f][1..] == [];
  }

  /** Running `first + second` is running `first`, then `second` on its output:
      the pipeline is left-to-right function composition. */
  lemma {:induction false} RunAppend<T(!new)>(first: seq<Filter<T>>, second: seq<Filter<T>>, rows: seq<T>)
    ensures Run(first + second, rows) == Then(Run(first, rows), second)
    decreases |first|
  {
    if |first| == 0 {
      assert first + second == second;
    } else {
      assert (first + second)[0] == first[0];
      assert (first + second)[1..] == first[1..] + second;
      match first[0](rows)
      case Err(_) =>
      case Ok(next) => RunAppend(first[1..], second, next);
    }
  }

  /** Every stage maps rows satisfying `inv` to rows satisfying `inv`. */
  ghost predicate Preserves<T(!new)>(filters: seq<Filter<T>>, inv: seq<T> -> bool) {
    forall i, rows :: 0 <= i < |filters| && inv(rows) && filters[i](rows).Ok? ==> inv(filters[i](rows).value)
  }

  /** A property every stage preserves holds of the pipeline's output. */
  lemma {:induction false} RunPreserves<T(!new)>(filters: seq<Filter<T>>, inv: seq<T> -> bool, rows: seq<T>)
    requires inv(rows)
    requires Preserves(filters, inv)
    ensures Run(filters, rows).Ok? ==> inv(Run(filters, rows).value)
    decreases |filters|
  {
    if |filters| > 0 {
      match filters[0](rows)
      case Err(_) =>
      case Ok(next) =>
        assert inv(next);
        assert Preserves(filters[1..], inv) by {
          forall i, xs | 0 <= i < |filters| - 1 && inv(xs) && filters[1..][i](xs).Ok?
            ensures inv(filters[1..][i](xs).value)
          {
            assert filters[1..][i] == filters[i + 1];
          }
        }
        RunPreserves(filters[1..], inv, next);
    }
  }

}
