/** Running a fallible step over a list, collecting what each step answers. */
module Folding {
  import opened Wrappers

  /** One more step from where a run stands, unless it has failed. */
  function Next<S, X, Y>(step: (S, X) -> Result<(S, Y)>, sofar: Result<(S, seq<Y>)>, x: X): Result<(S, seq<Y>)> {
    var (s, out) :- sofar;
    var (after, y) :- step(s, x);
    Ok((after, out + [y]))
  }

  /** The first `k` steps over a list. */
  function Each<S, X, Y>(step: (S, X) -> Result<(S, Y)>, start: Result<(S, seq<Y>)>, list: seq<X>, k: nat)
    : Result<(S, seq<Y>)>
    requires k <= |list|
  {
    if k == 0 then start else Next(step, Each(step, start, list, k - 1), list[k - 1])
  }

  lemma OneMoreStep<S, X, Y>(step: (S, X) -> Result<(S, Y)>, start: Result<(S, seq<Y>)>, list: seq<X>, j: nat, k: nat)
    requires k == j + 1 <= |list|
    ensures Each(step, start, list, k) == Next(step, Each(step, start, list, j), list[j])
  {}

  function Prefixed<S, Y>(out: seq<Y>, r: Result<(S, seq<Y>)>): Result<(S, seq<Y>)> {
    match r
    case Ok((s, more)) => Ok((s, out + more))
    case Err(error) => Err(error)
  }

  lemma PrefixedNext<S, X, Y>(step: (S, X) -> Result<(S, Y)>, out: seq<Y>, r: Result<(S, seq<Y>)>, x: X)
    ensures Next(step, Prefixed(out, r), x) == Prefixed(out, Next(step, r, x))
  {
    if Next(step, r, x).Ok? {
      var y := step(r.value.0, x).value.1;
      assert (out + r.value.1) + [y] == out + (r.value.1 + [y]);
    }
  }

  lemma {:induction false} EachPrefixed<S, X, Y>(step: (S, X) -> Result<(S, Y)>, out: seq<Y>, r: Result<(S, seq<Y>)>,
                                               list: seq<X>, k: nat)
    requires k <= |list|
    ensures Each(step, Prefixed(out, r), list, k) == Prefixed(out, Each(step, r, list, k))
  {
    if k > 0 {
      EachPrefixed(step, out, r, list, k - 1);
      PrefixedNext(step, out, Each(step, r, list, k - 1), list[k - 1]);
    }
  }

  lemma {:induction false} EachConcat<S, X, Y>(step: (S, X) -> Result<(S, Y)>, start: Result<(S, seq<Y>)>,
                                             a: seq<X>, b: seq<X>, k: nat)
    requires k <= |a| + |b|
    ensures Each(step, start, a + b, k)
      == if k <= |a| then Each(step, start, a, k) else Each(step, Each(step, start, a, |a|), b, k - |a|)
  {
    if k > 0 { EachConcat(step, start, a, b, k - 1); }
  }

  /** Two runs in turn are one run over the joined list. */
  lemma EachJoins<S, X, Y>(step: (S, X) -> Result<(S, Y)>, s: S, a: seq<X>, b: seq<X>)
    ensures var first := Each(step, Ok((s, [])), a, |a|);
      Each(step, Ok((s, [])), a + b, |a + b|)
        == if first.Err? then first
           else Prefixed(first.value.1, Each(step, Ok((first.value.0, [])), b, |b|))
  {
    var first := Each(step, Ok((s, [])), a, |a|);
    EachConcat(step, Ok((s, [])), a, b, |a| + |b|);
    if first.Ok? {
      EachPrefixed(step, first.value.1, Ok((first.value.0, [])), b, |b|);
      assert first.value.1 + [] == first.value.1;
    } else {
      EachFails(step, first, b, |b|);
    }
  }

  lemma {:induction false} EachFails<S, X, Y>(step: (S, X) -> Result<(S, Y)>, start: Result<(S, seq<Y>)>, list: seq<X>, k: nat)
    requires start.Err? && k <= |list|
    ensures Each(step, start, list, k) == start
  {
    if k > 0 { EachFails(step, start, list, k - 1); }
  }
}
