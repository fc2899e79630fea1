// Shared value types for the model: an optional value (the source's
// `undefined` / `null`) and an operation outcome (a mutation that either
// completes or throws).

module Common {

  /** A value that may be absent: `undefined` or `null` in the source. */
  datatype Option<+T> = None | Some(value: T) {
    /** The value, or `default` when absent (the source's `x ?? default`). */
    function GetOr(default: T): (r: T)
      ensures Some? ==> r == value
      ensures None? ==> r == default
    {
      match this
      case Some(v) => v
      case None => default
    }
  }

  /** The errors the backend mutations throw. */
  datatype Error =
    | NotFoundOrForbidden   // "Journal not found or access denied"
    | UserNotFound          // "User not found"
    | OnboardingNotStarted  // "Onboarding not started"
    | NotUnique             // `.unique()` found more than one row

  /** A mutation's outcome: it completed, or it threw and changed nothing. */
  datatype Outcome<+R> = Done(result: R) | Failed(error: Error)

  function Max(a: int, b: int): int { if a >= b then a else b }

  function Min(a: int, b: int): int { if a <= b then a else b }

  function MaxReal(a: real, b: real): real { if a >= b then a else b }

  function MinReal(a: real, b: real): real { if a <= b then a else b }

  /** `xs.map(f)` keeping only the present results, in order: a
      `filter` followed by a `map`. */
  function FilterMap<A, B>(xs: seq<A>, f: A -> Option<B>): (r: seq<B>)
    ensures |r| <= |xs|
  {
    if xs == [] then []
    else
      var rest := FilterMap(xs[..|xs| - 1], f);
      var y := f(xs[|xs| - 1]);
      if y.Some? then rest + [y.value] else rest
  }

  /** The results are exactly the present values of `f` on the items. */
  lemma {:induction false} FilterMapExactly<A, B>(xs: seq<A>, f: A -> Option<B>, y: B)
    ensures y in FilterMap(xs, f) <==> exists k :: 0 <= k < |xs| && f(xs[k]) == Some(y)
  {
    if xs != [] {
      var n := |xs| - 1;
      var init := xs[..n];
      FilterMapExactly(init, f, y);
      assert y in FilterMap(xs, f) <==> y in FilterMap(init, f) || f(xs[n]) == Some(y);
      assert (exists k :: 0 <= k < |init| && f(init[k]) == Some(y)) <==>
             (exists k :: 0 <= k < n && f(xs[k]) == Some(y)) by {
        assert forall k :: 0 <= k < n ==> init[k] == xs[k];
      }
    }
  }

  /** Filtering and mapping from the front: the first item's value, if
      any, comes before those of the rest. */
  lemma {:induction false} FilterMapCons<A, B>(xs: seq<A>, f: A -> Option<B>)
    requires xs != []
    ensures FilterMap(xs, f) == (if f(xs[0]).Some? then [f(xs[0]).value] else []) + FilterMap(xs[1..], f)
  {
    var n := |xs| - 1;
    if n == 0 {
      assert xs[..n] == [] && xs[1..] == [];
    } else {
      var init := xs[..n];
      FilterMapCons(init, f);
      assert init[0] == xs[0];
      assert init[1..] == xs[1..][..n - 1];
      assert xs[1..][n - 1] == xs[n];
    }
  }

  /** `a` is `b` with some items left out, in the same order. */
  predicate Subsequence<T(==)>(a: seq<T>, b: seq<T>)
    decreases |b|
  {
    a == [] || (b != [] && ((a[0] == b[0] && Subsequence(a[1..], b[1..])) || Subsequence(a, b[1..])))
  }

  /** A subsequence is no longer than the sequence it is taken from. */
  lemma {:induction false} SubsequenceLength<T>(a: seq<T>, b: seq<T>)
    requires Subsequence(a, b)
    ensures |a| <= |b|
    decreases |b|
  {
    if a != [] {
      if a[0] == b[0] && Subsequence(a[1..], b[1..]) {
        SubsequenceLength(a[1..], b[1..]);
      } else {
        SubsequenceLength(a, b[1..]);
      }
    }
  }
}
