/**
 * Per-frame pitch samples. A pitch tracker reports one f0 value per frame;
 * a frame without pitch carries NaN. Here a finite value is `Some(hz)` and a
 * non-finite one (NaN or an infinity) is `None`.
 */
module Frames {
  import opened Wrappers

  type Sample = Option<real>

  function Min(a: int, b: int): int
  {
    if a <= b then a else b
  }

  /** The finite values of `xs`, in frame order (numpy's `xs[np.isfinite(xs)]`). */
  function Finite(xs: seq<Sample>): (r: seq<real>)
    ensures |r| <= |xs|
  {
    if xs == [] then []
    else Finite(xs[..|xs| - 1]) + (match xs[|xs| - 1] case Some(v) => [v] case None => [])
  }

  /** Every finite value comes from a sample of `xs`. */
  lemma {:induction false} FiniteSource(xs: seq<Sample>, k: nat)
    requires k < |Finite(xs)|
    ensures exists p :: 0 <= p < |xs| && xs[p] == Some(Finite(xs)[k])
  {
    var init, last := xs[..|xs| - 1], xs[|xs| - 1];
    if k < |Finite(init)| {
      FiniteSource(init, k);
      var p :| 0 <= p < |init| && init[p] == Some(Finite(init)[k]);
      assert xs[p] == init[p];
    } else {
      assert xs[|xs| - 1] == Some(Finite(xs)[k]);
    }
  }

  /** No value is finite exactly when every sample is NaN. */
  lemma {:induction false} FiniteEmptyIff(xs: seq<Sample>)
    ensures |Finite(xs)| == 0 <==> forall k :: 0 <= k < |xs| ==> xs[k].None?
  {
    if xs != [] {
      var init := xs[..|xs| - 1];
      FiniteEmptyIff(init);
      assert forall k :: 0 <= k < |init| ==> init[k] == xs[k];
    }
  }

  /** When every frame of `xs` is finite, no value is filtered out. */
  lemma {:induction false} FiniteKeepsAll(xs: seq<Sample>)
    requires forall k :: 0 <= k < |xs| ==> xs[k].Some?
    ensures |Finite(xs)| == |xs|
  {
    if xs != [] {
      FiniteKeepsAll(xs[..|xs| - 1]);
    }
  }
}
