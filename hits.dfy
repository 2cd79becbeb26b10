/**
 * Candidate hits and the shader's `merge`, the pairwise "nearest hit ahead"
 * reduction with `-1` meaning "no hit", and its left fold as used by `hitScene`.
 */
module Hits {
  import opened Vectors

  datatype Option<T> = None | Some(value: T)

  /**
   * A ray parameter with the normal written for it. `normal` is `None` where
   * the shader leaves its `out` normal unwritten (so its value is undefined).
   */
  datatype Hit = Hit(t: real, normal: Option<Vec3>)

  /** The "no hit" result: parameter `-1` and an unwritten normal. */
  const Miss: Hit := Hit(-1.0, None)

  /**
   * Candidate i is ahead of the ray (non-negative t), no candidate ahead is
   * nearer, and every later candidate ahead is strictly farther.
   */
  predicate IsLastNearest(hs: seq<Hit>, i: int)
    requires 0 <= i < |hs|
  {
    && hs[i].t >= 0.0
    && (forall j :: 0 <= j < |hs| && hs[j].t >= 0.0 ==> hs[i].t <= hs[j].t)
    && (forall j :: i < j < |hs| && hs[j].t >= 0.0 ==> hs[i].t < hs[j].t)
  }

  /**
   * The reference rule for picking a hit from candidates `hs`: `Miss` when no
   * candidate lies ahead, otherwise the last candidate ahead with the least t,
   * carried with its own normal.
   */
  predicate IsNearest(r: Hit, hs: seq<Hit>) {
    if forall i :: 0 <= i < |hs| ==> hs[i].t < 0.0 then r == Miss
    else exists i :: 0 <= i < |hs| && r == hs[i] && IsLastNearest(hs, i)
  }

  /** `merge`: the candidate nearer ahead of the ray, the second one on a tie. */
  function Merge(h1: Hit, h2: Hit): (r: Hit)
    ensures h1.t < 0.0 && h2.t < 0.0 ==> r == Miss
    ensures h1.t >= 0.0 && h2.t < 0.0 ==> r == h1
    ensures h1.t < 0.0 && h2.t >= 0.0 ==> r == h2
    ensures 0.0 <= h1.t < h2.t ==> r == h1
    ensures 0.0 <= h2.t <= h1.t ==> r == h2
    ensures r.t == -1.0 <==> h1.t < 0.0 && h2.t < 0.0
  {
    if h1.t < 0.0 && h2.t < 0.0 then Miss
    else if h2.t < 0.0 then h1
    else if h1.t < 0.0 then h2
    else if h1.t < h2.t then h1
    else h2
  }

  /** At most one hit satisfies the reference rule. */
  lemma NearestUnique(r1: Hit, r2: Hit, hs: seq<Hit>)
    requires IsNearest(r1, hs) && IsNearest(r2, hs)
    ensures r1 == r2
  {
    if !(forall i :: 0 <= i < |hs| ==> hs[i].t < 0.0) {
      var i1 :| 0 <= i1 < |hs| && r1 == hs[i1] && IsLastNearest(hs, i1);
      var i2 :| 0 <= i2 < |hs| && r2 == hs[i2] && IsLastNearest(hs, i2);
      assert i1 == i2;
    }
  }

  /** `merge` applies the reference rule to its two candidates. */
  lemma MergeIsNearest(h1: Hit, h2: Hit)
    ensures IsNearest(Merge(h1, h2), [h1, h2])
  {
    var hs := [h1, h2];
    if h2.t >= 0.0 && (h1.t < 0.0 || h2.t <= h1.t) {
      assert IsLastNearest(hs, 1);
    } else if h1.t >= 0.0 {
      assert IsLastNearest(hs, 0);
    }
  }

  /** `merge` is the only hit that meets the reference rule for two candidates. */
  lemma NearestIsMerge(r: Hit, h1: Hit, h2: Hit)
    requires IsNearest(r, [h1, h2])
    ensures r == Merge(h1, h2)
  {
    MergeIsNearest(h1, h2);
    NearestUnique(r, Merge(h1, h2), [h1, h2]);
  }

  /**
   * The chain `t = merge(h0, h1); t = merge(t, h2); ...` of `hitScene`,
   * a left fold of `merge` over at least two candidates.
   */
  function Chain(hs: seq<Hit>): Hit
    requires |hs| >= 2
    decreases |hs|
  {
    if |hs| == 2 then Merge(hs[0], hs[1]) else Merge(Chain(hs[..|hs| - 1]), hs[|hs| - 1])
  }

  /** One more `merge` into an accumulator that is the nearest of `init`. */
  lemma MergeStep(acc: Hit, init: seq<Hit>, h: Hit)
    requires IsNearest(acc, init)
    ensures IsNearest(Merge(acc, h), init + [h])
  {
    var hs := init + [h];
    var n := |init|;
    assert forall j :: 0 <= j < n ==> hs[j] == init[j];
    if forall i :: 0 <= i < n ==> init[i].t < 0.0 {
      assert acc == Miss;
      if h.t >= 0.0 {
        assert IsLastNearest(hs, n);
      }
    } else {
      var i :| 0 <= i < n && acc == init[i] && IsLastNearest(init, i);
      if h.t >= 0.0 && h.t <= acc.t {
        assert IsLastNearest(hs, n);
      } else {
        assert IsLastNearest(hs, i);
      }
    }
  }

  /** The fold applies the reference rule to all its candidates. */
  lemma {:induction false} ChainIsNearest(hs: seq<Hit>)
    requires |hs| >= 2
    ensures IsNearest(Chain(hs), hs)
    decreases |hs|
  {
    if |hs| == 2 {
      assert hs == [hs[0], hs[1]];
      MergeIsNearest(hs[0], hs[1]);
    } else {
      var init := hs[..|hs| - 1];
      ChainIsNearest(init);
      MergeStep(Chain(init), init, hs[|hs| - 1]);
      assert init + [hs[|hs| - 1]] == hs;
    }
  }

  /** The fold returns the sentinel exactly when no candidate lies ahead, and a miss carries no normal. */
  lemma ChainMiss(hs: seq<Hit>)
    requires |hs| >= 2
    ensures Chain(hs).t == -1.0 <==> forall i :: 0 <= i < |hs| ==> hs[i].t < 0.0
    ensures Chain(hs).t < 0.0 ==> Chain(hs) == Miss
  {
    ChainIsNearest(hs);
    if !(forall i :: 0 <= i < |hs| ==> hs[i].t < 0.0) {
      var i :| 0 <= i < |hs| && Chain(hs) == hs[i] && IsLastNearest(hs, i);
    }
  }

  /** Extending the candidates by one extends the fold by one `merge`. */
  lemma ChainSnoc(hs: seq<Hit>, k: int)
    requires 2 <= k < |hs|
    ensures Chain(hs[..k + 1]) == Merge(Chain(hs[..k]), hs[k])
  {
    assert hs[..k + 1][..k] == hs[..k];
  }
}
