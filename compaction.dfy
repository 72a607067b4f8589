/**
 * The maximally compacted layout. A layer's `initialViewPosition` is where it
 * rests when the layers are compacted as far as they go, and
 * `nextItemDistance` is the distance to the next layer in that state: the
 * next layer is never closer than that.
 */
module Compaction {

  /** The x positions of layers whose distances to their successors are `ds`, the first at `x0`, compacted maximally. */
  function Compacted(x0: real, ds: seq<real>): (xs: seq<real>)
    ensures |xs| == |ds| + 1 && xs[0] == x0
    ensures forall i :: 0 <= i < |ds| ==> xs[i + 1] == xs[i] + ds[i]
  {
    if ds == [] then [x0]
    else
      var p := Compacted(x0, ds[..|ds| - 1]);
      p + [p[|p| - 1] + ds[|ds| - 1]]
  }

  /** Positions `xs` in which no layer is closer to its predecessor than the predecessor's distance. */
  ghost predicate NeverCloser(xs: seq<real>, ds: seq<real>) {
    |xs| == |ds| + 1 && forall i :: 0 <= i < |ds| ==> xs[i + 1] >= xs[i] + ds[i]
  }

  /** Layers at exactly their predecessor's distance. */
  ghost predicate Tight(xs: seq<real>, ds: seq<real>) {
    |xs| == |ds| + 1 && forall i :: 0 <= i < |ds| ==> xs[i + 1] == xs[i] + ds[i]
  }

  /** The compacted positions are the leftmost ones any admissible layout can reach. */
  lemma {:induction false} CompactedIsLeftmost(xs: seq<real>, ds: seq<real>, x0: real, i: nat)
    requires NeverCloser(xs, ds) && xs[0] >= x0 && i < |xs|
    ensures xs[i] >= Compacted(x0, ds)[i]
  {
    if i > 0 {
      CompactedIsLeftmost(xs, ds, x0, i - 1);
    }
  }

  /** Layers that each sit exactly at their predecessor's distance are compacted maximally, and only they are. */
  lemma {:induction false} TightIsCompacted(xs: seq<real>, ds: seq<real>)
    requires |xs| == |ds| + 1
    ensures Tight(xs, ds) <==> xs == Compacted(xs[0], ds)
  {
    if Tight(xs, ds) {
      var c := Compacted(xs[0], ds);
      forall i | 0 <= i < |xs|
        ensures xs[i] == c[i]
      {
        TightAgrees(xs, ds, i);
      }
    }
  }

  lemma {:induction false} TightAgrees(xs: seq<real>, ds: seq<real>, i: nat)
    requires Tight(xs, ds) && i < |xs|
    ensures xs[i] == Compacted(xs[0], ds)[i]
  {
    if i > 0 {
      TightAgrees(xs, ds, i - 1);
    }
  }

  /** With non-negative distances no layer starts left of a layer below it. */
  lemma {:induction false} CompactedOrdered(x0: real, ds: seq<real>, i: nat, j: nat)
    requires forall k :: 0 <= k < |ds| ==> ds[k] >= 0.0
    requires i <= j <= |ds|
    ensures Compacted(x0, ds)[i] <= Compacted(x0, ds)[j]
    decreases j - i
  {
    if i < j {
      CompactedOrdered(x0, ds, i + 1, j);
    }
  }
}
