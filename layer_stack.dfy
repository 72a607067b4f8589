/**
 * The navigation stack as a value: index 0 holds the root view controller,
 * the last index the top layer. The mutating methods of both navigation
 * controllers are specified by the functions of this module, and the
 * lemmas state what the header documentation promises about them.
 */
module LayerStack {

  function Top<T>(s: seq<T>): T
    requires |s| > 0
  {
    s[|s| - 1]
  }

  ghost predicate Distinct<T>(s: seq<T>) {
    forall i, j :: 0 <= i < j < |s| ==> s[i] != s[j]
  }

  /**
   * The index at which popping from the top first uncovers `x`: the highest
   * position holding `x`.
   */
  function LastIndexOf<T(==)>(s: seq<T>, x: T): (i: nat)
    requires x in s
    ensures i < |s| && s[i] == x
    ensures forall j :: i < j < |s| ==> s[j] != x
  {
    if s[|s| - 1] == x then |s| - 1
    else
      assert s == s[..|s| - 1] + [s[|s| - 1]];
      LastIndexOf(s[..|s| - 1], x)
  }

  /** `popViewControllerAnimated:`; the root layer is never removed. */
  function Pop<T>(s: seq<T>): (r: seq<T>)
    requires |s| > 0
    ensures |s| == 1 ==> r == s
    ensures |s| > 1 ==> r + [Top(s)] == s
  {
    if |s| == 1 then s else s[..|s| - 1]
  }

  /** The highest occurrence is the only one with no `x` above it. */
  lemma LastIndexOfUnique<T>(s: seq<T>, x: T, i: nat)
    requires i < |s| && s[i] == x
    requires forall j :: i < j < |s| ==> s[j] != x
    ensures LastIndexOf(s, x) == i
  {
  }

  /** `Pop` applied `k` times. */
  function PopTimes<T>(s: seq<T>, k: nat): (r: seq<T>)
    requires |s| > 0
    ensures |r| > 0
  {
    if k == 0 then s else PopTimes(Pop(s), k - 1)
  }

  /** `popToViewController:animated:`: pop until `x` is the top layer. */
  function PopTo<T(==)>(s: seq<T>, x: T): (r: seq<T>)
    requires x in s
    ensures |r| > 0 && Top(r) == x
    ensures r <= s
    ensures forall j :: |r| <= j < |s| ==> s[j] != x
  {
    s[..LastIndexOf(s, x) + 1]
  }

  /** `popToRootViewControllerAnimated:`: only the root layer is left. */
  function PopToRoot<T>(s: seq<T>): (r: seq<T>)
    requires |s| > 0
    ensures r == [s[0]]
  {
    s[..1]
  }

  /**
   * `pushViewController:inFrontOf:...`: everything above `anchor` is popped
   * first, then `vc` becomes the top layer, directly above `anchor`.
   */
  function Push<T(==)>(s: seq<T>, vc: T, anchor: T): (r: seq<T>)
    requires anchor in s
    ensures |r| >= 2 && Top(r) == vc && r[|r| - 2] == anchor
    ensures r[..|r| - 1] <= s
    ensures forall j :: |r| - 1 <= j < |s| ==> s[j] != anchor
  {
    PopTo(s, anchor) + [vc]
  }

  /**
   * The end of a pan gesture: when `dropLayersWhenPulledRight` is set and the
   * layers were pulled far enough to the right, all layers but the root are
   * dropped; otherwise the stack stays as it is.
   */
  function DropOnPull<T>(s: seq<T>, dropLayersWhenPulledRight: bool, pulledFarEnough: bool): (r: seq<T>)
    requires |s| > 0
    ensures dropLayersWhenPulledRight && pulledFarEnough ==> r == [s[0]]
    ensures r != s <==> dropLayersWhenPulledRight && pulledFarEnough && |s| > 1
  {
    if dropLayersWhenPulledRight && pulledFarEnough then PopToRoot(s) else s
  }

  // ---------------------------------------------------------------------
  // Properties of the stack operations

  /** Popping to the layer that is already on top changes nothing. */
  lemma PopToTopIsNoop<T>(s: seq<T>, x: T)
    requires |s| > 0 && Top(s) == x
    ensures PopTo(s, x) == s
  {
  }

  lemma PopToIdempotent<T>(s: seq<T>, x: T)
    requires x in s
    ensures PopTo(PopTo(s, x), x) == PopTo(s, x)
  {
    PopToTopIsNoop(PopTo(s, x), x);
  }

  lemma PopToRootIdempotent<T>(s: seq<T>)
    requires |s| > 0
    ensures PopToRoot(PopToRoot(s)) == PopToRoot(s)
  {
  }

  /** One step of "pop until `x` is on top": popping a top that is not `x` keeps the target. */
  lemma PopToSkipsTop<T>(s: seq<T>, x: T)
    requires x in s && Top(s) != x
    ensures |s| > 1 && x in Pop(s)
    ensures LastIndexOf(Pop(s), x) == LastIndexOf(s, x)
    ensures PopTo(Pop(s), x) == PopTo(s, x)
  {
    LastIndexOfUnique(Pop(s), x, LastIndexOf(s, x));
  }

  /** Popping `k` times, below the root, removes exactly the top `k` layers. */
  lemma {:induction false} PopTimesTruncates<T>(s: seq<T>, k: nat)
    requires k < |s|
    ensures PopTimes(s, k) == s[..|s| - k]
    decreases k
  {
    if k == 0 {
      assert s[..|s|] == s;
    } else {
      PopTimesTruncates(Pop(s), k - 1);
      assert Pop(s)[..|s| - k] == s[..|s| - k];
    }
  }

  /**
   * `popToViewController:` is `pop` repeated exactly as often as there are
   * layers above the highest `x`.
   */
  lemma {:induction false} PopToIsRepeatedPop<T>(s: seq<T>, x: T)
    requires x in s
    ensures PopTo(s, x) == PopTimes(s, |s| - 1 - LastIndexOf(s, x))
  {
    PopTimesTruncates(s, |s| - 1 - LastIndexOf(s, x));
  }

  /** `popToRootViewControllerAnimated:` pops every layer but the root, one by one. */
  lemma {:induction false} PopToRootIsRepeatedPop<T>(s: seq<T>)
    requires |s| > 0
    ensures PopToRoot(s) == PopTimes(s, |s| - 1)
    decreases |s|
  {
    if |s| > 1 {
      PopToRootIsRepeatedPop(Pop(s));
    }
  }

  /** When no controller occurs twice, popping to the root controller is popping to the root. */
  lemma PopToRootIsPopToRootController<T>(s: seq<T>)
    requires |s| > 0 && Distinct(s)
    ensures PopToRoot(s) == PopTo(s, s[0])
  {
    LastIndexOfUnique(s, s[0], 0);
  }

  /** Pushing in front of the top layer appends. */
  lemma PushOnTopAppends<T>(s: seq<T>, vc: T)
    requires |s| > 0
    ensures Push(s, vc, Top(s)) == s + [vc]
  {
    PopToTopIsNoop(s, Top(s));
  }

  /** Pushing in front of the layer at index `k` discards the layers at `k + 1 ..`. */
  lemma PushTruncatesAboveAnchor<T>(s: seq<T>, vc: T, k: nat)
    requires k < |s| && forall j :: k < j < |s| ==> s[j] != s[k]
    ensures Push(s, vc, s[k]) == s[..k + 1] + [vc]
  {
    LastIndexOfUnique(s, s[k], k);
  }

  /** Popping the layer just pushed leaves the stack truncated at the anchor. */
  lemma PopUndoesPush<T>(s: seq<T>, vc: T, anchor: T)
    requires anchor in s
    ensures Pop(Push(s, vc, anchor)) == PopTo(s, anchor)
  {
  }

  /** Round trip: push on top, then pop back to the old top, restores the stack. */
  lemma PopToUndoesPushOnTop<T>(s: seq<T>, vc: T)
    requires |s| > 0 && vc != Top(s)
    ensures PopTo(Push(s, vc, Top(s)), Top(s)) == s
  {
    PushOnTopAppends(s, vc);
    PopToSkipsTop(s + [vc], Top(s));
    PopToTopIsNoop(s, Top(s));
  }

  /** A push keeps the stack free of duplicates when `vc` is not already below it. */
  lemma PushKeepsDistinct<T>(s: seq<T>, vc: T, anchor: T)
    requires anchor in s && Distinct(s) && vc !in PopTo(s, anchor)
    ensures Distinct(Push(s, vc, anchor))
  {
    var p := PopTo(s, anchor);
    var r := Push(s, vc, anchor);
    forall i, j | 0 <= i < j < |r|
      ensures r[i] != r[j]
    {
      if j == |r| - 1 {
        assert r[i] == p[i];
      } else {
        assert r[i] == s[i] && r[j] == s[j];
      }
    }
  }

  /** With the flag set, a far enough pull to the right is a pop to the root. */
  lemma PulledFarEnoughPopsToRoot<T>(s: seq<T>)
    requires |s| > 0
    ensures DropOnPull(s, true, true) == PopToRoot(s)
  {
  }

  /** Without the flag, a pull to the right never drops a layer. */
  lemma DropNeedsFlag<T>(s: seq<T>, pulledFarEnough: bool)
    requires |s| > 0
    ensures DropOnPull(s, false, pulledFarEnough) == s
  {
  }
}
