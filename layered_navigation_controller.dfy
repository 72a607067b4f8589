/**
 * `FRLayeredNavigationController`: the container that owns the layer stack.
 * `layers` is its mutable array of layer controllers (root first, top layer
 * last); the public `viewControllers` are the content controllers of those
 * layers. Every mutating method is specified by the stack functions of
 * `LayerStack`.
 */
module LayeredNavigation {
  import opened Types
  import opened NavigationItems
  import opened Layers
  import opened MoveProtocol
  import LayerStack
  import Compaction

  ghost function ItemsOf(ls: seq<LayerController>): set<LayeredNavigationItem> {
    set i | 0 <= i < |ls| :: ls[i].layeredNavigationItem
  }

  /**
   * Every layer rests where maximal compaction puts it: the root at the
   * origin and every other layer `nextItemDistance` to the right of the
   * layer below it.
   */
  ghost predicate CompactedLayers(ls: seq<LayerController>)
    reads ItemsOf(ls)
  {
    && |ls| > 0
    && ls[0].layeredNavigationItem.initialViewPosition == Origin
    && forall i :: 0 < i < |ls| ==>
         ls[i].layeredNavigationItem.initialViewPosition ==
         Point(ls[i - 1].layeredNavigationItem.initialViewPosition.x
               + ls[i - 1].layeredNavigationItem.nextItemDistance, 0.0)
  }

  lemma CompactedPrefix(ls: seq<LayerController>, k: nat)
    requires CompactedLayers(ls) && 0 < k <= |ls|
    ensures CompactedLayers(ls[..k])
  {
    assert forall i :: 0 <= i < k ==> ls[..k][i] == ls[i];
  }

  /** The resting x positions of the layers, root first. */
  ghost function InitialXs(ls: seq<LayerController>): (xs: seq<real>)
    reads ItemsOf(ls)
    ensures |xs| == |ls|
    ensures forall i :: 0 <= i < |ls| ==> xs[i] == ls[i].layeredNavigationItem.initialViewPosition.x
  {
    seq(|ls|, i requires 0 <= i < |ls| reads ItemsOf(ls) => ls[i].layeredNavigationItem.initialViewPosition.x)
  }

  /** The `nextItemDistance` of every layer but the top one. */
  ghost function NextDistances(ls: seq<LayerController>): (ds: seq<real>)
    reads ItemsOf(ls)
    requires |ls| > 0
    ensures |ds| == |ls| - 1
    ensures forall i :: 0 <= i < |ls| - 1 ==> ds[i] == ls[i].layeredNavigationItem.nextItemDistance
  {
    seq(|ls| - 1, i requires 0 <= i < |ls| - 1 reads ItemsOf(ls) => ls[i].layeredNavigationItem.nextItemDistance)
  }

  /**
   * A compacted stack rests exactly at the maximally compacted positions
   * from the origin, and so no admissible layout puts any layer further left:
   * in every layout `xs` that starts at or right of the origin and keeps every
   * layer at least `nextItemDistance` from the one below, each layer is at or
   * right of its `initialViewPosition`.
   */
  lemma CompactedLayersAreLeftmost(ls: seq<LayerController>)
    requires CompactedLayers(ls)
    ensures InitialXs(ls) == Compaction.Compacted(0.0, NextDistances(ls))
    ensures forall xs, i :: Compaction.NeverCloser(xs, NextDistances(ls)) && xs[0] >= 0.0 && 0 <= i < |xs|
                            ==> xs[i] >= ls[i].layeredNavigationItem.initialViewPosition.x
  {
    Compaction.TightIsCompacted(InitialXs(ls), NextDistances(ls));
    forall xs, i | Compaction.NeverCloser(xs, NextDistances(ls)) && xs[0] >= 0.0 && 0 <= i < |xs|
      ensures xs[i] >= ls[i].layeredNavigationItem.initialViewPosition.x
    {
      Compaction.CompactedIsLeftmost(xs, NextDistances(ls), 0.0, i);
    }
  }

  /**
   * The item of a pushed layer: configured by the block from a fresh item,
   * and resting `nextItemDistance` to the right of the item `below` it.
   */
  function PushedItem(configuration: seq<Setting>, below: ItemFields): (f: ItemFields)
    ensures f.initialViewPosition == f.currentViewPosition
    ensures f.initialViewPosition == Point(below.initialViewPosition.x + below.nextItemDistance, 0.0)
  {
    var p := Point(below.initialViewPosition.x + below.nextItemDistance, 0.0);
    ApplyAll(InitialFields, configuration).(initialViewPosition := p, currentViewPosition := p)
  }

  /**
   * The layer a push adds: a new layer controller whose fresh item the
   * configuration block sets up, placed `nextItemDistance` to the right of
   * the layer `below` it.
   */
  method NewTopLayer(vc: ViewController, maxWidth: bool, configuration: seq<Setting>,
                     below: LayeredNavigationItem)
    returns (layer: LayerController)
    ensures layer.contentViewController == vc && layer.maximumWidth == maxWidth
    ensures layer.WellFormed() && fresh(layer.layeredNavigationItem)
    ensures layer.layeredNavigationItem.Fields() == PushedItem(configuration, below.Fields())
  {
    layer := NewLayer(vc, maxWidth);
    var item := layer.layeredNavigationItem;
    item.Configure(configuration);
    item.Place(Point(below.initialViewPosition.x + below.nextItemDistance, 0.0));
  }

  /**
   * Truncating a compacted stack and putting a layer `nextItemDistance` to
   * the right of the new top keeps it compacted.
   */
  lemma CompactedPush(before: seq<LayerController>, after: seq<LayerController>)
    requires CompactedLayers(before)
    requires 2 <= |after| <= |before| + 1 && after[..|after| - 1] == before[..|after| - 1]
    requires var below := after[|after| - 2].layeredNavigationItem;
             after[|after| - 1].layeredNavigationItem.initialViewPosition
             == Point(below.initialViewPosition.x + below.nextItemDistance, 0.0)
    ensures CompactedLayers(after)
  {
    assert forall i :: 0 <= i < |after| - 1 ==> after[i] == before[i];
  }

  /**
   * Where a pushed layer lies on a screen `screenWidth` points wide: it
   * starts `nextItemDistance` to the right of the layer below it and, unless
   * it has maximum width, is as wide as the last width its configuration
   * block set; a maximum-width layer reaches the right edge of the screen.
   */
  lemma PushedLayerExtent(layer: LayerController, below: ItemFields, before: seq<Setting>,
                          w: real, after: seq<Setting>, screenWidth: real)
    requires layer.layeredNavigationItem.Fields() == PushedItem(before + [Width(w)] + after, below)
    requires forall s :: s in after ==> !s.Width?
    ensures var e := layer.Extent(screenWidth);
            && e.left == below.initialViewPosition.x + below.nextItemDistance
            && (layer.maximumWidth ==> e.right == screenWidth)
            && (!layer.maximumWidth ==> e.right == e.left + w)
  {
    LastWidthWins(InitialFields, before, w, after);
  }

  /**
   * The layout is a function of the items alone: while no item changes, a
   * compacted stack stays compacted.
   */
  twostate lemma CompactionSurvives(ls: seq<LayerController>)
    requires old(CompactedLayers(ls))
    requires forall i :: 0 <= i < |ls| ==> unchanged(ls[i].layeredNavigationItem)
    ensures CompactedLayers(ls)
  {
  }

  class LayeredNavigationController {
    var layers: seq<LayerController>
    var userInteractionEnabled: bool
    var dropLayersWhenPulledRight: bool
    /** The controller an interaction is moving, if any. */
    var motion: MoveState
    /** Every message sent to the delegate so far, oldest first. */
    var sentToDelegate: seq<MoveEvent>

    /**
     * The root is always there, every layer's item names its layer, no two
     * layers share an item, and the delegate messages follow the protocol
     * and agree with `motion`.
     */
    ghost predicate Valid()
      reads this
    {
      && |layers| > 0
      && (forall i :: 0 <= i < |layers| ==> layers[i].WellFormed())
      && (forall i, j :: 0 <= i < j < |layers| ==>
            layers[i].layeredNavigationItem != layers[j].layeredNavigationItem)
      && Run(Resting, sentToDelegate) == Some(motion)
    }

    ghost function Items(): set<LayeredNavigationItem>
      reads this
    {
      ItemsOf(layers)
    }

    /** The layers rest where maximal compaction puts them. */
    ghost predicate LayoutCompacted()
      reads this, Items()
    {
      CompactedLayers(layers)
    }

    /** The read-only `viewControllers` property. */
    function ViewControllers(): (vcs: seq<ViewController>)
      reads this
      ensures |vcs| == |layers|
      ensures forall i :: 0 <= i < |layers| ==> vcs[i] == layers[i].contentViewController
    {
      Contents(layers)
    }

    /** The read-only `topViewController` property. */
    function TopViewController(): (top: ViewController)
      reads this
      requires Valid()
      ensures top == LayerStack.Top(ViewControllers())
    {
      layers[|layers| - 1].contentViewController
    }

    /**
     * `initWithRootViewController:configuration:`; an empty `configuration`
     * is `initWithRootViewController:`.
     */
    constructor (rootViewController: ViewController, configuration: seq<Setting>)
      ensures Valid() && LayoutCompacted()
      ensures ViewControllers() == [rootViewController]
      ensures !layers[0].maximumWidth && fresh(layers[0].layeredNavigationItem)
      ensures layers[0].layeredNavigationItem.Fields() == ApplyAll(InitialFields, configuration)
      ensures userInteractionEnabled && !dropLayersWhenPulledRight
      ensures motion == Resting && sentToDelegate == []
    {
      var root := NewLayer(rootViewController, false);
      root.layeredNavigationItem.Configure(configuration);
      layers := [root];
      userInteractionEnabled := true;
      dropLayersWhenPulledRight := false;
      motion := Resting;
      sentToDelegate := [];
    }

    /** `popViewControllerAnimated:`. */
    method PopViewController()
      requires Valid()
      modifies this`layers
      ensures Valid()
      ensures layers == LayerStack.Pop(old(layers))
      ensures ViewControllers() == LayerStack.Pop(old(ViewControllers()))
      ensures old(LayoutCompacted()) ==> LayoutCompacted()
    {
      if |layers| > 1 {
        ContentsOfPrefix(layers, |layers| - 1);
        layers := layers[..|layers| - 1];
        if old(LayoutCompacted()) {
          CompactionSurvives(old(layers));
          CompactedPrefix(old(layers), |layers|);
        }
      }
    }

    /** `popToViewController:animated:`: pops until `vc` is the top layer. */
    method PopToViewController(vc: ViewController)
      requires Valid() && vc in ViewControllers()
      modifies this`layers
      ensures Valid()
      ensures ViewControllers() == LayerStack.PopTo(old(ViewControllers()), vc)
      ensures layers == old(layers)[..|layers|]
      ensures old(LayoutCompacted()) ==> LayoutCompacted()
    {
      ghost var target := LayerStack.LastIndexOf(ViewControllers(), vc);
      while layers[|layers| - 1].contentViewController != vc
        invariant Valid()
        invariant target < |layers| <= |old(layers)| && layers == old(layers)[..|layers|]
        decreases |layers|
      {
        assert layers[target] == old(layers)[target];
        PopViewController();
      }
      assert old(ViewControllers())[|layers| - 1] == vc;
      ContentsOfPrefix(old(layers), |layers|);
      if old(LayoutCompacted()) {
        CompactionSurvives(old(layers));
        CompactedPrefix(old(layers), |layers|);
      }
    }

    /** `popToRootViewControllerAnimated:`: pops every layer but the root. */
    method PopToRootViewController()
      requires Valid()
      modifies this`layers
      ensures Valid()
      ensures ViewControllers() == LayerStack.PopToRoot(old(ViewControllers()))
      ensures layers == old(layers)[..1]
      ensures old(LayoutCompacted()) ==> LayoutCompacted()
    {
      while |layers| > 1
        invariant Valid()
        invariant |layers| <= |old(layers)| && layers == old(layers)[..|layers|]
      {
        PopViewController();
      }
      if old(LayoutCompacted()) {
        CompactionSurvives(old(layers));
        CompactedPrefix(old(layers), 1);
      }
    }

    /**
     * `pushViewController:inFrontOf:maximumWidth:animated:configuration:`; an
     * empty `configuration` is the variant without a block. The layers above
     * `anchor` are popped first; the new layer gets a fresh item, the block
     * configures it, and it is placed `nextItemDistance` to the right of the
     * anchor's layer.
     */
    method PushViewController(vc: ViewController, anchor: ViewController, maxWidth: bool,
                              configuration: seq<Setting>)
      requires Valid() && anchor in ViewControllers()
      modifies this`layers
      ensures Valid()
      ensures ViewControllers() == LayerStack.Push(old(ViewControllers()), vc, anchor)
      ensures |layers| >= 2 && layers[..|layers| - 1] == old(layers)[..|layers| - 1]
      ensures layers[|layers| - 1].contentViewController == vc
      ensures layers[|layers| - 1].maximumWidth == maxWidth
      ensures fresh(layers[|layers| - 1].layeredNavigationItem)
      ensures layers[|layers| - 1].layeredNavigationItem.Fields()
              == PushedItem(configuration, layers[|layers| - 2].layeredNavigationItem.Fields())
      ensures old(LayoutCompacted()) ==> LayoutCompacted()
    {
      PopToViewController(anchor);
      ghost var popped := layers;
      PushOnTop(vc, maxWidth, configuration);
      assert layers[..|layers| - 1] == popped;
    }

    /**
     * Puts a new layer for `vc` on top of the current top layer, with a
     * fresh item that `configuration` sets up, `nextItemDistance` to the
     * right of the layer below it.
     */
    method PushOnTop(vc: ViewController, maxWidth: bool, configuration: seq<Setting>)
      requires Valid()
      modifies this`layers
      ensures Valid()
      ensures |layers| == |old(layers)| + 1 && layers[..|old(layers)|] == old(layers)
      ensures ViewControllers() == old(ViewControllers()) + [vc]
      ensures layers[|layers| - 1].contentViewController == vc
      ensures layers[|layers| - 1].maximumWidth == maxWidth
      ensures fresh(layers[|layers| - 1].layeredNavigationItem)
      ensures layers[|layers| - 1].layeredNavigationItem.Fields()
              == PushedItem(configuration, layers[|layers| - 2].layeredNavigationItem.Fields())
      ensures old(LayoutCompacted()) ==> LayoutCompacted()
    {
      var below := layers[|layers| - 1].layeredNavigationItem;
      var layer := NewTopLayer(vc, maxWidth, configuration, below);
      AppendLayer(layer);
      assert layers[..|old(layers)|] == old(layers);
      assert layers[|layers| - 2].layeredNavigationItem == below;
      if old(LayoutCompacted()) {
        CompactionSurvives(old(layers));
        ghost var top := layer.layeredNavigationItem;
        assert top.initialViewPosition == top.Fields().initialViewPosition;
        CompactedPush(old(layers), layers);
      }
    }

    /** Puts `layer`, whose item no other layer holds, on top of the stack. */
    method AppendLayer(layer: LayerController)
      requires Valid() && layer.WellFormed()
      requires layer.layeredNavigationItem !in Items()
      modifies this`layers
      ensures Valid()
      ensures layers == old(layers) + [layer]
      ensures ViewControllers() == old(ViewControllers()) + [layer.contentViewController]
    {
      ContentsOfAppend(layers, layer);
      layers := layers + [layer];
    }

    method SetUserInteractionEnabled(enabled: bool)
      modifies this`userInteractionEnabled
      ensures userInteractionEnabled == enabled
    {
      userInteractionEnabled := enabled;
    }

    method SetDropLayersWhenPulledRight(drop: bool)
      modifies this`dropLayersWhenPulledRight
      ensures dropLayersWhenPulledRight == drop
    {
      dropLayersWhenPulledRight := drop;
    }

    /**
     * A pan starts on the layer of `touched`. The delegate hears
     * `willMoveController` only if that controller can be moved: user
     * interaction is enabled, no other interaction is under way, and it is
     * one of the stacked controllers.
     */
    method BeginMove(touched: ViewController) returns (announced: bool)
      requires Valid()
      modifies this`motion, this`sentToDelegate
      ensures Valid()
      ensures announced <==>
        userInteractionEnabled && old(motion).Resting? && touched in ViewControllers()
      ensures motion == if announced then InMotion(touched) else old(motion)
      ensures sentToDelegate == old(sentToDelegate) + if announced then [WillMove(touched)] else []
    {
      announced := userInteractionEnabled && motion.Resting? && touched in ViewControllers();
      if announced {
        RunSnoc(Resting, sentToDelegate, WillMove(touched));
        sentToDelegate := sentToDelegate + [WillMove(touched)];
        motion := InMotion(touched);
      }
    }

    /** The pan moves on: the delegate hears `movingViewController` again. */
    method ContinueMove()
      requires Valid()
      modifies this`sentToDelegate
      ensures Valid()
      ensures sentToDelegate == old(sentToDelegate) +
        if motion.InMotion? then [Moving(motion.controller)] else []
    {
      if motion.InMotion? {
        RunSnoc(Resting, sentToDelegate, Moving(motion.controller));
        sentToDelegate := sentToDelegate + [Moving(motion.controller)];
      }
    }

    /**
     * The pan ends. If it was pulled far enough to the right and
     * `dropLayersWhenPulledRight` is set, every layer but the root is
     * dropped; then the delegate hears `didMoveController`.
     */
    method EndMove(pulledFarEnough: bool)
      requires Valid()
      modifies this`layers, this`motion, this`sentToDelegate
      ensures Valid()
      ensures ViewControllers() ==
        if old(motion).InMotion?
        then LayerStack.DropOnPull(old(ViewControllers()), dropLayersWhenPulledRight, pulledFarEnough)
        else old(ViewControllers())
      ensures layers == old(layers)[..|layers|]
      ensures old(LayoutCompacted()) ==> LayoutCompacted()
      ensures motion == Resting
      ensures sentToDelegate == old(sentToDelegate) +
        if old(motion).InMotion? then [DidMove(old(motion).controller)] else []
    {
      if motion.InMotion? {
        if dropLayersWhenPulledRight && pulledFarEnough {
          PopToRootViewController();
        }
        RunSnoc(Resting, sentToDelegate, DidMove(motion.controller));
        sentToDelegate := sentToDelegate + [DidMove(motion.controller)];
        motion := Resting;
      }
    }
  }

  /**
   * Whatever the sequence of calls, the delegate has never heard
   * `movingViewController` or `didMoveController` for a controller without a
   * `willMoveController` for it first, with nothing but moving messages for
   * it in between.
   */
  lemma DelegateHearsWillMoveFirst(nav: LayeredNavigationController, i: nat)
    requires nav.Valid() && i < |nav.sentToDelegate| && !nav.sentToDelegate[i].WillMove?
    ensures var t := nav.sentToDelegate;
            exists j :: 0 <= j < i && t[j] == WillMove(t[i].controller) &&
                        forall k :: j < k < i ==> t[k] == Moving(t[i].controller)
  {
    AnnouncedBeforeMoving(nav.sentToDelegate, i);
  }

  /**
   * The delegate never hears two interactions overlap: between two
   * `willMoveController` messages it heard `didMoveController` for the
   * controller the first one announced.
   */
  lemma DelegateHearsDidMoveBetween(nav: LayeredNavigationController, i: nat, k: nat)
    requires nav.Valid() && i < k < |nav.sentToDelegate|
    requires nav.sentToDelegate[i].WillMove? && nav.sentToDelegate[k].WillMove?
    ensures var t := nav.sentToDelegate;
            exists j :: i < j < k && t[j] == DidMove(t[i].controller)
  {
    WillMoveNeedsDidMove(nav.sentToDelegate, i, k);
  }
}
