/**
 * `FRLayerController`: the wrapper the navigation controller puts around each
 * content view controller. Its content controller, its `maximumWidth` flag
 * and its navigation item are fixed when it is created, so it is a value
 * here; the item it holds is the one mutable part.
 */
module Layers {
  import opened Types
  import opened NavigationItems

  /** A horizontal span `[left, right]` in points. */
  datatype Interval = Interval(left: real, right: real)

  datatype LayerController = LayerController(
    contentViewController: ViewController,
    maximumWidth: bool,
    layeredNavigationItem: LayeredNavigationItem)
  {
    /** The item's back reference names this layer. */
    predicate WellFormed() {
      layeredNavigationItem.layerContent == contentViewController
    }

    /**
     * The span the layer covers on a screen `screenWidth` points wide: it
     * starts at its current position and is `width` points wide, unless it
     * is a maximum-width layer, which uses all the width left to its right.
     */
    function Extent(screenWidth: real): (e: Interval)
      reads layeredNavigationItem
      ensures e.left == layeredNavigationItem.currentViewPosition.x
      ensures !maximumWidth ==> e.right - e.left == layeredNavigationItem.width
      ensures maximumWidth ==> e.right == screenWidth
    {
      var x := layeredNavigationItem.currentViewPosition.x;
      Interval(x, if maximumWidth then screenWidth else x + layeredNavigationItem.width)
    }
  }

  /** `initWithContentViewController:maximumWidth:`. */
  method NewLayer(content: ViewController, maxWidth: bool) returns (layer: LayerController)
    ensures layer.contentViewController == content && layer.maximumWidth == maxWidth
    ensures layer.WellFormed()
    ensures fresh(layer.layeredNavigationItem)
    ensures layer.layeredNavigationItem.Fields() == InitialFields
  {
    var item := new LayeredNavigationItem(content);
    layer := LayerController(content, maxWidth, item);
  }

  /** The content view controllers of a sequence of layers, in order. */
  function Contents(layers: seq<LayerController>): (vcs: seq<ViewController>)
    ensures |vcs| == |layers|
    ensures forall i :: 0 <= i < |layers| ==> vcs[i] == layers[i].contentViewController
  {
    seq(|layers|, i requires 0 <= i < |layers| => layers[i].contentViewController)
  }

  lemma ContentsOfPrefix(layers: seq<LayerController>, k: nat)
    requires k <= |layers|
    ensures Contents(layers[..k]) == Contents(layers)[..k]
  {
  }

  lemma ContentsOfAppend(layers: seq<LayerController>, layer: LayerController)
    ensures Contents(layers + [layer]) == Contents(layers) + [layer.contentViewController]
  {
  }
}
