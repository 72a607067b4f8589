/**
 * `FancyNavigationController`, the predecessor of the layered navigation
 * controller: the same stack API over a mutable array of view controllers,
 * without layer wrappers. Its methods are specified by the same stack
 * functions.
 */
module FancyNavigation {
  import opened Types
  import LayerStack

  class FancyNavigationController {
    /** The array behind the read-only `viewControllers` property. */
    var viewControllers: seq<ViewController>

    ghost predicate Valid()
      reads this
    {
      |viewControllers| > 0
    }

    /** `initWithRootViewController:`. */
    constructor (rootViewController: ViewController)
      ensures Valid() && viewControllers == [rootViewController]
    {
      viewControllers := [rootViewController];
    }

    /** `popViewControllerAnimated:`. */
    method PopViewController()
      requires Valid()
      modifies this
      ensures Valid() && viewControllers == LayerStack.Pop(old(viewControllers))
    {
      viewControllers := LayerStack.Pop(viewControllers);
    }

    /** `popToRootViewControllerAnimated:`. */
    method PopToRootViewController()
      requires Valid()
      modifies this
      ensures Valid() && viewControllers == LayerStack.PopToRoot(old(viewControllers))
    {
      viewControllers := LayerStack.PopToRoot(viewControllers);
    }

    /** `popToViewController:animated:`. */
    method PopToViewController(vc: ViewController)
      requires Valid() && vc in viewControllers
      modifies this
      ensures Valid() && viewControllers == LayerStack.PopTo(old(viewControllers), vc)
    {
      viewControllers := LayerStack.PopTo(viewControllers, vc);
    }

    /** `pushViewController:inFrontOf:maximumWidth:animated:`. */
    method PushViewController(vc: ViewController, anchor: ViewController)
      requires Valid() && anchor in viewControllers
      modifies this
      ensures Valid() && viewControllers == LayerStack.Push(old(viewControllers), vc, anchor)
    {
      viewControllers := LayerStack.Push(viewControllers, vc, anchor);
    }
  }
}
