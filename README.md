# FRLayeredNavigationController in Dafny

A model of the layer stack behind `FRLayeredNavigationController`, an iPad
container view controller. It shows view controllers as layers that slide over
each other, with the root layer at the bottom and the top layer last.

The model follows the public headers and their documentation comments. The
repository's `.m` implementation files are not part of this model.

- `LayerStack` (`layer_stack.dfy`): the stack as a value, a `seq` of view
  controllers. It defines `Pop`, `PopTo`, `PopToRoot`, `Push` (truncate above
  the anchor, then put the new controller on top) and the drop-on-pull rule.
  The lemmas state the header's pop-until meaning (pop-to and pop-to-root as
  repeated single pops) and what follows from it: round trips, idempotence,
  no-op cases, and when a push keeps the stack free of duplicates.
- `NavigationItems` (`navigation_item.dfy`): `FRLayeredNavigationItem` as a
  class with one field per property.
  - Clients change an item only through its setters. A configuration block is
    the list of setter calls it makes (`Setting`), run by `Configure` on a new
    item.
  - The two view positions have no client setter. Only the navigation
    controller changes them, through `Place`.
- `Layers` (`layer_controller.dfy`): `FRLayerController` as an immutable
  value. It holds the content controller, the `maximumWidth` flag and the one
  item it owns. The item points back to the layer through `layerContent`.
- `Compaction` (`compaction.dfy`): the maximally compacted layout. Every layer
  rests `nextItemDistance` to the right of the layer below it. `Compacted` is
  proved to be the leftmost layout in which no layer comes closer than that
  distance.
- `MoveProtocol` (`move_protocol.dfy`): the delegate messages `willMove`,
  `moving` and `didMove`, written as an automaton. The lemmas show that the
  automaton accepts complete interactions (willMove, then any number of
  moving, then didMove) one after the other, possibly followed by one
  interaction still under way. A new willMove is accepted only after the
  didMove that ends the previous interaction.
- `LayeredNavigation` (`layered_navigation_controller.dfy`): the controller
  class.
  - It keeps a mutable `seq` of layer controllers, the two flags, the state of
    the current interaction, and the log of messages sent to the delegate.
  - Each method that changes the stack is proved against the matching
    `LayerStack` function.
  - The class invariant ties the delegate log to the protocol automaton.
- `FancyNavigation` (`fancy_navigation_controller.dfy`):
  `FancyNavigationController`, the predecessor class. It offers the same stack
  API over a mutable array of view controllers and is specified by the same
  `LayerStack` functions.

The headers do not say what happens when the anchor of a push or the target of
a pop-to is missing from the stack. Membership is therefore a precondition.

Popping the root layer leaves the stack unchanged.

When a controller occurs more than once in the stack, "pop until it is on top"
stops at its highest occurrence.

`dropLayersWhenPulledRight` is documented as dropping every layer except the
root. The model follows that documentation, so a drop is a pop to the root.

## Model

| member | source | states |
|---|---|---|
| LayerStack.LastIndexOf | FRLayeredNavigationController/FRLayeredNavigationController.h:128-135 | the result holds `x` and no higher position holds `x`: it is where popping from the top first uncovers `x` |
| LayerStack.LastIndexOfUnique | FRLayeredNavigationController/FRLayeredNavigationController.h:128-135 | any position that holds `x` with no `x` above it is the highest occurrence |
| LayerStack.Pop | FRLayeredNavigationController/FRLayeredNavigationController.h:112-118 | with more than one layer, the result plus the old top is the old stack; a lone root stays |
| LayerStack.PopTo | FRLayeredNavigationController/FRLayeredNavigationController.h:128-135 | the result is a prefix of the stack with `vc` on top, and only layers other than `vc` were removed |
| LayerStack.PopToRoot | FRLayeredNavigationController/FRLayeredNavigationController.h:120-126 | exactly the root is left |
| LayerStack.Push | FRLayeredNavigationController/FRLayeredNavigationController.h:137-151 | `vc` is on top directly above `anchor`, everything below is an unchanged prefix of the old stack, and only layers above the anchor were removed |
| LayerStack.DropOnPull | FRLayeredNavigationController/FRLayeredNavigationController.h:183-186 | with the flag set and a far enough pull only the root is left; the stack changes exactly when the flag is set, the pull was far enough and there is a layer above the root |
| LayerStack.PulledFarEnoughPopsToRoot | FRLayeredNavigationController/FRLayeredNavigationController.h:183-186 | with the flag set, a far enough pull is a pop to the root |
| LayerStack.PopToTopIsNoop | FRLayeredNavigationController/FRLayeredNavigationController.h:128-135 | popping to the controller already on top changes nothing |
| LayerStack.PopToIdempotent | FRLayeredNavigationController/FRLayeredNavigationController.h:128-135 | popping to `x` twice is popping to it once |
| LayerStack.PopToRootIdempotent | FRLayeredNavigationController/FRLayeredNavigationController.h:120-126 | popping to the root twice is popping to it once |
| LayerStack.PopToSkipsTop | FRLayeredNavigationController/FRLayeredNavigationController.h:128-135 | when the top is not `x`, one pop keeps `x` in the stack at the same position and does not change the result of popping to `x` |
| LayerStack.PopTimesTruncates | FRLayeredNavigationController/FRLayeredNavigationController.h:112-118 | `k` pops, while fewer than the layers above the root, remove exactly the top `k` layers |
| LayerStack.PopToIsRepeatedPop | FRLayeredNavigationController/FRLayeredNavigationController.h:128-135 | popping to `x` is the single pop repeated once for every layer above the highest `x` |
| LayerStack.PopToRootIsRepeatedPop | FRLayeredNavigationController/FRLayeredNavigationController.h:120-126 | popping to the root is the single pop repeated once for every layer above the root |
| LayerStack.PopToRootIsPopToRootController | FRLayeredNavigationController/FRLayeredNavigationController.h:120-135 | in a stack without duplicates, popping to the root equals popping to the root controller |
| LayerStack.PushOnTopAppends | FRLayeredNavigationController/FRLayeredNavigationController.h:137-151 | pushing in front of the top layer appends and pops nothing |
| LayerStack.PushTruncatesAboveAnchor | FRLayeredNavigationController/FRLayeredNavigationController.h:137-151 | pushing in front of the anchor at index `k` keeps layers `0..k` and puts `vc` after them |
| LayerStack.PopUndoesPush | FRLayeredNavigationController/FRLayeredNavigationController.h:112-151 | popping right after a push leaves the stack popped to the anchor |
| LayerStack.PopToUndoesPushOnTop | FRLayeredNavigationController/FRLayeredNavigationController.h:128-151 | pushing on the top and then popping back to the old top restores the stack |
| LayerStack.PushKeepsDistinct | FRLayeredNavigationController/FRLayeredNavigationController.h:137-151 | a push of a controller not left below it keeps the stack free of duplicates |
| LayerStack.DropNeedsFlag | FRLayeredNavigationController/FRLayeredNavigationController.h:183-186 | with `dropLayersWhenPulledRight` off, no pull drops a layer |
| Compaction.Compacted | FRLayeredNavigationController/FRLayeredNavigationItem.h:51-54 | the compacted layout starts at `x0` and puts every layer exactly `nextItemDistance` right of the one below |
| Compaction.CompactedIsLeftmost | FRLayeredNavigationController/FRLayeredNavigationItem.h:51-79 | in any layout where no layer comes closer than its predecessor's distance, every layer is at or right of its compacted position |
| Compaction.TightIsCompacted | FRLayeredNavigationController/FRLayeredNavigationItem.h:76-79 | layers sitting exactly at their predecessors' distances form the compacted layout, and only they do |
| Compaction.TightAgrees | FRLayeredNavigationController/FRLayeredNavigationItem.h:76-79 | each layer of a tight layout is at its compacted position |
| Compaction.CompactedOrdered | FRLayeredNavigationController/FRLayeredNavigationItem.h:76-79 | with non-negative distances, no layer of the compacted layout starts left of a layer below it |
| MoveProtocol.RunSnoc | FRLayeredNavigationController/FRLayeredNavigationController.h:40-70 | one more message steps the protocol automaton once |
| MoveProtocol.RunConcat | FRLayeredNavigationController/FRLayeredNavigationController.h:40-70 | running two message sequences one after the other is running their concatenation |
| MoveProtocol.SessionConforms | FRLayeredNavigationController/FRLayeredNavigationController.h:42-70 | willMove, any number of moving, then didMove for one controller is accepted and ends at rest |
| MoveProtocol.MovingKeepsState | FRLayeredNavigationController/FRLayeredNavigationController.h:52-61 | moving may repeat any number of times without changing the interaction |
| MoveProtocol.ConformsPrefix | FRLayeredNavigationController/FRLayeredNavigationController.h:40-70 | every prefix of an accepted message sequence is accepted |
| MoveProtocol.InMotionWasAnnounced | FRLayeredNavigationController/FRLayeredNavigationController.h:42-61 | while a controller is moving, the messages since its willMove are only moving messages for it |
| MoveProtocol.AnnouncedBeforeMoving | FRLayeredNavigationController/FRLayeredNavigationController.h:42-70 | every moving or didMove message for a controller follows a willMove for it, with only moving messages for it in between |
| MoveProtocol.InMotionUntilDidMove | FRLayeredNavigationController/FRLayeredNavigationController.h:42-70 | after a willMove for `c`, the interaction stays on `c` until a didMove for `c` |
| MoveProtocol.WillMoveNeedsDidMove | FRLayeredNavigationController/FRLayeredNavigationController.h:42-70 | between two willMove messages lies a didMove for the controller the first one announced |
| MoveProtocol.DidMoveEndsInteraction | FRLayeredNavigationController/FRLayeredNavigationController.h:63-70 | the message after a didMove, if any, is a willMove |
| NavigationItems.Apply | FRLayeredNavigationController/FRLayeredNavigationItem.h:61-94 | no client setter changes either view position |
| NavigationItems.ApplyAll | FRLayeredNavigationController/FRLayeredNavigationItem.h:51-59 | a configuration block leaves both view positions as they were |
| NavigationItems.LastWidthWins | FRLayeredNavigationController/FRLayeredNavigationItem.h:71-74 | the width a block sets last is the width the item ends up with |
| NavigationItems.WidthUntouched | FRLayeredNavigationController/FRLayeredNavigationItem.h:71-74 | setter calls that do not name the width keep it |
| NavigationItems.ApplyAllConcat | FRLayeredNavigationController/FRLayeredNavigationItem.h:61-94 | two blocks run one after the other act as their concatenation |
| NavigationItems.LayeredNavigationItem.constructor | FRLayeredNavigationController/FRLayeredNavigationItem.h:39-49 | a new item refers back to its layer and starts with the initial properties at the origin |
| NavigationItems.LayeredNavigationItem.SetTitle | FRLayeredNavigationController/FRLayeredNavigationItem.h:61-64 | sets `title` and can change no other field |
| NavigationItems.LayeredNavigationItem.SetTitleView | FRLayeredNavigationController/FRLayeredNavigationItem.h:66-69 | sets `titleView` and can change no other field |
| NavigationItems.LayeredNavigationItem.SetWidth | FRLayeredNavigationController/FRLayeredNavigationItem.h:71-74 | sets `width` and can change no other field |
| NavigationItems.LayeredNavigationItem.SetNextItemDistance | FRLayeredNavigationController/FRLayeredNavigationItem.h:76-79 | sets `nextItemDistance` and can change no other field |
| NavigationItems.LayeredNavigationItem.SetHasChrome | FRLayeredNavigationController/FRLayeredNavigationItem.h:81-84 | sets `hasChrome` and can change no other field |
| NavigationItems.LayeredNavigationItem.SetLeftBarButtonItem | FRLayeredNavigationController/FRLayeredNavigationItem.h:86-89 | sets the left bar button item and can change no other field |
| NavigationItems.LayeredNavigationItem.SetRightBarButtonItem | FRLayeredNavigationController/FRLayeredNavigationItem.h:91-94 | sets the right bar button item and can change no other field |
| NavigationItems.LayeredNavigationItem.Assign | FRLayeredNavigationController/FRLayeredNavigationItem.h:61-94 | one setter call has the effect `Apply` describes and cannot reach the view positions |
| NavigationItems.LayeredNavigationItem.Configure | FRLayeredNavigationController/FRLayeredNavigationController.h:106-107 | running a configuration block leaves the item as `ApplyAll` describes |
| NavigationItems.LayeredNavigationItem.Place | FRLayeredNavigationController/FRLayeredNavigationItem.h:51-59 | the controller sets both view positions and nothing else |
| Layers.LayerController.Extent | FRLayeredNavigationController/FRLayeredNavigationController.h:143-144 | a layer starts at its current position and is `width` wide, unless it has maximum width, in which case it reaches the right edge of the screen |
| Layers.NewLayer | FRLayeredNavigationController/FRLayerController.h:47-51 | the new layer holds the given content controller and flag, and a new item with the initial properties that refers back to it |
| Layers.Contents | FRLayeredNavigationController/FRLayeredNavigationController.h:177-181 | one content controller per layer, in layer order |
| Layers.ContentsOfPrefix | FRLayeredNavigationController/FRLayeredNavigationController.h:177-181 | truncating the layers truncates the view controllers alike |
| Layers.ContentsOfAppend | FRLayeredNavigationController/FRLayeredNavigationController.h:177-181 | appending a layer appends its content controller |
| LayeredNavigation.CompactedPrefix | FRLayeredNavigationController/FRLayeredNavigationItem.h:51-54 | popping layers off a compacted stack leaves it compacted |
| LayeredNavigation.CompactedLayersAreLeftmost | FRLayeredNavigationController/FRLayeredNavigationItem.h:51-79 | in a compacted stack, each layer's initial position is its maximally compacted position from the origin, and no layout that starts at or right of the origin and keeps the `nextItemDistance` gaps puts any layer further left |
| LayeredNavigation.PushedItem | FRLayeredNavigationController/FRLayeredNavigationController.h:153-170 | a pushed item rests, at its current position too, `nextItemDistance` to the right of the layer below it |
| LayeredNavigation.NewTopLayer | FRLayeredNavigationController/FRLayeredNavigationController.h:153-170 | the pushed layer holds `vc` and the flag, and a new item that the block configured and that rests where `PushedItem` says |
| LayeredNavigation.CompactedPush | FRLayeredNavigationController/FRLayeredNavigationItem.h:76-79 | truncating a compacted stack and adding a layer `nextItemDistance` right of the new top keeps it compacted |
| LayeredNavigation.CompactionSurvives | FRLayeredNavigationController/FRLayeredNavigationItem.h:51-54 | while no item of the layers changes, a compacted stack stays compacted |
| LayeredNavigation.PushedLayerExtent | FRLayeredNavigationController/FRLayeredNavigationController.h:143-144 | a pushed layer starts `nextItemDistance` right of the layer below it and is as wide as the last width its block set, or reaches the right edge of the screen if it has maximum width |
| LayeredNavigation.LayeredNavigationController.ViewControllers | FRLayeredNavigationController/FRLayeredNavigationController.h:177-181 | the content controllers of the layers, in order |
| LayeredNavigation.LayeredNavigationController.TopViewController | FRLayeredNavigationController/FRLayeredNavigationController.h:188-191 | the last element of `viewControllers` |
| LayeredNavigation.LayeredNavigationController.constructor | FRLayeredNavigationController/FRLayeredNavigationController.h:93-110 | the stack holds only the root, its new item is configured by the block and rests at the origin, and no interaction is under way |
| LayeredNavigation.LayeredNavigationController.PopViewController | FRLayeredNavigationController/FRLayeredNavigationController.h:112-118 | the layers and view controllers become `Pop` of the old ones, and a compacted stack stays compacted |
| LayeredNavigation.LayeredNavigationController.PopToViewController | FRLayeredNavigationController/FRLayeredNavigationController.h:128-135 | pops one layer at a time until `vc` is on top; the view controllers become `PopTo` of the old ones, and a compacted stack stays compacted |
| LayeredNavigation.LayeredNavigationController.PopToRootViewController | FRLayeredNavigationController/FRLayeredNavigationController.h:120-126 | pops one layer at a time until only the root layer is left, and a compacted stack stays compacted |
| LayeredNavigation.LayeredNavigationController.PushViewController | FRLayeredNavigationController/FRLayeredNavigationController.h:137-170 | the view controllers become `Push` of the old ones; the layers below are unchanged; the new top layer holds `vc`, the flag, and a new item as `PushedItem` gives it; a compacted stack stays compacted |
| LayeredNavigation.LayeredNavigationController.PushOnTop | FRLayeredNavigationController/FRLayeredNavigationController.h:153-170 | a new layer for `vc`, with a fresh item set up by the block and placed as `PushedItem` says, goes on top of the unchanged stack, which stays compacted if it was |
| LayeredNavigation.LayeredNavigationController.AppendLayer | FRLayeredNavigationController/FRLayeredNavigationController.h:137-151 | a layer whose item no other layer holds goes on top, and the invariant is kept |
| LayeredNavigation.LayeredNavigationController.SetUserInteractionEnabled | FRLayeredNavigationController/FRLayeredNavigationController.h:172-175 | sets the flag and nothing else |
| LayeredNavigation.LayeredNavigationController.SetDropLayersWhenPulledRight | FRLayeredNavigationController/FRLayeredNavigationController.h:183-186 | sets the flag and nothing else |
| LayeredNavigation.LayeredNavigationController.BeginMove | FRLayeredNavigationController/FRLayeredNavigationController.h:42-50 | willMove is sent exactly when the controller can be moved: interaction is enabled, none is under way and the controller is on the stack |
| LayeredNavigation.LayeredNavigationController.ContinueMove | FRLayeredNavigationController/FRLayeredNavigationController.h:52-61 | during an interaction, sends moving for the moving controller again |
| LayeredNavigation.LayeredNavigationController.EndMove | FRLayeredNavigationController/FRLayeredNavigationController.h:63-70 | ends the interaction with didMove; the stack becomes `DropOnPull` of the old one, so it drops to the root only when the flag is set and the pull was far enough; a compacted stack stays compacted |
| LayeredNavigation.DelegateHearsWillMoveFirst | FRLayeredNavigationController/FRLayeredNavigationController.h:42-70 | whatever the calls, every moving or didMove message the delegate heard follows a willMove for the same controller |
| LayeredNavigation.DelegateHearsDidMoveBetween | FRLayeredNavigationController/FRLayeredNavigationController.h:42-70 | whatever the calls, interactions never overlap: between two willMove messages the delegate heard the didMove ending the first |
| FancyNavigation.FancyNavigationController.constructor | FancyVC/FancyNavigationController.h:30 | the stack is exactly the root |
| FancyNavigation.FancyNavigationController.PopViewController | FancyVC/FancyNavigationController.h:35 | the stack becomes `Pop` of the old one |
| FancyNavigation.FancyNavigationController.PopToRootViewController | FancyVC/FancyNavigationController.h:37 | the stack becomes `PopToRoot` of the old one |
| FancyNavigation.FancyNavigationController.PopToViewController | FancyVC/FancyNavigationController.h:39 | the stack becomes `PopTo` of the old one |
| FancyNavigation.FancyNavigationController.PushViewController | FancyVC/FancyNavigationController.h:41-44 | the stack becomes `Push` of the old one |

## Left out

- Animation: every `animated:` flag only affects presentation and is not a parameter here.
- Gestures: pan recognition, hit-testing, pixel motion of the layers during a pan and clamping are not modelled. A pan is reduced to `BeginMove`, `ContinueMove` and `EndMove` on a touched controller.
- The pull threshold: the headers give no formula for "far enough". It is the boolean parameter `pulledFarEnough` of `EndMove`.
- Stack changes made by code while a pan is under way are not treated specially. Cancelling the pan is not modelled.
- Defaults: the headers do not state the defaults of a new item. The model assumes width and `nextItemDistance` 0, `hasChrome` on, no title, title view or bar button items, and both positions at the origin. It also assumes a new controller starts with user interaction enabled and `dropLayersWhenPulledRight` off.
- The root layer is assumed not to have maximum width, since `initWithRootViewController:` has no such parameter.
- The delegate is always present in the model. Its being optional and weakly held is not modelled, and neither are optional delegate methods.
- LayeredNavigation.LayeredNavigationController.BeginMove: the headers do not say which controllers can be moved. The model assumes a controller can be moved when user interaction is enabled, no other interaction is under way and the controller is on the stack, the root included.
- `userInteractionEnabled` only gates the start of a pan. It has no effect on the programmatic API.
- Distinct view controllers are not required by the class. `PushKeepsDistinct` states when a push keeps the stack free of duplicates.
- The compacted layout is not a class invariant. Clients may change `nextItemDistance` at any time. The constructor establishes it, and every operation that changes the stack keeps it when it held before.
- The back reference from an item to its layer names the layer's content view controller. A controller stacked twice would give two layers the same name. The object identity of the weak `_layerController` reference is not modelled.
- Positions during a pan: `currentViewPosition` is set to the resting position when a layer is pushed. Its later changes during a pan are not modelled.
- FancyNavigation.FancyNavigationController.PushViewController: the `maximumWidth:` and `animated:` arguments and the configuration-block variants of `init` and `push` are not modelled. `FancyNavigationItem` is a pair of points with no behaviour.
- `FRNavigationBar`, the chrome views, the bar appearance, and the view-hierarchy categories are rendering only.
- `CGFloat` arithmetic is `real` arithmetic, with no rounding.
