/**
 * Values shared by every part of the model. The UIKit objects the layered
 * navigation controller only refers to (content view controllers, title
 * views, bar button items) are opaque identities here.
 */
module Types {

  datatype Option<T> = None | Some(value: T)

  /** Identity of a content `UIViewController`; the model never looks inside one. */
  datatype ViewController = ViewController(id: nat)

  /** Identity of a custom title view (`UIView`). */
  datatype View = View(id: nat)

  /** Identity of a `UIBarButtonItem`. */
  datatype BarButtonItem = BarButtonItem(id: nat)

  /** A `CGPoint`, with exact reals in place of floating point. */
  datatype Point = Point(x: real, y: real)

  const Origin := Point(0.0, 0.0)
}
