/**
 * `FRLayeredNavigationItem`: the layout and chrome parameters of one layer.
 * Clients change width, distance, chrome flag, title, title view and bar
 * button items through read-write properties; the two view positions are
 * read-only to clients and set by the navigation controller alone.
 */
module NavigationItems {
  import opened Types

  /** Every property of an item, as one value. */
  datatype ItemFields = ItemFields(
    initialViewPosition: Point,
    currentViewPosition: Point,
    title: Option<string>,
    titleView: Option<View>,
    width: real,
    nextItemDistance: real,
    hasChrome: bool,
    leftBarButtonItem: Option<BarButtonItem>,
    rightBarButtonItem: Option<BarButtonItem>)

  /** One call of a client-writable setter, as a configuration block makes it. */
  datatype Setting =
    | Title(title: Option<string>)
    | TitleView(titleView: Option<View>)
    | Width(width: real)
    | NextItemDistance(nextItemDistance: real)
    | HasChrome(hasChrome: bool)
    | LeftBarButton(leftBarButtonItem: Option<BarButtonItem>)
    | RightBarButton(rightBarButtonItem: Option<BarButtonItem>)

  /** The properties of a freshly created item (see README for the defaults). */
  const InitialFields := ItemFields(Origin, Origin, None, None, 0.0, 0.0, true, None, None)

  /** The effect of one setter call: the named property takes the new value. */
  function Apply(f: ItemFields, s: Setting): (g: ItemFields)
    ensures g.initialViewPosition == f.initialViewPosition
    ensures g.currentViewPosition == f.currentViewPosition
  {
    match s
    case Title(t) => f.(title := t)
    case TitleView(v) => f.(titleView := v)
    case Width(w) => f.(width := w)
    case NextItemDistance(d) => f.(nextItemDistance := d)
    case HasChrome(c) => f.(hasChrome := c)
    case LeftBarButton(b) => f.(leftBarButtonItem := b)
    case RightBarButton(b) => f.(rightBarButtonItem := b)
  }

  /**
   * The effect of a configuration block that makes the setter calls
   * `settings` in order. No setter reaches the view positions.
   */
  function ApplyAll(f: ItemFields, settings: seq<Setting>): (g: ItemFields)
    ensures g.initialViewPosition == f.initialViewPosition
    ensures g.currentViewPosition == f.currentViewPosition
  {
    if settings == [] then f
    else Apply(ApplyAll(f, settings[..|settings| - 1]), settings[|settings| - 1])
  }

  /**
   * Setters that do not name the width leave it alone, so the width a block
   * sets last is the width the item ends up with.
   */
  lemma LastWidthWins(f: ItemFields, before: seq<Setting>, w: real, after: seq<Setting>)
    requires forall s :: s in after ==> !s.Width?
    ensures ApplyAll(f, before + [Width(w)] + after).width == w
  {
    ApplyAllConcat(f, before + [Width(w)], after);
    WidthUntouched(ApplyAll(f, before + [Width(w)]), after);
  }

  lemma {:induction false} WidthUntouched(f: ItemFields, settings: seq<Setting>)
    requires forall s :: s in settings ==> !s.Width?
    ensures ApplyAll(f, settings).width == f.width
  {
    if settings != [] {
      WidthUntouched(f, settings[..|settings| - 1]);
    }
  }

  lemma {:induction false} ApplyAllConcat(f: ItemFields, a: seq<Setting>, b: seq<Setting>)
    ensures ApplyAll(f, a + b) == ApplyAll(ApplyAll(f, a), b)
    decreases |b|
  {
    if b == [] {
      assert a + b == a;
    } else {
      assert (a + b)[..|a + b| - 1] == a + b[..|b| - 1];
      assert (a + b)[|a + b| - 1] == b[|b| - 1];
      ApplyAllConcat(f, a, b[..|b| - 1]);
    }
  }

  class LayeredNavigationItem {
    var initialViewPosition: Point
    var currentViewPosition: Point
    var title: Option<string>
    var titleView: Option<View>
    var width: real
    var nextItemDistance: real
    var hasChrome: bool
    var leftBarButtonItem: Option<BarButtonItem>
    var rightBarButtonItem: Option<BarButtonItem>
    /** Non-owning back reference to the layer controller, by the content controller it wraps. */
    const layerContent: ViewController

    function Fields(): ItemFields
      reads this
    {
      ItemFields(initialViewPosition, currentViewPosition, title, titleView, width,
                 nextItemDistance, hasChrome, leftBarButtonItem, rightBarButtonItem)
    }

    constructor (layerContent: ViewController)
      ensures this.layerContent == layerContent
      ensures Fields() == InitialFields
    {
      this.layerContent := layerContent;
      initialViewPosition, currentViewPosition := Origin, Origin;
      title, titleView := None, None;
      width, nextItemDistance := 0.0, 0.0;
      hasChrome := true;
      leftBarButtonItem, rightBarButtonItem := None, None;
    }

    method SetTitle(t: Option<string>)
      modifies this`title
      ensures title == t
    {
      title := t;
    }

    method SetTitleView(v: Option<View>)
      modifies this`titleView
      ensures titleView == v
    {
      titleView := v;
    }

    method SetWidth(w: real)
      modifies this`width
      ensures width == w
    {
      width := w;
    }

    method SetNextItemDistance(d: real)
      modifies this`nextItemDistance
      ensures nextItemDistance == d
    {
      nextItemDistance := d;
    }

    method SetHasChrome(c: bool)
      modifies this`hasChrome
      ensures hasChrome == c
    {
      hasChrome := c;
    }

    method SetLeftBarButtonItem(b: Option<BarButtonItem>)
      modifies this`leftBarButtonItem
      ensures leftBarButtonItem == b
    {
      leftBarButtonItem := b;
    }

    method SetRightBarButtonItem(b: Option<BarButtonItem>)
      modifies this`rightBarButtonItem
      ensures rightBarButtonItem == b
    {
      rightBarButtonItem := b;
    }

    /** One setter call chosen by `s`. */
    method Assign(s: Setting)
      modifies this`title, this`titleView, this`width, this`nextItemDistance, this`hasChrome,
               this`leftBarButtonItem, this`rightBarButtonItem
      ensures Fields() == Apply(old(Fields()), s)
    {
      match s
      case Title(t) => SetTitle(t);
      case TitleView(v) => SetTitleView(v);
      case Width(w) => SetWidth(w);
      case NextItemDistance(d) => SetNextItemDistance(d);
      case HasChrome(c) => SetHasChrome(c);
      case LeftBarButton(b) => SetLeftBarButtonItem(b);
      case RightBarButton(b) => SetRightBarButtonItem(b);
    }

    /** Runs a configuration block, given as the setter calls it makes. */
    method Configure(settings: seq<Setting>)
      modifies this`title, this`titleView, this`width, this`nextItemDistance, this`hasChrome,
               this`leftBarButtonItem, this`rightBarButtonItem
      ensures Fields() == ApplyAll(old(Fields()), settings)
    {
      var i := 0;
      while i < |settings|
        invariant 0 <= i <= |settings|
        invariant Fields() == ApplyAll(old(Fields()), settings[..i])
      {
        assert settings[..i + 1][..i] == settings[..i];
        Assign(settings[i]);
        i := i + 1;
      }
      assert settings[..i] == settings;
    }

    /**
     * Used by the navigation controller only: puts the layer at rest at `p`,
     * its maximally compacted position.
     */
    method Place(p: Point)
      modifies this`initialViewPosition, this`currentViewPosition
      ensures Fields() == old(Fields()).(initialViewPosition := p, currentViewPosition := p)
    {
      initialViewPosition, currentViewPosition := p, p;
    }
  }
}
