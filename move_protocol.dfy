/**
 * The messages of `FRLayeredNavigationControllerDelegate`. Each interaction
 * that moves a view controller announces it with `willMoveController`, then
 * reports it any number of times with `movingViewController`, and ends with
 * `didMoveController`. The automaton below accepts the message sequences
 * made of such complete interactions one after the other, possibly followed
 * by one interaction still under way.
 */
module MoveProtocol {
  import opened Types

  datatype MoveEvent =
    | WillMove(controller: ViewController)
    | Moving(controller: ViewController)
    | DidMove(controller: ViewController)

  /** No interaction in progress, or one moving `controller`. */
  datatype MoveState = Resting | InMotion(controller: ViewController)

  function Next(st: MoveState, e: MoveEvent): Option<MoveState> {
    match e
    case WillMove(c) => if st.Resting? then Some(InMotion(c)) else None
    case Moving(c) => if st == InMotion(c) then Some(st) else None
    case DidMove(c) => if st == InMotion(c) then Some(Resting) else None
  }

  /** The state after the messages `t`, or `None` if they break the protocol. */
  function Run(st: MoveState, t: seq<MoveEvent>): Option<MoveState> {
    if t == [] then Some(st)
    else
      match Run(st, t[..|t| - 1])
      case None => None
      case Some(s) => Next(s, t[|t| - 1])
  }

  ghost predicate Conforms(t: seq<MoveEvent>) {
    Run(Resting, t).Some?
  }

  function Repeat(e: MoveEvent, n: nat): (t: seq<MoveEvent>)
    ensures |t| == n && forall i :: 0 <= i < n ==> t[i] == e
  {
    if n == 0 then [] else Repeat(e, n - 1) + [e]
  }

  /** Sending one more message steps the automaton once. */
  lemma RunSnoc(st: MoveState, t: seq<MoveEvent>, e: MoveEvent)
    ensures Run(st, t + [e]) == match Run(st, t) case None => None case Some(s) => Next(s, e)
  {
    assert (t + [e])[..|t|] == t;
  }

  lemma {:induction false} RunConcat(st: MoveState, a: seq<MoveEvent>, b: seq<MoveEvent>)
    ensures Run(st, a + b) == match Run(st, a) case None => None case Some(s) => Run(s, b)
    decreases |b|
  {
    if b == [] {
      assert a + b == a;
    } else {
      var b' := b[..|b| - 1];
      assert a + b == (a + b') + [b[|b| - 1]];
      RunSnoc(st, a + b', b[|b| - 1]);
      RunConcat(st, a, b');
    }
  }

  /** One complete interaction: willMove, `n` times moving, didMove. */
  lemma {:induction false} SessionConforms(st: MoveState, c: ViewController, n: nat)
    requires st.Resting?
    ensures Run(st, [WillMove(c)] + Repeat(Moving(c), n) + [DidMove(c)]) == Some(Resting)
  {
    MovingKeepsState(c, n);
    RunConcat(st, [WillMove(c)], Repeat(Moving(c), n));
    RunSnoc(st, [WillMove(c)] + Repeat(Moving(c), n), DidMove(c));
  }

  lemma {:induction false} MovingKeepsState(c: ViewController, n: nat)
    ensures Run(InMotion(c), Repeat(Moving(c), n)) == Some(InMotion(c))
  {
    if n > 0 {
      MovingKeepsState(c, n - 1);
      RunSnoc(InMotion(c), Repeat(Moving(c), n - 1), Moving(c));
    }
  }

  /** A conforming message sequence stays conforming when cut short. */
  lemma {:induction false} ConformsPrefix(t: seq<MoveEvent>, k: nat)
    requires Conforms(t) && k <= |t|
    ensures Conforms(t[..k])
    decreases |t| - k
  {
    if k == |t| {
      assert t[..k] == t;
    } else {
      assert Run(Resting, t[..|t| - 1]).Some?;
      assert t[..|t| - 1][..k] == t[..k];
      ConformsPrefix(t[..|t| - 1], k);
    }
  }

  /**
   * While a controller is in motion, the messages since the last willMove
   * announced exactly that controller and were all movingViewController
   * messages for it.
   */
  lemma {:induction false} InMotionWasAnnounced(t: seq<MoveEvent>, c: ViewController)
    requires Run(Resting, t) == Some(InMotion(c))
    ensures exists j :: 0 <= j < |t| && t[j] == WillMove(c) && forall k :: j < k < |t| ==> t[k] == Moving(c)
  {
    var p := t[..|t| - 1];
    var e := t[|t| - 1];
    var s := Run(Resting, p).value;
    if e.WillMove? {
      assert t[|t| - 1] == WillMove(c);
    } else {
      assert s == InMotion(c) && e == Moving(c);
      InMotionWasAnnounced(p, c);
      var j :| 0 <= j < |p| && p[j] == WillMove(c) && forall k :: j < k < |p| ==> p[k] == Moving(c);
      assert t[j] == WillMove(c);
    }
  }

  /**
   * `movingViewController` and `didMoveController` for `c` only come after a
   * `willMoveController` for `c`, with no other interaction in between.
   */
  lemma AnnouncedBeforeMoving(t: seq<MoveEvent>, i: nat)
    requires Conforms(t) && i < |t| && !t[i].WillMove?
    ensures exists j :: 0 <= j < i && t[j] == WillMove(t[i].controller) &&
                        forall k :: j < k < i ==> t[k] == Moving(t[i].controller)
  {
    ConformsPrefix(t, i + 1);
    var p := t[..i + 1];
    assert p[..i] == t[..i];
    var s := Run(Resting, t[..i]).value;
    assert s == InMotion(t[i].controller);
    InMotionWasAnnounced(t[..i], t[i].controller);
  }

  /**
   * After `willMoveController` for `c` at `i`, the automaton stays in motion
   * for `c` until a `didMoveController` for `c` comes.
   */
  lemma {:induction false} InMotionUntilDidMove(t: seq<MoveEvent>, i: nat, m: nat)
    requires Conforms(t) && i < m <= |t| && t[i].WillMove?
    ensures || Run(Resting, t[..m]) == Some(InMotion(t[i].controller))
            || exists j :: i < j < m && t[j] == DidMove(t[i].controller)
    decreases m
  {
    var c := t[i].controller;
    ConformsPrefix(t, m);
    assert t[..m][..m - 1] == t[..m - 1];
    if m == i + 1 {
      assert t[..m][m - 1] == WillMove(c);
    } else {
      InMotionUntilDidMove(t, i, m - 1);
      if exists j :: i < j < m - 1 && t[j] == DidMove(c) {
        var j :| i < j < m - 1 && t[j] == DidMove(c);
        assert i < j < m && t[j] == DidMove(c);
      } else if t[m - 1] == DidMove(c) {
        assert i < m - 1 < m;
      } else {
        assert Run(Resting, t[..m - 1]) == Some(InMotion(c));
        assert t[..m][m - 1] == t[m - 1];
      }
    }
  }

  /**
   * A new interaction starts only after the previous one ended: between two
   * `willMoveController` messages lies a `didMoveController` for the
   * controller the first one announced.
   */
  lemma WillMoveNeedsDidMove(t: seq<MoveEvent>, i: nat, k: nat)
    requires Conforms(t) && i < k < |t| && t[i].WillMove? && t[k].WillMove?
    ensures exists j :: i < j < k && t[j] == DidMove(t[i].controller)
  {
    InMotionUntilDidMove(t, i, k);
    ConformsPrefix(t, k + 1);
    assert t[..k + 1][..k] == t[..k];
    assert t[..k + 1][k] == t[k];
  }

  /** After `didMoveController` the next message, if any, starts a new interaction. */
  lemma DidMoveEndsInteraction(t: seq<MoveEvent>, i: nat)
    requires Conforms(t) && i + 1 < |t| && t[i].DidMove?
    ensures t[i + 1].WillMove?
  {
    ConformsPrefix(t, i + 2);
    var p := t[..i + 2];
    assert p[..i + 1][..i] == t[..i];
    assert p[..i + 1] == t[..i + 1];
    assert Run(Resting, p) == match Run(Resting, t[..i + 1]) case None => None case Some(s) => Next(s, t[i + 1]);
    assert Run(Resting, t[..i + 1]) == Some(Resting);
  }
}
