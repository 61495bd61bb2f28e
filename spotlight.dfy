/** The spotlight hover effect: a highlight drawn at the pointer's position
    inside an element, shown while the pointer moves over it and hidden when
    it leaves. */
module Spotlight {
  import opened Wrappers
  import opened Geometry

  /** What the host renders: the highlight's centre, local to the element, and
      its opacity (0 hidden, 1 shown). */
  datatype SpotState = SpotState(x: real, y: real, opacity: real)

  const Hidden: SpotState := SpotState(0.0, 0.0, 0.0)

  /** The pointer's position relative to the element's top-left corner. */
  function ToLocal(p: Pointer, b: Bounds): (r: Point)
    ensures ToViewport(r, b) == p
    ensures p.clientX == b.left && p.clientY == b.top ==> r == Origin
  {
    Point(p.clientX - b.left, p.clientY - b.top)
  }

  /** The inverse: a local position back in viewport coordinates. */
  function ToViewport(q: Point, b: Bounds): Pointer
  {
    Pointer(q.x + b.left, q.y + b.top)
  }

  /** Local coordinates are a bijection: distinct pointer samples over the same
      box give distinct highlight positions. */
  lemma ToLocalInjective(p1: Pointer, p2: Pointer, b: Bounds)
    requires ToLocal(p1, b) == ToLocal(p2, b)
    ensures p1 == p2
  {
    assert p1 == ToViewport(ToLocal(p1, b), b);
  }

  /** One frame callback that finds the element mounted: the highlight is shown
      at the position captured when the event arrived. */
  function Show(at: Point): (r: SpotState)
    ensures r.opacity == 1.0
  {
    SpotState(at.x, at.y, 1.0)
  }

  /** An accepted move does not depend on the state it replaces. */
  lemma ShowIgnoresPrevious(s1: SpotState, s2: SpotState, at: Point)
    ensures ApplyCallbacks(s1, [at], true) == ApplyCallbacks(s2, [at], true)
  {
    assert [at][..0] == [];
  }

  /** The state after the pending callbacks run in order, the element mounted
      or not when the frame comes. */
  function ApplyCallbacks(s: SpotState, pending: seq<Point>, mounted: bool): (r: SpotState)
    ensures !mounted || pending == [] ==> r == s
    ensures mounted && pending != [] ==> r.opacity == 1.0
    ensures WellFormed(s) ==> WellFormed(r)
  {
    if !mounted || pending == [] then s
    else Show(pending[|pending| - 1])
  }

  /** The opacity is only ever 0 or 1. */
  ghost predicate WellFormed(s: SpotState)
  {
    s.opacity == 0.0 || s.opacity == 1.0
  }

  /** Running callbacks keeps the opacity 0 or 1. */
  lemma ApplyCallbacksWellFormed(s: SpotState, pending: seq<Point>, mounted: bool)
    requires WellFormed(s)
    ensures WellFormed(ApplyCallbacks(s, pending, mounted))
  {
  }

  /** Only the latest move of a frame is visible: the outcome is the last
      captured position, shown, whatever came before it. */
  lemma LastMoveWins(s: SpotState, pending: seq<Point>)
    requires pending != []
    ensures ApplyCallbacks(s, pending, true)
            == SpotState(pending[|pending| - 1].x, pending[|pending| - 1].y, 1.0)
  {
  }

  /** Repeating the same move is idempotent. */
  lemma RepeatedMoveIdempotent(s: SpotState, at: Point)
    ensures ApplyCallbacks(s, [at, at], true) == ApplyCallbacks(s, [at], true)
  {
    assert [at, at][..1] == [at];
    assert [at][..0] == [];
  }

  /** A callback scheduled before the pointer left still runs after it, and
      shows the highlight again: leaving does not cancel pending callbacks. */
  lemma StaleCallbackAfterLeave(s: SpotState, at: Point)
    ensures ApplyCallbacks(s.(opacity := 0.0), [at], true).opacity == 1.0
  {
    assert [at][..0] == [];
  }

  /** The state of one use of the spotlight effect. */
  class SpotlightEffect {
    var spotlight: SpotState
    /** Local positions captured by moves whose frame callback has not run. */
    var pending: seq<Point>

    ghost predicate Valid()
      reads this
    {
      WellFormed(spotlight)
    }

    constructor ()
      ensures Valid()
      ensures spotlight == Hidden && pending == []
    {
      spotlight := Hidden;
      pending := [];
    }

    /** Pointer move: when the element is mounted, its box is read now and the
        local position is captured for a frame callback. */
    method MouseMove(p: Pointer, bounds: Option<Bounds>)
      requires Valid()
      modifies this
      ensures Valid()
      ensures spotlight == old(spotlight)
      ensures pending == match bounds
                         case None => old(pending)
                         case Some(b) => old(pending) + [ToLocal(p, b)]
    {
      match bounds {
        case None =>
        case Some(b) =>
          pending := pending + [ToLocal(p, b)];
      }
    }

    /** Pointer leave: hide the highlight and keep its position. */
    method MouseLeave()
      requires Valid()
      modifies this
      ensures Valid()
      ensures spotlight == SpotState(old(spotlight).x, old(spotlight).y, 0.0)
      ensures pending == old(pending)
    {
      spotlight := spotlight.(opacity := 0.0);
    }

    /** The next animation frame: the pending callbacks run in order; each one
        that finds the element mounted replaces the state outright. */
    method RunFrame(mounted: bool)
      requires Valid()
      modifies this
      ensures Valid()
      ensures pending == []
      ensures spotlight == ApplyCallbacks(old(spotlight), old(pending), mounted)
      ensures !mounted ==> spotlight == old(spotlight)
    {
      var callbacks := pending;
      var i := 0;
      while i < |callbacks|
        invariant 0 <= i <= |callbacks|
        invariant spotlight == ApplyCallbacks(old(spotlight), callbacks[..i], mounted)
      {
        if mounted {
          spotlight := Show(callbacks[i]);
        }
        assert callbacks[..i + 1][..i] == callbacks[..i];
        i := i + 1;
      }
      assert callbacks[..i] == callbacks;
      pending := [];
      ApplyCallbacksWellFormed(old(spotlight), callbacks, mounted);
    }
  }
}
