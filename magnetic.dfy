/** The magnetic hover effect: an element drifts toward the pointer by a damped
    displacement, and snaps back to rest when the pointer leaves. */
module Magnetic {
  import opened Wrappers
  import opened Geometry

  /** The strength used when the host passes none. */
  const DefaultStrength: real := 0.3

  /** The fraction of the remaining distance covered by one update. */
  const Smoothing: real := 0.25

  /** The displacement the element is pulled toward: the pointer's offset from
      the centre of the element's box, scaled by the strength. */
  function Target(p: Pointer, b: Bounds, strength: real): (t: Point)
    ensures strength == 0.0 ==> t == Origin
    ensures p.clientX == b.left + b.width / 2.0 && p.clientY == b.top + b.height / 2.0 ==> t == Origin
    ensures strength > 0.0 ==> (t.x > 0.0 <==> p.clientX > b.left + b.width / 2.0)
    ensures strength > 0.0 ==> (t.y > 0.0 <==> p.clientY > b.top + b.height / 2.0)
  {
    var centreX := b.left + b.width / 2.0;
    var centreY := b.top + b.height / 2.0;
    Point((p.clientX - centreX) * strength, (p.clientY - centreY) * strength)
  }

  /** One smoothing update on one axis. */
  function Smooth(prev: real, target: real): (r: real)
    ensures r - target == (prev - target) * 0.75
    ensures prev <= target ==> prev <= r <= target
    ensures target <= prev ==> target <= r <= prev
    ensures prev == target ==> r == prev
    ensures prev != target ==> Abs(r - target) < Abs(prev - target)
  {
    prev + (target - prev) * Smoothing
  }

  /** One smoothing update on both axes. */
  function Step(prev: Point, target: Point): (r: Point)
    ensures r.x - target.x == (prev.x - target.x) * 0.75
    ensures r.y - target.y == (prev.y - target.y) * 0.75
    ensures prev == target ==> r == prev
  {
    Point(Smooth(prev.x, target.x), Smooth(prev.y, target.y))
  }

  /** The displacement after successive updates toward `targets`, in order. */
  function StepAll(pos: Point, targets: seq<Point>): (r: Point)
    ensures (forall i :: 0 <= i < |targets| ==> targets[i] == pos) ==> r == pos
  {
    if targets == [] then pos
    else Step(StepAll(pos, targets[..|targets| - 1]), targets[|targets| - 1])
  }

  /** The target of each pointer sample, against one bounding box. */
  function Targets(samples: seq<Pointer>, b: Bounds, strength: real): (ts: seq<Point>)
    ensures |ts| == |samples|
    ensures forall i :: 0 <= i < |samples| ==> ts[i] == Target(samples[i], b, strength)
  {
    if samples == [] then []
    else Targets(samples[..|samples| - 1], b, strength) + [Target(samples[|samples| - 1], b, strength)]
  }

  /** The displacement after the frame callbacks scheduled for `samples` run in
      order, reading the element's box `frameBounds` (None: unmounted, every
      callback returns early). */
  function ApplyCallbacks(pos: Point, samples: seq<Pointer>, frameBounds: Option<Bounds>, strength: real): (r: Point)
    ensures frameBounds == None || samples == [] ==> r == pos
  {
    match frameBounds
    case None => pos
    case Some(b) => StepAll(pos, Targets(samples, b, strength))
  }

  /** What is left of a distance `d` to the target after `k` updates: each
      update keeps three quarters of it. */
  function Decayed(d: real, k: nat): (r: real)
    ensures d >= 0.0 ==> 0.0 <= r <= d
    ensures d <= 0.0 ==> d <= r <= 0.0
    ensures k > 0 && d != 0.0 ==> Abs(r) < Abs(d)
  {
    if k == 0 then d else 0.75 * Decayed(d, k - 1)
  }

  /** Repeated updates toward one fixed target shrink the distance to it
      geometrically on each axis, never overshooting. */
  lemma {:induction false} StepAllShrinksGeometrically(pos: Point, t: Point, targets: seq<Point>)
    requires forall i :: 0 <= i < |targets| ==> targets[i] == t
    ensures StepAll(pos, targets).x - t.x == Decayed(pos.x - t.x, |targets|)
    ensures StepAll(pos, targets).y - t.y == Decayed(pos.y - t.y, |targets|)
  {
    if targets != [] {
      var init := targets[..|targets| - 1];
      StepAllShrinksGeometrically(pos, t, init);
      assert targets[|targets| - 1] == t;
    }
  }

  /** The k frame callbacks of one frame, all for the same pointer sample and
      all reading the same box: afterwards the distance to that sample's target
      has decayed k times. */
  lemma HeldPointerConverges(pos: Point, p: Pointer, b: Bounds, strength: real, samples: seq<Pointer>)
    requires forall i :: 0 <= i < |samples| ==> samples[i] == p
    ensures ApplyCallbacks(pos, samples, Some(b), strength).x - Target(p, b, strength).x
            == Decayed(pos.x - Target(p, b, strength).x, |samples|)
    ensures ApplyCallbacks(pos, samples, Some(b), strength).y - Target(p, b, strength).y
            == Decayed(pos.y - Target(p, b, strength).y, |samples|)
  {
    StepAllShrinksGeometrically(pos, Target(p, b, strength), Targets(samples, b, strength));
  }

  /** A frame callback scheduled before the pointer left still runs after the
      reset, and moves the element a quarter of the way to that sample's target:
      leaving does not cancel pending callbacks. */
  lemma StaleCallbackAfterLeave(p: Pointer, b: Bounds, strength: real)
    ensures ApplyCallbacks(Origin, [p], Some(b), strength)
            == Point(Target(p, b, strength).x * Smoothing, Target(p, b, strength).y * Smoothing)
  {
    var ts := Targets([p], b, strength);
    assert ts == [Target(p, b, strength)];
    assert ts[..0] == [];
    var t := Target(p, b, strength);
    assert StepAll(Origin, ts) == Step(Origin, t);
    assert Smooth(0.0, t.x) == t.x * Smoothing;
    assert Smooth(0.0, t.y) == t.y * Smoothing;
  }

  /** The state of one use of the magnetic effect: the displacement the host
      renders and the frame callbacks scheduled but not yet run. */
  class MagneticEffect {
    const strength: real
    var position: Point
    var pending: seq<Pointer>

    constructor (strength: real := DefaultStrength)
      ensures this.strength == strength
      ensures position == Origin && pending == []
    {
      this.strength := strength;
      position := Origin;
      pending := [];
    }

    /** Pointer move: when the element is mounted, schedule a frame callback
        carrying this sample; the displacement is not touched yet. */
    method MouseMove(p: Pointer, mounted: bool)
      modifies this
      ensures position == old(position)
      ensures pending == if mounted then old(pending) + [p] else old(pending)
    {
      if mounted {
        pending := pending + [p];
      }
    }

    /** Pointer leave: back to rest at once, with no smoothing. */
    method MouseLeave()
      modifies this
      ensures position == Origin
      ensures pending == old(pending)
    {
      position := Origin;
    }

    /** The next animation frame: every pending callback runs in the order it
        was scheduled, each one reading the element's box at frame time. */
    method RunFrame(frameBounds: Option<Bounds>)
      modifies this
      ensures pending == []
      ensures position == ApplyCallbacks(old(position), old(pending), frameBounds, strength)
      ensures frameBounds == None ==> position == old(position)
    {
      var callbacks := pending;
      var i := 0;
      while i < |callbacks|
        invariant 0 <= i <= |callbacks|
        invariant position == ApplyCallbacks(old(position), callbacks[..i], frameBounds, strength)
      {
        if frameBounds.Some? {
          ghost var ts := Targets(callbacks[..i + 1], frameBounds.value, strength);
          assert ts[..i] == Targets(callbacks[..i], frameBounds.value, strength);
          position := Step(position, Target(callbacks[i], frameBounds.value, strength));
        }
        i := i + 1;
      }
      assert callbacks[..i] == callbacks;
      pending := [];
    }
  }
}
