/** The scroll-blur effect: a fast scroll blurs the page for a moment, and the
    last direction of travel is remembered. Recomputation happens at most once
    per animation frame. */
module ScrollBlur {
  import opened Wrappers
  import opened Geometry

  datatype Direction = Up | Down

  const MaxBlur: real := 8.0
  /** Frame-to-frame scroll distances up to this many pixels give no blur. */
  const ScrollThreshold: real := 50.0
  /** Pixels of scroll per pixel of blur. */
  const BlurDivisor: real := 10.0

  /** The blur radius for a scroll of `delta` pixels since the last frame. */
  function BlurFor(delta: real): (r: real)
    ensures 0.0 <= r <= MaxBlur
    ensures Abs(delta) <= ScrollThreshold ==> r == 0.0
    ensures r != 0.0 ==> r > ScrollThreshold / BlurDivisor
    ensures Abs(delta) >= MaxBlur * BlurDivisor ==> r == MaxBlur
    ensures ScrollThreshold < Abs(delta) < MaxBlur * BlurDivisor ==> r * BlurDivisor == Abs(delta)
  {
    if Abs(delta) > ScrollThreshold then Min(Abs(delta) / BlurDivisor, MaxBlur) else 0.0
  }

  /** Scrolling up and down by the same distance blurs alike. */
  lemma BlurIsSymmetric(delta: real)
    ensures BlurFor(-delta) == BlurFor(delta)
  {
  }

  /** The blur grows with the scroll distance. */
  lemma BlurIsMonotonic(d1: real, d2: real)
    requires Abs(d1) <= Abs(d2)
    ensures BlurFor(d1) <= BlurFor(d2)
  {
  }

  lemma BlurExamples()
    ensures BlurFor(100.0) == 8.0
    ensures BlurFor(60.0) == 6.0
    ensures BlurFor(5.0) == 0.0
    ensures BlurFor(50.0) == 0.0
    ensures BlurFor(-100.0) == 8.0
  {
  }

  /** The direction after a scroll of `delta`: the sign of a non-zero delta,
      or the previous direction when the page did not move. */
  function NextDirection(prev: Option<Direction>, delta: real): (d: Option<Direction>)
    ensures delta == 0.0 ==> d == prev
    ensures d == Some(Down) <==> delta > 0.0 || (delta == 0.0 && prev == Some(Down))
    ensures d == Some(Up) <==> delta < 0.0 || (delta == 0.0 && prev == Some(Up))
  {
    if delta > 0.0 then Some(Down)
    else if delta < 0.0 then Some(Up)
    else prev
  }

  /** The offset a frame at position `i` of `ys` is compared with: the one
      before it, or `last` for the first. */
  function Before(last: real, ys: seq<real>, i: nat): real
    requires i < |ys|
  {
    if i == 0 then last else ys[i - 1]
  }

  /** The direction after frames that observed the offsets `ys` in turn,
      starting from direction `dir` and last offset `last`. */
  function DirectionAfter(dir: Option<Direction>, last: real, ys: seq<real>): (r: Option<Direction>)
    ensures ys == [] ==> r == dir
    ensures r == None ==> dir == None
  {
    if ys == [] then dir
    else
      var n := |ys| - 1;
      NextDirection(DirectionAfter(dir, last, ys[..n]), ys[n] - Before(last, ys, n))
  }

  /** Frames that see no movement leave the direction as it was. */
  lemma {:induction false} StillFramesKeepDirection(dir: Option<Direction>, last: real, ys: seq<real>)
    requires forall j :: 0 <= j < |ys| ==> ys[j] == Before(last, ys, j)
    ensures DirectionAfter(dir, last, ys) == dir
  {
    if ys != [] {
      var n := |ys| - 1;
      forall j | 0 <= j < n
        ensures ys[..n][j] == Before(last, ys[..n], j)
      {
        assert Before(last, ys, j) == ys[j];
      }
      StillFramesKeepDirection(dir, last, ys[..n]);
    }
  }

  /** The direction is that of the latest frame that saw the page move,
      however many still frames followed it. */
  lemma {:induction false} DirectionIsLatestMove(dir: Option<Direction>, last: real, ys: seq<real>, k: nat)
    requires k < |ys| && ys[k] != Before(last, ys, k)
    requires forall j :: k < j < |ys| ==> ys[j] == Before(last, ys, j)
    ensures DirectionAfter(dir, last, ys) == Some(if ys[k] > Before(last, ys, k) then Down else Up)
  {
    var n := |ys| - 1;
    var prefix := ys[..n];
    if k < n {
      assert Before(last, prefix, k) == Before(last, ys, k);
      forall j | k < j < |prefix|
        ensures prefix[j] == Before(last, prefix, j)
      {
        assert Before(last, ys, j) == ys[j - 1];
      }
      DirectionIsLatestMove(dir, last, prefix, k);
    }
  }

  /** The state of one use of the scroll-blur effect. */
  class ScrollBlurEffect {
    var blur: real
    var scrollDirection: Option<Direction>
    var lastScrollY: real
    /** True while a frame callback is scheduled and has not run. */
    var ticking: bool

    ghost predicate Valid()
      reads this
    {
      0.0 <= blur <= MaxBlur && (blur != 0.0 ==> blur > ScrollThreshold / BlurDivisor)
    }

    constructor ()
      ensures Valid()
      ensures blur == 0.0 && scrollDirection == None && lastScrollY == 0.0 && !ticking
    {
      blur := 0.0;
      scrollDirection := None;
      lastScrollY := 0.0;
      ticking := false;
    }

    /** Recompute from the page's current offset: direction from the sign of
        the delta, blur from its size, and remember the offset. */
    method HandleScroll(currentScrollY: real)
      requires Valid()
      modifies this
      ensures Valid()
      ensures blur == BlurFor(currentScrollY - old(lastScrollY))
      ensures scrollDirection == NextDirection(old(scrollDirection), currentScrollY - old(lastScrollY))
      ensures lastScrollY == currentScrollY
      ensures ticking == old(ticking)
    {
      var scrollDelta := currentScrollY - lastScrollY;
      if scrollDelta > 0.0 {
        scrollDirection := Some(Down);
      } else if scrollDelta < 0.0 {
        scrollDirection := Some(Up);
      }
      if Abs(scrollDelta) > ScrollThreshold {
        blur := Min(Abs(scrollDelta) / BlurDivisor, MaxBlur);
      } else {
        blur := 0.0;
      }
      lastScrollY := currentScrollY;
    }

    /** A scroll event: schedule a frame callback unless one is pending
        already; nothing is recomputed now. */
    method OnScroll()
      requires Valid()
      modifies this
      ensures Valid()
      ensures ticking
      ensures blur == old(blur) && scrollDirection == old(scrollDirection) && lastScrollY == old(lastScrollY)
      ensures old(ticking) ==> unchanged(this)
    {
      if !ticking {
        ticking := true;
      }
    }

    /** The next animation frame: the pending callback, if any, recomputes
        once from the offset the page has now, and clears `ticking`. */
    method RunFrame(currentScrollY: real)
      requires Valid()
      modifies this
      ensures Valid()
      ensures !ticking
      ensures old(ticking) ==> blur == BlurFor(currentScrollY - old(lastScrollY))
      ensures old(ticking) ==> scrollDirection == NextDirection(old(scrollDirection), currentScrollY - old(lastScrollY))
      ensures old(ticking) ==> lastScrollY == currentScrollY
      ensures !old(ticking) ==> unchanged(this)
    {
      if ticking {
        HandleScroll(currentScrollY);
        ticking := false;
      }
    }
  }
}
