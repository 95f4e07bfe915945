/**
 * The stateful part of the scroll-snap fallback and the idle reload
 * (script.js:75-93, 189-241): the `isAnimating` guard, the captured
 * start of an animation, one frame of `animate`, the 200 ms debounced
 * scroll-settle snap, the 400 ms touch-end snaps and the 10 s idle timer.
 *
 * The event loop is made explicit. Every callback is a method that takes
 * the clock reading `now` (ms). A pending timer is represented by the time
 * it is due; the method for a timer callback does nothing unless such a
 * timer exists and is due. `requestAnimationFrame` is always pending
 * while an animation runs, so `Tick` is the next animation frame.
 */
module ScrollControl {
  import opened Wrappers
  import opened Snap

  const SNAP_DEBOUNCE: int := 200   // ms, script.js:229
  const TOUCH_SETTLE: int := 400    // ms, script.js:240
  const IDLE_TIMEOUT: int := 10000  // ms, script.js:86
  const IDLE_THRESHOLD: real := 50.0  // px, script.js:83

  datatype IdleOutcome = Stay | Reload

  /** When the idle timer fires the page is reloaded only if it is scrolled off the first page. */
  function IdleDecision(scrollTop: real): IdleOutcome {
    if scrollTop > IDLE_THRESHOLD then Reload else Stay
  }

  /** An idle timer firing at 120 px reloads; one firing at 20 px or exactly at 50 px does not. */
  lemma IdleScenarios()
    ensures IdleDecision(120.0) == Reload
    ensures IdleDecision(20.0) == Stay && IdleDecision(IDLE_THRESHOLD) == Stay
  {
  }

  class Scroller {
    /** `scrollContainer.scrollTop`. */
    var scrollTop: real
    /** The guard: an animation is running and its next frame is requested. */
    var isAnimating: bool
    /** What the running (or last) animation captured when it started. */
    var startY: real
    var targetY: real
    var startTime: int
    /** The debounced scroll-settle callback (`snapTimeout`), if one is pending. */
    var snapDue: Option<int>
    /** The touch-end callbacks still pending, in the order they were scheduled (never cancelled). */
    var touchDue: seq<int>
    /** The idle callback (`idleTimer`), if one is pending. */
    var idleDue: Option<int>

    /** Page load: nothing is animating and no timer is armed yet. */
    constructor (initialTop: real)
      ensures scrollTop == initialTop && !isAnimating
      ensures snapDue == None && touchDue == [] && idleDue == None
    {
      scrollTop := initialTop;
      isAnimating := false;
      startY, targetY, startTime := 0.0, 0.0, 0;
      snapDue, touchDue, idleDue := None, [], None;
    }

    /** The browser, or the user's finger, moves the surface. */
    method NativeScroll(y: real)
      modifies this
      ensures scrollTop == y
      ensures isAnimating == old(isAnimating) && startY == old(startY)
      ensures targetY == old(targetY) && startTime == old(startTime)
      ensures snapDue == old(snapDue) && touchDue == old(touchDue) && idleDue == old(idleDue)
    {
      scrollTop := y;
    }

    /**
     * smoothScrollTo: a request while an animation runs changes nothing;
     * otherwise the guard is set and the start offset, the target and the
     * start time are captured. The offset itself moves only on the frames.
     */
    method SmoothScrollTo(target: real, now: int)
      modifies this
      ensures old(isAnimating) ==> unchanged(this)
      ensures !old(isAnimating) ==>
        && isAnimating
        && startY == old(scrollTop) && targetY == target && startTime == now
        && scrollTop == old(scrollTop)
        && snapDue == old(snapDue) && touchDue == old(touchDue) && idleDue == old(idleDue)
    {
      if isAnimating {
        return;
      }
      isAnimating := true;
      startY := scrollTop;
      startTime := now;
      targetY := target;
    }

    /**
     * One call of `animate`: the offset follows the eased curve; a frame
     * whose progress is below 1 keeps the animation running, the frame
     * with progress 1 lands exactly on the target and clears the guard.
     */
    method Tick(now: int)
      modifies this
      ensures !old(isAnimating) ==> unchanged(this)
      ensures old(isAnimating) ==>
        && scrollTop == FrameOffset(startY, targetY, now - startTime)
        && (isAnimating <==> Progress(now - startTime) < 1.0)
        && startY == old(startY) && targetY == old(targetY) && startTime == old(startTime)
        && snapDue == old(snapDue) && touchDue == old(touchDue) && idleDue == old(idleDue)
      ensures old(isAnimating) && now - startTime >= DURATION ==> scrollTop == targetY && !isAnimating
      ensures old(isAnimating) && 0 <= now - startTime < DURATION ==> isAnimating
      ensures old(isAnimating) && now >= startTime && startY <= targetY ==> startY <= scrollTop <= targetY
      ensures old(isAnimating) && now >= startTime && targetY <= startY ==> targetY <= scrollTop <= startY
    {
      if !isAnimating {
        return;
      }
      var elapsed := now - startTime;
      var progress := Progress(elapsed);
      scrollTop := FrameOffset(startY, targetY, elapsed);
      FrameOffsetBounds(startY, targetY, elapsed);
      if progress < 1.0 {
        // the next frame stays requested
      } else {
        isAnimating := false;
      }
    }

    /** The scroll listener: ignored while animating, else it replaces the pending snap. */
    method OnScroll(now: int)
      modifies this
      ensures old(isAnimating) ==> unchanged(this)
      ensures !old(isAnimating) ==> snapDue == Some(now + SNAP_DEBOUNCE)
      ensures scrollTop == old(scrollTop) && isAnimating == old(isAnimating)
      ensures startY == old(startY) && targetY == old(targetY) && startTime == old(startTime)
      ensures touchDue == old(touchDue) && idleDue == old(idleDue)
    {
      if isAnimating {
        return;
      }
      snapDue := Some(now + SNAP_DEBOUNCE);
    }

    /**
     * The debounced settle callback: its timer is consumed, and it asks for
     * an animation to the nearest page only when the offset is more than
     * 5 px away from it (the request is still dropped if one is running).
     */
    method SnapTimerFires(now: int, h: int)
      requires h > 0
      modifies this
      ensures !(old(snapDue).Some? && old(snapDue).value <= now) ==> unchanged(this)
      ensures old(snapDue).Some? && old(snapDue).value <= now ==>
        var target := SnapTarget(old(scrollTop), h);
        var starts := OutsideDeadZone(old(scrollTop), target) && !old(isAnimating);
        && snapDue == None
        && scrollTop == old(scrollTop) && touchDue == old(touchDue) && idleDue == old(idleDue)
        && (starts ==> isAnimating && startY == old(scrollTop) && targetY == target && startTime == now)
        && (!starts ==> isAnimating == old(isAnimating) && startY == old(startY)
                        && targetY == old(targetY) && startTime == old(startTime))
    {
      if !(snapDue.Some? && snapDue.value <= now) {
        return;
      }
      snapDue := None;
      var current := scrollTop;
      var target := SnapTarget(current, h);
      if OutsideDeadZone(current, target) {
        SmoothScrollTo(target, now);
      }
    }

    /** The touchend listener: one more settle callback, due 400 ms later. */
    method OnTouchEnd(now: int)
      modifies this
      ensures touchDue == old(touchDue) + [now + TOUCH_SETTLE]
      ensures scrollTop == old(scrollTop) && isAnimating == old(isAnimating)
      ensures startY == old(startY) && targetY == old(targetY) && startTime == old(startTime)
      ensures snapDue == old(snapDue) && idleDue == old(idleDue)
    {
      touchDue := touchDue + [now + TOUCH_SETTLE];
    }

    /**
     * The oldest touch-end callback: when no animation runs it asks for an
     * animation to the nearest page with no dead zone.
     */
    method TouchTimerFires(now: int, h: int)
      requires h > 0
      modifies this
      ensures !(old(touchDue) != [] && old(touchDue)[0] <= now) ==> unchanged(this)
      ensures old(touchDue) != [] && old(touchDue)[0] <= now ==>
        && touchDue == old(touchDue)[1..]
        && scrollTop == old(scrollTop) && snapDue == old(snapDue) && idleDue == old(idleDue)
        && (!old(isAnimating) ==> isAnimating && startY == old(scrollTop)
                                  && targetY == SnapTarget(old(scrollTop), h) && startTime == now)
        && (old(isAnimating) ==> isAnimating && startY == old(startY)
                                 && targetY == old(targetY) && startTime == old(startTime))
    {
      if !(touchDue != [] && touchDue[0] <= now) {
        return;
      }
      touchDue := touchDue[1..];
      if !isAnimating {
        var current := scrollTop;
        var target := SnapTarget(current, h);
        SmoothScrollTo(target, now);
      }
    }

    /** resetIdleTimer: any interaction replaces the pending idle callback. */
    method OnInteraction(now: int)
      modifies this
      ensures idleDue == Some(now + IDLE_TIMEOUT)
      ensures scrollTop == old(scrollTop) && isAnimating == old(isAnimating)
      ensures startY == old(startY) && targetY == old(targetY) && startTime == old(startTime)
      ensures snapDue == old(snapDue) && touchDue == old(touchDue)
    {
      idleDue := Some(now + IDLE_TIMEOUT);
    }

    /**
     * The idle callback, when due: the offset is read at firing time and
     * the outcome is a reload exactly when it exceeds 50 px. Nothing else
     * changes; the reload itself is left to the caller.
     */
    method IdleTimerFires(now: int) returns (outcome: Option<IdleOutcome>)
      modifies this
      ensures !(old(idleDue).Some? && old(idleDue).value <= now) ==> unchanged(this) && outcome == None
      ensures old(idleDue).Some? && old(idleDue).value <= now ==>
        idleDue == None && outcome == Some(if old(scrollTop) > IDLE_THRESHOLD then Reload else Stay)
      ensures scrollTop == old(scrollTop) && isAnimating == old(isAnimating)
      ensures startY == old(startY) && targetY == old(targetY) && startTime == old(startTime)
      ensures snapDue == old(snapDue) && touchDue == old(touchDue)
    {
      if !(idleDue.Some? && idleDue.value <= now) {
        return None;
      }
      idleDue := None;
      outcome := Some(IdleDecision(scrollTop));
    }
  }

  /**
   * A viewport 800 px high scrolled to 760 px: the settle callback starts an
   * animation to 800, the animation's own scroll events are ignored, the
   * frame 400 ms in lands on 800 exactly, the scroll event that frame causes
   * snaps nowhere, and the idle timer then asks for a reload.
   */
  method SettleScenario() {
    var s := new Scroller(760.0);
    s.OnInteraction(1000);
    s.OnScroll(1000);
    s.SnapTimerFires(1200, 800);
    SnapScenarioTarget();
    assert s.isAnimating && s.startY == 760.0 && s.targetY == 800.0 && s.snapDue == None;
    s.OnScroll(1216);
    assert s.snapDue == None;
    s.SmoothScrollTo(0.0, 1232);
    assert s.targetY == 800.0 && s.startTime == 1200;
    s.Tick(1300);
    assert s.isAnimating;
    s.Tick(1600);
    assert s.scrollTop == 800.0 && !s.isAnimating;
    s.OnScroll(1616);
    s.SnapTimerFires(1816, 800);
    SnapOfPageBoundary(1, 800);
    assert !s.isAnimating;
    var outcome := s.IdleTimerFires(11000);
    assert outcome == Some(Reload);
  }
}
