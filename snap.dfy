/**
 * The arithmetic of the scroll-snap fallback (script.js:192-241) in exact
 * real numbers: animation progress, the quadratic ease-in-out curve, the
 * interpolated scroll offset, JavaScript's `Math.round`, the nearest page
 * boundary with its 5 px dead zone, and the 50 px idle threshold.
 */
module Snap {

  const DURATION: int := 400          // ms, script.js:197
  const DEAD_ZONE: real := 5.0        // px, script.js:226

  function Min(a: real, b: real): real {
    if a <= b then a else b
  }

  lemma MulNonneg(a: real, b: real)
    requires a >= 0.0 && b >= 0.0
    ensures a * b >= 0.0
  {
  }

  lemma MulLe(a: real, b: real, c: real)
    requires a <= b && c >= 0.0
    ensures a * c <= b * c
  {
  }

  lemma MulLt(a: real, b: real, c: real)
    requires a < b && c > 0.0
    ensures a * c < b * c
  {
  }

  lemma CancelLe(a: real, b: real, c: real)
    requires c > 0.0 && a * c <= b * c
    ensures a <= b
  {
    if a > b {
      MulLt(b, a, c);
    }
  }

  lemma CancelLt(a: real, b: real, c: real)
    requires c > 0.0 && a * c < b * c
    ensures a < b
  {
    if a >= b {
      MulLe(b, a, c);
    }
  }

  /** `Math.min(elapsed / duration, 1)`. */
  function Progress(elapsed: int): (p: real)
    ensures p <= 1.0
    ensures elapsed >= 0 ==> 0.0 <= p
    ensures p == 1.0 <==> elapsed >= DURATION
    ensures 0 <= elapsed <= DURATION ==> p * DURATION as real == elapsed as real
  {
    Min(elapsed as real / DURATION as real, 1.0)
  }

  /** The curve as the source writes it (script.js:205). */
  function Ease(p: real): real {
    if p < 0.5 then 2.0 * p * p else -1.0 + (4.0 - 2.0 * p) * p
  }

  /** On the progress range the eased value stays between 0 and 1. */
  lemma EaseBounds(p: real)
    requires 0.0 <= p <= 1.0
    ensures 0.0 <= Ease(p)
    ensures Ease(p) <= 1.0
  {
    if p < 0.5 {
      MulNonneg(p, p);
      MulLe(p, 0.5, p);
    } else {
      MulLe(2.0, 4.0 - 2.0 * p, p);
      assert 2.0 * p <= (4.0 - 2.0 * p) * p;
      assert Ease(p) == -1.0 + (4.0 - 2.0 * p) * p;
      assert 1.0 - Ease(p) == 2.0 * (1.0 - p) * (1.0 - p);
      MulNonneg(1.0 - p, 1.0 - p);
    }
  }

  /** The usual textbook form of the second half of the curve. */
  function EaseInOutQuad(p: real): real {
    if p < 0.5 then 2.0 * p * p else 1.0 - (-2.0 * p + 2.0) * (-2.0 * p + 2.0) / 2.0
  }

  lemma EaseIsEaseInOutQuad(p: real)
    ensures Ease(p) == EaseInOutQuad(p)
  {
  }

  /** The curve starts at 0, ends at 1, and both branches meet at 0.5 in the middle. */
  lemma EaseEndpoints()
    ensures Ease(0.0) == 0.0 && Ease(1.0) == 1.0
    ensures Ease(0.5) == 0.5 && 2.0 * 0.5 * 0.5 == 0.5
  {
  }

  /** The curve never goes back: the animation does not reverse direction. */
  lemma EaseMonotonic(p: real, q: real)
    requires 0.0 <= p <= q <= 1.0
    ensures Ease(p) <= Ease(q)
  {
    if q < 0.5 {
      assert q * q - p * p == (q - p) * (q + p);
      MulNonneg(q - p, q + p);
    } else if p >= 0.5 {
      assert Ease(q) - Ease(p) == (q - p) * (4.0 - 2.0 * (q + p));
      MulNonneg(q - p, 4.0 - 2.0 * (q + p));
    } else {
      MulLe(p, 0.5, p);
      assert Ease(q) - 0.5 == 2.0 * (q - 0.5) * (1.5 - q);
      MulNonneg(q - 0.5, 1.5 - q);
    }
  }

  /** The curve is point-symmetric about the middle of the animation. */
  lemma EaseSymmetric(p: real)
    requires 0.0 <= p <= 1.0
    ensures Ease(1.0 - p) == 1.0 - Ease(p)
  {
  }

  /** `startY + (targetY - startY) * ease`. */
  function Position(startY: real, targetY: real, ease: real): (y: real)
    ensures ease == 0.0 ==> y == startY
    ensures ease == 1.0 ==> y == targetY
  {
    startY + (targetY - startY) * ease
  }

  /** An eased value between 0 and 1 puts the offset between the start and the target. */
  lemma PositionBetween(startY: real, targetY: real, ease: real)
    requires 0.0 <= ease <= 1.0
    ensures startY <= targetY ==> startY <= Position(startY, targetY, ease) <= targetY
    ensures targetY <= startY ==> targetY <= Position(startY, targetY, ease) <= startY
  {
    var d := targetY - startY;
    var t := d * ease;
    assert Position(startY, targetY, ease) == startY + t;
    if d >= 0.0 {
      MulNonneg(d, ease);
      MulNonneg(d, 1.0 - ease);
      assert d * (1.0 - ease) == d - t;
      assert 0.0 <= t <= d;
    } else {
      MulNonneg(-d, ease);
      MulNonneg(-d, 1.0 - ease);
      assert -d * (1.0 - ease) == t - d;
      assert d <= t <= 0.0;
    }
  }

  /** The offset written by the frame `elapsed` ms after the animation started. */
  function FrameOffset(startY: real, targetY: real, elapsed: int): real {
    Position(startY, targetY, Ease(Progress(elapsed)))
  }

  /**
   * The frame at elapsed time 0 leaves the offset at its start, every frame
   * from 400 ms on lands exactly on the target, and no frame in between
   * overshoots either end.
   */
  lemma FrameOffsetBounds(startY: real, targetY: real, elapsed: int)
    ensures elapsed == 0 ==> FrameOffset(startY, targetY, elapsed) == startY
    ensures elapsed >= DURATION ==> FrameOffset(startY, targetY, elapsed) == targetY
    ensures elapsed >= 0 && startY <= targetY ==>
      startY <= FrameOffset(startY, targetY, elapsed) <= targetY
    ensures elapsed >= 0 && targetY <= startY ==>
      targetY <= FrameOffset(startY, targetY, elapsed) <= startY
  {
    EaseEndpoints();
    if elapsed >= 0 {
      EaseBounds(Progress(elapsed));
      PositionBetween(startY, targetY, Ease(Progress(elapsed)));
    }
  }

  /** Later frames are never further from the target than earlier ones. */
  lemma FramesApproachTarget(startY: real, targetY: real, e1: int, e2: int)
    requires 0 <= e1 <= e2
    ensures startY <= targetY ==> FrameOffset(startY, targetY, e1) <= FrameOffset(startY, targetY, e2)
    ensures targetY <= startY ==> FrameOffset(startY, targetY, e2) <= FrameOffset(startY, targetY, e1)
  {
    var p1, p2 := Progress(e1), Progress(e2);
    assert p1 <= p2;
    EaseMonotonic(p1, p2);
    var d := Ease(p2) - Ease(p1);
    assert FrameOffset(startY, targetY, e2) - FrameOffset(startY, targetY, e1) == (targetY - startY) * d;
    if startY <= targetY {
      MulNonneg(targetY - startY, d);
    } else {
      MulNonneg(startY - targetY, d);
    }
  }

  // ---------------------------------------------------------------------
  // Snap target
  // ---------------------------------------------------------------------

  /** `Math.round`: the nearest integer, halves rounded up (towards plus infinity). */
  function Round(x: real): (k: int)
    ensures k as real - 0.5 <= x < k as real + 0.5
  {
    (x + 0.5).Floor
  }

  lemma RoundUnique(x: real, k: int)
    requires k as real - 0.5 <= x < k as real + 0.5
    ensures Round(x) == k
  {
  }

  /** The index of the page nearest to `current`: `Math.round(current / h)`. */
  function NearestPage(current: real, h: int): (k: int)
    requires h > 0
    ensures (k as real - 0.5) * h as real <= current
    ensures current < (k as real + 0.5) * h as real
  {
    var x := current / h as real;
    var page := Round(x);
    assert current == x * h as real;
    MulLe(page as real - 0.5, x, h as real);
    MulLt(x, page as real + 0.5, h as real);
    assert current < (page as real + 0.5) * h as real;
    page
  }

  /**
   * `Math.round(current / h) * h`: a whole multiple of the viewport height,
   * at most half a page away from `current` (exactly half only when the
   * snap goes forward).
   */
  function SnapTarget(current: real, h: int): (target: real)
    requires h > 0
    ensures target == (NearestPage(current, h) * h) as real
    ensures -(h as real) / 2.0 <= current - target < (h as real) / 2.0
  {
    var k := NearestPage(current, h);
    assert (k * h) as real == k as real * h as real;
    assert (k as real - 0.5) * h as real == k as real * h as real - (h as real) / 2.0;
    assert (k as real + 0.5) * h as real == k as real * h as real + (h as real) / 2.0;
    (k * h) as real
  }

  lemma HalfPageBounds(x: real, qr: real, hr: real, cr: real, qhr: real)
    requires hr > 0.0 && x * hr == cr && qhr == qr * hr
    requires qhr - hr / 2.0 <= cr < qhr + hr / 2.0
    ensures qr - 0.5 <= x < qr + 0.5
  {
    var lo, hi := qr - 0.5, qr + 0.5;
    assert lo * hr == qhr - hr / 2.0;
    assert hi * hr == qhr + hr / 2.0;
    assert lo * hr <= x * hr < hi * hr;
    CancelLe(lo, x, hr);
    CancelLt(x, hi, hr);
  }

  lemma FloorDivBounds(c: int, h: int) returns (q: int)
    requires h > 0
    ensures q == (2 * c + h) / (2 * h)
    ensures 2 * (q * h) - h <= 2 * c < 2 * (q * h) + h
  {
    q := (2 * c + h) / (2 * h);
    var r := (2 * c + h) % (2 * h);
    assert 2 * c + h == q * (2 * h) + r && 0 <= r < 2 * h;
  }

  lemma HalvesToReal(c: int, h: int, qh: int)
    requires 2 * qh - h <= 2 * c < 2 * qh + h
    ensures qh as real - h as real / 2.0 <= c as real < qh as real + h as real / 2.0
  {
  }

  lemma CastMul(a: int, b: int)
    ensures (a * b) as real == a as real * b as real
  {
  }

  lemma DivMul(a: real, b: real)
    requires b > 0.0
    ensures (a / b) * b == a
  {
  }

  /** Over integer offsets the rounding is integer arithmetic: floor((2c + h) / (2h)). */
  lemma NearestPageInteger(c: int, h: int)
    requires h > 0
    ensures NearestPage(c as real, h) == (2 * c + h) / (2 * h)
  {
    var q := FloorDivBounds(c, h);
    HalvesToReal(c, h, q * h);
    CastMul(q, h);
    var x := c as real / h as real;
    DivMul(c as real, h as real);
    HalfPageBounds(x, q as real, h as real, c as real, (q * h) as real);
    RoundUnique(x, q);
  }

  /** A page boundary is its own snap target, so a finished snap never triggers another. */
  lemma SnapOfPageBoundary(k: int, h: int)
    requires h > 0
    ensures SnapTarget((k * h) as real, h) == (k * h) as real
    ensures !OutsideDeadZone((k * h) as real, SnapTarget((k * h) as real, h))
  {
    var c := (k * h) as real;
    var x := c / h as real;
    assert x == k as real by {
      assert c == k as real * h as real;
    }
    RoundUnique(x, k);
  }

  /** A viewport of 800 px scrolled to 760 px snaps forward to 800, 40 px away. */
  lemma SnapScenarioTarget()
    ensures SnapTarget(760.0, 800) == 800.0 && OutsideDeadZone(760.0, 800.0)
  {
  }

  /** The scroll-settle path snaps only when the offset is more than 5 px off. */
  predicate OutsideDeadZone(current: real, target: real) {
    current - target > DEAD_ZONE || target - current > DEAD_ZONE
  }

  /** Snapping twice is snapping once. */
  lemma SnapIdempotent(current: real, h: int)
    requires h > 0
    ensures SnapTarget(SnapTarget(current, h), h) == SnapTarget(current, h)
  {
    SnapOfPageBoundary(NearestPage(current, h), h);
  }
}
