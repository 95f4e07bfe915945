# reloj dashboard logic in Dafny

This project models the deterministic logic of `script.js`, the single script of a kiosk dashboard. The dashboard shows a digital and an analog clock, a month calendar and four world clocks on a paged scroll surface. It snaps that surface to whole pages with an eased animation and reloads the page after 10 s of inactivity when it is scrolled away from the first page.

The model has six modules:

- `Wrappers` (`wrappers.dfy`): `Option`, used for a surface that is absent and for a timer that is not armed.
- `Format` (`format.dfy`): `Number.prototype.toString` as `DecimalString`, for the non-negative integers the `Date` getters return, and `padZero` as `PadZero`. It also has a reader `ParseDecimal`, used to prove that padded text reads back as the number it was made from.
- `Clock` (`clock.dfy`): what `updateClock` writes. The digital `HH:MM` and `:SS` labels are written only when both digital labels exist. The three hand angles are written only when all three hands exist, computed with exact `real` arithmetic. This module also holds the world clocks of `updateWorldClocks`. They take the instant `getTime()` and the device's `getTimezoneOffset()`, follow the source's route (shift by the zone offset, add the city's hours, read back in local time) and are proved equal to the UTC minute of the day shifted by whole hours.
- `Calendar` (`calendar.dfy`): the two cell-building loops of `updateCalendar`. The method `UpdateCalendar` takes three inputs that `Date` would compute: the weekday of the 1st (`getDay()`, 0 = Sunday), the month length, and today's day of the month. It returns the cells, and the predicate `IsMonthGrid` says what those cells are.
- `Snap` (`snap.dfy`): the pure arithmetic of the scroll-snap fallback:
  - the progress `min(elapsed/400, 1)`;
  - the source's quadratic ease-in-out;
  - the interpolated offset;
  - `Math.round`, the nearest page boundary and its 5 px dead zone.
- `ScrollControl` (`scroller.dfy`): the class `Scroller`, which holds the script's scroll globals:
  - `scrollTop`;
  - the `isAnimating` guard;
  - the animation's captured `startY`, `targetY` and `startTime`;
  - the pending debounce (`snapTimeout`);
  - the pending touch-end callbacks;
  - the idle timer.

  The module also holds the 50 px idle threshold and the reload decision `IdleDecision`.

  Each listener and each timer callback is a method that takes the clock reading `now`. `Tick(now)` is one `requestAnimationFrame` callback. A pending timer is stored as the time it is due, and its callback method does nothing unless the timer is due. `SettleScenario` runs one whole sequence of calls: a viewport 800 px high, an offset of 760 px, an animation to 800, and then a reload decision.

## Model

| member | source | states |
|---|---|---|
| Format.DecimalString | script.js:3 | `toString()` of a natural number is a non-empty digit string with no leading zero. It has one character exactly when n < 10, and at most two when n < 100. |
| Format.ParseDecimalString | script.js:3 | Reading the numeral of n back gives n. |
| Format.ParseLeadingZero | script.js:5 | Putting `'0'` in front of a digit string does not change its value. |
| Format.PadZero | script.js:2-8 | For n < 10 the result is `'0'` followed by the digit; otherwise it is n's numeral unchanged. It always has at least two digits, and it has exactly two exactly when n < 100. |
| Format.PadZeroRoundTrip | script.js:2-8 | The padded text reads back as n. |
| Clock.HourMinuteText | script.js:15-25 | `padZero(h) + ':' + padZero(m)` is at least 5 characters long. For h, m < 100 it is exactly `DD:DD`. |
| Clock.HourMinuteTextRoundTrip | script.js:15-25 | The two fields of the `HH:MM` text read back as h and m. |
| Clock.SecondsText | script.js:17-26 | The seconds label is `':'` followed by digits that read back as s. It is 3 characters long for s < 100. |
| Clock.SecondsDeg | script.js:53 | The seconds angle is 6·s exactly. It lies in [0, 360) for s < 60. |
| Clock.MinutesDeg | script.js:54 | The minutes angle is 6·m + s/10 exactly. It lies in [0, 360) for valid m and s. |
| Clock.HoursDeg | script.js:55 | The hours angle is 30·h + m/2. No mod 12 is applied, so it is ≥ 360 for h ≥ 12. It lies in [0, 360) for h < 12 and m < 60. |
| Clock.HoursDegWholeTurns | script.js:55 | The 24-hour angle differs from the angle of h mod 12 by a whole number of turns, so the hand is drawn in the right place. |
| Clock.MinuteHandContinuous | script.js:54 | Each second moves the minute hand by 0.1°. The angle at m:60 equals the angle at (m+1):00. |
| Clock.RenderClock | script.js:10-67 | The digital labels are written exactly when both digital elements exist, and the hands exactly when all three hands exist; each group is independent of the other. The main text reads back as h and m, the seconds label is `SecondsText(s)` (`':'` and digits that read back as s), and the three angles satisfy the linear formulas. |
| Clock.MinuteOfDay | script.js:168-170 | `getHours()*60 + getMinutes()` of an instant read on a UTC dial lies in [0, 1440). |
| Clock.ShiftByHours | script.js:168 | Adding `offset * 3600000` ms adds 60·offset minutes, and the minute of the day wraps modulo 1440. |
| Clock.CityMinute | script.js:152-170 | A city's minute of the day is (UTC minute of day + 60·offset) mod 1440. |
| Clock.LocalMinuteOfDay | script.js:169-170 | The local `getHours()*60 + getMinutes()` on a device whose zone offset is `tzOffset` minutes is the UTC minute of the day minus `tzOffset`, modulo 1440. |
| Clock.SourceCityMinute | script.js:152-170 | Adding `getTimezoneOffset()` to `getTime()`, adding the city's hours and reading the result in local time gives exactly `CityMinute` of `getTime()`: the two zone corrections cancel. |
| Clock.CityIdsDistinct | script.js:159-164 | The four cities of the table have distinct label ids. |
| Clock.CityText | script.js:166-174 | A city's label is `HH:MM`, with hours < 24 and minutes < 60. Read back, it equals (UTC minute of day + 60·offset) mod 1440. |
| Clock.UpdateWorldClocks | script.js:150-177 | The table's cities are visited in order. Each city whose label is present gets its `CityText` of `getTime()`, and a missing label skips only that city. |
| Calendar.MondayStart | script.js:117-119 | Remaps a Sunday = 0 weekday to a Monday-start column in [0, 6]. Column + 1 is the original weekday modulo 7. |
| Calendar.UpdateCalendar | script.js:118-146 | The grid has `startDay` empty cells, then days 1..totalDays in order, so its length is `startDay + totalDays`. A day is flagged `today` iff d = today, and `weekend` iff its column `(startDay + d − 1) mod 7` is 5 or 6. |
| Calendar.TodayMarkedOnce | script.js:136-138 | Exactly one cell is flagged `today`, at position startDay + today − 1, when 1 ≤ today ≤ totalDays. Otherwise no cell is. |
| Calendar.DayPosition | script.js:125-134 | Day d appears at position startDay + d − 1 and nowhere else. |
| Calendar.DaysIncrease | script.js:131-146 | Every cell after a day cell is a day cell with a larger number. |
| Calendar.WeekdayOf | script.js:113-118 | The Sunday-start weekday of day d, given the weekday of the 1st, lies in [0, 6]. |
| Calendar.ColumnIsWeekday | script.js:140-143 | The grid column of day d is the Monday-start form of its real weekday. So `weekend` holds exactly when that weekday is Saturday or Sunday. |
| Snap.Progress | script.js:201-203 | Progress is at most 1, and it is ≥ 0 when elapsed ≥ 0. It equals 1 iff elapsed ≥ 400, and it equals elapsed/400 on [0, 400]. |
| Snap.Ease | script.js:205 | The source's curve: `2p²` below one half, `-1 + (4 − 2p)p` from one half on. Its lemmas below state what it promises. |
| Snap.EaseBounds | script.js:205 | For progress in [0, 1] the eased value lies in [0, 1]. |
| Snap.EaseIsEaseInOutQuad | script.js:205 | The source's `-1 + (4 − 2p)p` equals the textbook `1 − (−2p + 2)²/2`. |
| Snap.EaseEndpoints | script.js:205 | ease(0) = 0 and ease(1) = 1. Both branches give 0.5 at p = 0.5. |
| Snap.EaseMonotonic | script.js:205 | The ease is non-decreasing on [0, 1]. |
| Snap.EaseSymmetric | script.js:205 | ease(1 − p) = 1 − ease(p). |
| Snap.Position | script.js:207 | Ease 0 gives the start offset and ease 1 gives exactly the target. |
| Snap.PositionBetween | script.js:207 | For an ease in [0, 1] the offset lies between the start and the target. |
| Snap.FrameOffset | script.js:203-207 | The offset a frame writes `elapsed` ms after the start: `Position` at the eased `Progress`. `FrameOffsetBounds` and `FramesApproachTarget` state its properties. |
| Snap.FrameOffsetBounds | script.js:200-213 | The frame at 0 ms is at the start, and every frame from 400 ms on is exactly at the target. With elapsed ≥ 0 no frame overshoots. |
| Snap.FramesApproachTarget | script.js:200-213 | Later frames are never further from the target than earlier ones. |
| Snap.Round | script.js:225 | `Math.round(x)` is the integer k with k − ½ ≤ x < k + ½, so halves go up. |
| Snap.RoundUnique | script.js:225 | That characterisation determines `Math.round` uniquely. |
| Snap.NearestPage | script.js:225 | `Math.round(current / h)` is the k with (k − ½)·h ≤ current < (k + ½)·h. |
| Snap.SnapTarget | script.js:223-225 | The snap target is an integer multiple of h, with −h/2 ≤ current − target < h/2. |
| Snap.NearestPageInteger | script.js:225 | For integer offsets the rounding equals `(2c + h) / (2h)` (floor division). |
| Snap.OutsideDeadZone | script.js:226 | `Math.abs(current - target) > 5`, written as the two one-sided comparisons. |
| Snap.SnapOfPageBoundary | script.js:223-228 | A page boundary is its own snap target and lies inside the dead zone, so a finished snap does not snap again. |
| Snap.SnapIdempotent | script.js:235-237 | Snapping a snap target yields the same target. |
| Snap.SnapScenarioTarget | script.js:223-228 | With h = 800 and offset 760, the target is 800 and the offset is outside the dead zone. |
| ScrollControl.IdleDecision | script.js:83 | Definition of the idle test `scrollTop > 50`: Reload above the threshold, Stay otherwise. Its properties are stated by `IdleScenarios` and by `Scroller.IdleTimerFires`. |
| ScrollControl.IdleScenarios | script.js:81-86 | A firing at 120 px decides Reload. Firings at 20 px and at exactly 50 px decide Stay. |
| ScrollControl.Scroller.constructor | script.js:189-190 | At load no animation runs and no timer is armed; the idle timer is armed only by the first interaction. |
| ScrollControl.Scroller.SmoothScrollTo | script.js:192-199 | While animating, nothing changes. Otherwise the call sets `isAnimating` and captures `startY := scrollTop`, the target and the start time. Neither the offset nor any timer is touched. |
| ScrollControl.Scroller.Tick | script.js:200-214 | The offset becomes `FrameOffset` of the elapsed time. The guard stays set iff progress < 1. A frame at ≥ 400 ms sets the offset exactly to the target and clears the guard. The offset stays between start and target, and a frame with no running animation changes nothing. |
| ScrollControl.Scroller.OnScroll | script.js:219-222 | While animating, nothing changes, so the pending snap is untouched. Otherwise the pending snap is replaced by one due 200 ms later. |
| ScrollControl.Scroller.SnapTimerFires | script.js:222-229 | A due settle callback is consumed. It starts an animation to `SnapTarget` only when the offset is more than 5 px off and nothing is animating; otherwise the animation state is unchanged. |
| ScrollControl.Scroller.OnTouchEnd | script.js:232-233 | Adds one settle callback due 400 ms later and cancels nothing. |
| ScrollControl.Scroller.TouchTimerFires | script.js:233-240 | The oldest due touch-end callback is consumed. When nothing is animating, it starts an animation to `SnapTarget` with no dead zone. |
| ScrollControl.Scroller.OnInteraction | script.js:79-81 | The pending idle callback is replaced by one due 10 s later. Nothing else changes. |
| ScrollControl.Scroller.IdleTimerFires | script.js:81-86 | A due idle callback is consumed. It reads the offset at firing time and returns Reload iff that offset is > 50. Nothing else changes. |

## Where the model follows the code

- Easing: the code writes the second half as `-1 + (4 - 2p) * p`. The usual textbook form is `1 - (-2p + 2)^2 / 2`. `Snap.EaseIsEaseInOutQuad` proves that both forms are the same curve.
- Touch-end: the touch-end path has no 5 px dead zone. It calls the animation even when the offset is already on a page boundary, which starts a zero-distance animation.
- Touch-end timers: these callbacks are never cancelled, so several can be pending at once.
- Digital labels: these are written only when both digital elements exist. They are not written independently.
- Reload: "return to rest" is always a full page reload. There is no animated scroll to the top.

## Left out

- DOM access (`getElementById`, `innerText`, `innerHTML`, `createElement`, `appendChild`, class names, the `rotate(...)` transform strings): output plumbing. The model produces the cells, texts and angles instead.
- Real scheduling (`setInterval`, `setTimeout`, `clearTimeout`, `requestAnimationFrame`): event-loop timing. Explicit method calls with a `now` argument replace it. The model imposes no order across the snap, touch-end and idle timers. The caller picks which due callback fires and when, so a callback may also fire later than its due time. Only the touch-end callbacks are kept first-in, first-out.
- Which DOM events actually reach the window listeners: browser behaviour. `OnInteraction` stands for any of `mousemove`, `touchstart`, `click`, `scroll`, `keydown`.
- `window.location.reload()`: a side effect. `IdleTimerFires` returns it as the outcome `Reload`.
- `Date`: the current time, `getDay()` of the 1st and the month length via `new Date(year, month + 1, 0)` are library calls; their results are inputs.
- Clock.UpdateWorldClocks: it takes `getTime()` and one `getTimezoneOffset()` value. The source reads the zone offset at the current instant and `getHours()` interprets the shifted instant with the offset in force there. The model assumes both offsets are the same, so a DST change between the two instants is not modelled.
- `toLocaleDateString('de-DE', …)` and its `toDateString()` fallback: locale formatting from the library.
- `monthNames` and the month header: a constant table with nothing to verify.
- The `if (calendarDays)` check: `UpdateCalendar` models the body of that block. When the container is missing, the grid is left untouched, though the month header is still written (script.js:107-110).
- Floating point: angles, progress, ease and offsets are exact `real` numbers. No claim is made about bit-level agreement with JavaScript doubles, or about the browser rounding a fractional `scrollTop`.
- PadZero: the input is a natural number, which is what the `Date` getters return. Negative and fractional inputs to `padZero` are not modelled.
- Format.DecimalString: it is `toString()` only below 10^21. From there on JavaScript prints exponent notation (`1e+21`), which is not modelled; the `Date` getters never come near it.
- ScrollControl.Scroller.Tick, Snap.SnapOfPageBoundary: `scrollTop` stores exactly the value written. A browser clamps a write to [0, scrollHeight − clientHeight]. If a snap target lies past the last scrollable position (content height not a multiple of `innerHeight`), the source's last frame stops short of the target and the settle handler snaps again after every animation. The model, `SettleScenario` included, promises exact landing and no re-snap only for targets within the scrollable range.
- SnapTarget: it requires a viewport height h > 0. For h = 0, `current / h` would be `Infinity` or `NaN` in JavaScript.
- Snap.Progress: if the clock steps backwards, elapsed is negative and progress is below 0. The model computes that just as the source does, but there are bounds only for elapsed ≥ 0.
- Weather: this script has no weather fetch, so there is nothing to model.
