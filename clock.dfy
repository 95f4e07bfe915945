/**
 * The clock panel (updateClock, script.js:10-67) and the world clocks
 * (updateWorldClocks, script.js:150-177): digital text, analog hand
 * angles in exact real arithmetic, and whole-hour time-zone shifts on
 * the minute of the day.
 */
module Clock {
  import opened Wrappers
  import opened Format

  // ---------------------------------------------------------------------
  // Digital display
  // ---------------------------------------------------------------------

  /** `padZero(hours) + ':' + padZero(minutes)`, shared by both clocks. */
  function HourMinuteText(h: nat, m: nat): (r: string)
    ensures |r| >= 5
    ensures h < 100 && m < 100 ==>
      |r| == 5 && r[2] == ':' && IsDigits(r[..2]) && IsDigits(r[3..])
  {
    PadZero(h) + ":" + PadZero(m)
  }

  /** The seconds label `':' + padZero(seconds)`. */
  function SecondsText(s: nat): (r: string)
    ensures |r| >= 3 && r[0] == ':'
    ensures s < 100 ==> |r| == 3
    ensures IsDigits(r[1..]) && ParseDecimal(r[1..]) == s
  {
    var r := ":" + PadZero(s);
    assert r[1..] == PadZero(s);
    PadZeroRoundTrip(s);
    r
  }

  /** Reading the two fields of `HH:MM` back gives the hour and the minute. */
  lemma HourMinuteTextRoundTrip(h: nat, m: nat)
    requires h < 100 && m < 100
    ensures var r := HourMinuteText(h, m);
      IsDigits(r[..2]) && IsDigits(r[3..]) &&
      ParseDecimal(r[..2]) == h && ParseDecimal(r[3..]) == m
  {
    var r := HourMinuteText(h, m);
    assert r[..2] == PadZero(h);
    assert r[3..] == PadZero(m);
    PadZeroRoundTrip(h);
    PadZeroRoundTrip(m);
  }

  // ---------------------------------------------------------------------
  // Analog hands (script.js:53-55), in degrees
  // ---------------------------------------------------------------------

  function SecondsDeg(s: nat): (deg: real)
    ensures deg == 6.0 * s as real
    ensures s < 60 ==> 0.0 <= deg < 360.0
  {
    (s as real / 60.0) * 360.0
  }

  function MinutesDeg(m: nat, s: nat): (deg: real)
    ensures deg == 6.0 * m as real + s as real / 10.0
    ensures m < 60 && s < 60 ==> 0.0 <= deg < 360.0
  {
    ((m as real / 60.0) * 360.0) + ((s as real / 60.0) * 6.0)
  }

  /** No `% 12` is taken: from 12 o'clock on the angle is 360 or more. */
  function HoursDeg(h: nat, m: nat): (deg: real)
    ensures deg == 30.0 * h as real + m as real / 2.0
    ensures h >= 12 ==> deg >= 360.0
    ensures h < 12 && m < 60 ==> 0.0 <= deg < 360.0
  {
    ((h as real / 12.0) * 360.0) + ((m as real / 60.0) * 30.0)
  }

  /**
   * The hour hand of a 24-hour value is a whole number of turns away from
   * the hand of the same time on a 12-hour dial, so it shows the right place.
   */
  lemma HoursDegWholeTurns(h: nat, m: nat)
    ensures HoursDeg(h, m) == HoursDeg(h % 12, m) + 360.0 * (h / 12) as real
  {
  }

  /**
   * One second moves the minute hand by a tenth of a degree, and a full
   * minute of seconds moves it to exactly where the next minute starts.
   */
  lemma MinuteHandContinuous(m: nat, s: nat)
    ensures MinutesDeg(m, s + 1) == MinutesDeg(m, s) + 0.1
    ensures MinutesDeg(m, 60) == MinutesDeg(m + 1, 0)
  {
  }

  /** What one run of updateClock writes; a surface that is missing is left alone. */
  datatype ClockFace = ClockFace(
    mainText: Option<string>,
    secondsText: Option<string>,
    hands: Option<(real, real, real)>)

  /**
   * updateClock for the wall-clock time h:m:s. The digital labels are
   * written only when both are present, the three hands only when all
   * three are present; neither group depends on the other.
   */
  function RenderClock(h: nat, m: nat, s: nat, hasDigital: bool, hasHands: bool): (face: ClockFace)
    ensures face.mainText.Some? <==> hasDigital
    ensures face.secondsText.Some? <==> hasDigital
    ensures hasDigital ==> face.secondsText.value == SecondsText(s)
    ensures face.hands.Some? <==> hasHands
    ensures hasDigital && h < 100 && m < 100 ==>
      var t := face.mainText.value;
      |t| == 5 && t[2] == ':' && IsDigits(t[..2]) && IsDigits(t[3..]) &&
      ParseDecimal(t[..2]) == h && ParseDecimal(t[3..]) == m
    ensures hasHands ==> face.hands.value.0 == 30.0 * h as real + m as real / 2.0
    ensures hasHands ==> face.hands.value.1 == 6.0 * m as real + s as real / 10.0
    ensures hasHands ==> face.hands.value.2 == 6.0 * s as real
  {
    var face := ClockFace(
      if hasDigital then Some(HourMinuteText(h, m)) else None,
      if hasDigital then Some(SecondsText(s)) else None,
      if hasHands then Some((HoursDeg(h, m), MinutesDeg(m, s), SecondsDeg(s))) else None);
    if h < 100 && m < 100 then HourMinuteTextRoundTrip(h, m); face else face
  }

  // ---------------------------------------------------------------------
  // World clocks (script.js:150-177)
  // ---------------------------------------------------------------------

  const MS_PER_MINUTE: int := 60000
  const MS_PER_HOUR: int := 3600000
  const MINUTES_PER_DAY: int := 1440

  /** A display label and its standard-time offset from UTC in whole hours. */
  datatype City = City(id: string, offset: int)

  /** The table of updateWorldClocks, in the order the labels are written. */
  const CITIES: seq<City> := [
    City("time-sanjuan", -4),
    City("time-newyork", -5),
    City("time-losangeles", -8),
    City("time-dubai", 4)
  ]

  /**
   * `getHours() * 60 + getMinutes()` of an instant given in milliseconds,
   * read on a dial that shows UTC. Dafny's `/` and `%` round towards minus
   * infinity for a positive divisor, as a clock does before 1970.
   */
  function MinuteOfDay(ms: int): (r: int)
    ensures 0 <= r < MINUTES_PER_DAY
  {
    (ms / MS_PER_MINUTE) % MINUTES_PER_DAY
  }

  /** The minute of the day in a city: the UTC instant shifted by whole hours, read on a UTC dial. */
  function CityMinute(utcMs: int, offset: int): (r: int)
    ensures 0 <= r < MINUTES_PER_DAY
    ensures r == (MinuteOfDay(utcMs) + 60 * offset) % MINUTES_PER_DAY
  {
    ShiftByHours(utcMs, offset);
    MinuteOfDay(utcMs + offset * MS_PER_HOUR)
  }

  lemma ShiftByHours(ms: int, offset: int)
    ensures (ms + offset * MS_PER_HOUR) / MS_PER_MINUTE == ms / MS_PER_MINUTE + 60 * offset
    ensures ((ms / MS_PER_MINUTE + 60 * offset) % MINUTES_PER_DAY)
         == ((ms / MS_PER_MINUTE) % MINUTES_PER_DAY + 60 * offset) % MINUTES_PER_DAY
  {
    var q, r := ms / MS_PER_MINUTE, ms % MS_PER_MINUTE;
    assert ms + offset * MS_PER_HOUR == (q + 60 * offset) * MS_PER_MINUTE + r;
    var a, b := q / MINUTES_PER_DAY, q % MINUTES_PER_DAY;
    assert q + 60 * offset == a * MINUTES_PER_DAY + (b + 60 * offset);
  }

  /** The `HH:MM` text shown for a city. */
  function CityText(utcMs: int, offset: int): (r: string)
    ensures |r| == 5 && r[2] == ':'
    ensures IsDigits(r[..2]) && IsDigits(r[3..])
    ensures ParseDecimal(r[..2]) * 60 + ParseDecimal(r[3..])
         == (MinuteOfDay(utcMs) + 60 * offset) % MINUTES_PER_DAY
    ensures ParseDecimal(r[..2]) < 24 && ParseDecimal(r[3..]) < 60
  {
    var t := CityMinute(utcMs, offset);
    HourMinuteTextRoundTrip(t / 60, t % 60);
    HourMinuteText(t / 60, t % 60)
  }

  /**
   * `getHours() * 60 + getMinutes()` of an instant on a device whose
   * `getTimezoneOffset()` is `tzOffset` minutes (UTC minus local time).
   */
  function LocalMinuteOfDay(ms: int, tzOffset: int): (r: int)
    ensures 0 <= r < MINUTES_PER_DAY
    ensures r == (MinuteOfDay(ms) - tzOffset) % MINUTES_PER_DAY
  {
    ShiftByMinutes(ms, -tzOffset);
    MinuteOfDay(ms - tzOffset * MS_PER_MINUTE)
  }

  /** Moving an instant by k whole minutes moves its minute of the day by k, modulo a day. */
  lemma ShiftByMinutes(ms: int, k: int)
    ensures MinuteOfDay(ms + k * MS_PER_MINUTE) == (MinuteOfDay(ms) + k) % MINUTES_PER_DAY
  {
    var q, r := ms / MS_PER_MINUTE, ms % MS_PER_MINUTE;
    assert ms + k * MS_PER_MINUTE == (q + k) * MS_PER_MINUTE + r;
    assert (ms + k * MS_PER_MINUTE) / MS_PER_MINUTE == q + k;
    var a, b := q / MINUTES_PER_DAY, q % MINUTES_PER_DAY;
    assert q + k == a * MINUTES_PER_DAY + (b + k);
  }

  /**
   * The source's route to a city's time: `utc` is `getTime()` moved by the
   * device's zone offset, the city offset is added, and the result is read
   * back in local time. When the device's zone offset is the same at both
   * instants, the two zone corrections cancel and what remains is the UTC
   * instant shifted by whole hours.
   */
  function SourceCityMinute(nowMs: int, tzOffset: int, offset: int): (r: int)
    ensures r == CityMinute(nowMs, offset)
    ensures r == (MinuteOfDay(nowMs) + 60 * offset) % MINUTES_PER_DAY
  {
    var utc := nowMs + tzOffset * MS_PER_MINUTE;
    var cityTime := utc + offset * MS_PER_HOUR;
    assert cityTime - tzOffset * MS_PER_MINUTE == nowMs + offset * MS_PER_HOUR;
    LocalMinuteOfDay(cityTime, tzOffset)
  }

  /** No two cities share a label, so each label is written at most once per run. */
  lemma CityIdsDistinct()
    ensures forall i, j :: 0 <= i < j < |CITIES| ==> CITIES[i].id != CITIES[j].id
  {
  }

  /**
   * updateWorldClocks at the instant `nowMs` (`getTime()`) on a device in
   * zone `tzOffset`: the cities of the table are visited in order, and a
   * city whose label is not in `present` is skipped without affecting the
   * others. Entry i of the result is the text written to the label of city
   * i, or None when that label is absent.
   */
  method UpdateWorldClocks(nowMs: int, tzOffset: int, present: set<string>)
    returns (shown: seq<Option<string>>)
    ensures |shown| == |CITIES|
    ensures forall i :: 0 <= i < |CITIES| ==>
      shown[i] == if CITIES[i].id in present then Some(CityText(nowMs, CITIES[i].offset)) else None
  {
    var cities := CITIES;
    shown := [];
    for i := 0 to |cities|
      invariant |shown| == i
      invariant forall j :: 0 <= j < i ==>
        shown[j] == if cities[j].id in present then Some(CityText(nowMs, cities[j].offset)) else None
    {
      var city := cities[i];
      var cityMinute := SourceCityMinute(nowMs, tzOffset, city.offset);
      var text := HourMinuteText(cityMinute / 60, cityMinute % 60);
      if city.id in present {
        shown := shown + [Some(text)];
      } else {
        shown := shown + [None];
      }
    }
  }
}
