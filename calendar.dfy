/**
 * The month grid of updateCalendar (script.js:100-148). The Date
 * arithmetic is left to the caller: the model takes the weekday of the
 * first of the month as `getDay()` gives it (0 = Sunday), the length of
 * the month and today's day of the month, and produces the cells that the
 * two loops append to the container.
 */
module Calendar {

  /** A cell of the grid: padding before the 1st, or a numbered day with its two flags. */
  datatype Cell = Empty | Day(date: nat, today: bool, weekend: bool)

  /** Monday-start column of a Sunday-start weekday (script.js:118-119). */
  function MondayStart(sundayStart: int): (column: int)
    requires 0 <= sundayStart <= 6
    ensures 0 <= column <= 6
    ensures (column + 1) % 7 == sundayStart
  {
    if sundayStart == 0 then 6 else sundayStart - 1
  }

  /** Columns 5 and 6 of a Monday-start week are Saturday and Sunday. */
  predicate IsWeekendColumn(column: int) {
    column == 5 || column == 6
  }

  /**
   * What the container holds after updateCalendar: `startDay` empty cells,
   * then the days 1 to `totalDays` in order, each flagged `today` exactly
   * when it is today and `weekend` exactly when its column is 5 or 6.
   */
  predicate IsMonthGrid(cells: seq<Cell>, startDay: nat, totalDays: nat, today: int) {
    && |cells| == startDay + totalDays
    && (forall i :: 0 <= i < startDay ==> cells[i] == Empty)
    && (forall i :: startDay <= i < |cells| ==>
          cells[i] == Day(i - startDay + 1, i - startDay + 1 == today, IsWeekendColumn(i % 7)))
  }

  /** The two cell-building loops of updateCalendar. */
  method UpdateCalendar(firstWeekday: int, totalDays: nat, today: int) returns (cells: seq<Cell>)
    requires 0 <= firstWeekday <= 6
    ensures IsMonthGrid(cells, MondayStart(firstWeekday), totalDays, today)
  {
    var startDay := MondayStart(firstWeekday);
    cells := [];
    for e := 0 to startDay
      invariant |cells| == e
      invariant forall i :: 0 <= i < e ==> cells[i] == Empty
    {
      cells := cells + [Empty];
    }
    for d := 1 to totalDays + 1
      invariant |cells| == startDay + d - 1
      invariant forall i :: 0 <= i < startDay ==> cells[i] == Empty
      invariant forall i :: startDay <= i < |cells| ==>
        cells[i] == Day(i - startDay + 1, i - startDay + 1 == today, IsWeekendColumn(i % 7))
    {
      var dayOfWeek := (startDay + d - 1) % 7;
      cells := cells + [Day(d, d == today, dayOfWeek == 5 || dayOfWeek == 6)];
    }
  }

  /** The positions of the cells flagged `today`. */
  function TodayPositions(cells: seq<Cell>): set<int> {
    set i | 0 <= i < |cells| && cells[i].Day? && cells[i].today
  }

  /** Exactly one cell is marked today when today lies in the month, and none otherwise. */
  lemma TodayMarkedOnce(cells: seq<Cell>, startDay: nat, totalDays: nat, today: int)
    requires IsMonthGrid(cells, startDay, totalDays, today)
    ensures 1 <= today <= totalDays ==> TodayPositions(cells) == {startDay + today - 1}
    ensures !(1 <= today <= totalDays) ==> TodayPositions(cells) == {}
  {
  }

  /** Every day of the month appears exactly once, at position startDay + d - 1. */
  lemma DayPosition(cells: seq<Cell>, startDay: nat, totalDays: nat, today: int, d: nat)
    requires IsMonthGrid(cells, startDay, totalDays, today)
    requires 1 <= d <= totalDays
    ensures cells[startDay + d - 1].Day? && cells[startDay + d - 1].date == d
    ensures forall i :: 0 <= i < |cells| && cells[i].Day? && cells[i].date == d ==> i == startDay + d - 1
  {
  }

  /** Day numbers strictly increase along the grid. */
  lemma DaysIncrease(cells: seq<Cell>, startDay: nat, totalDays: nat, today: int, i: int, j: int)
    requires IsMonthGrid(cells, startDay, totalDays, today)
    requires 0 <= i < j < |cells| && cells[i].Day?
    ensures cells[j].Day? && cells[i].date < cells[j].date
  {
  }

  /** The Sunday-start weekday that Date would report for day d of the month. */
  function WeekdayOf(firstWeekday: int, d: nat): (w: int)
    requires 0 <= firstWeekday <= 6 && d >= 1
    ensures 0 <= w <= 6
  {
    (firstWeekday + d - 1) % 7
  }

  /**
   * The column arithmetic of the grid agrees with Date: the column
   * of day d is the Monday-start form of its real weekday, so its
   * `weekend` flag is set exactly when that weekday is Saturday (6) or Sunday (0).
   */
  lemma ColumnIsWeekday(cells: seq<Cell>, firstWeekday: int, totalDays: nat, today: int, d: nat)
    requires 0 <= firstWeekday <= 6
    requires IsMonthGrid(cells, MondayStart(firstWeekday), totalDays, today)
    requires 1 <= d <= totalDays
    ensures (MondayStart(firstWeekday) + d - 1) % 7 == MondayStart(WeekdayOf(firstWeekday, d))
    ensures cells[MondayStart(firstWeekday) + d - 1].weekend
        <==> (WeekdayOf(firstWeekday, d) == 6 || WeekdayOf(firstWeekday, d) == 0)
  {
  }
}
