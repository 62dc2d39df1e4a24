/** The timeline arithmetic of the Gantt chart component: the visible date window,
    the tick dates along its axis, the horizontal placement of each task bar in
    percent of the axis, the bar colour, the week-of-month label, navigation,
    zoom, and the lookup of dependency bars. */
module GanttChart {
  import opened Wrappers
  import opened CivilDate

  datatype ViewMode = DayView | WeekView | MonthView

  /** The `type` tag of a task; visual rules branch on it. */
  datatype TaskType = Task | Milestone | Project

  /** A row of the chart. An absent `dependencies` list is the empty list. */
  datatype GanttTask = GanttTask(
    id: string,
    name: string,
    start: Day,
    end: Day,
    progress: int,
    dependencies: seq<string>,
    assignee: Option<string>,
    kind: TaskType,
    color: Option<string>)

  /** The visible window: the first and the last day of the axis. */
  datatype DateRange = DateRange(start: Day, end: Day)

  // ----- Visible window -----

  /** The window around the anchor date: a week back and a month ahead in day view,
      two weeks back and sixty days ahead in week view, two months back and six
      months ahead in month view. */
  function WindowOf(anchor: Day, mode: ViewMode): (range: DateRange)
    ensures range.start < anchor < range.end
  {
    match mode
    case DayView => DateRange(anchor - 7, anchor + 30)
    case WeekView => DateRange(anchor - 14, anchor + 60)
    case MonthView =>
      AddMonthsDistance(anchor, -2);
      AddMonthsDistance(anchor, 6);
      DateRange(AddMonths(anchor, -2), AddMonths(anchor, 6))
  }

  /** The width of the window in each mode, and that it reaches further ahead of the
      anchor than behind it. */
  lemma WindowSpan(anchor: Day, mode: ViewMode)
    ensures var range := WindowOf(anchor, mode);
      anchor - range.start < range.end - anchor
      && (mode == DayView ==> range.end - range.start == 37)
      && (mode == WeekView ==> range.end - range.start == 74)
      && (mode == MonthView ==>
            56 <= anchor - range.start <= 62 && 168 <= range.end - anchor <= 186)
  {
    if mode == MonthView {
      AddMonthsDistance(anchor, -2);
      AddMonthsDistance(anchor, 6);
    }
  }

  // ----- Tick dates -----

  /** The distance from one tick to the next: a day, a week or a calendar month. */
  function Step(current: Day, mode: ViewMode): (next: Day)
    ensures next > current
  {
    match mode
    case DayView => current + 1
    case WeekView => current + 7
    case MonthView =>
      AddOneMonth(current);
      AddMonths(current, 1)
  }

  /** The ticks from `current` up to and including the last one not after `end`. */
  function Ticks(current: Day, end: Day, mode: ViewMode): seq<Day>
    decreases end - current
  {
    if current > end then [] else [current] + Ticks(Step(current, mode), end, mode)
  }

  /** The ticks start at the window start, never pass its end, go up by one step at a
      time, and stop where one more step would pass the end. */
  lemma TicksShape(start: Day, end: Day, mode: ViewMode)
    ensures var t := Ticks(start, end, mode);
      (t != [] <==> start <= end)
      && (t != [] ==> t[0] == start && Step(t[|t| - 1], mode) > end)
      && (forall i :: 0 <= i < |t| ==> start <= t[i] <= end)
      && (forall i :: 0 <= i < |t| - 1 ==> t[i + 1] == Step(t[i], mode))
      && (forall i, j :: 0 <= i < j < |t| ==> t[i] < t[j])
  {
    TicksEnds(start, end, mode);
    TicksSteps(start, end, mode);
  }

  /** Where the ticks start and stop. */
  lemma {:induction false} TicksEnds(start: Day, end: Day, mode: ViewMode)
    ensures var t := Ticks(start, end, mode);
      (t != [] <==> start <= end)
      && (t != [] ==> t[0] == start && Step(t[|t| - 1], mode) > end)
      && (forall i :: 0 <= i < |t| ==> start <= t[i] <= end)
    decreases end - start
  {
    if start <= end {
      var next := Step(start, mode);
      TicksEnds(next, end, mode);
      var t := Ticks(start, end, mode);
      var rest := Ticks(next, end, mode);
      assert t == [start] + rest;
      forall i | 1 <= i < |t|
        ensures start <= t[i] <= end
      {
        assert t[i] == rest[i - 1];
      }
      if rest != [] {
        assert t[|t| - 1] == rest[|rest| - 1];
      }
    }
  }

  /** Consecutive ticks are one step apart, so the ticks strictly increase. */
  lemma {:induction false} TicksSteps(start: Day, end: Day, mode: ViewMode)
    ensures var t := Ticks(start, end, mode);
      (forall i :: 0 <= i < |t| - 1 ==> t[i + 1] == Step(t[i], mode))
      && (forall i, j :: 0 <= i < j < |t| ==> t[i] < t[j])
    decreases end - start
  {
    if start <= end {
      var next := Step(start, mode);
      TicksSteps(next, end, mode);
      TicksEnds(next, end, mode);
      var t := Ticks(start, end, mode);
      var rest := Ticks(next, end, mode);
      assert t == [start] + rest;
      forall i | 0 <= i < |t| - 1
        ensures t[i + 1] == Step(t[i], mode)
      {
        assert t[i + 1] == rest[i];
        if i > 0 {
          assert t[i] == rest[i - 1];
        }
      }
      forall i, j | 0 <= i < j < |t|
        ensures t[i] < t[j]
      {
        assert t[j] == rest[j - 1];
        if i > 0 {
          assert t[i] == rest[i - 1];
        }
      }
    }
  }

  /** The length of one step in day and week view. */
  function StepDays(mode: ViewMode): (k: int)
    requires mode != MonthView
    ensures k > 0
  {
    if mode == DayView then 1 else 7
  }

  /** In day and week view the ticks are evenly spaced: the i-th lies `i` steps after
      the start, and there are `(end - start) / step + 1` of them. */
  lemma {:induction false} TicksEvenlySpaced(start: Day, end: Day, mode: ViewMode)
    requires mode != MonthView && start <= end
    ensures var t := Ticks(start, end, mode);
      |t| == (end - start) / StepDays(mode) + 1
      && forall i :: 0 <= i < |t| ==> t[i] == start + i * StepDays(mode)
    decreases end - start
  {
    var k := StepDays(mode);
    var t := Ticks(start, end, mode);
    assert Step(start, mode) == start + k;
    if start + k <= end {
      TicksEvenlySpaced(start + k, end, mode);
      var rest := Ticks(start + k, end, mode);
      assert t == [start] + rest;
      assert (end - start) / k == (end - (start + k)) / k + 1 by {
        if mode == DayView { } else { }
      }
      forall i | 0 <= i < |t|
        ensures t[i] == start + i * k
      {
        if i > 0 {
          assert t[i] == rest[i - 1];
          assert (i - 1) * k + k == i * k;
        }
      }
    } else {
      assert Ticks(start + k, end, mode) == [];
      assert t == [start];
      assert (end - start) / k == 0 by {
        if mode == DayView { } else { }
      }
    }
  }

  /** Day view shows 38 ticks and week view 11. */
  lemma WindowTickCounts(anchor: Day)
    ensures |Ticks(WindowOf(anchor, DayView).start, WindowOf(anchor, DayView).end, DayView)| == 38
    ensures |Ticks(WindowOf(anchor, WeekView).start, WindowOf(anchor, WeekView).end, WeekView)| == 11
  {
    TicksEvenlySpaced(anchor - 7, anchor + 30, DayView);
    TicksEvenlySpaced(anchor - 14, anchor + 60, WeekView);
  }

  /** In month view a tick on the 31st overflows past a 30-day month: with the anchor
      on July 31st the window opens on May 31st, and the next tick is July 1st, so
      June gets no tick. */
  lemma MonthTicksSkipJune(y: int)
    ensures var range := WindowOf(MakeDay(y, 6, 31), MonthView);
      range.start == MakeDay(y, 4, 31)
      && |Ticks(range.start, range.end, MonthView)| >= 2
      && Ticks(range.start, range.end, MonthView)[..2] == [MakeDay(y, 4, 31), MakeDay(y, 6, 1)]
  {
    var range := WindowOf(MakeDay(y, 6, 31), MonthView);
    WindowFromJuly31(y);
    StepFromMay31(y);
    assert MakeDay(y, 6, 1) < MakeDay(y, 6, 31) < range.end;
    var rest := Ticks(MakeDay(y, 6, 1), range.end, MonthView);
    assert Ticks(range.start, range.end, MonthView) == [range.start] + rest;
    assert rest[0] == MakeDay(y, 6, 1);
  }

  /** Two months before July 31st is May 31st. */
  lemma WindowFromJuly31(y: int)
    ensures WindowOf(MakeDay(y, 6, 31), MonthView).start == MakeDay(y, 4, 31)
  {
    ToCivilOfDay(Civil(y, 6, 31));
    assert AddMonths(MakeDay(y, 6, 31), -2) == ShiftMonths(Civil(y, 6, 31), -2);
  }

  /** One month after May 31st is "June 31st", that is July 1st. */
  lemma StepFromMay31(y: int)
    ensures Step(MakeDay(y, 4, 31), MonthView) == MakeDay(y, 6, 1)
  {
    ToCivilOfDay(Civil(y, 4, 31));
    assert AddMonths(MakeDay(y, 4, 31), 1) == MakeDay(y, 5, 31);
    JuneLength(y);
    FirstOfMonthStep(12 * y + 5);
    assert 12 * y + 5 + 1 == 12 * y + 6;
  }

  lemma JuneLength(y: int)
    ensures MonthLength(12 * y + 5) == 30
  {
    assert (12 * y + 5) / 12 == y && (12 * y + 5) % 12 == 5;
  }

  // ----- Today highlight -----

  /** `isToday`: the date falls on the same calendar day as `now`. */
  predicate IsToday(date: Day, now: Day) {
    date == now
  }

  /** At most one tick is highlighted as today; in day view, when today lies in the
      window, exactly one is. */
  lemma TodayHighlightedOnce(start: Day, end: Day, mode: ViewMode, now: Day)
    ensures var t := Ticks(start, end, mode);
      (forall i, j :: 0 <= i < |t| && 0 <= j < |t| && IsToday(t[i], now) && IsToday(t[j], now) ==> i == j)
      && (mode == DayView && start <= now <= end ==>
            exists i :: 0 <= i < |t| && IsToday(t[i], now))
  {
    var t := Ticks(start, end, mode);
    TicksShape(start, end, mode);
    if mode == DayView && start <= now <= end {
      TicksEvenlySpaced(start, end, mode);
      assert IsToday(t[now - start], now);
    }
  }

  // ----- Task geometry -----

  /** Horizontal placement of a bar, in percent of the axis width. */
  datatype Placement = Placement(left: real, width: real)

  function Max(a: real, b: real): real { if a >= b then a else b }

  /** `Math.min` on the percentages of the axis (the projects page has its own on
      counts of people). */
  function Min(a: real, b: real): real { if a <= b then a else b }

  /** The zoom factor for a zoom level counted in quarters. */
  function ZoomFactor(quarters: int): real {
    quarters as real / 4.0
  }

  /** The placement before zoom: the start offset is clamped at the left edge of the
      window, and the width at the right edge. */
  function UnzoomedPosition(task: GanttTask, range: DateRange): (p: Placement)
    requires range.start < range.end
    ensures p.left >= 0.0
    ensures p.width <= 100.0 - p.left
    ensures task.start <= range.start ==> p.left == 0.0
    ensures range.start <= task.start <= task.end <= range.end ==>
      p.width == (task.end - task.start) as real / (range.end - range.start) as real * 100.0
      && 0.0 <= p.width && p.left + p.width <= 100.0
  {
    var totalDays := (range.end - range.start) as real;
    var taskStartDays := Max(0.0, (task.start - range.start) as real);
    var taskDuration := (task.end - task.start) as real;
    var left := taskStartDays / totalDays * 100.0;
    var width := Min(taskDuration / totalDays * 100.0, 100.0 - left);
    if range.start <= task.start <= task.end <= range.end then
      FractionsWithinWhole(taskStartDays, taskDuration, totalDays);
      Placement(left, width)
    else
      Placement(left, width)
  }

  /** Two parts of a whole take at most all of it, in percent. */
  lemma FractionsWithinWhole(a: real, b: real, total: real)
    requires 0.0 <= a && 0.0 <= b && a + b <= total && total > 0.0
    ensures b / total * 100.0 <= 100.0 - a / total * 100.0
  {
    var x, y := a / total, b / total;
    var sum := x + y;
    assert sum * total == a + b;
  }

  /** `getTaskPosition`: the unzoomed placement scaled by the zoom factor. */
  function TaskPosition(task: GanttTask, range: DateRange, zoomQuarters: int): Placement
    requires range.start < range.end
  {
    var p := UnzoomedPosition(task, range);
    Placement(p.left * ZoomFactor(zoomQuarters), p.width * ZoomFactor(zoomQuarters))
  }

  /** Zoom scales both coordinates linearly, after the clamping: doubling the zoom
      doubles the placement, and zoom 1 gives the unzoomed placement. */
  lemma ZoomIsLinear(task: GanttTask, range: DateRange, q: int)
    requires range.start < range.end
    ensures TaskPosition(task, range, 2 * q).left == 2.0 * TaskPosition(task, range, q).left
    ensures TaskPosition(task, range, 2 * q).width == 2.0 * TaskPosition(task, range, q).width
    ensures TaskPosition(task, range, 4) == UnzoomedPosition(task, range)
  {
  }

  /** A task filling the whole window at zoom 2 is 200 percent wide: zoomed values are
      not clamped again. */
  lemma ZoomedWidthMayExceedAxis(task: GanttTask, range: DateRange)
    requires range.start < range.end
    requires task.start == range.start && task.end == range.end
    ensures TaskPosition(task, range, 8) == Placement(0.0, 200.0)
  {
    var p := UnzoomedPosition(task, range);
    assert p.left == 0.0;
    assert p.width == 100.0;
  }

  /** A ten-day task starting ten days into a sixty-day window sits one sixth of the
      way in and is one sixth of the window wide. */
  lemma SixtyDayWindowExample(day0: Day, task: GanttTask)
    requires task.start == day0 + 10 && task.end == day0 + 20
    ensures UnzoomedPosition(task, DateRange(day0, day0 + 60)) == Placement(50.0 / 3.0, 50.0 / 3.0)
  {
  }

  /** A task starting five days before the window is drawn from its left edge. */
  lemma EarlyTaskClampedLeft(task: GanttTask, range: DateRange, q: int)
    requires range.start < range.end && task.start == range.start - 5
    ensures TaskPosition(task, range, q).left == 0.0
  {
  }

  // ----- Colour -----

  /** JavaScript truthiness of an optional string: present and not empty. */
  predicate IsTruthy(s: Option<string>) {
    s.Some? && s.value != ""
  }

  /** The default colour of each task type. */
  function TypeColor(kind: TaskType): string {
    match kind
    case Milestone => "bg-purple-500"
    case Project => "bg-blue-500"
    case Task => "bg-green-500"
  }

  /** `getTaskColor`: the override when it is truthy, the colour of the type otherwise. */
  function TaskColor(task: GanttTask): (c: string)
    ensures c != ""
    ensures IsTruthy(task.color) ==> c == task.color.value
    ensures !IsTruthy(task.color) ==> c == TypeColor(task.kind)
  {
    if IsTruthy(task.color) then task.color.value else TypeColor(task.kind)
  }

  /** The three types have three different default colours, and an empty override
      counts as no override. */
  lemma TypeColorsDistinct(task: GanttTask)
    ensures forall k1, k2 :: TypeColor(k1) == TypeColor(k2) ==> k1 == k2
    ensures TaskColor(task.(color := Some(""))) == TaskColor(task.(color := None))
  {
    assert TypeColor(Milestone) != TypeColor(Project);
    assert TypeColor(Milestone) != TypeColor(Task);
    assert TypeColor(Project) != TypeColor(Task);
  }

  // ----- Week label -----

  /** `Math.ceil(x / 7)` for a positive integer `x`. */
  function CeilDiv7(x: int): int {
    (x + 6) / 7
  }

  /** The number in the week-view label: the day of the month plus the weekday of the
      first of the month, divided by seven and rounded up. */
  function WeekOfMonth(n: Day): (w: int)
    ensures 1 <= w <= 6
  {
    WeekOfCivil(ToCivil(n))
  }

  /** The week number of a broken-down date. */
  function WeekOfCivil(c: Civil): int {
    CeilDiv7(c.date + WeekDay(MakeDay(c.year, c.month, 1)))
  }

  /** The label of a valid date, read off its own day of the month. */
  lemma WeekOfMonthOfCivil(c: Civil)
    requires ValidCivil(c)
    ensures WeekOfMonth(DayOf(c)) == WeekOfCivil(c)
    ensures WeekOfMonth(DayOf(c)) == CeilDiv7(c.date + WeekDay(MakeDay(c.year, c.month, 1)))
  {
    ToCivilOfDay(c);
  }

  /** The first of every month is in week 1. */
  lemma FirstIsWeekOne(c: Civil)
    requires ValidCivil(c) && c.date == 1
    ensures WeekOfMonth(DayOf(c)) == 1
  {
    WeekOfMonthOfCivil(c);
  }

  /** Within a month the label goes up by one exactly on Sundays. */
  lemma WeekOfMonthStep(c: Civil)
    requires ValidCivil(c) && c.date < DaysInMonth(c.year, c.month)
    ensures WeekOfMonth(DayOf(c) + 1)
         == WeekOfMonth(DayOf(c)) + (if WeekDay(DayOf(c) + 1) == 0 then 1 else 0)
  {
    var next := c.(date := c.date + 1);
    NextDayOf(c);
    WeekOfMonthOfCivil(c);
    WeekOfMonthOfCivil(next);
    WeekOfCivilStep(c);
  }

  /** The same step on broken-down dates. */
  lemma WeekOfCivilStep(c: Civil)
    requires c.date >= 1
    ensures WeekOfCivil(c.(date := c.date + 1))
         == WeekOfCivil(c) + (if WeekDay(DayOf(c) + 1) == 0 then 1 else 0)
  {
    NextDayOf(c);
    CeilStep(c.date, MakeDay(c.year, c.month, 1), DayOf(c));
  }

  /** Inside a month, the next date is the next day, `date - 1` days after the first. */
  lemma NextDayOf(c: Civil)
    ensures DayOf(c.(date := c.date + 1)) == DayOf(c) + 1
    ensures DayOf(c) == MakeDay(c.year, c.month, 1) + c.date - 1
  {
  }

  /** Arithmetic core of the step: adding one day to `date` raises the rounded-up
      week number exactly when the new day is a Sunday. */
  lemma CeilStep(date: int, first: int, n: int)
    requires date >= 1 && n == first + date - 1
    ensures CeilDiv7(date + 1 + WeekDay(first))
         == CeilDiv7(date + WeekDay(first)) + (if WeekDay(n + 1) == 0 then 1 else 0)
  {
    var w := WeekDay(first);
    assert (n + 1 + 4) % 7 == (w + date) % 7;
  }

  // ----- Today marker -----

  /** The vertical marker for today: drawn only while the anchor date is today, at
      today's offset in the window, scaled by zoom. */
  function TodayMarker(anchor: Day, now: Day, range: DateRange, zoomQuarters: int): (m: Option<real>)
    requires range.start < range.end
    ensures m.Some? <==> IsToday(anchor, now)
  {
    if IsToday(anchor, now) then
      Some((now - range.start) as real / (range.end - range.start) as real * 100.0 * ZoomFactor(zoomQuarters))
    else
      None
  }

  /** While it is shown, the marker sits where a task starting today would be
      placed (today lies inside the window, since the anchor is today). */
  lemma TodayMarkerIsTaskPosition(now: Day, range: DateRange, zoomQuarters: int, task: GanttTask)
    requires range.start <= now && range.start < range.end
    requires task.start == now
    ensures TodayMarker(now, now, range, zoomQuarters) == Some(TaskPosition(task, range, zoomQuarters).left)
  {
    var offset := (now - range.start) as real;
    var total := (range.end - range.start) as real;
    assert Max(0.0, (task.start - range.start) as real) == offset;
    assert UnzoomedPosition(task, range).left == offset / total * 100.0;
    assert TaskPosition(task, range, zoomQuarters).left
        == UnzoomedPosition(task, range).left * ZoomFactor(zoomQuarters);
    var m := TodayMarker(now, now, range, zoomQuarters);
    assert m.Some? && m.value == offset / total * 100.0 * ZoomFactor(zoomQuarters);
    assert m.value == TaskPosition(task, range, zoomQuarters).left;
    assert m == Some(TaskPosition(task, range, zoomQuarters).left);
  }

  // ----- Navigation and zoom -----

  datatype Direction = Prev | Next

  /** `navigateDate`: a week in day view, two weeks in week view, a calendar month
      in month view. */
  function Navigated(anchor: Day, mode: ViewMode, direction: Direction): Day {
    match mode
    case DayView => anchor + (if direction == Next then 7 else -7)
    case WeekView => anchor + (if direction == Next then 14 else -14)
    case MonthView => AddMonths(anchor, if direction == Next then 1 else -1)
  }

  /** Next moves the anchor forward and prev moves it back. */
  lemma NavigationDirection(anchor: Day, mode: ViewMode)
    ensures Navigated(anchor, mode, Next) > anchor
    ensures Navigated(anchor, mode, Prev) < anchor
  {
    AddMonthsDistance(anchor, 1);
    AddMonthsDistance(anchor, -1);
  }

  /** In day and week view prev undoes next and next undoes prev, and two nexts in
      week view move four weeks. */
  lemma NavigationRoundTrip(anchor: Day, mode: ViewMode)
    requires mode != MonthView
    ensures Navigated(Navigated(anchor, mode, Next), mode, Prev) == anchor
    ensures Navigated(Navigated(anchor, mode, Prev), mode, Next) == anchor
    ensures mode == WeekView ==> Navigated(Navigated(anchor, mode, Next), mode, Next) == anchor + 28
  {
  }

  /** In month view prev undoes next when the day of the month exists in every month. */
  lemma MonthNavigationRoundTrip(c: Civil)
    requires ValidCivil(c) && c.date <= 28
    ensures Navigated(Navigated(DayOf(c), MonthView, Next), MonthView, Prev) == DayOf(c)
  {
    ToCivilOfDay(c);
    ShiftMonthsKeepsDate(c, 1);
    var mi := MonthIndex(c) + 1;
    var next := Civil(mi / 12, mi % 12, c.date);
    MonthBackAgain(c, next);
  }

  lemma MonthBackAgain(c: Civil, next: Civil)
    requires ValidCivil(c) && next.date == c.date
    requires 12 * next.year + next.month == MonthIndex(c) + 1
    ensures ShiftMonths(next, -1) == DayOf(c)
  {
    assert 12 * next.year + (next.month - 1) == 12 * c.year + c.month;
  }

  /** But not at the end of a month: next from January 31st lands in March, and prev
      from there lands in February. */
  lemma MonthNavigationLosesDay(y: int)
    ensures Navigated(Navigated(MakeDay(y, 0, 31), MonthView, Next), MonthView, Prev) != MakeDay(y, 0, 31)
  {
    January31PlusOneMonth(y);
    var mar := Civil(y, 2, if IsLeapYear(y) then 2 else 3);
    BackFromMarch(y, mar);
  }

  lemma BackFromMarch(y: int, mar: Civil)
    requires mar == Civil(y, 2, if IsLeapYear(y) then 2 else 3)
    ensures ShiftMonths(mar, -1) > MakeDay(y, 0, 31)
  {
    assert ShiftMonths(mar, -1) == FirstOfMonth(12 * y + 1) + mar.date - 1;
    FirstOfMonthStep(12 * y);
    JanuaryLength(y);
  }

  lemma JanuaryLength(y: int)
    ensures MonthLength(12 * y) == 31
  {
    assert (12 * y) / 12 == y && (12 * y) % 12 == 0;
  }

  /** Zoom levels, counted in quarters: from 0.5 to 2, starting at 1. */
  const MinZoom: int := 2
  const MaxZoom: int := 8
  const InitialZoom: int := 4

  datatype ZoomDirection = ZoomIn | ZoomOut

  /** `handleZoom`: a quarter step, saturating at 2 when zooming in and at 0.5 when
      zooming out. */
  function Zoomed(q: int, direction: ZoomDirection): (r: int)
    requires MinZoom <= q <= MaxZoom
    ensures MinZoom <= r <= MaxZoom
    ensures direction == ZoomIn ==> r == (if q == MaxZoom then q else q + 1)
    ensures direction == ZoomOut ==> r == (if q == MinZoom then q else q - 1)
  {
    if direction == ZoomIn then
      (if q + 1 < MaxZoom then q + 1 else MaxZoom)
    else
      (if q - 1 > MinZoom then q - 1 else MinZoom)
  }

  /** Zooming in and then out returns to the same level below the maximum, and out and
      then in returns to it above the minimum. */
  lemma ZoomRoundTrip(q: int)
    requires MinZoom <= q <= MaxZoom
    ensures q < MaxZoom ==> Zoomed(Zoomed(q, ZoomIn), ZoomOut) == q
    ensures q > MinZoom ==> Zoomed(Zoomed(q, ZoomOut), ZoomIn) == q
  {
  }

  /** The level after zooming in `n` times. */
  function ZoomInTimes(q: int, n: nat): (r: int)
    requires MinZoom <= q <= MaxZoom
    ensures MinZoom <= r <= MaxZoom
    decreases n
  {
    if n == 0 then q else ZoomInTimes(Zoomed(q, ZoomIn), n - 1)
  }

  /** Zooming in `n` times adds `n` quarters up to the maximum and no further. */
  lemma {:induction false} ZoomInSaturates(q: int, n: nat)
    requires MinZoom <= q <= MaxZoom
    ensures ZoomInTimes(q, n) == if q + n < MaxZoom then q + n else MaxZoom
    decreases n
  {
    if n > 0 {
      ZoomInSaturates(Zoomed(q, ZoomIn), n - 1);
    }
  }

  /** Seven zoom-ins from 1 stop at 2, not at 2.75. */
  lemma SevenZoomInsFromOne()
    ensures ZoomFactor(ZoomInTimes(InitialZoom, 7)) == 2.0
  {
    ZoomInSaturates(InitialZoom, 7);
  }

  // ----- Dependencies -----

  /** `tasks[i]` is the first task whose id is `id`. */
  predicate IsFirstMatch(tasks: seq<GanttTask>, id: string, i: int) {
    0 <= i < |tasks| && tasks[i].id == id && forall j :: 0 <= j < i ==> tasks[j].id != id
  }

  /** `tasks.find(t => t.id === id)`. This is the search `LocalStore.FindById` makes
      over stored records; it is written again here for the chart's own task type, so
      that the chart does not depend on the store. */
  function FindTask(tasks: seq<GanttTask>, id: string): (r: Option<GanttTask>)
    ensures r.None? <==> forall i :: 0 <= i < |tasks| ==> tasks[i].id != id
    ensures r.Some? ==> exists i :: IsFirstMatch(tasks, id, i) && tasks[i] == r.value
  {
    if tasks == [] then None
    else if tasks[0].id == id then
      assert IsFirstMatch(tasks, id, 0);
      Some(tasks[0])
    else
      var r := FindTask(tasks[1..], id);
      if r.Some? then
        var i :| IsFirstMatch(tasks[1..], id, i) && tasks[1..][i] == r.value;
        assert IsFirstMatch(tasks, id, i + 1);
        r
      else
        r
  }

  /** The tasks that the ids resolve to, in the order of the ids; ids that match no
      task are skipped. */
  function ResolveDependencies(ids: seq<string>, tasks: seq<GanttTask>): (r: seq<GanttTask>)
    ensures |r| <= |ids|
  {
    if ids == [] then []
    else
      (match FindTask(tasks, ids[0]) case Some(t) => [t] case None => [])
      + ResolveDependencies(ids[1..], tasks)
  }

  /** Resolving a concatenation resolves each part in turn. */
  lemma {:induction false} ResolveAppend(a: seq<string>, b: seq<string>, tasks: seq<GanttTask>)
    ensures ResolveDependencies(a + b, tasks) == ResolveDependencies(a, tasks) + ResolveDependencies(b, tasks)
  {
    if a == [] {
      assert a + b == b;
    } else {
      var rest := a[1..];
      var head := ResolveDependencies([a[0]], tasks);
      calc {
        ResolveDependencies(a + b, tasks);
        { assert a + b == [a[0]] + (rest + b); }
        ResolveDependencies([a[0]] + (rest + b), tasks);
        { ResolveCons(a[0], rest + b, tasks); }
        head + ResolveDependencies(rest + b, tasks);
        { ResolveAppend(rest, b, tasks); }
        head + (ResolveDependencies(rest, tasks) + ResolveDependencies(b, tasks));
        (head + ResolveDependencies(rest, tasks)) + ResolveDependencies(b, tasks);
        { ResolveCons(a[0], rest, tasks); assert a == [a[0]] + rest; }
        ResolveDependencies(a, tasks) + ResolveDependencies(b, tasks);
      }
    }
  }

  /** The first id contributes its own part in front of the rest. */
  lemma ResolveCons(id: string, ids: seq<string>, tasks: seq<GanttTask>)
    ensures ResolveDependencies([id] + ids, tasks)
         == ResolveDependencies([id], tasks) + ResolveDependencies(ids, tasks)
  {
    assert ([id] + ids)[0] == id && ([id] + ids)[1..] == ids;
    assert [id][1..] == [];
  }

  /** An id that matches no task is ignored wherever it appears. */
  lemma DanglingIdIgnored(a: seq<string>, id: string, b: seq<string>, tasks: seq<GanttTask>)
    requires forall i :: 0 <= i < |tasks| ==> tasks[i].id != id
    ensures ResolveDependencies(a + [id] + b, tasks) == ResolveDependencies(a + b, tasks)
  {
    assert FindTask(tasks, id) == None;
    assert ResolveDependencies([id], tasks) == [] by {
      assert [id][1..] == [];
    }
    ResolveAppend(a + [id], b, tasks);
    ResolveAppend(a, [id], tasks);
    ResolveAppend(a, b, tasks);
  }

  /** When every id resolves, each one gives exactly the first task with that id. */
  lemma {:induction false} ResolveAllPresent(ids: seq<string>, tasks: seq<GanttTask>)
    requires forall k :: 0 <= k < |ids| ==> FindTask(tasks, ids[k]).Some?
    ensures var r := ResolveDependencies(ids, tasks);
      |r| == |ids| && forall k :: 0 <= k < |ids| ==> Some(r[k]) == FindTask(tasks, ids[k])
  {
    if ids != [] {
      ResolveAllPresent(ids[1..], tasks);
      var r := ResolveDependencies(ids, tasks);
      assert r == [FindTask(tasks, ids[0]).value] + ResolveDependencies(ids[1..], tasks);
    }
  }

  /** The connector drawn from a dependency bar to the dependent bar: it starts at the
      dependency's left edge and spans to the dependent's left edge. */
  datatype Connector = Connector(depId: string, left: real, width: real)

  /** The connectors of one row: one per dependency id that resolves, in order. */
  function Connectors(task: GanttTask, tasks: seq<GanttTask>, range: DateRange, zoomQuarters: int): (r: seq<Connector>)
    requires range.start < range.end
    ensures var deps := ResolveDependencies(task.dependencies, tasks);
      |r| == |deps|
      && forall k :: 0 <= k < |r| ==>
        r[k].left == TaskPosition(deps[k], range, zoomQuarters).left
        && r[k].left + r[k].width == TaskPosition(task, range, zoomQuarters).left
  {
    var deps := ResolveDependencies(task.dependencies, tasks);
    var here := TaskPosition(task, range, zoomQuarters).left;
    seq(|deps|, k requires 0 <= k < |deps| =>
      var from := TaskPosition(deps[k], range, zoomQuarters).left;
      Connector(deps[k].id, from, here - from))
  }

  // ----- Component state -----

  /** The chart component: its properties (`tasks`, `viewMode`, which the parent may
      change at any time) and its state (the anchor date and the zoom level). */
  class GanttChart {
    const tasks: seq<GanttTask>
    var viewMode: ViewMode
    var currentDate: Day
    var zoomQuarters: int

    ghost predicate Valid()
      reads this
    {
      MinZoom <= zoomQuarters <= MaxZoom
    }

    /** The view mode defaults to weeks when the parent passes none; the anchor starts
        at today and the zoom at 1. */
    constructor (tasks: seq<GanttTask>, viewMode: Option<ViewMode>, today: Day)
      ensures Valid()
      ensures this.tasks == tasks
      ensures viewMode.Some? ==> this.viewMode == viewMode.value
      ensures viewMode.None? ==> this.viewMode == WeekView
      ensures currentDate == today && zoomQuarters == InitialZoom
    {
      this.tasks := tasks;
      this.viewMode := if viewMode.Some? then viewMode.value else WeekView;
      currentDate := today;
      zoomQuarters := InitialZoom;
    }

    /** `dateRange`: copies of the anchor moved back and ahead. */
    method DateRangeOf() returns (range: DateRange)
      ensures range == WindowOf(currentDate, viewMode)
      ensures range.start < currentDate < range.end
    {
      var start := currentDate;
      var end := currentDate;
      match viewMode {
        case DayView =>
          start := start - 7;
          end := end + 30;
        case WeekView =>
          start := start - 14;
          end := end + 60;
        case MonthView =>
          start := AddMonths(start, -2);
          end := AddMonths(end, 6);
      }
      range := DateRange(start, end);
    }

    /** `timeSlots`: walk from the window start to its end one step at a time. */
    method TimeSlots() returns (slots: seq<Day>)
      ensures var range := WindowOf(currentDate, viewMode);
        slots == Ticks(range.start, range.end, viewMode)
    {
      var range := DateRangeOf();
      var mode := viewMode;
      slots := [];
      var current := range.start;
      while current <= range.end
        invariant slots + Ticks(current, range.end, mode) == Ticks(range.start, range.end, mode)
        decreases range.end - current
      {
        var next := current;
        match mode {
          case DayView => next := current + 1;
          case WeekView => next := current + 7;
          case MonthView =>
            AddOneMonth(current);
            next := AddMonths(current, 1);
        }
        assert next == Step(current, mode);
        assert Ticks(current, range.end, mode) == [current] + Ticks(next, range.end, mode);
        assert slots + Ticks(current, range.end, mode) == (slots + [current]) + Ticks(next, range.end, mode);
        slots := slots + [current];
        current := next;
      }
    }

    /** `navigateDate`: move the anchor; the zoom is unchanged. */
    method NavigateDate(direction: Direction)
      requires Valid()
      modifies this
      ensures Valid()
      ensures currentDate == Navigated(old(currentDate), viewMode, direction)
      ensures zoomQuarters == old(zoomQuarters) && viewMode == old(viewMode)
    {
      var newDate := currentDate;
      match viewMode {
        case DayView => newDate := newDate + (if direction == Next then 7 else -7);
        case WeekView => newDate := newDate + (if direction == Next then 14 else -14);
        case MonthView => newDate := AddMonths(newDate, if direction == Next then 1 else -1);
      }
      currentDate := newDate;
    }

    /** `handleZoom`: step the zoom; the anchor is unchanged. */
    method HandleZoom(direction: ZoomDirection)
      requires Valid()
      modifies this
      ensures Valid()
      ensures zoomQuarters == Zoomed(old(zoomQuarters), direction)
      ensures currentDate == old(currentDate) && viewMode == old(viewMode)
    {
      if direction == ZoomIn {
        zoomQuarters := if zoomQuarters + 1 < MaxZoom then zoomQuarters + 1 else MaxZoom;
      } else {
        zoomQuarters := if zoomQuarters - 1 > MinZoom then zoomQuarters - 1 else MinZoom;
      }
    }

    /** A new `viewMode` property from the parent: the chart keeps its anchor and its
        zoom, and the window and the slots follow the new mode. */
    method SetViewMode(mode: ViewMode)
      requires Valid()
      modifies this
      ensures Valid()
      ensures viewMode == mode
      ensures currentDate == old(currentDate) && zoomQuarters == old(zoomQuarters)
    {
      viewMode := mode;
    }
  }
}
