/** Calendar: a month view with a row of seven weekday headings, then blank
    spacers up to the column of the first day's weekday, then one button per
    day of the month; the button of the selected day is highlighted. Two
    navigation buttons move the displayed month, and a layout packs the
    visible cells row by row into seven columns. */
module CalendarGrid {
  import opened TextUtil
  import opened Dates

  /** Days per week and the most week rows a month needs (daysPerWeek, maxWeeksPerMonth). */
  const DaysPerWeek: int := 7
  const MaxWeeksPerMonth: int := 6

  /** One child of the dates container: a weekday heading (0 = Sunday), a
      spacer, or a day button with its label's number and whether it is
      highlighted (HighImportance). */
  datatype Cell = Heading(weekday: int) | Spacer | DayButton(day: int, high: bool)

  /** The first day of the month of d. */
  function FirstOfMonth(d: Date): (r: Date)
    requires ValidDate(d)
    ensures ValidDate(r) && r.day == 1 && MonthIndex(r) == MonthIndex(d)
  {
    Date(d.year, d.month, 1)
  }

  /** The headings row: column i names weekday (i + weekStart) mod 7. */
  function Headings(weekStart: int): (hs: seq<Cell>)
    requires 0 <= weekStart < 7
    ensures |hs| == DaysPerWeek
    ensures forall i :: 0 <= i < |hs| ==> hs[i].Heading? && 0 <= hs[i].weekday < 7
  {
    seq(DaysPerWeek, i requires 0 <= i < DaysPerWeek => Heading((i + weekStart) % DaysPerWeek))
  }

  /** x mod 7 for 0 <= x < 14. */
  lemma Mod7(x: int)
    requires 0 <= x < 14
    ensures x % 7 == if x < 7 then x else x - 7
  {
  }

  /** Column of the heading of weekday w when weeks start on weekStart. */
  function HeadingColumn(w: int, weekStart: int): int
  {
    if w >= weekStart then w - weekStart else w - weekStart + 7
  }

  /** Every weekday heads exactly one column, and the week's first column is weekStart. */
  lemma {:induction false} HeadingsEachWeekdayOnce(weekStart: int)
    requires 0 <= weekStart < 7
    ensures Headings(weekStart)[0] == Heading(weekStart)
    ensures forall w :: 0 <= w < 7 ==> 0 <= HeadingColumn(w, weekStart) < 7 && Headings(weekStart)[HeadingColumn(w, weekStart)] == Heading(w)
    ensures forall i, j :: 0 <= i < j < 7 ==> Headings(weekStart)[i] != Headings(weekStart)[j]
  {
    var hs := Headings(weekStart);
    forall w | 0 <= w < 7
      ensures 0 <= HeadingColumn(w, weekStart) < 7 && hs[HeadingColumn(w, weekStart)] == Heading(w)
    {
      var i := HeadingColumn(w, weekStart);
      Mod7(i + weekStart);
    }
    forall i, j | 0 <= i < j < 7
      ensures hs[i] != hs[j]
    {
      Mod7(i + weekStart);
      Mod7(j + weekStart);
    }
  }

  /** Moving one step along a row-major grid of width 7. */
  lemma {:induction false} Step7(k: int)
    requires k >= 0
    ensures (k + 1) % 7 == 0 ==> (k + 1) / 7 == k / 7 + 1 && k % 7 == 6
    ensures (k + 1) % 7 != 0 ==> (k + 1) / 7 == k / 7 && (k + 1) % 7 == k % 7 + 1
  {
    var q, r := k / 7, k % 7;
    assert k == 7 * q + r && 0 <= r < 7;
    if r == 6 {
      assert k + 1 == 7 * (q + 1);
    } else {
      assert k + 1 == 7 * q + (r + 1);
    }
  }

  /** Number of spacers before day 1: the weekday of the first of the month
      counted from weekStart (dayIndex in daysOfMonth). */
  function Lead(displayed: Date, weekStart: int): (n: int)
    requires ValidDate(displayed) && 0 <= weekStart < 7
    ensures 0 <= n < DaysPerWeek
    ensures (n + weekStart) % 7 == Weekday(FirstOfMonth(displayed))
  {
    var dayIndex := Weekday(FirstOfMonth(displayed)) - weekStart;
    if dayIndex < 0 then dayIndex + DaysPerWeek else dayIndex
  }

  /** The button of day `day` is highlighted: a non-zero selected date in the
      displayed month and year, on that day. */
  predicate Highlighted(selected: Date, displayed: Date, day: int)
  {
    selected != Zero && selected.year == displayed.year && selected.month == displayed.month && selected.day == day
  }

  /** The day buttons of the displayed month, from day 1. */
  function DayButtons(displayed: Date, selected: Date): (bs: seq<Cell>)
    requires ValidDate(displayed)
    ensures |bs| == DaysIn(displayed.year, displayed.month)
  {
    seq(DaysIn(displayed.year, displayed.month),
        k requires 0 <= k < DaysIn(displayed.year, displayed.month) =>
          DayButton(k + 1, Highlighted(selected, displayed, k + 1)))
  }

  /** The children of the dates container (calendarObjects). */
  function Grid(displayed: Date, weekStart: int, selected: Date): (g: seq<Cell>)
    requires ValidDate(displayed) && 0 <= weekStart < 7
    ensures |g| == DaysPerWeek + Lead(displayed, weekStart) + DaysIn(displayed.year, displayed.month)
  {
    Headings(weekStart) + seq(Lead(displayed, weekStart), _ => Spacer) + DayButtons(displayed, selected)
  }

  /** Index of the button of day `day` in the grid. */
  function DayCellIndex(displayed: Date, weekStart: int, day: int): int
    requires ValidDate(displayed) && 0 <= weekStart < 7
  {
    DaysPerWeek + Lead(displayed, weekStart) + day - 1
  }

  /** The grid is seven headings, then fewer than seven spacers, then one
      button for each day of the month labelled 1, 2, … in order; the
      buttons fit in MaxWeeksPerMonth rows. */
  lemma {:induction false} GridShape(displayed: Date, weekStart: int, selected: Date)
    requires ValidDate(displayed) && 0 <= weekStart < 7
    ensures var g := Grid(displayed, weekStart, selected);
      && (forall i :: 0 <= i < DaysPerWeek ==> g[i].Heading?)
      && (forall i :: DaysPerWeek <= i < DaysPerWeek + Lead(displayed, weekStart) ==> g[i] == Spacer)
      && (forall day :: 1 <= day <= DaysIn(displayed.year, displayed.month) ==>
            g[DayCellIndex(displayed, weekStart, day)].DayButton? &&
            g[DayCellIndex(displayed, weekStart, day)].day == day)
      && Lead(displayed, weekStart) + DaysIn(displayed.year, displayed.month) <= MaxWeeksPerMonth * DaysPerWeek
  {
    var g := Grid(displayed, weekStart, selected);
    var lead := Lead(displayed, weekStart);
    forall day | 1 <= day <= DaysIn(displayed.year, displayed.month)
      ensures g[DayCellIndex(displayed, weekStart, day)] == DayButtons(displayed, selected)[day - 1]
    {
    }
  }

  /** The button of each day sits in the column whose heading is that day's weekday. */
  lemma {:induction false} DayUnderItsWeekday(displayed: Date, weekStart: int, selected: Date, day: int)
    requires ValidDate(displayed) && 0 <= weekStart < 7
    requires 1 <= day <= DaysIn(displayed.year, displayed.month)
    ensures var g := Grid(displayed, weekStart, selected);
      var i := DayCellIndex(displayed, weekStart, day);
      0 <= i < |g| && g[i % DaysPerWeek] == Heading(Weekday(Date(displayed.year, displayed.month, day)))
  {
    var g := Grid(displayed, weekStart, selected);
    var i := DayCellIndex(displayed, weekStart, day);
    var lead := Lead(displayed, weekStart);
    WeekdayInMonth(displayed.year, displayed.month, day);
    var first := Weekday(FirstOfMonth(displayed));
    var x := lead + day - 1 + weekStart;
    assert g[i % 7] == Heading((i % 7 + weekStart) % 7);
    assert i == 7 * 1 + (lead + day - 1);
    ModMultiple(1, lead + day - 1);
    assert i % 7 == (lead + day - 1) % 7;
    var q := (lead + day - 1) / 7;
    assert lead + day - 1 == 7 * q + i % 7;
    ModMultiple(q, i % 7 + weekStart);
    assert (i % 7 + weekStart) % 7 == x % 7;
    var q2 := (lead + weekStart) / 7;
    assert lead + weekStart == 7 * q2 + first;
    ModMultiple(q2, first + day - 1);
    assert x % 7 == (first + day - 1) % 7;
  }

  /** At most one button is highlighted, and one is exactly when the
      selected date is a non-zero date of the displayed month: then it is the
      button of the selected day. */
  lemma {:induction false} HighlightIsSelection(displayed: Date, weekStart: int, selected: Date)
    requires ValidDate(displayed) && 0 <= weekStart < 7 && ValidDate(selected)
    ensures var g := Grid(displayed, weekStart, selected);
      && (forall i, j :: 0 <= i < j < |g| && g[i].DayButton? && g[j].DayButton? ==> !(g[i].high && g[j].high))
      && (forall i :: 0 <= i < |g| && g[i].DayButton? && g[i].high ==>
            Highlighted(selected, displayed, g[i].day) && i == DayCellIndex(displayed, weekStart, selected.day))
      && (Highlighted(selected, displayed, selected.day) ==>
            g[DayCellIndex(displayed, weekStart, selected.day)] == DayButton(selected.day, true))
  {
    var g := Grid(displayed, weekStart, selected);
    var lead := Lead(displayed, weekStart);
    assert forall i :: 7 + lead <= i < |g| ==> g[i] == DayButtons(displayed, selected)[i - 7 - lead];
    assert forall i :: 0 <= i < 7 + lead ==> !g[i].DayButton?;
  }

  /** Re-flagging the buttons for a new selection (updateSelection): headings
      and spacers are kept, each button's highlight is recomputed from its day. */
  function Reflag(cells: seq<Cell>, selected: Date, displayed: Date): (r: seq<Cell>)
    ensures |r| == |cells|
    ensures forall i :: 0 <= i < |cells| && !cells[i].DayButton? ==> r[i] == cells[i]
    ensures forall i :: 0 <= i < |cells| && cells[i].DayButton? ==>
      r[i] == DayButton(cells[i].day, Highlighted(selected, displayed, cells[i].day))
  {
    seq(|cells|, i requires 0 <= i < |cells| =>
      if cells[i].DayButton? then DayButton(cells[i].day, Highlighted(selected, displayed, cells[i].day)) else cells[i])
  }

  /** Re-flagging a grid for a new selection gives the grid built for it. */
  lemma {:induction false} ReflagGrid(displayed: Date, weekStart: int, old_: Date, selected: Date)
    requires ValidDate(displayed) && 0 <= weekStart < 7
    ensures Reflag(Grid(displayed, weekStart, old_), selected, displayed) == Grid(displayed, weekStart, selected)
  {
    var g0 := Grid(displayed, weekStart, old_);
    var g1 := Grid(displayed, weekStart, selected);
    var lead := Lead(displayed, weekStart);
    assert forall i :: 7 + lead <= i < |g0| ==> g0[i] == DayButtons(displayed, old_)[i - 7 - lead];
    assert forall i :: 7 + lead <= i < |g1| ==> g1[i] == DayButtons(displayed, selected)[i - 7 - lead];
    assert forall i :: 0 <= i < 7 + lead ==> g0[i] == g1[i];
  }

  /** Showing the month after the displayed one (the Next button), from
      whatever day the displayed date holds. */
  function NextShown(displayed: Date): (r: Date)
    requires ValidDate(displayed)
    ensures ValidDate(r) && r.day == 1
  {
    FirstOfMonth(AddMonths(displayed, 1))
  }

  /** As written, NewCalendar keeps the day of the date it is given: a
      calendar created on 31 January 2024 goes to March, not February, on
      its first Next. */
  lemma NextFromUnnormalisedSkipsMonth()
    ensures ValidDate(Date(2024, 1, 31))
    ensures NextShown(Date(2024, 1, 31)) == Date(2024, 3, 1)
    ensures MonthIndex(NextShown(Date(2024, 1, 31))) == MonthIndex(Date(2024, 1, 31)) + 2
  {
    AddMonthsSkipsFebruary();
  }

  /** From a first-of-month date, Next and Previous move by exactly one month. */
  lemma {:induction false} NavigationFromFirstDay(displayed: Date, k: int)
    requires ValidDate(displayed) && displayed.day == 1
    ensures FirstOfMonth(AddMonths(displayed, k)) == AddMonths(displayed, k)
    ensures MonthIndex(AddMonths(displayed, k)) == MonthIndex(displayed) + k
  {
    AddMonthsFirstDay(displayed, k);
  }

  class Calendar {
    var displayed: Date
    var selected: Date
    var weekStart: int
    /** Whether CreateRenderer has run (monthLabel and dates exist). */
    var rendered: bool
    /** The children of the dates container. */
    var cells: seq<Cell>
    /** Whether OnChanged is set, and the dates passed to it. */
    var onChanged: bool
    var changes: seq<Date>

    /** The dates are valid, the displayed one is a first of month, the week start is a weekday. */
    ghost predicate Fields()
      reads this
    {
      && ValidDate(displayed) && displayed.day == 1
      && ValidDate(selected)
      && 0 <= weekStart < 7
    }

    ghost predicate Valid()
      reads this
    {
      Fields() && (rendered ==> cells == Grid(displayed, weekStart, selected))
    }

    /** NewCalendar with the displayed date brought to the first of its
        month, as SetDisplayedDate does; WeekStart is the global week start. */
    constructor (cT: Date, sT: Date, globalWeekStart: int, onChanged: bool)
      requires ValidDate(cT) && ValidDate(sT) && 0 <= globalWeekStart < 7
      ensures Valid() && !rendered && changes == []
      ensures displayed == FirstOfMonth(cT) && selected == sT && weekStart == globalWeekStart
      ensures this.onChanged == onChanged
    {
      displayed := FirstOfMonth(cT);
      selected := sT;
      weekStart := globalWeekStart;
      rendered := false;
      cells := [];
      this.onChanged := onChanged;
      changes := [];
    }

    /** calendarObjects: the headings, the spacers and one button per day,
        walking the month a day at a time. */
    method CalendarObjects() returns (objs: seq<Cell>)
      requires ValidDate(displayed) && 0 <= weekStart < 7
      ensures objs == Grid(displayed, weekStart, selected)
    {
      objs := [];
      for i := 0 to DaysPerWeek
        invariant objs == Headings(weekStart)[..i]
      {
        objs := objs + [Heading((i + weekStart) % DaysPerWeek)];
      }
      var start := FirstOfMonth(displayed);
      var dayIndex := Weekday(start) - weekStart;
      if dayIndex < 0 {
        dayIndex := dayIndex + DaysPerWeek;
      }
      ghost var heads := objs;
      for i := 0 to dayIndex
        invariant objs == heads + seq(i, _ => Spacer)
      {
        objs := objs + [Spacer];
      }
      ghost var prefix := objs;
      ghost var n := DaysIn(start.year, start.month);
      ghost var done := 0;
      var d := start;
      while d.month == start.month
        invariant 0 <= done <= n && ValidDate(d)
        invariant done < n ==> d == Date(start.year, start.month, done + 1)
        invariant done == n ==> d.month != start.month
        invariant objs == prefix + DayButtons(displayed, selected)[..done]
        decreases n - done
      {
        var dayNum := d.day;
        var high := selected != Zero && selected.year == displayed.year && selected.month == displayed.month && selected.day == dayNum;
        objs := objs + [DayButton(dayNum, high)];
        assert DayButtons(displayed, selected)[..done + 1] == DayButtons(displayed, selected)[..done] + [DayButton(dayNum, high)];
        d := NextDay(d);
        done := done + 1;
      }
      assert DayButtons(displayed, selected)[..n] == DayButtons(displayed, selected);
    }

    /** SetDisplayedDate: the zero date means today; the month of the date is
        shown from its first day, and a rendered calendar rebuilds its cells. */
    method SetDisplayedDate(date: Date, now: Date)
      requires Fields() && ValidDate(date) && ValidDate(now)
      modifies this`displayed, this`cells
      ensures Valid()
      ensures displayed == FirstOfMonth(if date == Zero then now else date)
      ensures !rendered ==> cells == old(cells)
    {
      var dt := date;
      if dt == Zero {
        dt := now;
      }
      displayed := FirstOfMonth(dt);
      if rendered {
        cells := CalendarObjects();
      }
    }

    /** updateSelection: nothing before rendering; otherwise every button is
        re-flagged for the current selection. */
    method UpdateSelection()
      modifies this`cells
      ensures cells == if !rendered || |old(cells)| == 0 then old(cells) else Reflag(old(cells), selected, displayed)
    {
      if !rendered || |cells| == 0 {
        return;
      }
      var objs := cells;
      if selected == Zero || selected.month != displayed.month || selected.year != displayed.year {
        for i := 0 to |objs|
          invariant |objs| == |cells|
          invariant objs[..i] == Reflag(cells, selected, displayed)[..i]
          invariant objs[i..] == cells[i..]
        {
          if objs[i].DayButton? {
            objs := objs[i := DayButton(objs[i].day, false)];
          }
        }
      } else {
        for i := 0 to |objs|
          invariant |objs| == |cells|
          invariant objs[..i] == Reflag(cells, selected, displayed)[..i]
          invariant objs[i..] == cells[i..]
        {
          if objs[i].DayButton? {
            var dayNum := objs[i].day;
            objs := objs[i := DayButton(dayNum, dayNum == selected.day)];
          }
        }
      }
      assert objs[..|objs|] == objs;
      cells := objs;
    }

    /** SetSelectedDate: the selection changes and the buttons follow it. */
    method SetSelectedDate(date: Date)
      requires Valid() && ValidDate(date)
      modifies this`selected, this`cells
      ensures Valid() && selected == date
      ensures !rendered ==> cells == old(cells)
    {
      selected := date;
      if rendered {
        ReflagGrid(displayed, weekStart, old(selected), selected);
      }
      UpdateSelection();
    }

    /** SetWeekStart: the week start changes and the displayed month is set again. */
    method SetWeekStart(wd: int, now: Date)
      requires Valid() && 0 <= wd < 7 && ValidDate(now)
      modifies this`weekStart, this`displayed, this`cells
      ensures Valid() && weekStart == wd
      ensures displayed == if old(displayed) == Zero then FirstOfMonth(now) else old(displayed)
    {
      weekStart := wd;
      SetDisplayedDate(displayed, now);
    }

    /** CreateRenderer: WeekStart is reset to the global week start and the cells are built. */
    method CreateRenderer(globalWeekStart: int)
      requires Valid() && 0 <= globalWeekStart < 7
      modifies this`weekStart, this`rendered, this`cells
      ensures Valid() && rendered && weekStart == globalWeekStart
      ensures cells == Grid(displayed, globalWeekStart, selected)
    {
      weekStart := globalWeekStart;
      rendered := true;
      cells := CalendarObjects();
    }

    /** The Previous (k = -1) and Next (k = 1) buttons: the displayed date
        moves by k months; landing on the zero date means today. */
    method Navigate(k: int, now: Date)
      requires Valid() && (k == 1 || k == -1) && ValidDate(now)
      modifies this`displayed, this`cells
      ensures Valid()
      ensures AddMonths(old(displayed), k) != Zero ==> MonthIndex(displayed) == MonthIndex(old(displayed)) + k
      ensures AddMonths(old(displayed), k) == Zero ==> displayed == FirstOfMonth(now)
    {
      NavigationFromFirstDay(displayed, k);
      SetDisplayedDate(AddMonths(displayed, k), now);
    }

    /** Tapping the button of day `day`: that day of the displayed month
        becomes the selection, the buttons follow, and OnChanged receives it. */
    method TapDay(day: int)
      requires Valid() && rendered && 1 <= day <= DaysIn(displayed.year, displayed.month)
      modifies this`selected, this`cells, this`changes
      ensures Valid()
      ensures selected == Date(displayed.year, displayed.month, day)
      ensures changes == old(changes) + (if onChanged then [selected] else [])
      ensures selected != Zero ==> cells[DayCellIndex(displayed, weekStart, day)] == DayButton(day, true)
      ensures forall i :: 0 <= i < |cells| && i != DayCellIndex(displayed, weekStart, day) && cells[i].DayButton? ==> !cells[i].high
    {
      selected := Date(displayed.year, displayed.month, day);
      ReflagGrid(displayed, weekStart, old(selected), selected);
      UpdateSelection();
      assert cells == Grid(displayed, weekStart, selected);
      HighlightIsSelection(displayed, weekStart, selected);
      if onChanged {
        changes := changes + [selected];
      }
    }
  }

  /** Number of true entries. */
  function CountTrue(s: seq<bool>): (n: nat)
    ensures n <= |s|
  {
    if s == [] then 0 else CountTrue(s[..|s| - 1]) + (if s[|s| - 1] then 1 else 0)
  }

  predicate AllVisible(s: seq<bool>)
  {
    forall i :: 0 <= i < |s| ==> s[i]
  }

  lemma {:induction false} CountAllVisible(s: seq<bool>)
    requires AllVisible(s)
    ensures CountTrue(s) == |s|
  {
    if s != [] {
      CountAllVisible(s[..|s| - 1]);
    }
  }

  /** The first loop of calendarLayout.Layout: the number of week rows the
      height is divided into. When every child is visible it is the number
      of rows of seven the children fill. */
  method CountWeeks(visible: seq<bool>) returns (weeks: int)
    ensures weeks >= 1
    ensures AllVisible(visible) ==> weeks == if |visible| == 0 then 1 else (|visible| + 6) / 7
  {
    weeks := 1;
    var day := 0;
    for i := 0 to |visible|
      invariant day == CountTrue(visible[..i]) && weeks >= 1
      invariant AllVisible(visible) ==> weeks == if i == 0 then 1 else 1 + (i - 1) / 7
    {
      assert visible[..i + 1][..i] == visible[..i];
      if !visible[i] {
        continue;
      }
      if AllVisible(visible) {
        CountAllVisible(visible[..i]);
      }
      if i > 0 {
        Step7(i - 1);
      }
      if day % DaysPerWeek == 0 && i >= DaysPerWeek {
        weeks := weeks + 1;
      }
      day := day + 1;
    }
    if AllVisible(visible) && |visible| > 0 {
      var n := |visible|;
      assert (n - 1) / 7 + 1 == (n + 6) / 7 by {
        assert n + 6 == (n - 1) + 7 * 1;
      }
    }
  }

  /** The second loop of calendarLayout.Layout: each visible child goes to
      the cell numbered by its rank among the visible children, row by row,
      seven to a row; a hidden child gets no cell. */
  method PlaceChildren(visible: seq<bool>) returns (places: seq<Option<(int, int)>>)
    ensures |places| == |visible|
    ensures forall i :: 0 <= i < |visible| ==>
      places[i] == if visible[i] then Some((CountTrue(visible[..i]) / 7, CountTrue(visible[..i]) % 7)) else None
  {
    var row, col := 0, 0;
    var k := 0;
    places := [];
    for j := 0 to |visible|
      invariant k == CountTrue(visible[..j]) && row == k / 7 && col == k % 7
      invariant |places| == j
      invariant forall i :: 0 <= i < j ==>
        places[i] == if visible[i] then Some((CountTrue(visible[..i]) / 7, CountTrue(visible[..i]) % 7)) else None
    {
      assert visible[..j + 1][..j] == visible[..j];
      if !visible[j] {
        places := places + [None];
        continue;
      }
      places := places + [Some((row, col))];
      Step7(k);
      if (k + 1) % DaysPerWeek == 0 {
        row := row + 1;
        col := 0;
      } else {
        col := col + 1;
      }
      k := k + 1;
    }
  }

  /** calendarLayout.Layout on the visibility of the children: the week rows
      and the (row, column) cell of each child. When every child is visible
      the height is divided into exactly the rows used. */
  method Layout(visible: seq<bool>) returns (weeks: int, places: seq<Option<(int, int)>>)
    ensures weeks >= 1 && |places| == |visible|
    ensures forall i :: 0 <= i < |visible| ==>
      places[i] == if visible[i] then Some((CountTrue(visible[..i]) / 7, CountTrue(visible[..i]) % 7)) else None
    ensures AllVisible(visible) && |visible| > 0 ==> weeks == places[|visible| - 1].value.0 + 1
  {
    weeks := CountWeeks(visible);
    places := PlaceChildren(visible);
    if AllVisible(visible) && |visible| > 0 {
      var n := |visible|;
      CountAllVisible(visible[..n - 1]);
      assert places[n - 1].value.0 == (n - 1) / 7;
      assert (n - 1) / 7 + 1 == (n + 6) / 7 by {
        assert n + 6 == (n - 1) + 7 * 1;
      }
    }
  }
}
