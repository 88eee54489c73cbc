/** The month calendar (frontend/src/components/Calendar.jsx): the weekday header, the
    day cells with their CSS classes, and the chunking of the cells into rows of seven.

    The month being shown, today's date and the selected date are inputs; the number
    of days in the month is part of the month. */
module Calendar {
  import opened Text
  import opened JsValues
  import BookingForm

  type Date = BookingForm.Date

  // ---------------------------------------------------------------------------
  // Chunking into rows

  /** The cells of the rows, row after row. */
  function Flatten<T>(rows: seq<seq<T>>): (cells: seq<T>)
    decreases |rows|
  {
    if rows == [] then [] else Flatten(rows[..|rows| - 1]) + rows[|rows| - 1]
  }

  /** The loop of `renderCells` as written: each cell joins the current row, and a
      row is emitted when it reaches seven cells. A trailing row of fewer than seven
      cells is never emitted. */
  method RenderRows<T>(cells: seq<T>) returns (rows: seq<seq<T>>)
    ensures |rows| == |cells| / 7
    ensures forall r :: 0 <= r < |rows| ==> |rows[r]| == 7 && rows[r] == cells[7 * r .. 7 * r + 7]
    ensures Flatten(rows) == cells[..7 * (|cells| / 7)]
  {
    rows := [];
    var days: seq<T> := [];
    var i := 0;
    while i < |cells|
      invariant 0 <= i <= |cells|
      invariant i == 7 * |rows| + |days| && |days| < 7
      invariant forall r :: 0 <= r < |rows| ==> rows[r] == cells[7 * r .. 7 * r + 7]
      invariant days == cells[7 * |rows| .. i]
      invariant Flatten(rows) == cells[..7 * |rows|]
    {
      days := days + [cells[i]];
      if |days| == 7 {
        assert days == cells[7 * |rows| .. 7 * |rows| + 7];
        assert cells[..7 * |rows|] + days == cells[..7 * |rows| + 7];
        var prev := rows;
        rows := rows + [days];
        assert rows[..|rows| - 1] == prev;
        days := [];
      }
      i := i + 1;
    }
  }

  /** The same loop with the trailing partial row emitted after the last day, so
      that every day of the month is shown. */
  method RenderRowsFlushed<T>(cells: seq<T>) returns (rows: seq<seq<T>>)
    ensures |rows| == (|cells| + 6) / 7
    ensures forall r :: 0 <= r < |rows| ==> 1 <= |rows[r]| <= 7
    ensures forall r :: 0 <= r < |rows| - 1 ==> |rows[r]| == 7
    ensures Flatten(rows) == cells
  {
    rows := RenderRows(cells);
    var full := 7 * |rows|;
    if full < |cells| {
      var tail := cells[full..];
      assert cells == cells[..full] + tail;
      var prev := rows;
      rows := rows + [tail];
      assert rows[..|rows| - 1] == prev;
    } else {
      assert cells[..full] == cells;
    }
  }

  /** The rows as written keep every cell only when the month is a whole number of
      weeks; otherwise the last `n % 7` days are lost. */
  lemma RowsLoseTrailingDays<T>(cells: seq<T>, rows: seq<seq<T>>)
    requires Flatten(rows) == cells[..7 * (|cells| / 7)]
    ensures |Flatten(rows)| == |cells| - |cells| % 7
    ensures Flatten(rows) == cells <==> |cells| % 7 == 0
  {
  }

  /** In a 31-day month the rows as written show the 1st to the 28th, and the cells
      of the 29th, 30th and 31st appear in no row. */
  lemma ThirtyOneDayMonth(m: Month, today: Date, selected: Option<Date>, rows: seq<seq<Cell>>)
    requires m.length == 31
    requires Flatten(rows) == DayCells(m, today, selected)[..28]
    ensures forall k :: 28 <= k < 31 ==> DayCells(m, today, selected)[k] !in Flatten(rows)
  {
    var cells := DayCells(m, today, selected);
    forall k | 28 <= k < 31 ensures cells[k] !in Flatten(rows) {
      forall j | 0 <= j < 28 ensures Flatten(rows)[j] != cells[k] {
        assert Flatten(rows)[j].date.day == j + 1;
      }
    }
  }

  // ---------------------------------------------------------------------------
  // Day cells

  const DayClassBase := "calendar-day"
  const NotCurrentClass := "calendar-day-not-current"
  const TodayClass := "calendar-day-today"
  const SelectedClass := "calendar-day-selected"
  const NotCurrentSuffix := " " + NotCurrentClass
  const TodaySuffix := " " + TodayClass
  const SelectedSuffix := " " + SelectedClass

  /** The class of a day cell: the base class, then the optional suffixes in the
      fixed order not-current, today, selected. */
  function DayClass(notCurrent: bool, today: bool, selected: bool): (cls: string)
    ensures StartsWith(cls, DayClassBase)
    ensures |cls| == |DayClassBase| + (if notCurrent then |NotCurrentSuffix| else 0)
                     + (if today then |TodaySuffix| else 0) + (if selected then |SelectedSuffix| else 0)
  {
    var c1 := DayClassBase + (if notCurrent then NotCurrentSuffix else "");
    var c2 := c1 + (if today then TodaySuffix else "");
    var c3 := c2 + (if selected then SelectedSuffix else "");
    assert c3[..|DayClassBase|] == DayClassBase;
    c3
  }

  lemma ClassNamesHaveNoSpace()
    ensures NoSpaceChar(DayClassBase) && NoSpaceChar(NotCurrentClass)
    ensures NoSpaceChar(TodayClass) && NoSpaceChar(SelectedClass)
  {
  }

  /** A class appended with its separating space, or nothing. */
  function Spaced(present: bool, w: string): string {
    if present then " " + w else ""
  }

  /** The token that class contributes, or none. */
  function Optional(present: bool, w: string): seq<string> {
    if present then [w] else []
  }

  predicate SpaceLed(s: string) {
    s == [] || s[0] == ' '
  }

  /** An optional suffix in front of a space-led rest contributes its token or
      nothing, and leaves a space-led string. */
  lemma OptionalToken(present: bool, w: string, rest: string)
    requires w != [] && NoSpaceChar(w)
    requires SpaceLed(rest)
    ensures SpaceLed(Spaced(present, w) + rest)
    ensures Tokens(Spaced(present, w) + rest) == Optional(present, w) + Tokens(rest)
  {
    if present {
      SpacedToken(w, rest);
      assert (" " + w) + rest == " " + w + rest;
    } else {
      assert "" + rest == rest;
    }
  }

  lemma LoneSuffix(present: bool, w: string)
    requires w != [] && NoSpaceChar(w)
    ensures Tokens(Spaced(present, w)) == Optional(present, w)
  {
    OptionalToken(present, w, []);
    assert Spaced(present, w) + [] == Spaced(present, w);
    assert Optional(present, w) + [] == Optional(present, w);
  }

  lemma TwoSuffixes(b: bool, w2: string, c: bool, w3: string)
    requires w2 != [] && NoSpaceChar(w2) && w3 != [] && NoSpaceChar(w3)
    ensures SpaceLed(Spaced(b, w2) + Spaced(c, w3))
    ensures Tokens(Spaced(b, w2) + Spaced(c, w3)) == Optional(b, w2) + Optional(c, w3)
  {
    LoneSuffix(c, w3);
    OptionalToken(c, w3, []);
    assert Spaced(c, w3) + [] == Spaced(c, w3);
    OptionalToken(b, w2, Spaced(c, w3));
  }

  lemma Regroup<T>(a: seq<T>, b: seq<T>, c: seq<T>, d: seq<T>)
    ensures a + b + c + d == a + (b + (c + d))
  {
  }

  /** A base token followed by three optional space-led tokens reads as the base and
      the tokens present, in order. */
  lemma SuffixedTokens(base: string, a: bool, w1: string, b: bool, w2: string, c: bool, w3: string)
    requires base != [] && NoSpaceChar(base)
    requires w1 != [] && NoSpaceChar(w1) && w2 != [] && NoSpaceChar(w2) && w3 != [] && NoSpaceChar(w3)
    ensures Tokens(base + Spaced(a, w1) + Spaced(b, w2) + Spaced(c, w3))
         == [base] + Optional(a, w1) + Optional(b, w2) + Optional(c, w3)
  {
    var t1, t2, t3 := Spaced(a, w1), Spaced(b, w2), Spaced(c, w3);
    var l1, l2, l3 := Optional(a, w1), Optional(b, w2), Optional(c, w3);
    TwoSuffixes(b, w2, c, w3);
    OptionalToken(a, w1, t2 + t3);
    Regroup(base, t1, t2, t3);
    LeadingToken(base, t1 + (t2 + t3));
    Regroup([base], l1, l2, l3);
  }

  /** Read as a class list, the class is the base class followed by one class per
      mark the day carries, in the order not-current, today, selected. */
  lemma DayClassTokens(notCurrent: bool, today: bool, selected: bool)
    ensures Tokens(DayClass(notCurrent, today, selected))
         == [DayClassBase] + (if notCurrent then [NotCurrentClass] else [])
            + (if today then [TodayClass] else []) + (if selected then [SelectedClass] else [])
  {
    ClassNamesHaveNoSpace();
    SuffixedTokens(DayClassBase, notCurrent, NotCurrentClass, today, TodayClass, selected, SelectedClass);
    assert DayClass(notCurrent, today, selected)
        == DayClassBase + Spaced(notCurrent, NotCurrentClass) + Spaced(today, TodayClass)
           + Spaced(selected, SelectedClass);
  }

  /** Different flag combinations give different classes, so the class tells which
      marks a day carries. */
  lemma DayClassInjective(a1: bool, b1: bool, c1: bool, a2: bool, b2: bool, c2: bool)
    ensures DayClass(a1, b1, c1) == DayClass(a2, b2, c2) <==> a1 == a2 && b1 == b2 && c1 == c2
  {
    if DayClass(a1, b1, c1) == DayClass(a2, b2, c2) {
      assert |DayClass(a1, b1, c1)| == |DayClass(a2, b2, c2)|;
    }
  }

  /** The month on screen. */
  datatype Month = Month(year: nat, month: nat, length: nat)

  /** One rendered day: its number as text, its class and the date it selects. */
  datatype Cell = Cell(text: string, cls: string, date: Date)

  /** `renderCells` before chunking: one cell per day from the first to the last day
      of the month. */
  function DayCells(m: Month, today: Date, selected: Option<Date>): (cells: seq<Cell>)
    ensures |cells| == m.length
    ensures forall k :: 0 <= k < |cells| ==> cells[k].date == BookingForm.Date(m.year, m.month, k + 1)
    ensures forall k :: 0 <= k < |cells| ==> cells[k].text == Decimal(k + 1)
  {
    seq(m.length, k requires 0 <= k < m.length => DayCell(m, today, selected, k + 1))
  }

  function DayCell(m: Month, today: Date, selected: Option<Date>, d: nat): Cell {
    var date := BookingForm.Date(m.year, m.month, d);
    var isCurrentMonth := date.year == m.year && date.month == m.month;
    var isSelected := selected.Some? && BookingForm.FormatIsoDate(selected.value) == BookingForm.FormatIsoDate(date);
    Cell(Decimal(d), DayClass(!isCurrentMonth, date == today, isSelected), date)
  }

  /** Every cell is a day of the month on screen, so no cell is ever marked
      not-current; a cell is marked today exactly when it is today, and marked
      selected exactly when it is the selected date. */
  lemma CellMarks(m: Month, today: Date, selected: Option<Date>, k: int)
    requires 0 <= k < m.length
    requires m.year < 10000 && 1 <= m.month <= 12 && m.length <= 31
    requires selected.Some? ==> BookingForm.ValidDate(selected.value)
    ensures var c := DayCells(m, today, selected)[k];
      c.cls == DayClass(false, c.date == today, selected == Some(c.date))
  {
    var date := BookingForm.Date(m.year, m.month, k + 1);
    if selected.Some? {
      BookingForm.IsoDateInjective(selected.value, date);
    }
  }

  /** The calendar as `renderCells` renders it: the day cells of the month, seven
      to a row, and the days after the last full week on no row at all. */
  method RenderMonthAsWritten(m: Month, today: Date, selected: Option<Date>) returns (rows: seq<seq<Cell>>)
    ensures forall r :: 0 <= r < |rows| ==> |rows[r]| == 7
    ensures Flatten(rows) == DayCells(m, today, selected)[..7 * (m.length / 7)]
  {
    rows := RenderRows(DayCells(m, today, selected));
  }

  /** The corrected calendar: the same rows with the last partial row kept, so that
      every day of the month is shown. */
  method RenderMonth(m: Month, today: Date, selected: Option<Date>) returns (rows: seq<seq<Cell>>)
    ensures Flatten(rows) == DayCells(m, today, selected)
    ensures forall r :: 0 <= r < |rows| - 1 ==> |rows[r]| == 7
  {
    rows := RenderRowsFlushed(DayCells(m, today, selected));
  }

  // ---------------------------------------------------------------------------
  // The weekday header

  /** Day of the week of a Gregorian date, 0 for Sunday (Sakamoto's method). */
  function DayOfWeek(year: nat, month: nat, day: nat): (w: nat)
    requires 1 <= month <= 12 && year >= 1
    ensures w < 7
  {
    var t := [0, 3, 2, 5, 0, 3, 5, 1, 4, 6, 2, 4];
    var y := if month < 3 then year - 1 else year;
    (y + y / 4 - y / 100 + y / 400 + t[month - 1] + day) % 7
  }

  /** The `EEE` abbreviation of a day of the week. */
  function ShortDayName(w: nat): string
    requires w < 7
  {
    ["Sun", "Mon", "Tue", "Wed", "Thu", "Fri", "Sat"][w]
  }

  /** `renderDays`: the abbreviations of 1 to 7 January 2021. */
  method WeekdayHeader() returns (labels: seq<string>)
    ensures |labels| == 7
    ensures forall i :: 0 <= i < 7 ==> labels[i] == ShortDayName(DayOfWeek(2021, 1, i + 1))
  {
    labels := [];
    var i := 0;
    while i < 7
      invariant 0 <= i <= 7 && |labels| == i
      invariant forall j :: 0 <= j < i ==> labels[j] == ShortDayName(DayOfWeek(2021, 1, j + 1))
    {
      labels := labels + [ShortDayName(DayOfWeek(2021, 1, i + 1))];
      i := i + 1;
    }
  }

  /** 1 January 2021 was a Friday, so the header reads Fri to Thu: seven different
      days, each once. */
  lemma HeaderStartsOnFriday()
    ensures seq(7, i requires 0 <= i < 7 => ShortDayName(DayOfWeek(2021, 1, i + 1)))
         == ["Fri", "Sat", "Sun", "Mon", "Tue", "Wed", "Thu"]
  {
    assert 2020 + 2020 / 4 - 2020 / 100 + 2020 / 400 == 2510;
  }
}
