/** DateEntry: a text entry holding a date under the fixed mask "dd/mm/yyyy".
    Every cell is a digit or '_', the two slashes never move, and the cursor
    (CursorColumn) is a column in 0..10 that the editing operations keep off
    the slashes. The handler the widget installs turns every change of the
    text into a parsed date and reports it only when it differs from the last
    one reported. */
module DateMask {
  import opened TextUtil
  import opened Events
  import opened Dates

  /** The text of an empty date entry. */
  const Blank: string := "__/__/____"

  /** Columns holding a digit or '_': all but the slashes at 2 and 5. */
  predicate IsCell(i: int) { 0 <= i < 10 && i != 2 && i != 5 }

  /** The text keeps the mask's shape: ten columns, slashes at 2 and 5, and
      a digit or '_' in every cell. */
  predicate Shaped(t: string)
  {
    && |t| == 10 && t[2] == '/' && t[5] == '/'
    && forall i :: 0 <= i < 10 && i != 2 && i != 5 ==> IsDigit(t[i]) || t[i] == '_'
  }

  /** The state the editing operations work on: text and cursor column. */
  datatype Mask = Mask(text: string, cursor: int)

  predicate Wellformed(m: Mask)
  {
    Shaped(m.text) && 0 <= m.cursor <= 10
  }

  /** Every character of s is a digit or '_'. */
  predicate CellChars(s: string)
  {
    forall i :: 0 <= i < |s| ==> IsDigit(s[i]) || s[i] == '_'
  }

  /** The three fields of a shaped text hold only cells. */
  lemma FieldsOfShaped(t: string)
    requires Shaped(t)
    ensures CellChars(t[..2]) && CellChars(t[3..5]) && CellChars(t[6..])
  {
    assert forall i :: 0 <= i < 2 ==> t[..2][i] == t[i];
    assert forall i :: 0 <= i < 2 ==> t[3..5][i] == t[i + 3];
    assert forall i :: 0 <= i < 4 ==> t[6..][i] == t[i + 6];
  }

  // ---------------------------------------------------------------------------
  // Typing a rune

  /** Column of the cell a digit was written to when typing left the cursor at c. */
  function CellBefore(c: int): int
  {
    if c == 3 || c == 6 then c - 2 else c - 1
  }

  /** DateEntry.TypedRune once the hook has let the rune through: a digit typed
      with the cursor before column 10 overwrites the cell at the cursor (the
      cell after it when the cursor sits on a slash) and the cursor moves past
      it and past a following slash; anything else changes nothing. */
  function TypeRune(m: Mask, r: char): (m': Mask)
    requires Wellformed(m)
    ensures Wellformed(m')
    ensures !IsDigit(r) || m.cursor == 10 ==> m' == m
    ensures IsDigit(r) && m.cursor < 10 ==>
      && m.cursor < m'.cursor && m'.cursor != 2 && m'.cursor != 5
      && IsCell(CellBefore(m'.cursor)) && m.cursor <= CellBefore(m'.cursor)
      && m'.text == m.text[CellBefore(m'.cursor) := r]
    ensures IsDigit(r) && m.cursor < 10 ==>
      CellBefore(m'.cursor) == if m.cursor == 2 || m.cursor == 5 then m.cursor + 1 else m.cursor
  {
    if IsDigit(r) && m.cursor < 10 then
      var col := if m.cursor == 2 || m.cursor == 5 then m.cursor + 1 else m.cursor;
      var c := col + 1;
      var t := m.text[col := r];
      Mask(t, if c == 2 || c == 5 then c + 1 else c)
    else m
  }

  // ---------------------------------------------------------------------------
  // Reading and writing the three fields

  /** strconv.Atoi of a field, 0 when it does not parse (getDay and friends). */
  function FieldValue(s: string): int
  {
    match Atoi(s)
    case Some(v) => v
    case None => 0
  }

  lemma FieldOfCells(s: string)
    ensures CellChars(s) && |s| > 0 ==> FieldValue(s) == if AllDigits(s) then DigitsValue(s) else 0
    ensures AllDigits(s) ==> DigitsValue(s) < Pow10(|s|)
  {
    if AllDigits(s) {
      DigitsValueBound(s);
      if |s| > 0 {
        AtoiDigits(s);
      }
    }
    if CellChars(s) && |s| > 0 && !AllDigits(s) {
      assert s[0] != '+' && s[0] != '-';
    }
  }

  /** DateEntry.getDay: the value of the day cells, 0 when one is blank. */
  function DayOf(t: string): (r: int)
    requires Shaped(t)
    ensures 0 <= r < 100
  {
    if AllDigits(t[..2]) then DigitsValue2(t[..2]) else 0
  }

  /** DateEntry.getMonth: the value of the month cells, 0 when one is blank. */
  function MonthOf(t: string): (r: int)
    requires Shaped(t)
    ensures 0 <= r < 100
  {
    if AllDigits(t[3..5]) then DigitsValue2(t[3..5]) else 0
  }

  /** DateEntry.getYear: the value of the year cells, 0 when one is blank. */
  function YearOf(t: string): (r: int)
    requires Shaped(t)
    ensures 0 <= r < 10000
  {
    if AllDigits(t[6..]) then DigitsValue4(t[6..]) else 0
  }

  function DigitsValue2(s: string): (v: nat)
    requires |s| == 2 && AllDigits(s)
    ensures v == DigitsValue(s) && v < 100
  {
    DigitsValueBound(s);
    DigitsValue(s)
  }

  function DigitsValue4(s: string): (v: nat)
    requires |s| == 4 && AllDigits(s)
    ensures v == DigitsValue(s) && v < 10000
  {
    DigitsValueBound(s);
    DigitsValue(s)
  }

  /** The getters are strconv.Atoi of their cells, with 0 for a field that
      does not parse. */
  lemma GettersAreAtoi(t: string)
    requires Shaped(t)
    ensures DayOf(t) == FieldValue(t[..2])
    ensures MonthOf(t) == FieldValue(t[3..5])
    ensures YearOf(t) == FieldValue(t[6..])
  {
    FieldsOfShaped(t);
    FieldOfCells(t[..2]);
    FieldOfCells(t[3..5]);
    FieldOfCells(t[6..]);
  }

  /** The last day of the month setDay uses: the month's length for a month
      1..12 of a year other than 0, 30 when the month field is not a month,
      and 28 for February of year 0. */
  function MaxDay(t: string): (n: int)
    requires Shaped(t)
    ensures 28 <= n <= 31
  {
    var month := MonthOf(t);
    if month in {4, 6, 9, 11} then 30
    else if month in {1, 3, 5, 7, 8, 10, 12} then 31
    else if month == 2 then
      var year := YearOf(t);
      if year == 0 then 28
      else if year % 400 == 0 || (year % 4 == 0 && year % 100 != 0) then 29
      else 28
    else 30
  }

  /** MaxDay agrees with the calendar's month lengths for a month 1..12 of a
      year other than 0. */
  lemma MaxDayIsDaysIn(t: string)
    requires Shaped(t)
    ensures 1 <= MonthOf(t) <= 12 && YearOf(t) != 0 ==> MaxDay(t) == DaysIn(YearOf(t), MonthOf(t))
    ensures !(1 <= MonthOf(t) <= 12) ==> MaxDay(t) == 30
    ensures MonthOf(t) == 2 && YearOf(t) == 0 ==> MaxDay(t) == 28
  {
  }

  /** DateEntry.setDay: a day past the end of the month becomes 1 (loop) or
      the last day, a day before 1 becomes the last day (loop) or 1. Only the
      day field is rewritten. */
  function WithDay(t: string, day: int, loop: bool): (r: string)
    requires Shaped(t)
    ensures Shaped(r) && r[2..] == t[2..] && AllDigits(r[..2])
    ensures MonthOf(r) == MonthOf(t) && YearOf(r) == YearOf(t) && MaxDay(r) == MaxDay(t)
    ensures 1 <= DayOf(r) <= MaxDay(t)
    ensures 1 <= day <= MaxDay(t) ==> DayOf(r) == day
    ensures day > MaxDay(t) ==> DayOf(r) == if loop then 1 else MaxDay(t)
    ensures day < 1 ==> DayOf(r) == if loop then MaxDay(t) else 1
  {
    var maxDay := MaxDay(t);
    var d1 := if day > maxDay then (if loop then 1 else maxDay) else day;
    var d2 := if d1 < 1 then (if loop then maxDay else 1) else d1;
    var r := Pad2(d2) + t[2..];
    assert r[..2] == Pad2(d2) && r[2..] == t[2..];
    assert r[3..5] == t[3..5] && r[6..] == t[6..];
    assert r[2] == '/' && r[5] == '/';
    r
  }

  /** DateEntry.setMonth: 13 and above become 1 (loop) or 12, 0 and below
      become 12 (loop) or 1. Only the month field is rewritten. */
  function WithMonth(t: string, month: int, loop: bool): (r: string)
    requires Shaped(t)
    ensures Shaped(r) && r[..3] == t[..3] && r[5..] == t[5..] && AllDigits(r[3..5])
    ensures DayOf(r) == DayOf(t) && YearOf(r) == YearOf(t)
    ensures 1 <= MonthOf(r) <= 12
    ensures 1 <= month <= 12 ==> MonthOf(r) == month
    ensures month > 12 ==> MonthOf(r) == if loop then 1 else 12
    ensures month < 1 ==> MonthOf(r) == if loop then 12 else 1
  {
    var m1 := if month > 12 then (if loop then 1 else 12) else month;
    var m2 := if m1 < 1 then (if loop then 12 else 1) else m1;
    var r := t[..3] + Pad2(m2) + t[5..];
    assert r[..3] == t[..3] && r[3..5] == Pad2(m2) && r[5..] == t[5..];
    assert r[..2] == t[..2] && r[6..] == t[6..];
    r
  }

  /** DateEntry.setYear: the year is clamped to 1..9999. Only the year field
      is rewritten. */
  function WithYear(t: string, year: int): (r: string)
    requires Shaped(t)
    ensures Shaped(r) && r[..6] == t[..6] && AllDigits(r[6..])
    ensures DayOf(r) == DayOf(t) && MonthOf(r) == MonthOf(t)
    ensures 1 <= YearOf(r) <= 9999
    ensures 1 <= year <= 9999 ==> YearOf(r) == year
    ensures year > 9999 ==> YearOf(r) == 9999
    ensures year < 1 ==> YearOf(r) == 1
  {
    var y1 := if year > 9999 then 9999 else year;
    var y2 := if y1 < 1 then 1 else y1;
    var r := t[..6] + Pad4(y2);
    assert r[..6] == t[..6] && r[6..] == Pad4(y2);
    assert r[..2] == t[..2] && r[3..5] == t[3..5];
    r
  }

  // ---------------------------------------------------------------------------
  // Keys

  /** KeyRight: one column right, at most 10, jumping over a slash. */
  function MoveRight(c: int): (c': int)
    requires 0 <= c <= 10
    ensures 0 <= c' <= 10 && c' != 2 && c' != 5
    ensures c < 10 ==> c < c'
    ensures c' == 10 <==> c >= 9
  {
    var n := if c + 1 >= 10 then 10 else c + 1;
    if n == 2 || n == 5 then n + 1 else n
  }

  /** KeyLeft: one column left, at least 0, jumping over a slash. */
  function MoveLeft(c: int): (c': int)
    requires 0 <= c <= 10
    ensures 0 <= c' <= 10 && c' != 2 && c' != 5
    ensures c > 0 ==> c' < c
    ensures c' == 0 <==> c <= 1
  {
    var n := if c - 1 <= 0 then 0 else c - 1;
    if n == 2 || n == 5 then n - 1 else n
  }

  /** KeyBackspace: the cell left of the cursor, if it is not a slash, becomes
      '_'; the cursor moves left (past a slash it lands next to). */
  function Backspace(m: Mask): (m': Mask)
    requires Wellformed(m)
    ensures Wellformed(m')
    ensures m.cursor == 0 ==> m' == m
    ensures m.cursor > 0 ==> m'.cursor < m.cursor && m'.cursor != 3 && m'.cursor != 6
    ensures IsCell(m.cursor - 1) ==> m'.text == m.text[m.cursor - 1 := '_']
    ensures !IsCell(m.cursor - 1) ==> m'.text == m.text
  {
    var c := m.cursor;
    if c in {10, 9, 8, 7, 5, 4, 2, 1} then
      var t := m.text[c - 1 := '_'];
      Mask(t, if c - 1 == 3 || c - 1 == 6 then c - 2 else c - 1)
    else if c == 3 || c == 6 then Mask(m.text, c - 1)
    else m
  }

  /** KeyUp (delta 1) and KeyDown (delta -1): step the field under the cursor;
      day and month wrap around, the year is clamped. */
  function StepField(m: Mask, delta: int): (m': Mask)
    requires Wellformed(m)
    ensures Wellformed(m') && m'.cursor == m.cursor
  {
    if m.cursor <= 2 then Mask(WithDay(m.text, DayOf(m.text) + delta, true), m.cursor)
    else if m.cursor <= 5 then Mask(WithMonth(m.text, MonthOf(m.text) + delta, true), m.cursor)
    else Mask(WithYear(m.text, YearOf(m.text) + delta), m.cursor)
  }

  lemma BlankShaped()
    ensures Shaped(Blank)
  {
    assert forall i :: 0 <= i < 10 && i != 2 && i != 5 ==> Blank[i] == '_';
  }

  /** DateEntry.TypedKey once the hook has let the key through. */
  function KeyStep(m: Mask, k: Key): (m': Mask)
    requires Wellformed(m)
    ensures Wellformed(m')
    ensures k.KeyLeft? || k.KeyRight? ==> m'.text == m.text && m'.cursor != 2 && m'.cursor != 5
    ensures k.KeyUp? || k.KeyDown? ==> m'.cursor == m.cursor
    ensures k.KeyDelete? || k.KeyEscape? ==> m' == Mask(Blank, 0)
    ensures !(k.KeyLeft? || k.KeyRight? || k.KeyUp? || k.KeyDown? || k.KeyBackspace? || k.KeyDelete? || k.KeyEscape?) ==> m' == m
  {
    BlankShaped();
    match k
    case KeyRight => Mask(m.text, MoveRight(m.cursor))
    case KeyLeft => Mask(m.text, MoveLeft(m.cursor))
    case KeyUp | KeyDown => StepField(m, if k.KeyUp? then 1 else -1)
    case KeyBackspace => Backspace(m)
    case KeyDelete => Mask(Blank, 0)
    case KeyEscape => Mask(Blank, 0)
    case _ => m
  }

  /** The keys after which TypedKey calls the change handler. */
  predicate Notifies(k: Key)
  {
    k.KeyUp? || k.KeyDown? || k.KeyBackspace? || k.KeyDelete? || k.KeyEscape?
  }

  /** Two digit fields of the same length and value are the same text. */
  lemma SameField(a: string, b: string)
    requires |a| == |b| && (|a| == 2 || |a| == 4) && AllDigits(a) && AllDigits(b)
    requires DigitsValue(a) == DigitsValue(b)
    ensures a == b
  {
    if |a| == 2 {
      Pad2Canonical(a);
      Pad2Canonical(b);
    } else {
      Pad4Canonical(a);
      Pad4Canonical(b);
    }
  }

  /** The field under the cursor holds a value inside its range. */
  predicate FieldInRange(m: Mask, yearLo: int, yearHi: int)
    requires Wellformed(m)
  {
    if m.cursor <= 2 then AllDigits(m.text[..2]) && 1 <= DayOf(m.text) <= MaxDay(m.text)
    else if m.cursor <= 5 then AllDigits(m.text[3..5]) && 1 <= MonthOf(m.text) <= 12
    else AllDigits(m.text[6..]) && yearLo <= YearOf(m.text) <= yearHi
  }

  lemma RebuildText(t: string, r: string)
    requires |t| == 10 && |r| == 10
    requires t[..2] == r[..2] && t[2..] == r[2..]
    ensures t == r
  {
    assert t == t[..2] + t[2..];
    assert r == r[..2] + r[2..];
  }

  lemma {:induction false} DayRoundTrip(t: string, delta: int)
    requires Shaped(t) && AllDigits(t[..2]) && 1 <= DayOf(t) <= MaxDay(t)
    requires delta == 1 || delta == -1
    ensures var t1 := WithDay(t, DayOf(t) + delta, true); WithDay(t1, DayOf(t1) - delta, true) == t
  {
    var t1 := WithDay(t, DayOf(t) + delta, true);
    var t2 := WithDay(t1, DayOf(t1) - delta, true);
    SameField(t2[..2], t[..2]);
    RebuildText(t2, t);
  }

  lemma {:induction false} MonthRoundTrip(t: string, delta: int)
    requires Shaped(t) && AllDigits(t[3..5]) && 1 <= MonthOf(t) <= 12
    requires delta == 1 || delta == -1
    ensures var t1 := WithMonth(t, MonthOf(t) + delta, true); WithMonth(t1, MonthOf(t1) - delta, true) == t
  {
    var t1 := WithMonth(t, MonthOf(t) + delta, true);
    var t2 := WithMonth(t1, MonthOf(t1) - delta, true);
    SameField(t2[3..5], t[3..5]);
    assert t2 == t2[..3] + t2[3..5] + t2[5..];
    assert t == t[..3] + t[3..5] + t[5..];
  }

  lemma {:induction false} YearRoundTrip(t: string, delta: int)
    requires Shaped(t) && AllDigits(t[6..])
    requires delta == 1 || delta == -1
    requires 1 <= YearOf(t) <= 9999 && 1 <= YearOf(t) + delta <= 9999
    ensures var t1 := WithYear(t, YearOf(t) + delta); WithYear(t1, YearOf(t1) - delta) == t
  {
    var t1 := WithYear(t, YearOf(t) + delta);
    var t2 := WithYear(t1, YearOf(t1) - delta);
    SameField(t2[6..], t[6..]);
    assert t2 == t2[..6] + t2[6..];
    assert t == t[..6] + t[6..];
  }

  /** One step on the day field, its result named. */
  lemma DayStep(m: Mask, delta: int, t: string)
    requires Wellformed(m) && m.cursor <= 2
    requires t == WithDay(m.text, DayOf(m.text) + delta, true)
    ensures StepField(m, delta) == Mask(t, m.cursor)
  {
  }

  /** Two steps on the day field, written out. */
  lemma DayStepTwice(m: Mask, delta: int, t1: string, t2: string)
    requires Wellformed(m) && m.cursor <= 2
    requires t1 == WithDay(m.text, DayOf(m.text) + delta, true)
    requires t2 == WithDay(t1, DayOf(t1) - delta, true)
    ensures StepField(StepField(m, delta), -delta) == Mask(t2, m.cursor)
  {
    DayStep(m, delta, t1);
    DayStep(StepField(m, delta), -delta, t2);
  }

  lemma {:induction false} DayStepRoundTrip(m: Mask, delta: int)
    requires Wellformed(m) && m.cursor <= 2 && (delta == 1 || delta == -1)
    requires AllDigits(m.text[..2]) && 1 <= DayOf(m.text) <= MaxDay(m.text)
    ensures StepField(StepField(m, delta), -delta) == m
  {
    var t1 := WithDay(m.text, DayOf(m.text) + delta, true);
    var t2 := WithDay(t1, DayOf(t1) - delta, true);
    DayStepTwice(m, delta, t1, t2);
    DayRoundTrip(m.text, delta);
  }

  lemma {:induction false} MonthStepRoundTrip(m: Mask, delta: int)
    requires Wellformed(m) && 2 < m.cursor <= 5 && (delta == 1 || delta == -1)
    requires AllDigits(m.text[3..5]) && 1 <= MonthOf(m.text) <= 12
    ensures StepField(StepField(m, delta), -delta) == m
  {
    var t1 := WithMonth(m.text, MonthOf(m.text) + delta, true);
    var t2 := WithMonth(t1, MonthOf(t1) - delta, true);
    MonthStepTwice(m, delta, t1, t2);
    MonthRoundTrip(m.text, delta);
  }

  lemma MonthStep(m: Mask, delta: int, t: string)
    requires Wellformed(m) && 2 < m.cursor <= 5
    requires t == WithMonth(m.text, MonthOf(m.text) + delta, true)
    ensures StepField(m, delta) == Mask(t, m.cursor)
  {
  }

  lemma MonthStepTwice(m: Mask, delta: int, t1: string, t2: string)
    requires Wellformed(m) && 2 < m.cursor <= 5
    requires t1 == WithMonth(m.text, MonthOf(m.text) + delta, true)
    requires t2 == WithMonth(t1, MonthOf(t1) - delta, true)
    ensures StepField(StepField(m, delta), -delta) == Mask(t2, m.cursor)
  {
    MonthStep(m, delta, t1);
    MonthStep(StepField(m, delta), -delta, t2);
  }

  lemma {:induction false} YearStepRoundTrip(m: Mask, delta: int)
    requires Wellformed(m) && 5 < m.cursor && (delta == 1 || delta == -1)
    requires AllDigits(m.text[6..]) && 1 <= YearOf(m.text) <= 9999 && 1 <= YearOf(m.text) + delta <= 9999
    ensures StepField(StepField(m, delta), -delta) == m
  {
    var t1 := WithYear(m.text, YearOf(m.text) + delta);
    var t2 := WithYear(t1, YearOf(t1) - delta);
    YearStepTwice(m, delta, t1, t2);
    YearRoundTrip(m.text, delta);
  }

  lemma YearStep(m: Mask, delta: int, t: string)
    requires Wellformed(m) && 5 < m.cursor
    requires t == WithYear(m.text, YearOf(m.text) + delta)
    ensures StepField(m, delta) == Mask(t, m.cursor)
  {
  }

  lemma YearStepTwice(m: Mask, delta: int, t1: string, t2: string)
    requires Wellformed(m) && 5 < m.cursor
    requires t1 == WithYear(m.text, YearOf(m.text) + delta)
    requires t2 == WithYear(t1, YearOf(t1) - delta)
    ensures StepField(StepField(m, delta), -delta) == Mask(t2, m.cursor)
  {
    YearStep(m, delta, t1);
    YearStep(StepField(m, delta), -delta, t2);
  }

  lemma {:induction false} StepRoundTrip(m: Mask, delta: int)
    requires Wellformed(m) && (delta == 1 || delta == -1)
    requires FieldInRange(m, if delta < 0 then 2 else 1, if delta < 0 then 9999 else 9998)
    ensures StepField(StepField(m, delta), -delta) == m
  {
    if m.cursor <= 2 {
      DayStepRoundTrip(m, delta);
    } else if m.cursor <= 5 {
      MonthStepRoundTrip(m, delta);
    } else {
      YearStepRoundTrip(m, delta);
    }
  }

  /** KeyUp then KeyDown gives back the mask, as long as the field under the
      cursor holds an in-range value (and the year is below 9999). */
  lemma {:induction false} UpThenDown(m: Mask)
    requires Wellformed(m) && FieldInRange(m, 1, 9998)
    ensures KeyStep(KeyStep(m, KeyUp), KeyDown) == m
  {
    StepRoundTrip(m, 1);
  }

  /** KeyDown then KeyUp gives back the mask, as long as the field under the
      cursor holds an in-range value (and the year is above 1). */
  lemma {:induction false} DownThenUp(m: Mask)
    requires Wellformed(m) && FieldInRange(m, 2, 9999)
    ensures KeyStep(KeyStep(m, KeyDown), KeyUp) == m
  {
    StepRoundTrip(m, -1);
  }

  // ---------------------------------------------------------------------------
  // The date the text stands for

  /** time.ParseInLocation("02/01/2006", t, time.Local) with the error folded
      into the zero time: two-digit day, two-digit month, four-digit year, the
      month in 1..12 and the day inside the month. */
  function ParseDate(t: string): (d: Date)
    ensures d == Zero || (ValidDate(d) && 0 <= d.year <= 9999)
    ensures d != Zero ==> Shaped(t) && AllDigits(t[..2]) && AllDigits(t[3..5]) && AllDigits(t[6..])
  {
    if |t| == 10 && t[2] == '/' && t[5] == '/' && AllDigits(t[..2]) && AllDigits(t[3..5]) && AllDigits(t[6..]) then
      DigitsValueBound(t[6..]);
      var d := Date(DigitsValue(t[6..]), DigitsValue(t[3..5]), DigitsValue(t[..2]));
      if 1 <= d.month <= 12 && 1 <= d.day <= DaysIn(d.year, d.month) then d else Zero
    else Zero
  }

  /** DateEntry.GetText: the text when it holds a date other than the zero one, "" otherwise. */
  function TextOf(t: string): (r: string)
    ensures r == "" || (r == t && ParseDate(t) != Zero)
    ensures ParseDate(t) != Zero ==> r == t
  {
    if ParseDate(t) == Zero then "" else t
  }

  /** time.Time.Format("02/01/2006") for a year of at most four digits. */
  function Format(d: Date): (t: string)
    requires ValidDate(d) && 0 <= d.year <= 9999
    ensures |t| == 10
  {
    Pad2(d.day) + "/" + Pad2(d.month) + "/" + Pad4(d.year)
  }

  /** Formatting a date and parsing it back gives the same date. */
  lemma {:induction false} ParseFormat(d: Date)
    requires ValidDate(d) && 0 <= d.year <= 9999
    ensures ParseDate(Format(d)) == d
  {
    var t := Format(d);
    assert t[..2] == Pad2(d.day) && t[3..5] == Pad2(d.month) && t[6..] == Pad4(d.year);
  }

  /** A text that parses to a date other than the zero one is exactly that
      date's formatted form. */
  lemma {:induction false} FormatParse(t: string)
    requires ParseDate(t) != Zero
    ensures Format(ParseDate(t)) == t
  {
    var d := ParseDate(t);
    var f := Format(d);
    assert f[..2] == Pad2(d.day) && f[3..5] == Pad2(d.month) && f[6..] == Pad4(d.year);
    SameField(f[..2], t[..2]);
    SameField(f[3..5], t[3..5]);
    SameField(f[6..], t[6..]);
    assert f == f[..2] + "/" + f[3..5] + "/" + f[6..];
    assert t == t[..2] + "/" + t[3..5] + "/" + t[6..];
  }

  // ---------------------------------------------------------------------------
  // Typing a whole string (SetText and paste)

  /** The runes of s that the hook lets through, in order. */
  function Kept(s: string, hook: Option<char -> bool>): (r: string)
    ensures |r| <= |s|
  {
    if s == [] then []
    else Kept(s[..|s| - 1], hook) + (if Blocks(hook, s[|s| - 1]) then [] else [s[|s| - 1]])
  }

  /** DateEntry.TypedRune applied to each rune of s in turn. */
  function Replay(m: Mask, s: string, hook: Option<char -> bool>): (m': Mask)
    requires Wellformed(m)
    ensures Wellformed(m')
  {
    if s == [] then m
    else
      var prev := Replay(m, s[..|s| - 1], hook);
      if Blocks(hook, s[|s| - 1]) then prev else TypeRune(prev, s[|s| - 1])
  }

  /** Column of the j-th cell. */
  function CellColumn(j: int): int
  {
    if j < 2 then j else if j < 4 then j + 1 else j + 2
  }

  /** Position among the cells of column i. */
  function CellIndex(i: int): int
  {
    if i < 2 then i else if i < 5 then i - 1 else i - 2
  }

  /** The mask with its first |ds| cells holding ds and the rest blank. */
  function Fill(ds: string): (t: string)
    requires |ds| <= 8 && AllDigits(ds)
    ensures |t| == 10
    ensures forall i :: 0 <= i < 10 ==> t[i] == if IsCell(i) && CellIndex(i) < |ds| then ds[CellIndex(i)] else Blank[i]
  {
    seq(10, i requires 0 <= i < 10 => if IsCell(i) && CellIndex(i) < |ds| then ds[CellIndex(i)] else Blank[i])
  }

  lemma FillShaped(ds: string)
    requires |ds| <= 8 && AllDigits(ds)
    ensures Shaped(Fill(ds))
  {
  }

  /** Where the cursor stands after n digits were typed into a blank mask. */
  function CursorAfter(n: int): int
  {
    if n >= 8 then 10 else CellColumn(n)
  }

  function Filled(ds: string): (m: Mask)
    requires |ds| <= 8 && AllDigits(ds)
    ensures Wellformed(m)
  {
    FillShaped(ds);
    Mask(Fill(ds), CursorAfter(|ds|))
  }

  /** The first eight runes of s. */
  function Take8(s: string): (r: string)
    ensures |r| <= 8
  {
    if |s| <= 8 then s else s[..8]
  }

  lemma {:induction false} TypeIntoFilled(ds: string, c: char)
    requires |ds| < 8 && AllDigits(ds) && IsDigit(c)
    ensures TypeRune(Filled(ds), c) == Filled(ds + [c])
  {
    var m := TypeRune(Filled(ds), c);
    var e := ds + [c];
    forall i | 0 <= i < 10
      ensures m.text[i] == Fill(e)[i]
    {
    }
  }

  lemma FilledFull(ds: string, c: char)
    requires |ds| == 8 && AllDigits(ds)
    ensures TypeRune(Filled(ds), c) == Filled(ds)
  {
  }

  /** Typing s into a mask whose first cells hold ds fills the following cells
      with the digits of s the hook lets through, up to the eighth cell; every
      other rune and every digit past the eighth is ignored. */
  lemma {:induction false} ReplayFilled(ds: string, s: string, hook: Option<char -> bool>)
    requires |ds| <= 8 && AllDigits(ds)
    ensures AllDigits(ds + DigitsOf(Kept(s, hook)))
    ensures Replay(Filled(ds), s, hook) == Filled(Take8(ds + DigitsOf(Kept(s, hook))))
  {
    DigitsAppend(ds, DigitsOf(Kept(s, hook)));
    if s != [] {
      ReplayFilled(ds, s[..|s| - 1], hook);
      ReplayFilledStep(ds, s, hook);
    }
  }

  lemma DigitsAppend(a: string, b: string)
    requires AllDigits(a) && AllDigits(b)
    ensures AllDigits(a + b)
  {
    assert forall i :: 0 <= i < |a + b| ==> (a + b)[i] == if i < |a| then a[i] else b[i - |a|];
  }

  /** The last rune of s, typed after the others. */
  lemma ReplayFilledStep(ds: string, s: string, hook: Option<char -> bool>)
    requires |ds| <= 8 && AllDigits(ds) && s != []
    requires Replay(Filled(ds), s[..|s| - 1], hook) == Filled(Take8(ds + DigitsOf(Kept(s[..|s| - 1], hook))))
    ensures Replay(Filled(ds), s, hook) == Filled(Take8(ds + DigitsOf(Kept(s, hook))))
  {
    var s', c := s[..|s| - 1], s[|s| - 1];
    var prevAll := ds + DigitsOf(Kept(s', hook));
    var all := ds + DigitsOf(Kept(s, hook));
    var blocked := Blocks(hook, c);
    var added := if blocked then [] else [c];
    DigitsAppend(ds, DigitsOf(Kept(s', hook)));
    assert Kept(s, hook) == Kept(s', hook) + added;
    DigitsOfAppend(Kept(s', hook), added);
    assert DigitsOf(Kept(s, hook)) == DigitsOf(Kept(s', hook)) + DigitsOf(added);
    ConcatAssoc(ds, DigitsOf(Kept(s', hook)), DigitsOf(added));
    DigitsAppend(ds, DigitsOf(Kept(s, hook)));
    assert AllDigits(Take8(all));
    var e := Take8(prevAll);
    FilledStep(e, c, blocked, prevAll, all);
    assert Replay(Filled(ds), s, hook) == (if blocked then Filled(e) else TypeRune(Filled(e), c)) by {
      ReplayLast(Filled(ds), s, hook);
    }
  }

  /** Replay types the last rune of s after the others. */
  lemma ReplayLast(m: Mask, s: string, hook: Option<char -> bool>)
    requires Wellformed(m) && s != []
    ensures var prev := Replay(m, s[..|s| - 1], hook);
      Replay(m, s, hook) == if Blocks(hook, s[|s| - 1]) then prev else TypeRune(prev, s[|s| - 1])
  {
  }

  /** One rune after a filled prefix: a digit the hook lets through fills the
      next cell while fewer than eight are filled; anything else changes
      nothing. */
  lemma FilledStep(e: string, c: char, blocked: bool, prevAll: string, all: string)
    requires AllDigits(prevAll) && e == Take8(prevAll)
    requires all == prevAll + DigitsOf(if blocked then [] else [c])
    ensures AllDigits(e) && |e| <= 8
    ensures (if blocked then Filled(e) else TypeRune(Filled(e), c)) == Filled(Take8(all))
  {
    assert AllDigits(e);
    if !blocked && IsDigit(c) {
      assert DigitsOf([c]) == [c];
      if |e| < 8 {
        TypeIntoFilled(e, c);
        assert Take8(all) == e + [c];
      } else {
        assert Take8(all) == e;
      }
    } else {
      assert DigitsOf(if blocked then [] else [c]) == [];
      assert all == prevAll;
    }
  }

  lemma {:induction false} KeptNoHook(s: string)
    ensures Kept(s, None) == s
  {
    if s != [] {
      KeptNoHook(s[..|s| - 1]);
      assert s[..|s| - 1] + [s[|s| - 1]] == s;
    }
  }

  lemma FilledEmpty()
    ensures Filled([]) == Mask(Blank, 0)
  {
    assert Fill([]) == Blank;
  }

  /** SetText of a string: the mask holds, from the left, the first eight
      digits among the runes the hook lets through. */
  lemma SetTextTakesDigits(s: string, hook: Option<char -> bool>)
    ensures AllDigits(DigitsOf(Kept(s, hook)))
    ensures Wellformed(Mask(Blank, 0))
    ensures Replay(Mask(Blank, 0), s, hook) == Filled(Take8(DigitsOf(Kept(s, hook))))
  {
    FilledEmpty();
    ReplayFilled([], s, hook);
    assert [] + DigitsOf(Kept(s, hook)) == DigitsOf(Kept(s, hook));
  }

  lemma {:induction false} DigitsOfDate(s: string)
    requires ParseDate(s) != Zero
    ensures DigitsOf(s) == s[..2] + s[3..5] + s[6..]
  {
    assert s == (s[..2] + "/") + (s[3..5] + ("/" + s[6..]));
    DigitsOfAppend(s[..2] + "/", s[3..5] + ("/" + s[6..]));
    DigitsOfAppend(s[3..5], "/" + s[6..]);
    DigitsOfAppend(s[..2], "/");
    DigitsOfAppend("/", s[6..]);
    DigitsOfDigits(s[..2]);
    DigitsOfDigits(s[3..5]);
    DigitsOfDigits(s[6..]);
  }

  /** Without a rune hook, SetText of a text that holds a date puts back that
      very text, with the cursor after the year. */
  lemma {:induction false} SetTextOfDate(s: string)
    requires ParseDate(s) != Zero
    ensures Wellformed(Mask(Blank, 0))
    ensures Replay(Mask(Blank, 0), s, None) == Mask(s, 10)
  {
    SetTextTakesDigits(s, None);
    KeptNoHook(s);
    DigitsOfDate(s);
    var ds := s[..2] + s[3..5] + s[6..];
    assert Fill(ds) == s by {
      forall i | 0 <= i < 10
        ensures Fill(ds)[i] == s[i]
      {
      }
    }
  }

  /** SetText of eight bare digits writes them into the mask in order. */
  lemma {:induction false} SetTextOfDigits(s: string)
    requires |s| == 8 && AllDigits(s)
    ensures Wellformed(Mask(Blank, 0))
    ensures Replay(Mask(Blank, 0), s, None) == Mask(s[..2] + "/" + s[2..4] + "/" + s[4..], 10)
  {
    SetTextTakesDigits(s, None);
    KeptNoHook(s);
    DigitsOfDigits(s);
    assert Fill(s) == s[..2] + "/" + s[2..4] + "/" + s[4..];
  }

  // ---------------------------------------------------------------------------
  // The widget

  /** The handler's log: no two neighbours equal, and the first entry is not
      the zero date the handler starts from. */
  predicate ChangeLog(log: seq<Date>)
  {
    && (|log| > 0 ==> log[0] != Zero)
    && forall i :: 0 < i < |log| ==> log[i] != log[i - 1]
  }

  /** The last date reported, or the zero date when none was. */
  function LastOr(log: seq<Date>): Date
  {
    if log == [] then Zero else log[|log| - 1]
  }

  /** The handler's report of date d: appended when it differs from the last one. */
  function Report(log: seq<Date>, d: Date): (r: seq<Date>)
    requires ChangeLog(log)
    ensures ChangeLog(r) && LastOr(r) == d
    ensures r == log || r == log + [d]
    ensures r == log <==> d == LastOr(log)
  {
    if d != LastOr(log) then log + [d] else log
  }

  class DateEntry {
    var text: string
    var cursor: int
    /** lastValidTime. */
    var lastValid: Date
    /** The dates the handler reports, in order; each reaches OnChanged when one is set. */
    var changes: seq<Date>
    var runeHook: Option<char -> bool>
    var keyHook: Option<Key -> bool>
    var shortcutHook: Option<Shortcut -> bool>

    ghost predicate Valid()
      reads this
    {
      Wellformed(Mask(text, cursor)) && ChangeLog(changes) && lastValid == LastOr(changes)
    }

    function State(): Mask
      reads this
    {
      Mask(text, cursor)
    }

    /** NewDateEntry. */
    constructor ()
      ensures Valid()
      ensures text == Blank && cursor == 0 && lastValid == Zero && changes == []
      ensures runeHook == None && keyHook == None && shortcutHook == None
    {
      BlankShaped();
      text, cursor := Blank, 0;
      lastValid, changes := Zero, [];
      runeHook, keyHook, shortcutHook := None, None, None;
    }

    /** GetTime. */
    function GetTime(): Date
      reads this
    {
      ParseDate(text)
    }

    /** GetText. */
    function GetText(): string
      reads this
    {
      TextOf(text)
    }

    /** callOnChanged: the handler parses the text and reports the date when it
        differs from the last one. */
    method CallOnChanged()
      requires Valid()
      modifies this`lastValid, this`changes
      ensures Valid()
      ensures changes == Report(old(changes), ParseDate(text))
      ensures lastValid == ParseDate(text)
    {
      var tm := ParseDate(text);
      if tm != lastValid {
        changes := changes + [tm];
        lastValid := tm;
      }
    }

    /** TypedRune. */
    method TypedRune(r: char)
      requires Valid()
      modifies this`text, this`cursor, this`lastValid, this`changes
      ensures Valid()
      ensures State() == if Blocks(runeHook, r) then old(State()) else TypeRune(old(State()), r)
      ensures changes == if Blocks(runeHook, r) || !IsDigit(r) || old(cursor) == 10 then old(changes)
                         else Report(old(changes), ParseDate(text))
    {
      if Blocks(runeHook, r) {
        return;
      }
      if IsDigit(r) && 0 <= cursor <= 9 {
        var t := text;
        if cursor == 2 || cursor == 5 {
          cursor := cursor + 1;
        }
        t := t[cursor := r];
        cursor := cursor + 1;
        if cursor == 2 || cursor == 5 {
          cursor := cursor + 1;
        }
        text := t;
        CallOnChanged();
      }
    }

    /** The field setters operate on the text; getters read it. */
    method SetDay(day: int, loop: bool)
      requires Shaped(text)
      modifies this`text
      ensures text == WithDay(old(text), day, loop)
    {
      var maxDay := MaxDay(text);
      var d := day;
      if d > maxDay {
        d := if loop then 1 else maxDay;
      }
      if d < 1 {
        d := if loop then maxDay else 1;
      }
      text := Pad2(d) + text[2..];
    }

    method SetMonth(month: int, loop: bool)
      requires Shaped(text)
      modifies this`text
      ensures text == WithMonth(old(text), month, loop)
    {
      var m := month;
      if m > 12 {
        m := if loop then 1 else 12;
      }
      if m < 1 {
        m := if loop then 12 else 1;
      }
      text := text[..3] + Pad2(m) + text[5..];
    }

    method SetYear(year: int)
      requires Shaped(text)
      modifies this`text
      ensures text == WithYear(old(text), year)
    {
      var y := year;
      if y > 9999 {
        y := 9999;
      }
      if y < 1 {
        y := 1;
      }
      text := text[..6] + Pad4(y);
    }

    /** The Up/Down branch of TypedKey: step the field under the cursor. */
    method StepFieldAtCursor(delta: int)
      requires Wellformed(State())
      modifies this`text
      ensures State() == StepField(old(State()), delta)
    {
      if cursor <= 2 {
        StepDay(delta);
      } else if cursor <= 5 {
        StepMonth(delta);
      } else {
        StepYear(delta);
      }
    }

    /** setDay(getDay() + delta, true). */
    method StepDay(delta: int)
      requires Wellformed(State()) && cursor <= 2
      modifies this`text
      ensures State() == StepField(old(State()), delta)
    {
      ghost var m := State();
      var day := DayOf(text) + delta;
      SetDay(day, true);
      DayStep(m, delta, text);
    }

    /** setMonth(getMonth() + delta, true). */
    method StepMonth(delta: int)
      requires Wellformed(State()) && 2 < cursor <= 5
      modifies this`text
      ensures State() == StepField(old(State()), delta)
    {
      ghost var m := State();
      var month := MonthOf(text) + delta;
      SetMonth(month, true);
      MonthStep(m, delta, text);
    }

    /** setYear(getYear() + delta). */
    method StepYear(delta: int)
      requires Wellformed(State()) && 5 < cursor
      modifies this`text
      ensures State() == StepField(old(State()), delta)
    {
      ghost var m := State();
      var year := YearOf(text) + delta;
      SetYear(year);
      YearStep(m, delta, text);
    }

    /** The Backspace branch of TypedKey. */
    method BackspaceAtCursor()
      requires Wellformed(State())
      modifies this`text, this`cursor
      ensures State() == Backspace(old(State()))
    {
      var t := text;
      if cursor in {10, 9, 8, 7, 5, 4, 2, 1} {
        t := t[cursor - 1 := '_'];
        cursor := cursor - 1;
        if cursor == 3 || cursor == 6 {
          cursor := cursor - 1;
        }
      } else if cursor == 3 || cursor == 6 {
        cursor := cursor - 1;
      }
      text := t;
    }

    /** The cursor movement of KeyRight. */
    method CursorRight()
      requires 0 <= cursor <= 10
      modifies this`cursor
      ensures cursor == MoveRight(old(cursor))
    {
      cursor := cursor + 1;
      if cursor >= 10 {
        cursor := 10;
      }
      if cursor == 2 || cursor == 5 {
        cursor := cursor + 1;
      }
    }

    /** The cursor movement of KeyLeft. */
    method CursorLeft()
      requires 0 <= cursor <= 10
      modifies this`cursor
      ensures cursor == MoveLeft(old(cursor))
    {
      cursor := cursor - 1;
      if cursor <= 0 {
        cursor := 0;
      }
      if cursor == 2 || cursor == 5 {
        cursor := cursor - 1;
      }
    }

    /** TypedKey. */
    method TypedKey(k: Key)
      requires Valid()
      modifies this`text, this`cursor, this`lastValid, this`changes
      ensures Valid()
      ensures State() == if Blocks(keyHook, k) then old(State()) else KeyStep(old(State()), k)
      ensures changes == if Blocks(keyHook, k) || !Notifies(k) then old(changes)
                         else Report(old(changes), ParseDate(text))
    {
      if Blocks(keyHook, k) {
        return;
      }
      if k.KeyRight? {
        CursorRight();
      } else if k.KeyLeft? {
        CursorLeft();
      } else if Notifies(k) {
        EditKey(k);
      }
    }

    /** The branches of TypedKey that change the text: Up and Down step the
        field under the cursor, Backspace clears the cell before it, Delete
        and Escape blank the mask; each then calls the handler. */
    method EditKey(k: Key)
      requires Valid() && Notifies(k)
      modifies this`text, this`cursor, this`lastValid, this`changes
      ensures Valid()
      ensures State() == KeyStep(old(State()), k)
      ensures changes == Report(old(changes), ParseDate(text))
    {
      if k.KeyUp? || k.KeyDown? {
        StepFieldAtCursor(if k.KeyUp? then 1 else -1);
      } else if k.KeyBackspace? {
        BackspaceAtCursor();
      } else {
        BlankShaped();
        text, cursor := Blank, 0;
      }
      CallOnChanged();
    }

    /** SetText: a blank mask, then every rune of s typed in turn, then one
        more call of the handler. The date handed out last is the one the new
        text stands for; earlier reports are only appended. */
    method SetText(s: string)
      requires Valid()
      modifies this`text, this`cursor, this`lastValid, this`changes
      ensures Valid()
      ensures State() == Replay(Mask(Blank, 0), s, runeHook)
      ensures lastValid == ParseDate(text)
      ensures |old(changes)| <= |changes| && changes[..|old(changes)|] == old(changes)
    {
      BlankShaped();
      text, cursor := Blank, 0;
      for i := 0 to |s|
        invariant Valid()
        invariant State() == Replay(Mask(Blank, 0), s[..i], runeHook)
        invariant |old(changes)| <= |changes| && changes[..|old(changes)|] == old(changes)
      {
        assert s[..i + 1][..i] == s[..i];
        TypedRune(s[i]);
      }
      assert s[..|s|] == s;
      CallOnChanged();
    }

    /** TypedShortcut for a paste: unless the hook blocks it, every rune of the
        clipboard is typed in turn, then the handler runs once more. */
    method Paste(content: string)
      requires Valid()
      modifies this`text, this`cursor, this`lastValid, this`changes
      ensures Valid()
      ensures Blocks(shortcutHook, ShortcutPaste(content)) ==> State() == old(State()) && changes == old(changes)
      ensures !Blocks(shortcutHook, ShortcutPaste(content)) ==>
        State() == Replay(old(State()), content, runeHook) && lastValid == ParseDate(text)
      ensures |old(changes)| <= |changes| && changes[..|old(changes)|] == old(changes)
    {
      if Blocks(shortcutHook, ShortcutPaste(content)) {
        return;
      }
      ghost var start := State();
      for i := 0 to |content|
        invariant Valid()
        invariant State() == Replay(start, content[..i], runeHook)
        invariant |old(changes)| <= |changes| && changes[..|old(changes)|] == old(changes)
      {
        assert content[..i + 1][..i] == content[..i];
        TypedRune(content[i]);
      }
      assert content[..|content|] == content;
      CallOnChanged();
    }

    /** SetTime: the zero date blanks the mask, any other date is written out
        with the cursor at the end; the handler then runs. Reading the date
        back gives the date that was set. */
    method SetTime(d: Date)
      requires Valid() && ValidDate(d) && 0 <= d.year <= 9999
      modifies this`text, this`cursor, this`lastValid, this`changes
      ensures Valid()
      ensures State() == if d == Zero then Mask(Blank, 0) else Mask(Format(d), 10)
      ensures GetTime() == d && lastValid == d
      ensures changes == Report(old(changes), d)
    {
      BlankShaped();
      ParseFormat(d);
      if d == Zero {
        text, cursor := Blank, 0;
      } else {
        text, cursor := Format(d), 10;
      }
      CallOnChanged();
    }
  }
}
