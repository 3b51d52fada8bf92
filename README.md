# fynex-widgets core, modelled in Dafny

fynex-widgets is a set of GUI widgets built on the fyne toolkit. Most of its
files only forward calls to fyne. This project models the files that hold
their own logic over integers and strings, and proves properties of that
logic:

- **DateEntry** (`DateMask`, dateentry.dfy): a text entry whose text is the
  ten-character mask `dd/mm/yyyy`, initially `__/__/____`, edited through a
  cursor.
  - Digits fill the cells and skip the slashes.
  - Backspace blanks one cell.
  - Up and Down step the day, month or year under the cursor, with month
    lengths, the Gregorian leap-year rule, wrap-around and clamping.
  - A change handler reports the parsed date only when it differs from the
    last one reported.
- **Calendar** (`CalendarGrid`, calendar.dfy):
  - A month view of seven weekday headings, then blank spacers up to the
    weekday of the 1st, then one button per day.
  - At most one day button is highlighted.
  - Previous/next navigation.
  - The integer part of the grid layout.
- **NumEntry** (`NumFilter`, numentry.dfy): an entry that lets through
  - digits;
  - one decimal separator, stored as `,` (Float mode only);
  - a single leading sign that is replaced rather than stacked (Signed
    mode only).
  It also covers SetText by rune replay, SetInt and paste.
- **AutoComplete** (`Completion`, autocomplete.dfy): an entry with a pop-up
  list of suggestions.
  - The selection wraps around on Up/Down.
  - Enter or a click completes the text, may submit and may close the list.
  - Showing and hiding the list resets the selection.
- **EntryEx and SelectEntryEx** (`EntryGate`, `SelectEntryGate`), and the
  shared event decisions (`Events`):
  - read-only gating of runes, keys and shortcuts (cut becomes copy, paste
    is dropped);
  - hooks that block an event;
  - the rune and case modifiers.
- **InputFields and InputBox** (`FieldRegistry`, `InputBoxes`, and the
  shared widget values in `FormWidgets`): form registries.
  - An id-to-widget map and an insertion-order list, with duplicate
    suppression and generated ids for anonymous fields.
  - A string encoding per widget kind: `true`/`false` checks,
    `|`-joined check groups and nullable fields.
  - Tabs, OnReady-once, first-input focus, status and submit state.
- **Shared modules**:
  - `TextUtil` (text.dfy): digits, Go's `strconv.Itoa`/`Atoi`/`FormatBool`/`ParseBool`,
    `strings.Join`/`Split` on one separator, and `%02d`/`%04d`.
  - `Dates` (dates.dfy): proleptic Gregorian dates as Go's `time` package
    computes them.

**How the model treats fyne and callbacks.**

- Each fyne widget the code relies on is a plain record or a class field.
- The assumptions about fyne are stated where they are used:
  - `Entry.TypedRune` inserts at the cursor and advances it.
  - `Entry.SetText` fires OnChanged only when the text changes.
  - `List.Select(i)` fires OnUnselected/OnSelected only for a new row in
    range.
  - `Select.SetSelected` takes only a listed option.
  - `Check.SetChecked` fires only on a change.
- Callbacks are modelled as logs of the values they receive.
- OnTypedRune/OnTypedKey/OnTypedShortcut hooks are side-effect-free
  predicates (`None` for a nil hook).

**A behaviour of the code worth knowing.** NumEntry.SetText takes the
entry's change handler off while it replays the runes (numentry.go:91-99)
and calls it once at the end. The sign branch of TypedRune, however, calls
the user's `OnChanged` directly (numentry.go:159-164), so a sign inside the
text is also reported during the replay. The model does what the code does
(`NumFilter.SetTextSignedReportsSign`).

## Model

| member | source | states |
|---|---|---|
| NumFilter.Insert | numentry.go:146 | fyne's Entry.TypedRune as assumed: the rune lands at the cursor, the cursor moves one past it, and the text on either side is kept |
| NumFilter.EntrySetText | numentry.go:87 | fyne's Entry.SetText as assumed: the text is replaced and a cursor still inside it is kept |
| NumFilter.SignedText | numentry.go:214-227 | updateSign: a leading sign is replaced with the cursor kept; otherwise the sign is prepended and the cursor moves one right; an empty text becomes the sign alone with the cursor at 1 |
| NumFilter.TypeNum | numentry.go:133-167 | TypedRune on the pure state: the edit stays in range |
| NumFilter.InsertShape | numentry.go:139-157 | inserting a digit, or the first ',' behind any sign, keeps the text a well-formed number text |
| NumFilter.InsertAcceptable | numentry.go:139-157 | inserting a digit or (Float only) the first ',' behind any sign keeps the text within what the modes allow |
| NumFilter.SignedTextShape | numentry.go:214-227 | a sign put in front keeps the number shape and adds no ',' |
| NumFilter.TypeNumKeepsShape | numentry.go:133-167 | every rune keeps the text well formed, and keeps an acceptable text acceptable under the modes |
| NumFilter.IgnoredRune | numentry.go:138-166 | a rune that is not a digit, separator or sign changes nothing and calls nothing |
| NumFilter.ReadOnlyDropsRunes | numentry.go:133-136 | in read-only mode every rune is dropped |
| NumFilter.SeparatorRefused | numentry.go:148-149 | '.' or ',' is refused outside Float mode or once the text holds a ',' |
| NumFilter.SeparatorAccepted | numentry.go:148-157 | otherwise the separator is stored as exactly one ',' more, with every other character kept (multiset) |
| NumFilter.SignStaysFirst | numentry.go:138-165 | after any rune a signed text still starts with a sign, the same one unless a sign was typed; a typed sign replaces the old one; an accepted digit or separator typed at cursor 0 lands right behind the sign |
| NumFilter.TypeAll | numentry.go:95-98 | typing a string rune by rune keeps the edit in range |
| NumFilter.TypeKeepsDigits | numentry_test.go:9-22 | with neither Float nor Signed, typing any text into an empty entry keeps exactly its digits, with the cursor at the end |
| NumFilter.TypingMixedTextKeeps123 | numentry_test.go:9-22 | typing "123" surrounded by any digit-free text yields "123" |
| NumFilter.DigitAtEnd | numentry.go:139-146 | a digit typed at the end of the text is appended and reported |
| NumFilter.SeparatorAtEnd | numentry.go:148-156 | the first separator typed at the end in Float mode is appended as ',' and reported |
| NumFilter.OnChangedDigits | numentry_test.go:79-92 | typing "123" reports "1", "12", "123" |
| NumFilter.SignSteps | numentry_test.go:104-112 | '-' on "123,5" gives "-123,5" and '+' then gives "+123,5", each reported twice (updateSign's SetText and the direct OnChanged call) |
| NumFilter.OnChangedFraction | numentry_test.go:94-102 | "123.5" reports "123," then "123,5": the separator is stored as ',' |
| NumFilter.OnChangedMinus | numentry_test.go:104-107 | typing "123.5-" ends with text "-123,5" and the full report sequence |
| NumFilter.OnChangedSequence | numentry_test.go:79-112 | the whole typing sequence of the OnChanged test: text "+123,5" and every report in order |
| NumFilter.TypeAtEnd | numentry.go:133-167 | typing the next character of an acceptable text at its end appends it |
| NumFilter.TypeAcceptable | numentry.go:86-102 | every acceptable text typed into an empty entry is rebuilt exactly (the filter's image is exactly the acceptable texts) |
| NumFilter.TypeAllAcceptable | numentry.go:133-167 | typing any string into an acceptable text leaves an acceptable text |
| NumFilter.NumEntry.constructor | numentry.go:42-65 | NewNumEntry: empty text, cursor 0, handler installed, no hooks |
| NumFilter.NumEntry.Handler | numentry.go:45-48 | the installed handler passes the text on to OnChanged |
| NumFilter.NumEntry.BaseTypedRune | numentry.go:146 | the base entry's TypedRune on the object, reporting the new text while the handler is attached |
| NumFilter.NumEntry.BaseSetText | numentry.go:87 | the base entry's SetText on the object, reporting only a changed text |
| NumFilter.NumEntry.UpdateSign | numentry.go:214-227 | updateSign on the object: the state becomes SignedText; only the SetText branches report |
| NumFilter.NumEntry.TypedRune | numentry.go:133-167 | the new state and the reports are exactly those of TypeNum |
| NumFilter.NumEntry.SetText | numentry.go:86-102 | the entry is cleared; unless s is empty, s is replayed with the handler detached, the handler is restored and called once; the state is the replay's |
| NumFilter.NumEntry.TypeRunes | numentry.go:95-98 | the replay loop: state and reports equal TypeAll of the string |
| NumFilter.NumEntry.SetInt | numentry.go:104-112 | the text is Itoa(i) with the cursor at its end, and Atoi reads i back; the handler reports the new text, preceded by "" when 0 clears a non-empty text |
| NumFilter.NumEntry.Paste | numentry.go:193-208 | a paste is dropped when read-only or blocked by the hook; otherwise its runes are typed in turn |
| NumFilter.NumEntry.TypedKey | numentry.go:169-174 | a key reaches the base entry unless the hook blocks it |
| NumFilter.ItoaShape | numentry.go:108 | the decimal form of any integer is a well-formed number text without ',' |
| NumFilter.SetTextSignedReportsSign | numentry.go:159-164 | SetText("-20") with Signed replays to "-20" and reports "-" during the replay |
| Completion.DownTarget | autocomplete.go:358-363 | KeyDown's row: the next one, or 0 after the last row or with no selection; always inside a non-empty list |
| Completion.UpTarget | autocomplete.go:364-369 | KeyUp's row: the previous one, or the last row from row 0 or no selection; always inside the list |
| Completion.UpDownInverse | autocomplete.go:358-369 | on a non-empty list Up undoes Down and Down undoes Up on every row |
| Completion.DownAdvances | autocomplete.go:359-360 | before the last row each Down press moves one row on |
| Completion.DownCycles | autocomplete.go:358-363 | n Down presses on n rows return to the start row |
| Completion.CursorAfterCompletionAsWritten | autocomplete.go:252 | the column setTextFromList computes is the UTF-8 byte length, never less than the rune count |
| Completion.CursorPastEndOnNonAscii | autocomplete.go:252 | completing "é" puts the cursor at column 2 of a one-rune text |
| Completion.AutoComplete.Length | autocomplete.go:144-150 | data_length: len(Options) without CustomLength, else CustomLength's answer |
| Completion.AutoComplete.Complete | autocomplete.go:169-175 | data_complete: by default Options[id] with close = true, else CustomComplete |
| Completion.AutoComplete.constructor | autocomplete.go:52-64 | NewAutoComplete with the caller's options: empty text, nothing shown, no list yet |
| Completion.AutoComplete.Select | autocomplete.go:336-338 | List.Select with OnSelected: a row in range becomes the selection and `selected`; anything else changes nothing |
| Completion.AutoComplete.UnselectAll | autocomplete.go:339-341 | UnselectAll with OnUnselected: no selection and selected == -1 |
| Completion.AutoComplete.ListHide | autocomplete.go:210-215 | once the pop-up exists, the selection is dropped (-1) and the pop-up hidden; before that nothing changes |
| Completion.AutoComplete.ListVisible | autocomplete.go:218-220 | visible only when the pop-up exists |
| Completion.AutoComplete.ListShow | autocomplete.go:180-207 | nothing while paused or read-only; hides the list when the length is at most 0; off-canvas does nothing; otherwise the pop-up shows with row 0 selected |
| Completion.AutoComplete.SetText | autocomplete.go:223-229 | the text is set with the pop-up paused; a change is reported as paused |
| Completion.AutoComplete.SetTextFromList | autocomplete.go:247-264 | the completion becomes the text with the cursor at its end; submitted only when SubmitOnCompleted and OnSubmitted are set; hidden only when close |
| Completion.AutoComplete.TypedRune | autocomplete.go:105-113 | runes are dropped when read-only or blocked by the hook, else forwarded |
| Completion.AutoComplete.TypedKey | autocomplete.go:115-123 | keys are dropped when read-only or blocked, else forwarded |
| Completion.AutoComplete.TypedShortcut | autocomplete.go:125-138 | read-only drops a paste and turns a cut into a copy before the hook sees it |
| Completion.AutoComplete.SetReadOnly | autocomplete.go:76-83 | the flag is set and the list is hidden; with no pop-up yet, selection and visibility stay |
| Completion.AutoComplete.FocusLost | autocomplete.go:97-103 | the list is hidden |
| Completion.AutoComplete.ListTypedKey | autocomplete.go:356-382 | Down/Up select DownTarget/UpTarget; Enter/Return complete from a selection, or hide the list and forward the key; Tab/Escape only hide; other keys go to TypedKey; an Enter completion submits when SubmitOnCompleted and OnSubmitted are set and closes the list when the completion asks to; every other branch leaves the cursor and the submissions as they were, and nothing outside the list, text, cursor, submissions and keys changes |
| Completion.AutoComplete.ItemTapped | autocomplete.go:405-407 | tapping a row completes from it, submits as SetTextFromList does, and closes the list when the completion asks to |
| Completion.AutoComplete.ItemMouseIn | autocomplete.go:409 | the mouse entering a row in range selects it |
| Completion.ArrowKeysStayInList | autocomplete.go:358-369 | with the list shown, Down and Up keep the selection inside [0, length) |
| Events.ReadOnlyShortcut | entry.go:140-147 | read-only rewrite: paste refused, cut becomes copy, everything else kept |
| Events.ShortcutVerdict | entry.go:139-152 | the rewrite, then the hook on the rewritten shortcut; read-only never forwards a paste or a cut |
| Events.ReadOnlyCutIsCopy | autocomplete.go:125-138 | read-only: a cut reaches the widget as a copy unless the hook blocks the copy; a paste never reaches it |
| Events.RuneVerdict | entry.go:109-120 | read-only drops every rune; otherwise the modifier rewrites it and the hook sees the rewritten rune |
| Events.KeyVerdict | entry.go:122-137 | a key the read-only rule keeps is forwarded unchanged unless the hook blocks it |
| EntryGate.CaseModified | entry.go:62-67 | the case modifier applies only to a single-line entry |
| EntryGate.ReadOnlyForwardsNoEdit | entry.go:109-137 | a read-only EntryEx forwards no editing key and no rune, and no Tab while AcceptTab is set |
| EntryGate.ReadOnlyTab | entry.go:127-131 | Tab reaches a read-only entry exactly when AcceptTab is unset and the hook lets it through |
| EntryGate.EntryEx.constructor | entry.go:42-55 | NewEntryEx: multi-line exactly when minRows > 1; no OnChanged set |
| EntryGate.EntryEx.OnChanged | entry.go:62-71 | the modified text is stored (single line) and passed to OnChanged when one is set |
| EntryGate.EntryEx.AcceptsTab | entry.go:73-75 | AcceptsTab returns AcceptTab |
| EntryGate.EntryEx.SetText | entry.go:86-90 | cursor to row 0, column 0, then the base SetText, reporting through onChanged only on a change and only when OnChanged is set |
| EntryGate.EntryEx.FocusGained | entry.go:92-100 | ignored while read-only |
| EntryGate.EntryEx.TypedRune | entry.go:109-120 | what reaches the base entry is RuneVerdict's decision |
| EntryGate.EntryEx.TypedKey | entry.go:122-137 | what reaches the base entry is KeyVerdict's decision under the EntryEx read-only rule |
| EntryGate.EntryEx.TypedShortcut | entry.go:139-152 | what reaches the base entry is ShortcutVerdict's decision |
| SelectEntryGate.ReadOnlyForwardsNoEdit | selectentry.go:64-86 | read-only drops every rune and the editing keys, but lets Tab through unless the hook blocks it |
| SelectEntryGate.SelectEntryEx.constructor | selectentry.go:21-26 | NewSelectEntryEx: empty, editable, drop-down enabled, no OnChanged set |
| SelectEntryGate.SelectEntryEx.SetReadOnly | selectentry.go:29-36 | the drop-down button is disabled exactly while read-only |
| SelectEntryGate.SelectEntryEx.SetText | selectentry.go:38-42 | cursor to (0, 0); the text set and reported only on a change and only when OnChanged is set |
| SelectEntryGate.SelectEntryEx.FocusGained | selectentry.go:45-53 | ignored while read-only |
| SelectEntryGate.SelectEntryEx.TypedRune | selectentry.go:64-72 | read-only drops every rune; the hook may block |
| SelectEntryGate.SelectEntryEx.TypedKey | selectentry.go:75-86 | read-only drops Enter/Return/Backspace/Delete only; the hook may block |
| SelectEntryGate.SelectEntryEx.TypedShortcut | selectentry.go:88-101 | read-only drops a paste and turns a cut into a copy; the hook may block |
| DateMask.TypeRune | dateentry.go:190-208 | a digit at a cursor below 10 is written into the first cell at or after the cursor (the cursor's own cell, or the next one when the cursor is on a slash), and the cursor moves past it without resting on a slash; any other rune, or any rune at column 10, changes nothing; the shape is kept |
| DateMask.DayOf | dateentry.go:334-340 | getDay is a value in [0, 100) |
| DateMask.MonthOf | dateentry.go:360-366 | getMonth is a value in [0, 100) |
| DateMask.YearOf | dateentry.go:378-384 | getYear is a value in [0, 10000) |
| DateMask.GettersAreAtoi | dateentry.go:334-340 | each getter is strconv.Atoi of its field, 0 when it does not parse |
| DateMask.MaxDay | dateentry.go:300-317 | setDay's month length is between 28 and 31 |
| DateMask.MaxDayIsDaysIn | dateentry.go:300-317 | the month length of the calendar for a month 1..12 of a year other than 0; 30 for an unreadable month; 28 for February of year 0 |
| DateMask.WithDay | dateentry.go:299-333 | setDay: the day lands in [1, maxDay]; in range it is kept; overflow gives 1 (loop) or maxDay; underflow gives maxDay (loop) or 1; only the day cells change |
| DateMask.WithMonth | dateentry.go:342-359 | setMonth: in [1, 12]; 13 and above give 1 (loop) or 12; 0 and below give 12 (loop) or 1; only the month cells change |
| DateMask.WithYear | dateentry.go:368-377 | setYear: clamped to [1, 9999]; only the year cells change |
| DateMask.MoveRight | dateentry.go:217-224 | KeyRight: one column right, at most 10, never on a slash column |
| DateMask.MoveLeft | dateentry.go:225-232 | KeyLeft: one column left, at least 0, never on a slash column |
| DateMask.Backspace | dateentry.go:253-267 | the cell left of the cursor becomes '_' only when it is not a slash; the cursor moves left and never stops at 3 or 6 |
| DateMask.StepField | dateentry.go:233-252 | Up/Down keep the shape and the cursor |
| DateMask.BlankShaped | dateentry.go:46 | the blank mask has the mask's shape |
| DateMask.KeyStep | dateentry.go:216-274 | TypedKey on the pure state: Left/Right keep the text and never stop on a slash; Up/Down keep the cursor; Delete/Escape reset to the blank mask; other keys change nothing |
| DateMask.DayRoundTrip | dateentry.go:299-333 | with loop, on a day in [1, maxDay] a step of ±1 and back restores the text |
| DateMask.MonthRoundTrip | dateentry.go:342-359 | with loop, on a month in [1, 12] a step of ±1 and back restores the text |
| DateMask.YearRoundTrip | dateentry.go:368-377 | a step of the year by ±1 inside [1, 9999] and back restores the text |
| DateMask.DayStep | dateentry.go:235-236 | columns 0..2 step the day |
| DateMask.MonthStep | dateentry.go:237-238 | columns 3..5 step the month |
| DateMask.YearStep | dateentry.go:239-240 | columns 6..10 step the year |
| DateMask.DayStepRoundTrip | dateentry.go:233-252 | on a day in range, Up then Down (or Down then Up) on the day field restores the mask |
| DateMask.MonthStepRoundTrip | dateentry.go:233-252 | on a month in range, a step and its reverse on the month field restore the mask |
| DateMask.YearStepRoundTrip | dateentry.go:233-252 | on a year whose step stays in [1, 9999], a step and its reverse restore the mask |
| DateMask.StepRoundTrip | dateentry.go:233-252 | a step and its reverse restore the mask whenever the field under the cursor stays in range |
| DateMask.UpThenDown | dateentry.go:233-252 | KeyUp then KeyDown restores the mask when the field under the cursor holds a value it can step up from |
| DateMask.DownThenUp | dateentry.go:233-252 | KeyDown then KeyUp restores the mask when the field under the cursor holds a value it can step down from |
| DateMask.ParseDate | dateentry.go:138-141 | GetTime: the zero date or a valid date of a fully-digit mask text |
| DateMask.TextOf | dateentry.go:118-124 | GetText: the text exactly when it holds a non-zero date, "" otherwise |
| DateMask.Format | dateentry.go:131 | Format("02/01/2006") gives ten characters |
| DateMask.ParseFormat | dateentry.go:126-141 | formatting a date and parsing it back gives the date |
| DateMask.FormatParse | dateentry.go:118-124 | a text that parses to a non-zero date is exactly the formatted date |
| DateMask.Kept | dateentry.go:186-188 | the runes the hook lets through, never more than given |
| DateMask.Replay | dateentry.go:108-116 | SetText's rune loop keeps the mask's shape |
| DateMask.TypeIntoFilled | dateentry.go:190-208 | a digit typed after k < 8 typed digits fills cell k |
| DateMask.FilledFull | dateentry.go:192-194 | once all eight cells are typed, a further rune is ignored |
| DateMask.ReplayFilled | dateentry.go:108-116 | typing s after a filled prefix fills the next cells with the digits of s that the hook keeps, at most eight in all |
| DateMask.SetTextTakesDigits | dateentry.go:108-116 | SetText(s) holds the first eight kept digits of s from the left |
| DateMask.SetTextOfDate | dateentry.go:108-116 | SetText of a "dd/mm/yyyy" date text gives back that text with the cursor at 10 |
| DateMask.SetTextOfDigits | dateentry.go:108-116 | SetText of eight bare digits gives the same date with its slashes |
| DateMask.Report | dateentry.go:47-57 | the handler reports a date exactly when it differs from the last one reported, which it becomes |
| DateMask.DateEntry.constructor | dateentry.go:41-57 | NewDateEntry: blank mask, cursor 0, last date zero, nothing reported |
| DateMask.DateEntry.CallOnChanged | dateentry.go:104-106 | the handler parses the text and reports it by Report; the last date becomes the parsed one |
| DateMask.DateEntry.TypedRune | dateentry.go:185-209 | a blocked rune changes nothing; otherwise the state becomes TypeRune, and the handler reports by Report unless the rune is not a digit or the cursor was at 10 |
| DateMask.DateEntry.SetDay | dateentry.go:299-333 | the text becomes WithDay |
| DateMask.DateEntry.SetMonth | dateentry.go:342-359 | the text becomes WithMonth |
| DateMask.DateEntry.SetYear | dateentry.go:368-377 | the text becomes WithYear |
| DateMask.DateEntry.StepFieldAtCursor | dateentry.go:233-252 | the state becomes StepField of the old state |
| DateMask.DateEntry.StepDay | dateentry.go:235-236 | setDay(getDay() + delta, true) is StepField on the day columns |
| DateMask.DateEntry.StepMonth | dateentry.go:237-238 | setMonth(getMonth() + delta, true) is StepField on the month columns |
| DateMask.DateEntry.StepYear | dateentry.go:239-240 | setYear(getYear() + delta) is StepField on the year columns |
| DateMask.DateEntry.BackspaceAtCursor | dateentry.go:253-266 | the state becomes Backspace of the old state |
| DateMask.DateEntry.CursorRight | dateentry.go:217-224 | the cursor becomes MoveRight |
| DateMask.DateEntry.CursorLeft | dateentry.go:225-232 | the cursor becomes MoveLeft |
| DateMask.DateEntry.TypedKey | dateentry.go:211-276 | blocked by the hook: nothing; otherwise the state becomes KeyStep, and the handler runs after Up, Down, Backspace, Delete and Escape only |
| DateMask.DateEntry.EditKey | dateentry.go:233-271 | the editing keys: KeyStep, then one report by Report |
| DateMask.DateEntry.SetText | dateentry.go:108-116 | the state is Replay of s from the blank mask; the last date is the one the new text holds |
| DateMask.DateEntry.Paste | dateentry.go:278-291 | a blocked paste changes nothing; otherwise the content is replayed from the current state and the last date becomes the one the new text holds |
| DateMask.DateEntry.SetTime | dateentry.go:126-136 | for a year in 0..9999: the zero date blanks the mask; any other date is written out with the cursor at 10; GetTime then gives the date back, and the date is reported by Report |
| Dates.DaysIn | dateentry.go:301-316 | month lengths: 31 exactly for 1/3/5/7/8/10/12, 30 exactly for 4/6/9/11, 29 in February exactly in a leap year |
| Dates.Weekday | calendar.go:179 | time.Weekday lies in 0..6 |
| Dates.WeekdayInMonth | calendar.go:175-190 | within a month the weekday advances by one per day |
| Dates.WeekdayAnchors | calendar.go:179 | 1970-01-01 is a Thursday, 2024-01-01 a Monday and 2000-02-29 a Tuesday |
| Dates.NextDay | calendar.go:190 | AddDate(0, 0, 1): the day after, in the same month exactly when the day is not the last |
| Dates.AddMonths | calendar.go:105-110 | AddDate(0, k, 0) gives a valid date |
| Dates.AddMonthsFirstDay | calendar.go:104-111 | from a 1st, AddDate(0, k, 0) is the 1st of the month k months away |
| Dates.AddMonthsSkipsFebruary | calendar.go:76-77 | from 31 January 2024 one month later is 2 March, as time.Date normalises |
| CalendarGrid.FirstOfMonth | calendar.go:77 | the displayed date normalised to day 1 of the same month |
| CalendarGrid.Headings | calendar.go:128-136 | seven weekday headings |
| CalendarGrid.HeadingsEachWeekdayOnce | calendar.go:128-136 | heading i is weekday (i + WeekStart) mod 7: the first is WeekStart and each weekday heads exactly one column |
| CalendarGrid.Lead | calendar.go:175-182 | the spacer count is in [0, 6], and adding WeekStart gives the weekday of the 1st (mod 7) |
| CalendarGrid.DayButtons | calendar.go:190-209 | one button per day of the month |
| CalendarGrid.Grid | calendar.go:128-138 | calendarObjects has 7 + lead + days cells |
| CalendarGrid.GridShape | calendar.go:128-209 | seven headings, then the spacers, then the buttons labelled 1..days in increasing order |
| CalendarGrid.DayUnderItsWeekday | calendar.go:175-209 | each day's button sits in the column whose heading is that day's weekday |
| CalendarGrid.HighlightIsSelection | calendar.go:202-206 | at most one button is highlighted, and one is exactly when the selection is non-zero and in the displayed month; it is the selected day |
| CalendarGrid.Reflag | calendar.go:145-173 | updateSelection: non-buttons untouched; each button highlighted exactly when it is the selected day of the displayed month |
| CalendarGrid.ReflagGrid | calendar.go:145-173 | re-flagging a grid for a new selection gives the grid built for that selection |
| CalendarGrid.NextShown | calendar.go:109-111 | Next shows a first of month |
| CalendarGrid.NextFromUnnormalisedSkipsMonth | calendar.go:58-64 | a calendar created on 31 January 2024 shows March after its first Next |
| CalendarGrid.NavigationFromFirstDay | calendar.go:104-111 | from a first of month, Next and Previous move by exactly one month with year carry |
| CalendarGrid.Calendar.constructor | calendar.go:58-68 | NewCalendar with the displayed date normalised to the 1st (corrected, see Findings) |
| CalendarGrid.Calendar.CalendarObjects | calendar.go:128-138 | the loops build exactly Grid |
| CalendarGrid.Calendar.SetDisplayedDate | calendar.go:71-83 | the zero date means today; the displayed date becomes the 1st of its month; a rendered calendar's cells are the Grid of the new month (the class invariant), an unrendered one's are untouched |
| CalendarGrid.Calendar.UpdateSelection | calendar.go:145-173 | nothing before rendering or with no cells; otherwise the cells become Reflag |
| CalendarGrid.Calendar.SetSelectedDate | calendar.go:88-91 | the selection changes; a rendered calendar's cells become the Grid for the new selection (the class invariant) |
| CalendarGrid.Calendar.SetWeekStart | calendar.go:94-97 | the week start changes and the displayed month is set again |
| CalendarGrid.Calendar.CreateRenderer | calendar.go:101-126 | WeekStart is reset to the global value and the cells are Grid |
| CalendarGrid.Calendar.Navigate | calendar.go:104-111 | Previous/Next move the displayed month by exactly one (to today's month if the result would be the zero date) |
| CalendarGrid.Calendar.TapDay | calendar.go:192-199 | the tapped day of the displayed month becomes the selection, its button alone is highlighted, and OnChanged receives it |
| CalendarGrid.CountWeeks | calendar.go:231-242 | the row count is at least 1, and ceil(n / 7) when all children are visible |
| CalendarGrid.PlaceChildren | calendar.go:246-265 | visible child number j goes to row j / 7, column j mod 7; hidden ones are skipped |
| CalendarGrid.Layout | calendar.go:230-265 | both loops: placement as above, and with all children visible the last row is weeks - 1 |
| FormWidgets.ReadValue | inputfields.go:188-217 | ReadString's dispatch: a check reads as a text ParseBool gives back; a date reads as "" or a date text |
| FormWidgets.NumberText | inputfields.go:108-111 | a number entry's SetText leaves an acceptable text |
| FormWidgets.DateText | inputfields.go:122-123 | a date entry's SetText leaves a well-formed mask |
| FormWidgets.NewNumber | inputfields.go:106-118 | an acceptable value reads back unchanged |
| FormWidgets.NewDate | inputfields.go:120-126 | a date text reads back unchanged |
| FormWidgets.SelectOption | inputbox.go:179-180 | Select.SetSelected takes the value exactly when it is listed (or already selected) |
| FormWidgets.WriteValue | inputfields.go:231-256 | WriteString's dispatch keeps the widget well formed and of the same kind |
| FormWidgets.WriteThenRead | inputfields.go:221-257 | what reading gives after writing, kind by kind (text kinds give the value; a check follows ParseBool or non-emptiness; a group gives split-then-join) |
| FormWidgets.ReadWriteStable | inputfields.go:178-257 | under ParseBool, writing back what a widget reads leaves what it reads unchanged |
| FormWidgets.CheckGroupRoundTrip | inputfields.go:250-251 | a non-empty selection of '\|'-free options survives a read and a write back |
| FormWidgets.NonEmptyRuleTicksFalse | inputbox.go:282-283 | an unticked check reads "false", and writing "false" back ticks it |
| FormWidgets.EmptyCheckGroupWriteBack | inputbox.go:284-285 | an empty group reads "", and writing "" back selects one empty option |
| FormWidgets.WithOptions | inputbox.go:293-310 | SetOptions' dispatch: select, select entry, group and radio get the split value as options; a check gets it as caption; others unchanged |
| FormWidgets.OptionsKeepValue | inputbox.go:293-310 | replacing options never changes what a widget reads as |
| FieldRegistry.DummyName | inputfields.go:403-407 | the generated id starts with "_noname_input_" |
| FieldRegistry.DummyNamesDistinct | inputfields.go:403-407 | two positions give the same generated id exactly when they are equal |
| FieldRegistry.NewField | inputfields.go:418-433 | a nullable disableable field gets a ticked check; any other field gets none |
| FieldRegistry.WriteField | inputfields.go:221-257 | writing changes only the widget, keeping it well formed |
| FieldRegistry.Register | inputfields.go:409-456 | a present id is ignored; otherwise the id is mapped to the field and appended to the order; other entries are kept |
| FieldRegistry.RegisterKeepsIndex | inputfields.go:409-456 | registering keeps the order free of duplicates and equal to the map's keys |
| FieldRegistry.AddWidgetAsWritten | inputfields.go:409-414 | addWidget as written agrees with Register on every non-empty id |
| FieldRegistry.AddLabelAsWrittenDuplicates | inputfields.go:78-84 | AddLabel("") can overwrite a field and list its id twice |
| FieldRegistry.AsWrittenNamedIdsKeepIndex | inputfields.go:89-95 | on the paths that call dummyId first, the code as written keeps the index invariant |
| FieldRegistry.InputFields.constructor | inputfields.go:37-41 | NewInputFields: no fields, no tabs, no box |
| FieldRegistry.InputFields.AddTab | inputfields.go:56-64 | ignored for an empty title or once the single box exists; otherwise one tab more |
| FieldRegistry.InputFields.CurrentVBox | inputfields.go:458-467 | with no tabs the single box is created (so every later AddTab is ignored); with tabs nothing changes |
| FieldRegistry.InputFields.AddSeparator | inputfields.go:66-68 | a separator goes into the current box (the last tab, or -1 for the single box, which it creates when there are no tabs) |
| FieldRegistry.InputFields.AddTitle | inputfields.go:70-72 | a title with the text goes into the current box, creating the single box when there are no tabs |
| FieldRegistry.InputFields.AddTitleMkd | inputfields.go:74-76 | a Markdown title goes into the current box, creating the single box when there are no tabs |
| FieldRegistry.InputFields.DummyId | inputfields.go:403-407 | an empty id becomes "_noname_input_" + (len(order) + 1); any other id is kept |
| FieldRegistry.InputFields.Notify | inputfields.go:484-488 | the id reaches OnChanged only when one is set |
| FieldRegistry.InputFields.AddWidget | inputfields.go:409-456 | the registry becomes Register of the (dummy) id and the new field; the box exists once a field is added without tabs |
| FieldRegistry.InputFields.AddLabel | inputfields.go:78-84 | a label field, never nullable (corrected order, see Findings); the box is created when a new field is added with no tabs |
| FieldRegistry.InputFields.AddNumber | inputfields.go:106-118 | a number field with Float and Signed, filled by SetText; the box is created when a new field is added with no tabs |
| FieldRegistry.InputFields.AddDate | inputfields.go:120-126 | a date field filled by SetText; the box is created when a new field is added with no tabs |
| FieldRegistry.InputFields.AddSelect | inputfields.go:128-141 | a select or select entry holding the value as given; the box is created when a new field is added with no tabs |
| FieldRegistry.InputFields.AddCheck | inputfields.go:143-148 | a check field with its caption and state; the box is created when a new field is added with no tabs |
| FieldRegistry.InputFields.AddCheckGroup | inputfields.go:150-156 | a check group with the selection as given; the box is created when a new field is added with no tabs |
| FieldRegistry.InputFields.AddActionButton | inputfields.go:166-173 | a button field, never nullable; the box is created when a new field is added with no tabs |
| FieldRegistry.InputFields.GetNull | inputfields.go:315-322 | true exactly for a registered field whose check is unticked |
| FieldRegistry.InputFields.ReadString | inputfields.go:178-219 | "" for an unknown id and for a nulled field, else the widget's value |
| FieldRegistry.InputFields.WriteString | inputfields.go:221-257 | unknown id: nothing; otherwise only that field's widget is written; a check rejects a value ParseBool refuses; OnChanged is restored and nothing is reported during the write |
| FieldRegistry.InputFields.ReadAllString | inputfields.go:279-285 | the keys are exactly the registered ids, each mapped to its ReadString |
| FieldRegistry.InputFields.Inputs | inputfields.go:296-298 | the ids in insertion order, each once, exactly the map's keys |
| FieldRegistry.InputFields.Widget | inputfields.go:300-305 | the widget of a registered id, None otherwise |
| FieldRegistry.InputFields.SetNull | inputfields.go:307-313 | for a field with a check, GetNull then gives b; a box change is reported |
| FieldRegistry.NullableStartsTicked | inputfields.go:419-428 | a nullable field starts ticked, so it reads as its widget |
| InputBoxes.FirstFocusable | inputbox.go:95-104 | the first position of the order whose input is visible and focusable, None when there is none |
| InputBoxes.FirstFocusableIs | inputbox.go:95-104 | the left-to-right scan stops at exactly that position |
| InputBoxes.NumberAsWritten | inputbox.go:169-174 | the number entry AddNumber builds keeps only the digits of the value |
| InputBoxes.AddNumberAsWrittenDropsSignAndFraction | inputbox.go:169-174 | "-1,5" asked for as a signed decimal reads back as "15" |
| InputBoxes.InputBox.constructor | inputbox.go:38-42 | NewInputBox: captions "Valider" and "Annuler", no inputs |
| InputBoxes.InputBox.CreateRenderer | inputbox.go:65-77 | an empty cancel caption becomes "Annuler"; the validate button exists and is enabled when the caption is non-empty |
| InputBoxes.InputBox.Show | inputbox.go:91-111 | on a canvas the first focusable input takes focus; OnReady runs at most once over all calls, and the flag is set only when it runs |
| InputBoxes.InputBox.FocusFirst | inputbox.go:95-104 | the loop focuses the FirstFocusable input, or leaves the focus |
| InputBoxes.InputBox.AddTab | inputbox.go:115-123 | ignored for an empty title or once the single box exists |
| InputBoxes.InputBox.CurrentVBox | inputbox.go:362-371 | with no tabs the single box is created (so every later AddTab is ignored); with tabs nothing changes |
| InputBoxes.InputBox.AddSeparator | inputbox.go:125-127 | a separator goes into the current box, creating the single box when there are no tabs |
| InputBoxes.InputBox.AddTitle | inputbox.go:129-133 | a non-empty text goes into the current box as Markdown, creating the single box when there are no tabs; an empty text changes nothing, not even the box |
| InputBoxes.InputBox.AddEntryWidget | inputbox.go:388-412 | an empty or registered name is ignored; otherwise the name is mapped and appended; the order stays duplicate-free |
| InputBoxes.InputBox.AddNumber | inputbox.go:169-174 | a new name gets a number input with the requested Float and Signed (corrected, see Findings), is appended to the order, and creates the box when there are no tabs; an empty or known name changes nothing |
| InputBoxes.InputBox.AddSelect | inputbox.go:176-187 | a plain select keeps the value only if listed; a select entry takes it as its text; a new name is appended to the order and creates the box when there are no tabs; an empty or known name changes nothing |
| InputBoxes.InputBox.Inputs | inputbox.go:219-221 | the names in insertion order, each once, exactly the registered ones |
| InputBoxes.InputBox.Widget | inputbox.go:223-228 | the widget of a registered name, None otherwise |
| InputBoxes.InputBox.ReadString | inputbox.go:230-260 | "" for an unknown name, else the widget's value |
| InputBoxes.InputBox.WriteString | inputbox.go:262-291 | only that input's widget is written; a check reads "true" after any non-empty value (including "false") |
| InputBoxes.InputBox.SetOptions | inputbox.go:293-310 | the widget becomes WithOptions; what it reads as is unchanged |
| InputBoxes.InputBox.SetVisible | inputbox.go:97 | the visibility Show, Focus and SetStatus test changes for that input alone |
| InputBoxes.InputBox.Focus | inputbox.go:312-320 | focus moves to the name only on a canvas and for a visible focusable input |
| InputBoxes.InputBox.GetStatus | inputbox.go:334-341 | enabled-ness of a registered visible disableable input, false otherwise |
| InputBoxes.InputBox.SetStatus | inputbox.go:322-332 | only a registered visible disableable input is enabled or disabled |
| InputBoxes.InputBox.GetSubmitable | inputbox.go:353-358 | false without a validate button, else its enabled state |
| InputBoxes.InputBox.SetSubmitable | inputbox.go:343-351 | no effect without a validate button; otherwise GetSubmitable gives b |
| TextUtil.DigitsOf | numentry.go:139 | the digits of a text in order, never longer than it |
| TextUtil.NatToDecimalValue | numentry.go:108 | the decimal form of n has value n |
| TextUtil.AtoiItoa | numentry.go:108 | strconv.Atoi reads back what strconv.Itoa wrote, for every integer |
| TextUtil.Pad2 | dateentry.go:332 | %02d of a value below 100 is two digits of that value |
| TextUtil.Pad2Canonical | dateentry.go:357-358 | a two-digit field is the padded form of its own value |
| TextUtil.Pad4 | dateentry.go:375 | %04d of a value below 10000 is four digits of that value |
| TextUtil.Pad4Canonical | dateentry.go:375-376 | a four-digit field is the padded form of its own value |
| TextUtil.Split | inputfields.go:251 | strings.Split on one separator: at least one piece, none holding the separator |
| TextUtil.JoinSplit | inputfields.go:251 | joining the pieces of a split gives the text back |
| TextUtil.SplitJoin | inputfields.go:212 | splitting a join of at least one separator-free piece gives the pieces back |
| TextUtil.SplitJoinEmpty | inputbox.go:253 | an empty list joins to "", which splits to one empty piece |
| TextUtil.ParseFormatBool | inputfields.go:210 | ParseBool reads back what FormatBool wrote |
| TextUtil.Utf8Len | autocomplete.go:252 | Go's len on a string is at least its rune count |

## Left out

- Rendering, layout sizes and floating point: popupPos/popupMaxSize, cell sizes and `math.Round` in calendarLayout, every MinSize, and the form/box/tab containers beyond which tab a field lands in.
- NumEntry.GetInt, GetFloat, SetFloat, OnChangedInt and OnChangedFloat: they depend on float parsing and `fmt.Sprint`; the handler models only the string OnChanged.
- NumEntry's own OnChanged is taken to be set, so every call to it is logged; OnChangedInt and OnChangedFloat are left out (see above).
- DateMask.DateEntry.CallOnChanged: the log holds every date the handler reports, as if OnChanged were set; when it is nil the source skips the call but still updates the last date, which the log's last entry stands for.
- Completion.AutoComplete.SetText: `changes` logs every change the base entry reports, as if the Entry's OnChanged were set; fyne skips a nil one.
- NumEntry.SetReadOnly, SetMinColsVisible, FocusGained and FocusLost: one-line field updates and callbacks with no logic to state.
- DateEntry.TypedShortcut for shortcuts other than paste: forwarded to the base entry, whose editing the model does not cover; the mask invariant is not claimed on that path.
- DateEntry's calendar pop-up, the "today" button, SetReadOnly, SetWeekStart and calendarSetWithoutCallback: canvas and pop-up plumbing over the Calendar, which is modelled on its own.
- DateMask.DateEntry.SetText: the log of reported dates is only stated to grow and to end with the date the new text holds, not entry by entry.
- DateMask.DateEntry.SetTime: only years 0..9999 are modelled. For a year below 0 or above 9999, Go's Format writes the year as "-0001" or "10000". The text is then not a well-formed mask, and GetTime reads it back as the zero date, so callOnChanged reports the zero date and not the date set. A calendar at 01/01/0000 reaches this through Previous and a day tap.
- DateMask.DateEntry.Paste: the same weaker statement about the log of reported dates.
- Calendar.monthYear, shortDayName and monthName: localisation through `lang.X`; headings are modelled as weekday numbers.
- `time.Now()` and `time.Local`: "now" is a parameter, and the local zone is taken to be UTC, so `01/01/0001` parses to the zero time; times of day are not modelled.
- AutoComplete FocusGained, Move, RefreshItem, SetItemHeight, data_create, data_update and MouseMoved/MouseOut: rendering and forwarding only.
- Completion.AutoComplete.Length: CustomLength is taken to return the same number on each call.
- AutoComplete's canvas focus on the list (`cnv.Focus(ac.list)`) and the canvas test in SetReadOnly: driver state outside the model.
- EntryEx.SetReadOnly, FocusLost and MouseIn/MouseMoved/MouseOut; SelectEntryEx.FocusLost: canvas focus and tooltips.
- InputFields.WriteOptions, WriteAllString, SetStatus, GetStatus, SetFocus, Enable, Disable, Disabled and CreateRenderer: widget enabling and canvas focus are not part of this model.
- InputFields.AddTitle's style and alignment, and the ids AddTitle and AddTitleMkd take: presentation only; the model keeps the kind and text of each decoration and the box it went to.
- InputFields.AddText, AddPassword and AddRadioGroup: these are AddWidget with the matching widget value.
- InputFields.onAction and the field widgets' own change callbacks: a widget change reaching OnChanged is modelled only for SetNull.
- FieldRegistry.InputFields.WriteString: it does not log what the widgets' callbacks would report during the write, since OnChanged is detached then.
- InputBox.AddLabel, AddText, AddPassword, AddDate, AddCheck, AddCheckGroup, AddRadioGroup and AddButton: these are AddEntryWidget with the matching widget value.
- InputBox OnChanged, OnAction and OnSubmit notifications (callOnChanged, callOnAction, callOnSubmit): callbacks with no logic of their own.
- InputBoxes.InputBox.SetVisible: it stands for the application's Hide/Show on the widget that Widget returns.
- embedrepo.go, misc_windows.go, misc_nowindows.go, misc_tooltipable.go, misc_doubleclickable.go, button.go, check.go, select.go, icon.go, label.go and selectableimage.go are not part of this model: file access, platform calls, timers and plain forwarding to fyne.

## Findings

| source | as written | input that shows it | evidently intended | confidence | as-written member | corrected member |
|---|---|---|---|---|---|---|
| calendar.go:58-64 | NewCalendar stores the date it is given as the displayed date, without the normalisation to day 1 that SetDisplayedDate applies | a calendar created on 31 January 2024: the first Next adds one month to 31 January, which Go normalises to 2 March, so February is skipped | the displayed date starts at the 1st of its month, so Next and Previous never skip a month | not executed; medium (the DateEntry pop-up calls SetDisplayedDate each time it is shown, so only other callers of NewCalendar are affected) | CalendarGrid.NextFromUnnormalisedSkipsMonth | CalendarGrid.NavigationFromFirstDay |
| autocomplete.go:252 | the cursor column is set to `len(Text)`, the UTF-8 byte count | completing "é" gives a one-rune text with the cursor at column 2, past its end | the cursor at the end of the text, its rune count | not executed; high | Completion.CursorPastEndOnNonAscii | Completion.AutoComplete.SetTextFromList |
| inputbox.go:169-174 | AddNumber accepts float and signed but never sets them on the NumEntry before SetText | AddNumber with value "-1,5", float and signed: the entry keeps "15" | the entry takes Float and Signed as InputFields.AddNumber does | not executed; high | InputBoxes.AddNumberAsWrittenDropsSignAndFraction | InputBoxes.InputBox.AddNumber |
| inputfields.go:78-84 | AddLabel passes its id to addWidget without dummyId, and addWidget tests presence before replacing "" | a field registered as "_noname_input_2", then AddLabel(""): the label overwrites that field and the id appears twice in the order | the dummy id is given before the presence test, as every other AddXxx method does | not executed; medium | FieldRegistry.AddLabelAsWrittenDuplicates | FieldRegistry.InputFields.AddWidget |
