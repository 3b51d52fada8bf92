/** The widgets the two form registries (InputFields and InputBox) hold, as
    values, with the string each one reads as and the effect of writing a
    string into it. The fyne setters behave as follows: Select.SetSelected
    only accepts one of the options; CheckGroup.SetSelected and
    RadioGroup.SetSelected take the value as given; Check.SetChecked changes
    nothing, and calls nothing, when the state is already the requested one. */
module FormWidgets {
  import opened TextUtil
  import opened Dates
  import opened DateMask
  import opened NumFilter

  datatype Widget =
    | Label(text: string)
    | TextEntry(text: string)
    | Password(text: string)
    | DateField(mask: Mask)
    | NumberField(edit: Edit, float: bool, signed: bool)
    | SelectField(options: seq<string>, selected: string)
    | SelectEntryField(options: seq<string>, text: string)
    | CheckField(caption: string, checked: bool)
    | CheckGroupField(options: seq<string>, selection: seq<string>)
    | RadioField(options: seq<string>, selected: string)
    | ButtonField(text: string)

  /** What the structure calls put into a box besides the inputs: a
      separator, a plain title or a Markdown title. */
  datatype Decoration = Separator | Title(text: string) | TitleMkd(text: string)

  /** Every widget but a label can be disabled. */
  predicate Disableable(w: Widget) { !w.Label? }

  /** The widgets that take keyboard focus: the entries, the select, the
      check and the button; labels and the groups do not. */
  predicate Focusable(w: Widget)
  {
    w.TextEntry? || w.Password? || w.DateField? || w.NumberField? || w.SelectEntryField?
    || w.SelectField? || w.CheckField? || w.ButtonField?
  }

  /** The invariants the date and number widgets keep. */
  predicate WellFormed(w: Widget)
  {
    match w
    case DateField(m) => Wellformed(m)
    case NumberField(e, float, signed) => InRange(e) && Acceptable(e.text, float, signed)
    case _ => true
  }

  /** ReadString's dispatch on the widget kind. */
  function ReadValue(w: Widget): (r: string)
    ensures w.CheckField? ==> ParseBool(r) == Some(w.checked)
    ensures w.DateField? ==> r == "" || ParseDate(r) != Zero
  {
    match w
    case Label(t) => t
    case TextEntry(t) => t
    case Password(t) => t
    case DateField(m) => TextOf(m.text)
    case NumberField(e, _, _) => e.text
    case SelectField(_, s) => s
    case SelectEntryField(_, t) => t
    case CheckField(_, c) => FormatBool(c)
    case CheckGroupField(_, sel) => Join(sel, '|')
    case RadioField(_, s) => s
    case ButtonField(t) => t
  }

  /** NumEntry.SetText without a hook, on an editable entry. */
  function NumberText(value: string, float: bool, signed: bool): (e: Edit)
    ensures InRange(e) && Acceptable(e.text, float, signed)
  {
    if value == "" then Edit("", 0)
    else
      TypeAllAcceptable(Edit("", 0), value, float, signed, false, None, false);
      TypeAll(Edit("", 0), value, float, signed, false, None, false).edit
  }

  /** DateEntry.SetText without a hook. */
  function DateText(value: string): (m: Mask)
    ensures Wellformed(m)
  {
    BlankShaped();
    Replay(Mask(Blank, 0), value, None)
  }

  /** A number entry with Float and Signed set, then SetText(value). */
  function NewNumber(value: string, float: bool, signed: bool): (w: Widget)
    ensures w.NumberField? && WellFormed(w) && w.float == float && w.signed == signed
    ensures Acceptable(value, float, signed) ==> ReadValue(w) == value
  {
    if Acceptable(value, float, signed) && value != "" then
      TypeAcceptable(value, float, signed, false);
      NumberField(NumberText(value, float, signed), float, signed)
    else NumberField(NumberText(value, float, signed), float, signed)
  }

  /** A date entry after SetText(value). */
  function NewDate(value: string): (w: Widget)
    ensures w.DateField? && WellFormed(w)
    ensures ParseDate(value) != Zero ==> ReadValue(w) == value
  {
    if ParseDate(value) != Zero then
      SetTextOfDate(value);
      DateField(DateText(value))
    else DateField(DateText(value))
  }

  /** fyne's Select.SetSelected: only a listed option is taken. */
  function SelectOption(options: seq<string>, current: string, value: string): (r: string)
    ensures r == value || r == current
    ensures r == value <==> value in options || value == current
  {
    if value in options then value else current
  }

  /** How a registry writes a check: InputFields parses the value with
      strconv.ParseBool and ignores what does not parse; InputBox ticks the
      check for any non-empty value. */
  datatype CheckRule = ParseBoolRule | NonEmptyRule

  /** WriteString's dispatch on the widget kind. */
  function WriteValue(w: Widget, value: string, rule: CheckRule): (r: Widget)
    requires WellFormed(w)
    ensures WellFormed(r)
    ensures Disableable(r) == Disableable(w) && Focusable(r) == Focusable(w)
  {
    match w
    case Label(_) => Label(value)
    case TextEntry(_) => TextEntry(value)
    case Password(_) => Password(value)
    case DateField(_) => DateField(DateText(value))
    case NumberField(_, float, signed) => NumberField(NumberText(value, float, signed), float, signed)
    case SelectField(opts, s) => SelectField(opts, SelectOption(opts, s, value))
    case SelectEntryField(opts, _) => SelectEntryField(opts, value)
    case CheckField(l, c) =>
      if rule == NonEmptyRule then CheckField(l, value != "")
      else
        var b := ParseBool(value);
        CheckField(l, if b.Some? then b.value else c)
    case CheckGroupField(opts, _) => CheckGroupField(opts, Split(value, '|'))
    case RadioField(opts, _) => RadioField(opts, value)
    case ButtonField(_) => ButtonField(value)
  }

  /** What reading gives back after writing `value`, kind by kind: the text
      kinds, the radio group and the check group give back the value itself;
      the select gives it back when it is an option; the date entry when it
      is a date; the number entry when it is a text the filter accepts; a
      check written under ParseBoolRule reads as the canonical spelling of
      the parsed value. */
  lemma {:induction false} WriteThenRead(w: Widget, value: string, rule: CheckRule)
    requires WellFormed(w)
    ensures var r := ReadValue(WriteValue(w, value, rule));
      && (w.Label? || w.TextEntry? || w.Password? || w.SelectEntryField? || w.RadioField? || w.ButtonField? ==> r == value)
      && (w.CheckGroupField? ==> r == value)
      && (w.SelectField? ==> r == (if value in w.options then value else ReadValue(w)))
      && (w.DateField? && ParseDate(value) != Zero ==> r == value)
      && (w.NumberField? && Acceptable(value, w.float, w.signed) ==> r == value)
      && (w.CheckField? && rule == ParseBoolRule && ParseBool(value).Some? ==> r == FormatBool(ParseBool(value).value))
      && (w.CheckField? && rule == ParseBoolRule && ParseBool(value).None? ==> r == ReadValue(w))
      && (w.CheckField? && rule == NonEmptyRule ==> r == FormatBool(value != ""))
  {
    match w
    case CheckGroupField(_, _) =>
      JoinSplit(value, '|');
    case DateField(_) =>
      if ParseDate(value) != Zero {
        SetTextOfDate(value);
      }
    case NumberField(_, float, signed) =>
      if Acceptable(value, float, signed) && value != "" {
        TypeAcceptable(value, float, signed, false);
      }
    case _ =>
  }

  /** Under ParseBoolRule, writing back what a widget reads as leaves that
      reading unchanged, for every kind. */
  lemma {:induction false} ReadWriteStable(w: Widget)
    requires WellFormed(w)
    ensures ReadValue(WriteValue(w, ReadValue(w), ParseBoolRule)) == ReadValue(w)
  {
    WriteThenRead(w, ReadValue(w), ParseBoolRule);
    match w
    case DateField(m) =>
      if ParseDate(m.text) == Zero {
        assert ReadValue(w) == "";
        assert ParseDate("") == Zero;
      }
    case SelectField(opts, s) =>
    case _ =>
  }

  /** A check group's selection survives a read and a write back when it is
      not empty and no option holds '|'. */
  lemma CheckGroupRoundTrip(options: seq<string>, selection: seq<string>)
    requires |selection| >= 1
    requires forall k :: 0 <= k < |selection| ==> '|' !in selection[k]
    ensures var w := CheckGroupField(options, selection);
      WriteValue(w, ReadValue(w), ParseBoolRule) == w
  {
    SplitJoin(selection, '|');
  }

  /** Under NonEmptyRule an unticked check reads as "false", and writing
      that back ticks it. */
  lemma NonEmptyRuleTicksFalse(caption: string)
    ensures ReadValue(CheckField(caption, false)) == "false"
    ensures WriteValue(CheckField(caption, false), "false", NonEmptyRule) == CheckField(caption, true)
  {
  }

  /** An empty check group reads as "", and writing "" back selects one
      option named "": the string round trip holds, the selection does not
      come back. */
  lemma EmptyCheckGroupWriteBack(options: seq<string>)
    ensures ReadValue(CheckGroupField(options, [])) == ""
    ensures WriteValue(CheckGroupField(options, []), "", ParseBoolRule) == CheckGroupField(options, [""])
  {
  }

  /** InputBox.SetOptions' dispatch: the options of a select, a select
      entry, a check group or a radio group become the pieces of `value`
      split on '|'; a check's caption becomes `value`; other kinds keep
      theirs. */
  function WithOptions(w: Widget, value: string): (r: Widget)
    ensures WellFormed(r) == WellFormed(w)
    ensures Disableable(r) == Disableable(w) && Focusable(r) == Focusable(w)
    ensures (w.SelectField? || w.SelectEntryField? || w.CheckGroupField? || w.RadioField?) ==>
      && (r.SelectField? || r.SelectEntryField? || r.CheckGroupField? || r.RadioField?)
      && r.options == Split(value, '|') && Join(r.options, '|') == value
    ensures w.CheckField? ==> r == w.(caption := value)
    ensures !(w.SelectField? || w.SelectEntryField? || w.CheckGroupField? || w.RadioField? || w.CheckField?) ==> r == w
  {
    JoinSplit(value, '|');
    match w
    case SelectField(_, s) => SelectField(Split(value, '|'), s)
    case SelectEntryField(_, t) => SelectEntryField(Split(value, '|'), t)
    case CheckField(_, c) => CheckField(value, c)
    case CheckGroupField(_, sel) => CheckGroupField(Split(value, '|'), sel)
    case RadioField(_, s) => RadioField(Split(value, '|'), s)
    case _ => w
  }

  /** Replacing the options never changes what a widget reads as: a select
      keeps a selection that is no longer among its options. */
  lemma {:induction false} OptionsKeepValue(w: Widget, value: string)
    ensures ReadValue(WithOptions(w, value)) == ReadValue(w)
    ensures w.SelectField? && w.selected !in Split(value, '|') ==> WithOptions(w, value).selected == w.selected
  {
  }
}
