/** InputBox: a data-entry panel of named widgets, in one vertical box or in
    tabs, with a cancel button and, when the Validate caption is not empty, a
    validate button. Its fields are read and written as strings; Show
    focuses the first visible focusable input and calls OnReady once. */
module InputBoxes {
  import opened TextUtil
  import opened NumFilter
  import opened FormWidgets

  /** A registered input: its widget, whether it is shown, whether it is
      disabled, and the tab it was placed in (-1 for the single vertical
      box). */
  datatype BoxInput = BoxInput(widget: Widget, visible: bool, disabled: bool, tab: int)

  /** Whether Show or Focus can give keyboard focus to the named input. */
  predicate CanFocus(name: string, inputs: map<string, BoxInput>)
  {
    name in inputs && inputs[name].visible && Focusable(inputs[name].widget)
  }

  /** The position in `order` of the first input that can take focus. */
  function FirstFocusable(order: seq<string>, inputs: map<string, BoxInput>): (r: Option<nat>)
    ensures r.Some? ==> r.value < |order| && CanFocus(order[r.value], inputs)
    ensures r.Some? ==> forall k :: 0 <= k < r.value ==> !CanFocus(order[k], inputs)
    ensures r.None? ==> forall k :: 0 <= k < |order| ==> !CanFocus(order[k], inputs)
  {
    if order == [] then None
    else if CanFocus(order[0], inputs) then Some(0)
    else
      match FirstFocusable(order[1..], inputs)
      case None => None
      case Some(i) => Some(i + 1)
  }

  /** The first focusable input is the one a left-to-right scan stops at. */
  lemma FirstFocusableIs(order: seq<string>, inputs: map<string, BoxInput>, i: int)
    requires 0 <= i <= |order|
    requires forall k :: 0 <= k < i ==> !CanFocus(order[k], inputs)
    requires i < |order| ==> CanFocus(order[i], inputs)
    ensures FirstFocusable(order, inputs) == if i < |order| then Some(i) else None
  {
    var r := FirstFocusable(order, inputs);
    if r.Some? {
      assert !(r.value < i);
      assert !(i < r.value);
    }
  }

  /** NewNumEntry then SetText(value), with the Float and Signed flags left
      at their defaults whatever the caller asked for: the entry keeps only
      the digits of the value. */
  function NumberAsWritten(value: string, float: bool, signed: bool): (w: Widget)
    ensures w.NumberField? && !w.float && !w.signed && WellFormed(w)
    ensures ReadValue(w) == DigitsOf(value)
  {
    TypeKeepsDigits(value, false);
    NewNumber(value, false, false)
  }

  /** AddNumber as written turns "-1,5", asked for as a signed decimal, into
      "15"; with the flags passed on, the entry keeps "-1,5". */
  lemma AddNumberAsWrittenDropsSignAndFraction()
    ensures ReadValue(NumberAsWritten("-1,5", true, true)) == "15"
    ensures ReadValue(NewNumber("-1,5", true, true)) == "-1,5"
  {
    assert DigitsOf("-1,5") == "15";
    assert Acceptable("-1,5", true, true);
  }

  class InputBox {
    /** Captions of the two buttons. */
    var validate: string
    var cancel: string
    var inputs: map<string, BoxInput>
    var order: seq<string>
    var tabs: seq<string>
    var hasVBox: bool
    /** The validate button: None while it does not exist, else whether it
        is enabled. */
    var btnOk: Option<bool>
    /** Whether an OnReady callback is installed, and how often it ran. */
    var onReadySet: bool
    var onReadyCalled: bool
    var readyCalls: nat
    var shown: bool
    /** The input holding keyboard focus on the canvas. */
    var focused: Option<string>
    /** The decorations added, each with the tab it went to (-1 for the
        single vertical box). */
    var decorations: seq<(int, Decoration)>

    ghost predicate Valid()
      reads this
    {
      && Registry()
      && readyCalls <= 1
      && (onReadyCalled <==> readyCalls == 1)
    }

    /** The registry's invariant: every name once in the order, the order
        and the map holding the same names, no empty name, and every input
        well placed. */
    ghost predicate Registry()
      reads this`inputs, this`order, this`tabs, this`hasVBox
    {
      && NoDups(order)
      && (forall name :: name in inputs <==> name in order)
      && "" !in inputs
      && (hasVBox ==> tabs == [])
      && (forall name | name in inputs :: InputOk(inputs[name]))
    }

    /** An input's own invariant: its widget is well formed, only a
        disableable widget is disabled, and its tab exists. */
    ghost predicate InputOk(b: BoxInput)
      reads this`tabs, this`hasVBox
    {
      && WellFormed(b.widget)
      && (b.disabled ==> Disableable(b.widget))
      && (if b.tab == -1 then hasVBox else 0 <= b.tab < |tabs|)
    }

    /** NewInputBox. */
    constructor ()
      ensures Valid()
      ensures validate == "Valider" && cancel == "Annuler"
      ensures inputs == map[] && order == [] && tabs == [] && !hasVBox && btnOk == None
      ensures !onReadySet && !onReadyCalled && readyCalls == 0 && !shown && focused == None
      ensures decorations == []
    {
      validate, cancel := "Valider", "Annuler";
      inputs, order, tabs, hasVBox, btnOk := map[], [], [], false, None;
      onReadySet, onReadyCalled, readyCalls, shown, focused := false, false, 0, false, None;
      decorations := [];
    }

    /** CreateRenderer: an empty cancel caption falls back to "Annuler"; a
        new, enabled validate button is made when the Validate caption is
        not empty. */
    method CreateRenderer()
      modifies this`cancel, this`btnOk
      ensures cancel == if old(cancel) == "" then "Annuler" else old(cancel)
      ensures btnOk == if validate != "" then Some(true) else old(btnOk)
    {
      if cancel == "" {
        cancel := "Annuler";
      }
      if validate != "" {
        btnOk := Some(true);
      }
    }

    /** Show: focuses the first visible focusable input when the box is on
        a canvas, then calls OnReady if it is installed and has not run. */
    method Show(onCanvas: bool)
      requires Valid()
      modifies this`shown, this`focused, this`onReadyCalled, this`readyCalls
      ensures Valid() && shown
      ensures var i := FirstFocusable(order, inputs);
        focused == if onCanvas && i.Some? then Some(order[i.value]) else old(focused)
      ensures readyCalls == old(readyCalls) + if !old(onReadyCalled) && onReadySet then 1 else 0
      ensures onReadyCalled == (old(onReadyCalled) || onReadySet)
    {
      shown := true;
      if onCanvas {
        FocusFirst();
      }
      if !onReadyCalled && onReadySet {
        readyCalls := readyCalls + 1;
        onReadyCalled := true;
      }
    }

    /** The focus step of Show: the first input of the order that is
        visible and takes focus gets the focus; with none, the
        focus stays where it was. */
    method FocusFirst()
      modifies this`focused
      ensures var i := FirstFocusable(order, inputs);
        focused == if i.Some? then Some(order[i.value]) else old(focused)
    {
      var i := 0;
      while i < |order| && !CanFocus(order[i], inputs)
        invariant 0 <= i <= |order|
        invariant forall k :: 0 <= k < i ==> !CanFocus(order[k], inputs)
      {
        i := i + 1;
      }
      FirstFocusableIs(order, inputs, i);
      if i < |order| {
        focused := Some(order[i]);
      }
    }

    /** AddTab: ignored for an empty title or once inputs sit in the single
        vertical box. */
    method AddTab(title: string)
      requires Valid()
      modifies this`tabs
      ensures Valid()
      ensures tabs == if title == "" || hasVBox then old(tabs) else old(tabs) + [title]
    {
      if title == "" || hasVBox {
        return;
      }
      tabs := tabs + [title];
    }

    /** currentVBox: with no tabs, the single vertical box is created on
        first use, and from then on AddTab is ignored; otherwise the last
        tab is the current box. */
    method CurrentVBox()
      requires Valid()
      modifies this`hasVBox
      ensures Valid() && hasVBox == (old(hasVBox) || tabs == [])
    {
      if tabs == [] {
        hasVBox := true;
      }
    }

    /** AddSeparator: a separator goes into the current box. */
    method AddSeparator()
      requires Valid()
      modifies this`hasVBox, this`decorations
      ensures Valid() && hasVBox == (old(hasVBox) || tabs == [])
      ensures decorations == old(decorations) + [(|tabs| - 1, Separator)]
    {
      CurrentVBox();
      decorations := decorations + [(|tabs| - 1, Separator)];
    }

    /** AddTitle: a non-empty text goes into the current box as Markdown;
        an empty one changes nothing, not even the box. */
    method AddTitle(text: string)
      requires Valid()
      modifies this`hasVBox, this`decorations
      ensures Valid()
      ensures text == "" ==> hasVBox == old(hasVBox) && decorations == old(decorations)
      ensures text != "" ==>
        hasVBox == (old(hasVBox) || tabs == []) && decorations == old(decorations) + [(|tabs| - 1, TitleMkd(text))]
    {
      if text != "" {
        CurrentVBox();
        decorations := decorations + [(|tabs| - 1, TitleMkd(text))];
      }
    }

    /** addEntryWidget: an empty or already registered name is ignored;
        otherwise the widget goes into the current tab, or into the vertical
        box, created on first use, when there are no tabs. */
    method AddEntryWidget(name: string, w: Widget)
      requires Valid() && WellFormed(w)
      modifies this`inputs, this`order, this`hasVBox
      ensures Valid()
      ensures name == "" || name in old(inputs) ==>
        inputs == old(inputs) && order == old(order) && hasVBox == old(hasVBox)
      ensures name != "" && name !in old(inputs) ==>
        && inputs == old(inputs)[name := BoxInput(w, true, false, |tabs| - 1)]
        && order == old(order) + [name]
        && hasVBox == (old(hasVBox) || tabs == [])
    {
      if name == "" || name in inputs {
        return;
      }
      CurrentVBox();
      forall i, j | 0 <= i < j < |order + [name]|
        ensures (order + [name])[i] != (order + [name])[j]
      {
        if j == |order| {
          assert (order + [name])[i] == order[i];
        }
      }
      inputs, order := inputs[name := BoxInput(w, true, false, |tabs| - 1)], order + [name];
    }

    /** AddNumber, with Float and Signed passed on to the entry (see
        NumberAsWritten). */
    method AddNumber(name: string, value: string, float: bool, signed: bool)
      requires Valid()
      modifies this`inputs, this`order, this`hasVBox
      ensures Valid()
      ensures name != "" && name !in old(inputs) ==>
        && inputs == old(inputs)[name := BoxInput(NewNumber(value, float, signed), true, false, |tabs| - 1)]
        && order == old(order) + [name]
        && hasVBox == (old(hasVBox) || tabs == [])
      ensures name == "" || name in old(inputs) ==> inputs == old(inputs) && order == old(order) && hasVBox == old(hasVBox)
    {
      AddEntryWidget(name, NewNumber(value, float, signed));
    }

    /** AddSelect: a plain select takes the value through SetSelected, so
        only a listed option is selected; an editable one takes it as its
        text. */
    method AddSelect(name: string, options: seq<string>, value: string, editable: bool)
      requires Valid()
      modifies this`inputs, this`order, this`hasVBox
      ensures Valid()
      ensures var w := if editable then SelectEntryField(options, value) else SelectField(options, SelectOption(options, "", value));
        name != "" && name !in old(inputs) ==>
          && inputs == old(inputs)[name := BoxInput(w, true, false, |tabs| - 1)]
          && order == old(order) + [name]
          && hasVBox == (old(hasVBox) || tabs == [])
      ensures name == "" || name in old(inputs) ==> inputs == old(inputs) && order == old(order) && hasVBox == old(hasVBox)
    {
      var w := if editable then SelectEntryField(options, value) else SelectField(options, SelectOption(options, "", value));
      AddEntryWidget(name, w);
    }

    /** Inputs: the names in the order they were added, each once. */
    function Inputs(): (r: seq<string>)
      reads this
      requires Valid()
      ensures NoDups(r)
      ensures forall name :: name in r <==> name in inputs
    {
      order
    }

    /** Widget: the widget of a registered name, None otherwise. */
    function Widget(name: string): (r: Option<Widget>)
      reads this
      ensures r.Some? <==> name in inputs
      ensures r.Some? ==> r.value == inputs[name].widget
    {
      if name in inputs then Some(inputs[name].widget) else None
    }

    /** ReadString: "" for an unknown name; hidden and disabled inputs are
        read like the others. */
    function ReadString(name: string): (r: string)
      reads this
      ensures name !in inputs ==> r == ""
      ensures name in inputs ==> r == ReadValue(inputs[name].widget)
    {
      match Widget(name)
      case None => ""
      case Some(w) => ReadValue(w)
    }

    /** WriteString: a check is ticked by any non-empty value, "false"
        included. */
    method WriteString(name: string, value: string)
      requires Valid()
      modifies this`inputs
      ensures Valid()
      ensures name !in old(inputs) ==> inputs == old(inputs)
      ensures name in old(inputs) ==>
        inputs == old(inputs)[name := old(inputs)[name].(widget := WriteValue(old(inputs)[name].widget, value, NonEmptyRule))]
      ensures name in old(inputs) && old(inputs)[name].widget.CheckField? ==> ReadString(name) == FormatBool(value != "")
    {
      if name !in inputs {
        return;
      }
      var b := inputs[name];
      WriteThenRead(b.widget, value, NonEmptyRule);
      inputs := inputs[name := b.(widget := WriteValue(b.widget, value, NonEmptyRule))];
    }

    /** SetOptions: see WithOptions; an unknown name is ignored. */
    method SetOptions(name: string, value: string)
      requires Valid()
      modifies this`inputs
      ensures Valid()
      ensures name !in old(inputs) ==> inputs == old(inputs)
      ensures name in old(inputs) ==>
        inputs == old(inputs)[name := old(inputs)[name].(widget := WithOptions(old(inputs)[name].widget, value))]
      ensures ReadString(name) == old(ReadString(name))
    {
      if name !in inputs {
        return;
      }
      var b := inputs[name];
      OptionsKeepValue(b.widget, value);
      inputs := inputs[name := b.(widget := WithOptions(b.widget, value))];
    }

    /** Hide or Show called by the application on the widget that Widget
        returns. */
    method SetVisible(name: string, visible: bool)
      requires Valid()
      modifies this`inputs
      ensures Valid()
      ensures name !in old(inputs) ==> inputs == old(inputs)
      ensures name in old(inputs) ==> inputs == old(inputs)[name := old(inputs)[name].(visible := visible)]
    {
      if name in inputs {
        inputs := inputs[name := inputs[name].(visible := visible)];
      }
    }

    /** Focus: gives keyboard focus to a registered visible focusable input
        when the box is on a canvas. */
    method Focus(name: string, onCanvas: bool)
      modifies this`focused
      ensures focused == if onCanvas && CanFocus(name, inputs) then Some(name) else old(focused)
    {
      if onCanvas && CanFocus(name, inputs) {
        focused := Some(name);
      }
    }

    /** GetStatus: whether a registered, visible, disableable input is
        enabled; false for every other name. */
    function GetStatus(name: string): (b: bool)
      reads this
      ensures b ==> name in inputs && inputs[name].visible && Disableable(inputs[name].widget)
      ensures name in inputs && inputs[name].visible && Disableable(inputs[name].widget) ==> b == !inputs[name].disabled
    {
      name in inputs && inputs[name].visible && Disableable(inputs[name].widget) && !inputs[name].disabled
    }

    /** SetStatus: enables or disables a registered, visible, disableable
        input; any other name is left alone. */
    method SetStatus(name: string, enable: bool)
      requires Valid()
      modifies this`inputs
      ensures Valid()
      ensures !(name in old(inputs) && old(inputs)[name].visible && Disableable(old(inputs)[name].widget)) ==> inputs == old(inputs)
      ensures name in old(inputs) && old(inputs)[name].visible && Disableable(old(inputs)[name].widget) ==>
        && inputs == old(inputs)[name := old(inputs)[name].(disabled := !enable)]
        && GetStatus(name) == enable
    {
      if name in inputs && inputs[name].visible && Disableable(inputs[name].widget) {
        inputs := inputs[name := inputs[name].(disabled := !enable)];
      }
    }

    /** GetSubmitable: false while there is no validate button. */
    function GetSubmitable(): (b: bool)
      reads this
      ensures b ==> btnOk.Some?
      ensures btnOk.Some? ==> b == btnOk.value
    {
      btnOk.Some? && btnOk.value
    }

    /** SetSubmitable: enables or disables the validate button; nothing
        while there is none. */
    method SetSubmitable(b: bool)
      modifies this`btnOk
      ensures btnOk.Some? == old(btnOk).Some?
      ensures GetSubmitable() == (btnOk.Some? && b)
    {
      if btnOk.Some? {
        btnOk := Some(b);
      }
    }
  }
}
