/** InputFields: a form of named input widgets, laid out in one vertical box
    or in tabs, which reads and writes every field as a string. A nullable
    field carries a check box; unticking it disables the widget and makes
    the field read as "". */
module FieldRegistry {
  import opened TextUtil
  import opened FormWidgets

  type FieldID = string

  /** A registered field: its widget, its nullable check box (None when the
      field is not nullable), whether the widget is disabled, and the tab it
      was placed in (-1 for the single vertical box). */
  datatype Field = Field(widget: Widget, check: Option<bool>, disabled: bool, tab: int)

  /** The prefix of the ids given to fields added without one. */
  const NonamePrefix: string := "_noname_input_"

  /** The id dummyId gives the n-th field added without one. */
  function DummyName(n: int): (r: FieldID)
    ensures |r| > |NonamePrefix| && r[..|NonamePrefix|] == NonamePrefix
  {
    var r := NonamePrefix + Itoa(n);
    assert r[..|NonamePrefix|] == NonamePrefix;
    assert Itoa(n) != "" by { AtoiItoa(n); }
    r
  }

  /** Distinct positions give distinct dummy ids. */
  lemma DummyNamesDistinct(n: int, m: int)
    ensures DummyName(n) == DummyName(m) <==> n == m
  {
    if DummyName(n) == DummyName(m) {
      assert DummyName(n)[|NonamePrefix|..] == Itoa(n);
      assert DummyName(m)[|NonamePrefix|..] == Itoa(m);
      AtoiItoa(n);
      AtoiItoa(m);
    }
  }

  /** A new field: a nullable field whose widget can be disabled gets a
      ticked check box; any other field gets none. */
  function NewField(w: Widget, nullable: bool, tab: int): (f: Field)
    ensures f.widget == w && !f.disabled && f.tab == tab
    ensures f.check.Some? <==> nullable && Disableable(w)
    ensures f.check.Some? ==> f.check.value
  {
    Field(w, if nullable && Disableable(w) then Some(true) else None, false, tab)
  }

  /** What ReadString gives for a registered field: "" while its check box
      is unticked, otherwise the widget's own reading. */
  function ReadField(f: Field): string
  {
    if f.check == Some(false) then "" else ReadValue(f.widget)
  }

  /** What WriteString does to a registered field: the widget takes the
      value, a check through strconv.ParseBool; the check box is untouched. */
  function WriteField(f: Field, value: string): (g: Field)
    requires WellFormed(f.widget)
    ensures WellFormed(g.widget) && g.check == f.check && g.disabled == f.disabled && g.tab == f.tab
  {
    f.(widget := WriteValue(f.widget, value, ParseBoolRule))
  }

  /** The registry's index invariant: no id twice in the order, and the ids
      in the order are exactly the keys of the map. */
  ghost predicate Indexed(inputs: map<FieldID, Field>, order: seq<FieldID>)
  {
    NoDups(order) && forall id :: id in inputs <==> id in order
  }

  /** addWidget's registration, with the id already given its dummy value:
      a key already present changes nothing; a new key is mapped to the
      field and appended to the order. */
  function Register(inputs: map<FieldID, Field>, order: seq<FieldID>, key: FieldID, f: Field)
    : (r: (map<FieldID, Field>, seq<FieldID>))
    ensures key in inputs ==> r == (inputs, order)
    ensures key !in inputs ==> r.1 == order + [key]
    ensures key in r.0 && r.0.Keys == inputs.Keys + {key}
    ensures key !in inputs ==> r.0[key] == f
    ensures forall id :: id in inputs ==> r.0[id] == inputs[id]
  {
    if key in inputs then (inputs, order) else (inputs[key := f], order + [key])
  }

  /** Registering keeps the index invariant. */
  lemma RegisterKeepsIndex(inputs: map<FieldID, Field>, order: seq<FieldID>, key: FieldID, f: Field)
    requires Indexed(inputs, order)
    ensures var r := Register(inputs, order, key, f); Indexed(r.0, r.1)
  {
    if key !in inputs {
      var o := order + [key];
      forall i, j | 0 <= i < j < |o|
        ensures o[i] != o[j]
      {
        if j == |order| {
          assert o[i] == order[i];
          assert o[i] in inputs;
        }
      }
    }
  }

  /** addWidget as written: the presence test is made on the id as given,
      and only then is an empty id replaced by its dummy value. */
  function AddWidgetAsWritten(inputs: map<FieldID, Field>, order: seq<FieldID>, id: FieldID, f: Field)
    : (r: (map<FieldID, Field>, seq<FieldID>))
    ensures id != "" ==> r == Register(inputs, order, id, f)
  {
    if id in inputs then (inputs, order)
    else
      var key := if id == "" then DummyName(|order| + 1) else id;
      (inputs[key := f], order + [key])
  }

  /** AddLabel passes an empty id straight to addWidget. When a field was
      registered under the id the dummy would take, the label overwrites it
      and the id appears twice in the order. */
  lemma AddLabelAsWrittenDuplicates(f: Field, g: Field)
    ensures var taken := DummyName(2);
      var r := AddWidgetAsWritten(map[taken := f], [taken], "", g);
      && Indexed(map[taken := f], [taken])
      && r.1 == [taken, taken] && !NoDups(r.1)
      && r.0[taken] == g
  {
    var taken := DummyName(2);
    assert "" !in map[taken := f];
    assert DummyName(|[taken]| + 1) == taken;
    var r := AddWidgetAsWritten(map[taken := f], [taken], "", g);
    assert r.1 == [taken] + [taken];
    assert r.0 == map[taken := f][taken := g];
    assert r.1[0] == r.1[1];
  }

  /** Every AddXxx method but AddLabel gives its id a dummy value before
      calling addWidget, so on those paths the code as written keeps the
      index invariant. */
  lemma AsWrittenNamedIdsKeepIndex(inputs: map<FieldID, Field>, order: seq<FieldID>, id: FieldID, f: Field)
    requires Indexed(inputs, order) && id != ""
    ensures var r := AddWidgetAsWritten(inputs, order, id, f); Indexed(r.0, r.1)
  {
    RegisterKeepsIndex(inputs, order, id, f);
  }

  class InputFields {
    var inputs: map<FieldID, Field>
    var order: seq<FieldID>
    /** Titles of the tabs, in order. */
    var tabs: seq<string>
    /** Whether the single vertical box exists. */
    var hasVBox: bool
    /** Whether an OnChanged callback is installed. */
    var onChangedSet: bool
    /** Ids passed to the OnChanged callback, in order. */
    var notified: seq<FieldID>
    /** The decorations added, each with the tab it went to (-1 for the
        single vertical box). */
    var decorations: seq<(int, Decoration)>

    ghost predicate Valid()
      reads this`inputs, this`order, this`tabs, this`hasVBox
    {
      && Indexed(inputs, order)
      && "" !in inputs
      && (hasVBox ==> tabs == [])
      && forall id | id in inputs :: FieldOk(inputs[id])
    }

    /** A field's own invariant: its widget is well formed, only a
        disableable widget has a check box, the widget is disabled exactly
        while that box is unticked, and its tab exists. */
    ghost predicate FieldOk(f: Field)
      reads this`tabs, this`hasVBox
    {
      && WellFormed(f.widget)
      && (f.check.Some? ==> Disableable(f.widget) && f.disabled == !f.check.value)
      && (f.check.None? ==> !f.disabled)
      && (if f.tab == -1 then hasVBox else 0 <= f.tab < |tabs|)
    }

    /** NewInputFields. */
    constructor ()
      ensures Valid()
      ensures inputs == map[] && order == [] && tabs == [] && !hasVBox
      ensures !onChangedSet && notified == [] && decorations == []
    {
      inputs, order, tabs, hasVBox := map[], [], [], false;
      onChangedSet, notified, decorations := false, [], [];
    }

    /** AddTab: ignored for an empty title or once fields sit in the single
        vertical box. */
    method AddTab(title: string)
      requires Valid()
      modifies this`tabs
      ensures Valid()
      ensures tabs == if title == "" || hasVBox then old(tabs) else old(tabs) + [title]
    {
      if title == "" || hasVBox {
        return;
      }
      tabs := tabs + [title];
    }

    /** currentVBox: with no tabs, the single vertical box is created on
        first use, and from then on AddTab is ignored; otherwise the last
        tab is the current box. */
    method CurrentVBox()
      requires Valid()
      modifies this`hasVBox
      ensures Valid() && hasVBox == (old(hasVBox) || tabs == [])
    {
      if tabs == [] {
        hasVBox := true;
      }
    }

    /** The structure calls: the decoration goes into the current box. */
    method AddDecoration(d: Decoration)
      requires Valid()
      modifies this`hasVBox, this`decorations
      ensures Valid() && hasVBox == (old(hasVBox) || tabs == [])
      ensures decorations == old(decorations) + [(|tabs| - 1, d)]
    {
      CurrentVBox();
      decorations := decorations + [(|tabs| - 1, d)];
    }

    /** AddSeparator. */
    method AddSeparator()
      requires Valid()
      modifies this`hasVBox, this`decorations
      ensures Valid() && hasVBox == (old(hasVBox) || tabs == [])
      ensures decorations == old(decorations) + [(|tabs| - 1, Separator)]
    {
      AddDecoration(Separator);
    }

    /** AddTitle; the id, style and alignment are not kept. */
    method AddTitle(id: FieldID, text: string)
      requires Valid()
      modifies this`hasVBox, this`decorations
      ensures Valid() && hasVBox == (old(hasVBox) || tabs == [])
      ensures decorations == old(decorations) + [(|tabs| - 1, Title(text))]
    {
      AddDecoration(Title(text));
    }

    /** AddTitleMkd; the id is not kept. */
    method AddTitleMkd(id: FieldID, text: string)
      requires Valid()
      modifies this`hasVBox, this`decorations
      ensures Valid() && hasVBox == (old(hasVBox) || tabs == [])
      ensures decorations == old(decorations) + [(|tabs| - 1, TitleMkd(text))]
    {
      AddDecoration(TitleMkd(text));
    }

    /** dummyId: an empty id becomes "_noname_input_" followed by the
        number of fields registered so far plus one. */
    function DummyId(id: FieldID): (r: FieldID)
      reads this
      ensures r != ""
      ensures id != "" ==> r == id
      ensures id == "" ==> r == DummyName(|order| + 1)
    {
      if id == "" then DummyName(|order| + 1) else id
    }

    /** onChanged: the id reaches the callback when one is installed. */
    method Notify(id: FieldID)
      modifies this`notified
      ensures notified == old(notified) + if onChangedSet then [id] else []
    {
      if onChangedSet {
        notified := notified + [id];
      }
    }

    /** addWidget, with the dummy id given before the presence test (see
        AddLabelAsWrittenDuplicates): an id already present is ignored;
        otherwise the field goes into the current tab, or into the vertical
        box, created on first use, when there are no tabs. */
    method AddWidget(id: FieldID, nullable: bool, w: Widget)
      requires Valid() && WellFormed(w)
      modifies this`inputs, this`order, this`hasVBox
      ensures Valid()
      ensures var key := old(DummyId(id));
        && (inputs, order) == Register(old(inputs), old(order), key, NewField(w, nullable, |tabs| - 1))
        && hasVBox == (old(hasVBox) || (key !in old(inputs) && tabs == []))
    {
      var key := DummyId(id);
      if key in inputs {
        return;
      }
      CurrentVBox();
      RegisterKeepsIndex(inputs, order, key, NewField(w, nullable, |tabs| - 1));
      inputs, order := inputs[key := NewField(w, nullable, |tabs| - 1)], order + [key];
    }

    /** AddLabel: a label field, never nullable. */
    method AddLabel(id: FieldID, text: string)
      requires Valid()
      modifies this`inputs, this`order, this`hasVBox
      ensures Valid()
      ensures hasVBox == (old(hasVBox) || (old(DummyId(id)) !in old(inputs) && tabs == []))
      ensures (inputs, order) == Register(old(inputs), old(order), old(DummyId(id)), Field(Label(text), None, false, |tabs| - 1))
    {
      AddWidget(id, false, Label(text));
    }

    /** AddNumber: a number entry with Float and Signed set, filled by
        SetText(value). */
    method AddNumber(id: FieldID, nullable: bool, value: string, float: bool, signed: bool)
      requires Valid()
      modifies this`inputs, this`order, this`hasVBox
      ensures Valid()
      ensures hasVBox == (old(hasVBox) || (old(DummyId(id)) !in old(inputs) && tabs == []))
      ensures (inputs, order) == Register(old(inputs), old(order), old(DummyId(id)),
                                          NewField(NewNumber(value, float, signed), nullable, |tabs| - 1))
    {
      AddWidget(id, nullable, NewNumber(value, float, signed));
    }

    /** AddDate: a date entry filled by SetText(value). */
    method AddDate(id: FieldID, nullable: bool, value: string)
      requires Valid()
      modifies this`inputs, this`order, this`hasVBox
      ensures Valid()
      ensures hasVBox == (old(hasVBox) || (old(DummyId(id)) !in old(inputs) && tabs == []))
      ensures (inputs, order) == Register(old(inputs), old(order), old(DummyId(id)),
                                          NewField(NewDate(value), nullable, |tabs| - 1))
    {
      AddWidget(id, nullable, NewDate(value));
    }

    /** AddSelect: the value is assigned to Selected (or to the text of an
        editable select) directly, so it need not be one of the options. */
    method AddSelect(id: FieldID, nullable: bool, options: seq<string>, value: string, editable: bool)
      requires Valid()
      modifies this`inputs, this`order, this`hasVBox
      ensures Valid()
      ensures hasVBox == (old(hasVBox) || (old(DummyId(id)) !in old(inputs) && tabs == []))
      ensures var w := if editable then SelectEntryField(options, value) else SelectField(options, value);
        (inputs, order) == Register(old(inputs), old(order), old(DummyId(id)), NewField(w, nullable, |tabs| - 1))
    {
      var w := if editable then SelectEntryField(options, value) else SelectField(options, value);
      AddWidget(id, nullable, w);
    }

    /** AddCheck: a check box with its caption and state. */
    method AddCheck(id: FieldID, nullable: bool, caption: string, value: bool)
      requires Valid()
      modifies this`inputs, this`order, this`hasVBox
      ensures Valid()
      ensures hasVBox == (old(hasVBox) || (old(DummyId(id)) !in old(inputs) && tabs == []))
      ensures (inputs, order) == Register(old(inputs), old(order), old(DummyId(id)),
                                          NewField(CheckField(caption, value), nullable, |tabs| - 1))
    {
      AddWidget(id, nullable, CheckField(caption, value));
    }

    /** AddCheckGroup: the selection is assigned as given. */
    method AddCheckGroup(id: FieldID, nullable: bool, options: seq<string>, values: seq<string>)
      requires Valid()
      modifies this`inputs, this`order, this`hasVBox
      ensures Valid()
      ensures hasVBox == (old(hasVBox) || (old(DummyId(id)) !in old(inputs) && tabs == []))
      ensures (inputs, order) == Register(old(inputs), old(order), old(DummyId(id)),
                                          NewField(CheckGroupField(options, values), nullable, |tabs| - 1))
    {
      AddWidget(id, nullable, CheckGroupField(options, values));
    }

    /** AddActionButton: a button field, never nullable. */
    method AddActionButton(id: FieldID, text: string)
      requires Valid()
      modifies this`inputs, this`order, this`hasVBox
      ensures Valid()
      ensures hasVBox == (old(hasVBox) || (old(DummyId(id)) !in old(inputs) && tabs == []))
      ensures (inputs, order) == Register(old(inputs), old(order), old(DummyId(id)), Field(ButtonField(text), None, false, |tabs| - 1))
    {
      AddWidget(id, false, ButtonField(text));
    }

    /** GetNull: true only for a registered field whose check box is unticked. */
    function GetNull(id: FieldID): (b: bool)
      reads this
      ensures b <==> id in inputs && inputs[id].check == Some(false)
    {
      if id in inputs && inputs[id].check.Some? then !inputs[id].check.value else false
    }

    /** ReadString: "" for an unknown id and for a nulled field. */
    function ReadString(id: FieldID): (r: string)
      reads this
      ensures id !in inputs ==> r == ""
      ensures GetNull(id) ==> r == ""
      ensures id in inputs && !GetNull(id) ==> r == ReadValue(inputs[id].widget)
    {
      if id in inputs then ReadField(inputs[id]) else ""
    }

    /** WriteString: OnChanged is cleared for the write and restored after
        it, so a widget that reports the change reaches no callback. */
    method WriteString(id: FieldID, value: string)
      requires Valid()
      modifies this`inputs, this`onChangedSet, this`notified
      ensures Valid()
      ensures onChangedSet == old(onChangedSet) && notified == old(notified)
      ensures id !in old(inputs) ==> inputs == old(inputs)
      ensures id in old(inputs) ==> inputs == old(inputs)[id := WriteField(old(inputs)[id], value)]
      ensures id in old(inputs) && old(inputs)[id].widget.CheckField? && ParseBool(value).None? ==> inputs == old(inputs)
    {
      if id !in inputs {
        return;
      }
      var saved := onChangedSet;
      onChangedSet := false;
      var f := inputs[id];
      var g := WriteField(f, value);
      UpdateKeepsValid(id, g);
      inputs := inputs[id := g];
      if g.widget != f.widget {
        Notify(id);
      }
      onChangedSet := saved;
    }

    /** Replacing a registered field by a well-placed one keeps the
        registry valid. */
    lemma UpdateKeepsValid(id: FieldID, g: Field)
      requires Valid() && id in inputs && FieldOk(g)
      ensures var m := inputs[id := g];
        Indexed(m, order) && "" !in m && forall k | k in m :: FieldOk(m[k])
    {
      var m := inputs[id := g];
      assert m.Keys == inputs.Keys;
    }

    /** ReadAllString: one entry per registered id. */
    method ReadAllString() returns (r: map<FieldID, string>)
      requires Valid()
      ensures forall id :: id in r <==> id in order
      ensures forall id :: id in r <==> id in inputs
      ensures forall id :: id in r ==> r[id] == ReadString(id)
    {
      r := map[];
      var i := 0;
      while i < |order|
        invariant 0 <= i <= |order|
        invariant forall id :: id in r <==> id in order[..i]
        invariant forall id :: id in r ==> r[id] == ReadString(id)
      {
        assert order[..i + 1] == order[..i] + [order[i]];
        r := r[order[i] := ReadString(order[i])];
        i := i + 1;
      }
      assert order[..|order|] == order;
    }

    /** Inputs: the ids in the order they were added, each once. */
    function Inputs(): (r: seq<FieldID>)
      reads this
      requires Valid()
      ensures NoDups(r)
      ensures forall id :: id in r <==> id in inputs
      ensures |r| == |inputs.Keys|
    {
      IndexedCard(inputs, order);
      order
    }

    /** Widget: the widget of a registered id, None otherwise. */
    function Widget(id: FieldID): (r: Option<Widget>)
      reads this
      ensures r.Some? <==> id in inputs
      ensures r.Some? ==> r.value == inputs[id].widget
    {
      if id in inputs then Some(inputs[id].widget) else None
    }

    /** SetNull: sets the field's check box to !b. When that changes the box,
        its callback disables (or enables) the widget and reports the id to
        OnChanged. A field without a check box is left alone. */
    method SetNull(id: FieldID, b: bool)
      requires Valid()
      modifies this`inputs, this`notified
      ensures Valid()
      ensures id in old(inputs) && old(inputs)[id].check.Some? ==> GetNull(id) == b
      ensures id !in old(inputs) || old(inputs)[id].check != Some(b) ==> inputs == old(inputs) && notified == old(notified)
      ensures id in old(inputs) && old(inputs)[id].check == Some(b) ==>
        && inputs == old(inputs)[id := old(inputs)[id].(check := Some(!b), disabled := b)]
        && notified == old(notified) + if onChangedSet then [id] else []
    {
      if id !in inputs || inputs[id].check.None? {
        return;
      }
      var f := inputs[id];
      if f.check.value == !b {
        return;
      }
      inputs := inputs[id := f.(check := Some(!b), disabled := b)];
      Notify(id);
    }
  }

  lemma IndexedCard(inputs: map<FieldID, Field>, order: seq<FieldID>)
    requires Indexed(inputs, order)
    ensures |order| == |inputs.Keys|
  {
    NoDupsCard(order);
    assert (set i | i in order) == inputs.Keys;
  }

  lemma {:induction false} NoDupsCard(s: seq<FieldID>)
    requires NoDups(s)
    ensures |set i | i in s| == |s|
  {
    if s != [] {
      var t := s[1..];
      assert NoDups(t);
      NoDupsCard(t);
      assert s[0] !in t;
      assert (set i | i in s) == (set i | i in t) + {s[0]};
    }
  }

  /** A nullable field starts ticked, so it reads as its widget and GetNull
      is false; SetNull(id, b) then GetNull(id) gives b. */
  lemma NullableStartsTicked(w: Widget, tab: int)
    requires Disableable(w)
    ensures NewField(w, true, tab).check == Some(true)
    ensures ReadField(NewField(w, true, tab)) == ReadValue(w)
  {
  }
}
