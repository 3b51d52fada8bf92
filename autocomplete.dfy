/** AutoComplete: a fyne Entry with a pop-up list of suggestions beneath it.
    The list is a fyne List whose OnSelected callback copies the selected row
    into `selected` and whose OnUnselected callback sets it to -1. fyne's
    List.Select(i) does nothing when i is already selected or lies outside
    [0, Length); otherwise it drops the old selection (OnUnselected) and
    selects i (OnSelected). UnselectAll does nothing on an empty selection. */
module Completion {
  import opened TextUtil
  import opened Events

  /** The row KeyDown selects: the next one, or the first after the last
      (or when nothing, -1, is selected). */
  function DownTarget(selected: int, n: int): (t: int)
    ensures -1 <= selected < n ==> 0 <= t < n || n <= 0
  {
    if selected < n - 1 then selected + 1 else 0
  }

  /** The row KeyUp selects: the previous one, or the last from the first
      (or when nothing is selected). */
  function UpTarget(selected: int, n: int): (t: int)
    ensures -1 <= selected < n && n > 0 ==> 0 <= t < n
  {
    if selected > 0 then selected - 1 else n - 1
  }

  /** Up undoes Down and Down undoes Up on every row of a non-empty list. */
  lemma UpDownInverse(selected: int, n: int)
    requires 0 <= selected < n
    ensures UpTarget(DownTarget(selected, n), n) == selected
    ensures DownTarget(UpTarget(selected, n), n) == selected
  {
  }

  /** Pressing Down k times from a row. */
  function DownTimes(selected: int, n: int, k: nat): int
  {
    if k == 0 then selected else DownTarget(DownTimes(selected, n, k - 1), n)
  }

  lemma {:induction false} DownTimesAdd(selected: int, n: int, a: nat, b: nat)
    ensures DownTimes(selected, n, a + b) == DownTimes(DownTimes(selected, n, a), n, b)
  {
    if b > 0 {
      DownTimesAdd(selected, n, a, b - 1);
    }
  }

  /** Before the last row, each Down press moves one row on. */
  lemma {:induction false} DownAdvances(selected: int, n: int, k: nat)
    requires 0 <= selected && selected + k < n
    ensures DownTimes(selected, n, k) == selected + k
  {
    if k > 0 {
      DownAdvances(selected, n, k - 1);
    }
  }

  /** Pressing Down n times on a list of n rows comes back to the start
      row, having visited every row: the selection cycles. */
  lemma DownCycles(selected: int, n: int)
    requires 0 <= selected < n
    ensures DownTimes(selected, n, n) == selected
    ensures forall k :: 0 <= k < n - selected ==> DownTimes(selected, n, k) == selected + k
  {
    forall k | 0 <= k < n - selected
      ensures DownTimes(selected, n, k) == selected + k
    {
      DownAdvances(selected, n, k);
    }
    DownAdvances(selected, n, n - selected - 1);
    assert DownTimes(selected, n, n - selected) == 0;
    DownAdvances(0, n, selected);
    DownTimesAdd(selected, n, n - selected, selected);
  }

  /** The cursor column setTextFromList computes: Go's len, the number of
      UTF-8 bytes of the text. */
  function CursorAfterCompletionAsWritten(t: string): (c: nat)
    ensures c >= |t|
  {
    Utf8Len(t)
  }

  /** The byte count is a column past the end of the text as soon as the
      completion holds a character outside ASCII: completing "é" puts the
      cursor at column 2 of a one-character text. */
  lemma CursorPastEndOnNonAscii()
    ensures CursorAfterCompletionAsWritten("é") == 2 > |"é"|
  {
  }

  /** A call of the Entry's OnChanged, and whether the pop-up was paused
      (so that a ListShow made from it has no effect). */
  datatype Change = Change(text: string, paused: bool)

  class AutoComplete {
    var text: string
    var cursor: int
    var options: seq<string>
    /** CustomLength and CustomComplete; CustomLength is taken to answer the
        same length every time. */
    var customLength: Option<int>
    var customComplete: Option<int -> (string, bool)>
    var submitOnCompleted: bool
    /** Whether an OnSubmitted callback is set. */
    var hasOnSubmitted: bool
    var runeHook: Option<char -> bool>
    var keyHook: Option<Key -> bool>
    var shortcutHook: Option<Shortcut -> bool>
    var selected: int
    var pause: bool
    var readOnly: bool
    /** The list and the pop-up are created on the first ListShow. */
    var listExists: bool
    /** The fyne List's own selection. */
    var listSel: Option<int>
    var popupExists: bool
    var popupVisible: bool
    /** What reached the base entry, what OnSubmitted received and the
        Entry's OnChanged calls. */
    var runes: seq<char>
    var keys: seq<Key>
    var shortcuts: seq<Shortcut>
    var submitted: seq<string>
    var changes: seq<Change>

    /** data_length. */
    function Length(): (n: int)
      reads this
      ensures customLength.None? ==> n == |options|
    {
      if customLength.Some? then customLength.value else |options|
    }

    /** Whether data_complete(id) has an answer: a custom completion always
        does; the default one indexes Options. */
    predicate CompleteDefined(id: int)
      reads this
    {
      customComplete.Some? || 0 <= id < |options|
    }

    /** data_complete: the text an item fills in, and whether the pop-up
        closes; by default the option itself, closing. */
    function Complete(id: int): (r: (string, bool))
      reads this
      requires CompleteDefined(id)
      ensures customComplete.None? ==> r == (options[id], true)
    {
      if customComplete.Some? then customComplete.value(id) else (options[id], true)
    }

    /** The list's selection and `selected` agree, and a selected row exists. */
    ghost predicate Valid()
      reads this
    {
      && (popupExists ==> listExists)
      && (listExists && listSel.None? ==> selected == -1)
      && (listSel.Some? ==> listExists && selected == listSel.value && 0 <= selected < Length())
    }

    /** NewAutoComplete, with the fields the caller then sets. */
    constructor (options: seq<string>, customLength: Option<int>, customComplete: Option<int -> (string, bool)>,
                 submitOnCompleted: bool, hasOnSubmitted: bool)
      ensures Valid() && text == "" && cursor == 0 && selected == 0 && !pause && !readOnly
      ensures this.options == options && this.customLength == customLength && this.customComplete == customComplete
      ensures this.submitOnCompleted == submitOnCompleted && this.hasOnSubmitted == hasOnSubmitted
      ensures !listExists && listSel.None? && !popupExists && !popupVisible
      ensures runeHook == None && keyHook == None && shortcutHook == None
      ensures runes == [] && keys == [] && shortcuts == [] && submitted == [] && changes == []
    {
      text, cursor := "", 0;
      this.options, this.customLength, this.customComplete := options, customLength, customComplete;
      this.submitOnCompleted, this.hasOnSubmitted := submitOnCompleted, hasOnSubmitted;
      runeHook, keyHook, shortcutHook := None, None, None;
      selected, pause, readOnly := 0, false, false;
      listExists, listSel, popupExists, popupVisible := false, None, false, false;
      runes, keys, shortcuts, submitted, changes := [], [], [], [], [];
    }

    /** fyne's List.Select(id) on the suggestion list, with its callbacks. */
    method Select(id: int)
      requires Valid() && listExists
      modifies this`listSel, this`selected
      ensures Valid()
      ensures 0 <= id < Length() ==> listSel == Some(id) && selected == id
      ensures !(0 <= id < Length()) ==> listSel == old(listSel) && selected == old(selected)
    {
      if listSel == Some(id) {
        return;
      }
      if id < 0 || id >= Length() {
        return;
      }
      var old_ := listSel;
      listSel := Some(id);
      if old_.Some? {
        selected := -1;
      }
      selected := id;
    }

    /** fyne's List.UnselectAll, with OnUnselected. */
    method UnselectAll()
      requires Valid() && listExists
      modifies this`listSel, this`selected
      ensures Valid() && listSel.None? && selected == -1
    {
      if listSel.None? {
        return;
      }
      listSel := None;
      selected := -1;
    }

    /** ListHide: once the pop-up exists, the selection is dropped and the
        pop-up hidden. */
    method ListHide()
      requires Valid()
      modifies this`listSel, this`selected, this`popupVisible
      ensures Valid()
      ensures old(popupExists) ==> listSel.None? && selected == -1 && !popupVisible
      ensures !old(popupExists) ==> listSel == old(listSel) && selected == old(selected) && popupVisible == old(popupVisible)
    {
      if popupExists {
        UnselectAll();
        popupVisible := false;
      }
    }

    /** ListVisible. */
    function ListVisible(): (b: bool)
      reads this
      ensures b ==> popupExists
    {
      popupExists && popupVisible
    }

    /** ListShow, given whether the widget is on a canvas: nothing while
        paused or read-only; an empty list is hidden; otherwise the pop-up
        is shown with the first row selected. */
    method ListShow(onCanvas: bool)
      requires Valid()
      modifies this`listExists, this`listSel, this`selected, this`popupExists, this`popupVisible
      ensures Valid()
      ensures pause || readOnly || (Length() > 0 && !onCanvas) ==>
        listExists == old(listExists) && listSel == old(listSel) && selected == old(selected)
        && popupExists == old(popupExists) && popupVisible == old(popupVisible)
      ensures !pause && !readOnly && Length() <= 0 ==>
        listExists == old(listExists) && popupExists == old(popupExists)
        && (old(popupExists) ==> listSel.None? && selected == -1 && !popupVisible)
        && (!old(popupExists) ==> listSel == old(listSel) && selected == old(selected) && popupVisible == old(popupVisible))
      ensures !pause && !readOnly && Length() > 0 && onCanvas ==>
        ListVisible() && listSel == Some(0) && selected == 0
    {
      if pause || readOnly {
        return;
      }
      if Length() <= 0 {
        ListHide();
        return;
      }
      if !onCanvas {
        return;
      }
      if !listExists {
        listExists := true;
        listSel := None;
        selected := -1;
      }
      popupExists := true;
      popupVisible := true;
      Select(0);
    }

    /** SetText: the base entry's SetText with the pop-up paused, so that a
        ListShow from the OnChanged callback does nothing. */
    method SetText(s: string)
      requires 0 <= cursor <= |text|
      modifies this`text, this`cursor, this`pause, this`changes
      ensures text == s && 0 <= cursor <= |text| && !pause
      ensures old(cursor) <= |s| ==> cursor == old(cursor)
      ensures changes == old(changes) + if old(text) != s then [Change(s, true)] else []
    {
      pause := true;
      if text != s {
        changes := changes + [Change(s, true)];
      }
      text := s;
      if cursor > |s| {
        cursor := |s|;
      }
      pause := false;
    }

    /** setTextFromList: the item's completion becomes the text, with the
        cursor at its end (counted in characters); OnSubmitted receives it
        when SubmitOnCompleted is set; the pop-up is hidden when the
        completion asks to close. */
    method SetTextFromList(id: int)
      requires Valid() && CompleteDefined(id)
      modifies this`text, this`cursor, this`pause, this`submitted, this`popupVisible
      ensures Valid() && !pause
      ensures text == Complete(id).0 && cursor == |text|
      ensures submitted == old(submitted) + if submitOnCompleted && hasOnSubmitted then [text] else []
      ensures popupVisible == (old(popupVisible) && !Complete(id).1)
    {
      pause := true;
      var r := Complete(id);
      text := r.0;
      cursor := |text|;
      pause := false;
      if submitOnCompleted && hasOnSubmitted {
        submitted := submitted + [text];
      }
      if r.1 {
        popupVisible := false;
      }
    }

    method TypedRune(r: char)
      modifies this`runes
      ensures var v := RuneVerdict(readOnly, None, runeHook, r);
        runes == old(runes) + if v.Forward? then [r] else []
    {
      if readOnly {
        return;
      }
      if Blocks(runeHook, r) {
        return;
      }
      runes := runes + [r];
    }

    /** TypedKey: read-only drops every key. */
    method TypedKey(k: Key)
      modifies this`keys
      ensures var v := KeyVerdict(readOnly, keyHook, k);
        keys == old(keys) + if v.Forward? then [k] else []
    {
      if readOnly {
        return;
      }
      if Blocks(keyHook, k) {
        return;
      }
      keys := keys + [k];
    }

    method TypedShortcut(s: Shortcut)
      modifies this`shortcuts
      ensures var v := ShortcutVerdict(readOnly, shortcutHook, s);
        shortcuts == old(shortcuts) + if v.Forward? then [v.event] else []
    {
      var t := s;
      if readOnly {
        match s
        case ShortcutPaste(_) => return;
        case ShortcutCut => t := ShortcutCopy;
        case _ =>
      }
      if Blocks(shortcutHook, t) {
        return;
      }
      shortcuts := shortcuts + [t];
    }

    /** SetReadOnly: the pop-up is hidden as well. */
    method SetReadOnly(b: bool)
      requires Valid()
      modifies this`readOnly, this`listSel, this`selected, this`popupVisible
      ensures Valid() && readOnly == b
      ensures old(popupExists) ==> selected == -1 && !popupVisible
      ensures !old(popupExists) ==> selected == old(selected) && popupVisible == old(popupVisible)
    {
      readOnly := b;
      ListHide();
    }

    /** FocusLost: the pop-up is hidden. */
    method FocusLost()
      requires Valid()
      modifies this`listSel, this`selected, this`popupVisible
      ensures Valid()
      ensures old(popupExists) ==> selected == -1 && !popupVisible
      ensures !old(popupExists) ==> selected == old(selected) && popupVisible == old(popupVisible)
    {
      ListHide();
    }

    /** The list's TypedKey: Down and Up move the selection with
        wrap-around; Enter or Return completes from the selected row, or,
        with none, hides the list and hands the key straight to the base
        entry; Tab and Escape hide the list; any other key goes through the
        widget's own TypedKey. */
    method ListTypedKey(k: Key)
      requires Valid() && popupExists
      requires (k == KeyEnter || k == KeyReturn) && selected >= 0 ==> CompleteDefined(selected)
      modifies this`text, this`cursor, this`pause, this`submitted, this`popupVisible, this`listSel, this`selected, this`keys
      ensures Valid()
      ensures k == KeyDown || k == KeyUp ==>
        var t := if k == KeyDown then DownTarget(old(selected), old(Length())) else UpTarget(old(selected), old(Length()));
        selected == (if 0 <= t < Length() then t else old(selected))
        && text == old(text) && keys == old(keys) && popupVisible == old(popupVisible)
        && cursor == old(cursor) && submitted == old(submitted)
      ensures (k == KeyEnter || k == KeyReturn) && old(selected) >= 0 ==>
        && text == old(Complete(selected)).0 && cursor == |text| && keys == old(keys) && selected == old(selected)
        && submitted == old(submitted) + (if submitOnCompleted && hasOnSubmitted then [text] else [])
        && popupVisible == (old(popupVisible) && !old(Complete(selected)).1)
      ensures (k == KeyEnter || k == KeyReturn) && old(selected) < 0 ==>
        && text == old(text) && keys == old(keys) + [k] && !popupVisible
        && cursor == old(cursor) && submitted == old(submitted)
      ensures k == KeyTab || k == KeyEscape ==>
        && text == old(text) && keys == old(keys) && selected == -1 && !popupVisible
        && cursor == old(cursor) && submitted == old(submitted)
      ensures !(k in {KeyDown, KeyUp, KeyEnter, KeyReturn, KeyTab, KeyEscape}) ==>
        keys == old(keys) + (if KeyVerdict(readOnly, keyHook, k).Forward? then [k] else [])
        && text == old(text) && selected == old(selected)
        && cursor == old(cursor) && submitted == old(submitted) && popupVisible == old(popupVisible)
    {
      if k == KeyDown {
        Select(DownTarget(selected, Length()));
      } else if k == KeyUp {
        Select(UpTarget(selected, Length()));
      } else if k == KeyEnter || k == KeyReturn {
        if selected >= 0 {
          SetTextFromList(selected);
        } else {
          ListHide();
          keys := keys + [k];
        }
      } else if k == KeyTab || k == KeyEscape {
        ListHide();
      } else {
        TypedKey(k);
      }
    }

    /** Tapping a row completes from it. */
    method ItemTapped(id: int)
      requires Valid() && CompleteDefined(id)
      modifies this`text, this`cursor, this`pause, this`submitted, this`popupVisible
      ensures Valid() && text == Complete(id).0 && cursor == |text|
      ensures submitted == old(submitted) + if submitOnCompleted && hasOnSubmitted then [text] else []
      ensures popupVisible == (old(popupVisible) && !Complete(id).1)
    {
      SetTextFromList(id);
    }

    /** The mouse entering a row selects it. */
    method ItemMouseIn(id: int)
      requires Valid() && listExists
      modifies this`listSel, this`selected
      ensures Valid()
      ensures 0 <= id < Length() ==> selected == id
      ensures !(0 <= id < Length()) ==> selected == old(selected)
    {
      Select(id);
    }
  }

  /** With the list shown, Down and Up keep the selection on a row of a
      non-empty list. */
  lemma ArrowKeysStayInList(selected: int, n: int)
    requires n > 0 && -1 <= selected < n
    ensures 0 <= DownTarget(selected, n) < n && 0 <= UpTarget(selected, n) < n
  {
  }
}
