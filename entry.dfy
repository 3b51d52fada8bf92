/** EntryEx: a fyne Entry with a read-only mode, a rune modifier, a case
    modifier for single-line entries, an AcceptTab switch and hooks that can
    block typed runes, keys and shortcuts. What the base entry does with a
    forwarded event is fyne's; the model records what reaches it. */
module EntryGate {
  import opened TextUtil
  import opened Events

  /** The read-only rule of EntryEx.TypedKey: Enter, Return, Backspace and
      Delete are dropped, and Tab too when the entry accepts tabs. */
  predicate ReadOnlyDropsKey(acceptTab: bool, k: Key)
  {
    EditingKey(k) || (k == KeyTab && acceptTab)
  }

  /** The text onChanged keeps: the case modifier applies only to a
      single-line entry. */
  function CaseModified(multiLine: bool, caseModifier: Option<string -> string>, s: string): (r: string)
    ensures multiLine || caseModifier.None? ==> r == s
    ensures !multiLine && caseModifier.Some? ==> r == caseModifier.value(s)
  {
    if !multiLine && caseModifier.Some? then caseModifier.value(s) else s
  }

  /** A read-only EntryEx forwards no key that edits or submits the text,
      and no rune at all. */
  lemma ReadOnlyForwardsNoEdit(acceptTab: bool, keyHook: Option<Key -> bool>, k: Key,
                               modifier: Option<char -> char>, runeHook: Option<char -> bool>, r: char)
    ensures KeyVerdict(ReadOnlyDropsKey(acceptTab, k), keyHook, k).Forward? ==> !EditingKey(k)
    ensures acceptTab && KeyVerdict(ReadOnlyDropsKey(acceptTab, k), keyHook, k).Forward? ==> k != KeyTab
    ensures RuneVerdict(true, modifier, runeHook, r) == Drop
  {
  }

  /** Tab reaches a read-only entry exactly when the entry does not take
      tabs itself (so focus can move on) and no hook blocks it. */
  lemma ReadOnlyTab(acceptTab: bool, keyHook: Option<Key -> bool>)
    ensures KeyVerdict(ReadOnlyDropsKey(acceptTab, KeyTab), keyHook, KeyTab).Forward? <==> !acceptTab && !Blocks(keyHook, KeyTab)
  {
  }

  class EntryEx {
    var text: string
    var cursorRow: int
    var cursorColumn: int
    var multiLine: bool
    var readOnly: bool
    var acceptTab: bool
    var runeModifier: Option<char -> char>
    var caseModifier: Option<string -> string>
    var runeHook: Option<char -> bool>
    var keyHook: Option<Key -> bool>
    var shortcutHook: Option<Shortcut -> bool>
    /** Events that reached the base entry, in order. */
    var runes: seq<char>
    var keys: seq<Key>
    var shortcuts: seq<Shortcut>
    /** Whether the user's OnChanged is set (non-nil). */
    var onChangedSet: bool
    /** Strings passed to the user's OnChanged. */
    var changes: seq<string>
    /** How many times the base entry gained focus. */
    var focusCount: nat

    /** NewEntryEx: more than one row makes the entry multi-line. */
    constructor (minRows: int)
      ensures text == "" && cursorRow == 0 && cursorColumn == 0
      ensures multiLine == (minRows > 1) && !readOnly && !acceptTab
      ensures runeModifier == None && caseModifier == None
      ensures runeHook == None && keyHook == None && shortcutHook == None
      ensures !onChangedSet
      ensures runes == [] && keys == [] && shortcuts == [] && changes == [] && focusCount == 0
    {
      text, cursorRow, cursorColumn := "", 0, 0;
      onChangedSet := false;
      multiLine, readOnly, acceptTab := minRows > 1, false, false;
      runeModifier, caseModifier := None, None;
      runeHook, keyHook, shortcutHook := None, None, None;
      runes, keys, shortcuts, changes, focusCount := [], [], [], [], 0;
    }

    /** onChanged, installed as the base entry's OnChanged: a single-line
        entry with a case modifier rewrites its text, and the user's
        OnChanged, when set, receives the rewritten string. */
    method OnChanged(s: string)
      modifies this`text, this`changes
      ensures var m := CaseModified(multiLine, caseModifier, s);
        && text == (if !multiLine && caseModifier.Some? then m else old(text))
        && changes == old(changes) + if onChangedSet then [m] else []
    {
      var m := s;
      if !multiLine && caseModifier.Some? {
        m := caseModifier.value(s);
        text := m;
      }
      if onChangedSet {
        changes := changes + [m];
      }
    }

    /** AcceptsTab. */
    function AcceptsTab(): (b: bool)
      reads this
      ensures b == acceptTab
    {
      acceptTab
    }

    /** SetText: the cursor goes to row 0, column 0, then the base entry's
        SetText replaces the text and, if it changed, calls onChanged. */
    method SetText(s: string)
      modifies this`text, this`changes, this`cursorRow, this`cursorColumn
      ensures cursorRow == 0 && cursorColumn == 0
      ensures old(text) == s ==> text == s && changes == old(changes)
      ensures old(text) != s ==> var m := CaseModified(multiLine, caseModifier, s);
        && text == m && changes == old(changes) + if onChangedSet then [m] else []
    {
      cursorColumn, cursorRow := 0, 0;
      var changed := text != s;
      text := s;
      if changed {
        OnChanged(s);
      }
    }

    /** FocusGained: ignored while read-only. */
    method FocusGained()
      modifies this`focusCount
      ensures focusCount == old(focusCount) + if readOnly then 0 else 1
    {
      if readOnly {
        return;
      }
      focusCount := focusCount + 1;
    }

    method TypedRune(r: char)
      modifies this`runes
      ensures var v := RuneVerdict(readOnly, runeModifier, runeHook, r);
        runes == old(runes) + if v.Forward? then [v.event] else []
    {
      if readOnly {
        return;
      }
      var m := r;
      if runeModifier.Some? {
        m := runeModifier.value(r);
      }
      if Blocks(runeHook, m) {
        return;
      }
      runes := runes + [m];
    }

    method TypedKey(k: Key)
      modifies this`keys
      ensures var v := KeyVerdict(readOnly && ReadOnlyDropsKey(acceptTab, k), keyHook, k);
        keys == old(keys) + if v.Forward? then [k] else []
    {
      if readOnly {
        if k == KeyEnter || k == KeyReturn || k == KeyBackspace || k == KeyDelete {
          return;
        }
        if k == KeyTab && acceptTab {
          return;
        }
      }
      if Blocks(keyHook, k) {
        return;
      }
      keys := keys + [k];
    }

    method TypedShortcut(s: Shortcut)
      modifies this`shortcuts
      ensures var v := ShortcutVerdict(readOnly, shortcutHook, s);
        shortcuts == old(shortcuts) + if v.Forward? then [v.event] else []
    {
      var t := s;
      if readOnly {
        match s
        case ShortcutPaste(_) => return;
        case ShortcutCut => t := ShortcutCopy;
        case _ =>
      }
      if Blocks(shortcutHook, t) {
        return;
      }
      shortcuts := shortcuts + [t];
    }
  }
}
