/** SelectEntryEx: a fyne SelectEntry with a read-only mode and hooks that
    can block typed runes, keys and shortcuts. What the base select entry
    does with a forwarded event is fyne's; the model records what reaches
    it. */
module SelectEntryGate {
  import opened TextUtil
  import opened Events

  /** A read-only SelectEntryEx forwards no rune and none of Enter, Return,
      Backspace and Delete; every other key, Tab included, passes to the hook. */
  lemma ReadOnlyForwardsNoEdit(keyHook: Option<Key -> bool>, k: Key, runeHook: Option<char -> bool>, r: char)
    ensures KeyVerdict(EditingKey(k), keyHook, k).Forward? <==> !EditingKey(k) && !Blocks(keyHook, k)
    ensures KeyVerdict(EditingKey(KeyTab), keyHook, KeyTab).Forward? <==> !Blocks(keyHook, KeyTab)
    ensures RuneVerdict(true, None, runeHook, r) == Drop
  {
  }

  class SelectEntryEx {
    var text: string
    var cursorRow: int
    var cursorColumn: int
    var readOnly: bool
    /** Whether the drop-down button (the entry's action item) is enabled. */
    var actionEnabled: bool
    var runeHook: Option<char -> bool>
    var keyHook: Option<Key -> bool>
    var shortcutHook: Option<Shortcut -> bool>
    var runes: seq<char>
    var keys: seq<Key>
    var shortcuts: seq<Shortcut>
    /** Whether OnChanged is set (non-nil). */
    var onChangedSet: bool
    /** Strings passed to OnChanged. */
    var changes: seq<string>
    var focusCount: nat

    constructor ()
      ensures text == "" && cursorRow == 0 && cursorColumn == 0
      ensures !readOnly && actionEnabled
      ensures runeHook == None && keyHook == None && shortcutHook == None
      ensures !onChangedSet
      ensures runes == [] && keys == [] && shortcuts == [] && changes == [] && focusCount == 0
    {
      text, cursorRow, cursorColumn := "", 0, 0;
      onChangedSet := false;
      readOnly, actionEnabled := false, true;
      runeHook, keyHook, shortcutHook := None, None, None;
      runes, keys, shortcuts, changes, focusCount := [], [], [], [], 0;
    }

    /** SetReadOnly: the drop-down button is disabled exactly while read-only. */
    method SetReadOnly(b: bool)
      modifies this`readOnly, this`actionEnabled
      ensures readOnly == b && actionEnabled == !b
    {
      readOnly := b;
      actionEnabled := !b;
    }

    /** SetText: the cursor goes to row 0, column 0, then the base entry's
        SetText replaces the text and calls OnChanged, when set, if it changed. */
    method SetText(s: string)
      modifies this`text, this`changes, this`cursorRow, this`cursorColumn
      ensures text == s && cursorRow == 0 && cursorColumn == 0
      ensures changes == old(changes) + if old(text) != s && onChangedSet then [s] else []
    {
      cursorColumn, cursorRow := 0, 0;
      if text != s && onChangedSet {
        changes := changes + [s];
      }
      text := s;
    }

    /** FocusGained: ignored while read-only. */
    method FocusGained()
      modifies this`focusCount
      ensures focusCount == old(focusCount) + if readOnly then 0 else 1
    {
      if readOnly {
        return;
      }
      focusCount := focusCount + 1;
    }

    method TypedRune(r: char)
      modifies this`runes
      ensures var v := RuneVerdict(readOnly, None, runeHook, r);
        runes == old(runes) + if v.Forward? then [r] else []
    {
      if readOnly {
        return;
      }
      if Blocks(runeHook, r) {
        return;
      }
      runes := runes + [r];
    }

    method TypedKey(k: Key)
      modifies this`keys
      ensures var v := KeyVerdict(readOnly && EditingKey(k), keyHook, k);
        keys == old(keys) + if v.Forward? then [k] else []
    {
      if readOnly && (k == KeyEnter || k == KeyReturn || k == KeyBackspace || k == KeyDelete) {
        return;
      }
      if Blocks(keyHook, k) {
        return;
      }
      keys := keys + [k];
    }

    method TypedShortcut(s: Shortcut)
      modifies this`shortcuts
      ensures var v := ShortcutVerdict(readOnly, shortcutHook, s);
        shortcuts == old(shortcuts) + if v.Forward? then [v.event] else []
    {
      var t := s;
      if readOnly {
        match s
        case ShortcutPaste(_) => return;
        case ShortcutCut => t := ShortcutCopy;
        case _ =>
      }
      if Blocks(shortcutHook, t) {
        return;
      }
      shortcuts := shortcuts + [t];
    }
  }
}
