/** Input events as the fyne toolkit delivers them to a focused widget, and
    the decision a wrapping widget takes about each one. */
module Events {
  import opened TextUtil

  /** The key names the wrappers test for; every other key is OtherKey. */
  datatype Key =
    | KeyUp | KeyDown | KeyLeft | KeyRight
    | KeyEnter | KeyReturn | KeyTab | KeyEscape
    | KeyBackspace | KeyDelete
    | OtherKey(name: string)

  /** Shortcuts; a paste carries the clipboard's content. OtherShortcut stands for
      any shortcut that none of the wrappers treats specially. */
  datatype Shortcut =
    | ShortcutPaste(content: string)
    | ShortcutCut
    | ShortcutCopy
    | ShortcutSelectAll
    | OtherShortcut(name: string)

  /** What a wrapper does with an event: drop it, or hand it (possibly
      rewritten) to the widget it extends. */
  datatype Verdict<E> = Drop | Forward(event: E)

  /** An OnTypedXxx hook: absent (nil), or a predicate whose true answer
      blocks the event. Hooks are modelled without side effects. */
  predicate Blocks<E>(hook: Option<E -> bool>, e: E)
  {
    hook.Some? && hook.value(e)
  }

  /** The shortcut a read-only wrapper lets through in place of s: a paste
      is refused and a cut becomes a copy, so nothing can be removed from or
      added to the text; every other shortcut is kept. */
  function ReadOnlyShortcut(s: Shortcut): (r: Option<Shortcut>)
    ensures r.None? <==> s.ShortcutPaste?
    ensures r.Some? ==> !r.value.ShortcutPaste? && !r.value.ShortcutCut?
    ensures s.ShortcutCut? ==> r == Some(ShortcutCopy)
    ensures !s.ShortcutCut? && !s.ShortcutPaste? ==> r == Some(s)
  {
    match s
    case ShortcutPaste(_) => None
    case ShortcutCut => Some(ShortcutCopy)
    case _ => Some(s)
  }

  /** TypedShortcut of the three wrappers: the read-only rewrite, then the
      hook, which sees the rewritten shortcut. */
  function ShortcutVerdict(readOnly: bool, hook: Option<Shortcut -> bool>, s: Shortcut): (v: Verdict<Shortcut>)
    ensures v.Forward? ==> !Blocks(hook, v.event)
    ensures !readOnly ==> v == if Blocks(hook, s) then Drop else Forward(s)
    ensures readOnly && v.Forward? ==> !v.event.ShortcutPaste? && !v.event.ShortcutCut?
  {
    var t := if readOnly then ReadOnlyShortcut(s) else Some(s);
    if t.None? || Blocks(hook, t.value) then Drop else Forward(t.value)
  }

  /** In read-only mode a cut reaches the widget as a copy unless the hook
      blocks that copy, and a paste never reaches it. */
  lemma ReadOnlyCutIsCopy(hook: Option<Shortcut -> bool>, content: string)
    ensures ShortcutVerdict(true, hook, ShortcutCut) == if Blocks(hook, ShortcutCopy) then Drop else Forward(ShortcutCopy)
    ensures ShortcutVerdict(true, hook, ShortcutPaste(content)) == Drop
  {
  }

  /** A rune passed through an optional RuneModifier. */
  function Modified(modifier: Option<char -> char>, r: char): char
  {
    if modifier.Some? then modifier.value(r) else r
  }

  /** TypedRune of the wrappers: every rune is dropped in read-only mode;
      otherwise the modifier rewrites it and the hook sees the rewritten
      rune. */
  function RuneVerdict(readOnly: bool, modifier: Option<char -> char>, hook: Option<char -> bool>, r: char): (v: Verdict<char>)
    ensures readOnly ==> v == Drop
    ensures v.Forward? <==> !readOnly && !Blocks(hook, Modified(modifier, r))
    ensures v.Forward? ==> v.event == Modified(modifier, r)
  {
    if readOnly then Drop
    else
      var m := Modified(modifier, r);
      if Blocks(hook, m) then Drop else Forward(m)
  }

  /** TypedKey of the wrappers, given whether the read-only rule drops k:
      a key the rule keeps is forwarded unchanged unless the hook blocks it. */
  function KeyVerdict(droppedReadOnly: bool, hook: Option<Key -> bool>, k: Key): (v: Verdict<Key>)
    ensures v.Forward? <==> !droppedReadOnly && !Blocks(hook, k)
    ensures v.Forward? ==> v.event == k
  {
    if droppedReadOnly || Blocks(hook, k) then Drop else Forward(k)
  }

  /** The keys that edit the text or submit it. */
  predicate EditingKey(k: Key)
  {
    k == KeyEnter || k == KeyReturn || k == KeyBackspace || k == KeyDelete
  }
}
