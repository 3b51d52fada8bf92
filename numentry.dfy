/** NumEntry: a text entry that lets through only what can be part of a
    number: digits anywhere, one decimal separator stored as ',' when Float is
    set, and one leading sign, replaced rather than stacked, when Signed is
    set. The base entry's editing is the fyne Entry's: a typed rune is
    inserted at the cursor, which moves one column right, and the entry's
    OnChanged handler receives the new text; Entry.SetText replaces the text,
    keeps the cursor inside it and calls the handler when the text changed. */
module NumFilter {
  import opened TextUtil
  import opened Events

  /** The entry's text and cursor column. */
  datatype Edit = Edit(text: string, cursor: int)

  predicate InRange(e: Edit)
  {
    0 <= e.cursor <= |e.text|
  }

  predicate IsSign(c: char) { c == '+' || c == '-' }

  predicate IsSeparator(c: char) { c == '.' || c == ',' }

  /** The text the filter can build: digits, ',' and a sign at the front
      only, with at most one ','. */
  predicate NumShape(t: string)
  {
    && (forall i :: 0 <= i < |t| ==> IsDigit(t[i]) || t[i] == ',' || (i == 0 && IsSign(t[i])))
    && (forall i, j :: 0 <= i < j < |t| && t[i] == ',' ==> t[j] != ',')
  }

  /** A text that the filter would build itself under the given modes. */
  predicate Acceptable(t: string, float: bool, signed: bool)
  {
    && NumShape(t)
    && (',' in t ==> float)
    && (|t| > 0 && IsSign(t[0]) ==> signed)
  }

  /** fnHasSign: the text starts with a sign and the cursor is in front of it. */
  predicate HasSign(e: Edit)
  {
    |e.text| > 0 && e.cursor < 1 && IsSign(e.text[0])
  }

  /** fyne's Entry.TypedRune: the rune is inserted at the cursor, which moves past it. */
  function Insert(e: Edit, r: char): (e': Edit)
    requires InRange(e)
    ensures InRange(e') && e'.cursor == e.cursor + 1
    ensures |e'.text| == |e.text| + 1 && e'.text[e.cursor] == r
    ensures e'.text[..e.cursor] == e.text[..e.cursor] && e'.text[e.cursor + 1..] == e.text[e.cursor..]
  {
    var t := e.text[..e.cursor] + [r] + e.text[e.cursor..];
    assert t[e.cursor + 1..] == e.text[e.cursor..];
    Edit(t, e.cursor + 1)
  }

  /** fyne's Entry.SetText: the new text, with the cursor kept inside it. */
  function EntrySetText(e: Edit, s: string): (e': Edit)
    requires InRange(e)
    ensures InRange(e') && e'.text == s
    ensures e.cursor <= |s| ==> e'.cursor == e.cursor
  {
    Edit(s, if e.cursor <= |s| then e.cursor else |s|)
  }

  /** updateSign: a leading sign is replaced by r; otherwise r is put in
      front and the cursor moves one column right to stay on the same
      character; an empty text becomes just r with the cursor after it. */
  function SignedText(e: Edit, r: char): (e': Edit)
    requires InRange(e) && IsSign(r)
    ensures InRange(e') && |e'.text| > 0 && e'.text[0] == r
    ensures |e.text| > 0 && IsSign(e.text[0]) ==> e'.text == [r] + e.text[1..] && e'.cursor == e.cursor
    ensures |e.text| > 0 && !IsSign(e.text[0]) ==> e'.text == [r] + e.text && e'.cursor == e.cursor + 1
    ensures |e.text| == 0 ==> e' == Edit([r], 1)
  {
    if |e.text| > 0 then
      if IsSign(e.text[0]) then EntrySetText(e, [r] + e.text[1..])
      else
        var e1 := EntrySetText(e, [r] + e.text);
        Edit(e1.text, e1.cursor + 1)
    else Edit([r], 1)
  }

  /** One typed rune: the new text and cursor, and the strings handed to
      OnChanged, in order. */
  datatype Step = Step(edit: Edit, calls: seq<string>)

  /** NumEntry.TypedRune. `attached` says whether the base entry's OnChanged
      handler is installed (SetText removes it while it replays). A digit or
      a separator typed in front of a sign first moves the cursor behind the
      sign, even when the hook then blocks it. A sign calls OnChanged
      directly, besides the handler call Entry.SetText may make. */
  function TypeNum(e: Edit, r: char, float: bool, signed: bool, readOnly: bool,
                   hook: Option<char -> bool>, attached: bool): (s: Step)
    requires InRange(e)
    ensures InRange(s.edit)
  {
    if readOnly then Step(e, [])
    else if IsDigit(r) || (IsSeparator(r) && float && ',' !in e.text) then
      var e1 := if HasSign(e) then Edit(e.text, 1) else e;
      if Blocks(hook, r) then Step(e1, [])
      else
        var e2 := Insert(e1, if IsDigit(r) then r else ',');
        Step(e2, if attached then [e2.text] else [])
    else if IsSign(r) && signed then
      var e1 := SignedText(e, r);
      Step(e1, (if attached && |e.text| > 0 && e1.text != e.text then [e1.text] else []) + [e1.text])
    else Step(e, [])
  }

  lemma InsertShape(e: Edit, r: char)
    requires InRange(e) && NumShape(e.text)
    requires IsDigit(r) || (r == ',' && ',' !in e.text)
    requires |e.text| > 0 && IsSign(e.text[0]) ==> e.cursor >= 1
    ensures NumShape(Insert(e, r).text)
  {
    var t := Insert(e, r).text;
    var c := e.cursor;
    assert forall i :: 0 <= i < c ==> t[i] == e.text[i];
    assert forall i :: c < i < |t| ==> t[i] == e.text[i - 1];
    forall i, j | 0 <= i < j < |t| && t[i] == ','
      ensures t[j] != ','
    {
      if r == ',' && (i == c || j == c) {
        var k := if i == c then j else i;
        var k' := if k < c then k else k - 1;
        assert e.text[k'] == t[k];
        assert e.text[k'] in e.text;
      }
    }
  }

  /** Inserting a digit, or the first ',' in Float mode, behind any sign
      keeps an acceptable text acceptable. */
  lemma InsertAcceptable(e: Edit, c: char, float: bool, signed: bool)
    requires InRange(e) && Acceptable(e.text, float, signed)
    requires IsDigit(c) || (c == ',' && float && ',' !in e.text)
    requires |e.text| > 0 && IsSign(e.text[0]) ==> e.cursor >= 1
    ensures Acceptable(Insert(e, c).text, float, signed)
  {
    InsertShape(e, c);
    var t := Insert(e, c).text;
    if !float {
      forall k | 0 <= k < |t|
        ensures t[k] != ','
      {
        if k != e.cursor {
          var k' := if k < e.cursor then k else k - 1;
          assert t[k] == e.text[k'];
        }
      }
    }
    if e.cursor == 0 {
      assert t[0] == c;
    } else {
      assert t[0] == e.text[0];
    }
  }

  /** Putting a sign in front keeps the rest of the text as it was. */
  lemma SignedTextShape(e: Edit, r: char)
    requires InRange(e) && NumShape(e.text) && IsSign(r)
    ensures NumShape(SignedText(e, r).text)
    ensures ',' in SignedText(e, r).text ==> ',' in e.text
  {
    var t := SignedText(e, r).text;
    if |e.text| > 0 && IsSign(e.text[0]) {
      assert t == [r] + e.text[1..];
      assert forall i :: 1 <= i < |t| ==> t[i] == e.text[i];
    } else if |e.text| > 0 {
      assert t == [r] + e.text;
      assert forall i :: 1 <= i < |t| ==> t[i] == e.text[i - 1];
    }
  }

  /** Every rune keeps the text a well-formed number text, and whatever the
      modes, the filter never adds a ',' when Float is off nor a sign when
      Signed is off: from an acceptable text it builds an acceptable text. */
  lemma {:induction false} TypeNumKeepsShape(e: Edit, r: char, float: bool, signed: bool, readOnly: bool,
                                             hook: Option<char -> bool>, attached: bool)
    requires InRange(e) && NumShape(e.text)
    ensures NumShape(TypeNum(e, r, float, signed, readOnly, hook, attached).edit.text)
    ensures Acceptable(e.text, float, signed) ==> Acceptable(TypeNum(e, r, float, signed, readOnly, hook, attached).edit.text, float, signed)
  {
    if readOnly {
    } else if IsDigit(r) || (IsSeparator(r) && float && ',' !in e.text) {
      var e1 := if HasSign(e) then Edit(e.text, 1) else e;
      if !Blocks(hook, r) {
        var c := if IsDigit(r) then r else ',';
        InsertShape(e1, c);
        if Acceptable(e.text, float, signed) {
          InsertAcceptable(e1, c, float, signed);
        }
        assert TypeNum(e, r, float, signed, readOnly, hook, attached).edit == Insert(e1, c);
      }
    } else if IsSign(r) && signed {
      SignedTextShape(e, r);
    }
  }

  /** Runes other than digits, separators and signs change nothing and call nothing. */
  lemma IgnoredRune(e: Edit, r: char, float: bool, signed: bool, readOnly: bool,
                    hook: Option<char -> bool>, attached: bool)
    requires InRange(e) && !IsDigit(r) && !IsSeparator(r) && !IsSign(r)
    ensures TypeNum(e, r, float, signed, readOnly, hook, attached) == Step(e, [])
  {
  }

  /** In read-only mode every rune is dropped. */
  lemma ReadOnlyDropsRunes(e: Edit, r: char, float: bool, signed: bool,
                           hook: Option<char -> bool>, attached: bool)
    requires InRange(e)
    ensures TypeNum(e, r, float, signed, true, hook, attached) == Step(e, [])
  {
  }

  /** A separator is refused outside Float mode and once the text holds a ','. */
  lemma SeparatorRefused(e: Edit, r: char, float: bool, signed: bool, hook: Option<char -> bool>, attached: bool)
    requires InRange(e) && IsSeparator(r) && (!float || ',' in e.text)
    ensures TypeNum(e, r, float, signed, false, hook, attached) == Step(e, [])
  {
  }

  /** Otherwise the separator is stored as one ',' more, everything else kept. */
  lemma SeparatorAccepted(e: Edit, r: char, signed: bool, hook: Option<char -> bool>, attached: bool)
    requires InRange(e) && IsSeparator(r) && ',' !in e.text && !Blocks(hook, r)
    ensures var t := TypeNum(e, r, true, signed, false, hook, attached).edit.text;
      |t| == |e.text| + 1 && multiset(t) == multiset(e.text) + multiset{','}
  {
    var e1 := if HasSign(e) then Edit(e.text, 1) else e;
    var a, b := e.text[..e1.cursor], e.text[e1.cursor..];
    var t := Insert(e1, ',').text;
    assert TypeNum(e, r, true, signed, false, hook, attached).edit.text == t;
    assert t == a + [','] + b;
    assert e.text == a + b;
    assert multiset(t) == multiset(a) + multiset{','} + multiset(b);
  }

  /** A digit or separator typed in front of a sign lands behind it: a sign
      at the front stays at the front, and a typed sign replaces it. */
  lemma {:induction false} SignStaysFirst(e: Edit, r: char, float: bool, signed: bool, readOnly: bool,
                                          hook: Option<char -> bool>, attached: bool)
    requires InRange(e) && |e.text| > 0 && IsSign(e.text[0])
    ensures var t := TypeNum(e, r, float, signed, readOnly, hook, attached).edit.text;
      |t| > 0 && IsSign(t[0]) && (!IsSign(r) ==> t[0] == e.text[0])
    ensures IsSign(r) && signed && !readOnly ==>
      TypeNum(e, r, float, signed, readOnly, hook, attached).edit.text == [r] + e.text[1..]
    ensures e.cursor == 0 && !readOnly && !Blocks(hook, r) && (IsDigit(r) || (IsSeparator(r) && float && ',' !in e.text)) ==>
      TypeNum(e, r, float, signed, readOnly, hook, attached).edit.text == [e.text[0], if IsDigit(r) then r else ','] + e.text[1..]
  {
    if e.cursor == 0 && !readOnly && !Blocks(hook, r) && (IsDigit(r) || (IsSeparator(r) && float && ',' !in e.text)) {
      var c := if IsDigit(r) then r else ',';
      var t := Insert(Edit(e.text, 1), c).text;
      assert t[..1] == e.text[..1] && t[1] == c && t[2..] == e.text[1..];
      assert t == t[..1] + [t[1]] + t[2..];
      assert e.text[..1] == [e.text[0]];
    }
  }

  /** Typing a string rune by rune; the strings handed to OnChanged pile up. */
  function TypeAll(e: Edit, s: string, float: bool, signed: bool, readOnly: bool,
                   hook: Option<char -> bool>, attached: bool): (r: Step)
    requires InRange(e)
    ensures InRange(r.edit)
  {
    if s == [] then Step(e, [])
    else
      var prev := TypeAll(e, s[..|s| - 1], float, signed, readOnly, hook, attached);
      var last := TypeNum(prev.edit, s[|s| - 1], float, signed, readOnly, hook, attached);
      Step(last.edit, prev.calls + last.calls)
  }

  /** With neither Float nor Signed, typing into an empty entry keeps exactly
      the digits of what was typed, in order, with the cursor at the end. */
  lemma {:induction false} TypeKeepsDigits(s: string, attached: bool)
    ensures TypeAll(Edit("", 0), s, false, false, false, None, attached).edit == Edit(DigitsOf(s), |DigitsOf(s)|)
  {
    if s != [] {
      var s', c := s[..|s| - 1], s[|s| - 1];
      assert s == s' + [c];
      TypeKeepsDigits(s', attached);
      TypeAllSnoc(Edit("", 0), s', c, false, false, attached);
      DigitsOfAppend(s', [c]);
      var d := DigitsOf(s');
      var e := Edit(d, |d|);
      assert !HasSign(e);
      if IsDigit(c) {
        assert DigitsOf([c]) == [c];
        assert Insert(e, c).text == d + [c];
        assert TypeNum(e, c, false, false, false, None, attached).edit == Insert(e, c);
      } else {
        assert DigitsOf([c]) == [];
        assert d + [] == d;
        assert TypeNum(e, c, false, false, false, None, attached).edit == e;
      }
    }
  }

  lemma {:induction false} DigitsOfNone(s: string)
    requires forall i :: 0 <= i < |s| ==> !IsDigit(s[i])
    ensures DigitsOf(s) == ""
  {
    if s != [] {
      DigitsOfNone(s[1..]);
    }
  }

  /** The typing test, for any text around the number: whatever surrounds
      "123" without digits of its own, only "123" gets through. */
  lemma TypingMixedTextKeeps123(before: string, after: string, attached: bool)
    requires forall i :: 0 <= i < |before| ==> !IsDigit(before[i])
    requires forall i :: 0 <= i < |after| ==> !IsDigit(after[i])
    ensures TypeAll(Edit("", 0), before + "123" + after, false, false, false, None, attached).edit.text == "123"
  {
    DigitsOfNone(before);
    DigitsOfNone(after);
    DigitsOfDigits("123");
    DigitsOfAppend(before, "123");
    DigitsOfAppend(before + "123", after);
    TypeKeepsDigits(before + "123" + after, attached);
  }

  /** One more rune typed after a string. */
  lemma TypeAllSnoc(e: Edit, s: string, c: char, float: bool, signed: bool, attached: bool)
    requires InRange(e)
    ensures var prev := TypeAll(e, s, float, signed, false, None, attached);
      var last := TypeNum(prev.edit, c, float, signed, false, None, attached);
      TypeAll(e, s + [c], float, signed, false, None, attached) == Step(last.edit, prev.calls + last.calls)
  {
    assert (s + [c])[..|s|] == s;
  }

  /** A digit typed at the end of the text is appended, and the handler
      reports the new text. */
  lemma DigitAtEnd(t: string, c: char, float: bool, signed: bool, attached: bool)
    requires IsDigit(c)
    ensures TypeNum(Edit(t, |t|), c, float, signed, false, None, attached)
      == Step(Edit(t + [c], |t| + 1), if attached then [t + [c]] else [])
  {
    var e := Edit(t, |t|);
    assert !HasSign(e);
    var e2 := Insert(e, c);
    assert e2.text[..|t|] == t;
    assert e2.text == t + [c];
  }

  /** The first separator typed at the end of the text, with Float set, is
      appended as ','. */
  lemma SeparatorAtEnd(t: string, c: char, signed: bool, attached: bool)
    requires IsSeparator(c) && ',' !in t
    ensures TypeNum(Edit(t, |t|), c, true, signed, false, None, attached)
      == Step(Edit(t + [','], |t| + 1), if attached then [t + [',']] else [])
  {
    var e := Edit(t, |t|);
    assert !HasSign(e);
    var e2 := Insert(e, ',');
    assert e2.text[..|t|] == t;
    assert e2.text == t + [','];
  }

  /** Typing one more rune of s extends the replay of its prefix. */
  lemma TypeAllPrefix(e: Edit, s: string, i: int, float: bool, signed: bool, readOnly: bool,
                      hook: Option<char -> bool>, attached: bool)
    requires InRange(e) && 0 <= i < |s|
    ensures var prev := TypeAll(e, s[..i], float, signed, readOnly, hook, attached);
      var last := TypeNum(prev.edit, s[i], float, signed, readOnly, hook, attached);
      TypeAll(e, s[..i + 1], float, signed, readOnly, hook, attached) == Step(last.edit, prev.calls + last.calls)
  {
    assert s[..i + 1][..i] == s[..i];
    assert s[..i + 1][i] == s[i];
  }

  /** One more rune typed: from the edit and the log after s[..i], typing
      s[i] gives the edit and the log after s[..i + 1]. */
  lemma TypeAllLogStep(start: Edit, s: string, i: int, float: bool, signed: bool, readOnly: bool,
                       hook: Option<char -> bool>, attached: bool, e: Edit, startLog: seq<string>, log: seq<string>)
    requires InRange(start) && 0 <= i < |s|
    requires TypeAll(start, s[..i], float, signed, readOnly, hook, attached).edit == e
    requires log == startLog + TypeAll(start, s[..i], float, signed, readOnly, hook, attached).calls
    ensures var last := TypeNum(e, s[i], float, signed, readOnly, hook, attached);
      var next := TypeAll(start, s[..i + 1], float, signed, readOnly, hook, attached);
      next.edit == last.edit && log + last.calls == startLog + next.calls
  {
    var prev := TypeAll(start, s[..i], float, signed, readOnly, hook, attached);
    var last := TypeNum(e, s[i], float, signed, readOnly, hook, attached);
    TypeAllPrefix(start, s, i, float, signed, readOnly, hook, attached);
    ConcatAssoc(startLog, prev.calls, last.calls);
  }


  /** The OnChanged test, typed into an empty entry e0 with Float and Signed
      set: 1, 2, 3 report "1", "12", "123". */
  lemma OnChangedDigits(e0: Edit)
    requires e0.text == "" && e0.cursor == 0
    ensures TypeAll(e0, "123", true, true, false, None, true) == Step(Edit("123", 3), ["1", "12", "123"])
  {
    DigitTexts();
    TypeAllSnoc(e0, "", '1', true, true, true);
    DigitAtEnd("", '1', true, true, true);
    TypeAllSnoc(e0, "1", '2', true, true, true);
    DigitAtEnd("1", '2', true, true, true);
    TypeAllSnoc(e0, "12", '3', true, true, true);
    DigitAtEnd("12", '3', true, true, true);
  }

  lemma DigitTexts()
    ensures "" + ['1'] == "1" && "1" + ['2'] == "12" && "12" + ['3'] == "123"
    ensures [] + ["1"] + ["12"] + ["123"] == ["1", "12", "123"]
  {
  }

  lemma SignSteps()
    ensures TypeNum(Edit("123,5", 5), '-', true, true, false, None, true) == Step(Edit("-123,5", 6), ["-123,5", "-123,5"])
    ensures TypeNum(Edit("-123,5", 6), '+', true, true, false, None, true) == Step(Edit("+123,5", 6), ["+123,5", "+123,5"])
  {
    assert SignedText(Edit("123,5", 5), '-') == Edit("-123,5", 6);
    assert "-123,5"[1..] == "123,5";
    assert SignedText(Edit("-123,5", 6), '+') == Edit("+123,5", 6);
  }

  /** Then '.' and 5 report "123," and "123,5": the separator is stored as ','. */
  lemma OnChangedFraction(e0: Edit)
    requires e0.text == "" && e0.cursor == 0
    ensures TypeAll(e0, "123.5", true, true, false, None, true)
      == Step(Edit("123,5", 5), ["1", "12", "123", "123,", "123,5"])
  {
    OnChangedDigits(e0);
    FractionTexts();
    FractionAfter(e0, "123", "123", ["1", "12", "123"], "123.5", "123,", "123,5");
    assert ["1", "12", "123"] + ["123,", "123,5"] == ["1", "12", "123", "123,", "123,5"];
  }

  lemma FractionTexts()
    ensures "123.5" == "123" + ['.'] + ['5'] && "123," == "123" + [','] && "123,5" == "123," + ['5']
    ensures ',' !in "123"
  {
  }

  /** '.' then 5 typed after a text t without a separator: p2 is what was
      typed, t1 and t2 are the texts reported. */
  lemma FractionAfter(e0: Edit, p: string, t: string, calls: seq<string>, p2: string, t1: string, t2: string)
    requires InRange(e0) && ',' !in t
    requires TypeAll(e0, p, true, true, false, None, true) == Step(Edit(t, |t|), calls)
    requires p2 == p + ['.'] + ['5'] && t1 == t + [','] && t2 == t1 + ['5']
    ensures TypeAll(e0, p2, true, true, false, None, true) == Step(Edit(t2, |t| + 2), calls + [t1, t2])
  {
    TypeAllSnoc(e0, p, '.', true, true, true);
    SeparatorAtEnd(t, '.', true, true);
    TypeAllSnoc(e0, p + ['.'], '5', true, true, true);
    DigitAtEnd(t1, '5', true, true, true);
    assert calls + [t1] + [t2] == calls + [t1, t2];
  }

  /** Then '-' gives "-123,5": the sign is put in front, and reported twice,
      by the handler and by the direct call. */
  lemma OnChangedMinus(e0: Edit)
    requires e0.text == "" && e0.cursor == 0
    ensures TypeAll(e0, "123.5-", true, true, false, None, true)
      == Step(Edit("-123,5", 6), ["1", "12", "123", "123,", "123,5", "-123,5", "-123,5"])
  {
    OnChangedFraction(e0);
    SignTexts();
    TypeAllSnoc(e0, "123.5", '-', true, true, true);
    SignSteps();
  }

  /** Then '+' gives "+123,5": the sign is replaced, again reported twice. */
  lemma OnChangedSequence(e0: Edit)
    requires e0.text == "" && e0.cursor == 0
    ensures TypeAll(e0, "123.5-+", true, true, false, None, true)
      == Step(Edit("+123,5", 6), ["1", "12", "123", "123,", "123,5", "-123,5", "-123,5", "+123,5", "+123,5"])
  {
    OnChangedMinus(e0);
    SignTexts();
    TypeAllSnoc(e0, "123.5-", '+', true, true, true);
    SignSteps();
  }

  lemma SignTexts()
    ensures "123.5" + ['-'] == "123.5-" && "123.5-" + ['+'] == "123.5-+"
    ensures ["1", "12", "123", "123,", "123,5"] + ["-123,5", "-123,5"]
      == ["1", "12", "123", "123,", "123,5", "-123,5", "-123,5"]
    ensures ["1", "12", "123", "123,", "123,5", "-123,5", "-123,5"] + ["+123,5", "+123,5"]
      == ["1", "12", "123", "123,", "123,5", "-123,5", "-123,5", "+123,5", "+123,5"]
  {
  }

  /** Typing the next character of an acceptable text at its end appends it. */
  lemma TypeAtEnd(t: string, c: char, float: bool, signed: bool, attached: bool)
    requires Acceptable(t + [c], float, signed)
    ensures TypeNum(Edit(t, |t|), c, float, signed, false, None, attached).edit == Edit(t + [c], |t| + 1)
  {
    var u := t + [c];
    assert u[|t|] == c;
    assert forall i :: 0 <= i < |t| ==> u[i] == t[i];
    if c == ',' {
      assert ',' !in t by {
        forall k | 0 <= k < |t|
          ensures t[k] != ','
        {
          assert u[k] == t[k];
        }
      }
    }
    if IsSign(c) {
      assert |t| == 0;
    } else {
      assert t[..|t|] + [c] + t[|t|..] == u;
    }
  }

  /** Typing an acceptable text into an empty entry, without a hook, builds
      that very text with the cursor at its end. */
  lemma {:induction false} TypeAcceptable(t: string, float: bool, signed: bool, attached: bool)
    requires Acceptable(t, float, signed)
    ensures TypeAll(Edit("", 0), t, float, signed, false, None, attached).edit == Edit(t, |t|)
  {
    if t != [] {
      var t', c := t[..|t| - 1], t[|t| - 1];
      assert t' + [c] == t;
      assert forall i :: 0 <= i < |t'| ==> t'[i] == t[i];
      assert ',' in t' ==> ',' in t;
      assert Acceptable(t', float, signed);
      TypeAcceptable(t', float, signed, attached);
      TypeAtEnd(t', c, float, signed, attached);
    }
  }

  /** Typing any string into an acceptable text leaves an acceptable text. */
  lemma {:induction false} TypeAllAcceptable(e: Edit, s: string, float: bool, signed: bool, readOnly: bool,
                                             hook: Option<char -> bool>, attached: bool)
    requires InRange(e) && Acceptable(e.text, float, signed)
    ensures Acceptable(TypeAll(e, s, float, signed, readOnly, hook, attached).edit.text, float, signed)
  {
    if s != [] {
      TypeAllAcceptable(e, s[..|s| - 1], float, signed, readOnly, hook, attached);
      var prev := TypeAll(e, s[..|s| - 1], float, signed, readOnly, hook, attached);
      TypeNumKeepsShape(prev.edit, s[|s| - 1], float, signed, readOnly, hook, attached);
    }
  }

  /** The entry's state as far as the model goes: text, cursor, callbacks. */
  class NumEntry {
    var text: string
    var cursor: int
    var float: bool
    var signed: bool
    var readOnly: bool
    /** Whether the base entry's OnChanged handler is installed. */
    var attached: bool
    /** The strings passed to OnChanged, in order. */
    var notified: seq<string>
    /** Keys handed on to the base entry. */
    var forwarded: seq<Key>
    var runeHook: Option<char -> bool>
    var keyHook: Option<Key -> bool>
    var shortcutHook: Option<Shortcut -> bool>

    ghost predicate Valid()
      reads this
    {
      InRange(Edit(text, cursor)) && NumShape(text)
    }

    function State(): Edit
      reads this
    {
      Edit(text, cursor)
    }

    /** NewNumEntry. */
    constructor (float: bool, signed: bool)
      ensures Valid() && text == "" && cursor == 0 && attached
      ensures this.float == float && this.signed == signed && !readOnly
      ensures notified == [] && forwarded == []
      ensures runeHook == None && keyHook == None && shortcutHook == None
    {
      text, cursor := "", 0;
      this.float, this.signed, readOnly := float, signed, false;
      attached := true;
      notified, forwarded := [], [];
      runeHook, keyHook, shortcutHook := None, None, None;
    }

    /** The handler NewNumEntry installs: it passes the text on to OnChanged
        (the Int and Float parts are not modelled). */
    method Handler(s: string)
      modifies this`notified
      ensures notified == old(notified) + [s]
    {
      notified := notified + [s];
    }

    /** fyne's Entry.TypedRune. */
    method BaseTypedRune(r: char)
      requires InRange(State())
      modifies this`text, this`cursor, this`notified
      ensures State() == Insert(old(State()), r)
      ensures notified == old(notified) + if attached then [text] else []
    {
      text := text[..cursor] + [r] + text[cursor..];
      cursor := cursor + 1;
      if attached {
        Handler(text);
      }
    }

    /** fyne's Entry.SetText. */
    method BaseSetText(s: string)
      requires InRange(State())
      modifies this`text, this`cursor, this`notified
      ensures State() == EntrySetText(old(State()), s)
      ensures notified == old(notified) + if attached && old(text) != s then [s] else []
    {
      var changed := text != s;
      text := s;
      if cursor > |s| {
        cursor := |s|;
      }
      if changed && attached {
        Handler(s);
      }
    }

    /** updateSign. */
    method UpdateSign(r: char)
      requires InRange(State()) && IsSign(r)
      modifies this`text, this`cursor, this`notified
      ensures State() == SignedText(old(State()), r)
      ensures notified == old(notified) + if attached && |old(text)| > 0 && text != old(text) then [text] else []
    {
      if |text| > 0 {
        if text[0] == '+' || text[0] == '-' {
          BaseSetText([r] + text[1..]);
        } else {
          BaseSetText([r] + text);
          cursor := cursor + 1;
        }
      } else {
        text := [r];
        cursor := 1;
      }
    }

    /** TypedRune. */
    method TypedRune(r: char)
      requires InRange(State())
      modifies this`text, this`cursor, this`notified
      ensures var s := TypeNum(old(State()), r, float, signed, readOnly, runeHook, attached);
        State() == s.edit && notified == old(notified) + s.calls
    {
      if readOnly {
        return;
      }
      if IsDigit(r) {
        if |text| > 0 && cursor < 1 && (text[0] == '+' || text[0] == '-') {
          cursor := 1;
        }
        if Blocks(runeHook, r) {
          return;
        }
        BaseTypedRune(r);
      } else if r == '.' || r == ',' {
        if float && ',' !in text {
          if |text| > 0 && cursor < 1 && (text[0] == '+' || text[0] == '-') {
            cursor := 1;
          }
          if Blocks(runeHook, r) {
            return;
          }
          BaseTypedRune(',');
        }
      } else if r == '+' || r == '-' {
        if signed {
          UpdateSign(r);
          Handler(text);
        }
      }
    }

    /** SetText: the entry is emptied; then, unless s is empty, the handler is
        taken off, every rune of s is typed, the handler is put back and
        called once with the result. */
    method SetText(s: string)
      requires Valid()
      modifies this`text, this`cursor, this`notified, this`attached
      ensures Valid() && attached == old(attached)
      ensures var typed := TypeAll(Edit("", 0), s, float, signed, readOnly, runeHook, false);
        && State() == (if s == "" then Edit("", 0) else typed.edit)
        && notified == old(notified) + (if old(attached) && old(text) != "" then [""] else [])
                       + (if s == "" then [] else typed.calls + (if old(attached) then [text] else []))
    {
      BaseSetText("");
      if s == "" {
        return;
      }
      ghost var cleared := notified;
      var saved := attached;
      attached := false;
      TypeRunes(s);
      ghost var calls := notified[|cleared|..];
      attached := saved;
      if attached {
        Handler(text);
        ConcatAssoc(cleared, calls, [text]);
      }
    }

    /** The rune-by-rune replay SetText and a paste share. */
    method TypeRunes(s: string)
      requires Valid()
      modifies this`text, this`cursor, this`notified
      ensures Valid()
      ensures var typed := TypeAll(old(State()), s, float, signed, readOnly, runeHook, attached);
        State() == typed.edit && notified == old(notified) + typed.calls
    {
      ghost var start, startLog := State(), notified;
      for i := 0 to |s|
        invariant InRange(State()) && NumShape(text)
        invariant var typed := TypeAll(start, s[..i], float, signed, readOnly, runeHook, attached);
          State() == typed.edit && notified == startLog + typed.calls
      {
        ghost var e, log := State(), notified;
        TypeAllLogStep(start, s, i, float, signed, readOnly, runeHook, attached, e, startLog, log);
        TypeNumKeepsShape(e, s[i], float, signed, readOnly, runeHook, attached);
        TypedRune(s[i]);
      }
      assert s[..|s|] == s;
    }

    /** SetInt: the decimal form of i with the cursor at its end; the entry is
        emptied first when i is 0. */
    method SetInt(i: int)
      requires Valid()
      modifies this`text, this`cursor, this`notified
      ensures Valid() && text == Itoa(i) && cursor == |text|
      ensures Atoi(text) == Some(i)
      ensures notified == old(notified) + (if i == 0 && attached && old(text) != "" then [""] else [])
                                        + (if attached then [text] else [])
    {
      if i == 0 {
        BaseSetText("");
      }
      text := Itoa(i);
      cursor := |text|;
      ItoaShape(i);
      AtoiItoa(i);
      if attached {
        Handler(text);
      }
    }

    /** TypedShortcut for a paste: dropped when the hook blocks it or the
        entry is read-only; otherwise every rune is typed in turn. */
    method Paste(content: string)
      requires Valid()
      modifies this`text, this`cursor, this`notified
      ensures Valid()
      ensures Blocks(shortcutHook, ShortcutPaste(content)) || readOnly ==>
        State() == old(State()) && notified == old(notified)
      ensures !Blocks(shortcutHook, ShortcutPaste(content)) && !readOnly ==>
        var typed := TypeAll(old(State()), content, float, signed, readOnly, runeHook, attached);
        State() == typed.edit && notified == old(notified) + typed.calls
    {
      if Blocks(shortcutHook, ShortcutPaste(content)) || readOnly {
        return;
      }
      TypeRunes(content);
    }

    /** TypedKey: the hook may block the key; otherwise the base entry gets it. */
    method TypedKey(k: Key)
      modifies this`forwarded
      ensures forwarded == old(forwarded) + if Blocks(keyHook, k) then [] else [k]
    {
      if Blocks(keyHook, k) {
        return;
      }
      forwarded := forwarded + [k];
    }
  }

  /** The decimal form of an integer is a well-formed number text. */
  lemma ItoaShape(i: int)
    ensures NumShape(Itoa(i)) && ',' !in Itoa(i)
  {
    if i < 0 {
      var t := Itoa(i);
      assert t == "-" + NatToDecimal(-i);
      assert forall k :: 1 <= k < |t| ==> t[k] == NatToDecimal(-i)[k - 1];
    }
  }

  lemma SignedReplaySteps(e0: Edit)
    requires e0.text == "" && e0.cursor == 0
    ensures TypeNum(e0, '-', false, true, false, None, false) == Step(Edit("-", 1), ["-"])
    ensures TypeNum(Edit("-", 1), '2', false, true, false, None, false) == Step(Edit("-2", 2), [])
    ensures TypeNum(Edit("-2", 2), '0', false, true, false, None, false) == Step(Edit("-20", 3), [])
  {
    assert SignedText(e0, '-') == Edit("-", 1);
  }

  /** SetText("-20") with Signed set replays "-20" with the handler off; the
      sign alone is still reported, by the direct call. */
  lemma SetTextSignedReportsSign(e0: Edit)
    requires e0.text == "" && e0.cursor == 0
    ensures TypeAll(e0, "-20", false, true, false, None, false) == Step(Edit("-20", 3), ["-"])
  {
    SignedTexts();
    SignedReplaySteps(e0);
    TypeAllSnoc(e0, "", '-', false, true, false);
    TypeAllSnoc(e0, "-", '2', false, true, false);
    TypeAllSnoc(e0, "-2", '0', false, true, false);
  }

  lemma SignedTexts()
    ensures "" + ['-'] == "-" && "-" + ['2'] == "-2" && "-2" + ['0'] == "-20"
    ensures [] + ["-"] + [] + [] == ["-"]
  {
  }
}
