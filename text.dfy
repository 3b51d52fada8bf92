/** Text helpers shared by every widget: digits, Go's strconv.Itoa/Atoi,
    fmt's "%02d"/"%04d", strings.Split/strings.Join on a one-character
    separator and strconv.FormatBool/ParseBool. Strings are sequences of
    Unicode code points (Go runes). */
module TextUtil {

  datatype Option<T> = None | Some(value: T)

  predicate IsDigit(c: char) { '0' <= c <= '9' }

  function DigitValue(c: char): (v: nat)
    requires IsDigit(c)
    ensures v < 10
  {
    c as int - '0' as int
  }

  function DigitChar(v: nat): (c: char)
    requires v < 10
    ensures IsDigit(c) && DigitValue(c) == v
  {
    ('0' as int + v) as char
  }

  predicate AllDigits(s: string) {
    forall i :: 0 <= i < |s| ==> IsDigit(s[i])
  }

  /** The digits of s, in order; every other character dropped. */
  function DigitsOf(s: string): (r: string)
    ensures AllDigits(r) && |r| <= |s|
  {
    if s == [] then []
    else if IsDigit(s[0]) then [s[0]] + DigitsOf(s[1..])
    else DigitsOf(s[1..])
  }

  lemma ConcatAssoc<T>(a: seq<T>, b: seq<T>, c: seq<T>)
    ensures (a + b) + c == a + (b + c)
  {
  }

  lemma {:induction false} DigitsOfAppend(a: string, b: string)
    ensures DigitsOf(a + b) == DigitsOf(a) + DigitsOf(b)
  {
    if a != [] {
      assert (a + b)[0] == a[0];
      assert (a + b)[1..] == a[1..] + b;
      DigitsOfAppend(a[1..], b);
      if IsDigit(a[0]) {
        calc {
          DigitsOf(a + b);
          [a[0]] + DigitsOf(a[1..] + b);
          [a[0]] + (DigitsOf(a[1..]) + DigitsOf(b));
          ([a[0]] + DigitsOf(a[1..])) + DigitsOf(b);
        }
      } else {
        assert DigitsOf(a + b) == DigitsOf(a[1..] + b);
      }
    } else {
      assert a + b == b;
    }
  }

  /** Decimal value of a string of digits, most significant first. */
  function DigitsValue(s: string): nat
    requires AllDigits(s)
  {
    if s == [] then 0 else DigitsValue(s[..|s| - 1]) * 10 + DigitValue(s[|s| - 1])
  }

  function NatToDecimal(n: nat): (s: string)
    ensures 1 <= |s| && AllDigits(s)
  {
    if n < 10 then [DigitChar(n)] else NatToDecimal(n / 10) + [DigitChar(n % 10)]
  }

  lemma {:induction false} NatToDecimalValue(n: nat)
    ensures DigitsValue(NatToDecimal(n)) == n
  {
    if n >= 10 {
      var s := NatToDecimal(n);
      assert s[..|s| - 1] == NatToDecimal(n / 10);
      NatToDecimalValue(n / 10);
    }
  }

  lemma {:induction false} DigitsOfDigits(s: string)
    requires AllDigits(s)
    ensures DigitsOf(s) == s
  {
    if s != [] {
      DigitsOfDigits(s[1..]);
    }
  }

  function Pow10(n: nat): (p: nat)
    ensures p >= 1
  {
    if n == 0 then 1 else 10 * Pow10(n - 1)
  }

  lemma {:induction false} DigitsValueBound(s: string)
    requires AllDigits(s)
    ensures DigitsValue(s) < Pow10(|s|)
  {
    if s != [] {
      DigitsValueBound(s[..|s| - 1]);
    }
  }

  /** strconv.Itoa. */
  function Itoa(i: int): (s: string)
  {
    if i < 0 then "-" + NatToDecimal(-i) else NatToDecimal(i)
  }

  /** strconv.Atoi: an optional sign followed by at least one decimal digit.
      The 64-bit range check is not modelled (integers are unbounded). */
  function Atoi(s: string): Option<int>
  {
    if |s| > 0 && (s[0] == '+' || s[0] == '-') then
      if |s| > 1 && AllDigits(s[1..]) then
        var v: int := DigitsValue(s[1..]);
        Some(if s[0] == '-' then -v else v)
      else None
    else if |s| > 0 && AllDigits(s) then Some(DigitsValue(s))
    else None
  }

  lemma AtoiDigits(s: string)
    requires |s| > 0 && AllDigits(s)
    ensures Atoi(s) == Some(DigitsValue(s))
  {
    assert IsDigit(s[0]);
  }

  /** Itoa and Atoi are inverse: every integer survives a round trip through its decimal text. */
  lemma AtoiItoa(i: int)
    ensures Atoi(Itoa(i)) == Some(i)
  {
    if i < 0 {
      var n := NatToDecimal(-i);
      assert Itoa(i) == "-" + n && Itoa(i)[1..] == n;
      NatToDecimalValue(-i);
      var v: int := DigitsValue(n);
      assert Atoi("-" + n) == Some(-v);
    } else {
      var n := NatToDecimal(i);
      NatToDecimalValue(i);
      assert IsDigit(n[0]);
      assert Atoi(n) == Some(DigitsValue(n));
    }
  }

  /** fmt.Sprintf("%02d", v) for a value of at most two digits. */
  function Pad2(v: nat): (s: string)
    requires v < 100
    ensures |s| == 2 && AllDigits(s) && DigitsValue(s) == v
  {
    var s := [DigitChar(v / 10), DigitChar(v % 10)];
    assert s[..1] == [DigitChar(v / 10)] && s[..1][..0] == [];
    assert DigitsValue(s[..1]) == v / 10;
    s
  }

  /** A two-digit field is the padded form of its own value. */
  lemma Pad2Canonical(s: string)
    requires |s| == 2 && AllDigits(s)
    ensures DigitsValue(s) < 100 && Pad2(DigitsValue(s)) == s
  {
    assert s[..1][..0] == [] && s[..1] == [s[0]];
    assert DigitsValue(s[..1]) == DigitValue(s[0]);
    assert DigitsValue(s) == DigitValue(s[0]) * 10 + DigitValue(s[1]);
  }

  /** Splitting off the last decimal digit. */
  lemma DivMod10(q: int, r: int)
    requires 0 <= r < 10
    ensures (q * 10 + r) / 10 == q && (q * 10 + r) % 10 == r
  {
  }

  /** fmt.Sprintf("%04d", v) for a value of at most four digits. */
  function Pad4(v: nat): (s: string)
    requires v < 10000
    ensures |s| == 4 && AllDigits(s) && DigitsValue(s) == v
  {
    var q1 := v / 10;
    var q2 := q1 / 10;
    var q3 := q2 / 10;
    var s := [DigitChar(q3), DigitChar(q2 % 10), DigitChar(q1 % 10), DigitChar(v % 10)];
    assert s[..3][..2][..1][..0] == [];
    assert s[..3][..2][..1] == [DigitChar(q3)];
    assert s[..3][..2] == [DigitChar(q3), DigitChar(q2 % 10)];
    assert s[..3] == [DigitChar(q3), DigitChar(q2 % 10), DigitChar(q1 % 10)];
    assert DigitsValue(s[..3][..2][..1]) == q3;
    assert DigitsValue(s[..3][..2]) == q2;
    assert DigitsValue(s[..3]) == q1;
    s
  }

  /** The value of four digits, place by place. */
  lemma DigitsValue4(s: string)
    requires |s| == 4 && AllDigits(s)
    ensures DigitsValue(s) == ((DigitValue(s[0]) * 10 + DigitValue(s[1])) * 10 + DigitValue(s[2])) * 10 + DigitValue(s[3])
  {
    assert s[..3][..2][..1][..0] == [];
    assert s[..3][..2][..1] == [s[0]] && s[..3][..2] == [s[0], s[1]] && s[..3] == [s[0], s[1], s[2]];
    var a, b, c := DigitValue(s[0]), DigitValue(s[1]), DigitValue(s[2]);
    assert DigitsValue(s[..3][..2][..1]) == a;
    assert DigitsValue(s[..3][..2]) == a * 10 + b;
    assert DigitsValue(s[..3]) == (a * 10 + b) * 10 + c;
  }

  /** A four-digit field is the padded form of its own value. */
  lemma Pad4Canonical(s: string)
    requires |s| == 4 && AllDigits(s)
    ensures DigitsValue(s) < 10000 && Pad4(DigitsValue(s)) == s
  {
    var a, b, c, d := DigitValue(s[0]), DigitValue(s[1]), DigitValue(s[2]), DigitValue(s[3]);
    var v := DigitsValue(s);
    DigitsValue4(s);
    DivMod10((a * 10 + b) * 10 + c, d);
    DivMod10(a * 10 + b, c);
    DivMod10(a, b);
    var p := Pad4(v);
    assert p[0] == DigitChar(a) && p[1] == DigitChar(b) && p[2] == DigitChar(c) && p[3] == DigitChar(d);
    assert p[0] == s[0] && p[1] == s[1] && p[2] == s[2] && p[3] == s[3];
  }

  /** strings.Join(xs, string(sep)). */
  function Join(xs: seq<string>, sep: char): string
  {
    if |xs| == 0 then ""
    else if |xs| == 1 then xs[0]
    else xs[0] + [sep] + Join(xs[1..], sep)
  }

  /** strings.Split(s, string(sep)): the pieces between separators; never empty. */
  function Split(s: string, sep: char): (r: seq<string>)
    ensures |r| >= 1
    ensures forall k :: 0 <= k < |r| ==> sep !in r[k]
  {
    if s == [] then [""]
    else if s[0] == sep then [""] + Split(s[1..], sep)
    else
      var rest := Split(s[1..], sep);
      [[s[0]] + rest[0]] + rest[1..]
  }

  /** Joining the pieces of a split gives back the original text. */
  lemma {:induction false} JoinSplit(s: string, sep: char)
    ensures Join(Split(s, sep), sep) == s
  {
    if s != [] {
      JoinSplit(s[1..], sep);
      var rest := Split(s[1..], sep);
      if s[0] != sep {
        var r := Split(s, sep);
        assert r[1..] == rest[1..];
        if |rest| == 1 {
          assert Join(r, sep) == [s[0]] + rest[0];
        } else {
          assert Join(rest, sep) == rest[0] + [sep] + Join(rest[1..], sep);
          assert Join(r, sep) == ([s[0]] + rest[0]) + [sep] + Join(rest[1..], sep);
        }
      } else {
        var r := Split(s, sep);
        assert r[1..] == rest;
        assert Join(r, sep) == "" + [sep] + Join(rest, sep);
      }
    }
  }

  /** Splitting a join gives back the pieces, provided there is at least one
      piece and no piece contains the separator. */
  lemma {:induction false} SplitJoin(xs: seq<string>, sep: char)
    requires |xs| >= 1
    requires forall k :: 0 <= k < |xs| ==> sep !in xs[k]
    ensures Split(Join(xs, sep), sep) == xs
  {
    if |xs| == 1 {
      SplitNoSep(xs[0], sep);
    } else {
      SplitJoin(xs[1..], sep);
      SplitPrefix(xs[0], Join(xs[1..], sep), sep);
      assert Join(xs, sep) == xs[0] + [sep] + Join(xs[1..], sep);
      assert [xs[0]] + xs[1..] == xs;
    }
  }

  lemma {:induction false} SplitNoSep(s: string, sep: char)
    requires sep !in s
    ensures Split(s, sep) == [s]
  {
    if s != [] {
      assert s[0] in s;
      assert forall c :: c in s[1..] ==> c in s;
      SplitNoSep(s[1..], sep);
      assert [s[0]] + s[1..] == s;
    }
  }

  lemma {:induction false} SplitPrefix(a: string, b: string, sep: char)
    requires sep !in a
    ensures Split(a + [sep] + b, sep) == [a] + Split(b, sep)
  {
    if a == [] {
      assert a + [sep] + b == [sep] + b;
      assert ([sep] + b)[1..] == b;
    } else {
      assert (a + [sep] + b)[1..] == a[1..] + [sep] + b;
      SplitPrefix(a[1..], b, sep);
      assert [a[0]] + a[1..] == a;
    }
  }

  /** An empty list joins to "", which splits back to one empty piece: the
      round trip does not restore the empty list. */
  lemma SplitJoinEmpty(sep: char)
    ensures Join([], sep) == "" && Split(Join([], sep), sep) == [""]
  {
  }

  /** strconv.FormatBool. */
  function FormatBool(b: bool): string
  {
    if b then "true" else "false"
  }

  /** strconv.ParseBool: the twelve accepted spellings; anything else is an error. */
  function ParseBool(s: string): (r: Option<bool>)
  {
    if s in {"1", "t", "T", "TRUE", "true", "True"} then Some(true)
    else if s in {"0", "f", "F", "FALSE", "false", "False"} then Some(false)
    else None
  }

  lemma ParseFormatBool(b: bool)
    ensures ParseBool(FormatBool(b)) == Some(b)
  {
  }

  predicate NoDups<T(==)>(s: seq<T>) {
    forall i, j :: 0 <= i < j < |s| ==> s[i] != s[j]
  }

  /** Number of bytes of the UTF-8 encoding of s (Go's len on a string). */
  function Utf8Len(s: string): (n: nat)
    ensures n >= |s|
  {
    if s == [] then 0
    else
      var c := s[0] as int;
      (if c < 0x80 then 1 else if c < 0x800 then 2 else if c < 0x10000 then 3 else 4) + Utf8Len(s[1..])
  }
}
