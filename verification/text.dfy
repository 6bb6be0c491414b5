/** The pieces of Python's `str` behaviour that the modelled code relies on:
    whitespace splitting (`str.split()`), splitting on one separator
    (`str.split(sep)`), joining, ASCII case mapping and decimal integers
    (`"%d"` formatting and `int(...)` parsing). */
module Text {
  import opened Wrappers

  // ---------------------------------------------------------------------
  // Character classes

  /** The characters `str.isspace()` accepts, which is the set `str.split()`
      splits on. */
  predicate IsSpace(c: char) {
    var n := c as int;
    (9 <= n <= 13) || (28 <= n <= 32) || n == 0x85 || n == 0xA0 || n == 0x1680
    || (0x2000 <= n <= 0x200A) || n == 0x2028 || n == 0x2029 || n == 0x202F
    || n == 0x205F || n == 0x3000
  }

  predicate IsAscii(c: char) { c as int < 0x80 }
  predicate IsDigit(c: char) { '0' <= c <= '9' }
  predicate IsAsciiLower(c: char) { 'a' <= c <= 'z' }
  predicate IsAsciiUpper(c: char) { 'A' <= c <= 'Z' }
  predicate IsAsciiLetter(c: char) { IsAsciiLower(c) || IsAsciiUpper(c) }

  /** `string.punctuation`. */
  predicate IsPunctuation(c: char) {
    ('!' <= c <= '/') || (':' <= c <= '@') || ('[' <= c <= '`') || ('{' <= c <= '~')
  }

  predicate AllAscii(s: string) { forall i :: 0 <= i < |s| ==> IsAscii(s[i]) }

  // ---------------------------------------------------------------------
  // Case mapping (ASCII letters only)

  function LowerChar(c: char): (r: char)
    ensures IsAsciiUpper(c) ==> IsAsciiLower(r)
    ensures !IsAsciiUpper(c) ==> r == c
    ensures IsAscii(c) ==> IsAscii(r)
    ensures !IsAsciiUpper(r)
  {
    if IsAsciiUpper(c) then (c as int + 32) as char else c
  }

  function UpperChar(c: char): (r: char)
    ensures IsAsciiLower(c) ==> IsAsciiUpper(r)
    ensures !IsAsciiLower(c) ==> r == c
    ensures !IsAsciiLower(r)
  {
    if IsAsciiLower(c) then (c as int - 32) as char else c
  }

  /** `str.lower()` restricted to ASCII letters. */
  function Lower(s: string): (r: string)
    ensures |r| == |s|
    ensures forall i :: 0 <= i < |s| ==> r[i] == LowerChar(s[i])
  {
    seq(|s|, i requires 0 <= i < |s| => LowerChar(s[i]))
  }

  predicate IsLowered(s: string) { forall i :: 0 <= i < |s| ==> !IsAsciiUpper(s[i]) }

  /** Lowering a string that has no upper-case letter changes nothing. */
  lemma LowerOfLowered(s: string)
    requires IsLowered(s)
    ensures Lower(s) == s
  {
  }

  // ---------------------------------------------------------------------
  // Joining

  /** `sep.join(parts)`. */
  function Join(parts: seq<string>, sep: string): (r: string)
    ensures parts == [] ==> r == []
    ensures |parts| == 1 ==> r == parts[0]
  {
    if parts == [] then []
    else if |parts| == 1 then parts[0]
    else parts[0] + sep + Join(parts[1..], sep)
  }

  /** Every character of a join comes from a part or from the separator. */
  lemma {:induction false} JoinChars(parts: seq<string>, sep: string, i: nat)
    requires i < |Join(parts, sep)|
    ensures Join(parts, sep)[i] in sep
         || exists k, j :: 0 <= k < |parts| && 0 <= j < |parts[k]| && parts[k][j] == Join(parts, sep)[i]
  {
    if |parts| > 1 {
      var r := Join(parts[1..], sep);
      assert Join(parts, sep) == parts[0] + sep + r;
      if i < |parts[0]| {
        assert parts[0][i] == Join(parts, sep)[i];
      } else if i < |parts[0]| + |sep| {
        assert Join(parts, sep)[i] == sep[i - |parts[0]|];
      } else {
        var i' := i - |parts[0]| - |sep|;
        assert Join(parts, sep)[i] == r[i'];
        JoinChars(parts[1..], sep, i');
        if r[i'] !in sep {
          var k, j :| 0 <= k < |parts[1..]| && 0 <= j < |parts[1..][k]| && parts[1..][k][j] == r[i'];
          assert parts[k + 1][j] == Join(parts, sep)[i];
        }
      }
    } else if |parts| == 1 {
      assert parts[0][i] == Join(parts, sep)[i];
    }
  }

  // ---------------------------------------------------------------------
  // Whitespace splitting: `str.split()`

  /** Number of leading characters of `s` that are not whitespace. */
  function WordLen(s: string): (n: nat)
    ensures n <= |s|
    ensures forall i :: 0 <= i < n ==> !IsSpace(s[i])
    ensures n < |s| ==> IsSpace(s[n])
  {
    if s == [] || IsSpace(s[0]) then 0 else 1 + WordLen(s[1..])
  }

  /** `s.split()`: the maximal runs of non-whitespace characters, in order. */
  function Words(s: string): (ws: seq<string>)
    decreases |s|
  {
    if s == [] then []
    else if IsSpace(s[0]) then Words(s[1..])
    else
      var n := WordLen(s);
      [s[..n]] + Words(s[n..])
  }

  /** A word: non-empty and free of whitespace. */
  predicate IsWord(w: string) { |w| > 0 && forall i :: 0 <= i < |w| ==> !IsSpace(w[i]) }

  /** Every piece `str.split()` yields is a word, and its characters come
      from the input. */
  lemma {:induction false} WordsAreWords(s: string)
    ensures forall k :: 0 <= k < |Words(s)| ==> IsWord(Words(s)[k])
    ensures forall k, j :: 0 <= k < |Words(s)| && 0 <= j < |Words(s)[k]| ==> Words(s)[k][j] in s
    decreases |s|
  {
    if s == [] {
    } else if IsSpace(s[0]) {
      WordsAreWords(s[1..]);
      assert forall c :: c in s[1..] ==> c in s;
    } else {
      var n := WordLen(s);
      WordsAreWords(s[n..]);
      assert forall c :: c in s[n..] ==> c in s;
      assert forall c :: c in s[..n] ==> c in s;
    }
  }

  /** A word followed by nothing or by whitespace is exactly one word long. */
  lemma {:induction false} WordLenOfWord(w: string, rest: string)
    requires IsWord(w)
    requires rest == [] || IsSpace(rest[0])
    ensures WordLen(w + rest) == |w|
    decreases |w|
  {
    var s := w + rest;
    assert s[0] == w[0];
    if |w| > 1 {
      assert s[1..] == w[1..] + rest;
      assert IsWord(w[1..]) by {
        forall i | 0 <= i < |w| - 1 ensures !IsSpace(w[1..][i]) {
          assert w[1..][i] == w[i + 1];
        }
      }
      WordLenOfWord(w[1..], rest);
    } else {
      assert s[1..] == rest;
    }
  }

  /** Splitting what `" ".join` glued back together gives the words again. */
  lemma {:induction false} WordsOfJoin(ws: seq<string>)
    requires forall k :: 0 <= k < |ws| ==> IsWord(ws[k])
    ensures Words(Join(ws, " ")) == ws
  {
    if ws == [] {
    } else if |ws| == 1 {
      var w := ws[0];
      WordLenOfWord(w, []);
      assert w + [] == w;
      assert w[|w|..] == [];
      assert w[..|w|] == w;
    } else {
      var w := ws[0];
      var rest := Join(ws[1..], " ");
      var s := Join(ws, " ");
      assert s == w + (" " + rest);
      WordLenOfWord(w, " " + rest);
      assert s[..|w|] == w;
      assert s[|w|..] == " " + rest;
      assert (" " + rest)[1..] == rest;
      WordsOfJoin(ws[1..]);
    }
  }

  /** `" ".join(s.split())`: whitespace runs collapsed to single spaces, no
      leading or trailing whitespace. */
  function Collapse(s: string): string {
    Join(Words(s), " ")
  }

  /** Collapsing twice is collapsing once. */
  lemma CollapseIdempotent(s: string)
    ensures Collapse(Collapse(s)) == Collapse(s)
  {
    WordsAreWords(s);
    WordsOfJoin(Words(s));
  }

  /** A collapsed string holds only characters of the input, plus spaces. */
  lemma CollapseChars(s: string)
    ensures forall i :: 0 <= i < |Collapse(s)| ==> Collapse(s)[i] in s || Collapse(s)[i] == ' '
  {
    WordsAreWords(s);
    forall i | 0 <= i < |Collapse(s)|
      ensures Collapse(s)[i] in s || Collapse(s)[i] == ' '
    {
      JoinChars(Words(s), " ", i);
    }
  }

  /** A collapsed string is empty exactly when the input is all whitespace. */
  lemma {:induction false} CollapseEmpty(s: string)
    ensures Collapse(s) == [] <==> forall i :: 0 <= i < |s| ==> IsSpace(s[i])
    decreases |s|
  {
    if s == [] {
    } else if IsSpace(s[0]) {
      CollapseEmpty(s[1..]);
      assert forall i :: 1 <= i < |s| ==> s[i] == s[1..][i - 1];
    } else {
      WordsAreWords(s);
      assert Words(s)[0] == s[..WordLen(s)];
      JoinNonEmpty(Words(s), " ");
    }
  }

  lemma JoinNonEmpty(parts: seq<string>, sep: string)
    requires |parts| > 0 && |parts[0]| > 0
    ensures |Join(parts, sep)| > 0
  {
  }

  // ---------------------------------------------------------------------
  // Splitting on one separator: `str.split(sep)`

  /** `s.split(sep)` for a one-character separator: always at least one
      piece, empty pieces kept. */
  function SplitOn(s: string, sep: char): (parts: seq<string>)
    ensures |parts| >= 1
  {
    if s == [] then [[]]
    else
      var rest := SplitOn(s[1..], sep);
      if s[0] == sep then [[]] + rest else [[s[0]] + rest[0]] + rest[1..]
  }

  /** Splitting a string that does not contain the separator yields it whole. */
  lemma {:induction false} SplitOnAbsent(s: string, sep: char)
    requires sep !in s
    ensures SplitOn(s, sep) == [s]
  {
    if s != [] {
      SplitOnAbsent(s[1..], sep);
      assert [s[0]] + s[1..] == s;
    }
  }

  /** The first separator ends the first piece. */
  lemma {:induction false} SplitOnFirst(a: string, sep: char, b: string)
    requires sep !in a
    ensures SplitOn(a + [sep] + b, sep) == [a] + SplitOn(b, sep)
  {
    if a == [] {
      assert a + [sep] + b == [sep] + b;
      assert ([sep] + b)[1..] == b;
    } else {
      assert (a + [sep] + b)[1..] == a[1..] + [sep] + b;
      SplitOnFirst(a[1..], sep, b);
      assert [a[0]] + a[1..] == a;
    }
  }

  /** No piece of a split contains the separator, and joining the pieces
      with the separator gives back the string. */
  lemma {:induction false} SplitOnJoin(s: string, sep: char)
    ensures forall k :: 0 <= k < |SplitOn(s, sep)| ==> sep !in SplitOn(s, sep)[k]
    ensures Join(SplitOn(s, sep), [sep]) == s
  {
    if s != [] {
      var rest := SplitOn(s[1..], sep);
      SplitOnJoin(s[1..], sep);
      if s[0] == sep {
        assert SplitOn(s, sep) == [[]] + rest;
        assert ([[]] + rest)[1..] == rest;
      } else {
        var parts := SplitOn(s, sep);
        assert parts == [[s[0]] + rest[0]] + rest[1..];
        assert parts[1..] == rest[1..];
        if |rest| == 1 {
          assert Join(rest, [sep]) == rest[0];
        } else {
          assert Join(rest, [sep]) == rest[0] + [sep] + Join(rest[1..], [sep]);
        }
        assert s == [s[0]] + s[1..];
      }
    }
  }

  // ---------------------------------------------------------------------
  // Decimal integers

  function DigitChar(d: nat): (c: char)
    requires d < 10
    ensures IsDigit(c)
  {
    ('0' as int + d) as char
  }

  function DigitValue(c: char): (d: nat)
    requires IsDigit(c)
    ensures d < 10
  {
    c as int - '0' as int
  }

  predicate AllDigits(s: string) { forall i :: 0 <= i < |s| ==> IsDigit(s[i]) }

  /** `"%d" % n` for a non-negative `n`. */
  function NatToString(n: nat): (s: string)
    ensures |s| >= 1 && AllDigits(s)
  {
    if n < 10 then [DigitChar(n)] else NatToString(n / 10) + [DigitChar(n % 10)]
  }

  /** `"%d" % i`: a minus sign in front of negative numbers. */
  function IntToString(i: int): (s: string)
    ensures i >= 0 ==> s == NatToString(i)
    ensures i < 0 ==> s == "-" + NatToString(-i)
  {
    if i < 0 then "-" + NatToString(-i) else NatToString(i)
  }

  /** The value of a string of decimal digits. */
  function DigitsValue(s: string): nat
    requires AllDigits(s)
  {
    if s == [] then 0 else 10 * DigitsValue(s[..|s| - 1]) + DigitValue(s[|s| - 1])
  }

  /** Reading back what `NatToString` printed gives the number. */
  lemma {:induction false} DigitsValueOfNat(n: nat)
    ensures DigitsValue(NatToString(n)) == n
  {
    if n >= 10 {
      var s := NatToString(n);
      assert s[..|s| - 1] == NatToString(n / 10);
      DigitsValueOfNat(n / 10);
    }
  }

  /** `int(s)`: optional surrounding whitespace, an optional sign, then at
      least one ASCII digit. Anything else raises `ValueError` (here `None`).
      The `_` digit separators Python also accepts (`int("1_0")`) are not
      modelled: such a string gives `None` here. */
  function ParseInt(s: string): (r: Option<int>)
    ensures r.Some? ==> exists i :: 0 <= i < |s| && IsDigit(s[i])
  {
    var t := Strip(s);
    StripInside(s);
    if |t| > 0 && (t[0] == '-' || t[0] == '+') then
      var body := t[1..];
      if |body| > 0 && AllDigits(body) then
        assert t[1] == body[0] && t[1] in s;
        Some(if t[0] == '-' then -(DigitsValue(body) as int) else DigitsValue(body))
      else None
    else if |t| > 0 && AllDigits(t) then
      assert t[0] in s;
      Some(DigitsValue(t))
    else None
  }

  /** Leading whitespace removed. */
  function StripLeft(s: string): (r: string)
    ensures |r| <= |s| && r == s[|s| - |r|..]
    ensures r == [] || !IsSpace(r[0])
  {
    if s != [] && IsSpace(s[0]) then StripLeft(s[1..]) else s
  }

  /** Trailing whitespace removed. */
  function StripRight(s: string): (r: string)
    ensures |r| <= |s| && r == s[..|r|]
    ensures r == [] || !IsSpace(r[|r| - 1])
  {
    if s != [] && IsSpace(s[|s| - 1]) then StripRight(s[..|s| - 1]) else s
  }

  /** `str.strip()`. */
  function Strip(s: string): string {
    StripRight(StripLeft(s))
  }

  lemma StripInside(s: string)
    ensures forall c :: c in Strip(s) ==> c in s
  {
    var l := StripLeft(s);
    assert forall c :: c in l ==> c in s;
    assert forall c :: c in StripRight(l) ==> c in l;
  }

  /** A string with no whitespace at either end is its own strip. */
  lemma StripUnchanged(s: string)
    requires s == [] || (!IsSpace(s[0]) && !IsSpace(s[|s| - 1]))
    ensures Strip(s) == s
  {
  }

  /** `int("%d" % i) == i` for every integer. */
  lemma IntRoundTrip(i: int)
    ensures ParseInt(IntToString(i)) == Some(i)
  {
    var s := IntToString(i);
    var digits := NatToString(if i < 0 then -i else i);
    DigitsValueOfNat(if i < 0 then -i else i);
    StripUnchanged(s);
    if i < 0 {
      assert s[1..] == digits;
    } else {
      assert !(s[0] == '-' || s[0] == '+');
    }
  }
}
