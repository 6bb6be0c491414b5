/** The bill splitter's two text helpers: reading a command word from a
    response and formatting a person's name. */
module BillSplitter {
  import opened Wrappers
  import opened Text

  // ---------------------------------------------------------------------
  // get_command

  datatype Command = Help | Continue | Restart | Terminate

  /** The words each command answers to, after stripping and lowering. */
  function Aliases(c: Command): set<string> {
    if c == Help then {"help", "?"}
    else if c == Continue then {"", "continue"}
    else if c == Restart then {"r", "restart"}
    else {"t", "terminate"}
  }

  /** `response.strip().lower()`. Only ASCII letters are case-mapped; no
      other character lowers to a letter of a command word except the
      Kelvin sign (to 'k'), which no command word contains. */
  function Key(response: string): string {
    Lower(Strip(response))
  }

  /** `get_command`: the command whose aliases hold the stripped, lowered
      response, or none. */
  function GetCommand(response: string): (r: Option<Command>)
    ensures forall c :: r == Some(c) <==> Key(response) in Aliases(c)
    ensures r.None? <==> forall c :: Key(response) !in Aliases(c)
  {
    CommandOf(Key(response))
  }

  /** The command a stripped, lowered response names. */
  function CommandOf(key: string): (r: Option<Command>)
    ensures forall c :: r == Some(c) <==> key in Aliases(c)
  {
    if key in Aliases(Help) then Some(Help)
    else if key in Aliases(Continue) then Some(Continue)
    else if key in Aliases(Restart) then Some(Restart)
    else if key in Aliases(Terminate) then Some(Terminate)
    else None
  }

  /** No word answers to two commands. */
  lemma AliasesDisjoint(c: Command, d: Command)
    requires c != d
    ensures Aliases(c) * Aliases(d) == {}
  {
  }

  /** Each alias, typed as it is, reads back as its command. */
  lemma GetCommandOfAlias(c: Command, w: string)
    requires w in Aliases(c)
    ensures GetCommand(w) == Some(c)
  {
    assert forall i :: 0 <= i < |w| ==> 'a' <= w[i] <= 'z' || w[i] == '?';
    PlainWordIsKey(w);
  }

  /** A word of lower-case letters and '?' is its own key. */
  lemma PlainWordIsKey(w: string)
    requires forall i :: 0 <= i < |w| ==> 'a' <= w[i] <= 'z' || w[i] == '?'
    ensures Key(w) == w
  {
    StripUnchanged(w);
    LowerOfLowered(w);
  }

  lemma {:induction false} StripLeftAllSpace(s: string)
    requires forall i :: 0 <= i < |s| ==> IsSpace(s[i])
    ensures StripLeft(s) == []
  {
    if s != [] {
      StripLeftAllSpace(s[1..]);
    }
  }

  /** An empty or whitespace-only response is CONTINUE. */
  lemma BlankIsContinue(response: string)
    requires forall i :: 0 <= i < |response| ==> IsSpace(response[i])
    ensures GetCommand(response) == Some(Continue)
  {
    StripLeftAllSpace(response);
  }

  /** Case mapping never turns whitespace into something else, nor
      anything else into whitespace. */
  lemma CaseKeepsSpace(c: char)
    ensures IsSpace(LowerChar(c)) <==> IsSpace(c)
    ensures IsSpace(UpperChar(c)) <==> IsSpace(c)
    ensures IsSpace(c) ==> LowerChar(c) == c && UpperChar(c) == c
  {
  }

  /** Lower-casing commutes with stripping. */
  lemma {:induction false} StripLeftLower(s: string)
    ensures StripLeft(Lower(s)) == Lower(StripLeft(s))
  {
    if s != [] {
      CaseKeepsSpace(s[0]);
      if IsSpace(s[0]) {
        assert Lower(s)[1..] == Lower(s[1..]);
        StripLeftLower(s[1..]);
      }
    }
  }

  lemma {:induction false} StripRightLower(s: string)
    ensures StripRight(Lower(s)) == Lower(StripRight(s))
  {
    if s != [] {
      CaseKeepsSpace(s[|s| - 1]);
      if IsSpace(s[|s| - 1]) {
        assert Lower(s)[..|s| - 1] == Lower(s[..|s| - 1]);
        StripRightLower(s[..|s| - 1]);
      }
    }
  }

  lemma LowerIdempotent(s: string)
    ensures Lower(Lower(s)) == Lower(s)
  {
    forall i | 0 <= i < |s| ensures Lower(Lower(s))[i] == Lower(s)[i] {
      CaseRoundTrip(s[i]);
    }
  }

  /** The answer does not depend on the case the response is typed in. */
  lemma GetCommandCaseInsensitive(response: string)
    ensures GetCommand(Lower(response)) == GetCommand(response)
  {
    StripLeftLower(response);
    StripRightLower(StripLeft(response));
    LowerIdempotent(Strip(response));
    assert Key(Lower(response)) == Key(response);
  }

  // ---------------------------------------------------------------------
  // process_name, step 1: `' '.join(p.capitalize() for p in name.split())`

  /** `str.capitalize()`: the first character upper-cased, the rest
      lower-cased. */
  function Capitalize(w: string): (r: string)
    ensures |r| == |w|
    ensures forall i :: 0 <= i < |w| ==> (IsSpace(r[i]) <==> IsSpace(w[i]))
    ensures forall i :: 0 <= i < |w| ==> (r[i] == ' ' <==> w[i] == ' ') && (r[i] == '-' <==> w[i] == '-')
  {
    if w == [] then [] else [UpperChar(w[0])] + Lower(w[1..])
  }

  /** A capitalised word starts with no lower-case letter and has no
      upper-case letter after that; it is the word up to case, and
      capitalising it again changes nothing. */
  lemma CapitalizeFacts(w: string)
    ensures w != [] ==> !IsAsciiLower(Capitalize(w)[0])
    ensures forall i :: 1 <= i < |w| ==> !IsAsciiUpper(Capitalize(w)[i])
    ensures Lower(Capitalize(w)) == Lower(w)
    ensures Capitalize(Capitalize(w)) == Capitalize(w)
  {
    if w != [] {
      CapitalizeLower(w);
      CapitalizeTwice(w);
    }
  }

  lemma CapitalizeLower(w: string)
    requires w != []
    ensures Lower(Capitalize(w)) == Lower(w)
  {
    var c := Capitalize(w);
    var tail := Lower(w[1..]);
    assert c == [UpperChar(w[0])] + tail;
    forall i | 0 <= i < |w| ensures Lower(c)[i] == Lower(w)[i] {
      if i == 0 {
        CaseRoundTrip(w[0]);
      } else {
        assert c[i] == tail[i - 1] == LowerChar(w[i]);
        CaseRoundTrip(w[i]);
      }
    }
  }

  lemma CapitalizeTwice(w: string)
    requires w != []
    ensures Capitalize(Capitalize(w)) == Capitalize(w)
  {
    var c := Capitalize(w);
    CaseRoundTrip(w[0]);
    forall i | 1 <= i < |w| ensures Capitalize(c)[i] == c[i] {
      CaseRoundTrip(w[i]);
    }
  }

  lemma CaseRoundTrip(ch: char)
    ensures LowerChar(UpperChar(ch)) == LowerChar(ch)
    ensures LowerChar(LowerChar(ch)) == LowerChar(ch)
    ensures UpperChar(UpperChar(ch)) == UpperChar(ch)
  {
  }

  function CapitalizeAll(ws: seq<string>): (r: seq<string>)
    ensures |r| == |ws| && forall k :: 0 <= k < |ws| ==> r[k] == Capitalize(ws[k])
  {
    seq(|ws|, k requires 0 <= k < |ws| => Capitalize(ws[k]))
  }

  /** The first step of `process_name`. */
  function CapitalizedWords(name: string): string {
    Join(CapitalizeAll(Words(name)), " ")
  }

  // ---------------------------------------------------------------------
  // process_name, step 2: `re.sub(' ?- ?', '-', name)`

  function DropSpace(s: string): string {
    if s != [] && s[0] == ' ' then s[1..] else s
  }

  /** The regular expression scan: at each position, an optional space, a
      hyphen and an optional space become a hyphen, and the scan resumes
      after the match. */
  function FixHyphens(s: string): (r: string)
    ensures |r| <= |s|
    ensures r == [] <==> s == []
    decreases |s|
  {
    if s == [] then []
    else if |s| >= 2 && s[0] == ' ' && s[1] == '-' then "-" + FixHyphens(DropSpace(s[2..]))
    else if s[0] == '-' then "-" + FixHyphens(DropSpace(s[1..]))
    else [s[0]] + FixHyphens(s[1..])
  }

  /** No two spaces in a row. */
  predicate NoDoubleSpace(s: string) {
    forall i :: 0 <= i && i + 1 < |s| ==> !(s[i] == ' ' && s[i + 1] == ' ')
  }

  /** No space right before or right after a hyphen. */
  predicate Tight(s: string) {
    forall i :: 0 <= i && i + 1 < |s| ==> !(s[i] == ' ' && s[i + 1] == '-') && !(s[i] == '-' && s[i + 1] == ' ')
  }

  /** The string with its spaces deleted. */
  function Unspaced(s: string): string {
    if s == [] then [] else (if s[0] == ' ' then [] else [s[0]]) + Unspaced(s[1..])
  }

  /** What the scan puts first. */
  lemma FixHyphensHead(s: string)
    requires s != []
    ensures FixHyphens(s)[0] == ' ' ==> s[0] == ' '
    ensures FixHyphens(s)[0] == '-' ==> s[0] == '-' || (|s| >= 2 && s[0] == ' ' && s[1] == '-')
  {
  }

  lemma NoDoubleSpaceSuffix(s: string, k: nat)
    requires NoDoubleSpace(s) && k <= |s|
    ensures NoDoubleSpace(s[k..])
  {
    forall i | 0 <= i && i + 1 < |s[k..]| ensures !(s[k..][i] == ' ' && s[k..][i + 1] == ' ') {
      assert s[k..][i] == s[k + i] && s[k..][i + 1] == s[k + i + 1];
    }
  }

  /** Only spaces are removed: every other character is kept, in order. */
  lemma {:induction false} FixHyphensUnspaced(s: string)
    ensures Unspaced(FixHyphens(s)) == Unspaced(s)
    decreases |s|
  {
    if s == [] {
    } else if |s| >= 2 && s[0] == ' ' && s[1] == '-' {
      var t := DropSpace(s[2..]);
      FixHyphensUnspaced(t);
      assert ("-" + FixHyphens(t))[1..] == FixHyphens(t);
      assert s[1..][1..] == s[2..];
      assert Unspaced(t) == Unspaced(s[2..]) by {
        if s[2..] != [] && s[2..][0] == ' ' { assert t == s[2..][1..]; }
      }
    } else if s[0] == '-' {
      var t := DropSpace(s[1..]);
      FixHyphensUnspaced(t);
      assert ("-" + FixHyphens(t))[1..] == FixHyphens(t);
      assert Unspaced(t) == Unspaced(s[1..]) by {
        if s[1..] != [] && s[1..][0] == ' ' { assert t == s[1..][1..]; }
      }
    } else {
      FixHyphensUnspaced(s[1..]);
      assert ([s[0]] + FixHyphens(s[1..]))[1..] == FixHyphens(s[1..]);
    }
  }

  /** On a string without double spaces, the scan leaves no space next to a
      hyphen and creates no double space. */
  lemma {:induction false} FixHyphensTight(s: string)
    requires NoDoubleSpace(s)
    ensures Tight(FixHyphens(s)) && NoDoubleSpace(FixHyphens(s))
    decreases |s|, 1
  {
    if s == [] {
    } else if |s| >= 2 && s[0] == ' ' && s[1] == '-' {
      NoDoubleSpaceSuffix(s, 2);
      AfterHyphen(s[2..]);
    } else if s[0] == '-' {
      NoDoubleSpaceSuffix(s, 1);
      AfterHyphen(s[1..]);
    } else {
      NoDoubleSpaceSuffix(s, 1);
      var t := s[1..];
      FixHyphensTight(t);
      if t != [] {
        FixHyphensHead(t);
        assert s[0] == ' ' ==> t[0] != ' ' && t[0] != '-';
      }
      ConsTight(s[0], FixHyphens(t));
    }
  }

  /** The rest of the scan after a matched hyphen. */
  lemma {:induction false} AfterHyphen(u: string)
    requires NoDoubleSpace(u)
    ensures Tight("-" + FixHyphens(DropSpace(u))) && NoDoubleSpace("-" + FixHyphens(DropSpace(u)))
    decreases |u| + 1, 0
  {
    var t := DropSpace(u);
    if u != [] && u[0] == ' ' {
      NoDoubleSpaceSuffix(u, 1);
      assert t != [] ==> t[0] == u[1] && t[0] != ' ';
    }
    FixHyphensTight(t);
    if t != [] {
      FixHyphensHead(t);
    }
    HyphenPrefix(FixHyphens(t));
  }

  lemma HyphenPrefix(r: string)
    requires Tight(r) && NoDoubleSpace(r)
    requires r != [] ==> r[0] != ' '
    ensures Tight("-" + r) && NoDoubleSpace("-" + r)
  {
    var s := "-" + r;
    forall i | 1 <= i && i + 1 < |s|
      ensures !(s[i] == ' ' && s[i + 1] == '-') && !(s[i] == '-' && s[i + 1] == ' ') && !(s[i] == ' ' && s[i + 1] == ' ')
    {
      assert s[i] == r[i - 1] && s[i + 1] == r[i];
    }
  }

  lemma ConsTight(c: char, r: string)
    requires Tight(r) && NoDoubleSpace(r) && c != '-'
    requires r != [] && c == ' ' ==> r[0] != ' ' && r[0] != '-'
    ensures Tight([c] + r) && NoDoubleSpace([c] + r)
  {
    var s := [c] + r;
    forall i | 1 <= i && i + 1 < |s|
      ensures !(s[i] == ' ' && s[i + 1] == '-') && !(s[i] == '-' && s[i + 1] == ' ') && !(s[i] == ' ' && s[i + 1] == ' ')
    {
      assert s[i] == r[i - 1] && s[i + 1] == r[i];
    }
  }

  /** On a string with no space beside a hyphen, the scan changes nothing. */
  lemma {:induction false} FixHyphensOfTight(s: string)
    requires Tight(s)
    ensures FixHyphens(s) == s
    decreases |s|
  {
    if s != [] {
      assert Tight(s[1..]) by {
        forall i | 0 <= i && i + 1 < |s[1..]|
          ensures !(s[1..][i] == ' ' && s[1..][i + 1] == '-') && !(s[1..][i] == '-' && s[1..][i + 1] == ' ')
        {
          assert s[1..][i] == s[i + 1] && s[1..][i + 1] == s[i + 2];
        }
      }
      FixHyphensOfTight(s[1..]);
    }
  }

  /** Applying the substitution twice is applying it once, on a string with
      no double spaces (as the first step always produces). */
  lemma FixHyphensIdempotent(s: string)
    requires NoDoubleSpace(s)
    ensures FixHyphens(FixHyphens(s)) == FixHyphens(s)
  {
    FixHyphensTight(s);
    FixHyphensOfTight(FixHyphens(s));
  }

  // ---------------------------------------------------------------------
  // process_name, step 3: `'-'.join(upper_first_char(i) for i in name.split('-'))`

  /** The first character upper-cased, when there is one. */
  function UpperInitial(s: string): string {
    if s == [] then [] else [UpperChar(s[0])] + s[1..]
  }

  /** `upper_first_char`: indexing the empty string raises IndexError. */
  function UpperFirst(s: string): (r: Option<string>)
    ensures r.None? <==> s == []
    ensures r.Some? ==> |r.value| == |s| && r.value[0] == UpperChar(s[0])
    ensures r.Some? ==> forall i :: 1 <= i < |s| ==> r.value[i] == s[i]
  {
    if s == [] then None else Some(UpperInitial(s))
  }

  /** The list comprehension: fails on the first empty segment. */
  function UpperSegments(parts: seq<string>): (r: Option<seq<string>>)
    ensures r.None? <==> [] in parts
    ensures r.Some? ==> |r.value| == |parts| && forall k :: 0 <= k < |parts| ==> r.value[k] == UpperInitial(parts[k])
  {
    if parts == [] then Some([])
    else
      var first := UpperFirst(parts[0]);
      var rest := UpperSegments(parts[1..]);
      assert forall k :: 1 <= k < |parts| ==> parts[k] == parts[1..][k - 1];
      if first.None? || rest.None? then None else Some([first.value] + rest.value)
  }

  /** `process_name`. */
  function ProcessName(name: string): Option<string> {
    var fixed := FixHyphens(CapitalizedWords(name));
    match UpperSegments(SplitOn(fixed, '-'))
    case None => None
    case Some(parts) => Some(Join(parts, "-"))
  }

  /** The reference for step 3: each character that starts the string or
      follows a hyphen upper-cased, every other one kept. */
  function UpperAfterHyphens(s: string): (r: string)
    ensures |r| == |s|
    ensures forall i :: 0 <= i < |s| ==> r[i] == if i == 0 || s[i - 1] == '-' then UpperChar(s[i]) else s[i]
  {
    seq(|s|, i requires 0 <= i < |s| => if i == 0 || s[i - 1] == '-' then UpperChar(s[i]) else s[i])
  }

  lemma UpperAfterHyphensJoin(a: string, b: string)
    ensures UpperAfterHyphens(a + "-" + b) == UpperAfterHyphens(a) + "-" + UpperAfterHyphens(b)
  {
    var s := a + "-" + b;
    var l := UpperAfterHyphens(s);
    var r := UpperAfterHyphens(a) + "-" + UpperAfterHyphens(b);
    forall i | 0 <= i < |s| ensures l[i] == r[i] {
      if i < |a| {
        assert s[i] == a[i];
        if i > 0 { assert s[i - 1] == a[i - 1]; }
      } else if i > |a| {
        assert s[i] == b[i - |a| - 1];
        if i > |a| + 1 { assert s[i - 1] == b[i - |a| - 2]; }
      }
    }
  }

  /** Upper-casing the first character of every hyphen-separated segment
      and joining them back is the reference. */
  lemma {:induction false} JoinUpperInitials(parts: seq<string>, uppers: seq<string>)
    requires |uppers| == |parts|
    requires forall k :: 0 <= k < |parts| ==> uppers[k] == UpperInitial(parts[k]) && '-' !in parts[k]
    ensures Join(uppers, "-") == UpperAfterHyphens(Join(parts, "-"))
  {
    if |parts| == 1 {
      var p := parts[0];
      assert UpperAfterHyphens(p) == UpperInitial(p) by {
        forall j | 0 <= j < |p| ensures p[j] != '-' {
          assert p[j] in p;
        }
      }
    } else if |parts| > 1 {
      JoinUpperInitials(parts[1..], uppers[1..]);
      JoinUpperInitials(parts[..1], uppers[..1]);
      UpperAfterHyphensJoin(parts[0], Join(parts[1..], "-"));
    }
  }

  /** Upper-casing keeps spaces and hyphens where they are. */
  lemma UpperAfterHyphensKeeps(s: string)
    ensures forall i :: 0 <= i < |s| ==>
      (UpperAfterHyphens(s)[i] == ' ' <==> s[i] == ' ') && (UpperAfterHyphens(s)[i] == '-' <==> s[i] == '-')
  {
  }

  // ---------------------------------------------------------------------
  // What process_name guarantees

  /** `process_name` succeeds exactly when no hyphen-separated segment of
      the fixed-up name is empty, and then its result is the fixed-up name
      with the first character of every segment upper-cased. */
  lemma ProcessNameResult(name: string)
    ensures var fixed := FixHyphens(CapitalizedWords(name));
      && (ProcessName(name).None? <==> [] in SplitOn(fixed, '-'))
      && (ProcessName(name).Some? ==> ProcessName(name).value == UpperAfterHyphens(fixed))
  {
    var fixed := FixHyphens(CapitalizedWords(name));
    var parts := SplitOn(fixed, '-');
    SplitOnJoin(fixed, '-');
    var r := UpperSegments(parts);
    assert ProcessName(name) == if r.None? then None else Some(Join(r.value, "-"));
    if r.Some? {
      JoinUpperInitials(parts, r.value);
    }
  }

  /** Joining words with single spaces gives no double space and no space
      at either end. */
  lemma {:induction false} JoinWordsSpacing(ws: seq<string>)
    requires forall k :: 0 <= k < |ws| ==> IsWord(ws[k])
    ensures var s := Join(ws, " ");
      && NoDoubleSpace(s)
      && (ws != [] ==>
            IsWord(ws[0]) && IsWord(ws[|ws| - 1]) && s != [] &&
            s[0] == ws[0][0] && s[|s| - 1] == ws[|ws| - 1][|ws[|ws| - 1]| - 1])
  {
    if |ws| == 1 {
      assert forall i :: 0 <= i < |ws[0]| ==> ws[0][i] != ' ' by {
        assert forall i :: 0 <= i < |ws[0]| ==> !IsSpace(ws[0][i]);
      }
    } else if |ws| > 1 {
      var w := ws[0];
      var rest := Join(ws[1..], " ");
      JoinWordsSpacing(ws[1..]);
      var s := w + " " + rest;
      assert IsWord(w) && IsWord(ws[1]);
      assert forall i :: 0 <= i < |w| ==> w[i] != ' ' by {
        assert forall i :: 0 <= i < |w| ==> !IsSpace(w[i]);
      }
      assert rest[0] == ws[1][0] && rest[0] != ' ' by { assert !IsSpace(ws[1][0]); }
      forall i | 0 <= i && i + 1 < |s| ensures !(s[i] == ' ' && s[i + 1] == ' ') {
        if i < |w| {
          assert s[i] == w[i];
        } else if i == |w| {
          assert s[i + 1] == rest[0];
        } else {
          assert s[i] == rest[i - |w| - 1] && s[i + 1] == rest[i - |w|];
        }
      }
      assert s[|s| - 1] == rest[|rest| - 1];
    }
  }

  /** The first step yields single-spaced words with no space at either end. */
  lemma CapitalizedWordsSpacing(name: string)
    ensures var s := CapitalizedWords(name);
      NoDoubleSpace(s) && (s != [] ==> s[0] != ' ' && s[|s| - 1] != ' ')
  {
    var ws := CapitalizeAll(Words(name));
    WordsAreWords(name);
    assert forall k :: 0 <= k < |ws| ==> IsWord(ws[k]);
    JoinWordsSpacing(ws);
    if ws != [] {
      assert !IsSpace(ws[0][0]) && !IsSpace(ws[|ws| - 1][|ws[|ws| - 1]| - 1]);
    }
  }

  /** The scan never ends on a space unless the input did. */
  lemma {:induction false} FixHyphensLast(s: string)
    requires s != []
    ensures FixHyphens(s)[|FixHyphens(s)| - 1] == ' ' ==> s[|s| - 1] == ' '
    ensures s[|s| - 1] == '-' ==> FixHyphens(s)[|FixHyphens(s)| - 1] == '-'
    decreases |s|, 1
  {
    if |s| >= 2 && s[0] == ' ' && s[1] == '-' {
      MatchLast(s, 2);
    } else if s[0] == '-' {
      MatchLast(s, 1);
    } else if |s| > 1 {
      FixHyphensLast(s[1..]);
      assert FixHyphens(s) == [s[0]] + FixHyphens(s[1..]);
      assert s[1..][|s| - 2] == s[|s| - 1];
    } else {
      assert FixHyphens(s) == [s[0]];
    }
  }

  /** The case where the scan matched a hyphen `k` characters long (with
      the space before it, when `k` is 2). */
  lemma {:induction false} MatchLast(s: string, k: nat)
    requires (k == 2 && |s| >= 2 && s[0] == ' ' && s[1] == '-') || (k == 1 && s != [] && s[0] == '-')
    ensures FixHyphens(s)[|FixHyphens(s)| - 1] == ' ' ==> s[|s| - 1] == ' '
    ensures s[|s| - 1] == '-' ==> FixHyphens(s)[|FixHyphens(s)| - 1] == '-'
    decreases |s|, 0
  {
    var u := s[k..];
    var t := DropSpace(u);
    assert FixHyphens(s) == "-" + FixHyphens(t);
    if t != [] {
      assert t[|t| - 1] == s[|s| - 1] by {
        if u != [] && u[0] == ' ' { assert t == u[1..]; }
        assert u[|u| - 1] == s[|s| - 1];
      }
      FixHyphensLast(t);
    } else {
      assert s[|s| - 1] == ' ' || s[|s| - 1] == '-' by {
        if u != [] { assert |u| == 1 && u[0] == s[|s| - 1]; }
      }
    }
  }

  /** A formatted name has single spaces between words, none at either end
      and none beside a hyphen. */
  lemma ProcessNameShape(name: string)
    requires ProcessName(name).Some?
    ensures var r := ProcessName(name).value;
      && r != [] && r[0] != ' ' && r[|r| - 1] != ' '
      && NoDoubleSpace(r) && Tight(r)
  {
    var s := CapitalizedWords(name);
    ProcessNameResult(name);
    CapitalizedWordsSpacing(name);
    assert s != [] by {
      assert SplitOn([], '-') == [[]];
    }
    FixedShape(s);
    UpperShape(FixHyphens(s));
  }

  /** Single-spaced text with no space at either end keeps that shape
      through the scan, which also leaves no space beside a hyphen. */
  lemma FixedShape(s: string)
    requires s != [] && s[0] != ' ' && s[|s| - 1] != ' ' && NoDoubleSpace(s)
    ensures var f := FixHyphens(s);
      f != [] && f[0] != ' ' && f[|f| - 1] != ' ' && NoDoubleSpace(f) && Tight(f)
  {
    FixHyphensTight(s);
    FixHyphensHead(s);
    FixHyphensLast(s);
  }

  /** Upper-casing after hyphens keeps that shape. */
  lemma UpperShape(f: string)
    requires f != [] && f[0] != ' ' && f[|f| - 1] != ' ' && NoDoubleSpace(f) && Tight(f)
    ensures var r := UpperAfterHyphens(f);
      r != [] && r[0] != ' ' && r[|r| - 1] != ' ' && NoDoubleSpace(r) && Tight(r)
  {
    UpperAfterHyphensKeeps(f);
  }

  /** A blank name has no segment to upper-case: `process_name` raises. */
  lemma ProcessNameBlank(name: string)
    requires forall i :: 0 <= i < |name| ==> IsSpace(name[i])
    ensures ProcessName(name).None?
  {
    CollapseEmpty(name);
    if Words(name) != [] {
      WordsAreWords(name);
      JoinNonEmpty(Words(name), " ");
    }
    assert SplitOn([], '-')[0] == [];
  }

  /** The last word of a string that ends in a non-space character ends in
      that character. */
  lemma {:induction false} WordsLast(s: string)
    requires s != [] && !IsSpace(s[|s| - 1])
    ensures var ws := Words(s);
      ws != [] && ws[|ws| - 1] != [] && ws[|ws| - 1][|ws[|ws| - 1]| - 1] == s[|s| - 1]
    decreases |s|
  {
    if IsSpace(s[0]) {
      assert Words(s) == Words(s[1..]);
      assert s[1..][|s| - 2] == s[|s| - 1];
      WordsLast(s[1..]);
    } else {
      var n := WordLen(s);
      var rest := Words(s[n..]);
      assert Words(s) == [s[..n]] + rest;
      if n < |s| {
        assert s[n..][|s| - n - 1] == s[|s| - 1];
        WordsLast(s[n..]);
        assert Words(s)[|Words(s)| - 1] == rest[|rest| - 1];
      } else {
        assert s[n..] == [] && s[..n] == s;
        assert Words(s) == [s];
      }
    }
  }

  lemma {:induction false} JoinLast(parts: seq<string>, sep: string)
    requires parts != [] && parts[|parts| - 1] != []
    ensures var s := Join(parts, sep); var p := parts[|parts| - 1];
      s != [] && s[|s| - 1] == p[|p| - 1]
  {
    if |parts| > 1 {
      JoinLast(parts[1..], sep);
    }
  }

  /** A name typed with a trailing hyphen leaves an empty last segment:
      `process_name` raises. */
  lemma ProcessNameTrailingHyphen(name: string)
    requires name != [] && name[|name| - 1] == '-'
    ensures ProcessName(name).None?
  {
    CapitalizedWordsLast(name);
    FixedTrailingHyphen(CapitalizedWords(name));
  }

  lemma CapitalizedWordsLast(name: string)
    requires name != [] && name[|name| - 1] == '-'
    ensures var s := CapitalizedWords(name); s != [] && s[|s| - 1] == '-'
  {
    WordsLast(name);
    CapitalizeAllLast(Words(name));
  }

  /** Capitalising and joining words of which the last ends in '-' gives
      a string ending in '-'. */
  lemma CapitalizeAllLast(ws: seq<string>)
    requires ws != [] && ws[|ws| - 1] != [] && ws[|ws| - 1][|ws[|ws| - 1]| - 1] == '-'
    ensures var s := Join(CapitalizeAll(ws), " "); s != [] && s[|s| - 1] == '-'
  {
    var caps := CapitalizeAll(ws);
    var last := ws[|ws| - 1];
    assert caps[|caps| - 1] == Capitalize(last);
    assert Capitalize(last)[|last| - 1] == '-';
    JoinLast(caps, " ");
  }

  lemma FixedTrailingHyphen(s: string)
    requires s != [] && s[|s| - 1] == '-'
    ensures [] in SplitOn(FixHyphens(s), '-')
  {
    FixHyphensLast(s);
    TrailingSeparator(FixHyphens(s), '-');
  }

  /** A string that ends in the separator has an empty piece. */
  lemma TrailingSeparator(t: string, sep: char)
    requires t != [] && t[|t| - 1] == sep
    ensures [] in SplitOn(t, sep)
  {
    var a := t[..|t| - 1];
    assert a + [sep] == t;
    SplitOnTrailing(a, sep);
  }

  /** Splitting a string that ends in the separator ends with an empty piece. */
  lemma {:induction false} SplitOnTrailing(a: string, sep: char)
    ensures var parts := SplitOn(a + [sep], sep); parts[|parts| - 1] == []
  {
    if a == [] {
      assert ([sep])[1..] == [];
    } else {
      assert (a + [sep])[1..] == a[1..] + [sep];
      SplitOnTrailing(a[1..], sep);
    }
  }
}
