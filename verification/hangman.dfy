/** The Hangman game: phrase validation, the bank of phrases (a dictionary
    from difficulty to a list of phrases, changed in place), the bank's
    command line, the phrase board and the guessing rules. */
module Hangman {
  import opened Wrappers
  import opened Text
  import opened SeqUtil

  // ---------------------------------------------------------------------
  // Phrase validation: check_phrase

  /** The only punctuation a phrase may hold. */
  predicate AllowedPunct(c: char) {
    c == '!' || c == '?' || c == '-' || c == ',' || c == '.' || c == '\''
  }

  /** A character that makes a phrase invalid once it is ASCII. */
  predicate Forbidden(c: char) {
    (IsPunctuation(c) && !AllowedPunct(c)) || IsDigit(c)
  }

  /** `check_phrase`: `None` stands for the `False` the source returns; an
      accepted phrase is returned lower-cased with whitespace collapsed. */
  function CheckPhrase(phrase: string): Option<string> {
    if !AllAscii(phrase) then None
    else
      var p := Collapse(Lower(phrase));
      if p == [] then None
      else if exists i :: 0 <= i < |p| && IsPunctuation(p[i]) && !AllowedPunct(p[i]) then None
      else if exists i :: 0 <= i < |p| && IsDigit(p[i]) then None
      else Some(p)
  }

  /** A non-space character of the input survives whitespace collapsing. */
  lemma {:induction false} CollapseKeeps(s: string, i: nat)
    requires i < |s| && !IsSpace(s[i])
    ensures s[i] in Collapse(s)
    decreases |s|
  {
    if IsSpace(s[0]) {
      assert s[i] == s[1..][i - 1];
      CollapseKeeps(s[1..], i - 1);
    } else {
      var n := WordLen(s);
      var rest := Words(s[n..]);
      assert Words(s) == [s[..n]] + rest;
      if i < n {
        assert s[i] == s[..n][i];
        if rest == [] {
          assert Collapse(s) == s[..n];
        } else {
          assert Collapse(s) == s[..n] + " " + Join(rest, " ");
        }
      } else {
        assert s[i] == s[n..][i - n];
        CollapseKeeps(s[n..], i - n);
        assert rest != [];
        assert Collapse(s) == s[..n] + " " + Collapse(s[n..]);
      }
    }
  }

  /** Lower-casing never creates or destroys a forbidden character, nor a
      whitespace one. */
  lemma LowerKeepsClasses(s: string, i: nat)
    requires i < |s|
    ensures Forbidden(Lower(s)[i]) <==> Forbidden(s[i])
    ensures IsSpace(Lower(s)[i]) <==> IsSpace(s[i])
    ensures Forbidden(s[i]) ==> Lower(s)[i] == s[i]
  {
  }

  /** The rejection cases, stated on the raw input: non-ASCII, blank, a
      disallowed punctuation mark or a digit. */
  lemma CheckPhraseRejects(phrase: string)
    ensures CheckPhrase(phrase).None? <==>
      || !AllAscii(phrase)
      || (forall i :: 0 <= i < |phrase| ==> IsSpace(phrase[i]))
      || (exists i :: 0 <= i < |phrase| && Forbidden(phrase[i]))
  {
    if AllAscii(phrase) {
      var p := Collapse(Lower(phrase));
      BlankSurvives(phrase);
      ForbiddenSurvives(phrase);
      assert CheckPhrase(phrase).None? <==> p == [] || exists i :: 0 <= i < |p| && Forbidden(p[i]);
    }
  }

  /** The phrase lower-cased and collapsed is empty exactly when the phrase
      is blank. */
  lemma BlankSurvives(phrase: string)
    ensures Collapse(Lower(phrase)) == [] <==> forall i :: 0 <= i < |phrase| ==> IsSpace(phrase[i])
  {
    var l := Lower(phrase);
    CollapseEmpty(l);
    forall i | 0 <= i < |phrase| ensures IsSpace(l[i]) <==> IsSpace(phrase[i]) {
      LowerKeepsClasses(phrase, i);
    }
  }

  /** The phrase lower-cased and collapsed holds a forbidden character
      exactly when the phrase does. */
  lemma ForbiddenSurvives(phrase: string)
    ensures var p := Collapse(Lower(phrase));
      (exists i :: 0 <= i < |p| && Forbidden(p[i])) <==> exists i :: 0 <= i < |phrase| && Forbidden(phrase[i])
  {
    var l := Lower(phrase);
    var p := Collapse(l);
    CollapseChars(l);
    if exists i :: 0 <= i < |phrase| && Forbidden(phrase[i]) {
      var i :| 0 <= i < |phrase| && Forbidden(phrase[i]);
      LowerKeepsClasses(phrase, i);
      CollapseKeeps(l, i);
      var j :| 0 <= j < |p| && p[j] == l[i];
      assert Forbidden(p[j]);
    }
    if exists j :: 0 <= j < |p| && Forbidden(p[j]) {
      var j :| 0 <= j < |p| && Forbidden(p[j]);
      assert p[j] in l;
      var i :| 0 <= i < |l| && l[i] == p[j];
      LowerKeepsClasses(phrase, i);
    }
  }

  /** An accepted phrase is ASCII, has no upper-case letter and is already
      whitespace-collapsed, so checking it again returns it unchanged. */
  lemma CheckPhraseIdempotent(phrase: string)
    requires CheckPhrase(phrase).Some?
    ensures var p := CheckPhrase(phrase).value;
      AllAscii(p) && IsLowered(p) && Collapse(p) == p && CheckPhrase(p) == Some(p)
  {
    var l := Lower(phrase);
    var p := Collapse(l);
    CollapseChars(l);
    assert AllAscii(p) && IsLowered(p) by {
      forall i | 0 <= i < |p| ensures IsAscii(p[i]) && !IsAsciiUpper(p[i]) {
        if p[i] != ' ' {
          var j :| 0 <= j < |l| && l[j] == p[i];
        }
      }
    }
    LowerOfLowered(p);
    CollapseIdempotent(l);
  }

  // ---------------------------------------------------------------------
  // Letters and difficulty

  /** The ASCII lower-case letters of a phrase, `set(ascii_lowercase) & set(phrase)`. */
  function Letters(p: string): set<char> {
    set i | 0 <= i < |p| && IsAsciiLower(p[i]) :: p[i]
  }

  datatype Difficulty = Easy | Normal | Hard

  /** Difficulty by number of distinct letters: fewer than 5 is easy, fewer
      than 8 normal, otherwise hard. */
  function DifficultyOf(p: string): Difficulty {
    var n := |Letters(p)|;
    if n < 5 then Easy else if n < 8 then Normal else Hard
  }

  /** The sort key of `sorted_phrases_bank`. */
  function Rank(d: Difficulty): nat {
    match d
    case Easy => 0
    case Normal => 1
    case Hard => 2
  }

  /** The difficulties that carry a list in `keys`, in the order
      easy, normal, hard. */
  function SortedKeys(keys: seq<Difficulty>): (r: seq<Difficulty>) {
    (if Easy in keys then [Easy] else [])
    + (if Normal in keys then [Normal] else [])
    + (if Hard in keys then [Hard] else [])
  }

  /** `sorted_phrases_bank` orders the keys easy < normal < hard. */
  lemma SortedKeysOrdered(keys: seq<Difficulty>)
    ensures forall i, j :: 0 <= i < j < |SortedKeys(keys)| ==> Rank(SortedKeys(keys)[i]) < Rank(SortedKeys(keys)[j])
  {
  }

  /** ... and keeps the same keys, each once (so the same key/value pairs,
      since the values are looked up unchanged). */
  lemma SortedKeysPermutation(keys: seq<Difficulty>)
    requires Distinct(keys)
    ensures multiset(SortedKeys(keys)) == multiset(keys)
  {
    DistinctMultiset(keys);
    forall d ensures multiset(SortedKeys(keys))[d] == multiset(keys)[d] {
      SortedKeysCount(keys, d);
    }
    assert multiset(SortedKeys(keys)) == multiset(keys);
  }

  /** Each difficulty occurs once in the sorted keys when it is a key and
      not at all otherwise. */
  lemma SortedKeysCount(keys: seq<Difficulty>, d: Difficulty)
    ensures multiset(SortedKeys(keys))[d] == if d in keys then 1 else 0
  {
    var e := if Easy in keys then [Easy] else [];
    var n := if Normal in keys then [Normal] else [];
    var h := if Hard in keys then [Hard] else [];
    assert multiset(SortedKeys(keys))[d] == multiset(e)[d] + multiset(n)[d] + multiset(h)[d];
    match d
    case Easy => assert multiset(n)[d] == 0 && multiset(h)[d] == 0;
    case Normal => assert multiset(e)[d] == 0 && multiset(h)[d] == 0;
    case Hard => assert multiset(e)[d] == 0 && multiset(n)[d] == 0;
  }

  // ---------------------------------------------------------------------
  // The bank of phrases

  /** Removes the first occurrence of `x` (`list.remove`). */
  function RemoveFirst(s: seq<string>, x: string): (r: seq<string>)
    requires x in s
    ensures |r| == |s| - 1
    ensures multiset(r) == multiset(s) - multiset{x}
  {
    assert s == [s[0]] + s[1..];
    if s[0] == x then s[1..]
    else [s[0]] + RemoveFirst(s[1..], x)
  }

  /** The bank as the source keeps it: an insertion-ordered dictionary. */
  ghost predicate OrderedDict(keys: seq<Difficulty>, lists: map<Difficulty, seq<string>>) {
    Distinct(keys) && forall d :: d in lists <==> d in keys
  }

  /** What a well-kept bank satisfies: no difficulty with an empty list, and
      every phrase one that `check_phrase` accepts. */
  ghost predicate WellKept(keys: seq<Difficulty>, lists: map<Difficulty, seq<string>>) {
    && OrderedDict(keys, lists)
    && (forall d :: d in lists ==> lists[d] != [])
    && (forall d, i :: d in lists && 0 <= i < |lists[d]| ==> CheckPhrase(lists[d][i]).Some?)
  }

  /** `phrase_exists`. */
  predicate PhraseIn(lists: map<Difficulty, seq<string>>, p: string) {
    exists d :: d in lists && p in lists[d]
  }

  /** Appending an accepted phrase to the list of `d`, with `d` added as
      the last key when new, keeps the bank an ordered dictionary, and a
      well-kept one well kept. */
  lemma AddedKeepsBank(keys: seq<Difficulty>, lists: map<Difficulty, seq<string>>, d: Difficulty, p: string)
    requires OrderedDict(keys, lists) && CheckPhrase(p).Some?
    ensures var keys' := if d in lists then keys else keys + [d];
      var lists' := lists[d := (if d in lists then lists[d] else []) + [p]];
      && OrderedDict(keys', lists')
      && (WellKept(keys, lists) ==> WellKept(keys', lists'))
  {
    var keys' := if d in lists then keys else keys + [d];
    var lists' := lists[d := (if d in lists then lists[d] else []) + [p]];
    if d !in lists {
      assert Distinct(keys') by {
        forall a, b | 0 <= a < b < |keys'| ensures keys'[a] != keys'[b] {
          if b == |keys| { assert keys'[a] == keys[a] && keys[a] in keys; }
        }
      }
    }
    if WellKept(keys, lists) {
      forall e, i | e in lists' && 0 <= i < |lists'[e]| ensures CheckPhrase(lists'[e][i]).Some? {
        if e == d && i == |lists'[e]| - 1 {
          assert lists'[e][i] == p;
        } else if e == d {
          assert lists'[e][i] == lists[d][i];
        }
      }
    }
  }

  class PhrasesBank {
    var keys: seq<Difficulty>
    var lists: map<Difficulty, seq<string>>

    ghost predicate Valid() reads this { OrderedDict(keys, lists) }

    constructor (keys: seq<Difficulty>, lists: map<Difficulty, seq<string>>)
      requires OrderedDict(keys, lists)
      ensures Valid() && this.keys == keys && this.lists == lists
    {
      this.keys := keys;
      this.lists := lists;
    }

    /** `add_phrase`: rejects invalid phrases and phrases shorter than two
        characters; returns an existing phrase without adding it again;
        otherwise appends the normalised phrase to the list of its
        difficulty, creating that list (as the last key) when missing. */
    method AddPhrase(phrase: string) returns (r: Option<string>)
      requires Valid()
      modifies this
      ensures Valid()
      ensures CheckPhrase(phrase).None? ==> r == None
      ensures CheckPhrase(phrase).Some? ==> var p := CheckPhrase(phrase).value;
        if |p| < 2 then r == None
        else r == Some(p)
      ensures r.None? || PhraseIn(old(lists), r.value) ==> keys == old(keys) && lists == old(lists)
      ensures r.Some? && !PhraseIn(old(lists), r.value) ==>
        var p := r.value;
        var d := DifficultyOf(p);
        && lists == old(lists)[d := (if d in old(lists) then old(lists)[d] else []) + [p]]
        && keys == (if d in old(keys) then old(keys) else old(keys) + [d])
      ensures old(WellKept(keys, lists)) ==> WellKept(keys, lists)
    {
      var checked := CheckPhrase(phrase);
      if checked.None? { return None; }
      var p := checked.value;
      if |p| < 2 { return None; }
      if PhraseIn(lists, p) { return Some(p); }
      var d := DifficultyOf(p);
      CheckPhraseIdempotent(phrase);
      AddedKeepsBank(keys, lists, d, p);
      var list := if d in lists then lists[d] else [];
      if d !in lists {
        keys := keys + [d];
      }
      lists := lists[d := list + [p]];
      return Some(p);
    }

    /** `rmv_phrase`: removes one occurrence of the normalised phrase from
        the first list, in key order, that holds it, and drops that key when
        its list becomes empty; `None` (the source's `False`) when the
        phrase is invalid or absent, with nothing changed. */
    method RmvPhrase(phrase: string) returns (r: Option<string>)
      requires Valid()
      modifies this
      ensures Valid()
      ensures r.Some? ==> CheckPhrase(phrase) == r
      ensures r.None? <==> CheckPhrase(phrase).None? || !PhraseIn(old(lists), CheckPhrase(phrase).value)
      ensures r.None? ==> keys == old(keys) && lists == old(lists)
      ensures r.Some? ==> exists j :: 0 <= j < |old(keys)| && RemovedAt(old(keys), old(lists), r.value, j, keys, lists)
      ensures old(WellKept(keys, lists)) ==> WellKept(keys, lists)
    {
      var checked := CheckPhrase(phrase);
      if checked.None? { return None; }
      var p := checked.value;
      var i := 0;
      while i < |keys|
        invariant 0 <= i <= |keys|
        invariant forall j :: 0 <= j < i ==> p !in lists[keys[j]]
      {
        var d := keys[i];
        if p in lists[d] {
          var rest := RemoveFirst(lists[d], p);
          ghost var oldKeys, oldLists := keys, lists;
          if rest == [] {
            keys := keys[..i] + keys[i + 1..];
            lists := DropKey(lists, d);
          } else {
            lists := lists[d := rest];
          }
          RemovalKeepsBank(oldKeys, oldLists, p, i);
          assert RemovedAt(oldKeys, oldLists, p, i, keys, lists);
          return Some(p);
        }
        i := i + 1;
      }
      assert !PhraseIn(lists, p) by {
        forall d | d in lists ensures p !in lists[d] {
          var j :| 0 <= j < |keys| && keys[j] == d;
        }
      }
      return None;
    }
  }

  function DropKey(lists: map<Difficulty, seq<string>>, d: Difficulty): map<Difficulty, seq<string>> {
    map k | k in lists && k != d :: lists[k]
  }

  /** The bank after removing `p` from the list at key position `j`. */
  function Removal(keys: seq<Difficulty>, lists: map<Difficulty, seq<string>>, p: string, j: nat)
    : (seq<Difficulty>, map<Difficulty, seq<string>>)
    requires j < |keys| && keys[j] in lists && p in lists[keys[j]]
  {
    var d := keys[j];
    var rest := RemoveFirst(lists[d], p);
    if rest == [] then (keys[..j] + keys[j + 1..], DropKey(lists, d))
    else (keys, lists[d := rest])
  }

  /** Removing a phrase keeps the dictionary ordered and, when it was well
      kept, well kept. */
  lemma RemovalKeepsBank(keys: seq<Difficulty>, lists: map<Difficulty, seq<string>>, p: string, j: nat)
    requires OrderedDict(keys, lists) && j < |keys| && p in lists[keys[j]]
    ensures OrderedDict(Removal(keys, lists, p, j).0, Removal(keys, lists, p, j).1)
    ensures WellKept(keys, lists) ==> WellKept(Removal(keys, lists, p, j).0, Removal(keys, lists, p, j).1)
  {
    var d := keys[j];
    var rest := RemoveFirst(lists[d], p);
    if rest == [] {
      DropKeyKeepsBank(keys, lists, j);
    } else {
      ShrinkListKeepsBank(keys, lists, d, rest);
    }
  }

  /** Dropping the key at position `j` keeps the bank ordered and well
      kept. */
  lemma DropKeyKeepsBank(keys: seq<Difficulty>, lists: map<Difficulty, seq<string>>, j: nat)
    requires OrderedDict(keys, lists) && j < |keys|
    ensures OrderedDict(keys[..j] + keys[j + 1..], DropKey(lists, keys[j]))
    ensures WellKept(keys, lists) ==> WellKept(keys[..j] + keys[j + 1..], DropKey(lists, keys[j]))
  {
    DeleteDistinct(keys, j);
  }

  /** Replacing a list by a non-empty part of it keeps the bank ordered and
      well kept. */
  lemma ShrinkListKeepsBank(keys: seq<Difficulty>, lists: map<Difficulty, seq<string>>, d: Difficulty, rest: seq<string>)
    requires OrderedDict(keys, lists) && d in lists && rest != []
    requires multiset(rest) <= multiset(lists[d])
    ensures OrderedDict(keys, lists[d := rest])
    ensures WellKept(keys, lists) ==> WellKept(keys, lists[d := rest])
  {
    if WellKept(keys, lists) {
      forall i | 0 <= i < |rest| ensures CheckPhrase(rest[i]).Some? {
        assert rest[i] in multiset(rest);
        assert rest[i] in lists[d];
      }
    }
  }

  /** The new bank after removing `p` from the list at key position `j`:
      no earlier list holds `p`; that list loses the first occurrence of
      `p`, and its key goes away when the list empties; nothing else
      changes. */
  ghost predicate RemovedAt(keys: seq<Difficulty>, lists: map<Difficulty, seq<string>>, p: string, j: nat,
                            keys': seq<Difficulty>, lists': map<Difficulty, seq<string>>)
    requires OrderedDict(keys, lists) && j < |keys|
  {
    var d := keys[j];
    && (forall k :: 0 <= k < j ==> p !in lists[keys[k]])
    && p in lists[d]
    && (keys', lists') == Removal(keys, lists, p, j)
  }

  // ---------------------------------------------------------------------
  // The bank's command line: ask_command

  datatype BankCommand =
    | ShowPhrases | HidePhrases | AddPhraseCmd(arg: string) | RmvPhraseCmd(arg: string) | MenuCmd
    | ErrorCmd(message: string)

  /** Raised by the tuple unpacking of a blank line. */
  datatype UnpackError = NotEnoughValues

  /** `line.split(maxsplit=1)`: the first word and, when anything follows,
      the rest of the line with its leading whitespace removed (trailing
      whitespace is kept). */
  function SplitOnce(line: string): (r: seq<string>)
    ensures |r| <= 2
  {
    var t := StripLeft(line);
    if t == [] then []
    else
      var n := WordLen(t);
      var rest := StripLeft(t[n..]);
      if rest == [] then [t[..n]] else [t[..n], rest]
  }

  /** `ask_command`'s pattern match on the lower-cased command word and its
      optional argument. */
  function Dispatch(command: string, arg: Option<string>): BankCommand {
    match arg
    case Some(a) =>
      if command == "show" || command == "hide" || command == "menu" then
        ErrorCmd("\"" + command + "\" command doesn't accept arguments")
      else if command == "add" then AddPhraseCmd(a)
      else if command == "rmv" then RmvPhraseCmd(a)
      else ErrorCmd("Unknow command")
    case None =>
      if command == "show" then ShowPhrases
      else if command == "hide" then HidePhrases
      else if command == "menu" then MenuCmd
      else if command == "add" || command == "rmv" then
        ErrorCmd("\"" + command + "\" command must be followed by a word or phrase")
      else ErrorCmd("Unknow command")
  }

  /** `ask_command` on one input line. */
  function AskCommand(line: string): Result<BankCommand, UnpackError> {
    var parts := SplitOnce(line);
    if parts == [] then Err(NotEnoughValues)
    else Ok(Dispatch(Lower(parts[0]), if |parts| == 2 then Some(parts[1]) else None))
  }

  /** A blank line makes the unpacking fail; anything else yields a command. */
  lemma AskCommandBlank(line: string)
    ensures AskCommand(line).Err? <==> forall i :: 0 <= i < |line| ==> IsSpace(line[i])
  {
    var t := StripLeft(line);
    if t == [] {
      assert forall i :: 0 <= i < |line| ==> IsSpace(line[i]) by {
        StripLeftAllSpace(line);
      }
    } else {
      assert t[0] == line[|line| - |t|];
    }
  }

  lemma {:induction false} StripLeftAllSpace(s: string)
    requires StripLeft(s) == []
    ensures forall i :: 0 <= i < |s| ==> IsSpace(s[i])
  {
    if s != [] {
      StripLeftAllSpace(s[1..]);
      assert forall i :: 1 <= i < |s| ==> s[i] == s[1..][i - 1];
    }
  }

  /** The split of `word + " " + arg` when `word` is a word and `arg` does
      not start with whitespace. */
  lemma SplitOnceOf(word: string, arg: string)
    requires IsWord(word)
    requires arg != [] && !IsSpace(arg[0])
    ensures SplitOnce(word + " " + arg) == [word, arg]
  {
    var line := word + " " + arg;
    assert StripLeft(line) == line;
    WordLenOfWord(word, " " + arg);
    assert line == word + (" " + arg);
    assert line[|word|..] == " " + arg;
    assert line[..|word|] == word;
    assert StripLeft(" " + arg) == StripLeft(arg) by { assert (" " + arg)[1..] == arg; }
  }

  /** `add <phrase>` and `rmv <phrase>` carry the rest of the line, in any
      letter case of the command word. */
  lemma AskCommandAddRmv(word: string, arg: string)
    requires IsWord(word)
    requires arg != [] && !IsSpace(arg[0])
    ensures Lower(word) == "add" ==> AskCommand(word + " " + arg) == Ok(AddPhraseCmd(arg))
    ensures Lower(word) == "rmv" ==> AskCommand(word + " " + arg) == Ok(RmvPhraseCmd(arg))
    ensures Lower(word) in {"show", "hide", "menu"} ==> AskCommand(word + " " + arg).value.ErrorCmd?
  {
    AskCommandWithArg(word, arg);
    DispatchWithArg(Lower(word), arg);
  }

  /** The dispatch of a command word that came with an argument. */
  lemma DispatchWithArg(cmd: string, arg: string)
    ensures cmd == "add" ==> Dispatch(cmd, Some(arg)) == AddPhraseCmd(arg)
    ensures cmd == "rmv" ==> Dispatch(cmd, Some(arg)) == RmvPhraseCmd(arg)
    ensures cmd in {"show", "hide", "menu"} ==> Dispatch(cmd, Some(arg)).ErrorCmd?
  {
  }

  /** A command word followed by an argument reaches the dispatch with
      both. */
  lemma AskCommandWithArg(word: string, arg: string)
    requires IsWord(word)
    requires arg != [] && !IsSpace(arg[0])
    ensures AskCommand(word + " " + arg) == Ok(Dispatch(Lower(word), Some(arg)))
  {
    SplitOnceOf(word, arg);
  }

  /** A lone command word: `show`/`hide`/`menu` give their command,
      `add`/`rmv` an error asking for an argument, any other word
      "Unknow command". */
  lemma AskCommandAlone(word: string)
    requires IsWord(word)
    ensures SplitOnce(word) == [word]
    ensures Lower(word) == "show" ==> AskCommand(word) == Ok(ShowPhrases)
    ensures Lower(word) == "hide" ==> AskCommand(word) == Ok(HidePhrases)
    ensures Lower(word) == "menu" ==> AskCommand(word) == Ok(MenuCmd)
    ensures Lower(word) in {"add", "rmv"} ==> AskCommand(word).value.ErrorCmd?
    ensures Lower(word) !in {"show", "hide", "menu", "add", "rmv"} ==> AskCommand(word) == Ok(ErrorCmd("Unknow command"))
  {
    WordLenOfWord(word, []);
    assert word + [] == word;
    assert word[|word|..] == [];
    assert word[..|word|] == word;
  }

  // ---------------------------------------------------------------------
  // The board: show_phrase_board

  /** Characters the board always shows. */
  predicate AlwaysShown(c: char) {
    c == ' ' || c == '!' || c == '?' || c == ',' || c == '\'' || c == '.' || c == '-'
  }

  /** The phrase with every character that is neither guessed nor always
      shown replaced by `_`. */
  function Board(phrase: string, guessed: set<char>): (b: string)
    ensures |b| == |phrase|
  {
    seq(|phrase|, i requires 0 <= i < |phrase| =>
      if phrase[i] in guessed || AlwaysShown(phrase[i]) then phrase[i] else '_')
  }

  /** Once every letter is guessed the board shows the whole phrase, as long
      as the phrase holds only letters, spaces and the punctuation the board
      always shows. */
  lemma BoardComplete(phrase: string, guessed: set<char>)
    requires Letters(phrase) <= guessed
    requires forall i :: 0 <= i < |phrase| ==> IsAsciiLower(phrase[i]) || AlwaysShown(phrase[i])
    ensures Board(phrase, guessed) == phrase
  {
    forall i | 0 <= i < |phrase| ensures Board(phrase, guessed)[i] == phrase[i] {
      if IsAsciiLower(phrase[i]) { assert phrase[i] in Letters(phrase); }
    }
  }

  /** A letter not yet guessed is hidden wherever it occurs, and the board
      never shows a letter that was not guessed. */
  lemma BoardHides(phrase: string, guessed: set<char>, i: nat)
    requires i < |phrase|
    ensures IsAsciiLower(phrase[i]) && phrase[i] !in guessed ==> Board(phrase, guessed)[i] == '_'
    ensures IsAsciiLower(Board(phrase, guessed)[i]) ==> Board(phrase, guessed)[i] in guessed
  {
  }

  // ---------------------------------------------------------------------
  // Guessing: the loop of play

  const StartLives := 6

  datatype Game = Game(lives: int, guessed: set<char>)

  datatype Outcome = Won | Lost | Unfinished

  /** The end test at the top of the loop: no lives left is checked first,
      then every letter of the phrase guessed. */
  function Status(phrase: string, g: Game): Outcome {
    if g.lives == 0 then Lost
    else if Letters(phrase) <= g.guessed then Won
    else Unfinished
  }

  /** One guess: an invalid input changes nothing; the whole phrase reveals
      all its letters; a single letter is recorded and costs a life when
      absent (even if tried before); another single character changes
      nothing; any other wrong input costs a life. */
  function Guess(phrase: string, g: Game, input: string): Game {
    var guess := CheckPhrase(input);
    if guess.None? then g
    else if guess.value == phrase then g.(guessed := g.guessed + Letters(phrase))
    else if |guess.value| == 1 then
      var c := guess.value[0];
      if IsAsciiLower(c) then
        Game(if c in Letters(phrase) then g.lives else g.lives - 1, g.guessed + {c})
      else g
    else g.(lives := g.lives - 1)
  }

  /** Whether the input costs a life. */
  predicate Costly(phrase: string, input: string) {
    var guess := CheckPhrase(input);
    guess.Some? && guess.value != phrase &&
      (|guess.value| != 1 || (IsAsciiLower(guess.value[0]) && guess.value[0] !in Letters(phrase)))
  }

  /** A guess costs at most one life, exactly when it is costly; guessed
      letters only grow and stay lower-case letters. */
  lemma GuessEffect(phrase: string, g: Game, input: string)
    ensures Guess(phrase, g, input).lives == if Costly(phrase, input) then g.lives - 1 else g.lives
    ensures g.guessed <= Guess(phrase, g, input).guessed
    ensures forall c :: c in Guess(phrase, g, input).guessed && c !in g.guessed ==> IsAsciiLower(c)
  {
  }

  /** A correct letter costs nothing; guessing the phrase itself wins. */
  lemma GuessCorrect(phrase: string, g: Game, input: string)
    requires CheckPhrase(input).Some?
    ensures var p := CheckPhrase(input).value;
      (p == phrase ==> Letters(phrase) <= Guess(phrase, g, input).guessed && Guess(phrase, g, input).lives == g.lives)
      && (|p| == 1 && p[0] in Letters(phrase) ==> Guess(phrase, g, input).lives == g.lives)
  {
  }

  /** The number of costly inputs in `inputs`. */
  function CountCostly(phrase: string, inputs: seq<string>): nat {
    if inputs == [] then 0
    else CountCostly(phrase, inputs[..|inputs| - 1]) + (if Costly(phrase, inputs[|inputs| - 1]) then 1 else 0)
  }

  /** The game after the given inputs, each applied with `Guess`, starting
      from six lives and no guessed letter. */
  function Run(phrase: string, inputs: seq<string>): Game {
    if inputs == [] then Game(StartLives, {})
    else Guess(phrase, Run(phrase, inputs[..|inputs| - 1]), inputs[|inputs| - 1])
  }

  /** One more input is one more `Guess`. */
  lemma RunStep(phrase: string, inputs: seq<string>, n: nat)
    requires n < |inputs|
    ensures Run(phrase, inputs[..n + 1]) == Guess(phrase, Run(phrase, inputs[..n]), inputs[n])
    ensures UnfinishedBefore(phrase, inputs[..n + 1]) <==>
      UnfinishedBefore(phrase, inputs[..n]) && Status(phrase, Run(phrase, inputs[..n])) == Unfinished
  {
    assert inputs[..n + 1][..n] == inputs[..n];
  }

  /** Lives after a run are six minus the costly inputs, and every guessed
      letter is a lower-case letter. */
  lemma {:induction false} RunLives(phrase: string, inputs: seq<string>)
    ensures Run(phrase, inputs).lives == StartLives - CountCostly(phrase, inputs)
    ensures forall c :: c in Run(phrase, inputs).guessed ==> IsAsciiLower(c)
  {
    if inputs != [] {
      var init := inputs[..|inputs| - 1];
      RunLives(phrase, init);
      GuessEffect(phrase, Run(phrase, init), inputs[|inputs| - 1]);
    }
  }

  /** The game was unfinished before each of the inputs was read. */
  predicate UnfinishedBefore(phrase: string, inputs: seq<string>) {
    inputs == [] ||
      (UnfinishedBefore(phrase, inputs[..|inputs| - 1]) && Status(phrase, Run(phrase, inputs[..|inputs| - 1])) == Unfinished)
  }

  /** `UnfinishedBefore` says that every prefix shorter than the inputs
      leaves the game unfinished. */
  lemma {:induction false} UnfinishedBeforeMeaning(phrase: string, inputs: seq<string>)
    ensures UnfinishedBefore(phrase, inputs) <==>
      forall k :: 0 <= k < |inputs| ==> Status(phrase, Run(phrase, inputs[..k])) == Unfinished
  {
    if inputs != [] {
      var init := inputs[..|inputs| - 1];
      UnfinishedBeforeMeaning(phrase, init);
      if UnfinishedBefore(phrase, inputs) {
        forall k | 0 <= k < |inputs| ensures Status(phrase, Run(phrase, inputs[..k])) == Unfinished {
          if k < |init| { assert init[..k] == inputs[..k]; } else { assert inputs[..k] == init; }
        }
      }
      if forall k :: 0 <= k < |inputs| ==> Status(phrase, Run(phrase, inputs[..k])) == Unfinished {
        forall k | 0 <= k < |init| ensures Status(phrase, Run(phrase, init[..k])) == Unfinished {
          assert init[..k] == inputs[..k];
        }
        assert inputs[..|init|] == init;
      }
    }
  }

  /** A game that was unfinished before each of its inputs still has no
      negative lives. */
  lemma {:induction false} RunAlive(phrase: string, inputs: seq<string>)
    requires UnfinishedBefore(phrase, inputs)
    ensures Run(phrase, inputs).lives >= 0
  {
    if inputs != [] {
      var init := inputs[..|inputs| - 1];
      RunAlive(phrase, init);
      GuessEffect(phrase, Run(phrase, init), inputs[|inputs| - 1]);
    }
  }

  /** The game loop over the player's successive inputs (the terminal prompt
      becomes the `inputs` parameter). The game is the run of the first
      `used` inputs, and it stops at the first end of game: before each
      consumed input the game was unfinished (`UnfinishedBeforeMeaning`),
      and it is left unfinished only when the inputs run out. Lives end at six minus the costly
      inputs, a loss means no life is left and a win that every letter is
      guessed. */
  method Play(phrase: string, inputs: seq<string>) returns (outcome: Outcome, g: Game, used: nat)
    ensures used <= |inputs|
    ensures g == Run(phrase, inputs[..used])
    ensures outcome == Status(phrase, g)
    ensures UnfinishedBefore(phrase, inputs[..used])
    ensures g.lives == StartLives - CountCostly(phrase, inputs[..used]) && g.lives >= 0
    ensures outcome == Unfinished ==> used == |inputs|
    ensures outcome == Lost ==> g.lives == 0
    ensures outcome == Won ==> Letters(phrase) <= g.guessed && g.lives > 0
    ensures forall c :: c in g.guessed ==> IsAsciiLower(c)
  {
    g := Game(StartLives, {});
    used := 0;
    while Status(phrase, g) == Unfinished && used < |inputs|
      invariant used <= |inputs|
      invariant g == Run(phrase, inputs[..used])
      invariant UnfinishedBefore(phrase, inputs[..used])
    {
      RunStep(phrase, inputs, used);
      g := Guess(phrase, g, inputs[used]);
      used := used + 1;
    }
    RunLives(phrase, inputs[..used]);
    RunAlive(phrase, inputs[..used]);
    outcome := Status(phrase, g);
  }
}
