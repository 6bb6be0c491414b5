/** The second Hangman draft: `check_phrase` over any decoded value and the
    validation of the decoded `bank.json` file. Everything else of that
    draft (play, board, bank commands) is the same code as the first draft
    and is modelled in module Hangman. */
module HangmanLoader {
  import opened Wrappers
  import opened Text
  import opened SeqUtil
  import opened Hangman

  /** A decoded JSON value. The decoder is told to reject every number, so
      numbers never reach the loader; an object keeps its keys in file
      order, each once. */
  datatype Json =
    | JNull
    | JBool(b: bool)
    | JString(s: string)
    | JArray(items: seq<Json>)
    | JObject(keys: seq<string>, fields: map<string, Json>)

  /** An object's key list and field map agree, keys appear once. */
  ghost predicate ObjectShape(keys: seq<string>, fields: map<string, Json>) {
    Distinct(keys) && forall k :: k in fields <==> k in keys
  }

  /** `check_phrase` on any value: a value that is not a string has no
      `isascii` and is rejected. */
  function CheckPhraseValue(v: Json): (r: Option<string>)
    ensures r.Some? ==> v.JString? && r == CheckPhrase(v.s)
    ensures v.JString? ==> r == CheckPhrase(v.s)
  {
    match v
    case JString(s) => CheckPhrase(s)
    case _ => None
  }

  /** The difficulty a key of the file names, if any. */
  function DifficultyNamed(key: string): (r: Option<Difficulty>)
    ensures r.Some? <==> key in {"easy", "normal", "hard"}
  {
    if key == "easy" then Some(Easy)
    else if key == "normal" then Some(Normal)
    else if key == "hard" then Some(Hard)
    else None
  }

  /** The failed assertions of `load_phrases_bank`. */
  datatype LoadError =
    | NotAnObject
    | UnknownDifficulty
    | NotAList(difficulty: string)
    | InvalidPhrase(difficulty: string, phrase: Json)

  /** The first list item `check_phrase` rejects. */
  function FirstInvalid(items: seq<Json>): (r: Option<Json>)
    ensures r.None? <==> forall i :: 0 <= i < |items| ==> CheckPhraseValue(items[i]).Some?
    ensures r.Some? ==> r.value in items && CheckPhraseValue(r.value).None?
  {
    if items == [] then None
    else if CheckPhraseValue(items[0]).None? then Some(items[0])
    else FirstInvalid(items[1..])
  }

  /** The strings of a list whose items all pass `check_phrase`, unchanged
      (the loader does not normalise them). */
  function Strings(items: seq<Json>): (r: seq<string>)
    requires forall i :: 0 <= i < |items| ==> CheckPhraseValue(items[i]).Some?
    ensures |r| == |items|
    ensures forall i :: 0 <= i < |items| ==> items[i] == JString(r[i])
  {
    if items == [] then []
    else
      assert CheckPhraseValue(items[0]).Some?;
      [items[0].s] + Strings(items[1..])
  }

  type Bank = (seq<Difficulty>, map<Difficulty, seq<string>>)

  /** The loop over the object's entries, in order, and the final
      comprehension that skips empty lists. */
  function LoadEntries(keys: seq<string>, fields: map<string, Json>): Result<Bank, LoadError>
    requires forall i :: 0 <= i < |keys| ==> keys[i] in fields && DifficultyNamed(keys[i]).Some?
  {
    if keys == [] then Ok(([], map[]))
    else
      var k := keys[0];
      var v := fields[k];
      if !v.JArray? then Err(NotAList(k))
      else match FirstInvalid(v.items)
        case Some(bad) => Err(InvalidPhrase(k, bad))
        case None =>
          var rest := LoadEntries(keys[1..], fields);
          if rest.Err? || v.items == [] then rest
          else
            var d := DifficultyNamed(k).value;
            Ok(([d] + rest.value.0, rest.value.1[d := Strings(v.items)]))
  }

  /** `load_phrases_bank` on the decoded file contents. */
  function LoadPhrasesBank(v: Json): Result<Bank, LoadError>
    requires v.JObject? ==> ObjectShape(v.keys, v.fields)
  {
    if !v.JObject? then Err(NotAnObject)
    else if exists k :: k in v.fields && DifficultyNamed(k).None? then Err(UnknownDifficulty)
    else LoadEntries(v.keys, v.fields)
  }

  /** The entry loop's key order and dictionary agree, each key once. */
  lemma {:induction false} LoadEntriesKeys(keys: seq<string>, fields: map<string, Json>)
    requires forall i :: 0 <= i < |keys| ==> keys[i] in fields && DifficultyNamed(keys[i]).Some?
    requires Distinct(keys)
    requires LoadEntries(keys, fields).Ok?
    ensures OrderedDict(LoadEntries(keys, fields).value.0, LoadEntries(keys, fields).value.1)
  {
    if keys != [] {
      var v := fields[keys[0]];
      LoadEntriesKeys(keys[1..], fields);
      var rest := LoadEntries(keys[1..], fields).value;
      var d := DifficultyNamed(keys[0]).value;
      if v.items != [] {
        assert d !in rest.1 by {
          if d in rest.1 {
            KeysFromEntries(keys[1..], fields, d);
          }
        }
        OrderedDictCons(d, rest.0, rest.1, Strings(v.items));
      }
    }
  }

  /** A new key in front, with its list, keeps an ordered dictionary. */
  lemma OrderedDictCons(d: Difficulty, ks: seq<Difficulty>, ls: map<Difficulty, seq<string>>, l: seq<string>)
    requires OrderedDict(ks, ls) && d !in ls
    ensures OrderedDict([d] + ks, ls[d := l])
  {
    var ks' := [d] + ks;
    forall a, b | 0 <= a < b < |ks'| ensures ks'[a] != ks'[b] {
      if a == 0 { assert ks'[b] == ks[b - 1] && ks'[b] in ks; }
      else { assert ks'[a] == ks[a - 1] && ks'[b] == ks[b - 1]; }
    }
  }

  /** The key at position `i` of the input is kept exactly when its list is
      non-empty, and then it holds exactly that list's strings. */
  lemma {:induction false} LoadEntriesList(keys: seq<string>, fields: map<string, Json>, i: nat)
    requires forall i :: 0 <= i < |keys| ==> keys[i] in fields && DifficultyNamed(keys[i]).Some?
    requires Distinct(keys)
    requires LoadEntries(keys, fields).Ok?
    requires i < |keys|
    ensures ListOfPhrases(fields[keys[i]])
    ensures var ls := LoadEntries(keys, fields).value.1;
      var d := DifficultyNamed(keys[i]).value;
      (d in ls <==> fields[keys[i]].items != []) &&
      (d in ls ==> ls[d] == Strings(fields[keys[i]].items))
  {
    var v := fields[keys[0]];
    var d0 := DifficultyNamed(keys[0]).value;
    var rest := LoadEntries(keys[1..], fields).value;
    if i == 0 {
      assert d0 !in rest.1 by {
        if d0 in rest.1 {
          KeysFromEntries(keys[1..], fields, d0);
        }
      }
    } else {
      assert keys[i] == keys[1..][i - 1];
      LoadEntriesList(keys[1..], fields, i - 1);
      assert DifficultyNamed(keys[i]).value != d0 by { assert keys[i] != keys[0]; }
    }
  }

  /** A kept key is named by one of the input keys. */
  lemma {:induction false} KeysFromEntries(keys: seq<string>, fields: map<string, Json>, d: Difficulty)
    requires forall i :: 0 <= i < |keys| ==> keys[i] in fields && DifficultyNamed(keys[i]).Some?
    requires LoadEntries(keys, fields).Ok?
    requires d in LoadEntries(keys, fields).value.1
    ensures exists i :: 0 <= i < |keys| && DifficultyNamed(keys[i]) == Some(d)
  {
    var k := keys[0];
    var v := fields[k];
    var rest := LoadEntries(keys[1..], fields);
    if v.items != [] && DifficultyNamed(k) == Some(d) {
      assert DifficultyNamed(keys[0]) == Some(d);
    } else {
      assert d in rest.value.1;
      KeysFromEntries(keys[1..], fields, d);
      var i :| 0 <= i < |keys[1..]| && DifficultyNamed(keys[1..][i]) == Some(d);
      assert DifficultyNamed(keys[i + 1]) == Some(d);
    }
  }

  /** A bank `load_phrases_bank` accepts is well kept: an ordered dictionary
      with no empty list whose every phrase passes `check_phrase`. */
  lemma LoadedBankWellKept(v: Json)
    requires v.JObject? ==> ObjectShape(v.keys, v.fields)
    requires LoadPhrasesBank(v).Ok?
    ensures WellKept(LoadPhrasesBank(v).value.0, LoadPhrasesBank(v).value.1)
  {
    var (ks, ls) := LoadPhrasesBank(v).value;
    LoadEntriesKeys(v.keys, v.fields);
    forall d | d in ls
      ensures ls[d] != [] && forall i :: 0 <= i < |ls[d]| ==> CheckPhrase(ls[d][i]).Some?
    {
      KeysFromEntries(v.keys, v.fields, d);
      var j :| 0 <= j < |v.keys| && DifficultyNamed(v.keys[j]) == Some(d);
      LoadEntriesList(v.keys, v.fields, j);
      var items := v.fields[v.keys[j]].items;
      forall i | 0 <= i < |ls[d]| ensures CheckPhrase(ls[d][i]).Some? {
        assert CheckPhraseValue(items[i]).Some?;
      }
    }
  }

  /** A list whose every item passes `check_phrase`. */
  predicate ListOfPhrases(v: Json) {
    v.JArray? && forall j :: 0 <= j < |v.items| ==> CheckPhraseValue(v.items[j]).Some?
  }

  /** The file loads exactly when it is an object whose keys are among
      easy/normal/hard and whose values are lists of acceptable phrases. */
  lemma {:induction false} LoadEntriesOk(keys: seq<string>, fields: map<string, Json>)
    requires forall i :: 0 <= i < |keys| ==> keys[i] in fields && DifficultyNamed(keys[i]).Some?
    ensures LoadEntries(keys, fields).Ok? <==>
      forall i :: 0 <= i < |keys| ==> ListOfPhrases(fields[keys[i]])
  {
    if keys != [] {
      LoadEntriesOk(keys[1..], fields);
      assert forall i :: 1 <= i < |keys| ==> keys[i] == keys[1..][i - 1];
    }
  }

  lemma LoadPhrasesBankOk(v: Json)
    requires v.JObject? ==> ObjectShape(v.keys, v.fields)
    ensures LoadPhrasesBank(v).Ok? <==>
      && v.JObject?
      && (forall k :: k in v.fields ==> k in {"easy", "normal", "hard"})
      && (forall k :: k in v.fields ==> ListOfPhrases(v.fields[k]))
  {
    if v.JObject? && forall k :: k in v.fields ==> DifficultyNamed(k).Some? {
      LoadEntriesOk(v.keys, v.fields);
      assert forall k :: k in v.fields ==> exists i :: 0 <= i < |v.keys| && v.keys[i] == k;
    }
  }
}
