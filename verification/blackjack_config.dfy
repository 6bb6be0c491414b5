/** The blackjack configuration file: its default contents and the checks
    `load_configs` makes on the decoded file before the game uses it. */
module BlackjackConfig {
  import opened Wrappers
  import opened SeqUtil
  import opened BlackjackCards
  import opened BlackjackHand
  import opened BlackjackRound

  /** A decoded JSON value as far as the checks can tell them apart. A
      JSON `true`/`false` is a `bool`, which Python also counts as an
      `int` (of value 1 or 0); every other kind of value is `COther`. */
  datatype CfgValue = CInt(i: int) | CBool(b: bool) | COther

  type Config = map<string, CfgValue>

  /** The decoded file: an object with its keys in file order, or
      something else. */
  datatype CfgFile = CfgObject(keys: seq<string>, fields: Config) | CfgNotObject

  /** An object's key list and field map agree, keys appear once. */
  ghost predicate FileShape(f: CfgFile) {
    f.CfgObject? ==> Distinct(f.keys) && forall k :: k in f.fields <==> k in f.keys
  }

  /** The names of the keyword parameters of `play`. */
  const PlayParameters: set<string> := {
    "start_money", "num_decks", "max_num_hands", "hit_soft_17", "double_after_splits",
    "restrict_double", "enable_split_in_aces", "enable_surrender", "enable_hole_card"}

  /** `get_default_configs` as written: the split-aces switch is stored
      under "split_in_aces". */
  function DefaultConfigs(): Config {
    map[
      "start_money" := CInt(500),
      "num_decks" := CInt(1),
      "max_num_hands" := CInt(1),
      "hit_soft_17" := CBool(true),
      "double_after_splits" := CBool(false),
      "split_in_aces" := CBool(false),
      "restrict_double" := CBool(true),
      "enable_surrender" := CBool(false),
      "enable_hole_card" := CBool(true)]
  }

  /** `get_default_configs` with the key `play` expects. */
  function IntendedDefaultConfigs(): Config {
    DefaultConfigs() - {"split_in_aces"} + map["enable_split_in_aces" := CBool(false)]
  }

  /** The upper bounds of the integer parameters; each must also be
      positive. */
  const MaxValues: map<string, int> := map["start_money" := 1000, "num_decks" := 6, "max_num_hands" := 6]

  /** `isinstance(value, type(default))`: a bool passes for an `int`
      parameter, an int does not pass for a `bool` one. */
  predicate SameType(value: CfgValue, default: CfgValue) {
    match default
    case CInt(_) => value.CInt? || value.CBool?
    case CBool(_) => value.CBool?
    case COther => false
  }

  /** The number Python compares: a bool counts as 0 or 1. */
  function IntValue(v: CfgValue): int
    requires v.CInt? || v.CBool?
  {
    if v.CBool? then (if v.b then 1 else 0) else v.i
  }

  /** The failed assertions of `load_configs`. */
  datatype ConfigError =
    | NotAnObject
    | KeysMismatch(missing: set<string>, extra: set<string>)
    | WrongType(param: string)
    | OutOfRange(param: string, max: int)

  /** The check of one parameter: its type, then its range if it has one. */
  predicate ValueOk(defaults: Config, param: string, value: CfgValue)
    requires param in defaults
  {
    && SameType(value, defaults[param])
    && (param in MaxValues ==> 0 < IntValue(value) <= MaxValues[param])
  }

  /** The loop over the entries in file order: the first failing entry is
      reported. */
  function CheckValues(defaults: Config, keys: seq<string>, fields: Config): (r: Option<ConfigError>)
    requires forall i :: 0 <= i < |keys| ==> keys[i] in fields && keys[i] in defaults
    ensures r.None? <==> forall i :: 0 <= i < |keys| ==> ValueOk(defaults, keys[i], fields[keys[i]])
  {
    if keys == [] then None
    else
      var param, value := keys[0], fields[keys[0]];
      if !SameType(value, defaults[param]) then Some(WrongType(param))
      else if param in MaxValues && !(0 < IntValue(value) <= MaxValues[param]) then
        Some(OutOfRange(param, MaxValues[param]))
      else
        var rest := CheckValues(defaults, keys[1..], fields);
        assert forall i :: 1 <= i < |keys| ==> keys[i] == keys[1..][i - 1];
        rest
  }

  /** `load_configs` against a table of defaults: a missing file gives the
      defaults (which `reset_configs` also writes back); otherwise the file
      must be an object with exactly the default keys, each value of its
      default's type and, for the integer parameters, in range. */
  function LoadConfigsWith(defaults: Config, file: Option<CfgFile>): Result<Config, ConfigError>
    requires file.Some? ==> FileShape(file.value)
  {
    match file
    case None => Ok(defaults)
    case Some(CfgNotObject) => Err(NotAnObject)
    case Some(CfgObject(keys, fields)) =>
      var missing := defaults.Keys - fields.Keys;
      var extra := fields.Keys - defaults.Keys;
      if missing != {} || extra != {} then Err(KeysMismatch(missing, extra))
      else
        assert forall i :: 0 <= i < |keys| ==> keys[i] in fields && keys[i] in defaults by {
          forall i | 0 <= i < |keys| ensures keys[i] in fields && keys[i] in defaults {
            assert keys[i] in keys && keys[i] !in extra;
          }
        }
        match CheckValues(defaults, keys, fields)
        case Some(e) => Err(e)
        case None => Ok(fields)
  }

  /** `load_configs` with the defaults `play` can accept. */
  function LoadConfigs(file: Option<CfgFile>): Result<Config, ConfigError>
    requires file.Some? ==> FileShape(file.value)
  {
    LoadConfigsWith(IntendedDefaultConfigs(), file)
  }

  /** A configuration the checks accept against the given defaults. */
  predicate Accepted(defaults: Config, cfg: Config) {
    && cfg.Keys == defaults.Keys
    && forall k :: k in cfg ==> ValueOk(defaults, k, cfg[k])
  }

  /** The defaults pass their own checks. */
  lemma DefaultsAccepted()
    ensures Accepted(DefaultConfigs(), DefaultConfigs())
    ensures Accepted(IntendedDefaultConfigs(), IntendedDefaultConfigs())
  {
  }

  /** The file loads exactly when it is missing or is an object the checks
      accept, and what loads is always accepted; a file with a wrong key set
      reports exactly the missing and the unknown keys. */
  lemma LoadConfigsWithOk(defaults: Config, file: Option<CfgFile>)
    requires file.Some? ==> FileShape(file.value)
    requires Accepted(defaults, defaults)
    ensures LoadConfigsWith(defaults, file).Ok? <==>
      file.None? || (file.value.CfgObject? && Accepted(defaults, file.value.fields))
    ensures LoadConfigsWith(defaults, file).Ok? ==> Accepted(defaults, LoadConfigsWith(defaults, file).value)
    ensures file.Some? && file.value.CfgObject? && file.value.fields.Keys != defaults.Keys ==>
      LoadConfigsWith(defaults, file) == Err(KeysMismatch(defaults.Keys - file.value.fields.Keys, file.value.fields.Keys - defaults.Keys))
  {
    if file.Some? && file.value.CfgObject? {
      var keys, fields := file.value.keys, file.value.fields;
      if fields.Keys == defaults.Keys {
        assert forall k :: k in fields ==> exists i :: 0 <= i < |keys| && keys[i] == k;
      }
    }
  }

  /** The defaults as written never fit `play`: every configuration
      `load_configs` accepts against them carries "split_in_aces", which
      is no parameter of `play`, and lacks "enable_split_in_aces", so
      `play(**configs)` fails with a TypeError. */
  lemma DefaultKeysMismatchPlay(file: Option<CfgFile>)
    requires file.Some? ==> FileShape(file.value)
    ensures DefaultConfigs().Keys != PlayParameters
    ensures LoadConfigsWith(DefaultConfigs(), file).Ok? ==>
      var cfg := LoadConfigsWith(DefaultConfigs(), file).value;
      "split_in_aces" in cfg && "split_in_aces" !in PlayParameters && "enable_split_in_aces" !in cfg
  {
    assert "split_in_aces" in DefaultConfigs();
    DefaultsAccepted();
    LoadConfigsWithOk(DefaultConfigs(), file);
  }

  /** With the intended defaults, every loaded configuration names exactly
      the parameters of `play`. */
  lemma IntendedKeysMatchPlay(file: Option<CfgFile>)
    requires file.Some? ==> FileShape(file.value)
    ensures IntendedDefaultConfigs().Keys == PlayParameters
    ensures LoadConfigs(file).Ok? ==> LoadConfigs(file).value.Keys == PlayParameters
  {
    DefaultsAccepted();
    LoadConfigsWithOk(IntendedDefaultConfigs(), file);
  }

  /** A switch set to `true` in the configuration. */
  predicate SwitchOn(cfg: Config, name: string) {
    name in cfg && cfg[name] == CBool(true)
  }

  /** The rule switches `play` receives as keyword arguments from a loaded
      configuration: each is on exactly when the file sets it to `true`. */
  function RulesOf(cfg: Config): (r: Rules)
    requires Accepted(IntendedDefaultConfigs(), cfg)
    ensures r.doubleAfterSplits == SwitchOn(cfg, "double_after_splits")
    ensures r.restrictDouble == SwitchOn(cfg, "restrict_double")
    ensures r.enableSplitInAces == SwitchOn(cfg, "enable_split_in_aces")
    ensures r.enableSurrender == SwitchOn(cfg, "enable_surrender")
  {
    Rules(
      cfg["double_after_splits"].b,
      cfg["restrict_double"].b,
      cfg["enable_split_in_aces"].b,
      cfg["enable_surrender"].b)
  }

  /** The loaded switches decide the refusals of `play` for surrender and
      split: surrender is refused exactly when it is off, and a pair of aces
      that passes every other check is refused exactly when split aces are
      off. */
  lemma LoadedRulesDecide(cfg: Config, numSplit: int, numHands: nat, hand: HandView, temp: int)
    requires Accepted(IntendedDefaultConfigs(), cfg)
    ensures Judge(RulesOf(cfg), numSplit, numHands, hand, temp, Surrender).Ok? <==> SwitchOn(cfg, "enable_surrender")
    ensures numSplit != 0 && |hand.cards| == 2 && hand.cards[0].rank == Ace && hand.cards[1].rank == Ace && hand.bet <= temp ==>
      (Judge(RulesOf(cfg), numSplit, numHands, hand, temp, SplitHand).Ok? <==> SwitchOn(cfg, "enable_split_in_aces"))
  {
    JudgeSplit(RulesOf(cfg), numSplit, numHands, hand, temp);
  }

  /** ... and for doubling: once the player holds several hands a double is
      refused for that reason exactly when doubling after splits is off,
      and a lone hand whose lower total is not 9, 10 or 11 is refused a
      double for that reason exactly when doubles are restricted. */
  lemma LoadedRulesDecideDouble(cfg: Config, numSplit: int, numHands: nat, hand: HandView, temp: int)
    requires Accepted(IntendedDefaultConfigs(), cfg)
    ensures numHands > 1 ==>
      (Judge(RulesOf(cfg), numSplit, numHands, hand, temp, DoubleDown) == Err(DoubleAfterSplitNotAllowed) <==> !SwitchOn(cfg, "double_after_splits"))
    ensures numHands <= 1 && MinTotal(hand.cards) !in {9, 10, 11} ==>
      (Judge(RulesOf(cfg), numSplit, numHands, hand, temp, DoubleDown) == Err(DoubleOnlyOnNineToEleven) <==> SwitchOn(cfg, "restrict_double"))
  {
  }

  /** A loaded configuration has every switch a bool and the three integer
      parameters between 1 and their maximum (a `true` counting as 1), so
      the split budget `max_num_hands - 1` is between 0 and 5. */
  lemma LoadedRanges(cfg: Config)
    requires Accepted(IntendedDefaultConfigs(), cfg)
    ensures forall k :: k in cfg && IntendedDefaultConfigs()[k].CBool? ==> cfg[k].CBool?
    ensures 1 <= IntValue(cfg["start_money"]) <= 1000
    ensures 1 <= IntValue(cfg["num_decks"]) <= 6
    ensures 0 <= IntValue(cfg["max_num_hands"]) - 1 <= 5
  {
    assert "start_money" in cfg && "num_decks" in cfg && "max_num_hands" in cfg;
  }

  /** `true` passes for an integer parameter. */
  lemma BoolPassesAsInt()
    ensures ValueOk(IntendedDefaultConfigs(), "start_money", CBool(true))
    ensures !ValueOk(IntendedDefaultConfigs(), "start_money", CBool(false))
    ensures !ValueOk(IntendedDefaultConfigs(), "hit_soft_17", CInt(1))
  {
  }
}
