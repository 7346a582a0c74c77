// src/Utils/RuntimeConfig.cpp, and the validators of src/Utils/Utils.cpp that read it.
module Config {
  import opened Wrappers
  import opened Text
  import opened Numbers

  datatype ConfigType = INT | BOOL
  datatype ConfigDef = ConfigDef(kind: ConfigType, defaultValue: string, minValue: int, maxValue: int)

  type Settings = map<string, string>

  const MAX_USERNAME_LENGTH := 32
  const MAX_SUBJECT_LENGTH := 100

  const KEYS := {"HEARTBEAT_INTERVAL_S", "HEARTBEAT_CHECK_DELAY_S", "HEARTBEAT_TIMEOUT_S", "CLIENT_TIMEOUT_S",
    "MAX_QUEUE_SIZE", "THREAD_POOL_SIZE", "MAX_USERNAME_LENGTH", "MAX_SUBJECT_LENGTH", "AUTO_STOP_WHEN_NO_CLIENTS"}

  function DefinitionOf(key: string): ConfigDef
    requires key in KEYS
  {
    if key == "HEARTBEAT_INTERVAL_S" then ConfigDef(INT, ToText(30), 5, 3600)
    else if key == "HEARTBEAT_CHECK_DELAY_S" then ConfigDef(INT, ToText(5), 1, 60)
    else if key == "HEARTBEAT_TIMEOUT_S" then ConfigDef(INT, ToText(90), 10, 3600)
    else if key == "CLIENT_TIMEOUT_S" then ConfigDef(INT, ToText(120), 10, 3600)
    else if key == "MAX_QUEUE_SIZE" then ConfigDef(INT, ToText(1000), 10, 100000)
    else if key == "THREAD_POOL_SIZE" then ConfigDef(INT, ToText(12), 1, 128)
    else if key == "MAX_USERNAME_LENGTH" then ConfigDef(INT, ToText(MAX_USERNAME_LENGTH), 3, 100)
    else if key == "MAX_SUBJECT_LENGTH" then ConfigDef(INT, ToText(MAX_SUBJECT_LENGTH), 10, 500)
    else ConfigDef(BOOL, "false", 0, 0)
  }

  const DEFINITIONS := map key | key in KEYS :: DefinitionOf(key)

  const BOOL_TEXTS := {"true", "false", "1", "0"}

  // ---------------------------------------------------------------- one setting

  predicate Acceptable(value: string, def: ConfigDef) {
    match def.kind
    case BOOL => value in BOOL_TEXTS
    case INT => Stoi(value).Some? && def.minValue <= Stoi(value).value <= def.maxValue
  }

  function Defaults(): Settings {
    map k | k in DEFINITIONS :: DEFINITIONS[k].defaultValue
  }

  function WithSetting(c: Settings, key: string, value: string): Settings {
    if key in DEFINITIONS && Acceptable(value, DEFINITIONS[key]) then c[key := value] else c
  }

  function IntSetting(c: Settings, key: string): Option<int> {
    if key in c then Stoi(c[key]) else None
  }

  function BoolSetting(c: Settings, key: string): Option<bool> {
    if key in c then Some(c[key] == "true" || c[key] == "1") else None
  }

  // -------------------------------------------------------------- every history

  datatype ConfigOp = SetOp(key: string, value: string) | ResetOp

  function AfterOp(c: Settings, op: ConfigOp): Settings {
    match op
    case SetOp(key, value) => WithSetting(c, key, value)
    case ResetOp => Defaults()
  }

  function AfterOps(ops: seq<ConfigOp>): Settings {
    if ops == [] then Defaults() else AfterOp(AfterOps(ops[..|ops| - 1]), ops[|ops| - 1])
  }

  ghost predicate Readable(c: Settings) {
    c.Keys == DEFINITIONS.Keys && forall k | k in c :: Acceptable(c[k], DEFINITIONS[k])
  }

  predicate NumericDefault(def: ConfigDef, n: int) {
    def.kind == INT && def.defaultValue == ToText(n) && INT_MIN <= def.minValue <= n <= def.maxValue <= INT_MAX
  }

  lemma NumericDefaultIsAcceptable(def: ConfigDef, n: int)
    requires NumericDefault(def, n)
    ensures Acceptable(def.defaultValue, def)
  {
    ReadToText(n, "", INT_MIN, INT_MAX);
    assert ToText(n) + "" == ToText(n);
  }

  lemma DefaultIsAcceptable(key: string)
    requires key in KEYS
    ensures Acceptable(DefinitionOf(key).defaultValue, DefinitionOf(key))
  {
    var def := DefinitionOf(key);
    if def.kind == INT {
      var n :| n in [30, 5, 90, 120, 1000, 12, MAX_USERNAME_LENGTH, MAX_SUBJECT_LENGTH] && NumericDefault(def, n);
      NumericDefaultIsAcceptable(def, n);
    }
  }

  lemma DefaultsAreReadable()
    ensures Readable(Defaults())
  {
    forall key | key in KEYS ensures Acceptable(DefinitionOf(key).defaultValue, DefinitionOf(key)) {
      DefaultIsAcceptable(key);
    }
  }

  lemma OpKeepsReadable(c: Settings, op: ConfigOp)
    requires Readable(c)
    ensures Readable(AfterOp(c, op))
  {
    if op.ResetOp? { DefaultsAreReadable(); }
  }

  // After any settings and resets with arbitrary strings, the keys are the defined ones,
  // every integer setting reads back within its bounds, and every flag reads back.
  lemma {:induction false} AlwaysReadable(ops: seq<ConfigOp>)
    ensures Readable(AfterOps(ops))
    ensures forall k | k in DEFINITIONS && DEFINITIONS[k].kind == INT ::
              IntSetting(AfterOps(ops), k).Some?
              && DEFINITIONS[k].minValue <= IntSetting(AfterOps(ops), k).value <= DEFINITIONS[k].maxValue
    ensures forall k | k in DEFINITIONS && DEFINITIONS[k].kind == BOOL :: BoolSetting(AfterOps(ops), k).Some?
  {
    if ops == [] {
      DefaultsAreReadable();
    } else {
      AlwaysReadable(ops[..|ops| - 1]);
      OpKeepsReadable(AfterOps(ops[..|ops| - 1]), ops[|ops| - 1]);
    }
  }

  // Setting a flag and reading it back: the four accepted texts mean what they say, and any
  // other text leaves the flag as it was.
  lemma FlagRoundTrip(c: Settings, key: string, value: string)
    requires key in DEFINITIONS && DEFINITIONS[key].kind == BOOL
    ensures var read := BoolSetting(WithSetting(c, key, value), key);
            if value == "true" || value == "1" then read == Some(true)
            else if value == "false" || value == "0" then read == Some(false)
            else read == BoolSetting(c, key)
  {
    hide DefinitionOf;
  }

  // A value whose text continues after the number is accepted and read as that number.
  lemma NumberWithTail(c: Settings, key: string, n: int, tail: string)
    requires key in DEFINITIONS && DEFINITIONS[key].kind == INT
    requires INT_MIN <= n <= INT_MAX && (tail == "" || !IsDigit(tail[0]))
    ensures var c' := WithSetting(c, key, ToText(n) + tail);
            if DEFINITIONS[key].minValue <= n <= DEFINITIONS[key].maxValue then IntSetting(c', key) == Some(n) else c' == c
  {
    hide DefinitionOf, ReadInt, ToText;
    ReadToText(n, tail, INT_MIN, INT_MAX);
  }

  // A setting changes its own key at most.
  lemma SetTouchesOneKey(c: Settings, key: string, value: string, other: string)
    requires other != key
    ensures other in WithSetting(c, key, value) <==> other in c
    ensures other in c ==> WithSetting(c, key, value)[other] == c[other]
  {
  }

  // The settings a new configuration reads, and the numbers each key accepts.
  predicate Reads(key: string, n: int, lo: int, hi: int) {
    IntSetting(Defaults(), key) == Some(n) && key in DEFINITIONS
    && DEFINITIONS[key].kind == INT && DEFINITIONS[key].minValue == lo && DEFINITIONS[key].maxValue == hi
  }

  lemma FreshReads(key: string, n: int)
    requires key in KEYS && NumericDefault(DefinitionOf(key), n)
    ensures Reads(key, n, DefinitionOf(key).minValue, DefinitionOf(key).maxValue)
  {
    hide DefinitionOf;
    ReadToText(n, "", INT_MIN, INT_MAX);
    assert ToText(n) + "" == ToText(n);
  }

  lemma FreshTimes()
    ensures Reads("HEARTBEAT_INTERVAL_S", 30, 5, 3600) && Reads("HEARTBEAT_CHECK_DELAY_S", 5, 1, 60)
    ensures Reads("HEARTBEAT_TIMEOUT_S", 90, 10, 3600) && Reads("CLIENT_TIMEOUT_S", 120, 10, 3600)
  {
    hide ReadInt, ToText, Reads;
    FreshReads("HEARTBEAT_INTERVAL_S", 30);
    FreshReads("HEARTBEAT_CHECK_DELAY_S", 5);
    FreshReads("HEARTBEAT_TIMEOUT_S", 90);
    FreshReads("CLIENT_TIMEOUT_S", 120);
  }

  lemma FreshSizes()
    ensures Reads("MAX_QUEUE_SIZE", 1000, 10, 100000) && Reads("THREAD_POOL_SIZE", 12, 1, 128)
    ensures Reads("MAX_USERNAME_LENGTH", 32, 3, 100) && Reads("MAX_SUBJECT_LENGTH", 100, 10, 500)
  {
    hide ReadInt, ToText, Reads;
    FreshReads("MAX_QUEUE_SIZE", 1000);
    FreshReads("THREAD_POOL_SIZE", 12);
    FreshReads("MAX_USERNAME_LENGTH", 32);
    FreshReads("MAX_SUBJECT_LENGTH", 100);
  }

  lemma FreshFlag()
    ensures BoolSetting(Defaults(), "AUTO_STOP_WHEN_NO_CLIENTS") == Some(false) && Defaults().Keys == KEYS
  {
    hide ReadInt, ToText;
  }

  // ----------------------------------------------------------------- validators

  const SIZE_T := 0x1_0000_0000_0000_0000

  // static_cast<size_t>: a negative value would wrap round.
  function SizeT(v: int): nat {
    v % SIZE_T
  }

  function Limit(c: Settings, key: string, fallback: nat): nat {
    match IntSetting(c, key)
    case Some(v) => SizeT(v)
    case None => fallback
  }

  predicate ValidUsername(c: Settings, name: string) {
    name != "" && |name| <= Limit(c, "MAX_USERNAME_LENGTH", MAX_USERNAME_LENGTH) && forall ch | ch in name :: IsWordChar(ch)
  }

  predicate ValidSubject(c: Settings, subject: string) {
    subject != "" && |subject| <= Limit(c, "MAX_SUBJECT_LENGTH", MAX_SUBJECT_LENGTH)
  }

  predicate ValidBody(body: string) {
    body != ""
  }

  lemma LimitIs(c: Settings, key: string, fallback: nat)
    requires Readable(c) && key in DEFINITIONS && DEFINITIONS[key].kind == INT && DEFINITIONS[key].minValue >= 0
    ensures IntSetting(c, key) == Some(Limit(c, key, fallback))
    ensures DEFINITIONS[key].minValue <= Limit(c, key, fallback) <= DEFINITIONS[key].maxValue
  {
    hide DefinitionOf;
    SmallSizeT(IntSetting(c, key).value);
  }

  lemma SmallSizeT(v: int)
    requires 0 <= v
    ensures v <= INT_MAX ==> SizeT(v) == v
  {
  }

  // In every reachable configuration the casts keep the value, so the validators
  // compare with the number the administrator set.
  lemma LimitsDoNotWrap(c: Settings)
    requires Readable(c)
    ensures IntSetting(c, "MAX_USERNAME_LENGTH") == Some(Limit(c, "MAX_USERNAME_LENGTH", MAX_USERNAME_LENGTH))
    ensures 3 <= Limit(c, "MAX_USERNAME_LENGTH", MAX_USERNAME_LENGTH) <= 100
    ensures IntSetting(c, "MAX_SUBJECT_LENGTH") == Some(Limit(c, "MAX_SUBJECT_LENGTH", MAX_SUBJECT_LENGTH))
    ensures 10 <= Limit(c, "MAX_SUBJECT_LENGTH", MAX_SUBJECT_LENGTH) <= 500
  {
    hide Limit, IntSetting, Readable;
    assert DEFINITIONS["MAX_USERNAME_LENGTH"].minValue == 3 && DEFINITIONS["MAX_USERNAME_LENGTH"].maxValue == 100;
    LimitIs(c, "MAX_USERNAME_LENGTH", MAX_USERNAME_LENGTH);
    assert DEFINITIONS["MAX_SUBJECT_LENGTH"].minValue == 10 && DEFINITIONS["MAX_SUBJECT_LENGTH"].maxValue == 500;
    LimitIs(c, "MAX_SUBJECT_LENGTH", MAX_SUBJECT_LENGTH);
  }

  // In a reachable configuration: a name is one to limit letters, digits and underscores, a
  // subject one to limit characters, a body anything but empty.
  lemma ValidatorsMean(c: Settings, name: string, subject: string, body: string)
    requires Readable(c)
    ensures IntSetting(c, "MAX_USERNAME_LENGTH").Some? && IntSetting(c, "MAX_SUBJECT_LENGTH").Some?
    ensures ValidUsername(c, name) <==> IsWord(name) && |name| <= IntSetting(c, "MAX_USERNAME_LENGTH").value
    ensures ValidSubject(c, subject) <==> 1 <= |subject| <= IntSetting(c, "MAX_SUBJECT_LENGTH").value
    ensures ValidBody(body) <==> |body| >= 1
  {
    hide Readable, Limit, IntSetting;
    LimitsDoNotWrap(c);
  }

  // A valid name is a word of 1 to 100 characters.
  lemma ValidNameIsWord(c: Settings, name: string)
    requires Readable(c) && ValidUsername(c, name)
    ensures IsWord(name) && 1 <= |name| <= 100
  {
    LimitsDoNotWrap(c);
  }

  // ------------------------------------------------------------------ the object

  class RuntimeConfig {
    var config: map<string, string>
    var definitions: map<string, ConfigDef>

    ghost predicate Valid()
      reads this
    {
      definitions == DEFINITIONS && Readable(config)
    }

    constructor ()
      ensures Valid() && config == Defaults()
    {
      config := map[];
      definitions := map[];
      new;
      InitializeDefinitions();
      FillWithDefaults();
      DefaultsAreReadable();
    }

    method InitializeDefinitions()
      modifies this`definitions
      ensures definitions == DEFINITIONS
    {
      definitions := DEFINITIONS;
    }

    // The loop shared by the constructor and reset.
    method FillWithDefaults()
      requires definitions == DEFINITIONS && config.Keys <= DEFINITIONS.Keys
      modifies this`config
      ensures config == Defaults()
    {
      var keys := definitions.Keys;
      while keys != {}
        invariant keys <= DEFINITIONS.Keys && config.Keys <= DEFINITIONS.Keys
        invariant forall k | k in DEFINITIONS && k !in keys :: k in config && config[k] == DEFINITIONS[k].defaultValue
        decreases |keys|
      {
        var key :| key in keys;
        config := config[key := definitions[key].defaultValue];
        keys := keys - {key};
      }
    }

    method ValidateValue(value: string, def: ConfigDef) returns (ok: bool)
      ensures ok == Acceptable(value, def)
    {
      if def.kind == BOOL {
        return !(value != "true" && value != "false" && value != "1" && value != "0");
      }
      var number := Stoi(value);
      if number.None? {
        return false;
      }
      return !(number.value < def.minValue || number.value > def.maxValue);
    }

    method Set(key: string, value: string) returns (ok: bool)
      requires Valid()
      modifies this`config
      ensures Valid()
      ensures ok == (key in DEFINITIONS && Acceptable(value, DEFINITIONS[key]))
      ensures config == AfterOp(old(config), SetOp(key, value))
    {
      if key !in definitions {
        return false;
      }
      ok := ValidateValue(value, definitions[key]);
      if !ok {
        return false;
      }
      config := config[key := value];
      return true;
    }

    method GetInt(key: string) returns (value: Option<int>)
      requires Valid()
      ensures value == IntSetting(config, key)
      ensures key in DEFINITIONS && DEFINITIONS[key].kind == INT
              ==> value.Some? && DEFINITIONS[key].minValue <= value.value <= DEFINITIONS[key].maxValue
    {
      if key !in config {
        return None;
      }
      return Stoi(config[key]);
    }

    method GetBool(key: string) returns (value: Option<bool>)
      requires Valid()
      ensures value.None? <==> key !in DEFINITIONS
      ensures value.Some? ==> value.value == (config[key] in {"true", "1"})
      ensures key in DEFINITIONS && DEFINITIONS[key].kind == BOOL ==> value == Some(config[key] !in {"false", "0"})
      ensures value == BoolSetting(config, key)
    {
      if key !in config {
        return None;
      }
      return Some(config[key] == "true" || config[key] == "1");
    }

    method Reset()
      requires Valid()
      modifies this`config
      ensures Valid() && config == AfterOp(old(config), ResetOp)
    {
      FillWithDefaults();
      DefaultsAreReadable();
    }
  }
}
