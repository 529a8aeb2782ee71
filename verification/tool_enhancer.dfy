/**
 * ToolEnhancer's start-up: the configuration as a map from dotted keys to
 * values, Bukkit's typed getters with defaults, the validator that repairs
 * out-of-range values, and the settings the stone manager reads from it.
 */
module ToolEnhancer {
  import opened Numeric
  import opened StoneManager

  /** A configuration value: a boolean, a number, or anything else. */
  datatype ConfigValue = BoolVal(b: bool) | NumVal(x: real) | TextVal(s: string)

  const AllowBeyondMaxKey: string := "success_rates.beyond_vanilla.allow_beyond_max"
  const SeverityScaleKey: string := "success_rates.beyond_vanilla.severity_scale"
  const GlobalMinimumRateKey: string := "success_rates.beyond_vanilla.global_minimum_rate"
  const MaxMultiplierKey: string := "success_rates.beyond_vanilla.max_level_limit.max_multiplier"
  const AbsoluteMaxLevelKey: string := "success_rates.beyond_vanilla.max_level_limit.absolute_max_level"
  const LimitEnabledKey: string := "success_rates.beyond_vanilla.max_level_limit.enabled"
  const DebugModeKey: string := "debug_mode"

  /** The keys the validator may rewrite. */
  const ValidatedKeys: set<string> := {SeverityScaleKey, GlobalMinimumRateKey, MaxMultiplierKey, AbsoluteMaxLevelKey, DebugModeKey}

  lemma KeysDistinct()
    ensures |{AllowBeyondMaxKey, SeverityScaleKey, GlobalMinimumRateKey, MaxMultiplierKey,
              AbsoluteMaxLevelKey, LimitEnabledKey, DebugModeKey}| == 7
  {
  }

  /** getDouble(key, default): a number as it is, anything else gives the default. */
  function GetDouble(m: map<string, ConfigValue>, key: string, default: real): (x: real)
    ensures key !in m ==> x == default
  {
    if key in m && m[key].NumVal? then m[key].x else default
  }

  /** getInt(key, default): a number truncated toward zero, anything else gives the default. */
  function GetInt(m: map<string, ConfigValue>, key: string, default: int): (n: int)
    ensures key !in m ==> n == default
  {
    if key in m && m[key].NumVal? then Trunc(m[key].x) else default
  }

  /** getBoolean(key, default): a boolean as it is, anything else gives the default. */
  function GetBoolean(m: map<string, ConfigValue>, key: string, default: bool): (b: bool)
    ensures key !in m ==> b == default
  {
    if key in m && m[key].BoolVal? then m[key].b else default
  }

  /** The settings EnhanceStoneManager reads from the configuration. */
  function LoadSettings(m: map<string, ConfigValue>): Settings {
    Settings(
      GetBoolean(m, AllowBeyondMaxKey, true),
      GetDouble(m, MaxMultiplierKey, 2.0),
      GetInt(m, AbsoluteMaxLevelKey, 30),
      GetDouble(m, SeverityScaleKey, 1.0),
      GetDouble(m, GlobalMinimumRateKey, 0.01),
      GetBoolean(m, LimitEnabledKey, false))
  }

  /** One range check of validateConfig on a number: out of [lo, hi], the default is written back. */
  function RepairDouble(m: map<string, ConfigValue>, key: string, lo: real, hi: real, default: real): (r: map<string, ConfigValue>)
    ensures lo <= default <= hi ==> lo <= GetDouble(r, key, default) <= hi
    ensures lo <= GetDouble(m, key, default) <= hi ==> r == m
    ensures forall k :: k != key ==> (k in r <==> k in m) && (k in m ==> r[k] == m[k])
    ensures key in r || key !in m
  {
    var x := GetDouble(m, key, default);
    if x < lo || x > hi then m[key := NumVal(default)] else m
  }

  /** The same check on an integer setting, read through getInt. */
  function RepairInt(m: map<string, ConfigValue>, key: string, lo: int, hi: int, default: int): (r: map<string, ConfigValue>)
    ensures lo <= default <= hi ==> lo <= GetInt(r, key, default) <= hi
    ensures lo <= GetInt(m, key, default) <= hi ==> r == m
    ensures forall k :: k != key ==> (k in r <==> k in m) && (k in m ==> r[k] == m[k])
  {
    var n := GetInt(m, key, default);
    if n < lo || n > hi then m[key := NumVal(default as real)] else m
  }

  /**
   * The configuration after validateConfig: severity_scale, then
   * global_minimum_rate, max_multiplier and absolute_max_level are checked,
   * and debug_mode is added as false when missing.
   */
  function Validated(m: map<string, ConfigValue>): (v: map<string, ConfigValue>)
  {
    var m4 := Steps(m).3;
    if DebugModeKey in m4 then m4 else m4[DebugModeKey := BoolVal(false)]
  }

  /** The configuration after each of the four range checks, in order. */
  function Steps(m: map<string, ConfigValue>): (map<string, ConfigValue>, map<string, ConfigValue>,
                                                map<string, ConfigValue>, map<string, ConfigValue>)
  {
    var m1 := RepairDouble(m, SeverityScaleKey, 0.0, 5.0, 1.0);
    var m2 := RepairDouble(m1, GlobalMinimumRateKey, 0.0, 1.0, 0.01);
    var m3 := RepairDouble(m2, MaxMultiplierKey, 1.0, 10.0, 2.0);
    (m1, m2, m3, RepairInt(m3, AbsoluteMaxLevelKey, 1, 100, 30))
  }

  /** After validation every setting the manager reads is within the validated ranges. */
  lemma ValidatedIsInRange(m: map<string, ConfigValue>)
    ensures InRange(LoadSettings(Validated(m)))
  {
    var v := Validated(m);
    assert 0.0 <= GetDouble(v, SeverityScaleKey, 1.0) <= 5.0;
    assert 0.0 <= GetDouble(v, GlobalMinimumRateKey, 0.01) <= 1.0;
    assert 1.0 <= GetDouble(v, MaxMultiplierKey, 2.0) <= 10.0;
    assert 1 <= GetInt(v, AbsoluteMaxLevelKey, 30) <= 100;
  }

  /** Validation leaves every key it does not check as it was. */
  lemma ValidationKeepsOtherKeys(m: map<string, ConfigValue>)
    ensures forall k :: k in m && k !in ValidatedKeys ==> k in Validated(m) && Validated(m)[k] == m[k]
  {
  }

  /**
   * Validation repairs only what it must: every checked setting that already
   * read in range reads the same afterwards, one that did not reads its
   * default, and allow_beyond_max and the limit switch are untouched.
   */
  lemma ValidationKeepsGoodValues(m: map<string, ConfigValue>)
    ensures var before, after := LoadSettings(m), LoadSettings(Validated(m));
            && after.allowBeyondMax == before.allowBeyondMax
            && after.limitEnabled == before.limitEnabled
            && after.severityScale == (if 0.0 <= before.severityScale <= 5.0 then before.severityScale else 1.0)
            && after.globalMinimumRate == (if 0.0 <= before.globalMinimumRate <= 1.0 then before.globalMinimumRate else 0.01)
            && after.maxLevelMultiplier == (if 1.0 <= before.maxLevelMultiplier <= 10.0 then before.maxLevelMultiplier else 2.0)
            && after.absoluteMaxLevel == (if 1 <= before.absoluteMaxLevel <= 100 then before.absoluteMaxLevel else 30)
  {
    AllowBeyondMaxKept(m);
    LimitEnabledKept(m);
    SeverityScaleRepaired(m);
    GlobalMinimumRateRepaired(m);
    MaxMultiplierRepaired(m);
    AbsoluteMaxLevelRepaired(m);
  }

  lemma AllowBeyondMaxKept(m: map<string, ConfigValue>)
    ensures LoadSettings(Validated(m)).allowBeyondMax == LoadSettings(m).allowBeyondMax
  {
    KeysDistinct();
    ValidationKeepsOtherKeys(m);
    assert AllowBeyondMaxKey in Validated(m) <==> AllowBeyondMaxKey in m;
  }

  lemma LimitEnabledKept(m: map<string, ConfigValue>)
    ensures LoadSettings(Validated(m)).limitEnabled == LoadSettings(m).limitEnabled
  {
    KeysDistinct();
    ValidationKeepsOtherKeys(m);
    assert LimitEnabledKey in Validated(m) <==> LimitEnabledKey in m;
  }

  lemma SeverityScaleRepaired(m: map<string, ConfigValue>)
    ensures var x := GetDouble(m, SeverityScaleKey, 1.0);
            GetDouble(Validated(m), SeverityScaleKey, 1.0) == if 0.0 <= x <= 5.0 then x else 1.0
  {
    KeysDistinct();
    var st := Steps(m);
    assert GetDouble(Validated(m), SeverityScaleKey, 1.0) == GetDouble(st.3, SeverityScaleKey, 1.0);
    assert GetDouble(st.3, SeverityScaleKey, 1.0) == GetDouble(st.0, SeverityScaleKey, 1.0);
  }

  lemma GlobalMinimumRateRepaired(m: map<string, ConfigValue>)
    ensures var x := GetDouble(m, GlobalMinimumRateKey, 0.01);
            GetDouble(Validated(m), GlobalMinimumRateKey, 0.01) == if 0.0 <= x <= 1.0 then x else 0.01
  {
    KeysDistinct();
    var st := Steps(m);
    assert GetDouble(Validated(m), GlobalMinimumRateKey, 0.01) == GetDouble(st.3, GlobalMinimumRateKey, 0.01);
    assert GetDouble(st.3, GlobalMinimumRateKey, 0.01) == GetDouble(st.1, GlobalMinimumRateKey, 0.01);
    assert GetDouble(st.0, GlobalMinimumRateKey, 0.01) == GetDouble(m, GlobalMinimumRateKey, 0.01);
  }

  lemma MaxMultiplierRepaired(m: map<string, ConfigValue>)
    ensures var x := GetDouble(m, MaxMultiplierKey, 2.0);
            GetDouble(Validated(m), MaxMultiplierKey, 2.0) == if 1.0 <= x <= 10.0 then x else 2.0
  {
    KeysDistinct();
    var st := Steps(m);
    assert GetDouble(Validated(m), MaxMultiplierKey, 2.0) == GetDouble(st.3, MaxMultiplierKey, 2.0);
    assert GetDouble(st.3, MaxMultiplierKey, 2.0) == GetDouble(st.2, MaxMultiplierKey, 2.0);
    assert GetDouble(st.1, MaxMultiplierKey, 2.0) == GetDouble(m, MaxMultiplierKey, 2.0);
  }

  lemma AbsoluteMaxLevelRepaired(m: map<string, ConfigValue>)
    ensures var n := GetInt(m, AbsoluteMaxLevelKey, 30);
            GetInt(Validated(m), AbsoluteMaxLevelKey, 30) == if 1 <= n <= 100 then n else 30
  {
    KeysDistinct();
    var st := Steps(m);
    assert GetInt(Validated(m), AbsoluteMaxLevelKey, 30) == GetInt(st.3, AbsoluteMaxLevelKey, 30);
    assert GetInt(st.2, AbsoluteMaxLevelKey, 30) == GetInt(m, AbsoluteMaxLevelKey, 30);
  }

  /** debug_mode is always present afterwards: false when it was missing, untouched otherwise. */
  lemma ValidationAddsDebugMode(m: map<string, ConfigValue>)
    ensures DebugModeKey in Validated(m)
    ensures DebugModeKey !in m ==> Validated(m)[DebugModeKey] == BoolVal(false)
    ensures DebugModeKey in m ==> Validated(m)[DebugModeKey] == m[DebugModeKey]
  {
  }

  /** Validating a validated configuration changes nothing. */
  lemma ValidationIsIdempotent(m: map<string, ConfigValue>)
    ensures Validated(Validated(m)) == Validated(m)
  {
    ValidatedIsInRange(m);
  }

  /** The plugin's loaded configuration, which the validator updates in place. */
  class PluginConfig {
    var entries: map<string, ConfigValue>

    constructor (entries: map<string, ConfigValue>)
      ensures this.entries == entries
    {
      this.entries := entries;
    }

    /** validateConfig: check each ranged value in turn, then add debug_mode if missing. */
    method ValidateConfig()
      modifies this
      ensures entries == Validated(old(entries))
    {
      KeysDistinct();
      ghost var original := entries;
      ghost var st := Steps(original);
      var severityScale := GetDouble(entries, SeverityScaleKey, 1.0);
      if severityScale < 0.0 || severityScale > 5.0 {
        entries := entries[SeverityScaleKey := NumVal(1.0)];
      }
      ghost var m1 := entries;
      assert m1 == st.0;
      var globalMinRate := GetDouble(entries, GlobalMinimumRateKey, 0.01);
      if globalMinRate < 0.0 || globalMinRate > 1.0 {
        entries := entries[GlobalMinimumRateKey := NumVal(0.01)];
      }
      ghost var m2 := entries;
      assert m2 == st.1;
      var maxMultiplier := GetDouble(entries, MaxMultiplierKey, 2.0);
      if maxMultiplier < 1.0 || maxMultiplier > 10.0 {
        entries := entries[MaxMultiplierKey := NumVal(2.0)];
      }
      ghost var m3 := entries;
      assert m3 == st.2;
      var absoluteMaxLevel := GetInt(entries, AbsoluteMaxLevelKey, 30);
      if absoluteMaxLevel < 1 || absoluteMaxLevel > 100 {
        entries := entries[AbsoluteMaxLevelKey := NumVal(30.0)];
      }
      assert entries == st.3;
      if DebugModeKey !in entries {
        entries := entries[DebugModeKey := BoolVal(false)];
      }
      assert entries == Validated(original);
    }
  }

  /**
   * onEnable's configuration steps: validate, then build the stone manager
   * from the validated configuration, whose settings are then in range.
   */
  method Enable(config: PluginConfig) returns (settings: Settings)
    modifies config
    ensures config.entries == Validated(old(config.entries))
    ensures settings == LoadSettings(config.entries)
    ensures InRange(settings)
  {
    config.ValidateConfig();
    settings := LoadSettings(config.entries);
    ValidatedIsInRange(old(config.entries));
  }
}
