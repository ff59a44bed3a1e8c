/**
 * `ConfigValidator`: the checks run over a configuration dictionary. Each
 * helper appends what it finds to a list its caller owns; `validate_all`
 * runs them in order and reports whether no required setting is missing,
 * together with the errors followed by the warnings. A comparison that
 * raises (a text or a list compared with a bound, or a path of the wrong
 * type) turns the whole answer into a single failure.
 */
module ConfigValidator {
  import opened Wrappers
  import opened Strings
  import opened Config

  /** The dictionary being validated. */
  type ConfigDict = map<string, ConfigValue>

  /** The file a missing-file warning is about. */
  datatype FileRole = SourceFile | LocalFile | SubscribeFile

  /** One line of the validator's report; the wording of the messages is not modelled. */
  datatype Diagnostic =
    | MissingSetting(name: string)
    | NotBoolean(name: string, value: ConfigValue)
    | OutOfRange(name: string, value: ConfigValue, lo: int, hi: int)
    | FileMissing(role: FileRole, path: Option<ConfigValue>)
    | ValidationFailed

  const RequiredSettings: seq<string> := [
    "open_update", "open_speed_test", "open_service",
    "speed_test_limit", "speed_test_timeout", "update_interval"]

  const BooleanSettings: seq<string> := [
    "open_driver", "open_epg", "open_empty_category", "open_filter_resolution",
    "open_filter_speed", "open_hotel", "open_hotel_foodie", "open_hotel_fofa",
    "open_local", "open_m3u_result", "open_multicast", "open_multicast_foodie",
    "open_multicast_fofa", "open_request", "open_rtmp", "open_service",
    "open_speed_test", "open_subscribe", "open_supply", "open_update",
    "open_update_time", "open_url_info", "open_use_cache", "open_history",
    "open_headers", "speed_test_filter_host", "ipv6_support"]

  /** The range checks in dictionary order: name, least and greatest recommended value. */
  const NumericSettings: seq<(string, int, int)> := [
    ("app_port", 1, 65535), ("hotel_num", 0, 1000), ("hotel_page_num", 1, 100),
    ("multicast_num", 0, 1000), ("multicast_page_num", 1, 100), ("local_num", 0, 1000),
    ("subscribe_num", 0, 1000), ("urls_limit", 1, 100), ("speed_test_limit", 1, 100),
    ("speed_test_timeout", 1, 60), ("request_timeout", 1, 60), ("update_interval", 0, 24 * 7),
    ("recent_days", 1, 365)]

  /** `Paths.SUBSCRIBE_FILE`. */
  const SubscribeFilePath: string := "config/subscribe.txt"

  /** The missing-setting errors for `names`, in list order. */
  function MissingSettings(names: seq<string>, config: ConfigDict): seq<Diagnostic>
  {
    if names == [] then []
    else
      var name := names[|names| - 1];
      MissingSettings(names[..|names| - 1], config) + (if name !in config then [MissingSetting(name)] else [])
  }

  /** The warnings for the settings of `names` present with a value that is not a boolean. */
  function BooleanWarnings(names: seq<string>, config: ConfigDict): seq<Diagnostic>
  {
    if names == [] then []
    else
      var name := names[|names| - 1];
      BooleanWarnings(names[..|names| - 1], config)
        + (if name in config && !config[name].BoolValue? then [NotBoolean(name, config[name])] else [])
  }

  /**
   * Python's `lo <= value <= hi` on a value that is not `None`: booleans
   * count as 0 and 1, and a text or a list raises `TypeError` (`None`).
   */
  function InRange(value: ConfigValue, lo: int, hi: int): Option<bool>
  {
    match value
    case BoolValue(b) => var n := if b then 1 else 0; Some(lo <= n <= hi)
    case IntValue(i) => Some(lo <= i <= hi)
    case RealValue(r) => Some(lo as real <= r <= hi as real)
    case _ => None
  }

  /**
   * The range warnings for `checks`, in their order; `None` when a
   * comparison raises. A setting that is absent or `None` is skipped.
   */
  function NumericWarnings(checks: seq<(string, int, int)>, config: ConfigDict): Option<seq<Diagnostic>>
  {
    if checks == [] then Some([])
    else
      var (name, lo, hi) := checks[|checks| - 1];
      match NumericWarnings(checks[..|checks| - 1], config)
      case None => None
      case Some(ws) =>
        if name !in config || config[name] == NoneValue then Some(ws)
        else
          match InRange(config[name], lo, hi)
          case None => None
          case Some(ok) => Some(ws + if ok then [] else [OutOfRange(name, config[name], lo, hi)])
  }

  /** `config_dict.get(name)`. */
  function Get(config: ConfigDict, name: string): Option<ConfigValue>
  {
    if name in config then Some(config[name]) else None
  }

  /** Python truthiness of `config_dict.get(name)`. */
  predicate Truthy(v: Option<ConfigValue>)
  {
    match v
    case None => false
    case Some(BoolValue(b)) => b
    case Some(IntValue(i)) => i != 0
    case Some(RealValue(r)) => r != 0.0
    case Some(TextValue(s)) => s != []
    case Some(ListValue(items)) => items != []
    case Some(NoneValue) => false
  }

  /**
   * One existence check: when the switch is on, `pathExists` is asked about the
   * path (`os.path.exists`, `None` when it raises) and a missing file warns.
   */
  function FileCheck(switch: Option<ConfigValue>, path: ConfigValue, role: FileRole, shown: Option<ConfigValue>,
                     pathExists: ConfigValue -> Option<bool>): Option<seq<Diagnostic>>
  {
    if !Truthy(switch) then Some([])
    else
      match pathExists(path)
      case None => None
      case Some(found) => Some(if found then [] else [FileMissing(role, shown)])
  }

  /** `config_dict.get(name, '')`. */
  function PathSetting(config: ConfigDict, name: string): ConfigValue
  {
    if name in config then config[name] else TextValue("")
  }

  /** The three existence checks of `_validate_file_existence`, in order; `None` when one raises. */
  function FileWarnings(config: ConfigDict, pathExists: ConfigValue -> Option<bool>): Option<seq<Diagnostic>>
  {
    var source := FileCheck(Get(config, "open_update"), PathSetting(config, "source_file"), SourceFile, Get(config, "source_file"), pathExists);
    var local := FileCheck(Get(config, "open_local"), PathSetting(config, "local_file"), LocalFile, Get(config, "local_file"), pathExists);
    var subscribe := FileCheck(Get(config, "open_subscribe"), TextValue(SubscribeFilePath), SubscribeFile, Some(TextValue(SubscribeFilePath)), pathExists);
    if source.None? || local.None? || subscribe.None? then None
    else Some(source.value + local.value + subscribe.value)
  }

  /** What `validate_all` returns. */
  function Validation(config: ConfigDict, pathExists: ConfigValue -> Option<bool>): (bool, seq<Diagnostic>)
  {
    ValidationOf(RequiredSettings, BooleanSettings, NumericSettings, FileWarnings(config, pathExists), config)
  }

  /**
   * What `validate_all` returns with the given lists of required, boolean
   * and bounded settings, and the outcome `files` of the existence checks.
   */
  function ValidationOf(required: seq<string>, booleanNames: seq<string>, checks: seq<(string, int, int)>,
                        files: Option<seq<Diagnostic>>, config: ConfigDict): (bool, seq<Diagnostic>)
  {
    var errors := MissingSettings(required, config);
    var booleans := BooleanWarnings(booleanNames, config);
    match NumericWarnings(checks, config)
    case None => (false, [ValidationFailed])
    case Some(numeric) =>
      match files
      case None => (false, [ValidationFailed])
      case Some(found) => (errors == [], errors + booleans + numeric + found)
  }

  /** `_validate_required_settings(config_dict, errors)`. */
  method ValidateRequiredSettings(config: ConfigDict, errors: seq<Diagnostic>) returns (errors': seq<Diagnostic>)
    ensures errors' == errors + MissingSettings(RequiredSettings, config)
  {
    errors' := errors;
    var i := 0;
    while i < |RequiredSettings|
      invariant 0 <= i <= |RequiredSettings|
      invariant errors' == errors + MissingSettings(RequiredSettings[..i], config)
    {
      var setting := RequiredSettings[i];
      assert RequiredSettings[..i + 1][..i] == RequiredSettings[..i];
      if setting !in config {
        errors' := errors' + [MissingSetting(setting)];
      }
      i := i + 1;
    }
    assert RequiredSettings[..i] == RequiredSettings;
  }

  /** `_validate_boolean_settings(config_dict, warnings)`: the loop over its fixed list. */
  method ValidateBooleanSettings(config: ConfigDict, warnings: seq<Diagnostic>) returns (warnings': seq<Diagnostic>)
    ensures warnings' == warnings + BooleanWarnings(BooleanSettings, config)
  {
    warnings' := CheckBooleans(BooleanSettings, config, warnings);
  }

  /** The loop of `_validate_boolean_settings` over the names `settings`. */
  method CheckBooleans(settings: seq<string>, config: ConfigDict, warnings: seq<Diagnostic>) returns (warnings': seq<Diagnostic>)
    ensures warnings' == warnings + BooleanWarnings(settings, config)
  {
    warnings' := warnings;
    var i := 0;
    while i < |settings|
      invariant 0 <= i <= |settings|
      invariant warnings' == warnings + BooleanWarnings(settings[..i], config)
    {
      var setting := settings[i];
      assert settings[..i + 1][..i] == settings[..i];
      if setting in config {
        var value := config[setting];
        if !value.BoolValue? {
          warnings' := warnings' + [NotBoolean(setting, value)];
        }
      }
      i := i + 1;
    }
    assert settings[..i] == settings;
  }

  /** `_validate_numeric_settings(config_dict, warnings)`; `raised` is the `TypeError` escaping it. */
  method ValidateNumericSettings(config: ConfigDict, warnings: seq<Diagnostic>)
    returns (warnings': seq<Diagnostic>, raised: bool)
    ensures raised <==> NumericWarnings(NumericSettings, config).None?
    ensures !raised ==> warnings' == warnings + NumericWarnings(NumericSettings, config).value
  {
    warnings', raised := CheckRanges(NumericSettings, config, warnings);
  }

  /** The loop of `_validate_numeric_settings` over the bounds `checks`. */
  method CheckRanges(checks: seq<(string, int, int)>, config: ConfigDict, warnings: seq<Diagnostic>)
    returns (warnings': seq<Diagnostic>, raised: bool)
    ensures raised <==> NumericWarnings(checks, config).None?
    ensures !raised ==> warnings' == warnings + NumericWarnings(checks, config).value
  {
    warnings' := warnings;
    raised := false;
    var i := 0;
    while i < |checks|
      invariant 0 <= i <= |checks|
      invariant NumericWarnings(checks[..i], config).Some?
      invariant warnings' == warnings + NumericWarnings(checks[..i], config).value
    {
      var (setting, minVal, maxVal) := checks[i];
      assert checks[..i + 1][..i] == checks[..i];
      if setting in config {
        var value := config[setting];
        if value != NoneValue {
          var inRange := InRange(value, minVal, maxVal);
          if inRange.None? {
            NumericRaiseStays(checks, i + 1, config);
            return warnings', true;
          }
          if !inRange.value {
            warnings' := warnings' + [OutOfRange(setting, value, minVal, maxVal)];
          }
        }
      }
      i := i + 1;
    }
    assert checks[..i] == checks;
  }

  /** Once a comparison has raised, the longer prefixes raise too. */
  lemma {:induction false} NumericRaiseStays(checks: seq<(string, int, int)>, n: nat, config: ConfigDict)
    requires n <= |checks| && NumericWarnings(checks[..n], config).None?
    ensures NumericWarnings(checks, config).None?
    decreases |checks| - n
  {
    if n < |checks| {
      assert checks[..n + 1][..n] == checks[..n];
      NumericRaiseStays(checks, n + 1, config);
    } else {
      assert checks[..n] == checks;
    }
  }

  /** `_validate_file_existence(config_dict, warnings)` with `os.path.exists` as `pathExists`. */
  method ValidateFileExistence(config: ConfigDict, warnings: seq<Diagnostic>, pathExists: ConfigValue -> Option<bool>)
    returns (warnings': seq<Diagnostic>, raised: bool)
    ensures raised <==> FileWarnings(config, pathExists).None?
    ensures !raised ==> warnings' == warnings + FileWarnings(config, pathExists).value
  {
    warnings', raised := warnings, false;
    ghost var source := FileCheck(Get(config, "open_update"), PathSetting(config, "source_file"), SourceFile, Get(config, "source_file"), pathExists);
    ghost var local := FileCheck(Get(config, "open_local"), PathSetting(config, "local_file"), LocalFile, Get(config, "local_file"), pathExists);
    ghost var subscribe := FileCheck(Get(config, "open_subscribe"), TextValue(SubscribeFilePath), SubscribeFile, Some(TextValue(SubscribeFilePath)), pathExists);
    if Truthy(Get(config, "open_update")) {
      var found := pathExists(PathSetting(config, "source_file"));
      if found.None? {
        return warnings', true;
      }
      if !found.value {
        warnings' := warnings' + [FileMissing(SourceFile, Get(config, "source_file"))];
      }
    }
    assert warnings' == warnings + source.value;
    if Truthy(Get(config, "open_local")) {
      var found := pathExists(PathSetting(config, "local_file"));
      if found.None? {
        return warnings', true;
      }
      if !found.value {
        warnings' := warnings' + [FileMissing(LocalFile, Get(config, "local_file"))];
      }
    }
    assert warnings' == warnings + source.value + local.value;
    if Truthy(Get(config, "open_subscribe")) {
      var found := pathExists(TextValue(SubscribeFilePath));
      if found.None? {
        return warnings', true;
      }
      if !found.value {
        warnings' := warnings' + [FileMissing(SubscribeFile, Some(TextValue(SubscribeFilePath)))];
      }
    }
    assert warnings' == warnings + source.value + local.value + subscribe.value;
    ConcatAssociative(warnings, source.value + local.value, subscribe.value);
    ConcatAssociative(warnings, source.value, local.value);
  }

  /** `validate_all(config_dict)`. */
  method ValidateAll(config: ConfigDict, pathExists: ConfigValue -> Option<bool>) returns (valid: bool, messages: seq<Diagnostic>)
    ensures (valid, messages) == Validation(config, pathExists)
  {
    var errors := ValidateRequiredSettings(config, []);
    var warnings := ValidateBooleanSettings(config, []);
    var raised;
    warnings, raised := ValidateNumericSettings(config, warnings);
    if raised {
      return false, [ValidationFailed];
    }
    warnings, raised := ValidateFileExistence(config, warnings, pathExists);
    if raised {
      return false, [ValidationFailed];
    }
    valid, messages := |errors| == 0, errors + warnings;
    ghost var booleans := BooleanWarnings(BooleanSettings, config);
    ghost var numeric := NumericWarnings(NumericSettings, config).value;
    ghost var files := FileWarnings(config, pathExists).value;
    assert [] + booleans == booleans;
    assert [] + MissingSettings(RequiredSettings, config) == errors;
    assert warnings == booleans + numeric + files;
    ConcatAssociative(errors, booleans + numeric, files);
    ConcatAssociative(errors, booleans, numeric);
    assert NumericWarnings(NumericSettings, config) == Some(numeric);
    assert FileWarnings(config, pathExists) == Some(files);
    assert errors == MissingSettings(RequiredSettings, config);
    assert Validation(config, pathExists) == (errors == [], errors + booleans + numeric + files);
  }

  /**
   * One existence check raises exactly when it is switched on and the test
   * raises; otherwise it warns, once, exactly when it is switched on and the
   * file is missing.
   */
  lemma FileCheckExactly(switch: Option<ConfigValue>, path: ConfigValue, role: FileRole, shown: Option<ConfigValue>,
                         pathExists: ConfigValue -> Option<bool>)
    ensures FileCheck(switch, path, role, shown, pathExists).None? <==> Truthy(switch) && pathExists(path).None?
    ensures FileCheck(switch, path, role, shown, pathExists).Some? ==>
      FileCheck(switch, path, role, shown, pathExists).value ==
        if Truthy(switch) && pathExists(path) == Some(false) then [FileMissing(role, shown)] else []
  {
  }

  /**
   * `_validate_file_existence` raises exactly when a switched-on check's
   * existence test raises. Otherwise it warns about the source file, the
   * local file and the subscription file exactly when that check is on
   * and the file is missing, each at most once and in that order, and
   * reports nothing else.
   */
  lemma FileWarningsExactly(config: ConfigDict, pathExists: ConfigValue -> Option<bool>)
    ensures FileWarnings(config, pathExists).None? <==>
      || (Truthy(Get(config, "open_update")) && pathExists(PathSetting(config, "source_file")).None?)
      || (Truthy(Get(config, "open_local")) && pathExists(PathSetting(config, "local_file")).None?)
      || (Truthy(Get(config, "open_subscribe")) && pathExists(TextValue(SubscribeFilePath)).None?)
    ensures FileWarnings(config, pathExists).Some? ==>
      FileWarnings(config, pathExists).value ==
        (if Truthy(Get(config, "open_update")) && pathExists(PathSetting(config, "source_file")) == Some(false)
         then [FileMissing(SourceFile, Get(config, "source_file"))] else [])
        + (if Truthy(Get(config, "open_local")) && pathExists(PathSetting(config, "local_file")) == Some(false)
           then [FileMissing(LocalFile, Get(config, "local_file"))] else [])
        + (if Truthy(Get(config, "open_subscribe")) && pathExists(TextValue(SubscribeFilePath)) == Some(false)
           then [FileMissing(SubscribeFile, Some(TextValue(SubscribeFilePath)))] else [])
  {
    FileCheckExactly(Get(config, "open_update"), PathSetting(config, "source_file"), SourceFile, Get(config, "source_file"), pathExists);
    FileCheckExactly(Get(config, "open_local"), PathSetting(config, "local_file"), LocalFile, Get(config, "local_file"), pathExists);
    FileCheckExactly(Get(config, "open_subscribe"), TextValue(SubscribeFilePath), SubscribeFile, Some(TextValue(SubscribeFilePath)), pathExists);
  }

  /** A source-file warning is reported exactly when updating is on and the source file is missing. */
  lemma SourceFileWarning(config: ConfigDict, pathExists: ConfigValue -> Option<bool>)
    requires FileWarnings(config, pathExists).Some?
    ensures FileMissing(SourceFile, Get(config, "source_file")) in FileWarnings(config, pathExists).value <==>
      Truthy(Get(config, "open_update")) && pathExists(PathSetting(config, "source_file")) == Some(false)
    ensures forall d :: d in FileWarnings(config, pathExists).value ==> d.FileMissing?
  {
    FileWarningsExactly(config, pathExists);
  }

  /** A missing-setting error is reported exactly for each listed name the dictionary lacks, and only such errors. */
  lemma {:induction false} MissingSettingsExactly(names: seq<string>, config: ConfigDict)
    ensures forall d :: d in MissingSettings(names, config) ==> d.MissingSetting?
    ensures forall s :: MissingSetting(s) in MissingSettings(names, config) <==> s in names && s !in config
    decreases |names|
  {
    if names != [] {
      MissingSettingsExactly(names[..|names| - 1], config);
      LastSplit(names);
    }
  }

  /** There are no errors exactly when every listed setting is present. */
  lemma NoMissingSettings(names: seq<string>, config: ConfigDict)
    ensures MissingSettings(names, config) == [] <==> forall s :: s in names ==> s in config
  {
    MissingSettingsExactly(names, config);
    var m := MissingSettings(names, config);
    if m != [] {
      assert m[0] in m;
      assert MissingSetting(m[0].name) in m;
    }
  }

  /** A boolean warning is reported exactly for each listed setting present with a value that is not a boolean. */
  lemma {:induction false} BooleanWarningsExactly(names: seq<string>, config: ConfigDict)
    ensures forall d :: d in BooleanWarnings(names, config) ==> d.NotBoolean?
    ensures forall s, v :: NotBoolean(s, v) in BooleanWarnings(names, config) <==>
      s in names && s in config && config[s] == v && !v.BoolValue?
    decreases |names|
  {
    if names != [] {
      BooleanWarningsExactly(names[..|names| - 1], config);
      LastSplit(names);
    }
  }

  /**
   * The range check raises exactly when some checked setting holds a value
   * other than `None` that cannot be compared with a number.
   */
  lemma {:induction false} NumericRaises(checks: seq<(string, int, int)>, config: ConfigDict)
    ensures NumericWarnings(checks, config).None? <==>
      exists j :: 0 <= j < |checks| && checks[j].0 in config && config[checks[j].0] != NoneValue
        && InRange(config[checks[j].0], checks[j].1, checks[j].2).None?
    decreases |checks|
  {
    if checks != [] {
      var init := checks[..|checks| - 1];
      NumericRaises(init, config);
      assert forall j :: 0 <= j < |init| ==> init[j] == checks[j];
    }
  }

  /**
   * Without a raise, a range warning is reported exactly for each checked
   * setting present with a value outside its bounds, both bounds included.
   */
  lemma {:induction false} NumericWarningsExactly(checks: seq<(string, int, int)>, config: ConfigDict)
    requires NumericWarnings(checks, config).Some?
    ensures forall d :: d in NumericWarnings(checks, config).value ==> d.OutOfRange?
    ensures forall s, v, lo, hi :: OutOfRange(s, v, lo, hi) in NumericWarnings(checks, config).value <==>
      (s, lo, hi) in checks && s in config && config[s] == v && v != NoneValue && InRange(v, lo, hi) == Some(false)
    decreases |checks|
  {
    if checks != [] {
      var init := checks[..|checks| - 1];
      var (name, lo, hi) := checks[|checks| - 1];
      NumericWarningsExactly(init, config);
      NumericStep(checks, config);
      var before := NumericWarnings(init, config).value;
      var added := CheckWarnings(name, lo, hi, config);
      LastSplit(checks);
      forall s, v, lo', hi'
        ensures OutOfRange(s, v, lo', hi') in before + added <==>
          (s, lo', hi') in checks && s in config && config[s] == v && v != NoneValue && InRange(v, lo', hi') == Some(false)
      {
        assert (s, lo', hi') in checks <==> (s, lo', hi') in init || (s, lo', hi') == (name, lo, hi);
      }
    }
  }

  /** The warning a single check adds when it does not raise. */
  function CheckWarnings(name: string, lo: int, hi: int, config: ConfigDict): seq<Diagnostic>
  {
    if name in config && config[name] != NoneValue && InRange(config[name], lo, hi) == Some(false)
    then [OutOfRange(name, config[name], lo, hi)]
    else []
  }

  /** Without a raise, the last check appends its own warning to those of the others. */
  lemma NumericStep(checks: seq<(string, int, int)>, config: ConfigDict)
    requires checks != [] && NumericWarnings(checks, config).Some?
    ensures NumericWarnings(checks[..|checks| - 1], config).Some?
    ensures var (name, lo, hi) := checks[|checks| - 1];
      NumericWarnings(checks, config).value
        == NumericWarnings(checks[..|checks| - 1], config).value + CheckWarnings(name, lo, hi, config)
  {
  }

  /** The bounds are inclusive: a number at either end, or between them, is in range. */
  lemma InclusiveBounds(n: int, lo: int, hi: int)
    ensures InRange(IntValue(n), lo, hi) == Some(true) <==> lo <= n <= hi
    ensures InRange(RealValue(n as real), lo, hi) == InRange(IntValue(n), lo, hi)
    ensures InRange(BoolValue(n == 1), lo, hi) == InRange(IntValue(if n == 1 then 1 else 0), lo, hi)
  {
  }

  /**
   * `validate_all` answers valid exactly when no comparison raised and every
   * required setting is present; otherwise its report either is the single
   * failure or starts with the missing-setting errors.
   */
  lemma ValidationVerdict(required: seq<string>, booleanNames: seq<string>, checks: seq<(string, int, int)>,
                          files: Option<seq<Diagnostic>>, config: ConfigDict)
    ensures ValidationOf(required, booleanNames, checks, files, config).0 <==>
      && NumericWarnings(checks, config).Some?
      && files.Some?
      && forall s :: s in required ==> s in config
    ensures var (valid, messages) := ValidationOf(required, booleanNames, checks, files, config);
      !valid && messages != [ValidationFailed] ==>
        messages[..|MissingSettings(required, config)|] == MissingSettings(required, config)
        && MissingSettings(required, config) != []
  {
    NoMissingSettings(required, config);
    var errors := MissingSettings(required, config);
    if NumericWarnings(checks, config).Some? && files.Some? {
      var rest := BooleanWarnings(booleanNames, config) + NumericWarnings(checks, config).value + files.value;
      assert ValidationOf(required, booleanNames, checks, files, config).1 == errors + rest;
      assert (errors + rest)[..|errors|] == errors;
    }
  }
}
