/**
 * The configuration values: `DefaultConfig`'s defaults, stored as
 * `EnhancedConfig`'s lower-case attributes, and
 * `EnhancedConfig._convert_value`, which turns the text of one
 * `[Settings]` entry into a typed value.
 */
module Config {
  import opened Wrappers
  import opened Strings
  import opened Decimal

  /**
   * A configuration value. `NoneValue` is Python's `None`, which a
   * dictionary handed to the validator may hold.
   */
  datatype ConfigValue =
    | BoolValue(b: bool)
    | IntValue(i: int)
    | RealValue(r: real)
    | TextValue(s: string)
    | ListValue(items: seq<string>)
    | NoneValue

  /**
   * `DefaultConfig`'s attributes in declaration order, under the
   * lower-case names `_setup_defaults` gives them: the `defaults` table
   * the conversion below consults.
   */
  const DefaultTable: seq<(string, ConfigValue)> := [
    ("open_driver", BoolValue(false)), ("open_epg", BoolValue(false)),
    ("open_empty_category", BoolValue(false)), ("open_filter_resolution", BoolValue(true)),
    ("open_filter_speed", BoolValue(true)), ("open_hotel", BoolValue(false)),
    ("open_hotel_foodie", BoolValue(true)), ("open_hotel_fofa", BoolValue(false)),
    ("open_local", BoolValue(true)), ("open_m3u_result", BoolValue(true)),
    ("open_multicast", BoolValue(false)), ("open_multicast_foodie", BoolValue(true)),
    ("open_multicast_fofa", BoolValue(false)), ("open_request", BoolValue(false)),
    ("open_rtmp", BoolValue(true)), ("open_service", BoolValue(true)),
    ("open_speed_test", BoolValue(true)), ("open_subscribe", BoolValue(true)),
    ("open_supply", BoolValue(true)), ("open_update", BoolValue(true)),
    ("open_update_time", BoolValue(true)), ("open_url_info", BoolValue(false)),
    ("open_use_cache", BoolValue(true)), ("open_history", BoolValue(true)),
    ("open_headers", BoolValue(false)), ("speed_test_filter_host", BoolValue(false)),
    ("ipv6_support", BoolValue(false)),
    ("app_host", TextValue("http://localhost")), ("app_port", IntValue(8000)),
    ("cdn_url", TextValue("")),
    ("final_file", TextValue("output/result.txt")), ("local_file", TextValue("config/local.txt")),
    ("source_file", TextValue("config/demo.txt")),
    ("hotel_num", IntValue(10)), ("hotel_page_num", IntValue(1)),
    ("multicast_num", IntValue(10)), ("multicast_page_num", IntValue(1)),
    ("local_num", IntValue(10)), ("subscribe_num", IntValue(10)), ("urls_limit", IntValue(10)),
    ("hotel_region_list", TextValue("全部")), ("multicast_region_list", TextValue("全部")),
    ("isp", TextValue("")), ("ipv4_num", TextValue("")), ("ipv6_num", TextValue("")),
    ("ipv_type", TextValue("全部")), ("ipv_type_prefer", TextValue("auto")),
    ("location", TextValue("")),
    ("min_resolution", TextValue("1920x1080")), ("max_resolution", TextValue("1920x1080")),
    ("min_speed", RealValue(0.5)),
    ("recent_days", IntValue(30)), ("request_timeout", IntValue(10)),
    ("speed_test_limit", IntValue(10)), ("speed_test_timeout", IntValue(10)),
    ("time_zone", TextValue("Asia/Shanghai")), ("update_interval", IntValue(12)),
    ("update_time_position", TextValue("top"))]

  /** `DefaultConfig.MIN_SPEED`, the one real-valued default. */
  const MinSpeedDefault: real := 0.5

  /** The value of the first entry named `name`, if there is one. */
  function Lookup(table: seq<(string, ConfigValue)>, name: string): Option<ConfigValue>
  {
    if table == [] then None
    else if table[0].0 == name then Some(table[0].1)
    else Lookup(table[1..], name)
  }

  /** A lookup finds an entry of that name exactly when the table has one, and the first one. */
  lemma {:induction false} LookupFinds(table: seq<(string, ConfigValue)>, name: string)
    ensures Lookup(table, name).None? <==> forall j :: 0 <= j < |table| ==> table[j].0 != name
    ensures Lookup(table, name).Some? ==>
      exists j :: 0 <= j < |table| && table[j] == (name, Lookup(table, name).value)
        && forall k :: 0 <= k < j ==> table[k].0 != name
    decreases |table|
  {
    if table != [] && table[0].0 != name {
      LookupFinds(table[1..], name);
      assert forall j :: 1 <= j < |table| ==> table[j] == table[1..][j - 1];
      if Lookup(table, name).Some? {
        var j :| 0 <= j < |table[1..]| && table[1..][j] == (name, Lookup(table, name).value)
          && forall k :: 0 <= k < j ==> table[1..][k].0 != name;
        assert table[j + 1] == (name, Lookup(table, name).value);
      }
    } else if table != [] {
      assert table[0] == (name, Lookup(table, name).value);
    }
  }

  /**
   * `getattr(DefaultConfig, key.upper())` when that attribute exists, with
   * `DefaultConfig` given as `defaults` (`DefaultTable`). The attribute
   * names are upper case, so `key.upper()` names one exactly when
   * lower-casing it gives that attribute's lower-case name.
   */
  function DefaultValue(defaults: seq<(string, ConfigValue)>, key: string): Option<ConfigValue>
  {
    Lookup(defaults, LowerCase(UpperCase(key)))
  }

  /** The spellings `_convert_value` reads as true, once lower-cased. */
  const TrueWords: seq<string> := ["true", "yes", "1", "on"]

  /** `key.startswith('open_')`, written character by character. */
  predicate HasOpenPrefix(key: string)
  {
    |key| >= 5 && key[0] == 'o' && key[1] == 'p' && key[2] == 'e' && key[3] == 'n' && key[4] == '_'
  }

  /** The keys converted to booleans. */
  predicate IsBooleanKey(key: string)
  {
    HasOpenPrefix(key) || key == "ipv6_support" || key == "speed_test_filter_host"
  }

  /** The keys converted with `int()`. */
  const IntegerKeys: seq<string> := [
    "app_port", "hotel_num", "hotel_page_num", "multicast_num",
    "multicast_page_num", "local_num", "subscribe_num", "urls_limit",
    "speed_test_limit", "speed_test_timeout", "request_timeout",
    "update_interval", "recent_days"]

  /** The keys converted to region lists. */
  const RegionKeys: seq<string> := ["hotel_region_list", "multicast_region_list"]

  /** The region list meaning every region. */
  const AllRegions: string := "全部"

  /** `[item.strip() for item in parts if item.strip()]`. */
  function RegionItems(parts: seq<string>): seq<string>
  {
    if parts == [] then []
    else
      var item := Strip(parts[|parts| - 1]);
      RegionItems(parts[..|parts| - 1]) + (if item != [] then [item] else [])
  }

  /** The conversion `_convert_value` applies to a non-blank value, chosen by the key in its order of tests. */
  datatype KeyKind = BooleanKey | IntegerKey | RealKey | RegionKey | TextKey

  function KindOf(key: string): KeyKind
  {
    if IsBooleanKey(key) then BooleanKey
    else if key in IntegerKeys then IntegerKey
    else if key == "min_speed" then RealKey
    else if key in RegionKeys then RegionKey
    else TextKey
  }

  /**
   * `EnhancedConfig._convert_value(key, value)`, with `DefaultConfig` as
   * `defaults` (`DefaultTable`). A `float()` conversion is the parameter
   * `parseFloat`, with `None` for the `ValueError` it raises.
   */
  function ConvertValue(defaults: seq<(string, ConfigValue)>, key: string, value: string, parseFloat: string -> Option<real>): ConfigValue
  {
    if Strip(value) == [] then
      match DefaultValue(defaults, key)
      case Some(d) => d
      case None => TextValue("")
    else
      match KindOf(key)
      case BooleanKey => BoolValue(LowerCase(value) in TrueWords)
      case IntegerKey =>
        (match ParseInt(value)
         case Some(i) => IntValue(i)
         case None =>
           match DefaultValue(defaults, key)
           case Some(d) => d
           case None => IntValue(0))
      case RealKey =>
        (match parseFloat(value)
         case Some(r) => RealValue(r)
         case None => RealValue(MinSpeedDefault))
      case RegionKey =>
        if value == AllRegions then ListValue([AllRegions]) else ListValue(RegionItems(Split(value, ',')))
      case TextKey => TextValue(value)
  }

  /** A value that is empty or only whitespace gives the key's default, or `''` for a key without one. */
  lemma BlankGivesDefault(defaults: seq<(string, ConfigValue)>, key: string, value: string, parseFloat: string -> Option<real>)
    requires AllSpace(value)
    ensures ConvertValue(defaults, key, value, parseFloat) == if DefaultValue(defaults, key).Some? then DefaultValue(defaults, key).value else TextValue("")
  {
    StripEmpty(value);
  }

  /**
   * A boolean key with a non-blank value is true exactly when the value,
   * lower-cased, is `true`, `yes`, `1` or `on`, and false otherwise.
   */
  lemma BooleanWords(defaults: seq<(string, ConfigValue)>, key: string, value: string, parseFloat: string -> Option<real>)
    requires IsBooleanKey(key) && !AllSpace(value)
    ensures ConvertValue(defaults, key, value, parseFloat) == BoolValue(true) <==> LowerCase(value) in TrueWords
    ensures ConvertValue(defaults, key, value, parseFloat) == BoolValue(false) <==> LowerCase(value) !in TrueWords
  {
    StripEmpty(value);
  }

  /** The boolean spellings are read without regard to letter case. */
  lemma BooleanIgnoresCase(defaults: seq<(string, ConfigValue)>, key: string, value: string, parseFloat: string -> Option<real>)
    requires IsBooleanKey(key)
    ensures ConvertValue(defaults, key, UpperCase(value), parseFloat) == ConvertValue(defaults, key, value, parseFloat)
  {
    UpperKeepsWords(value);
    StripEmpty(value);
    StripEmpty(UpperCase(value));
  }

  /** Upper-casing changes neither what lower-casing gives nor whether the text is blank. */
  lemma UpperKeepsWords(value: string)
    ensures LowerCase(UpperCase(value)) == LowerCase(value)
    ensures AllSpace(UpperCase(value)) <==> AllSpace(value)
  {
    var upper := UpperCase(value);
    forall k | 0 <= k < |value| ensures IsSpace(upper[k]) <==> IsSpace(value[k]) {
    }
    assert LowerCase(upper) == LowerCase(value);
  }

  /**
   * What tells the integer keys apart from the keys tested before them
   * and from the region keys: their first letter and their length.
   */
  lemma IntegerKeyShape(key: string)
    requires key in IntegerKeys
    ensures key[0] != 'o' && key[0] != 'i' && |key| != 22 && |key| != 17 && |key| != 21
  {
  }

  /** The integer keys take the integer conversion. */
  lemma IntegerKind(key: string)
    requires key in IntegerKeys
    ensures KindOf(key) == IntegerKey
  {
    IntegerKeyShape(key);
  }

  /** `int(str(i)) == i` carries over: an integer key reads back the integer it was written with. */
  lemma IntegerRoundTrip(defaults: seq<(string, ConfigValue)>, key: string, i: int, parseFloat: string -> Option<real>)
    requires key in IntegerKeys
    ensures ConvertValue(defaults, key, IntToString(i), parseFloat) == IntValue(i)
  {
    var s := IntToString(i);
    assert !IsSpace(s[0]);
    StripEmpty(s);
    IntegerKind(key);
    ParseIntToString(i);
  }

  /** An integer key takes whatever integer `int()` reads from the value, surrounding whitespace included. */
  lemma IntegerKeysParse(defaults: seq<(string, ConfigValue)>, key: string, value: string, parseFloat: string -> Option<real>)
    requires key in IntegerKeys
    ensures forall i :: ParseInt(value) == Some(i) ==> ConvertValue(defaults, key, value, parseFloat) == IntValue(i)
  {
    IntegerKind(key);
    if Strip(value) == [] {
      assert ParseSigned([]) == None;
    }
  }

  /** The region keys take the list conversion. */
  lemma RegionKind(key: string)
    requires key in RegionKeys
    ensures KindOf(key) == RegionKey
  {
    assert key[0] != 'o' && key[0] != 'i' && (|key| == 17 || |key| == 21);
    if key in IntegerKeys {
      IntegerKeyShape(key);
    }
  }

  /** `全部` stands for every region. */
  lemma RegionAll(defaults: seq<(string, ConfigValue)>, key: string, parseFloat: string -> Option<real>)
    requires KindOf(key) == RegionKey
    ensures ConvertValue(defaults, key, AllRegions, parseFloat) == ListValue([AllRegions])
  {
    assert !IsSpace(AllRegions[0]);
    StripEmpty(AllRegions);
  }

  /** The region items are the non-empty stripped pieces, in order. */
  lemma {:induction false} RegionItemsAre(parts: seq<string>)
    ensures forall x :: x in RegionItems(parts) ==> x != [] && IsStripped(x)
    ensures forall x :: x in RegionItems(parts) <==> x != [] && exists p :: p in parts && Strip(p) == x
    decreases |parts|
  {
    if parts != [] {
      var init := parts[..|parts| - 1];
      RegionItemsAre(init);
      LastSplit(parts);
    }
  }

  /** Pieces that are already non-empty and stripped are kept as they are. */
  lemma {:induction false} RegionItemsKeep(parts: seq<string>)
    requires forall j :: 0 <= j < |parts| ==> parts[j] != [] && IsStripped(parts[j])
    ensures RegionItems(parts) == parts
    decreases |parts|
  {
    if parts != [] {
      RegionItemsKeep(parts[..|parts| - 1]);
      StripIdem(parts[|parts| - 1]);
      LastSplit(parts);
    }
  }

  /** The items of a comma-separated text are non-empty, stripped and free of commas. */
  lemma RegionItemsClean(value: string)
    ensures forall x :: x in RegionItems(Split(value, ',')) ==> x != [] && IsStripped(x) && ',' !in x
  {
    var parts := Split(value, ',');
    RegionItemsAre(parts);
    SplitPiecesClean(value, ',');
    forall x | x in RegionItems(parts) ensures ',' !in x {
      var p :| p in parts && Strip(p) == x;
      StripChars(p);
    }
  }

  /**
   * Any other non-blank region value gives a list of non-empty, stripped
   * items without commas: the pieces between commas, stripped, blanks dropped.
   */
  lemma RegionList(defaults: seq<(string, ConfigValue)>, key: string, value: string, parseFloat: string -> Option<real>)
    requires KindOf(key) == RegionKey && !AllSpace(value) && value != AllRegions
    ensures ConvertValue(defaults, key, value, parseFloat) == ListValue(RegionItems(Split(value, ',')))
    ensures forall x :: x in ConvertValue(defaults, key, value, parseFloat).items ==> x != [] && IsStripped(x) && ',' !in x
  {
    StripEmpty(value);
    RegionItemsClean(value);
  }

  /** Joining clean items with commas gives a non-blank text whose items are those items. */
  lemma JoinedRegions(items: seq<string>)
    requires items != []
    requires forall j :: 0 <= j < |items| ==> items[j] != [] && IsStripped(items[j]) && ',' !in items[j]
    ensures !AllSpace(Join(items, ','))
    ensures Join(items, ',') == AllRegions ==> items == [AllRegions]
    ensures RegionItems(Split(Join(items, ','), ',')) == items
  {
    var text := Join(items, ',');
    JoinStartsWith(items, ',');
    assert text[0] == items[0][0];
    SplitJoin(items, ',');
    RegionItemsKeep(items);
    JoinHasSeparator(items, ',');
    if text == AllRegions {
      assert ',' !in text;
    }
  }

  /** Items that a region list can hold: non-empty, stripped and free of commas. */
  predicate CleanItems(items: seq<string>)
  {
    items == [] || (items[0] != [] && IsStripped(items[0]) && ',' !in items[0] && CleanItems(items[1..]))
  }

  lemma {:induction false} CleanItemsAll(items: seq<string>)
    requires CleanItems(items)
    ensures forall j :: 0 <= j < |items| ==> items[j] != [] && IsStripped(items[j]) && ',' !in items[j]
    decreases |items|
  {
    if items != [] {
      CleanItemsAll(items[1..]);
      assert forall j :: 1 <= j < |items| ==> items[j] == items[1..][j - 1];
    }
  }

  /** A list of clean items written back as comma-separated text reads as the same list. */
  lemma RegionRoundTrip(defaults: seq<(string, ConfigValue)>, key: string, items: seq<string>, parseFloat: string -> Option<real>)
    requires KindOf(key) == RegionKey && items != [] && CleanItems(items)
    ensures ConvertValue(defaults, key, Join(items, ','), parseFloat) == ListValue(items)
  {
    var text := Join(items, ',');
    assert !AllSpace(text) && (text == AllRegions ==> items == [AllRegions]) && RegionItems(Split(text, ',')) == items by {
      CleanItemsAll(items);
      JoinedRegions(items);
    }
    RegionTextReads(defaults, key, text, items, parseFloat);
  }

  lemma RegionTextReads(defaults: seq<(string, ConfigValue)>, key: string, text: string, items: seq<string>, parseFloat: string -> Option<real>)
    requires KindOf(key) == RegionKey && !AllSpace(text)
    requires text == AllRegions ==> items == [AllRegions]
    requires RegionItems(Split(text, ',')) == items
    ensures ConvertValue(defaults, key, text, parseFloat) == ListValue(items)
  {
    if text == AllRegions {
      RegionAll(defaults, key, parseFloat);
    } else {
      RegionList(defaults, key, text, parseFloat);
    }
  }
}
