/** The weather entity's projections of the stored data: its identity
    (unique id, name, enabled by default), the current condition, the native
    attributes and the forecast lists handed to the host. The tables
    CONDITIONS_MAP, FORECAST_MAP and ATTR_MAP are parameters. */
module Weather {
  import opened Common
  import Integration

  const DefaultName := "MeteoAM"

  /** ATTR_FORECAST_CONDITION of the host's weather platform. */
  const ForecastCondition := "condition"

  /** The raw keys a forecast item must have to be projected. */
  const RequiredKeys: set<string> := {"2t", "localDateTime"}

  /** CONDITIONS_MAP: condition names, in table order, each with the set of
      provider codes it stands for. */
  type ConditionTable = seq<(string, set<Value>)>

  /** `_calculate_unique_id`: "home" for an entry that tracks home, else
      "{latitude}-{longitude}"; "-hourly" is appended for the hourly entity. */
  function UniqueId(config: Config, hourly: bool, str: real -> string): (id: string)
    ensures config.trackHome ==> id == "home" + (if hourly then "-hourly" else "")
    ensures !config.trackHome ==>
      id == str(config.latitude) + "-" + str(config.longitude) + (if hourly then "-hourly" else "")
  {
    var appendix := if hourly then "-hourly" else "";
    if config.trackHome then "home" + appendix
    else str(config.latitude) + "-" + str(config.longitude) + appendix
  }

  /** The hourly entity's id is the daily entity's id followed by "-hourly",
      so the two ids of one entry never coincide. */
  lemma HourlyUniqueId(config: Config, str: real -> string)
    ensures UniqueId(config, true, str) == UniqueId(config, false, str) + "-hourly"
    ensures UniqueId(config, true, str) != UniqueId(config, false, str)
  {
  }

  /** `format_condition`: the first condition name, in table order, whose
      codes contain `condition`; `condition` itself when none does. */
  function FormatCondition(table: ConditionTable, condition: Value): (r: Value)
    ensures (forall i :: 0 <= i < |table| ==> condition !in table[i].1) ==> r == condition
    ensures forall i ::
      (0 <= i < |table| && condition in table[i].1 && forall j :: 0 <= j < i ==> condition !in table[j].1)
      ==> r == Text(table[i].0)
    decreases |table|
  {
    if |table| == 0 then condition
    else if condition in table[0].1 then Text(table[0].0)
    else
      var r := FormatCondition(table[1..], condition);
      assert forall i :: 1 <= i < |table| ==> table[1..][i - 1] == table[i];
      r
  }

  /** The `name` property: the configured name, else the home location's name
      when tracking home, else "MeteoAM"; " hourly" appended for the hourly
      entity. */
  function Name(config: Config, hourly: bool, locationName: string): (n: string)
    ensures config.name.Some? ==> n == config.name.value + (if hourly then " hourly" else "")
    ensures config.name.None? && config.trackHome ==> n == locationName + (if hourly then " hourly" else "")
    ensures config.name.None? && !config.trackHome ==> n == DefaultName + (if hourly then " hourly" else "")
  {
    var appendix := if hourly then " hourly" else "";
    if config.name.Some? then config.name.value + appendix
    else if config.trackHome then locationName + appendix
    else DefaultName + appendix
  }

  /** In every case the hourly entity's name is the other one's plus " hourly". */
  lemma HourlyName(config: Config, locationName: string)
    ensures Name(config, true, locationName) == Name(config, false, locationName) + " hourly"
  {
  }

  /** `entity_registry_enabled_default`: only the daily entity starts enabled. */
  function EnabledByDefault(hourly: bool): (enabled: bool)
    ensures enabled <==> !hourly
  {
    !hourly
  }

  /** The `condition` property: None when the current record has no icon or
      a null one, else the icon through `format_condition`. */
  function Condition(current: Record, table: ConditionTable): (r: Option<Value>)
    ensures r.None? <==> ("icon" !in current || current["icon"] == Null)
    ensures "icon" in current && current["icon"] != Null ==> r == Some(FormatCondition(table, current["icon"]))
  {
    var icon := if "icon" in current then current["icon"] else Null;
    if icon == Null then None else Some(FormatCondition(table, icon))
  }

  /** The native attribute getters (`native_temperature` and the rest): the
      current record's value under the raw key ATTR_MAP gives for `attr`,
      null when the record lacks it. */
  function NativeAttribute(current: Record, attrMap: map<string, string>, attr: string): (r: Value)
    requires attr in attrMap
    ensures attrMap[attr] in current ==> r == current[attrMap[attr]]
    ensures attrMap[attr] !in current ==> r == Null
  {
    if attrMap[attr] in current then current[attrMap[attr]] else Null
  }

  predicate HasRequiredKeys(raw: Record) {
    RequiredKeys <= raw.Keys
  }

  /** One projected forecast item: each FORECAST_MAP key whose raw field is
      present and not null, holding that field; a truthy condition is then
      passed through `format_condition`. */
  function ProjectItem(raw: Record, forecastMap: map<string, string>, table: ConditionTable): (item: Record)
    ensures item.Keys == set k | k in forecastMap && forecastMap[k] in raw && raw[forecastMap[k]] != Null
    ensures forall k :: k in item && k != ForecastCondition ==> item[k] == raw[forecastMap[k]]
    ensures ForecastCondition in item ==>
      var v := raw[forecastMap[ForecastCondition]];
      item[ForecastCondition] == if Truthy(v) then FormatCondition(table, v) else v
  {
    var base := map k | k in forecastMap && forecastMap[k] in raw && raw[forecastMap[k]] != Null :: raw[forecastMap[k]];
    if ForecastCondition in base && Truthy(base[ForecastCondition])
    then base[ForecastCondition := FormatCondition(table, base[ForecastCondition])]
    else base
  }

  /** The forecast list `_forecast` returns for the raw list `raws`. */
  function ForecastOf(raws: seq<Record>, forecastMap: map<string, string>, table: ConditionTable): (out: seq<Record>)
    ensures |out| <= |raws|
  {
    if |raws| == 0 then []
    else
      var last := raws[|raws| - 1];
      ForecastOf(raws[..|raws| - 1], forecastMap, table) +
        (if HasRequiredKeys(last) then [ProjectItem(last, forecastMap, table)] else [])
  }

  /** The forecast is the order-preserving image of the raw items that have
      both required keys, and of no others. */
  lemma {:induction false} ForecastSelects(raws: seq<Record>, forecastMap: map<string, string>, table: ConditionTable)
    ensures var out := ForecastOf(raws, forecastMap, table); var kept := Indices(raws, HasRequiredKeys);
      && |out| == |kept|
      && forall j :: 0 <= j < |kept| ==>
           kept[j] < |raws| && out[j] == ProjectItem(raws[kept[j]], forecastMap, table)
  {
    if |raws| > 0 {
      var init := raws[..|raws| - 1];
      ForecastSelects(init, forecastMap, table);
      IndicesSpec(init, HasRequiredKeys);
      assert forall i :: 0 <= i < |init| ==> init[i] == raws[i];
    }
  }

  /** `_forecast`: project the hourly or the daily list of `data`. */
  method Forecast(data: Integration.WeatherData, hourly: bool, forecastMap: map<string, string>, table: ConditionTable)
    returns (haForecast: seq<Record>)
    ensures haForecast == ForecastOf(if hourly then data.hourlyForecast else data.dailyForecast, forecastMap, table)
  {
    var rawForecast := if hourly then data.hourlyForecast else data.dailyForecast;
    haForecast := [];
    var i := 0;
    while i < |rawForecast|
      invariant 0 <= i <= |rawForecast|
      invariant haForecast == ForecastOf(rawForecast[..i], forecastMap, table)
    {
      var rawItem := rawForecast[i];
      assert rawForecast[..i + 1][..i] == rawForecast[..i];
      i := i + 1;
      if !(RequiredKeys <= rawItem.Keys) {
        continue;
      }
      var haItem := map k | k in forecastMap && forecastMap[k] in rawItem && rawItem[forecastMap[k]] != Null :: rawItem[forecastMap[k]];
      if ForecastCondition in haItem && Truthy(haItem[ForecastCondition]) {
        haItem := haItem[ForecastCondition := FormatCondition(table, haItem[ForecastCondition])];
      }
      haForecast := haForecast + [haItem];
    }
    assert rawForecast[..i] == rawForecast;
  }
}
