/** The integration's data holder and update coordinator: `MeteoAMWeatherData`
    (coordinate change detection and the payload normalizer) and the
    subscription guard of `MeteoAMDataUpdateCoordinator`, plus the check that
    refuses to set up an entry without a home location. */
module Integration {
  import opened Common
  import opened Normalize

  /** The stored `{"lat": ..., "lon": ...}` pair, already turned into strings. */
  datatype Coordinates = Coordinates(lat: string, lon: string)

  /** The coordinates `set_coordinates` computes: those of the home location
      when the entry tracks home, the configured ones otherwise, each passed
      through `str`. */
  function ResolveCoordinates(config: Config, homeLat: real, homeLon: real, str: real -> string): (c: Coordinates)
    ensures config.trackHome ==> c == Coordinates(str(homeLat), str(homeLon))
    ensures !config.trackHome ==> c == Coordinates(str(config.latitude), str(config.longitude))
  {
    if config.trackHome then Coordinates(str(homeLat), str(homeLon))
    else Coordinates(str(config.latitude), str(config.longitude))
  }

  /** `async_setup_entry` gives up on an entry that tracks home while the home
      location is unset (latitude and longitude both zero) or still the
      onboarding default. */
  function SkipSetup(config: Config, homeLat: real, homeLon: real, defaultLat: real, defaultLon: real): (skip: bool)
    ensures skip ==> config.trackHome
    ensures config.trackHome && homeLat == 0.0 && homeLon == 0.0 ==> skip
    ensures config.trackHome && homeLat == defaultLat && homeLon == defaultLon ==> skip
    ensures !skip && config.trackHome ==>
      (homeLat != 0.0 || homeLon != 0.0) && (homeLat != defaultLat || homeLon != defaultLon)
  {
    config.trackHome &&
      ((homeLat == 0.0 && homeLon == 0.0) || (homeLat == defaultLat && homeLon == defaultLon))
  }

  /** The weather data of one config entry. */
  class WeatherData {
    const config: Config
    var coordinates: Option<Coordinates>
    var currentWeatherData: Record
    var dailyForecast: seq<Record>
    var hourlyForecast: seq<Record>

    /** The three outputs together. */
    function Snap(): Snapshot
      reads this
    {
      Snapshot(currentWeatherData, dailyForecast, hourlyForecast)
    }

    constructor (config: Config)
      ensures this.config == config && coordinates == None
      ensures Snap() == Snapshot(map[], [], [])
    {
      this.config := config;
      coordinates := None;
      currentWeatherData := map[];
      dailyForecast := [];
      hourlyForecast := [];
    }

    /** `set_coordinates`: store the resolved coordinates and report whether
        they differ from the ones stored before. */
    method SetCoordinates(homeLat: real, homeLon: real, str: real -> string) returns (changed: bool)
      modifies this`coordinates
      ensures coordinates == Some(ResolveCoordinates(config, homeLat, homeLon, str))
      ensures changed <==> old(coordinates) != coordinates
    {
      var latitude, longitude;
      if config.trackHome {
        latitude, longitude := homeLat, homeLon;
      } else {
        latitude, longitude := config.latitude, config.longitude;
      }
      var c := Coordinates(str(latitude), str(longitude));
      if Some(c) == coordinates {
        return false;
      }
      coordinates := Some(c);
      return true;
    }

    /** The parsing part of `fetch_data`, given the HTTP response. */
    method FetchData(resp: Option<Response>, now: Timestamp, iso: Timestamp -> string,
                     parse: Value -> Option<Timestamp>) returns (r: Outcome)
      modifies this`currentWeatherData, this`dailyForecast, this`hourlyForecast
      ensures (Snap(), r) == Refresh(coordinates.Some?, old(Snap()), resp, now, iso, parse)
    {
      if coordinates.None? {
        return Failed(NoCoordinates);
      }
      if resp.None? || resp.value.status != 200 {
        return Failed(CannotConnect);
      }
      if resp.value.body.None? {
        return Failed(InvalidJson);
      }
      var data := resp.value.body.value;
      dailyForecast := [];
      if data.stats.None? {
        return Failed(MissingKey);
      }
      var dailyError := ParseDaily(data.stats.value, parse);
      if dailyError.Some? {
        return Failed(dailyError.value);
      }
      if data.timeseries.None? || data.paramlist.None? {
        return Failed(MissingKey);
      }
      var hourlyOk := ParseHourly(Series(data.timeseries.value, data.paramlist.value, data.datasets), now, iso);
      r := if hourlyOk then Ok else Failed(MissingKey);
    }

    /** The daily loop: rebuild `dailyForecast` from `stats`, appending one
        record per element until an element lacks a key or has a date that
        does not parse; the error is that element's. */
    method ParseDaily(stats: seq<Record>, parse: Value -> Option<Timestamp>) returns (error: Option<FetchError>)
      modifies this`dailyForecast
      ensures dailyForecast == DailyBuilt(stats, parse)
      ensures error.None? <==> |dailyForecast| == |stats|
      ensures error.Some? ==> |dailyForecast| < |stats| && error.value == DailyError(stats[|dailyForecast|], parse)
    {
      dailyForecast := [];
      var i := 0;
      while i < |stats|
        invariant 0 <= i <= |stats|
        invariant |dailyForecast| == i
        invariant forall j :: 0 <= j < i ==> DailyEntry(stats[j], parse) == Some(dailyForecast[j])
      {
        var t := stats[i];
        if "localDate" !in t {
          DailyBuiltUnique(stats, dailyForecast, parse);
          return Some(MissingKey);
        }
        var dt := parse(t["localDate"]);
        if dt.None? {
          DailyBuiltUnique(stats, dailyForecast, parse);
          return Some(InvalidDate);
        }
        if !(StatKeys <= t.Keys) {
          DailyBuiltUnique(stats, dailyForecast, parse);
          return Some(MissingKey);
        }
        var element := map[LocalDateTime := Time(dt.value),
                            "2t" := t["maxCelsius"],
                            "2t_min" := t["minCelsius"],
                            "2tf" := t["maxFahrenheit"],
                            "2tf_min" := t["minFahrenheit"],
                            "icon" := t["icon"]];
        dailyForecast := dailyForecast + [element];
        i := i + 1;
      }
      DailyBuiltUnique(stats, dailyForecast, parse);
      return None;
    }

    /** The timeseries loop: every element with `dt <= now` becomes the current
        record as soon as it is built; the hourly list is collected locally and
        stored only once every element has been built. */
    method ParseHourly(series: Series, now: Timestamp, iso: Timestamp -> string) returns (ok: bool)
      modifies this`currentWeatherData, this`hourlyForecast
      ensures var sc := ScanTo(series, now, iso, old(currentWeatherData), |series.timeseries|);
        && ok == sc.complete
        && currentWeatherData == sc.current
        && hourlyForecast == if ok then sc.hourly else old(hourlyForecast)
    {
      ghost var prev := currentWeatherData;
      var hourly: seq<Record> := [];
      var tidx := 0;
      while tidx < |series.timeseries|
        invariant 0 <= tidx <= |series.timeseries|
        invariant ScanTo(series, now, iso, prev, tidx) == Scan(hourly, currentWeatherData, true)
        invariant hourlyForecast == old(hourlyForecast)
      {
        var dt := series.timeseries[tidx];
        var element := BuildElement(iso(dt), series.paramlist, series.datasets, tidx);
        if element.None? {
          ScanFailureStays(series, now, iso, prev, tidx + 1, |series.timeseries|);
          return false;
        }
        if dt >= now {
          hourly := hourly + [element.value];
        }
        if dt <= now {
          currentWeatherData := element.value;
        }
        tidx := tidx + 1;
      }
      hourlyForecast := hourly;
      return true;
    }
  }

  /** The parameter loop for timeseries index `t`: start from
      `{localDateTime: iso}` and set each parameter to its cell of `ds`;
      None when a lookup fails. */
  method BuildElement(iso: string, params: seq<string>, ds: Option<Dataset>, t: nat) returns (element: Option<Record>)
    ensures element == ElementUpTo(iso, params, ds, t, |params|)
  {
    var e: Record := map[LocalDateTime := Text(iso)];
    var pidx := 0;
    while pidx < |params|
      invariant 0 <= pidx <= |params|
      invariant ElementUpTo(iso, params, ds, t, pidx) == Some(e)
    {
      var column, row := NatToString(pidx), NatToString(t);
      if ds.None? || column !in ds.value || row !in ds.value[column] {
        ElementUpToFailureStays(iso, params, ds, t, pidx + 1, |params|);
        return None;
      }
      e := e[params[pidx] := ds.value[column][row]];
      pidx := pidx + 1;
    }
    return Some(e);
  }

  /** Two `set_coordinates` calls with the same home location: the second
      finds nothing changed. */
  method RepeatedSetCoordinates(w: WeatherData, homeLat: real, homeLon: real, str: real -> string)
    returns (first: bool, second: bool)
    modifies w
    ensures w.coordinates == Some(ResolveCoordinates(w.config, homeLat, homeLon, str))
    ensures first <==> old(w.coordinates) != w.coordinates
    ensures !second
  {
    first := w.SetCoordinates(homeLat, homeLon, str);
    second := w.SetCoordinates(homeLat, homeLon, str);
  }

  /** `MeteoAMDataUpdateCoordinator`: owns the weather data, its refresh
      interval, and the handle of its subscription to core config updates.
      `busListeners` counts the listeners it holds on the event bus. */
  class Coordinator {
    const weather: WeatherData
    const updateInterval: nat  // minutes
    var unsubTrackHome: Option<nat>
    var busListeners: nat

    /** A listener is held exactly while the handle is stored, so at most one. */
    ghost predicate Valid()
      reads this
    {
      busListeners == (if unsubTrackHome.Some? then 1 else 0)
    }

    /** `minutes` is the draw of `randrange(55, 65)`. */
    constructor (config: Config, homeLat: real, homeLon: real, str: real -> string, minutes: nat)
      requires 55 <= minutes < 65
      ensures Valid() && unsubTrackHome == None && busListeners == 0
      ensures fresh(weather) && weather.config == config
      ensures weather.coordinates == Some(ResolveCoordinates(config, homeLat, homeLon, str))
      ensures weather.Snap() == Snapshot(map[], [], [])
      ensures 55 <= updateInterval < 65
    {
      var w := new WeatherData(config);
      var _ := w.SetCoordinates(homeLat, homeLon, str);
      weather := w;
      updateInterval := minutes;
      unsubTrackHome := None;
      busListeners := 0;
    }

    /** `track_home`: subscribe to core config updates unless already
        subscribed; `handle` is what the event bus hands back. */
    method TrackHome(handle: nat)
      requires Valid()
      modifies this
      ensures Valid() && busListeners <= 1
      ensures old(unsubTrackHome).Some? ==>
        unsubTrackHome == old(unsubTrackHome) && busListeners == old(busListeners)
      ensures old(unsubTrackHome).None? ==>
        unsubTrackHome == Some(handle) && busListeners == old(busListeners) + 1
    {
      if unsubTrackHome.Some? {
        return;
      }
      busListeners := busListeners + 1;
      unsubTrackHome := Some(handle);
    }

    /** `untrack_home`: drop the subscription, if any, and forget its handle. */
    method UntrackHome()
      requires Valid()
      modifies this
      ensures Valid() && unsubTrackHome == None && busListeners == 0
    {
      if unsubTrackHome.Some? {
        busListeners := busListeners - 1;
        unsubTrackHome := None;
      }
    }

    /** The listener registered by `track_home`: re-resolve the coordinates
        and ask for a refresh only when they changed. */
    method OnCoreConfigUpdate(homeLat: real, homeLon: real, str: real -> string) returns (refresh: bool)
      modifies weather`coordinates
      ensures weather.coordinates == Some(ResolveCoordinates(weather.config, homeLat, homeLon, str))
      ensures refresh <==> old(weather.coordinates) != weather.coordinates
    {
      refresh := weather.SetCoordinates(homeLat, homeLon, str);
    }
  }
}
