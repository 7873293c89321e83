# MeteoAM weather integration — Dafny model

This project models the core of the MeteoAM weather integration for Home Assistant. The integration polls the meteogram API of the Aeronautica Militare and turns its column-oriented JSON into three stored outputs:

- a current-conditions record;
- an hourly forecast list;
- a daily forecast list.

The weather entity then projects these outputs for the host.

Modules:

- `Common` (`common.dfy`): decoded JSON values (`Value`, `Record`), the config entry data (`Config`), Python truthiness, `str` of a non-negative int, and two sequence helpers. `Indices` lists the indices whose element passes a test. `LastIndex` gives the last such index.
- `Normalize` (`normalize.dfy`): pure definitions of what the parsing part of `MeteoAMWeatherData.fetch_data` does to the stored outputs.
  - `DailyEntry`/`DailyBuilt` cover the daily loop over `extrainfo.stats`.
  - `ElementUpTo` covers the parameter loop.
  - `ScanTo` covers the timeseries loop with its `dt >= now` / `dt <= now` bucketing.
  - `Refresh` covers one whole call, error paths included.
  - The lemmas characterise each of these outputs.
- `Integration` (`integration.dfy`): the classes of `__init__.py`.
  - `WeatherData` holds the fields `coordinates`, `currentWeatherData`, `dailyForecast` and `hourlyForecast`. Its methods `SetCoordinates` and `FetchData` update them in place. The loops are in `ParseDaily`, `ParseHourly` and `BuildElement`, which `FetchData` calls. `FetchData` is proved to do exactly what `Refresh` describes.
  - `Coordinator` holds the update interval and the home-tracking subscription guard.
  - `SkipSetup` is the check in `async_setup_entry`.
- `Weather` (`weather.dfy`): the entity in `weather.py`. It covers the unique id, the name, enabled-by-default, the current condition, the native attribute lookups, `format_condition`, and `_forecast`. `_forecast` is a loop proved against `ForecastOf`.

Outside inputs are parameters:

- the HTTP response, as an abstract status plus a decoded body;
- "now", as a single timestamp;
- `isoformat`, as a function `iso`;
- `parser().parse` of a daily `localDate`, as a function `parse` that gives no timestamp when it fails;
- Python's `str` of a float, as a function `str`;
- the home location;
- the tables `CONDITIONS_MAP`, `FORECAST_MAP` and `ATTR_MAP`. `const.py` is not part of this model, so these are parameters too.

Timestamps are naive date-times, represented by `int`; only their order is used.

Points where the model follows particular details of the code:

- **Partial updates.** `fetch_data` clears `daily_forecast` and then appends to it, and overwrites `current_weather_data` inside the timeseries loop. Only `hourly_forecast` is replaced in one step, after its loop completes. So a failure in the payload can leave a new or partial daily list and a new current record. `Refresh` states this exactly.
- **Update interval.** `randrange(55, 65)` gives an interval in [55, 65) minutes.
- **Errors.** The code logs and re-raises the original exception. The model names its cause: `MissingKey` for a failed lookup, `InvalidDate` for a daily `localDate` that does not parse, and `InvalidJson` for a body that cannot be decoded.
- **Daily dates.** The daily loop parses `localDate` before it reads the other keys, and stores the parsed date under `localDateTime`. The model takes the parser as a parameter `parse`, stores `Time(t)` for a date that parses, and ends the daily loop at one that does not.

## Model

| member | source | states |
|---|---|---|
| `Integration.SkipSetup` | custom_components/meteoam/__init__.py:45-55 | setup is refused only for an entry that tracks home. It is refused whenever the home latitude and longitude are both zero, or both equal the onboarding default. When it is not refused, neither condition holds. |
| `Integration.ResolveCoordinates` | custom_components/meteoam/__init__.py:150-160 | the coordinates are the two strings of the home location when tracking home, otherwise of the configured latitude and longitude |
| `Integration.WeatherData.constructor` | custom_components/meteoam/__init__.py:138-146 | no coordinates are stored yet, and the current record, daily list and hourly list are empty |
| `Integration.WeatherData.SetCoordinates` | custom_components/meteoam/__init__.py:148-166 | the resolved coordinates are stored. The result is true exactly when they differ from the previously stored value, so an equal value reports false and stays as it was. |
| `Integration.RepeatedSetCoordinates` | custom_components/meteoam/__init__.py:157-166 | a second `set_coordinates` with the same inputs returns false |
| `Integration.WeatherData.FetchData` | custom_components/meteoam/__init__.py:180-212 | the new current, daily and hourly outputs and the outcome are exactly what `Refresh` gives for the old outputs, the response and `now` |
| `Integration.WeatherData.ParseDaily` | custom_components/meteoam/__init__.py:185-196 | the daily list is rebuilt as `DailyBuilt(stats, parse)`. No error is returned exactly when every stats element was converted. Otherwise the error is `DailyError` of the first element that failed. |
| `Integration.WeatherData.ParseHourly` | custom_components/meteoam/__init__.py:198-212 | the current record is the one the timeseries loop leaves. The hourly list is the loop's list if the loop completed, and unchanged otherwise. |
| `Integration.BuildElement` | custom_components/meteoam/__init__.py:203-207 | the parameter loop returns exactly `ElementUpTo` over all parameters, or none when a lookup fails |
| `Integration.Coordinator.constructor` | custom_components/meteoam/__init__.py:97-105 | the coordinates are resolved once, no subscription is held, and the update interval is in [55, 65) minutes |
| `Integration.Coordinator.TrackHome` | custom_components/meteoam/__init__.py:114-126 | while a handle is stored, nothing changes. Otherwise one listener is added and its handle stored. At most one listener is ever held. |
| `Integration.Coordinator.UntrackHome` | custom_components/meteoam/__init__.py:128-132 | the handle is cleared and no listener remains, so a later `TrackHome` subscribes again |
| `Integration.Coordinator.OnCoreConfigUpdate` | custom_components/meteoam/__init__.py:119-122 | a config update re-resolves the coordinates and asks for a refresh exactly when they changed |
| `Normalize.Refresh` | custom_components/meteoam/__init__.py:180-212 | success implies that coordinates are set, the status is 200 and the body decoded. Missing coordinates, an absent response or a non-200 status leave every output untouched and report the error. Any failure leaves the hourly list as it was. |
| `Normalize.Rejected` | custom_components/meteoam/__init__.py:180-181 | a response is accepted exactly when it is present and its status is 200 |
| `Normalize.DailyBuilt` | custom_components/meteoam/__init__.py:185-196 | the daily loop never yields more records than `stats` has elements. `DailyBuiltSpec` and `DailyBuiltUnique` characterise it as the converted prefix of `stats`. |
| `Normalize.DailyEntry` | custom_components/meteoam/__init__.py:186-195 | a stats element converts exactly when it has all six keys and its `localDate` parses. The record holds the parsed date under `localDateTime`. It copies `maxCelsius`, `minCelsius`, `maxFahrenheit`, `minFahrenheit` and `icon` into `2t`, `2t_min`, `2tf`, `2tf_min` and `icon`, and holds no other key. |
| `Normalize.DailyError` | custom_components/meteoam/__init__.py:186-195 | an element that fails to convert raises `InvalidDate` exactly when its `localDate` is present but does not parse, and `MissingKey` otherwise, because the date is read and parsed before the other keys |
| `Normalize.DailyBuiltSpec` | custom_components/meteoam/__init__.py:185-196 | the daily list holds, in order, the records of a prefix of `stats`. That prefix stops only at an element that fails to convert. |
| `Normalize.DailyBuiltUnique` | custom_components/meteoam/__init__.py:185-196 | there is only one list with the property above |
| `Normalize.DailyBuiltComplete` | custom_components/meteoam/__init__.py:185-196 | the daily list has one record per stats element exactly when every element has all the keys the loop reads and a date that parses |
| `Normalize.Cell` | custom_components/meteoam/__init__.py:207 | a cell lookup succeeds exactly when `datasets["0"]` exists and holds `str(i)`, and that column holds `str(t)` |
| `Normalize.ElementUpTo` | custom_components/meteoam/__init__.py:203-207 | after the first k parameters, a built element holds `localDateTime` and every one of those parameter names. `ElementKeys`, `ElementValues` and `ElementUpToSucceeds` give its exact keys, values and success condition. |
| `Normalize.ElementAt` | custom_components/meteoam/__init__.py:202-207 | the complete element of timeseries index t is built exactly when every parameter's cell for t exists |
| `Normalize.ElementUpToSucceeds` | custom_components/meteoam/__init__.py:203-207 | an element is built exactly when every one of its parameter cells exists |
| `Normalize.ElementKeys` | custom_components/meteoam/__init__.py:203-207 | a built element's keys are `localDateTime` plus every parameter name |
| `Normalize.ElementValues` | custom_components/meteoam/__init__.py:206-207 | parameter p_i holds `datasets["0"][str(i)][str(t)]`, where i is the last position of that name in the list |
| `Normalize.ElementTimestamp` | custom_components/meteoam/__init__.py:203-207 | `localDateTime` holds the ISO string of the timestamp unless a parameter of that name overwrote it |
| `Normalize.ElementUpToFailureStays` | custom_components/meteoam/__init__.py:206-207 | once a lookup fails, the element is never built |
| `Normalize.ScanTo` | custom_components/meteoam/__init__.py:201-211 | after k iterations of the timeseries loop, the hourly list has at most k elements, and the loop can have failed only after at least one iteration. `ScanHourly`, `ScanCurrent`, `ScanFailure` and `ScanCompleteIff` characterise its outputs. |
| `Normalize.ScanCompleteIff` | custom_components/meteoam/__init__.py:201-211 | the timeseries loop completes exactly when every element's lookups succeed |
| `Normalize.ScanHourly` | custom_components/meteoam/__init__.py:198-209 | a completed loop's hourly list is the elements of exactly the indices with `dt >= now`, in source order |
| `Normalize.ScanCurrent` | custom_components/meteoam/__init__.py:208-211 | a completed loop's current record is the element of the last index with `dt <= now`, or the previous record when there is no such index |
| `Normalize.ScanFailureStays` | custom_components/meteoam/__init__.py:201-212 | after the first failed lookup, the loop state no longer changes |
| `Normalize.ScanFailure` | custom_components/meteoam/__init__.py:201-212 | an incomplete loop failed at some element f whose predecessors all built. It keeps the current record that the elements before f left. |
| `Normalize.BoundaryElement` | custom_components/meteoam/__init__.py:208-211 | for a strictly increasing timeseries, the element stamped exactly `now` is both the current record and the first hourly element |
| `Normalize.SuccessfulRefresh` | custom_components/meteoam/__init__.py:183-212 | after a successful refresh: the daily list has one record per stats element, in order; the hourly list is the elements with `dt >= now`, in order; the current record is the last element with `dt <= now`, or the previous record |
| `Normalize.UnparsableDate` | custom_components/meteoam/__init__.py:185-196 | a stats element whose `localDate` does not parse, after elements that all convert, ends the refresh with `InvalidDate`. The daily list keeps exactly the records before it, and the current record and hourly list are unchanged. |
| `Normalize.TwoPointScenario` | custom_components/meteoam/__init__.py:198-212 | points at 10:00 and 11:00 with `now` at 10:30: the 10:00 element (`2t` = 10) becomes current and the hourly list is just the 11:00 element (`2t` = 12) |
| `Weather.UniqueId` | custom_components/meteoam/weather.py:75-83 | the id is `home` when tracking home, else `{lat}-{lon}`. `-hourly` is appended for the hourly entity. |
| `Weather.HourlyUniqueId` | custom_components/meteoam/weather.py:75-83 | the hourly id is the other id followed by `-hourly`, and the two ids differ |
| `Weather.FormatCondition` | custom_components/meteoam/weather.py:86-91 | the result is the first key, in table order, whose codes contain the condition, or the condition unchanged when no entry contains it |
| `Weather.Name` | custom_components/meteoam/weather.py:128-142 | the name is the configured name if set, else the home location's name when tracking home, else `MeteoAM`. ` hourly` is appended exactly for the hourly entity. |
| `Weather.HourlyName` | custom_components/meteoam/weather.py:131-142 | in every case, the hourly entity's name is the other name plus ` hourly` |
| `Weather.EnabledByDefault` | custom_components/meteoam/weather.py:144-147 | enabled by default exactly when not hourly |
| `Weather.Condition` | custom_components/meteoam/weather.py:149-155 | none exactly when the current record has no icon or a null one. Otherwise the result is `format_condition` of the icon. |
| `Weather.NativeAttribute` | custom_components/meteoam/weather.py:157-211 | the current record's value under the `ATTR_MAP` key, or null when the record lacks it |
| `Weather.ProjectItem` | custom_components/meteoam/weather.py:224-232 | the item's keys are exactly the `FORECAST_MAP` keys whose raw field is present and not null, each holding that field. A truthy condition is replaced by its `format_condition`. |
| `Weather.ForecastOf` | custom_components/meteoam/weather.py:219-234 | the output is never longer than the input |
| `Weather.ForecastSelects` | custom_components/meteoam/weather.py:219-233 | the output is the order-preserving image, through `ProjectItem`, of exactly the raw items that have both `2t` and `localDateTime` |
| `Weather.Forecast` | custom_components/meteoam/weather.py:213-234 | the loop returns `ForecastOf` of the hourly or the daily list, as `hourly` selects |

## Left out

- The HTTP GET, the client session, the URL template, the 60-second timeout and the URL logging. These are network I/O. The response is a parameter: absent, or a status plus a decoded body.
- `resp.json()` is not modelled beyond its failure, which is a body of None.
- Date parsing with `dateutil` of the timeseries entries, `isoformat` and the removal of the time zone. The timeseries timestamps arrive parsed and naive, and `isoformat` is the parameter `iso`, so a timeseries entry that does not parse is not modelled. The daily `localDate` does go through the parameter `parse`.
- `datetime.now()` is read twice per iteration. The model reads a single `now`, so it does not capture the clock moving during the loop.
- The JSON payload is typed. Missing keys, a daily `localDate` that `parse` rejects, and a body that cannot be decoded are modelled as errors. A value of the wrong shape (an object where a list is expected, say) is not.
- Python's `str` of a float is the parameter `str`.
- The configured latitude and longitude are always present in `Config`, so the `KeyError` for a missing one is not modelled.
- `randrange`: only its bound is modelled, as the constructor's precondition 55 <= minutes < 65.
- Home Assistant plumbing is not modelled:
  - the `DataUpdateCoordinator` scheduling, `async_refresh`, and the serialising and coalescing of refreshes;
  - the `UpdateFailed` wrapping in `_async_update_data`;
  - the event bus, other than the count of listeners this coordinator holds;
  - the entity registry and the detection of the legacy hourly entity in the platform's `async_setup_entry`;
  - platform forwarding, `async_unload_entry` and `async_update_entry`;
  - `device_info`, unit constants, attribution and logging.
- The `forecast`, `_async_forecast_daily` and `_async_forecast_hourly` wrappers only call `_forecast` with a fixed flag. `Weather.Forecast` takes that flag as a parameter.
- `CONDITIONS_MAP`, `FORECAST_MAP` and `ATTR_MAP` are parameters. `const.py` is not part of this model, and neither are the two default home coordinates.
- `Weather.NativeAttribute`: assumes that `ATTR_MAP` holds the attribute key each getter looks up, as `const.py` defines it, so the `KeyError` that a missing `ATTR_MAP` entry would raise is not modelled.
