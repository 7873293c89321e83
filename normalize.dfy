/** The payload normalizer of `MeteoAMWeatherData.fetch_data`, as pure
    functions: how one HTTP response turns the stored snapshot (current
    record, daily list, hourly list) into the next one, error paths included.
    `Integration.WeatherData.FetchData` is proved to do exactly this. */
module Normalize {
  import opened Common

  /** `datasets["0"]`: parameter index (as a decimal string) to timeseries
      index (as a decimal string) to value. */
  type Dataset = map<string, map<string, Value>>

  /** The decoded JSON body. A field is None when the key path that the
      parser reads is missing: `extrainfo.stats`, `timeseries`, `paramlist`,
      `datasets["0"]`. The timeseries timestamps arrive already parsed; the
      daily dates are raw values, parsed by the daily loop. */
  datatype Payload = Payload(
    stats: Option<seq<Record>>,
    timeseries: Option<seq<Timestamp>>,
    paramlist: Option<seq<string>>,
    datasets: Option<Dataset>)

  /** An HTTP response: its status and its body, None when it is not JSON. */
  datatype Response = Response(status: int, body: Option<Payload>)

  datatype FetchError =
    | NoCoordinates   // `self._coordinates` is still None
    | CannotConnect   // no response, or a status other than 200
    | InvalidJson     // `resp.json()` failed
    | MissingKey      // a lookup in the payload failed
    | InvalidDate     // `parser().parse` rejected a daily `localDate`

  datatype Outcome = Ok | Failed(error: FetchError)

  /** The three outputs of a refresh, as held by `MeteoAMWeatherData`. */
  datatype Snapshot = Snapshot(current: Record, daily: seq<Record>, hourly: seq<Record>)

  const LocalDateTime := "localDateTime"

  /** The HTTP-status reject rule: `not resp or resp.status != 200`. */
  predicate Rejected(resp: Option<Response>): (r: bool)
    ensures !r ==> resp.Some? && resp.value.status == 200
    ensures resp.Some? && resp.value.status == 200 ==> !r
  {
    resp.None? || resp.value.status != 200
  }

  // ----- daily forecast (extrainfo.stats) -----

  /** The keys the daily loop reads from one `stats` entry. */
  const StatKeys: set<string> :=
    {"localDate", "maxCelsius", "minCelsius", "maxFahrenheit", "minFahrenheit", "icon"}

  /** One daily record, or None when a key it reads is missing or `parse`
      rejects its `localDate`. `parse` stands for `parser().parse`; the record
      holds the parsed date under `localDateTime`. */
  function DailyEntry(stat: Record, parse: Value -> Option<Timestamp>): (r: Option<Record>)
    ensures r.Some? <==> StatKeys <= stat.Keys && parse(stat["localDate"]).Some?
    ensures r.Some? ==>
      && r.value.Keys == {LocalDateTime, "2t", "2t_min", "2tf", "2tf_min", "icon"}
      && r.value[LocalDateTime] == Time(parse(stat["localDate"]).value)
      && r.value["2t"] == stat["maxCelsius"]
      && r.value["2t_min"] == stat["minCelsius"]
      && r.value["2tf"] == stat["maxFahrenheit"]
      && r.value["2tf_min"] == stat["minFahrenheit"]
      && r.value["icon"] == stat["icon"]
  {
    if StatKeys <= stat.Keys && parse(stat["localDate"]).Some? then
      Some(map[LocalDateTime := Time(parse(stat["localDate"]).value),
               "2t" := stat["maxCelsius"],
               "2t_min" := stat["minCelsius"],
               "2tf" := stat["maxFahrenheit"],
               "2tf_min" := stat["minFahrenheit"],
               "icon" := stat["icon"]])
    else None
  }

  /** The error a `stats` element that does not convert raises: the date is
      read and parsed first, the other five keys after it. */
  function DailyError(stat: Record, parse: Value -> Option<Timestamp>): (e: FetchError)
    ensures e == InvalidDate <==> "localDate" in stat && parse(stat["localDate"]).None?
    ensures e != InvalidDate ==> e == MissingKey
  {
    if "localDate" in stat && parse(stat["localDate"]).None? then InvalidDate else MissingKey
  }

  /** The daily list the loop leaves behind: the entries built before the
      first `stats` element that does not convert. */
  function DailyBuilt(stats: seq<Record>, parse: Value -> Option<Timestamp>): (daily: seq<Record>)
    ensures |daily| <= |stats|
  {
    if stats == [] then []
    else match DailyEntry(stats[0], parse)
      case None => []
      case Some(e) => [e] + DailyBuilt(stats[1..], parse)
  }

  /** `daily` holds, in order, the records of a prefix of `stats`, and that
      prefix is either all of `stats` or stops at an element that fails. */
  ghost predicate DailyPrefixOf(daily: seq<Record>, stats: seq<Record>, parse: Value -> Option<Timestamp>) {
    && |daily| <= |stats|
    && (forall i :: 0 <= i < |daily| ==> DailyEntry(stats[i], parse) == Some(daily[i]))
    && (|daily| < |stats| ==> DailyEntry(stats[|daily|], parse).None?)
  }

  lemma {:induction false} DailyBuiltSpec(stats: seq<Record>, parse: Value -> Option<Timestamp>)
    ensures DailyPrefixOf(DailyBuilt(stats, parse), stats, parse)
  {
    if stats != [] && DailyEntry(stats[0], parse).Some? {
      DailyBuiltSpec(stats[1..], parse);
    }
  }

  /** Only one list is a daily prefix of `stats`: the one `DailyBuilt` gives. */
  lemma DailyBuiltUnique(stats: seq<Record>, daily: seq<Record>, parse: Value -> Option<Timestamp>)
    requires DailyPrefixOf(daily, stats, parse)
    ensures daily == DailyBuilt(stats, parse)
  {
    var built := DailyBuilt(stats, parse);
    DailyBuiltSpec(stats, parse);
    forall i | 0 <= i < |daily| ensures daily[i] == built[i] {
      assert DailyEntry(stats[i], parse) == Some(daily[i]);
    }
  }

  /** The daily list is complete, with one record per `stats` element in the
      same order, exactly when every element has all the keys it reads and a
      date that parses. */
  lemma DailyBuiltComplete(stats: seq<Record>, parse: Value -> Option<Timestamp>)
    ensures |DailyBuilt(stats, parse)| == |stats| <==>
      forall i :: 0 <= i < |stats| ==> StatKeys <= stats[i].Keys && parse(stats[i]["localDate"]).Some?
  {
  }

  // ----- hourly elements (timeseries x paramlist x datasets["0"]) -----

  /** `data['datasets']['0'][str(i)][str(t)]`, or None when a key is missing. */
  function Cell(ds: Option<Dataset>, i: nat, t: nat): (r: Option<Value>)
    ensures r.Some? <==> ds.Some? && NatToString(i) in ds.value && NatToString(t) in ds.value[NatToString(i)]
  {
    if ds.Some? && NatToString(i) in ds.value && NatToString(t) in ds.value[NatToString(i)]
    then Some(ds.value[NatToString(i)][NatToString(t)])
    else None
  }

  /** The element for timeseries index `t` after the inner loop has visited
      the first `k` parameters: it starts as `{localDateTime: iso}` and each
      parameter name is then set to its cell; None once a lookup failed. */
  function ElementUpTo(iso: string, params: seq<string>, ds: Option<Dataset>, t: nat, k: nat): (r: Option<Record>)
    requires k <= |params|
    ensures r.Some? ==> LocalDateTime in r.value && forall i :: 0 <= i < k ==> params[i] in r.value
  {
    if k == 0 then Some(map[LocalDateTime := Text(iso)])
    else match ElementUpTo(iso, params, ds, t, k - 1)
      case None => None
      case Some(e) =>
        match Cell(ds, k - 1, t)
        case None => None
        case Some(v) => Some(e[params[k - 1] := v])
  }

  /** The inner loop fails exactly when some visited cell is missing. */
  lemma {:induction false} ElementUpToSucceeds(iso: string, params: seq<string>, ds: Option<Dataset>, t: nat, k: nat)
    requires k <= |params|
    ensures ElementUpTo(iso, params, ds, t, k).Some? <==> forall i :: 0 <= i < k ==> Cell(ds, i, t).Some?
  {
    if k > 0 {
      ElementUpToSucceeds(iso, params, ds, t, k - 1);
    }
  }

  /** A built element is keyed by `localDateTime` and every visited parameter name. */
  lemma {:induction false} ElementKeys(iso: string, params: seq<string>, ds: Option<Dataset>, t: nat, k: nat)
    requires k <= |params|
    requires ElementUpTo(iso, params, ds, t, k).Some?
    ensures ElementUpTo(iso, params, ds, t, k).value.Keys == {LocalDateTime} + (set i | 0 <= i < k :: params[i])
  {
    if k > 0 {
      ElementKeys(iso, params, ds, t, k - 1);
      assert (set i | 0 <= i < k :: params[i]) == (set i | 0 <= i < k - 1 :: params[i]) + {params[k - 1]};
    }
  }

  /** In a built element each parameter name holds the cell of its last
      position among the visited parameters. */
  lemma {:induction false} ElementValues(iso: string, params: seq<string>, ds: Option<Dataset>, t: nat, k: nat, i: nat)
    requires i < k <= |params|
    requires ElementUpTo(iso, params, ds, t, k).Some?
    requires forall j :: i < j < k ==> params[j] != params[i]
    ensures Cell(ds, i, t).Some? && params[i] in ElementUpTo(iso, params, ds, t, k).value
    ensures ElementUpTo(iso, params, ds, t, k).value[params[i]] == Cell(ds, i, t).value
  {
    if i < k - 1 {
      ElementValues(iso, params, ds, t, k - 1, i);
    }
  }

  /** A built element keeps the ISO string under `localDateTime` unless a
      visited parameter is itself called `localDateTime`. */
  lemma {:induction false} ElementTimestamp(iso: string, params: seq<string>, ds: Option<Dataset>, t: nat, k: nat)
    requires k <= |params|
    requires ElementUpTo(iso, params, ds, t, k).Some?
    requires forall i :: 0 <= i < k ==> params[i] != LocalDateTime
    ensures LocalDateTime in ElementUpTo(iso, params, ds, t, k).value
    ensures ElementUpTo(iso, params, ds, t, k).value[LocalDateTime] == Text(iso)
  {
    if k > 0 {
      ElementTimestamp(iso, params, ds, t, k - 1);
    }
  }

  lemma {:induction false} ElementUpToFailureStays(iso: string, params: seq<string>, ds: Option<Dataset>, t: nat, k: nat, n: nat)
    requires k <= n <= |params|
    requires ElementUpTo(iso, params, ds, t, k).None?
    ensures ElementUpTo(iso, params, ds, t, n).None?
    decreases n - k
  {
    if k < n {
      ElementUpToFailureStays(iso, params, ds, t, k + 1, n);
    }
  }

  /** The three column structures of the payload. */
  datatype Series = Series(timeseries: seq<Timestamp>, paramlist: seq<string>, datasets: Option<Dataset>)

  /** The complete element of timeseries index `t`, or None when a cell is missing. */
  function ElementAt(s: Series, iso: Timestamp -> string, t: nat): (r: Option<Record>)
    requires t < |s.timeseries|
    ensures r.Some? <==> forall i :: 0 <= i < |s.paramlist| ==> Cell(s.datasets, i, t).Some?
  {
    ElementUpToSucceeds(iso(s.timeseries[t]), s.paramlist, s.datasets, t, |s.paramlist|);
    ElementUpTo(iso(s.timeseries[t]), s.paramlist, s.datasets, t, |s.paramlist|)
  }

  /** The state of the timeseries loop: the local hourly list, the current
      record, and whether no lookup has failed yet. */
  datatype Scan = Scan(hourly: seq<Record>, current: Record, complete: bool)

  /** The timeseries loop after `k` iterations, starting from current record
      `prev`: an element with `dt >= now` is appended to the hourly list, one
      with `dt <= now` becomes current (both when `dt == now`); the first
      failed lookup stops the loop. */
  function ScanTo(s: Series, now: Timestamp, iso: Timestamp -> string, prev: Record, k: nat): (r: Scan)
    requires k <= |s.timeseries|
    ensures |r.hourly| <= k
    ensures !r.complete ==> k > 0
  {
    if k == 0 then Scan([], prev, true)
    else
      var sc := ScanTo(s, now, iso, prev, k - 1);
      if !sc.complete then sc
      else match ElementAt(s, iso, k - 1)
        case None => Scan(sc.hourly, sc.current, false)
        case Some(e) =>
          var dt := s.timeseries[k - 1];
          Scan(if dt >= now then sc.hourly + [e] else sc.hourly,
               if dt <= now then e else sc.current,
               true)
  }

  /** The `dt >= now` test, and the `dt <= now` test. */
  function Future(now: Timestamp): Timestamp -> bool { dt => dt >= now }
  function Past(now: Timestamp): Timestamp -> bool { dt => dt <= now }

  /** The loop runs to the end exactly when every element's lookups succeed. */
  lemma {:induction false} ScanCompleteIff(s: Series, now: Timestamp, iso: Timestamp -> string, prev: Record, k: nat)
    requires k <= |s.timeseries|
    ensures ScanTo(s, now, iso, prev, k).complete <==> forall t :: 0 <= t < k ==> ElementAt(s, iso, t).Some?
  {
    if k > 0 {
      ScanCompleteIff(s, now, iso, prev, k - 1);
    }
  }

  /** A completed loop's hourly list holds, in source order, the element of
      every timeseries index with `dt >= now`, and nothing else. */
  lemma {:induction false} ScanHourly(s: Series, now: Timestamp, iso: Timestamp -> string, prev: Record, k: nat)
    requires k <= |s.timeseries|
    requires ScanTo(s, now, iso, prev, k).complete
    ensures var sc := ScanTo(s, now, iso, prev, k); var idx := Indices(s.timeseries[..k], Future(now));
      && |sc.hourly| == |idx|
      && forall j :: 0 <= j < |idx| ==> idx[j] < k && ElementAt(s, iso, idx[j]) == Some(sc.hourly[j])
  {
    if k > 0 {
      ScanHourly(s, now, iso, prev, k - 1);
      var ts := s.timeseries;
      assert ts[..k][..k - 1] == ts[..k - 1];
      assert ts[..k][k - 1] == ts[k - 1];
      IndicesSpec(ts[..k - 1], Future(now));
    }
  }

  /** A completed loop's current record is the element of the last index with
      `dt <= now`, or `prev` when there is none. */
  lemma {:induction false} ScanCurrent(s: Series, now: Timestamp, iso: Timestamp -> string, prev: Record, k: nat)
    requires k <= |s.timeseries|
    requires ScanTo(s, now, iso, prev, k).complete
    ensures var sc := ScanTo(s, now, iso, prev, k);
      match LastIndex(s.timeseries[..k], Past(now))
      case None => sc.current == prev
      case Some(c) => c < k && ElementAt(s, iso, c) == Some(sc.current)
  {
    if k > 0 {
      ScanCurrent(s, now, iso, prev, k - 1);
      var ts := s.timeseries;
      assert ts[..k][..k - 1] == ts[..k - 1];
      assert ts[..k][k - 1] == ts[k - 1];
    }
  }

  /** After the first failed lookup the loop state no longer changes, so an
      incomplete loop keeps the hourly list and current record it had then. */
  lemma {:induction false} ScanFailureStays(s: Series, now: Timestamp, iso: Timestamp -> string, prev: Record, f: nat, k: nat)
    requires f <= k <= |s.timeseries|
    requires !ScanTo(s, now, iso, prev, f).complete
    ensures ScanTo(s, now, iso, prev, k) == ScanTo(s, now, iso, prev, f)
    decreases k - f
  {
    if f < k {
      ScanFailureStays(s, now, iso, prev, f + 1, k);
    }
  }

  /** An incomplete loop stopped at its first failing element `f`: its current
      record is what the loop over the elements before `f` left. */
  lemma {:induction false} ScanFailure(s: Series, now: Timestamp, iso: Timestamp -> string, prev: Record, k: nat)
    requires k <= |s.timeseries|
    requires !ScanTo(s, now, iso, prev, k).complete
    ensures exists f :: (0 <= f < k && ElementAt(s, iso, f).None? &&
      ScanTo(s, now, iso, prev, f).complete &&
      ScanTo(s, now, iso, prev, k).current == ScanTo(s, now, iso, prev, f).current)
  {
    var sc := ScanTo(s, now, iso, prev, k - 1);
    if sc.complete {
      assert ElementAt(s, iso, k - 1).None?;
    } else {
      ScanFailure(s, now, iso, prev, k - 1);
    }
  }

  /** With a strictly increasing timeseries an element stamped exactly `now`
      is both the current record and the first hourly element. */
  lemma BoundaryElement(s: Series, now: Timestamp, iso: Timestamp -> string, prev: Record, c: nat)
    requires forall i, j :: 0 <= i < j < |s.timeseries| ==> s.timeseries[i] < s.timeseries[j]
    requires c < |s.timeseries| && s.timeseries[c] == now
    requires ScanTo(s, now, iso, prev, |s.timeseries|).complete
    ensures var sc := ScanTo(s, now, iso, prev, |s.timeseries|);
      && ElementAt(s, iso, c) == Some(sc.current)
      && |sc.hourly| > 0 && ElementAt(s, iso, c) == Some(sc.hourly[0])
  {
    var ts := s.timeseries;
    var n := |ts|;
    assert ts[..n] == ts;
    ScanHourly(s, now, iso, prev, n);
    ScanCurrent(s, now, iso, prev, n);
    LastIndexSpec(ts, Past(now));
    assert Past(now)(ts[c]);
    var idx := Indices(ts, Future(now));
    IndicesSpec(ts, Future(now));
    assert Future(now)(ts[c]);
    assert c in idx;
    var m :| 0 <= m < |idx| && idx[m] == c;
    assert idx[0] >= c by {
      assert Future(now)(ts[idx[0]]);
    }
  }

  // ----- one whole refresh -----

  /** What one `fetch_data` call does to the stored snapshot. `configured`
      says whether coordinates have been set. The daily list is reset before
      the stats loop and appended to in place; the current record is
      overwritten inside the timeseries loop; only the hourly list is
      replaced at once, after the loop has run to the end. */
  function Refresh(configured: bool, snap: Snapshot, resp: Option<Response>, now: Timestamp, iso: Timestamp -> string, parse: Value -> Option<Timestamp>): (r: (Snapshot, Outcome))
    ensures r.1 == Ok ==> configured && !Rejected(resp) && resp.value.body.Some?
    ensures !configured ==> r == (snap, Failed(NoCoordinates))
    ensures configured && Rejected(resp) ==> r == (snap, Failed(CannotConnect))
    ensures r.1.Failed? && r.1.error in {NoCoordinates, CannotConnect, InvalidJson} ==> r.0 == snap
    ensures r.1 != Ok ==> r.0.hourly == snap.hourly
  {
    if !configured then (snap, Failed(NoCoordinates))
    else if Rejected(resp) then (snap, Failed(CannotConnect))
    else match resp.value.body
      case None => (snap, Failed(InvalidJson))
      case Some(p) =>
        match p.stats
        case None => (snap.(daily := []), Failed(MissingKey))
        case Some(stats) =>
          var daily := DailyBuilt(stats, parse);
          if |daily| < |stats| then (snap.(daily := daily), Failed(DailyError(stats[|daily|], parse)))
          else if p.timeseries.None? || p.paramlist.None? then (snap.(daily := daily), Failed(MissingKey))
          else
            var s := Series(p.timeseries.value, p.paramlist.value, p.datasets);
            var sc := ScanTo(s, now, iso, snap.current, |s.timeseries|);
            if sc.complete then (Snapshot(sc.current, daily, sc.hourly), Ok)
            else (Snapshot(sc.current, daily, snap.hourly), Failed(MissingKey))
  }

  /** A successful refresh of payload `p`: the daily list has one record per
      stats element, in order; the hourly list is the elements with
      `dt >= now` in source order; the current record is the element of the
      last index with `dt <= now`, else the previous one. */
  lemma SuccessfulRefresh(snap: Snapshot, status: int, p: Payload, now: Timestamp, iso: Timestamp -> string,
                          parse: Value -> Option<Timestamp>)
    requires Refresh(true, snap, Some(Response(status, Some(p))), now, iso, parse).1 == Ok
    ensures p.stats.Some? && p.timeseries.Some? && p.paramlist.Some?
    ensures var r := Refresh(true, snap, Some(Response(status, Some(p))), now, iso, parse).0;
      var stats := p.stats.value;
      var s := Series(p.timeseries.value, p.paramlist.value, p.datasets);
      var future := Indices(s.timeseries, Future(now));
      && |r.daily| == |stats|
      && (forall i :: 0 <= i < |stats| ==> DailyEntry(stats[i], parse) == Some(r.daily[i]))
      && (forall t :: 0 <= t < |s.timeseries| ==> ElementAt(s, iso, t).Some?)
      && |r.hourly| == |future|
      && (forall j :: 0 <= j < |future| ==>
            future[j] < |s.timeseries| && ElementAt(s, iso, future[j]) == Some(r.hourly[j]))
      && match LastIndex(s.timeseries, Past(now))
         case None => r.current == snap.current
         case Some(c) => c < |s.timeseries| && ElementAt(s, iso, c) == Some(r.current)
  {
    var stats := p.stats.value;
    var s := Series(p.timeseries.value, p.paramlist.value, p.datasets);
    var n := |s.timeseries|;
    assert s.timeseries[..n] == s.timeseries;
    DailyBuiltSpec(stats, parse);
    ScanCompleteIff(s, now, iso, snap.current, n);
    ScanHourly(s, now, iso, snap.current, n);
    ScanCurrent(s, now, iso, snap.current, n);
  }

  /** A `stats` element whose `localDate` does not parse ends the refresh
      with `InvalidDate`: the daily list keeps the records of the elements
      before it, and the current record and the hourly list stay as they were. */
  lemma UnparsableDate(snap: Snapshot, p: Payload, now: Timestamp, iso: Timestamp -> string,
                       parse: Value -> Option<Timestamp>, f: nat)
    requires p.stats.Some? && f < |p.stats.value|
    requires forall i :: 0 <= i < f ==> DailyEntry(p.stats.value[i], parse).Some?
    requires "localDate" in p.stats.value[f] && parse(p.stats.value[f]["localDate"]).None?
    ensures var r := Refresh(true, snap, Some(Response(200, Some(p))), now, iso, parse);
      var stats := p.stats.value;
      && r.1 == Failed(InvalidDate)
      && r.0.current == snap.current && r.0.hourly == snap.hourly
      && |r.0.daily| == f
      && forall i :: 0 <= i < f ==> DailyEntry(stats[i], parse) == Some(r.0.daily[i])
  {
    var stats := p.stats.value;
    DailyBuiltSpec(stats, parse);
  }

  /** Two hourly points, 10:00 and 11:00 (here 1000 and 1100), one parameter
      "2t", and `now` at 10:30: the 10:00 element becomes current and the
      hourly list holds only the 11:00 element. */
  lemma TwoPointScenario(iso: Timestamp -> string, parse: Value -> Option<Timestamp>)
    ensures var p := Payload(Some([]), Some([1000, 1100]), Some(["2t"]),
                             Some(map["0" := map["0" := Number(10.0), "1" := Number(12.0)]]));
      Refresh(true, Snapshot(map[], [], []), Some(Response(200, Some(p))), 1030, iso, parse) ==
        (Snapshot(map[LocalDateTime := Text(iso(1000)), "2t" := Number(10.0)], [],
                  [map[LocalDateTime := Text(iso(1100)), "2t" := Number(12.0)]]), Ok)
  {
    var ds := Some(map["0" := map["0" := Number(10.0), "1" := Number(12.0)]]);
    var s := Series([1000, 1100], ["2t"], ds);
    assert NatToString(0) == "0" && NatToString(1) == "1";
    assert Cell(ds, 0, 0) == Some(Number(10.0)) && Cell(ds, 0, 1) == Some(Number(12.0));
    assert ElementUpTo(iso(1000), ["2t"], ds, 0, 0) == Some(map[LocalDateTime := Text(iso(1000))]);
    assert ElementUpTo(iso(1100), ["2t"], ds, 1, 0) == Some(map[LocalDateTime := Text(iso(1100))]);
    var e0 := map[LocalDateTime := Text(iso(1000)), "2t" := Number(10.0)];
    var e1 := map[LocalDateTime := Text(iso(1100)), "2t" := Number(12.0)];
    assert ElementAt(s, iso, 0) == Some(e0);
    assert ElementAt(s, iso, 1) == Some(e1);
    assert ScanTo(s, 1030, iso, map[], 1) == Scan([], e0, true);
    assert ScanTo(s, 1030, iso, map[], 2) == Scan([e1], e0, true);
  }
}
