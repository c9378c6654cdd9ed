/** The carbon-intensity provider (modules/electricitymaps_api.py): a
    per-location cache with a time-to-live, a staleness test on fetched
    values, and a copy of the cache kept on disk. Instants are whole seconds;
    the remote reply and the disk file are given to the calls that use them. */
module CarbonIntensity {
  import opened Common
  import opened Text

  /** `co2_time_threshold_mins`' default. */
  const DefaultThresholdMins: int := 120

  /** Seconds in the unit `timedelta(N)` counts: N is a number of days. */
  const SecondsPerDay: int := 86400

  /** The request parameters: `{"zone": grid_id}` or `{"lat": lat, "lon": lon}`,
      with latitude and longitude held as the text `str()` gives them. */
  datatype Params = Zone(gridId: string) | LatLon(lat: Option<string>, lon: Option<string>)

  /** `[str(v) for v in params.values()]`, in insertion order. */
  function ParamValues(p: Params): (vs: seq<string>)
    ensures p.Zone? ==> vs == [p.gridId]
    ensures p.LatLon? ==> vs == [PyStr(p.lat), PyStr(p.lon)]
  {
    match p
    case Zone(g) => [g]
    case LatLon(lat, lon) => [PyStr(lat), PyStr(lon)]
  }

  /** `'_'.join(str(v) for v in params.values())`. */
  function CacheKey(p: Params): string {
    Join("_", ParamValues(p))
  }

  /** A grid id is its own key. */
  lemma ZoneKey(g: string)
    ensures CacheKey(Zone(g)) == g
  {
  }

  /** A location's key is "<lat>_<lon>". */
  lemma LatLonKey(lat: Option<string>, lon: Option<string>)
    ensures CacheKey(LatLon(lat, lon)) == PyStr(lat) + "_" + PyStr(lon)
  {
    assert [PyStr(lat), PyStr(lon)][1..] == [PyStr(lon)];
  }

  /** In `a + "_" + b` with no '_' in `a`, the first '_' is at `|a|`. */
  lemma UnderscoreSplit(a: string, b: string)
    requires '_' !in a
    ensures (a + "_" + b)[|a|] == '_'
    ensures forall i :: 0 <= i < |a| ==> (a + "_" + b)[i] != '_'
  {
    forall i | 0 <= i < |a| ensures (a + "_" + b)[i] != '_' {
      assert (a + "_" + b)[i] == a[i];
    }
  }

  /** Latitudes whose text holds no '_' (as the text of a number never does)
      give distinct locations distinct keys. */
  lemma LatLonKeyInjective(lat1: string, lon1: string, lat2: string, lon2: string)
    requires '_' !in lat1 && '_' !in lat2
    requires CacheKey(LatLon(Some(lat1), Some(lon1))) == CacheKey(LatLon(Some(lat2), Some(lon2)))
    ensures lat1 == lat2 && lon1 == lon2
  {
    LatLonKey(Some(lat1), Some(lon1));
    LatLonKey(Some(lat2), Some(lon2));
    var k1 := lat1 + "_" + lon1;
    var k2 := lat2 + "_" + lon2;
    UnderscoreSplit(lat1, lon1);
    UnderscoreSplit(lat2, lon2);
    assert k1[|lat1|] == '_' && k2[|lat2|] == '_';
    assert |lat1| == |lat2|;
    assert lat1 == k1[..|lat1|] == k2[..|lat2|] == lat2;
    assert lon1 == k1[|lat1| + 1..] == k2[|lat2| + 1..] == lon2;
  }

  function Abs(x: int): int {
    if x < 0 then -x else x
  }

  /** The fields of the provider's JSON reply that are read: `updatedAt`,
      already parsed to an instant (None: the key is missing), and
      `carbonIntensity` (None: the key is missing; Some(None): JSON null). */
  datatype CarbonReply = CarbonReply(updatedAt: Option<int>, carbonIntensity: Option<Option<real>>)

  /** `_process_co2_data(data)` at instant `now`. */
  function ProcessCo2Data(data: CarbonReply, now: int, thresholdMins: int): (r: Result<Option<real>>)
    ensures data.updatedAt.None? ==> r == Err(KeyError("updatedAt"))
    ensures r == Ok(None) <==>
      data.updatedAt.Some? && Abs(data.updatedAt.value - now) > 60 * thresholdMins
    ensures (r.Ok? && r.value.Some?) <==>
      (&& data.updatedAt.Some? && Abs(data.updatedAt.value - now) <= 60 * thresholdMins
       && data.carbonIntensity.Some? && data.carbonIntensity.value.Some?)
    ensures r.Ok? && r.value.Some? ==> r.value.value == data.carbonIntensity.value.value
    ensures data.updatedAt.Some? && Abs(data.updatedAt.value - now) <= 60 * thresholdMins ==>
      (data.carbonIntensity.None? ==> r == Err(KeyError("carbonIntensity"))) &&
      (data.carbonIntensity == Some(None) ==> r == Err(TypeError))
  {
    match data.updatedAt
    case None => Err(KeyError("updatedAt"))
    case Some(updatedAt) =>
      if (Abs(updatedAt - now) as real) / 60.0 > thresholdMins as real then Ok(None)
      else match data.carbonIntensity
        case None => Err(KeyError("carbonIntensity"))
        case Some(None) => Err(TypeError)
        case Some(Some(x)) => Ok(Some(x))
  }

  /** A value exactly at the threshold is kept; one second past it is not. */
  lemma ThresholdBoundary(updatedAt: int, x: real, thresholdMins: int)
    requires thresholdMins >= 0
    ensures ProcessCo2Data(CarbonReply(Some(updatedAt), Some(Some(x))), updatedAt + 60 * thresholdMins, thresholdMins) == Ok(Some(x))
    ensures ProcessCo2Data(CarbonReply(Some(updatedAt), Some(Some(x))), updatedAt + 60 * thresholdMins + 1, thresholdMins) == Ok(None)
  {
    assert Abs(updatedAt - (updatedAt + 60 * thresholdMins)) == 60 * thresholdMins;
    assert ((60 * thresholdMins) as real) / 60.0 == thresholdMins as real;
  }

  /** A cache entry: the value fetched (None when it was stale) and when it was stored. */
  datatype Entry = Entry(value: Option<real>, fetchedAt: int)

  type Cache = map<string, Entry>

  /** The cache hit test: `key in cache and now - cache[key][1] < CACHE_EXPIRY`;
      a hit gives the cached value. */
  function Lookup(cache: Cache, expiry: int, key: string, now: int): (r: Option<Option<real>>)
    ensures r.Some? <==> key in cache && now < cache[key].fetchedAt + expiry
    ensures r.Some? ==> r.value == cache[key].value
  {
    if key in cache && now - cache[key].fetchedAt < expiry then Some(cache[key].value) else None
  }

  /** An entry stored at `t` is found, None or not, by every lookup of its
      key before `t + expiry`, and by none after. */
  lemma StoredEntryServes(cache: Cache, expiry: int, key: string, v: Option<real>, t: int, now: int)
    ensures Lookup(cache[key := Entry(v, t)], expiry, key, now) ==
            (if now - t < expiry then Some(v) else None)
  {
  }

  /** Storing one key leaves the lookups of every other key as they were. */
  lemma StoreOtherKey(cache: Cache, expiry: int, key: string, e: Entry, other: string, now: int)
    requires other != key
    ensures Lookup(cache[key := e], expiry, other, now) == Lookup(cache, expiry, other, now)
  {
  }

  /** The JSON file: per key, the value and the timestamp's text. Timestamps
      are written as their decimal seconds (standing in for `isoformat()`). */
  type CacheFile = map<string, (Option<real>, string)>

  /** `_save_cache`'s conversion of the cache to its file form. */
  function SaveForm(cache: Cache): (f: CacheFile)
    ensures f.Keys == cache.Keys
  {
    map k | k in cache :: (cache[k].value, IntToString(cache[k].fetchedAt))
  }

  predicate TimestampsParse(f: CacheFile) {
    forall k :: k in f ==> ParseInt(f[k].1).Some?
  }

  /** `_load_cache`'s conversion of the file to a cache; a timestamp that
      does not parse raises ValueError. */
  function LoadForm(f: CacheFile): (r: Result<Cache>)
    ensures r.Ok? <==> TimestampsParse(f)
    ensures r.Ok? ==> r.value.Keys == f.Keys
    ensures r.Ok? ==> forall k :: k in f ==> r.value[k].value == f[k].0
  {
    if TimestampsParse(f) then
      Ok(map k | k in f :: Entry(f[k].0, ParseInt(f[k].1).value))
    else
      Err(ValueError("fromisoformat"))
  }

  /** Saving then loading gives back every key, value and timestamp. */
  lemma LoadSave(cache: Cache)
    ensures LoadForm(SaveForm(cache)) == Ok(cache)
  {
    var f := SaveForm(cache);
    forall k | k in f ensures ParseInt(f[k].1) == Some(cache[k].fetchedAt) {
      ParseIntOfIntToString(cache[k].fetchedAt);
    }
    assert TimestampsParse(f);
    var c := LoadForm(f).value;
    assert c.Keys == cache.Keys;
    assert forall k | k in c :: c[k] == cache[k];
    assert c == cache;
  }

  /** `timedelta(days)` holds at most 999999999 days either way. */
  const MaxTimedeltaDays: int := 999999999

  predicate InTimedeltaRange(days: int) {
    -MaxTimedeltaDays <= days <= MaxTimedeltaDays
  }

  /** What `ElectricityMapAPI(co2_time_threshold_mins, clear_cache)` raises,
      if anything: TypeError for an unset EM_CACHE_EXPIRY_MINS, ValueError
      for a text `int()` refuses, OverflowError for a day count `timedelta`
      cannot hold, then what loading the cache file raises. */
  function CreateError(clearCache: bool, expiryEnv: Option<string>, disk: Option<CacheFile>): Option<Error> {
    if expiryEnv.None? then Some(TypeError)
    else if PyInt(expiryEnv.value).None? then Some(ValueError(expiryEnv.value))
    else if !InTimedeltaRange(PyInt(expiryEnv.value).value) then Some(OverflowError)
    else if !clearCache && disk.Some? && LoadForm(disk.value).Err? then Some(LoadForm(disk.value).error)
    else None
  }

  class ElectricityMapApi {
    var thresholdMins: int
    /** `CACHE_EXPIRY`, in seconds. */
    var expiry: int
    var cache: Cache
    /** The cache file: None while it does not exist. */
    var disk: Option<CacheFile>
    /** The requests made to the provider, in order. */
    var fetches: seq<Params>

    constructor Init(thresholdMins: int, expiry: int, disk: Option<CacheFile>)
      ensures this.thresholdMins == thresholdMins && this.expiry == expiry && this.disk == disk
      ensures cache == map[] && fetches == []
    {
      this.thresholdMins := thresholdMins;
      this.expiry := expiry;
      this.disk := disk;
      cache := map[];
      fetches := [];
    }

    /** `ElectricityMapAPI(co2_time_threshold_mins, clear_cache)`: `expiryEnv`
        is the EM_CACHE_EXPIRY_MINS environment value, read as a number of
        days; then the cache is cleared (and saved empty) or loaded. */
    static method Create(thresholdMins: int, clearCache: bool, expiryEnv: Option<string>, disk: Option<CacheFile>)
      returns (r: Result<ElectricityMapApi>)
      ensures expiryEnv.None? ==> r == Err(TypeError)
      ensures expiryEnv.Some? && PyInt(expiryEnv.value).None? ==> r == Err(ValueError(expiryEnv.value))
      ensures expiryEnv.Some? && PyInt(expiryEnv.value).Some? && !InTimedeltaRange(PyInt(expiryEnv.value).value) ==>
                r == Err(OverflowError)
      ensures r.Err? <==> CreateError(clearCache, expiryEnv, disk).Some?
      ensures r.Err? ==> r.error == CreateError(clearCache, expiryEnv, disk).value
      ensures r.Ok? ==> fresh(r.value)
      ensures r.Ok? ==>
        (&& expiryEnv.Some? && PyInt(expiryEnv.value).Some?
         && InTimedeltaRange(PyInt(expiryEnv.value).value)
         && r.value.expiry == PyInt(expiryEnv.value).value * SecondsPerDay
         && r.value.thresholdMins == thresholdMins && r.value.fetches == [])
      ensures expiryEnv.Some? && PyInt(expiryEnv.value).Some? && InTimedeltaRange(PyInt(expiryEnv.value).value) && clearCache ==>
        r.Ok? && r.value.cache == map[] && r.value.disk == Some(map[])
      ensures expiryEnv.Some? && PyInt(expiryEnv.value).Some? && InTimedeltaRange(PyInt(expiryEnv.value).value) && !clearCache && disk.None? ==>
        r.Ok? && r.value.cache == map[] && r.value.disk == None
      ensures expiryEnv.Some? && PyInt(expiryEnv.value).Some? && InTimedeltaRange(PyInt(expiryEnv.value).value) && !clearCache && disk.Some? ==>
        (match LoadForm(disk.value)
         case Ok(c) => r.Ok? && r.value.cache == c && r.value.disk == disk
         case Err(e) => r == Err(e))
    {
      if expiryEnv.None? {
        return Err(TypeError);
      }
      var days := PyInt(expiryEnv.value);
      if days.None? {
        return Err(ValueError(expiryEnv.value));
      }
      if !InTimedeltaRange(days.value) {
        return Err(OverflowError);
      }
      var api := new ElectricityMapApi.Init(thresholdMins, days.value * SecondsPerDay, disk);
      if clearCache {
        api.ClearCache();
      } else {
        var loaded := api.LoadCache();
        if loaded.Err? {
          return Err(loaded.error);
        }
      }
      r := Ok(api);
    }

    /** `_load_cache`: the file's content, or an empty cache when there is no file. */
    method LoadCache() returns (r: Result<()>)
      modifies this
      ensures thresholdMins == old(thresholdMins) && expiry == old(expiry)
      ensures disk == old(disk) && fetches == old(fetches)
      ensures disk.None? ==> r == Ok(()) && cache == map[]
      ensures disk.Some? ==>
        (match LoadForm(disk.value)
         case Ok(c) => r == Ok(()) && cache == c
         case Err(e) => r == Err(e) && cache == old(cache))
    {
      if disk.None? {
        cache := map[];
        return Ok(());
      }
      var loaded := LoadForm(disk.value);
      if loaded.Err? {
        return Err(loaded.error);
      }
      cache := loaded.value;
      r := Ok(());
    }

    /** `_save_cache`: the file is (re)written from the cache. */
    method SaveCache()
      modifies this
      ensures disk == Some(SaveForm(cache))
      ensures cache == old(cache) && fetches == old(fetches)
      ensures thresholdMins == old(thresholdMins) && expiry == old(expiry)
    {
      disk := Some(SaveForm(cache));
    }

    /** `_clear_cache`: an empty cache, saved. */
    method ClearCache()
      modifies this
      ensures cache == map[] && disk == Some(map[]) && fetches == old(fetches)
      ensures thresholdMins == old(thresholdMins) && expiry == old(expiry)
    {
      cache := map[];
      SaveCache();
      assert SaveForm(map[]) == map[];
    }

    /** What one lookup for `p` at `now` does: a hit answers from the cache
        and changes nothing; a miss makes exactly one request, and when the
        reply is processed without raising, overwrites that key's entry with
        (value, now), leaves the other keys alone and saves the cache. */
    twostate predicate LookedUp(p: Params, now: int, reply: CarbonReply, new r: Result<Option<real>>)
      reads this
    {
      && thresholdMins == old(thresholdMins) && expiry == old(expiry)
      && var hit := Lookup(old(cache), expiry, CacheKey(p), now);
      if hit.Some? then
        r == Ok(hit.value) && cache == old(cache) && disk == old(disk) && fetches == old(fetches)
      else
        && fetches == old(fetches) + [p]
        && r == ProcessCo2Data(reply, now, thresholdMins)
        && (r.Ok? ==> cache == old(cache)[CacheKey(p) := Entry(r.value, now)] && disk == Some(SaveForm(cache)))
        && (r.Err? ==> cache == old(cache) && disk == old(disk))
    }

    /** `_get_co2_data(params)`; `reply` is what the provider would answer. */
    method GetCo2Data(p: Params, now: int, reply: CarbonReply) returns (r: Result<Option<real>>)
      modifies this
      ensures LookedUp(p, now, reply, r)
    {
      var key := CacheKey(p);
      if key in cache && now - cache[key].fetchedAt < expiry {
        return Ok(cache[key].value);
      }
      fetches := fetches + [p];
      var co2 := ProcessCo2Data(reply, now, thresholdMins);
      if co2.Err? {
        return co2;
      }
      cache := cache[key := Entry(co2.value, now)];
      SaveCache();
      r := co2;
    }

    /** `get_co2_by_gridid(grid_id)`. */
    method GetCo2ByGridId(gridId: string, now: int, reply: CarbonReply) returns (r: Result<Option<real>>)
      modifies this
      ensures LookedUp(Zone(gridId), now, reply, r)
    {
      r := GetCo2Data(Zone(gridId), now, reply);
    }

    /** `get_co2_by_latlon(lat, lon)`. */
    method GetCo2ByLatLon(lat: Option<string>, lon: Option<string>, now: int, reply: CarbonReply)
      returns (r: Result<Option<real>>)
      modifies this
      ensures LookedUp(LatLon(lat, lon), now, reply, r)
    {
      r := GetCo2Data(LatLon(lat, lon), now, reply);
    }
  }

  /** Two lookups of one location within the time-to-live of the first's
      fetch make one request between them and give the same answer, None included. */
  method RepeatWithinTtl(api: ElectricityMapApi, p: Params, now1: int, now2: int, reply1: CarbonReply, reply2: CarbonReply)
    returns (r1: Result<Option<real>>, r2: Result<Option<real>>)
    requires now1 <= now2 < now1 + api.expiry
    requires Lookup(api.cache, api.expiry, CacheKey(p), now1).None?
    modifies api
    ensures r1.Ok? ==> r2 == r1 && api.fetches == old(api.fetches) + [p]
  {
    r1 := api.GetCo2Data(p, now1, reply1);
    r2 := api.GetCo2Data(p, now2, reply2);
  }
}
