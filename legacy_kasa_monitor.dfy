/** The older Kasa monitor (modules/kasa_monitor.py): the same device
    readings as the packaged one, a different location check, and its own
    sampling loop, which writes plain dicts holding the grid intensity itself
    rather than `EnergyUsage` records with a computed emission. */
module LegacyKasa {
  import opened Common
  import opened Dicts
  import opened EnergyRecord
  import opened Text
  import opened Location
  import opened CarbonIntensity
  import Kasa
  import opened SamplingLoop

  /** The dict written for one device: the intensity lookup's value is stored
      under `avg_mg_co2` as it came back, None included. */
  function LegacyDict(device: string, power: real, co2: Option<real>, now: int): Dict<Value> {
    [("device", VStr(device)), ("timestamp", VTime(now)), ("power", VReal(power)),
     ("avg_mg_co2", if co2.Some? then VReal(co2.value) else VNone)]
  }

  /** The writes for the devices `items`, in order, all under one lookup result. */
  function LegacyWrites(items: Dict<real>, co2: Option<real>, now: int): seq<Event<Dict<Value>>> {
    seq(|items|, i requires 0 <= i < |items| => Wrote(LegacyDict(items[i].0, items[i].1, co2, now)))
  }

  lemma LegacyWritesStep(items: Dict<real>, j: nat, co2: Option<real>, now: int)
    requires j < |items|
    ensures LegacyWrites(items[..j + 1], co2, now) ==
            LegacyWrites(items[..j], co2, now) + [Wrote(LegacyDict(items[j].0, items[j].1, co2, now))]
  {
    var a := LegacyWrites(items[..j + 1], co2, now);
    var b := LegacyWrites(items[..j], co2, now) + [Wrote(LegacyDict(items[j].0, items[j].1, co2, now))];
    assert |a| == |b|;
    forall i | 0 <= i < |a| ensures a[i] == b[i] {
      if i < j {
        assert items[..j + 1][i] == items[..j][i];
      }
    }
  }

  /** One turn of `monitor_energy_use_continuously`'s loop. Nothing is
      computed from the intensity, so a None intensity is written as it is. */
  function LegacyTick(delay: int, timeout: Option<int>, t: TickInput): (TickEnd, seq<Event<Dict<Value>>>) {
    match t.samples
    case Err(e) => (Fail(e), [Sampled])
    case Ok(items) =>
      match t.co2
      case Err(e) => (Fail(e), [Sampled, LookedUp])
      case Ok(co2) =>
        if t.failAt.Some? && t.failAt.value < |items| then
          (Fail(SinkError), [Sampled, LookedUp] + LegacyWrites(items[..t.failAt.value], co2, t.now))
        else EndOfTick(delay, timeout, t.elapsed, [Sampled, LookedUp] + LegacyWrites(items, co2, t.now))
  }

  function LegacyStep(delay: int, timeout: Option<int>): TickInput -> (TickEnd, seq<Event<Dict<Value>>>) {
    t => LegacyTick(delay, timeout, t)
  }

  /** The older loop, tick by tick. */
  function LegacyMonitor(delay: int, timeout: Option<int>, ticks: seq<TickInput>): (Outcome, seq<Event<Dict<Value>>>) {
    Run(LegacyStep(delay, timeout), ticks)
  }

  /** The written dict holds the device, its power and the intensity under
      the older key names; it lacks the columns of an `EnergyUsage`. */
  lemma LegacyDictContents(device: string, power: real, co2: Option<real>, now: int)
    ensures var d := LegacyDict(device, power, co2, now);
            && UniqueKeys(d)
            && Get(d, "device") == Some(VStr(device))
            && Get(d, "power") == Some(VReal(power))
            && Get(d, "avg_mg_co2") == Some(if co2.Some? then VReal(co2.value) else VNone)
            && Get(d, "power_draw_watts").None?
            && FromDict(d) == Err(KeyError("power_draw_watts"))
  {
    var d := LegacyDict(device, power, co2, now);
    assert UniqueKeys(d);
    GetItem(d, 2);
    GetItem(d, 3);
  }

  /** Unlike the packaged loop, an intensity of None does not stop the
      older loop: every device is still written. */
  lemma LegacyNoneIntensityWrites(delay: int, timeout: Option<int>, t: TickInput)
    requires t.samples.Ok? && t.co2 == Ok(None) && t.failAt.None?
    ensures LegacyTick(delay, timeout, t).0 != Fail(TypeError)
    ensures var evs := LegacyTick(delay, timeout, t).1;
            forall i :: 0 <= i < |t.samples.value| ==>
              evs[2 + i] == Wrote(LegacyDict(t.samples.value[i].0, t.samples.value[i].1, None, t.now))
  {
  }

  /** The two loops on the same tick: where the packaged loop writes a device's
      record, the older one writes a dict for the same device and power. */
  lemma LoopsWriteSameDevices(delay: int, timeout: Option<int>, t: TickInput, i: nat)
    requires t.samples.Ok? && t.co2.Ok? && t.co2.value.Some?
    requires i < |t.samples.value| && i + 2 < |Tick(delay, timeout, t).1|
    ensures i + 2 < |LegacyTick(delay, timeout, t).1|
    ensures Tick(delay, timeout, t).1[i + 2].record.device == VStr(t.samples.value[i].0)
    ensures Get(LegacyTick(delay, timeout, t).1[i + 2].record, "device") == Some(VStr(t.samples.value[i].0))
    ensures Tick(delay, timeout, t).1[i + 2].record.powerDrawWatts == VReal(t.samples.value[i].1)
    ensures Get(LegacyTick(delay, timeout, t).1[i + 2].record, "power") == Some(VReal(t.samples.value[i].1))
  {
    var items := t.samples.value;
    var c := t.co2.value.value;
    assert Tick(delay, timeout, t).1[i + 2] == Wrote(UsageRecord(items[i].0, items[i].1, c, delay, t.now));
    assert LegacyTick(delay, timeout, t).1[i + 2] == Wrote(LegacyDict(items[i].0, items[i].1, Some(c), t.now));
    LegacyDictContents(items[i].0, items[i].1, Some(c), t.now);
  }

  /** A negative delay makes the older loop raise ValueError at its first
      sleep as well, after that tick's writes, and close the sink. */
  lemma LegacyNegativeDelayRaises(delay: int, timeout: Option<int>, t: TickInput, later: seq<TickInput>)
    requires delay < 0 && t.samples.Ok? && t.co2.Ok?
    requires t.failAt.None? && !(timeout.Some? && t.elapsed >= timeout.value)
    ensures LegacyMonitor(delay, timeout, [t] + later) ==
            (Raised(ValueError(NegativeSleep)), [Sampled, LookedUp] + LegacyWrites(t.samples.value, t.co2.value, t.now) + [Closed])
  {
  }

  lemma LegacyTickNeverCloses(delay: int, timeout: Option<int>, t: TickInput)
    ensures Closed !in LegacyTick(delay, timeout, t).1
  {
    if t.samples.Ok? && t.co2.Ok? {
      var items := t.samples.value;
      var n := if t.failAt.Some? && t.failAt.value < |items| then t.failAt.value else |items|;
      var w := LegacyWrites(items[..n], t.co2.value, t.now);
      assert forall i :: 0 <= i < |w| ==> w[i].Wrote?;
      assert items[..|items|] == items;
    }
  }

  /** The older loop closes the sink once, last, on every way out. */
  lemma LegacyClosesOnce(delay: int, timeout: Option<int>, ticks: seq<TickInput>)
    ensures var (o, evs) := LegacyMonitor(delay, timeout, ticks);
            && (o == Running ==> Closed !in evs)
            && (o != Running ==> |evs| > 0 && evs[|evs| - 1] == Closed && Closed !in evs[..|evs| - 1])
  {
    forall t ensures Closed !in LegacyStep(delay, timeout)(t).1 {
      LegacyTickNeverCloses(delay, timeout, t);
    }
    RunClosesOnce(LegacyStep(delay, timeout), ticks);
  }

  /** `modules/kasa_monitor.py`'s `KasaMonitor`. */
  class KasaMonitor {
    var lat: Option<string>
    var lon: Option<string>
    var gridId: Option<string>
    var devices: Dict<Kasa.KasaDevice>
    var discoveries: nat
    /** `self.co2_api`, the intensity provider the constructor builds. */
    var co2Api: ElectricityMapApi

    function Loc(): Location
      reads this
    {
      Location(lat, lon, gridId)
    }

    constructor Init(loc: Location, api: ElectricityMapApi)
      ensures Loc() == loc && devices == [] && discoveries == 0 && co2Api == api
    {
      lat := loc.lat;
      lon := loc.lon;
      gridId := loc.gridId;
      devices := [];
      discoveries := 0;
      co2Api := api;
    }

    /** `KasaMonitor(local_lat, local_lon, local_grid_id, co2_api_provider)`
        with LOCAL_LAT and LOCAL_LON read as `envLat` and `envLon`: the older
        location check, then the provider check, then `ElectricityMapAPI()`
        with its defaults (a 120-minute threshold, the cache kept), given
        EM_CACHE_EXPIRY_MINS as `expiryEnv` and the cache file as `disk`. */
    static method Create(lat: Option<string>, lon: Option<string>, gridId: Option<string>, provider: string,
                         envLat: Option<string>, envLon: Option<string>,
                         expiryEnv: Option<string>, disk: Option<CacheFile>)
      returns (r: Result<KasaMonitor>)
      ensures CheckLegacyLocation(lat, lon, gridId, envLat, envLon).Err? ==> r == Err(ValueError(MissingLocation))
      ensures CheckLegacyLocation(lat, lon, gridId, envLat, envLon).Ok? && provider != SupportedProvider ==>
                r == Err(ValueError(UnsupportedProvider))
      ensures && CheckLegacyLocation(lat, lon, gridId, envLat, envLon).Ok? && provider == SupportedProvider
              && CreateError(false, expiryEnv, disk).Some?
              ==> r == Err(CreateError(false, expiryEnv, disk).value)
      ensures r.Ok? <==> && CheckLegacyLocation(lat, lon, gridId, envLat, envLon).Ok?
                         && provider == SupportedProvider
                         && CreateError(false, expiryEnv, disk).None?
      ensures r.Ok? ==> fresh(r.value) && r.value.Loc() == CheckLegacyLocation(lat, lon, gridId, envLat, envLon).value
      ensures r.Ok? ==> r.value.devices == [] && r.value.discoveries == 0
      ensures r.Ok? ==>
        var api := r.value.co2Api;
        && fresh(api) && api.thresholdMins == DefaultThresholdMins && api.fetches == []
        && api.expiry == PyInt(expiryEnv.value).value * SecondsPerDay
        && api.cache == (if disk.None? then map[] else LoadForm(disk.value).value) && api.disk == disk
    {
      var loc := CheckLegacyLocation(lat, lon, gridId, envLat, envLon);
      if loc.Err? {
        return Err(loc.error);
      }
      var ok := CheckProvider(provider);
      if ok.Err? {
        return Err(ok.error);
      }
      var api := ElectricityMapApi.Create(DefaultThresholdMins, false, expiryEnv, disk);
      if api.Err? {
        return Err(api.error);
      }
      var m := new KasaMonitor.Init(loc.value, api.value);
      r := Ok(m);
    }

    /** `discover_devices()`. */
    method DiscoverDevices(found: Dict<Kasa.KasaDevice>)
      modifies this
      ensures devices == found && discoveries == old(discoveries) + 1 && Loc() == old(Loc())
    {
      devices := found;
      discoveries := discoveries + 1;
    }

    /** `monitor_energy_use_once()`: the same code as the packaged monitor's. */
    method MonitorEnergyUseOnce(found: Dict<Kasa.KasaDevice>, updated: seq<Result<Kasa.KasaDevice>>)
      returns (r: Result<Dict<real>>)
      requires |updated| == if devices == [] then |found| else |devices|
      modifies this
      ensures old(devices) == [] ==> discoveries == old(discoveries) + 1
      ensures old(devices) != [] ==> discoveries == old(discoveries)
      ensures var n := Kasa.FirstFailure(updated);
              && devices == Kasa.Updated(if old(devices) == [] then found else old(devices), updated, n)
              && (n < |updated| ==> r == Err(updated[n].error))
              && (n == |updated| ==> r == Ok(Kasa.Readings(devices)))
      ensures Loc() == old(Loc())
    {
      if |devices| == 0 {
        DiscoverDevices(found);
      }
      var ds;
      ds, r := Kasa.KasaMonitor.ReadDevices(devices, updated);
      devices := ds;
    }

    /** `_get_co2_data()`. */
    function Co2Params(): (p: Params)
      reads this
      ensures gridId.Some? ==> p == Zone(gridId.value)
      ensures gridId.None? ==> p == LatLon(lat, lon)
    {
      Co2Query(Loc())
    }

    /** One turn of the older loop. */
    static method RunLegacyTick(delay: int, timeout: Option<int>, t: TickInput)
      returns (end: TickEnd, evs: seq<Event<Dict<Value>>>)
      ensures end == LegacyTick(delay, timeout, t).0 && evs == LegacyTick(delay, timeout, t).1
    {
      evs := [Sampled];
      if t.samples.Err? {
        return Fail(t.samples.error), evs;
      }
      var items := t.samples.value;
      evs := evs + [LookedUp];
      assert evs == [Sampled, LookedUp];
      if t.co2.Err? {
        return Fail(t.co2.error), evs;
      }
      var co2 := t.co2.value;
      var j := 0;
      while j < |items|
        invariant 0 <= j <= |items|
        invariant evs == [Sampled, LookedUp] + LegacyWrites(items[..j], co2, t.now)
        invariant t.failAt.Some? ==> j <= t.failAt.value
      {
        if t.failAt == Some(j) {
          return Fail(SinkError), evs;
        }
        LegacyWritesStep(items, j, co2, t.now);
        evs := evs + [Wrote(LegacyDict(items[j].0, items[j].1, co2, t.now))];
        j := j + 1;
      }
      assert items[..|items|] == items;
      if timeout.Some? && t.elapsed >= timeout.value {
        return Finish, evs;
      }
      if delay < 0 {
        return Fail(ValueError(NegativeSleep)), evs;
      }
      evs := evs + [Slept(delay)];
      end := Continue;
    }

    /** `monitor_energy_use_continuously(db, delay, timeout)`. */
    method MonitorEnergyUseContinuously(ticks: seq<TickInput>, delay: int, timeout: Option<int> := None)
      returns (outcome: Outcome, events: seq<Event<Dict<Value>>>)
      ensures outcome == LegacyMonitor(delay, timeout, ticks).0 && events == LegacyMonitor(delay, timeout, ticks).1
    {
      ghost var step := LegacyStep(delay, timeout);
      events := [];
      outcome := Running;
      var i := 0;
      var stopped := false;
      assert ticks[0..] == ticks;
      assert events + Run(step, ticks).1 == Run(step, ticks).1;
      while i < |ticks| && !stopped
        invariant 0 <= i <= |ticks|
        invariant !stopped ==> outcome == Running && Run(step, ticks) == (Run(step, ticks[i..]).0, events + Run(step, ticks[i..]).1)
        invariant stopped ==> Run(step, ticks) == (outcome, events)
      {
        var end, tickEvents := RunLegacyTick(delay, timeout, ticks[i]);
        assert step(ticks[i]) == (end, tickEvents);
        RunAdvance(step, ticks, i, events, Run(step, ticks));
        events := events + tickEvents;
        match end {
          case Finish =>
            outcome := Finished;
            events := events + [Closed];
            stopped := true;
          case Fail(e) =>
            outcome := Raised(e);
            events := events + [Closed];
            stopped := true;
          case Continue =>
        }
        i := i + 1;
      }
      if !stopped {
        assert ticks[i..] == [];
      }
    }
  }
}
