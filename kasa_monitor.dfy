/** The Kasa smart-plug monitor (kasa_carbon/modules/kasa_monitor.py):
    discovery on first use, and one power reading per plug, with power
    strips expanded into their outlets. Every call runs each device's
    `update()`; what it leaves the device in (or raises) is a parameter. */
module Kasa {
  import opened Common
  import opened Dicts
  import opened Location
  import opened CarbonIntensity
  import EnergyRecord
  import SamplingLoop

  /** A plug, or an outlet of a strip: its alias, whether it has an energy
      meter, and the meter's `power` reading. */
  datatype Plug = Plug(alias: string, hasEmeter: bool, power: real)

  /** A discovered device: a single plug, or a strip with its own emeter
      flag and its outlets. */
  datatype KasaDevice = Single(plug: Plug) | Strip(alias: string, hasEmeter: bool, children: seq<Plug>)

  /** The assignments the inner loop makes for a strip's outlets, in order. */
  function ChildItems(alias: string, children: seq<Plug>): (items: seq<(string, real)>)
    ensures |items| <= |children|
  {
    if |children| == 0 then []
    else
      var c := children[|children| - 1];
      ChildItems(alias, children[..|children| - 1]) + (if c.hasEmeter then [(alias + "-" + c.alias, c.power)] else [])
  }

  /** The assignments made for one device. */
  function DeviceItems(dev: KasaDevice): seq<(string, real)> {
    match dev
    case Single(p) => if p.hasEmeter then [(p.alias, p.power)] else []
    case Strip(alias, _, children) => ChildItems(alias, children)
  }

  /** The assignments made for every device, in the order of `self.devices`. */
  function SampleItems(devices: Dict<KasaDevice>): seq<(string, real)> {
    if |devices| == 0 then []
    else SampleItems(devices[..|devices| - 1]) + DeviceItems(devices[|devices| - 1].1)
  }

  /** The `energy_values` dict `monitor_energy_use_once` builds from `devices`. */
  function Readings(devices: Dict<KasaDevice>): Dict<real> {
    SetAll([], SampleItems(devices))
  }

  /** The index of the first `update()` that raises, or the number of
      devices when none does. */
  function FirstFailure(updated: seq<Result<KasaDevice>>): (n: nat)
    ensures n <= |updated|
    ensures forall j :: 0 <= j < n ==> updated[j].Ok?
    ensures n < |updated| ==> updated[n].Err?
  {
    if |updated| == 0 || updated[0].Err? then 0 else 1 + FirstFailure(updated[1..])
  }

  /** `devices` after the first `n` calls of `update()`: every address keeps
      its place, and each of the first `n` devices is in the state its
      `update()` left it in. */
  function Updated(devices: Dict<KasaDevice>, updated: seq<Result<KasaDevice>>, n: nat): (ds: Dict<KasaDevice>)
    requires n <= |devices| == |updated|
    requires forall j :: 0 <= j < n ==> updated[j].Ok?
    ensures |ds| == |devices|
    ensures forall i :: 0 <= i < |ds| ==> ds[i].0 == devices[i].0
    ensures forall i :: 0 <= i < n ==> ds[i].1 == updated[i].value
    ensures forall i :: n <= i < |ds| ==> ds[i] == devices[i]
  {
    seq(|devices|, i requires 0 <= i < |devices| => if i < n then (devices[i].0, updated[i].value) else devices[i])
  }

  /** Once every update has succeeded, the devices hold the states the
      updates returned, whatever state they were in before. */
  lemma UpdatedForgetsOldStates(d1: Dict<KasaDevice>, d2: Dict<KasaDevice>, updated: seq<Result<KasaDevice>>)
    requires |d1| == |d2| == |updated| && FirstFailure(updated) == |updated|
    requires forall i :: 0 <= i < |d1| ==> d1[i].0 == d2[i].0
    ensures Updated(d1, updated, |updated|) == Updated(d2, updated, |updated|)
  {
    var a := Updated(d1, updated, |updated|);
    var b := Updated(d2, updated, |updated|);
    forall i | 0 <= i < |a| ensures a[i] == b[i] {
      assert a[i].0 == d1[i].0 && b[i].0 == d2[i].0;
    }
  }

  /** A plug found at 100 W that draws 200 W at the next call reads 200 W. */
  lemma UpdateSeesNewPower(addr: string)
    ensures var ds := Updated([(addr, Single(Plug("lamp", true, 100.0)))], [Ok(Single(Plug("lamp", true, 200.0)))], 1);
            Readings(ds) == [("lamp", 200.0)]
  {
    var ds := Updated([(addr, Single(Plug("lamp", true, 100.0)))], [Ok(Single(Plug("lamp", true, 200.0)))], 1);
    assert ds == [(addr, Single(Plug("lamp", true, 200.0)))];
    SinglePlugReading(addr, Plug("lamp", true, 200.0));
  }

  /** The device gives a reading under key `k`: a plug with an emeter under
      its alias, a strip under "<strip alias>-<outlet alias>" for each outlet
      with an emeter. */
  ghost predicate Contributes(dev: KasaDevice, k: string) {
    match dev
    case Single(p) => p.hasEmeter && p.alias == k
    case Strip(alias, _, children) =>
      exists j :: 0 <= j < |children| && children[j].hasEmeter && alias + "-" + children[j].alias == k
  }

  /** Every key a strip's outlets give is the key of an outlet with an emeter. */
  lemma {:induction false} ChildItemsSound(alias: string, children: seq<Plug>, i: nat)
    requires i < |ChildItems(alias, children)|
    ensures exists j :: 0 <= j < |children| && children[j].hasEmeter &&
                        alias + "-" + children[j].alias == ChildItems(alias, children)[i].0
  {
    var front := children[..|children| - 1];
    var c := children[|children| - 1];
    var a := ChildItems(alias, front);
    assert ChildItems(alias, children) == a + (if c.hasEmeter then [(alias + "-" + c.alias, c.power)] else []);
    if i < |a| {
      ChildItemsSound(alias, front, i);
      var j :| 0 <= j < |front| && front[j].hasEmeter && alias + "-" + front[j].alias == a[i].0;
      assert children[j] == front[j];
    } else {
      var n := |children| - 1;
      assert children[n] == c;
      assert ChildItems(alias, children)[i] == (alias + "-" + c.alias, c.power);
    }
  }

  /** Every outlet with an emeter gives its key. */
  lemma {:induction false} ChildItemsComplete(alias: string, children: seq<Plug>, j: nat)
    requires j < |children| && children[j].hasEmeter
    ensures exists i :: 0 <= i < |ChildItems(alias, children)| &&
                        ChildItems(alias, children)[i].0 == alias + "-" + children[j].alias
  {
    var front := children[..|children| - 1];
    var c := children[|children| - 1];
    var a := ChildItems(alias, front);
    assert ChildItems(alias, children) == a + (if c.hasEmeter then [(alias + "-" + c.alias, c.power)] else []);
    if j < |front| {
      assert front[j] == children[j];
      ChildItemsComplete(alias, front, j);
      var i :| 0 <= i < |a| && a[i].0 == alias + "-" + front[j].alias;
      assert ChildItems(alias, children)[i] == a[i];
    } else {
      assert ChildItems(alias, children)[|a|] == (alias + "-" + c.alias, c.power);
    }
  }

  /** A strip's outlets give exactly the keys of their outlets with an emeter. */
  lemma ChildItemsExact(alias: string, children: seq<Plug>, k: string)
    ensures (exists i :: 0 <= i < |ChildItems(alias, children)| && ChildItems(alias, children)[i].0 == k) <==>
            (exists j :: 0 <= j < |children| && children[j].hasEmeter && alias + "-" + children[j].alias == k)
  {
    var items := ChildItems(alias, children);
    if exists i :: 0 <= i < |items| && items[i].0 == k {
      var i :| 0 <= i < |items| && items[i].0 == k;
      ChildItemsSound(alias, children, i);
    }
    if exists j :: 0 <= j < |children| && children[j].hasEmeter && alias + "-" + children[j].alias == k {
      var j :| 0 <= j < |children| && children[j].hasEmeter && alias + "-" + children[j].alias == k;
      ChildItemsComplete(alias, children, j);
    }
  }

  /** One device's assignments are exactly its contributions. */
  lemma DeviceItemsExact(dev: KasaDevice, k: string)
    ensures (exists i :: 0 <= i < |DeviceItems(dev)| && DeviceItems(dev)[i].0 == k) <==> Contributes(dev, k)
  {
    match dev
    case Single(p) =>
      if p.hasEmeter && p.alias == k {
        assert DeviceItems(dev)[0].0 == k;
      }
    case Strip(alias, _, children) =>
      assert DeviceItems(dev) == ChildItems(alias, children);
      ChildItemsExact(alias, children, k);
  }

  /** Every key the loops assign is contributed by some device. */
  lemma {:induction false} SampleItemsSound(devices: Dict<KasaDevice>, i: nat)
    requires i < |SampleItems(devices)|
    ensures exists d :: 0 <= d < |devices| && Contributes(devices[d].1, SampleItems(devices)[i].0)
  {
    assert |devices| > 0;
    var front := devices[..|devices| - 1];
    var last := devices[|devices| - 1].1;
    var a := SampleItems(front);
    var b := DeviceItems(last);
    var items := SampleItems(devices);
    assert items == a + b;
    if i < |a| {
      SampleItemsSound(front, i);
      assert items[i] == a[i];
      var d :| 0 <= d < |front| && Contributes(front[d].1, a[i].0);
      assert devices[d] == front[d];
    } else {
      assert items[i] == b[i - |a|];
      DeviceItemsExact(last, items[i].0);
      var n := |devices| - 1;
      assert devices[n].1 == last && Contributes(devices[n].1, items[i].0);
    }
  }

  /** Every contribution of a device is assigned. */
  lemma {:induction false} SampleItemsComplete(devices: Dict<KasaDevice>, d: nat, k: string)
    requires d < |devices| && Contributes(devices[d].1, k)
    ensures exists i :: 0 <= i < |SampleItems(devices)| && SampleItems(devices)[i].0 == k
  {
    var front := devices[..|devices| - 1];
    var last := devices[|devices| - 1].1;
    var a := SampleItems(front);
    var b := DeviceItems(last);
    var items := SampleItems(devices);
    assert items == a + b;
    if d < |front| {
      assert front[d] == devices[d];
      SampleItemsComplete(front, d, k);
      var i :| 0 <= i < |a| && a[i].0 == k;
      assert items[i] == a[i];
    } else {
      DeviceItemsExact(last, k);
      var i :| 0 <= i < |b| && b[i].0 == k;
      assert items[|a| + i] == b[i];
    }
  }

  /** All devices' assignments are exactly the devices' contributions. */
  lemma SampleItemsExact(devices: Dict<KasaDevice>, k: string)
    ensures (exists i :: 0 <= i < |SampleItems(devices)| && SampleItems(devices)[i].0 == k) <==>
            (exists d :: 0 <= d < |devices| && Contributes(devices[d].1, k))
  {
    var items := SampleItems(devices);
    if exists i :: 0 <= i < |items| && items[i].0 == k {
      var i :| 0 <= i < |items| && items[i].0 == k;
      SampleItemsSound(devices, i);
    }
    if exists d :: 0 <= d < |devices| && Contributes(devices[d].1, k) {
      var d :| 0 <= d < |devices| && Contributes(devices[d].1, k);
      SampleItemsComplete(devices, d, k);
    }
  }

  /** The readings hold a key exactly for each contribution of a device, with
      the power of the last device to contribute it. */
  lemma ReadingsExact(devices: Dict<KasaDevice>, k: string)
    ensures Get(Readings(devices), k).Some? <==> exists d :: 0 <= d < |devices| && Contributes(devices[d].1, k)
    ensures Get(Readings(devices), k) == LastFor(SampleItems(devices), k)
  {
    GetSetAll([], SampleItems(devices), k);
    SampleItemsExact(devices, k);
  }

  /** A strip's own emeter flag plays no part in its readings. */
  lemma StripFlagIgnored(alias: string, children: seq<Plug>)
    ensures DeviceItems(Strip(alias, true, children)) == DeviceItems(Strip(alias, false, children))
  {
  }

  /** A plug without an emeter gives nothing; one with an emeter gives its alias and power. */
  lemma SinglePlugReading(addr: string, p: Plug)
    ensures Readings([(addr, Single(p))]) == if p.hasEmeter then [(p.alias, p.power)] else []
  {
    var ds := [(addr, Single(p))];
    assert ds[..0] == [];
    assert SampleItems(ds) == DeviceItems(Single(p));
    if p.hasEmeter {
      assert [(p.alias, p.power)][..0] == [];
      assert SetAll([], [(p.alias, p.power)]) == Set([], p.alias, p.power) == [(p.alias, p.power)];
    }
  }

  /** A strip with outlets "a" (metered) and "b" (not) reads as "<strip>-a" only. */
  lemma StripReading(addr: string, strip: string, wa: real, wb: real, own: bool)
    ensures Readings([(addr, Strip(strip, own, [Plug("a", true, wa), Plug("b", false, wb)]))]) == [(strip + "-" + "a", wa)]
  {
    var cs := [Plug("a", true, wa), Plug("b", false, wb)];
    var item := (strip + "-" + "a", wa);
    assert cs[..1][..0] == [];
    assert cs[..1][0] == cs[0];
    assert ChildItems(strip, cs[..1]) == ChildItems(strip, cs[..1][..0]) + [item] == [item];
    assert cs[..|cs| - 1] == cs[..1];
    assert ChildItems(strip, cs) == ChildItems(strip, cs[..1]) + [] == [item];
    var ds := [(addr, Strip(strip, own, cs))];
    assert ds[..0] == [];
    assert SampleItems(ds) == SampleItems(ds[..0]) + DeviceItems(ds[0].1) == [item];
    var one: seq<(string, real)> := [item];
    assert one[..0] == [];
    assert SetAll([], one) == Set([], item.0, item.1) == [item];
  }

  lemma ChildStepStart(done: seq<(string, real)>, alias: string, children: seq<Plug>)
    ensures done + ChildItems(alias, children[..0]) == done
  {
    assert children[..0] == [];
  }

  /** One turn of the outlet loop. */
  lemma ChildStep(done: seq<(string, real)>, alias: string, children: seq<Plug>, j: nat)
    requires j < |children|
    ensures SetAll([], done + ChildItems(alias, children[..j + 1])) ==
            if children[j].hasEmeter
            then Set(SetAll([], done + ChildItems(alias, children[..j])), alias + "-" + children[j].alias, children[j].power)
            else SetAll([], done + ChildItems(alias, children[..j]))
  {
    assert children[..j + 1][..j] == children[..j];
    var before := done + ChildItems(alias, children[..j]);
    var c := children[j];
    if c.hasEmeter {
      assert done + ChildItems(alias, children[..j + 1]) == before + [(alias + "-" + c.alias, c.power)];
      assert (before + [(alias + "-" + c.alias, c.power)])[..|before|] == before;
    } else {
      assert done + ChildItems(alias, children[..j + 1]) == before;
    }
  }

  /** One turn of the device loop. */
  lemma DeviceStep(devices: Dict<KasaDevice>, i: nat)
    requires i < |devices|
    ensures SampleItems(devices[..i + 1]) == SampleItems(devices[..i]) + DeviceItems(devices[i].1)
  {
    assert devices[..i + 1][..i] == devices[..i];
  }

  /** A single plug's turn of the device loop. */
  lemma SingleStep(done: seq<(string, real)>, p: Plug)
    ensures SetAll([], done + DeviceItems(Single(p))) ==
            if p.hasEmeter then Set(SetAll([], done), p.alias, p.power) else SetAll([], done)
  {
    if p.hasEmeter {
      assert (done + [(p.alias, p.power)])[..|done|] == done;
    } else {
      assert done + [] == done;
    }
  }

  class KasaMonitor {
    var lat: Option<string>
    var lon: Option<string>
    var gridId: Option<string>
    /** `self.devices`: address to device, in discovery order. */
    var devices: Dict<KasaDevice>
    /** The number of discoveries run so far. */
    var discoveries: nat

    function Loc(): Location
      reads this
    {
      Location(lat, lon, gridId)
    }

    constructor Init(loc: Location)
      ensures Loc() == loc && devices == [] && discoveries == 0
    {
      lat := loc.lat;
      lon := loc.lon;
      gridId := loc.gridId;
      devices := [];
      discoveries := 0;
    }

    /** `KasaMonitor(api_key, local_lat, local_lon, local_grid_id, co2_api_provider)`:
        the location check, then the provider check. */
    static method Create(lat: Option<string>, lon: Option<string>, gridId: Option<string>, provider: string)
      returns (r: Result<KasaMonitor>)
      ensures r.Err? <==> CheckMonitorArgs(lat, lon, gridId, provider).Err?
      ensures r.Err? ==> r.error == CheckMonitorArgs(lat, lon, gridId, provider).error
      ensures r.Ok? ==> fresh(r.value) && r.value.Loc() == Location(lat, lon, gridId)
      ensures r.Ok? ==> r.value.devices == [] && r.value.discoveries == 0
    {
      var checked := CheckMonitorArgs(lat, lon, gridId, provider);
      if checked.Err? {
        return Err(checked.error);
      }
      var m := new KasaMonitor.Init(checked.value);
      r := Ok(m);
    }

    /** `discover_devices()`: the devices found on the network replace the old ones. */
    method DiscoverDevices(found: Dict<KasaDevice>)
      modifies this
      ensures devices == found && discoveries == old(discoveries) + 1 && Loc() == old(Loc())
    {
      devices := found;
      discoveries := discoveries + 1;
    }

    /** The body of `monitor_energy_use_once`'s outer loop for one device
        `dev`, already updated: the readings it adds to those of `done`. */
    static method ReadDevice(done: seq<(string, real)>, energy: Dict<real>, dev: KasaDevice) returns (e: Dict<real>)
      requires energy == SetAll([], done)
      ensures e == SetAll([], done + DeviceItems(dev))
    {
      e := energy;
      match dev {
        case Strip(alias, _, children) =>
          var j := 0;
          ChildStepStart(done, alias, children);
          while j < |children|
            invariant 0 <= j <= |children|
            invariant e == SetAll([], done + ChildItems(alias, children[..j]))
          {
            var plug := children[j];
            ChildStep(done, alias, children, j);
            if plug.hasEmeter {
              e := Set(e, alias + "-" + plug.alias, plug.power);
            }
            j := j + 1;
          }
          assert children[..|children|] == children;
        case Single(p) =>
          SingleStep(done, p);
          if p.hasEmeter {
            e := Set(e, p.alias, p.power);
          }
      }
    }

    /** The loop of `monitor_energy_use_once` over `devices`: `update()` each
        device in turn (`updated[i]` is what the i-th update leaves it in, or
        what it raises), then read it. The first update that raises ends
        the call; the devices updated before it keep their new state. */
    static method ReadDevices(devices: Dict<KasaDevice>, updated: seq<Result<KasaDevice>>)
      returns (ds: Dict<KasaDevice>, r: Result<Dict<real>>)
      requires |updated| == |devices|
      ensures var n := FirstFailure(updated);
              && ds == Updated(devices, updated, n)
              && (n < |updated| ==> r == Err(updated[n].error))
              && (n == |updated| ==> r == Ok(Readings(ds)))
    {
      ds := devices;
      var energy := [];
      var i := 0;
      assert devices[..0] == [];
      while i < |ds|
        invariant 0 <= i <= |ds| == |devices|
        invariant forall j :: 0 <= j < i ==> updated[j].Ok?
        invariant ds == Updated(devices, updated, i)
        invariant energy == SetAll([], SampleItems(ds[..i]))
      {
        if updated[i].Err? {
          return ds, Err(updated[i].error);
        }
        ghost var before := ds;
        ds := ds[i := (ds[i].0, updated[i].value)];
        assert ds == Updated(devices, updated, i + 1);
        assert ds[..i] == before[..i];
        energy := ReadDevice(SampleItems(ds[..i]), energy, ds[i].1);
        DeviceStep(ds, i);
        i := i + 1;
      }
      assert ds[..|ds|] == ds;
      r := Ok(energy);
    }

    /** `monitor_energy_use_once()`: discover first when there are no devices
        (`found` is what discovery would return), then update and read every
        device; `updated` holds one update result per device. */
    method MonitorEnergyUseOnce(found: Dict<KasaDevice>, updated: seq<Result<KasaDevice>>) returns (r: Result<Dict<real>>)
      requires |updated| == if devices == [] then |found| else |devices|
      modifies this
      ensures old(devices) == [] ==> discoveries == old(discoveries) + 1
      ensures old(devices) != [] ==> discoveries == old(discoveries)
      ensures var n := FirstFailure(updated);
              && devices == Updated(if old(devices) == [] then found else old(devices), updated, n)
              && (n < |updated| ==> r == Err(updated[n].error))
              && (n == |updated| ==> r == Ok(Readings(devices)))
      ensures Loc() == old(Loc())
    {
      if |devices| == 0 {
        DiscoverDevices(found);
      }
      var ds;
      ds, r := ReadDevices(devices, updated);
      devices := ds;
    }

    /** `_get_co2_data()`: the provider query for this monitor's location. */
    function Co2Params(): (p: Params)
      reads this
      ensures gridId.Some? ==> p == Zone(gridId.value)
      ensures gridId.None? ==> p == LatLon(lat, lon)
    {
      Co2Query(Loc())
    }

    /** `monitor_energy_use_continuously(db, delay, timeout=None)`: the
        shared sampling loop, fed by this monitor's readings and lookups. */
    method MonitorEnergyUseContinuously(ticks: seq<SamplingLoop.TickInput>, delay: int, timeout: Option<int> := None)
      returns (outcome: SamplingLoop.Outcome, events: seq<SamplingLoop.Event<EnergyRecord.EnergyUsage>>)
      ensures outcome == SamplingLoop.Monitor(delay, timeout, ticks).0
      ensures events == SamplingLoop.Monitor(delay, timeout, ticks).1
    {
      outcome, events := SamplingLoop.MonitorEnergyUse(delay, timeout, ticks);
    }
  }
}
