/** The energy-usage record written once per device per sampling tick
    (modules/energy_usage.py). Python stores whatever it is given in the five
    fields, so a field holds a dynamically typed `Value`. */
module EnergyRecord {
  import opened Common
  import opened Dicts

  /** A Python value held by a record field: None, a text, a number or an instant. */
  datatype Value = VNone | VStr(s: string) | VReal(r: real) | VTime(t: int)

  datatype EnergyUsage = EnergyUsage(
    device: Value,
    timestamp: Value,
    powerDrawWatts: Value,
    avgEmittedMgco2e: Value,
    gridCarbonIntensity: Value)

  /** `EnergyUsage.keys()`: the column names, in order. */
  function UsageKeys(): (ks: seq<string>)
    ensures |ks| == 5
    ensures forall i, j :: 0 <= i < j < |ks| ==> ks[i] != ks[j]
  {
    ["device", "timestamp", "power_draw_watts", "avg_emitted_mgco2e", "grid_carbon_intensity_gco2perkwhr"]
  }

  /** `d` holds all five column names (perhaps among others). */
  predicate HasUsageKeys(d: Dict<Value>) {
    && "device" in Keys(d) && "timestamp" in Keys(d) && "power_draw_watts" in Keys(d)
    && "avg_emitted_mgco2e" in Keys(d) && "grid_carbon_intensity_gco2perkwhr" in Keys(d)
  }

  /** `EnergyUsage(energy_usage_dict=d)`: reads the five keys in order and
      raises KeyError at the first one that is missing. */
  function FromDict(d: Dict<Value>): (r: Result<EnergyUsage>)
    ensures r.Ok? <==> HasUsageKeys(d)
    ensures r.Ok? ==> r.value == EnergyUsage(Get(d, "device").value, Get(d, "timestamp").value,
                                             Get(d, "power_draw_watts").value, Get(d, "avg_emitted_mgco2e").value,
                                             Get(d, "grid_carbon_intensity_gco2perkwhr").value)
    ensures r.Err? ==> r.error.KeyError? && r.error.key in UsageKeys() && r.error.key !in Keys(d)
  {
    match (Get(d, "device"), Get(d, "timestamp"), Get(d, "power_draw_watts"),
           Get(d, "avg_emitted_mgco2e"), Get(d, "grid_carbon_intensity_gco2perkwhr"))
    case (None, _, _, _, _) => Err(KeyError("device"))
    case (_, None, _, _, _) => Err(KeyError("timestamp"))
    case (_, _, None, _, _) => Err(KeyError("power_draw_watts"))
    case (_, _, _, None, _) => Err(KeyError("avg_emitted_mgco2e"))
    case (_, _, _, _, None) => Err(KeyError("grid_carbon_intensity_gco2perkwhr"))
    case (Some(dv), Some(ts), Some(pw), Some(em), Some(ci)) => Ok(EnergyUsage(dv, ts, pw, em, ci))
  }

  /** `u.get_dict()`: the five fields under `keys()`, in that order. */
  function GetDict(u: EnergyUsage): (d: Dict<Value>)
    ensures Keys(d) == UsageKeys()
    ensures Values(d) == [u.device, u.timestamp, u.powerDrawWatts, u.avgEmittedMgco2e, u.gridCarbonIntensity]
  {
    [("device", u.device), ("timestamp", u.timestamp), ("power_draw_watts", u.powerDrawWatts),
     ("avg_emitted_mgco2e", u.avgEmittedMgco2e), ("grid_carbon_intensity_gco2perkwhr", u.gridCarbonIntensity)]
  }

  /** `EnergyUsage(device, power, co2emitted, co2)` at instant `now`: the
      positional arguments land under these keys of the record's dict. */
  function FromPositional(device: Value, power: Value, co2emitted: Value, co2: Value, now: int): (u: EnergyUsage)
    ensures GetDict(u) == [("device", device), ("timestamp", VTime(now)), ("power_draw_watts", power),
                           ("avg_emitted_mgco2e", co2emitted), ("grid_carbon_intensity_gco2perkwhr", co2)]
  {
    EnergyUsage(device, VTime(now), power, co2emitted, co2)
  }

  /** Each column name of a record's dict finds that column's value. */
  lemma GetDictAt(u: EnergyUsage)
    ensures Get(GetDict(u), "device") == Some(u.device)
    ensures Get(GetDict(u), "timestamp") == Some(u.timestamp)
    ensures Get(GetDict(u), "power_draw_watts") == Some(u.powerDrawWatts)
    ensures Get(GetDict(u), "avg_emitted_mgco2e") == Some(u.avgEmittedMgco2e)
    ensures Get(GetDict(u), "grid_carbon_intensity_gco2perkwhr") == Some(u.gridCarbonIntensity)
  {
    var d := GetDict(u);
    assert UniqueKeys(d) by {
      forall i, j | 0 <= i < j < |d| ensures d[i].0 != d[j].0 {
        assert Keys(d)[i] == d[i].0 && Keys(d)[j] == d[j].0;
      }
    }
    GetItem(d, 0);
    GetItem(d, 1);
    GetItem(d, 2);
    GetItem(d, 3);
    GetItem(d, 4);
  }

  /** Building a record from its own dict gives the record back. */
  lemma FromDictOfGetDict(u: EnergyUsage)
    ensures FromDict(GetDict(u)) == Ok(u)
  {
    GetDictAt(u);
  }

  /** A dict whose keys are exactly the column names has all of them. */
  lemma ExactKeysHasUsageKeys(d: Dict<Value>)
    requires forall k :: k in Keys(d) <==> k in UsageKeys()
    ensures HasUsageKeys(d)
  {
    var ks := UsageKeys();
    assert ks[0] in ks && ks[1] in ks && ks[2] in ks && ks[3] in ks && ks[4] in ks;
  }

  /** `EnergyUsage(energy_usage_dict=d).get_dict() == d` for every dict whose
      keys are exactly the five column names. */
  lemma GetDictOfFromDict(d: Dict<Value>)
    requires forall k :: k in Keys(d) <==> k in UsageKeys()
    ensures FromDict(d).Ok?
    ensures DictEq(GetDict(FromDict(d).value), d)
  {
    ExactKeysHasUsageKeys(d);
    var u := FromDict(d).value;
    GetDictAt(u);
    var g := GetDict(u);
    forall k ensures Get(g, k) == Get(d, k) {
      var ks := UsageKeys();
      if k !in ks {
        assert k !in Keys(g) && k !in Keys(d);
      } else if k == ks[0] {
        assert Get(g, k) == Some(u.device);
      } else if k == ks[1] {
        assert Get(g, k) == Some(u.timestamp);
      } else if k == ks[2] {
        assert Get(g, k) == Some(u.powerDrawWatts);
      } else if k == ks[3] {
        assert Get(g, k) == Some(u.avgEmittedMgco2e);
      } else {
        assert k == ks[4];
        assert Get(g, k) == Some(u.gridCarbonIntensity);
      }
    }
  }
}
