/** `create_monitor` (kasa_carbon/modules/device_factory.py): the device
    type picks the monitor class, and the remaining arguments go to its
    constructor unchanged. */
module DeviceFactory {
  import opened Common
  import opened Location
  import Omada
  import Kasa

  /** The monitor classes the factory knows. */
  datatype DeviceKind = OmadaKind | KasaKind

  const UnknownPrefix: string := "Unknown device_type: "

  /** The factory's dispatch on `device_type`: exactly 'omada' and 'kasa' are
      known; anything else raises a ValueError that names it. */
  function Kind(deviceType: string): (r: Result<DeviceKind>)
    ensures r == Ok(OmadaKind) <==> deviceType == "omada"
    ensures r == Ok(KasaKind) <==> deviceType == "kasa"
    ensures r.Err? <==> deviceType != "omada" && deviceType != "kasa"
    ensures r.Err? ==> r.error == ValueError(UnknownPrefix + deviceType)
  {
    if deviceType == "omada" then Ok(OmadaKind)
    else if deviceType == "kasa" then Ok(KasaKind)
    else Err(ValueError(UnknownPrefix + deviceType))
  }

  /** The error text ends with the rejected device type, so different
      unknown types give different errors. */
  lemma UnknownTypeNamed(t1: string, t2: string)
    requires Kind(t1).Err? && Kind(t2).Err?
    ensures |Kind(t1).error.msg| == |UnknownPrefix| + |t1|
    ensures Kind(t1).error.msg[|UnknownPrefix|..] == t1
    ensures Kind(t1) == Kind(t2) <==> t1 == t2
  {
    if Kind(t1) == Kind(t2) {
      assert (UnknownPrefix + t1)[|UnknownPrefix|..] == t1;
      assert (UnknownPrefix + t2)[|UnknownPrefix|..] == t2;
    }
  }

  /** A monitor the factory returns. */
  datatype Monitor = OmadaMonitor(omada: Omada.OmadaMonitor) | KasaMonitor(kasa: Kasa.KasaMonitor)

  /** `create_monitor(device_type, **kwargs)` with the keyword arguments the
      two constructors share. */
  method CreateMonitor(deviceType: string, lat: Option<string>, lon: Option<string>, gridId: Option<string>, provider: string)
    returns (r: Result<Monitor>)
    ensures Kind(deviceType).Err? ==> r == Err(Kind(deviceType).error)
    ensures Kind(deviceType).Ok? ==>
      (r.Ok? <==> CheckMonitorArgs(lat, lon, gridId, provider).Ok?) &&
      (r.Err? ==> r.error == CheckMonitorArgs(lat, lon, gridId, provider).error)
    ensures r.Ok? && deviceType == "omada" ==>
      r.value.OmadaMonitor? && fresh(r.value.omada) && r.value.omada.Loc() == Location(lat, lon, gridId)
    ensures r.Ok? && deviceType == "kasa" ==>
      r.value.KasaMonitor? && fresh(r.value.kasa) && r.value.kasa.Loc() == Location(lat, lon, gridId)
  {
    var kind := Kind(deviceType);
    if kind.Err? {
      return Err(kind.error);
    }
    if kind.value == OmadaKind {
      var m := Omada.OmadaMonitor.Create(lat, lon, gridId, provider);
      if m.Err? {
        return Err(m.error);
      }
      r := Ok(OmadaMonitor(m.value));
    } else {
      var m := Kasa.KasaMonitor.Create(lat, lon, gridId, provider);
      if m.Err? {
        return Err(m.error);
      }
      r := Ok(KasaMonitor(m.value));
    }
  }
}
