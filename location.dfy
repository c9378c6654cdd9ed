/** The location and provider checks of the monitor constructors
    (kasa_carbon/modules/omada_monitor.py, kasa_carbon/modules/kasa_monitor.py
    and the older modules/kasa_monitor.py), and the provider query a monitor's
    `_get_co2_data` makes. Latitude and longitude are held as the text `str()`
    gives them; None is an argument that was not given. */
module Location {
  import opened Common
  import opened CarbonIntensity

  /** A monitor's `lat`, `lon` and `grid_id` fields. */
  datatype Location = Location(lat: Option<string>, lon: Option<string>, gridId: Option<string>)

  const MissingLocation: string := "Must provide either local_lat/local_lon or local_grid_id"
  const UnsupportedProvider: string := "co2_api_provider must be 'EM' until others are supported"
  const SupportedProvider: string := "ElectricityMaps"

  /** The packaged monitors' check: a grid id, or else both coordinates, must
      be given; the coordinates are kept as passed, and so is the grid id. */
  function CheckLocation(lat: Option<string>, lon: Option<string>, gridId: Option<string>): (r: Result<Location>)
    ensures r.Err? <==> (lat.None? || lon.None?) && gridId.None?
    ensures r.Err? ==> r.error == ValueError(MissingLocation)
    ensures r.Ok? ==> r.value == Location(lat, lon, gridId)
  {
    if (lat.None? || lon.None?) && gridId.None? then Err(ValueError(MissingLocation))
    else Ok(Location(lat, lon, gridId))
  }

  /** The older monitor's check: without a grid id and with a coordinate
      missing, both coordinates come from LOCAL_LAT/LOCAL_LON (`envLat`,
      `envLon`); a grid id leaves the coordinates None; both coordinates
      given without a grid id raise ValueError. */
  function CheckLegacyLocation(lat: Option<string>, lon: Option<string>, gridId: Option<string>,
                               envLat: Option<string>, envLon: Option<string>): (r: Result<Location>)
    ensures r.Err? <==> lat.Some? && lon.Some? && gridId.None?
    ensures r.Err? ==> r.error == ValueError(MissingLocation)
    ensures r.Ok? && gridId.None? ==> r.value == Location(envLat, envLon, None)
    ensures r.Ok? && gridId.Some? ==> r.value == Location(None, None, gridId)
  {
    if (lat.None? || lon.None?) && gridId.None? then Ok(Location(envLat, envLon, None))
    else if gridId.Some? then Ok(Location(None, None, gridId))
    else Err(ValueError(MissingLocation))
  }

  /** Only the ElectricityMaps provider is accepted. */
  function CheckProvider(provider: string): (r: Result<()>)
    ensures r.Ok? <==> provider == SupportedProvider
    ensures r.Err? ==> r.error == ValueError(UnsupportedProvider)
  {
    if provider == SupportedProvider then Ok(()) else Err(ValueError(UnsupportedProvider))
  }

  /** A whole constructor's checks: location first, then the provider. */
  function CheckMonitorArgs(lat: Option<string>, lon: Option<string>, gridId: Option<string>, provider: string): (r: Result<Location>)
    ensures r.Ok? <==> CheckLocation(lat, lon, gridId).Ok? && provider == SupportedProvider
    ensures CheckLocation(lat, lon, gridId).Err? ==> r == Err(ValueError(MissingLocation))
    ensures CheckLocation(lat, lon, gridId).Ok? && provider != SupportedProvider ==> r == Err(ValueError(UnsupportedProvider))
    ensures r.Ok? ==> r.value == Location(lat, lon, gridId)
  {
    match CheckLocation(lat, lon, gridId)
    case Err(e) => Err(e)
    case Ok(loc) =>
      match CheckProvider(provider)
      case Err(e) => Err(e)
      case Ok(_) => Ok(loc)
  }

  /** `_get_co2_data`: by grid id when one is set, otherwise by coordinates. */
  function Co2Query(loc: Location): (p: Params)
    ensures loc.gridId.Some? ==> p == Zone(loc.gridId.value)
    ensures loc.gridId.None? ==> p == LatLon(loc.lat, loc.lon)
  {
    if loc.gridId.Some? then Zone(loc.gridId.value) else LatLon(loc.lat, loc.lon)
  }

  /** A grid id wins over coordinates given with it; coordinates alone are
      queried as given. */
  lemma QueryOfCheckedLocation(lat: Option<string>, lon: Option<string>, gridId: Option<string>)
    requires CheckLocation(lat, lon, gridId).Ok?
    ensures gridId.Some? ==> Co2Query(CheckLocation(lat, lon, gridId).value) == Zone(gridId.value)
    ensures gridId.None? ==>
      lat.Some? && lon.Some? && Co2Query(CheckLocation(lat, lon, gridId).value) == LatLon(lat, lon)
  {
  }

  /** The older check never leaves a location without a grid id but with
      given coordinates: such a location's coordinates are the environment's. */
  lemma LegacyQueryUsesEnvironment(lat: Option<string>, lon: Option<string>, gridId: Option<string>,
                                   envLat: Option<string>, envLon: Option<string>)
    requires CheckLegacyLocation(lat, lon, gridId, envLat, envLon).Ok?
    ensures gridId.None? ==> Co2Query(CheckLegacyLocation(lat, lon, gridId, envLat, envLon).value) == LatLon(envLat, envLon)
  {
  }

  /** The two checks differ exactly when both coordinates are given: the
      packaged one accepts them, the older one raises. */
  lemma ChecksDisagreeOnExplicitCoordinates(lat: string, lon: string, envLat: Option<string>, envLon: Option<string>)
    ensures CheckLocation(Some(lat), Some(lon), None) == Ok(Location(Some(lat), Some(lon), None))
    ensures CheckLegacyLocation(Some(lat), Some(lon), None, envLat, envLon) == Err(ValueError(MissingLocation))
  {
  }
}
