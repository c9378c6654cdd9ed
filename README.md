# kasa_carbon in Dafny

This project models the core of kasa_carbon, which monitors home energy use and its carbon cost. A monitor samples the power drawn by Kasa smart plugs (or by the PoE ports of a TP-Link Omada switch). It looks up the grid's carbon intensity from ElectricityMaps, caching the answer on disk. It then turns each reading into an emission figure and writes one record per device to a sink: a Postgres table or a CSV file.

The model keeps the logic that is left once the network, the disk and the clock are taken out:

- Every remote reply is a parameter of the method that would make the call: the Omada token and site replies, the PoE-usage reply, the state each Kasa device's `update()` leaves it in (or the exception it raises) at every call, and the ElectricityMaps reply.
- Instants are integer seconds, passed in as `now`.
- A file is a sequence of rows.
- A database connection is a three-state flag: none, open or closed.
- The sampling loops run over a finite list of per-tick inputs and return the trace of calls they make.

Modules, one per source file, plus three shared ones:

| module | file |
|---|---|
| `Common` | Option, Result, the exceptions raised, `str()` of an optional string |
| `Text` | decimal text of integers, its parser, Python's `int()` of a text, `str.join` |
| `Dicts` | insertion-ordered Python dicts as association lists |
| `EnergyRecord` | modules/energy_usage.py |
| `Database` | kasa_carbon/modules/database.py |
| `FileSink` | kasa_carbon/modules/file_storage.py |
| `LegacyFileSink` | modules/file_storage.py |
| `CarbonIntensity` | modules/electricitymaps_api.py |
| `Location` | the constructor checks and `_get_co2_data` dispatch shared by the monitors |
| `Omada` | kasa_carbon/modules/omada_monitor.py |
| `Kasa` | kasa_carbon/modules/kasa_monitor.py |
| `LegacyKasa` | modules/kasa_monitor.py |
| `SamplingLoop` | kasa_carbon/modules/generic_monitor.py |
| `DeviceFactory` | kasa_carbon/modules/device_factory.py |

Points where the model follows the code rather than its comments or docstrings:

- `CACHE_EXPIRY` is `timedelta(N)`, which is N *days*. The model uses N·86400 seconds, although the variable name says minutes.
- `read_usage` in the packaged file sink takes `lines[-last_n:]` literally:
  - `last_n = 0` returns every line;
  - a negative `last_n` drops lines from the front.
- On expiry, the docstring talks of "30 minutes", but the TTL check is strict (`now - fetched < expiry`).
- In the staleness check a value exactly at the threshold is kept: only `> threshold` minutes is stale.
- The packaged loop multiplies the intensity directly. An intensity of None therefore raises TypeError as soon as there is a device to write.
- The older Kasa constructor raises when both coordinates are given without a grid id. When a coordinate is missing, it takes the coordinates from the environment.

## Model

| member | source | states |
|---|---|---|
| EnergyRecord.UsageKeys | modules/energy_usage.py:24-26 | `keys()` lists five distinct column names |
| EnergyRecord.FromDict | modules/energy_usage.py:5-10 | the dict constructor succeeds iff all five keys are present and copies each field from its key; otherwise it raises KeyError on a missing column |
| EnergyRecord.GetDict | modules/energy_usage.py:19-21 | `get_dict()` has the keys of `keys()` in order, each with its field's value |
| EnergyRecord.FromPositional | modules/energy_usage.py:11-16 | device, power, co2emitted and co2 go to their columns, and the timestamp is `now` |
| EnergyRecord.GetDictAt | modules/energy_usage.py:19-21 | looking up each column name in `get_dict()` gives that field |
| EnergyRecord.FromDictOfGetDict | modules/energy_usage.py:5-21 | building a record from its own dict gives the record back |
| EnergyRecord.GetDictOfFromDict | modules/energy_usage.py:5-21 | for a dict with exactly the five keys, building a record and taking `get_dict()` gives an equal dict |
| Database.Placeholders | kasa_carbon/modules/database.py:37 | n placeholders, the i-th being `$` followed by i+1 |
| Database.GenerateInsertSqlQuery | kasa_carbon/modules/database.py:34-38 | the INSERT names the `get_dict` columns in order, whatever the record holds |
| Database.InsertPlaceholders | kasa_carbon/modules/database.py:34-38 | the INSERT has exactly `$1`..`$5` |
| Database.InsertBindsColumnValues | kasa_carbon/modules/database.py:11-16 | the i-th bound value is the value of the i-th column, and there is one placeholder per column |
| Database.SelectLimitReadsBack | kasa_carbon/modules/database.py:40-45 | every SELECT ends in LIMIT followed by `last_n`, which can be parsed back from the text |
| Database.DefaultSelectText | kasa_carbon/modules/database.py:20-45 | with the defaults, the query is `SELECT * ... ORDER BY timestamp DESC LIMIT 10` |
| Database.SelectListText | kasa_carbon/modules/database.py:43-45 | a column list is joined with `", "` |
| Database.GenerateSelectSqlQuery | kasa_carbon/modules/database.py:40-45 | the SELECT text: `*` kept as it is, a column list joined with `", "`, newest first, `LIMIT` and `last_n`; its properties are the three rows above |
| Database.AfterClose | kasa_carbon/modules/database.py:29-32 | close leaves no open connection and leaves a missing or closed one as it was |
| Database.CloseIdempotent | kasa_carbon/modules/database.py:29-32 | a second close changes nothing |
| Database.Database.constructor | kasa_carbon/modules/database.py:7-9 | a new sink holds no connection and has made no call |
| Database.Database.Close | kasa_carbon/modules/database.py:29-32 | an open connection is closed and forgotten; otherwise nothing happens |
| Database.Database.WriteUsage | kasa_carbon/modules/database.py:11-18 | connect, execute the INSERT with the record's values in column order, then close on every outcome; a refused statement raises a server error and a dropped connection ConnectionError |
| Database.Database.ReadUsage | kasa_carbon/modules/database.py:20-27 | with `last_n` 10 and columns `*` by default: connect, fetch the SELECT, then close on every outcome, returning the rows; a refused statement raises a server error and a dropped connection ConnectionError |
| FileSink.HeaderRow | kasa_carbon/modules/file_storage.py:16 | the header row is `EnergyUsage.keys()` |
| FileSink.UsageRow | kasa_carbon/modules/file_storage.py:22 | a written row holds a record's values in column order |
| FileSink.AfterWrite | kasa_carbon/modules/file_storage.py:19-22 | "append" adds exactly one row at the end and keeps the earlier rows; any other mode leaves only that row |
| FileSink.LastLines | kasa_carbon/modules/file_storage.py:27 | Python's `[-last_n:]`: for n > 0, min(n, length) lines; all lines for 0; for n < 0, all but the first −n; always a suffix |
| FileSink.LastLineIsLastWrite | kasa_carbon/modules/file_storage.py:18-28 | after any write, the last line read is the row just written |
| FileSink.LastLinesOfShortFile | kasa_carbon/modules/file_storage.py:27 | a file shorter than `last_n` is read whole |
| FileSink.LastLinesAfterAppend | kasa_carbon/modules/file_storage.py:18-28 | after an append, the last n lines are the last n−1 old lines plus the new row |
| FileSink.FileStorage.constructor | kasa_carbon/modules/file_storage.py:7-16 | a missing file gets the header row; an existing file is kept as it is |
| FileSink.FileStorage.WriteUsage | kasa_carbon/modules/file_storage.py:18-22 | the contents become `AfterWrite` of the old contents |
| FileSink.FileStorage.ReadUsage | kasa_carbon/modules/file_storage.py:24-28 | returns `LastLines(lines, last_n)`, with `last_n` 10 by default, and changes nothing |
| FileSink.FileStorage.Close | kasa_carbon/modules/file_storage.py:30-31 | changes nothing |
| FileSink.FreshAppendThenRead | kasa_carbon/modules/file_storage.py:7-28 | a new file, then one append, reads back as header plus row |
| FileSink.FreshOverwriteThenRead | kasa_carbon/modules/file_storage.py:7-28 | a new file, then one overwrite, reads back as the row alone, with the header lost |
| LegacyFileSink.FileStorage.constructor | modules/file_storage.py:7-16 | the header row is written only when the file is missing |
| LegacyFileSink.FileStorage.WriteUsage | modules/file_storage.py:18-22 | append or overwrite, as in the packaged sink |
| LegacyFileSink.FileStorage.ReadUsage | modules/file_storage.py:24-26 | every line, in file order |
| LegacyFileSink.FileStorage.Close | modules/file_storage.py:28-29 | changes nothing |
| LegacyFileSink.AppendTwiceThenRead | modules/file_storage.py:18-26 | two appends read back after the existing lines, in order |
| CarbonIntensity.ParamValues | modules/electricitymaps_api.py:51-72 | the parameter values, in order: the grid id, or `str(lat)`, `str(lon)` |
| CarbonIntensity.CacheKey | modules/electricitymaps_api.py:72 | `str()` of each parameter value, joined with `_`; its two forms are the next two rows |
| CarbonIntensity.ZoneKey | modules/electricitymaps_api.py:51-72 | a grid query's cache key is the grid id |
| CarbonIntensity.LatLonKey | modules/electricitymaps_api.py:66-72 | a coordinate query's key is `"<lat>_<lon>"` |
| CarbonIntensity.LatLonKeyInjective | modules/electricitymaps_api.py:72 | for latitudes without `_`, equal keys mean equal coordinates |
| CarbonIntensity.ProcessCo2Data | modules/electricitymaps_api.py:89-94 | a missing `updatedAt` raises KeyError; a value more than the threshold's minutes from now gives None; otherwise the reported intensity, with a missing or null value raising |
| CarbonIntensity.ThresholdBoundary | modules/electricitymaps_api.py:92-94 | exactly at the threshold the value is kept; one second later it is None |
| CarbonIntensity.Lookup | modules/electricitymaps_api.py:73-74 | a hit iff the key is cached and `now − fetched < expiry`, returning the cached value |
| CarbonIntensity.StoredEntryServes | modules/electricitymaps_api.py:73-84 | a stored entry, None included, answers later lookups until it expires |
| CarbonIntensity.StoreOtherKey | modules/electricitymaps_api.py:84 | storing one key does not change lookups of another |
| CarbonIntensity.SaveForm | modules/electricitymaps_api.py:30-34 | saving keeps every key |
| CarbonIntensity.LoadForm | modules/electricitymaps_api.py:21-28 | loading succeeds iff every timestamp parses, keeping the keys and values |
| CarbonIntensity.LoadSave | modules/electricitymaps_api.py:21-34 | loading what was saved gives back every key, value and timestamp |
| CarbonIntensity.ElectricityMapApi.Init | modules/electricitymaps_api.py:12-15 | the threshold and expiry are set, and the cache starts empty |
| CarbonIntensity.ElectricityMapApi.Create | modules/electricitymaps_api.py:12-19 | an unset expiry variable gives TypeError, a text `int()` refuses gives ValueError, and a day count beyond ±999999999 gives OverflowError; otherwise the expiry is N days, and the cache is cleared, or loaded from the file (a bad timestamp raising), or empty when there is no file; it fails exactly when `CreateError` names an error, with that error |
| Text.PyIntOfParseInt | modules/electricitymaps_api.py:15 | every text the plain decimal parser accepts is read by `int()` as the same number |
| Text.PyIntSignAndSpace | modules/electricitymaps_api.py:15 | `int()` accepts a leading `+` and surrounding whitespace, which the plain parser refuses |
| Text.PyIntUnderscores | modules/electricitymaps_api.py:15 | single underscores between digits are dropped: `1_0` is 10 and `-0_5` is −5 |
| Text.PyIntRefused | modules/electricitymaps_api.py:15 | a doubled, leading or trailing underscore, a sign alone, two signs and the empty text are refused |
| CarbonIntensity.ElectricityMapApi.LoadCache | modules/electricitymaps_api.py:21-28 | the cache becomes the file's contents, or empty when there is no file |
| CarbonIntensity.ElectricityMapApi.SaveCache | modules/electricitymaps_api.py:30-34 | the file becomes the save form of the cache |
| CarbonIntensity.ElectricityMapApi.ClearCache | modules/electricitymaps_api.py:36-38 | the cache is emptied and the empty cache is saved |
| CarbonIntensity.ElectricityMapApi.GetCo2Data | modules/electricitymaps_api.py:69-87 | a hit answers from the cache and changes nothing; a miss makes exactly one request, stores (value, now) under that key only, and saves |
| CarbonIntensity.ElectricityMapApi.GetCo2ByGridId | modules/electricitymaps_api.py:40-52 | the lookup under a zone query |
| CarbonIntensity.ElectricityMapApi.GetCo2ByLatLon | modules/electricitymaps_api.py:54-67 | the lookup under a coordinate query |
| CarbonIntensity.RepeatWithinTtl | modules/electricitymaps_api.py:73-87 | two lookups within the TTL make one request and give the same answer, None included |
| Location.CheckLocation | kasa_carbon/modules/omada_monitor.py:20-29 | a missing location raises ValueError; otherwise lat, lon and grid id are kept as passed |
| Location.CheckLegacyLocation | modules/kasa_monitor.py:9-21 | with no grid id and a coordinate missing, both coordinates come from the environment; a grid id leaves them None; both given with no grid id raises |
| Location.CheckProvider | kasa_carbon/modules/omada_monitor.py:31-34 | only "ElectricityMaps" is accepted |
| Location.CheckMonitorArgs | kasa_carbon/modules/omada_monitor.py:20-34 | the location is checked before the provider, and each error is reported as raised |
| Location.Co2Query | kasa_carbon/modules/omada_monitor.py:163-167 | query by grid id when one is set, else by coordinates |
| Location.QueryOfCheckedLocation | kasa_carbon/modules/kasa_monitor.py:18-58 | an accepted location queries its grid id, or else both given coordinates |
| Location.LegacyQueryUsesEnvironment | modules/kasa_monitor.py:14-57 | without a grid id, the older monitor queries the environment's coordinates |
| Location.ChecksDisagreeOnExplicitCoordinates | modules/kasa_monitor.py:14-21 | explicit coordinates are accepted by the packaged check and rejected by the older one |
| Omada.NewTokens | kasa_carbon/modules/omada_monitor.py:60-87 | non-200 exits and keeps the old tokens; 200 sets the token, the refresh token, expiry now+expiresIn and refresh expiry now+13 days |
| Omada.Refresh | kasa_carbon/modules/omada_monitor.py:89-115 | 200 replaces only the token and its expiry; non-200 falls back to one full exchange |
| Omada.ValidTokenNoExchange | kasa_carbon/modules/omada_monitor.py:48-49 | an unexpired token makes no request and changes nothing |
| Omada.RefreshPrecedence | kasa_carbon/modules/omada_monitor.py:49-51 | an expired token with a usable refresh token is refreshed first |
| Omada.FullExchangeWithoutRefresh | kasa_carbon/modules/omada_monitor.py:49-53 | without a usable refresh token there is exactly one full exchange |
| Omada.EnsureToken | kasa_carbon/modules/omada_monitor.py:48-53 | a valid token is kept, else a usable refresh token is refreshed, else the full exchange runs; the three rows around this one state each case |
| Omada.EnsureTokenKeepsWellFormed | kasa_carbon/modules/omada_monitor.py:48-115 | the token fields stay consistent: a token comes with its expiry |
| Omada.EnsureTokenThenValid | kasa_carbon/modules/omada_monitor.py:48-115 | after a successful exchange with a positive lifetime, the token is valid at that instant |
| Omada.Headers | kasa_carbon/modules/omada_monitor.py:55-58 | exactly two headers: `AccessToken=<token>` and `application/json` |
| Omada.PortItemsExact | kasa_carbon/modules/omada_monitor.py:140-142 | the inner loop assigns a port id iff some port with that id has `poeEnabled` true, a missing flag counting as false |
| Omada.PoeItemsExact | kasa_carbon/modules/omada_monitor.py:139-142 | both loops together assign exactly the enabled ports of every switch |
| Omada.ParsedEnergyExact | kasa_carbon/modules/omada_monitor.py:137-143 | a port id is a key iff some port with that id has `poeEnabled` true, and its value is the last such port's power, 0 when missing |
| Omada.ParsedEnergyUnique | kasa_carbon/modules/omada_monitor.py:137-143 | the parsed dict has no repeated key |
| Omada.DuplicatePortLaterWins | kasa_carbon/modules/omada_monitor.py:140-142 | a later port with the same id overwrites an earlier one |
| Omada.ParseExample | kasa_carbon/modules/omada_monitor.py:140-142 | disabled and flag-less ports are dropped, and an enabled port with no power reads 0 |
| Omada.ParsedEnergy | kasa_carbon/modules/omada_monitor.py:137-143 | the dict both loops build over the reply's switches; described exactly by `ParsedEnergyExact` |
| Omada.PoeStage | kasa_carbon/modules/omada_monitor.py:148-160 | the PoE-usage request for the site with the given header: 200 gives the parsed reply, any other status RemoteError; the site id is stored and the request recorded last |
| Omada.SiteLookup | kasa_carbon/modules/omada_monitor.py:117-131 | `get_site_id` as a function of the token fields and the stored id; `SiteLookupCases` states its cases |
| Omada.EnergyOnce | kasa_carbon/modules/omada_monitor.py:145-160 | `monitor_energy_use_once` as a function of the token fields and the stored site id; `EnergyOnceStages` and the `Once…` rows state it |
| Omada.SiteLookupCases | kasa_carbon/modules/omada_monitor.py:117-131 | a stored id is returned with no request; otherwise the header exchange, then one site request; non-200 raises RemoteError and an empty list IndexError, both leaving the id unset; a found id is the first and is stored |
| Omada.EnergyOnceStages | kasa_carbon/modules/omada_monitor.py:145-160 | the call is the header exchange, then the site lookup, then one PoE request with the first headers, each stage ending the call when it raises |
| Omada.OnceKeepsKnownSite | kasa_carbon/modules/omada_monitor.py:117-119 | with a stored site id the id is kept, no site request is made, and the token fields are those of the first exchange |
| Omada.OnceSucceeds | kasa_carbon/modules/omada_monitor.py:145-160 | the call succeeds iff the header exchange succeeds, a site id is stored or found, and the PoE reply is 200; it then returns the parsed reply and stores the site id |
| Omada.OnceOnePoeRequest | kasa_carbon/modules/omada_monitor.py:145-160 | at most one PoE request, always the last call; on success it names the stored site id and carries the first headers |
| Omada.OnceValidTokenKnownSite | kasa_carbon/modules/omada_monitor.py:145-160 | with a valid token and a stored site id the only request is the PoE request, and nothing else changes |
| Omada.OnceOneExchange | kasa_carbon/modules/omada_monitor.py:145-160 | when the first exchange leaves a valid token, the second header call makes no request, so the site and PoE requests carry the same header |
| Omada.OmadaMonitor.Init | kasa_carbon/modules/omada_monitor.py:41-45 | no token, no refresh token, no site id |
| Omada.OmadaMonitor.Create | kasa_carbon/modules/omada_monitor.py:20-45 | the location check, then the provider check; on success the location is kept and the token state is empty |
| Omada.OmadaMonitor.GetNewTokens | kasa_carbon/modules/omada_monitor.py:60-87 | the state becomes `NewTokens` of the old state, and the request is recorded |
| Omada.OmadaMonitor.RefreshAccessToken | kasa_carbon/modules/omada_monitor.py:89-115 | the state becomes `Refresh` of the old state, and the requests are recorded |
| Omada.OmadaMonitor.GetApiHeaders | kasa_carbon/modules/omada_monitor.py:48-58 | the token life cycle, then the headers built from the token held after it |
| Omada.OmadaMonitor.GetSiteId | kasa_carbon/modules/omada_monitor.py:117-131 | the result, the token fields, the stored id and the new requests are `SiteLookup` of the old state, whose cases `SiteLookupCases` states |
| Omada.OmadaMonitor.ParseEnergyData | kasa_carbon/modules/omada_monitor.py:137-143 | the nested loop computes `ParsedEnergy` of the reply |
| Omada.OmadaMonitor.Co2Params | kasa_carbon/modules/omada_monitor.py:163-167 | query by grid id when set, else by coordinates |
| Omada.OmadaMonitor.MonitorEnergyUseOnce | kasa_carbon/modules/omada_monitor.py:145-160 | the result, the token fields, the stored site id and the new requests are `EnergyOnce` of the old state, whose stages and success condition the `Once…` rows state |
| Omada.OmadaMonitor.MonitorEnergyUseContinuously | kasa_carbon/modules/omada_monitor.py:169-170 | the shared loop, with a delay of 5 and a timeout of 60 by default |
| Kasa.ChildItemsExact | kasa_carbon/modules/kasa_monitor.py:43-46 | a strip assigns `"<strip>-<outlet>"` iff that outlet has an emeter |
| Kasa.SampleItemsExact | kasa_carbon/modules/kasa_monitor.py:40-49 | the loops over all devices assign a key iff some device contributes it |
| Kasa.DeviceItemsExact | kasa_carbon/modules/kasa_monitor.py:42-49 | a device contributes a key iff it is a strip outlet with an emeter (`strip-outlet`) or a plug with an emeter (`alias`) |
| Kasa.ReadingsExact | kasa_carbon/modules/kasa_monitor.py:40-51 | a key is read iff some device contributes it, and its value is the last contribution |
| Kasa.StripFlagIgnored | kasa_carbon/modules/kasa_monitor.py:42-46 | the strip's own emeter flag does not matter |
| Kasa.SinglePlugReading | kasa_carbon/modules/kasa_monitor.py:47-49 | one plug gives `alias → power`, or nothing without an emeter |
| Kasa.StripReading | kasa_carbon/modules/kasa_monitor.py:42-46 | a strip with a metered and an unmetered outlet gives only `"<strip>-a"` |
| Kasa.Readings | kasa_carbon/modules/kasa_monitor.py:40-51 | the `energy_values` dict the loops build over the devices; described exactly by `ReadingsExact` |
| Kasa.FirstFailure | kasa_carbon/modules/kasa_monitor.py:40-41 | the first device whose `update()` raises: every earlier update succeeded, and it is the number of devices when none raises |
| Kasa.Updated | kasa_carbon/modules/kasa_monitor.py:40-41 | after the first n updates every address keeps its place, the first n devices hold the states their updates left, and the rest are unchanged |
| Kasa.UpdatedForgetsOldStates | kasa_carbon/modules/kasa_monitor.py:40-49 | once every update succeeds, the devices, and so the readings, depend only on what the updates returned, not on the state at discovery |
| Kasa.UpdateSeesNewPower | kasa_carbon/modules/kasa_monitor.py:40-49 | a plug found at 100 W that draws 200 W at the next call reads 200 W |
| Kasa.KasaMonitor.Init | kasa_carbon/modules/kasa_monitor.py:14-22 | the location is kept and the device set is empty |
| Kasa.KasaMonitor.Create | kasa_carbon/modules/kasa_monitor.py:13-27 | the location check, then the provider check, each error as raised |
| Kasa.KasaMonitor.DiscoverDevices | kasa_carbon/modules/kasa_monitor.py:29-31 | the found devices replace the old set |
| Kasa.KasaMonitor.ReadDevice | kasa_carbon/modules/kasa_monitor.py:42-49 | one device's turn of the loop adds its `DeviceItems` to the readings so far |
| Kasa.KasaMonitor.ReadDevices | kasa_carbon/modules/kasa_monitor.py:40-51 | update each device in turn, then read it: the devices become `Updated` up to `FirstFailure`; a raising update is raised, and otherwise the result is `Readings` of the updated devices |
| Kasa.KasaMonitor.MonitorEnergyUseOnce | kasa_carbon/modules/kasa_monitor.py:33-51 | discovers iff the device set is empty; then every device is updated and read, the stored devices take their updated states, and the result is the readings of those states or the first update's exception |
| Kasa.KasaMonitor.Co2Params | kasa_carbon/modules/kasa_monitor.py:54-58 | query by grid id when set, else by coordinates |
| Kasa.KasaMonitor.MonitorEnergyUseContinuously | kasa_carbon/modules/kasa_monitor.py:61-81 | the shared loop, with no timeout by default |
| SamplingLoop.RunClosesOnce | kasa_carbon/modules/generic_monitor.py:8-35 | a run that has ended closed the sink exactly once, as its last call; one still running has not |
| SamplingLoop.RunNeverFinishes | kasa_carbon/modules/generic_monitor.py:30-31 | with no tick breaking, the loop never ends normally |
| SamplingLoop.RunFirstTick | kasa_carbon/modules/generic_monitor.py:9-35 | a run's calls are its first tick's calls, followed by the rest of the run or by the close |
| SamplingLoop.Run | kasa_carbon/modules/generic_monitor.py:8-35 | the `while True` loop in `try … finally`: ticks run in order until one breaks or raises, and the close follows; its properties are the three rows above |
| SamplingLoop.EmissionUnits | kasa_carbon/modules/generic_monitor.py:17-19 | the emission is delay·power·co2 / 3.6·10⁹ |
| SamplingLoop.EmissionExamples | kasa_carbon/modules/generic_monitor.py:17-19 | 1 kW for an hour at 500 g/kWh gives 0.5 |
| SamplingLoop.Emission | kasa_carbon/modules/generic_monitor.py:17-19 | hours times kilowatts times intensity over 1000; `EmissionUnits` gives it in watt-seconds |
| SamplingLoop.UsageRecordFromDict | kasa_carbon/modules/generic_monitor.py:20-28 | the record built from the tick's dict carries device, power, emission and intensity |
| SamplingLoop.TickNeverCloses | kasa_carbon/modules/generic_monitor.py:9-33 | the sink is closed only in `finally` |
| SamplingLoop.TickOrder | kasa_carbon/modules/generic_monitor.py:10-14 | sampling first, then the lookup, before any write; a sampling error stops before the lookup |
| SamplingLoop.TickWritesAll | kasa_carbon/modules/generic_monitor.py:14-33 | a tick with no exception before the timeout test wrote one record per device, all with the one intensity; it breaks iff elapsed ≥ timeout, and goes on only with a non-negative delay, sleeping `delay` last |
| SamplingLoop.EndOfTick | kasa_carbon/modules/generic_monitor.py:30-33 | break once elapsed ≥ timeout; otherwise a negative delay raises ValueError, and any other sleeps; `TickWritesAll` and `NegativeDelayRaises` state it |
| SamplingLoop.Tick | kasa_carbon/modules/generic_monitor.py:10-33 | one turn of the loop; `TickOrder`, `TickWritesAll`, `NoneIntensityRaises` and `TickNeverCloses` state its cases |
| SamplingLoop.NegativeDelayRaises | kasa_carbon/modules/generic_monitor.py:30-35 | a negative delay raises ValueError at the first sleep, after that tick's writes; the sink is then closed and no later tick runs |
| SamplingLoop.NegativeDelayStopsFirstTick | kasa_carbon/modules/generic_monitor.py:8-35 | with a negative delay every run has ended after its first tick, whatever the later ticks are |
| SamplingLoop.NoneIntensityRaises | kasa_carbon/modules/generic_monitor.py:19 | a None intensity with a device raises TypeError before any write |
| SamplingLoop.FailedWriteStops | kasa_carbon/modules/generic_monitor.py:8-35 | a refused write ends the loop: earlier devices are written, no later one is, then close |
| SamplingLoop.MonitorClosesOnce | kasa_carbon/modules/generic_monitor.py:8-35 | `db.close()` runs exactly once, last, on every way out |
| SamplingLoop.MonitorWithoutTimeout | kasa_carbon/modules/generic_monitor.py:30-31 | with timeout None the loop never ends normally |
| SamplingLoop.Monitor | kasa_carbon/modules/generic_monitor.py:5-35 | `Run` with `Tick` at the given delay and timeout; `MonitorClosesOnce` and `MonitorWithoutTimeout` state it |
| SamplingLoop.OneTickExample | kasa_carbon/modules/generic_monitor.py:5-35 | one device at 1 kW, delay 3600, intensity 500, timeout reached: calls are sample, lookup, one 0.5 record, close |
| SamplingLoop.RunTick | kasa_carbon/modules/generic_monitor.py:10-33 | one turn of the loop computes `Tick`, a negative sleep raising ValueError |
| SamplingLoop.MonitorEnergyUse | kasa_carbon/modules/generic_monitor.py:5-35 | the loop computes `Monitor` over the ticks, so it too closes once and stops at a negative sleep |
| LegacyKasa.LegacyDictContents | modules/kasa_monitor.py:70 | the written dict holds device, power and the raw intensity under `avg_mg_co2`, and lacks the packaged record's columns |
| LegacyKasa.LegacyDict | modules/kasa_monitor.py:70 | the dict written for one device; `LegacyDictContents` states its keys and values |
| LegacyKasa.LegacyTick | modules/kasa_monitor.py:63-76 | one turn of the older loop, with no arithmetic on the intensity |
| LegacyKasa.LegacyMonitor | modules/kasa_monitor.py:59-78 | `Run` with `LegacyTick`; `LegacyClosesOnce` states it |
| LegacyKasa.LegacyNegativeDelayRaises | modules/kasa_monitor.py:73-78 | a negative delay raises ValueError at the first sleep, after that tick's writes, and the sink is closed |
| LegacyKasa.LegacyNoneIntensityWrites | modules/kasa_monitor.py:67-71 | a None intensity is written as None for every device |
| LegacyKasa.LoopsWriteSameDevices | modules/kasa_monitor.py:68-71 | the older loop writes the same device and power as the packaged loop, at the same place in the trace |
| LegacyKasa.LegacyClosesOnce | modules/kasa_monitor.py:59-78 | `db.close()` runs exactly once, last, on every way out |
| LegacyKasa.KasaMonitor.Init | modules/kasa_monitor.py:10-24 | the checked location and the provider are kept, and the device set is empty |
| LegacyKasa.KasaMonitor.Create | modules/kasa_monitor.py:9-26 | the older location check, the provider check, then `ElectricityMapAPI()` with a threshold of 120 and no clearing, each error as raised; on success the provider holds the expiry and the loaded cache |
| LegacyKasa.KasaMonitor.DiscoverDevices | modules/kasa_monitor.py:28-30 | the found devices replace the old set |
| LegacyKasa.KasaMonitor.MonitorEnergyUseOnce | modules/kasa_monitor.py:32-50 | the same discovery, updates and readings as the packaged monitor |
| LegacyKasa.KasaMonitor.Co2Params | modules/kasa_monitor.py:53-57 | query by grid id when set, else by coordinates |
| LegacyKasa.KasaMonitor.RunLegacyTick | modules/kasa_monitor.py:63-76 | one turn of the older loop computes `LegacyTick`, a negative sleep raising ValueError |
| LegacyKasa.KasaMonitor.MonitorEnergyUseContinuously | modules/kasa_monitor.py:59-78 | the older loop computes `LegacyMonitor` over the ticks, with no timeout by default |
| DeviceFactory.Kind | kasa_carbon/modules/device_factory.py:18-23 | "omada" and "kasa" are known; any other type raises `ValueError("Unknown device_type: …")` |
| DeviceFactory.UnknownTypeNamed | kasa_carbon/modules/device_factory.py:22-23 | the error text ends with the rejected type, so different types give different errors |
| DeviceFactory.CreateMonitor | kasa_carbon/modules/device_factory.py:4-23 | an unknown type raises; otherwise the arguments pass through, and the constructor's errors surface unchanged |

## Left out

- Network calls (`requests`, `aiohttp`, `kasa.Discover.discover`, `device.update()`) are not made. Their results are parameters: status codes and the JSON fields that are read.
- Kasa.KasaMonitor.ReadDevices: a device whose `update()` raises keeps the state it had; whatever a partly completed update changes is not modelled.
- JSON parsing and the lookups inside replies are not modelled. A `result` or `data[0]` missing from a 200 reply (a KeyError or IndexError in Python) is not an input the model can express.
- Disk I/O (`os.path`, `open`, `json`, `csv.writer` quoting) and `asyncpg` are left out. A file is a row sequence, a connection a flag, and a server's answer a parameter.
- Clocks and time formats are inputs: `datetime.now`, `time.time`, `strptime` and `isoformat`. Instants are integer seconds. The cache file stores a timestamp as its decimal text, in place of ISO-8601.
- `time.sleep` is a `Slept` event in the trace; nothing waits. A negative length raises ValueError, as Python does.
- Environment variables are parameters: EM_CACHE_EXPIRY_MINS, LOCAL_LAT and LOCAL_LON.
- Text.PyInt: `int()` of the expiry text accepts a sign, surrounding whitespace and single underscores between digits, but only ASCII digits and ASCII-range whitespace; Python's other Unicode digits and spaces are not modelled.
- Sampling loops: each tick's readings and lookup result are given as inputs, rather than recomputed from the monitor's devices tick by tick.
- CarbonIntensity.ElectricityMapApi.GetCo2Data, Omada.NewTokens and Omada.EnsureToken use one `now` per call. Python reads the clock separately for the cache test, the stored fetch time and the staleness test (modules/electricitymaps_api.py:73, :84, :92), and for the token expiry test and the new expiries (kasa_carbon/modules/omada_monitor.py:49-50, :86-87). Also, the ValueError for a bad EM_CACHE_EXPIRY_MINS carries the raw text in place of Python's "invalid literal for int() with base 10" message.
- SamplingLoop.Tick: every record of a tick carries the tick's one `now`. Python reads `datetime.now` once per record, so the timestamps within a tick may differ. LegacyKasa.LegacyTick does the same.
- Sampling loops: each loop runs over a finite list of ticks. When the list runs out, the model reports the loop as still running.
- `exit()` after a failed token exchange is an `Exit` error outcome, not process termination. The message printed before it is left out.
- The exception messages that embed a status and the reply text are reduced to the status.
- The provider object each packaged monitor builds (`ElectricityMapAPI(em_api_key=..., em_cache_expiry_mins=...)`) is left out, along with the API key and the Omada client credentials. That variant's module, kasa_carbon/modules/electricitymaps_api.py, is not part of this model.
- `OmadaMonitor.discover_devices` is left out because its body is `pass`.
- Float rounding is not modelled. Power, intensity and emission are exact reals; the code only adds, multiplies and divides them.
- Database: the methods are modelled as running one at a time. The entry point runs `write_usage` in a background task and `read_usage` in the main coroutine on one object, and both reassign `self.conn`; that interleaving, where one call's close can close the other's connection, is not modelled.
- Omada.EnergyOnce: the two header calls of one `monitor_energy_use_once` are answered by the same token replies.
- The older modules/database.py and the abstract interface classes are left out; the interfaces have no behaviour.
- The entry points, configuration, packaging and test fixtures are left out.
