/** The Omada PoE monitor (kasa_carbon/modules/omada_monitor.py): the
    access/refresh token life cycle, the memoised site id, and the parsing of
    the PoE-usage reply into per-port power. Each remote call's reply is
    given to the method that would make it; `now` is the instant of the call. */
module Omada {
  import opened Common
  import opened Dicts
  import opened Location
  import opened CarbonIntensity
  import EnergyRecord
  import SamplingLoop

  /** The refresh token is taken to live 13 days. */
  const RefreshLifetime: int := 13 * 86400

  /** A reply of the token endpoint: its HTTP status and, on 200, the fields
      of `result` that are read (a refresh reply's `refreshToken` is unused). */
  datatype TokenReply = TokenReply(status: int, accessToken: string, refreshToken: string, expiresIn: int)

  /** The token fields `token`, `token_expiration`, `refresh_token`, `refresh_token_expiration`. */
  datatype TokenState = TokenState(
    token: Option<string>,
    tokenExpiration: Option<int>,
    refreshToken: Option<string>,
    refreshTokenExpiration: Option<int>)

  /** Each token is set together with its expiry, as every assignment in the source does. */
  predicate WellFormed(s: TokenState) {
    s.token.Some? == s.tokenExpiration.Some? && s.refreshToken.Some? == s.refreshTokenExpiration.Some?
  }

  /** The access token can be used at `now`. */
  predicate TokenValid(s: TokenState, now: int)
    requires WellFormed(s)
  {
    s.token.Some? && now < s.tokenExpiration.value
  }

  /** `self.refresh_token and now < self.refresh_token_expiration`: an empty
      refresh token is false in Python. */
  predicate RefreshUsable(s: TokenState, now: int)
    requires WellFormed(s)
  {
    s.refreshToken.Some? && s.refreshToken.value != "" && now < s.refreshTokenExpiration.value
  }

  /** The requests made to the controller, in order. */
  datatype OmadaCall =
    | TokenRequest
    | RefreshRequest(refreshToken: Option<string>)
    | SiteRequest(authorization: string)
    | PoeRequest(siteId: string, authorization: string)

  /** The effect of a token operation: what it returns (or raises), the token
      fields after it, and the requests it made. */
  datatype Step = Step(outcome: Result<()>, tokens: TokenState, calls: seq<OmadaCall>)

  /** `get_new_tokens()`: a 200 reply replaces all four fields; any other
      status ends in `exit()` with the fields untouched. */
  function NewTokens(s: TokenState, now: int, reply: TokenReply): (st: Step)
    ensures st.calls == [TokenRequest]
    ensures st.outcome.Err? <==> reply.status != 200
    ensures st.outcome.Err? ==> st.outcome.error == Exit && st.tokens == s
    ensures st.outcome.Ok? ==>
      st.tokens == TokenState(Some(reply.accessToken), Some(now + reply.expiresIn),
                              Some(reply.refreshToken), Some(now + RefreshLifetime))
  {
    if reply.status != 200 then Step(Err(Exit), s, [TokenRequest])
    else Step(Ok(()), TokenState(Some(reply.accessToken), Some(now + reply.expiresIn),
                                 Some(reply.refreshToken), Some(now + RefreshLifetime)), [TokenRequest])
  }

  /** `refresh_access_token()`: a 200 reply replaces the access token and its
      expiry only; any other status falls back to one full exchange. */
  function Refresh(s: TokenState, now: int, refreshReply: TokenReply, tokenReply: TokenReply): (st: Step)
    ensures |st.calls| >= 1 && st.calls[0] == RefreshRequest(s.refreshToken)
    ensures refreshReply.status == 200 ==>
      && st.outcome == Ok(()) && st.calls == [RefreshRequest(s.refreshToken)]
      && st.tokens.token == Some(refreshReply.accessToken)
      && st.tokens.tokenExpiration == Some(now + refreshReply.expiresIn)
      && st.tokens.refreshToken == s.refreshToken
      && st.tokens.refreshTokenExpiration == s.refreshTokenExpiration
    ensures refreshReply.status != 200 ==>
      var full := NewTokens(s, now, tokenReply);
      st.calls == [RefreshRequest(s.refreshToken), TokenRequest] && st.outcome == full.outcome && st.tokens == full.tokens
  {
    if refreshReply.status != 200 then
      var full := NewTokens(s, now, tokenReply);
      Step(full.outcome, full.tokens, [RefreshRequest(s.refreshToken)] + full.calls)
    else
      Step(Ok(()), s.(token := Some(refreshReply.accessToken), tokenExpiration := Some(now + refreshReply.expiresIn)),
           [RefreshRequest(s.refreshToken)])
  }

  /** The exchange `get_api_headers()` makes before building the headers. */
  function EnsureToken(s: TokenState, now: int, refreshReply: TokenReply, tokenReply: TokenReply): (st: Step)
    requires WellFormed(s)
  {
    if TokenValid(s, now) then Step(Ok(()), s, [])
    else if RefreshUsable(s, now) then Refresh(s, now, refreshReply, tokenReply)
    else NewTokens(s, now, tokenReply)
  }

  /** A usable token is used as it is: no request, no change. */
  lemma ValidTokenNoExchange(s: TokenState, now: int, refreshReply: TokenReply, tokenReply: TokenReply)
    requires WellFormed(s) && TokenValid(s, now)
    ensures EnsureToken(s, now, refreshReply, tokenReply) == Step(Ok(()), s, [])
  {
  }

  /** An expired token with a usable refresh token is refreshed: the full
      exchange happens only when the refresh is refused. */
  lemma RefreshPrecedence(s: TokenState, now: int, refreshReply: TokenReply, tokenReply: TokenReply)
    requires WellFormed(s) && !TokenValid(s, now) && RefreshUsable(s, now)
    ensures var st := EnsureToken(s, now, refreshReply, tokenReply);
            st.calls[0] == RefreshRequest(s.refreshToken) && (TokenRequest in st.calls <==> refreshReply.status != 200)
  {
  }

  /** Without a usable refresh token, an expired or missing token leads to
      exactly one full exchange. */
  lemma FullExchangeWithoutRefresh(s: TokenState, now: int, refreshReply: TokenReply, tokenReply: TokenReply)
    requires WellFormed(s) && !TokenValid(s, now) && !RefreshUsable(s, now)
    ensures EnsureToken(s, now, refreshReply, tokenReply).calls == [TokenRequest]
  {
  }

  /** Every exchange keeps each token paired with its expiry; a failed one
      (`exit()`) leaves every field as it was. */
  lemma EnsureTokenKeepsWellFormed(s: TokenState, now: int, refreshReply: TokenReply, tokenReply: TokenReply)
    requires WellFormed(s)
    ensures var st := EnsureToken(s, now, refreshReply, tokenReply);
            WellFormed(st.tokens) && (st.outcome.Err? ==> st.outcome == Err(Exit) && st.tokens == s)
  {
  }

  /** After a successful exchange whose token lives at least a second, the
      token is usable at once, so a second call at the same instant makes no request. */
  lemma EnsureTokenThenValid(s: TokenState, now: int, refreshReply: TokenReply, tokenReply: TokenReply)
    requires WellFormed(s)
    requires refreshReply.expiresIn > 0 && tokenReply.expiresIn > 0
    requires EnsureToken(s, now, refreshReply, tokenReply).outcome.Ok?
    ensures var st := EnsureToken(s, now, refreshReply, tokenReply);
            WellFormed(st.tokens) && TokenValid(st.tokens, now) &&
            EnsureToken(st.tokens, now, refreshReply, tokenReply) == Step(Ok(()), st.tokens, [])
  {
  }

  /** The header dict: the current access token, after any exchange, and the JSON content type. */
  function Headers(token: Option<string>): (h: Dict<string>)
    ensures Keys(h) == ["Authorization", "Content-Type"]
    ensures Get(h, "Authorization") == Some("AccessToken=" + PyStr(token))
    ensures Get(h, "Content-Type") == Some("application/json")
  {
    [("Authorization", "AccessToken=" + PyStr(token)), ("Content-Type", "application/json")]
  }

  /** A PoE port entry: `portId` as `str()` gives it, `poeEnabled` and
      `poePower` (None when the key is absent). */
  datatype Port = Port(portId: string, poeEnabled: Option<bool>, poePower: Option<real>)

  /** One switch of the `result` list, with its `poePorts`. */
  datatype PoeDevice = PoeDevice(poePorts: seq<Port>)

  /** `port.get('poeEnabled', False)`. */
  predicate Enabled(p: Port) {
    p.poeEnabled == Some(true)
  }

  /** `port.get('poePower', 0)`. */
  function PortPower(p: Port): real {
    if p.poePower.Some? then p.poePower.value else 0.0
  }

  /** The assignments the inner loop makes for one switch's ports, in order. */
  function PortItems(ports: seq<Port>): (items: seq<(string, real)>)
    ensures |items| <= |ports|
  {
    if |ports| == 0 then []
    else
      var last := ports[|ports| - 1];
      PortItems(ports[..|ports| - 1]) + (if Enabled(last) then [(last.portId, PortPower(last))] else [])
  }

  /** The assignments both loops make, switch by switch. */
  function PoeItems(devices: seq<PoeDevice>): seq<(string, real)> {
    if |devices| == 0 then []
    else PoeItems(devices[..|devices| - 1]) + PortItems(devices[|devices| - 1].poePorts)
  }

  /** What `_parse_energy_data` returns for `data['result'] == devices`. */
  function ParsedEnergy(devices: seq<PoeDevice>): Dict<real> {
    SetAll([], PoeItems(devices))
  }

  /** Every id the inner loop assigns is the id of an enabled port. */
  lemma {:induction false} PortItemsSound(ports: seq<Port>, i: nat)
    requires i < |PortItems(ports)|
    ensures exists j :: 0 <= j < |ports| && Enabled(ports[j]) && ports[j].portId == PortItems(ports)[i].0
  {
    var front := ports[..|ports| - 1];
    var last := ports[|ports| - 1];
    var a := PortItems(front);
    assert PortItems(ports) == a + (if Enabled(last) then [(last.portId, PortPower(last))] else []);
    if i < |a| {
      PortItemsSound(front, i);
      var j :| 0 <= j < |front| && Enabled(front[j]) && front[j].portId == a[i].0;
      assert ports[j] == front[j];
    } else {
      var n := |ports| - 1;
      assert ports[n] == last;
      assert PortItems(ports)[i] == (last.portId, PortPower(last));
    }
  }

  /** Every enabled port is assigned under its id. */
  lemma {:induction false} PortItemsComplete(ports: seq<Port>, j: nat)
    requires j < |ports| && Enabled(ports[j])
    ensures exists i :: 0 <= i < |PortItems(ports)| && PortItems(ports)[i].0 == ports[j].portId
  {
    var front := ports[..|ports| - 1];
    var last := ports[|ports| - 1];
    var a := PortItems(front);
    assert PortItems(ports) == a + (if Enabled(last) then [(last.portId, PortPower(last))] else []);
    if j < |front| {
      assert front[j] == ports[j];
      PortItemsComplete(front, j);
      var i :| 0 <= i < |a| && a[i].0 == front[j].portId;
      assert PortItems(ports)[i] == a[i];
    } else {
      assert PortItems(ports)[|a|] == (last.portId, PortPower(last));
    }
  }

  /** The inner loop assigns exactly the enabled ports, each under its id. */
  lemma PortItemsExact(ports: seq<Port>, k: string)
    ensures (exists i :: 0 <= i < |PortItems(ports)| && PortItems(ports)[i].0 == k) <==>
            (exists j :: 0 <= j < |ports| && Enabled(ports[j]) && ports[j].portId == k)
  {
    var items := PortItems(ports);
    if exists i :: 0 <= i < |items| && items[i].0 == k {
      var i :| 0 <= i < |items| && items[i].0 == k;
      PortItemsSound(ports, i);
    }
    if exists j :: 0 <= j < |ports| && Enabled(ports[j]) && ports[j].portId == k {
      var j :| 0 <= j < |ports| && Enabled(ports[j]) && ports[j].portId == k;
      PortItemsComplete(ports, j);
    }
  }

  /** Every id both loops assign is the id of an enabled port of some switch. */
  lemma {:induction false} PoeItemsSound(devices: seq<PoeDevice>, i: nat)
    requires i < |PoeItems(devices)|
    ensures exists d, j :: 0 <= d < |devices| && 0 <= j < |devices[d].poePorts| &&
                           Enabled(devices[d].poePorts[j]) && devices[d].poePorts[j].portId == PoeItems(devices)[i].0
  {
    assert |devices| > 0;
    var front := devices[..|devices| - 1];
    var last := devices[|devices| - 1];
    var a := PoeItems(front);
    var b := PortItems(last.poePorts);
    var items := PoeItems(devices);
    assert items == a + b;
    if i < |a| {
      PoeItemsSound(front, i);
      assert items[i] == a[i];
      var d, j :| 0 <= d < |front| && 0 <= j < |front[d].poePorts| &&
                  Enabled(front[d].poePorts[j]) && front[d].poePorts[j].portId == a[i].0;
      assert devices[d] == front[d];
    } else {
      assert items[i] == b[i - |a|];
      PortItemsSound(last.poePorts, i - |a|);
      var j :| 0 <= j < |last.poePorts| && Enabled(last.poePorts[j]) && last.poePorts[j].portId == b[i - |a|].0;
      var n := |devices| - 1;
      assert devices[n] == last;
      assert Enabled(devices[n].poePorts[j]) && devices[n].poePorts[j].portId == items[i].0;
    }
  }

  /** Every enabled port of every switch is assigned under its id. */
  lemma {:induction false} PoeItemsComplete(devices: seq<PoeDevice>, d: nat, j: nat)
    requires d < |devices| && j < |devices[d].poePorts| && Enabled(devices[d].poePorts[j])
    ensures exists i :: 0 <= i < |PoeItems(devices)| && PoeItems(devices)[i].0 == devices[d].poePorts[j].portId
  {
    var front := devices[..|devices| - 1];
    var last := devices[|devices| - 1];
    var a := PoeItems(front);
    var b := PortItems(last.poePorts);
    var items := PoeItems(devices);
    assert items == a + b;
    if d < |front| {
      assert front[d] == devices[d];
      PoeItemsComplete(front, d, j);
      var i :| 0 <= i < |a| && a[i].0 == front[d].poePorts[j].portId;
      assert items[i] == a[i];
    } else {
      assert devices[d] == last;
      PortItemsComplete(last.poePorts, j);
      var i :| 0 <= i < |b| && b[i].0 == last.poePorts[j].portId;
      assert items[|a| + i] == b[i];
    }
  }

  /** Both loops together assign exactly the enabled ports of all switches. */
  lemma PoeItemsExact(devices: seq<PoeDevice>, k: string)
    ensures (exists i :: 0 <= i < |PoeItems(devices)| && PoeItems(devices)[i].0 == k) <==>
            (exists d, j :: 0 <= d < |devices| && 0 <= j < |devices[d].poePorts| &&
                            Enabled(devices[d].poePorts[j]) && devices[d].poePorts[j].portId == k)
  {
    var items := PoeItems(devices);
    if exists i :: 0 <= i < |items| && items[i].0 == k {
      var i :| 0 <= i < |items| && items[i].0 == k;
      PoeItemsSound(devices, i);
    }
    if exists d, j :: 0 <= d < |devices| && 0 <= j < |devices[d].poePorts| &&
                      Enabled(devices[d].poePorts[j]) && devices[d].poePorts[j].portId == k {
      var d, j :| 0 <= d < |devices| && 0 <= j < |devices[d].poePorts| &&
                  Enabled(devices[d].poePorts[j]) && devices[d].poePorts[j].portId == k;
      PoeItemsComplete(devices, d, j);
    }
  }

  /** The parsed dict has a key exactly for each id of an enabled port, and
      holds the power of the last enabled port with that id. */
  lemma ParsedEnergyExact(devices: seq<PoeDevice>, k: string)
    ensures Get(ParsedEnergy(devices), k).Some? <==>
            (exists d, j :: 0 <= d < |devices| && 0 <= j < |devices[d].poePorts| &&
                            Enabled(devices[d].poePorts[j]) && devices[d].poePorts[j].portId == k)
    ensures Get(ParsedEnergy(devices), k) == LastFor(PoeItems(devices), k)
  {
    GetSetAll([], PoeItems(devices), k);
    PoeItemsExact(devices, k);
  }

  /** The parsed dict never holds a key twice. */
  lemma ParsedEnergyUnique(devices: seq<PoeDevice>)
    ensures UniqueKeys(ParsedEnergy(devices))
  {
    SetAllUnique([], PoeItems(devices));
  }

  /** A later port with the same id overwrites an earlier one. */
  lemma DuplicatePortLaterWins(id: string, p1: real, p2: real)
    ensures Get(ParsedEnergy([PoeDevice([Port(id, Some(true), Some(p1))]),
                              PoeDevice([Port(id, Some(true), Some(p2))])]), id) == Some(p2)
  {
    var ds := [PoeDevice([Port(id, Some(true), Some(p1))]), PoeDevice([Port(id, Some(true), Some(p2))])];
    assert ds[..1][..0] == [];
    assert PortItems(ds[0].poePorts) == [(id, p1)] by {
      assert ds[0].poePorts[..0] == [];
    }
    assert PortItems(ds[1].poePorts) == [(id, p2)] by {
      assert ds[1].poePorts[..0] == [];
    }
    assert ds[..1] == [ds[0]];
    assert PoeItems(ds[..1]) == PoeItems(ds[..1][..0]) + PortItems(ds[0].poePorts) == [(id, p1)];
    assert PoeItems(ds) == PoeItems(ds[..1]) + PortItems(ds[1].poePorts) == [(id, p1), (id, p2)];
    ParsedEnergyExact(ds, id);
  }

  /** A disabled port, one without `poeEnabled`, and an enabled one without
      `poePower`: only the last is kept, with power 0. */
  lemma ParseExample(a: string, b: string, c: string, w: real)
    requires c != a && c != b
    ensures ParsedEnergy([PoeDevice([Port(a, Some(false), Some(w)), Port(b, None, Some(w)), Port(c, Some(true), None)])]) ==
            [(c, 0.0)]
  {
    var ps := [Port(a, Some(false), Some(w)), Port(b, None, Some(w)), Port(c, Some(true), None)];
    assert ps[..2][..1][..0] == [];
    assert ps[..2][..1] == [ps[0]];
    assert ps[..2] == [ps[0], ps[1]];
    assert PortItems(ps[..2]) == [];
    assert PortItems(ps) == [(c, 0.0)];
    assert [PoeDevice(ps)][..0] == [];
    assert PoeItems([PoeDevice(ps)]) == PoeItems([PoeDevice(ps)][..0]) + PortItems(ps) == [(c, 0.0)];
    assert [(c, 0.0)][..0] == [];
    assert SetAll([], [(c, 0.0)]) == Set(SetAll([], []), c, 0.0) == [(c, 0.0)];
  }

  lemma PortStepStart(done: seq<(string, real)>, ports: seq<Port>)
    ensures SetAll([], done + PortItems(ports[..0])) == SetAll([], done)
  {
    assert ports[..0] == [];
    assert done + [] == done;
  }

  /** One turn of the inner loop of `_parse_energy_data`. */
  lemma PortStep(done: seq<(string, real)>, ports: seq<Port>, j: nat)
    requires j < |ports|
    ensures SetAll([], done + PortItems(ports[..j + 1])) ==
            if Enabled(ports[j]) then Set(SetAll([], done + PortItems(ports[..j])), ports[j].portId, PortPower(ports[j]))
            else SetAll([], done + PortItems(ports[..j]))
  {
    assert ports[..j + 1][..j] == ports[..j];
    var before := done + PortItems(ports[..j]);
    if Enabled(ports[j]) {
      assert done + PortItems(ports[..j + 1]) == before + [(ports[j].portId, PortPower(ports[j]))];
      assert (before + [(ports[j].portId, PortPower(ports[j]))])[..|before|] == before;
    } else {
      assert done + PortItems(ports[..j + 1]) == before;
    }
  }

  /** One turn of the outer loop of `_parse_energy_data`. */
  lemma DeviceStep(devices: seq<PoeDevice>, i: nat)
    requires i < |devices|
    ensures PoeItems(devices[..i + 1]) == PoeItems(devices[..i]) + PortItems(devices[i].poePorts[..|devices[i].poePorts|])
  {
    assert devices[..i + 1][..i] == devices[..i];
    assert devices[i].poePorts[..|devices[i].poePorts|] == devices[i].poePorts;
  }

  /** A reply of the sites endpoint: its status and the ids in `result.data`. */
  datatype SiteReply = SiteReply(status: int, siteIds: seq<string>)

  /** A reply of the PoE-usage endpoint: its status and `result`. */
  datatype PoeReply = PoeReply(status: int, result: seq<PoeDevice>)

  /** The effect of `monitor_energy_use_once()`: what it returns or raises,
      the token fields and the site id after it, and the requests it made. */
  datatype Once = Once(result: Result<Dict<real>>, tokens: TokenState, siteId: Option<string>, calls: seq<OmadaCall>)

  /** The PoE-usage request for site `id` with the header `authorization`:
      a 200 reply is parsed, any other status raises. */
  function PoeStage(id: string, authorization: string, tokens: TokenState, calls: seq<OmadaCall>, poe: PoeReply): Once {
    Once(if poe.status == 200 then Ok(ParsedEnergy(poe.result)) else Err(RemoteError(poe.status)),
         tokens, Some(id), calls + [PoeRequest(id, authorization)])
  }

  /** The effect of `get_site_id()`: the id returned (or what was raised),
      the token fields and the stored id after it, and the requests it made. */
  datatype SiteStep = SiteStep(result: Result<string>, tokens: TokenState, siteId: Option<string>, calls: seq<OmadaCall>)

  /** `get_site_id()` from the token fields `s` and the stored id `known`. */
  function SiteLookup(s: TokenState, known: Option<string>, now: int, refreshReply: TokenReply, tokenReply: TokenReply,
                      site: SiteReply): SiteStep
    requires WellFormed(s)
  {
    if known.Some? then SiteStep(Ok(known.value), s, known, [])
    else
      var st := EnsureToken(s, now, refreshReply, tokenReply);
      if st.outcome.Err? then SiteStep(Err(st.outcome.error), st.tokens, None, st.calls)
      else
        var calls := st.calls + [SiteRequest("AccessToken=" + PyStr(st.tokens.token))];
        if site.status != 200 then SiteStep(Err(RemoteError(site.status)), st.tokens, None, calls)
        else if site.siteIds == [] then SiteStep(Err(IndexError), st.tokens, None, calls)
        else SiteStep(Ok(site.siteIds[0]), st.tokens, Some(site.siteIds[0]), calls)
  }

  /** A stored site id is returned with no request and nothing changed; a
      lookup makes its header call and then exactly one site request; a
      non-200 status raises RemoteError and an empty site list IndexError,
      both leaving the id unset; a found id is stored; the token fields stay
      well formed. */
  lemma SiteLookupCases(s: TokenState, known: Option<string>, now: int, refreshReply: TokenReply, tokenReply: TokenReply,
                        site: SiteReply)
    requires WellFormed(s)
    ensures var g := SiteLookup(s, known, now, refreshReply, tokenReply, site);
            var st := EnsureToken(s, now, refreshReply, tokenReply);
            && WellFormed(g.tokens)
            && (known.Some? ==> g == SiteStep(Ok(known.value), s, known, []))
            && (known.None? && st.outcome.Err? ==> g.result == Err(st.outcome.error) && g.calls == st.calls)
            && (known.None? && st.outcome.Ok? ==>
                  && g.tokens == st.tokens
                  && g.calls == st.calls + [SiteRequest("AccessToken=" + PyStr(st.tokens.token))]
                  && (site.status != 200 ==> g.result == Err(RemoteError(site.status)))
                  && (site.status == 200 && site.siteIds == [] ==> g.result == Err(IndexError))
                  && (site.status == 200 && site.siteIds != [] ==> g.result == Ok(site.siteIds[0])))
            && (g.result.Ok? ==> g.siteId == Some(g.result.value))
            && (g.result.Err? ==> g.siteId == None)
  {
    EnsureTokenKeepsWellFormed(s, now, refreshReply, tokenReply);
  }

  /** `monitor_energy_use_once()` from the token fields `s` and the stored
      site id `known`: `get_api_headers()`, then `get_site_id()`, then one
      PoE-usage request sent with the first headers. The header call inside
      `get_site_id()` is answered by the same replies as the first. */
  function EnergyOnce(s: TokenState, known: Option<string>, now: int, refreshReply: TokenReply, tokenReply: TokenReply,
                      site: SiteReply, poe: PoeReply): Once
    requires WellFormed(s)
  {
    var st := EnsureToken(s, now, refreshReply, tokenReply);
    if st.outcome.Err? then Once(Err(st.outcome.error), st.tokens, known, st.calls)
    else
      EnsureTokenKeepsWellFormed(s, now, refreshReply, tokenReply);
      var g := SiteLookup(st.tokens, known, now, refreshReply, tokenReply, site);
      if g.result.Err? then Once(Err(g.result.error), g.tokens, g.siteId, st.calls + g.calls)
      else PoeStage(g.result.value, "AccessToken=" + PyStr(st.tokens.token), g.tokens, st.calls + g.calls, poe)
  }

  /** `EnergyOnce` field by field: the first header call, then the site
      lookup, then the PoE-usage request, each stopping the call when it raises. */
  lemma EnergyOnceStages(s: TokenState, known: Option<string>, now: int, refreshReply: TokenReply, tokenReply: TokenReply,
                         site: SiteReply, poe: PoeReply)
    requires WellFormed(s)
    ensures var st := EnsureToken(s, now, refreshReply, tokenReply);
            var o := EnergyOnce(s, known, now, refreshReply, tokenReply, site, poe);
            && (st.outcome.Err? ==>
                  o.result == Err(st.outcome.error) && o.tokens == st.tokens && o.siteId == known && o.calls == st.calls)
            && (st.outcome.Ok? ==>
                  && WellFormed(st.tokens)
                  && var g := SiteLookup(st.tokens, known, now, refreshReply, tokenReply, site);
                     && o.tokens == g.tokens
                     && (g.result.Err? ==> o.result == Err(g.result.error) && o.siteId == g.siteId && o.calls == st.calls + g.calls)
                     && (g.result.Ok? ==>
                           && o.result == (if poe.status == 200 then Ok(ParsedEnergy(poe.result)) else Err(RemoteError(poe.status)))
                           && o.siteId == Some(g.result.value)
                           && o.calls == st.calls + g.calls + [PoeRequest(g.result.value, "AccessToken=" + PyStr(st.tokens.token))]))
  {
    EnsureTokenKeepsWellFormed(s, now, refreshReply, tokenReply);
  }

  lemma SeqAssoc(a: seq<OmadaCall>, b: seq<OmadaCall>, c: seq<OmadaCall>)
    ensures (a + b) + c == a + (b + c)
  {
  }

  /** The token endpoint is the only one a token exchange calls. */
  lemma EnsureTokenCalls(s: TokenState, now: int, refreshReply: TokenReply, tokenReply: TokenReply)
    requires WellFormed(s)
    ensures forall c :: c in EnsureToken(s, now, refreshReply, tokenReply).calls ==> c.TokenRequest? || c.RefreshRequest?
  {
  }

  /** A stored site id is kept: no site request is made, and the only
      exchange is the first header call's. */
  lemma OnceKeepsKnownSite(s: TokenState, id: string, now: int, refreshReply: TokenReply, tokenReply: TokenReply,
                           site: SiteReply, poe: PoeReply)
    requires WellFormed(s)
    ensures var o := EnergyOnce(s, Some(id), now, refreshReply, tokenReply, site, poe);
            var st := EnsureToken(s, now, refreshReply, tokenReply);
            && o.siteId == Some(id) && o.tokens == st.tokens
            && (forall c :: c in o.calls ==> !c.SiteRequest?)
            && (st.outcome.Ok? ==> o.calls == st.calls + [PoeRequest(id, "AccessToken=" + PyStr(st.tokens.token))])
  {
    EnsureTokenCalls(s, now, refreshReply, tokenReply);
  }

  /** The call succeeds exactly when every exchange succeeds, a site id is
      known or found, and the PoE reply has status 200; it then returns the
      parsed reply, and a site id it found is stored. */
  lemma OnceSucceeds(s: TokenState, known: Option<string>, now: int, refreshReply: TokenReply, tokenReply: TokenReply,
                     site: SiteReply, poe: PoeReply)
    requires WellFormed(s)
    ensures var o := EnergyOnce(s, known, now, refreshReply, tokenReply, site, poe);
            var st := EnsureToken(s, now, refreshReply, tokenReply);
            && (o.result.Ok? <==>
                  && st.outcome.Ok?
                  && (known.Some? ||
                      (WellFormed(st.tokens) && EnsureToken(st.tokens, now, refreshReply, tokenReply).outcome.Ok? &&
                       site.status == 200 && site.siteIds != []))
                  && poe.status == 200)
            && (o.result.Ok? ==> o.result.value == ParsedEnergy(poe.result))
            && (o.result.Ok? ==> o.siteId == (if known.Some? then known else Some(site.siteIds[0])))
  {
    EnsureTokenKeepsWellFormed(s, now, refreshReply, tokenReply);
  }

  /** At most one PoE-usage request is made, always last, for the site id
      the monitor then holds, with the header the first `get_api_headers()`
      built; a successful call made it. */
  lemma OnceOnePoeRequest(s: TokenState, known: Option<string>, now: int, refreshReply: TokenReply, tokenReply: TokenReply,
                          site: SiteReply, poe: PoeReply)
    requires WellFormed(s)
    ensures var o := EnergyOnce(s, known, now, refreshReply, tokenReply, site, poe);
            var st := EnsureToken(s, now, refreshReply, tokenReply);
            && (forall i :: 0 <= i < |o.calls| - 1 ==> !o.calls[i].PoeRequest?)
            && (o.result.Ok? ==>
                  && |o.calls| > 0 && o.siteId.Some?
                  && o.calls[|o.calls| - 1] == PoeRequest(o.siteId.value, "AccessToken=" + PyStr(st.tokens.token)))
  {
    var o := EnergyOnce(s, known, now, refreshReply, tokenReply, site, poe);
    var st := EnsureToken(s, now, refreshReply, tokenReply);
    EnsureTokenCalls(s, now, refreshReply, tokenReply);
    EnsureTokenKeepsWellFormed(s, now, refreshReply, tokenReply);
    if st.outcome.Ok? && known.None? {
      EnsureTokenCalls(st.tokens, now, refreshReply, tokenReply);
      var st2 := EnsureToken(st.tokens, now, refreshReply, tokenReply);
      forall i | 0 <= i < |o.calls| - 1 ensures !o.calls[i].PoeRequest? {
        if i < |st.calls| {
          assert o.calls[i] == st.calls[i];
        } else if i < |st.calls| + |st2.calls| {
          assert o.calls[i] == st2.calls[i - |st.calls|];
        }
      }
    } else if st.outcome.Ok? {
      forall i | 0 <= i < |o.calls| - 1 ensures !o.calls[i].PoeRequest? {
        assert o.calls[i] == st.calls[i];
      }
    }
  }

  /** With a usable token and a stored site id the call makes the PoE-usage
      request alone and changes nothing. */
  lemma OnceValidTokenKnownSite(s: TokenState, id: string, now: int, refreshReply: TokenReply, tokenReply: TokenReply,
                                site: SiteReply, poe: PoeReply)
    requires WellFormed(s) && TokenValid(s, now)
    ensures EnergyOnce(s, Some(id), now, refreshReply, tokenReply, site, poe) ==
            PoeStage(id, "AccessToken=" + s.token.value, s, [], poe)
  {
  }

  /** When the first exchange leaves a token valid at that instant, the
      second header call makes no request, so the site request and the
      PoE-usage request carry the same header. */
  lemma OnceOneExchange(s: TokenState, now: int, refreshReply: TokenReply, tokenReply: TokenReply,
                        site: SiteReply, poe: PoeReply)
    requires WellFormed(s) && refreshReply.expiresIn > 0 && tokenReply.expiresIn > 0
    requires EnsureToken(s, now, refreshReply, tokenReply).outcome.Ok?
    requires site.status == 200 && site.siteIds != []
    ensures var st := EnsureToken(s, now, refreshReply, tokenReply);
            var authorization := "AccessToken=" + PyStr(st.tokens.token);
            EnergyOnce(s, None, now, refreshReply, tokenReply, site, poe) ==
            PoeStage(site.siteIds[0], authorization, st.tokens, st.calls + [SiteRequest(authorization)], poe)
  {
    EnsureTokenThenValid(s, now, refreshReply, tokenReply);
    var st := EnsureToken(s, now, refreshReply, tokenReply);
    assert st.calls + [] == st.calls;
  }

  class OmadaMonitor {
    var lat: Option<string>
    var lon: Option<string>
    var gridId: Option<string>
    var token: Option<string>
    var tokenExpiration: Option<int>
    var refreshToken: Option<string>
    var refreshTokenExpiration: Option<int>
    var siteId: Option<string>
    /** The requests made so far. */
    var calls: seq<OmadaCall>

    function Tokens(): TokenState
      reads this
    {
      TokenState(token, tokenExpiration, refreshToken, refreshTokenExpiration)
    }

    function Loc(): Location
      reads this
    {
      Location(lat, lon, gridId)
    }

    ghost predicate Valid()
      reads this
    {
      WellFormed(Tokens())
    }

    constructor Init(loc: Location)
      ensures Loc() == loc && Tokens() == TokenState(None, None, None, None)
      ensures siteId == None && calls == [] && Valid()
    {
      lat := loc.lat;
      lon := loc.lon;
      gridId := loc.gridId;
      token := None;
      tokenExpiration := None;
      refreshToken := None;
      refreshTokenExpiration := None;
      siteId := None;
      calls := [];
    }

    /** `OmadaMonitor(api_key, local_lat, local_lon, local_grid_id, co2_api_provider)`:
        the location is checked first, then the provider; only then is the
        token state set up, with every token absent. */
    static method Create(lat: Option<string>, lon: Option<string>, gridId: Option<string>, provider: string)
      returns (r: Result<OmadaMonitor>)
      ensures r.Err? <==> CheckMonitorArgs(lat, lon, gridId, provider).Err?
      ensures r.Err? ==> r.error == CheckMonitorArgs(lat, lon, gridId, provider).error
      ensures r.Ok? ==> fresh(r.value) && r.value.Valid()
      ensures r.Ok? ==>
        && r.value.Loc() == Location(lat, lon, gridId)
        && r.value.Tokens() == TokenState(None, None, None, None)
        && r.value.siteId == None && r.value.calls == []
    {
      var checked := CheckMonitorArgs(lat, lon, gridId, provider);
      if checked.Err? {
        return Err(checked.error);
      }
      var m := new OmadaMonitor.Init(checked.value);
      r := Ok(m);
    }

    /** `get_new_tokens()` on the reply `reply`. */
    method GetNewTokens(now: int, reply: TokenReply) returns (r: Result<()>)
      modifies this
      ensures var st := NewTokens(old(Tokens()), now, reply);
              r == st.outcome && Tokens() == st.tokens && calls == old(calls) + st.calls
      ensures Loc() == old(Loc()) && siteId == old(siteId)
    {
      calls := calls + [TokenRequest];
      if reply.status != 200 {
        return Err(Exit);
      }
      token := Some(reply.accessToken);
      refreshToken := Some(reply.refreshToken);
      tokenExpiration := Some(now + reply.expiresIn);
      refreshTokenExpiration := Some(now + RefreshLifetime);
      r := Ok(());
    }

    /** `refresh_access_token()`; `tokenReply` answers the fallback exchange. */
    method RefreshAccessToken(now: int, refreshReply: TokenReply, tokenReply: TokenReply) returns (r: Result<()>)
      modifies this
      ensures var st := Refresh(old(Tokens()), now, refreshReply, tokenReply);
              r == st.outcome && Tokens() == st.tokens && calls == old(calls) + st.calls
      ensures Loc() == old(Loc()) && siteId == old(siteId)
    {
      calls := calls + [RefreshRequest(refreshToken)];
      if refreshReply.status != 200 {
        r := GetNewTokens(now, tokenReply);
        return;
      }
      token := Some(refreshReply.accessToken);
      tokenExpiration := Some(now + refreshReply.expiresIn);
      r := Ok(());
    }

    /** `get_api_headers()`: exchange when needed, then the headers built from
        the token held afterwards. */
    method GetApiHeaders(now: int, refreshReply: TokenReply, tokenReply: TokenReply) returns (r: Result<Dict<string>>)
      requires Valid()
      modifies this
      ensures Valid()
      ensures var st := EnsureToken(old(Tokens()), now, refreshReply, tokenReply);
              && Tokens() == st.tokens && calls == old(calls) + st.calls
              && r == (if st.outcome.Ok? then Ok(Headers(token)) else Err(st.outcome.error))
      ensures Loc() == old(Loc()) && siteId == old(siteId)
    {
      EnsureTokenKeepsWellFormed(Tokens(), now, refreshReply, tokenReply);
      if token.None? || now >= tokenExpiration.value {
        var exchanged: Result<()>;
        if refreshToken.Some? && refreshToken.value != "" && now < refreshTokenExpiration.value {
          exchanged := RefreshAccessToken(now, refreshReply, tokenReply);
        } else {
          exchanged := GetNewTokens(now, tokenReply);
        }
        if exchanged.Err? {
          return Err(exchanged.error);
        }
      }
      r := Ok(Headers(token));
    }

    /** `get_site_id()`: the memoised id, or one lookup that stores the first
        site's id; `SiteLookupCases` states what that means. */
    method GetSiteId(now: int, refreshReply: TokenReply, tokenReply: TokenReply, site: SiteReply)
      returns (r: Result<string>)
      requires Valid()
      modifies this
      ensures Valid() && Loc() == old(Loc())
      ensures var g := SiteLookup(old(Tokens()), old(siteId), now, refreshReply, tokenReply, site);
              r == g.result && Tokens() == g.tokens && siteId == g.siteId && calls == old(calls) + g.calls
    {
      if siteId.Some? {
        return Ok(siteId.value);
      }
      var headers := GetApiHeaders(now, refreshReply, tokenReply);
      if headers.Err? {
        return Err(headers.error);
      }
      calls := calls + [SiteRequest("AccessToken=" + PyStr(token))];
      if site.status != 200 {
        return Err(RemoteError(site.status));
      }
      if site.siteIds == [] {
        return Err(IndexError);
      }
      siteId := Some(site.siteIds[0]);
      r := Ok(site.siteIds[0]);
    }

    /** `_parse_energy_data(data)` for `data['result'] == devices`: the nested
        loop over switches and their ports. */
    static method ParseEnergyData(devices: seq<PoeDevice>) returns (energy: Dict<real>)
      ensures energy == ParsedEnergy(devices)
    {
      energy := [];
      var i := 0;
      while i < |devices|
        invariant 0 <= i <= |devices|
        invariant energy == SetAll([], PoeItems(devices[..i]))
      {
        var ports := devices[i].poePorts;
        var j := 0;
        PortStepStart(PoeItems(devices[..i]), ports);
        while j < |ports|
          invariant 0 <= j <= |ports|
          invariant energy == SetAll([], PoeItems(devices[..i]) + PortItems(ports[..j]))
        {
          var port := ports[j];
          PortStep(PoeItems(devices[..i]), ports, j);
          if port.poeEnabled == Some(true) {
            var power := if port.poePower.Some? then port.poePower.value else 0.0;
            energy := Set(energy, port.portId, power);
          }
          j := j + 1;
        }
        DeviceStep(devices, i);
        i := i + 1;
      }
      assert devices[..|devices|] == devices;
    }

    /** `_get_co2_data()`: the provider query for this monitor's location. */
    function Co2Params(): (p: Params)
      reads this
      ensures gridId.Some? ==> p == Zone(gridId.value)
      ensures gridId.None? ==> p == LatLon(lat, lon)
    {
      Co2Query(Loc())
    }

    /** `monitor_energy_use_once()`: headers, site id, then one PoE-usage
        request sent with the first headers; a non-200 status raises. */
    method MonitorEnergyUseOnce(now: int, refreshReply: TokenReply, tokenReply: TokenReply, site: SiteReply, poe: PoeReply)
      returns (r: Result<Dict<real>>)
      requires Valid()
      modifies this
      ensures Valid() && Loc() == old(Loc())
      ensures var o := EnergyOnce(old(Tokens()), old(siteId), now, refreshReply, tokenReply, site, poe);
              r == o.result && Tokens() == o.tokens && siteId == o.siteId && calls == old(calls) + o.calls
    {
      ghost var s0, known, calls0 := Tokens(), siteId, calls;
      ghost var st := EnsureToken(s0, now, refreshReply, tokenReply);
      ghost var o := EnergyOnce(s0, known, now, refreshReply, tokenReply, site, poe);
      EnergyOnceStages(s0, known, now, refreshReply, tokenReply, site, poe);
      var headers := GetApiHeaders(now, refreshReply, tokenReply);
      if headers.Err? {
        return Err(headers.error);
      }
      ghost var s1 := Tokens();
      assert s1 == st.tokens && siteId == known && calls == calls0 + st.calls;
      var authorization := Get(headers.value, "Authorization").value;
      assert authorization == "AccessToken=" + PyStr(st.tokens.token);
      ghost var g := SiteLookup(s1, known, now, refreshReply, tokenReply, site);
      assert o.tokens == g.tokens;
      ghost var c1 := calls;
      var id := GetSiteId(now, refreshReply, tokenReply, site);
      assert id == g.result && Tokens() == g.tokens && siteId == g.siteId;
      assert calls == c1 + g.calls;
      SeqAssoc(calls0, st.calls, g.calls);
      if id.Err? {
        return Err(id.error);
      }
      assert o.siteId == Some(id.value);
      calls := calls + [PoeRequest(id.value, authorization)];
      SeqAssoc(calls0, st.calls + g.calls, [PoeRequest(id.value, authorization)]);
      if poe.status != 200 {
        return Err(RemoteError(poe.status));
      }
      var energy := ParseEnergyData(poe.result);
      r := Ok(energy);
    }

    /** `monitor_energy_use_continuously(db, delay=5, timeout=60)`: the
        shared sampling loop, fed by this monitor's readings and lookups. */
    method MonitorEnergyUseContinuously(ticks: seq<SamplingLoop.TickInput>, delay: int := 5, timeout: Option<int> := Some(60))
      returns (outcome: SamplingLoop.Outcome, events: seq<SamplingLoop.Event<EnergyRecord.EnergyUsage>>)
      ensures outcome == SamplingLoop.Monitor(delay, timeout, ticks).0
      ensures events == SamplingLoop.Monitor(delay, timeout, ticks).1
    {
      outcome, events := SamplingLoop.MonitorEnergyUse(delay, timeout, ticks);
    }
  }
}
