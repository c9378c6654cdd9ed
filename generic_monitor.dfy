/** The sampling loop (kasa_carbon/modules/generic_monitor.py): each tick
    samples every device, looks up the grid intensity once, writes one record
    per device, then checks the timeout and sleeps; an exception anywhere ends
    the loop, and the sink is closed on every way out. What the calls of one
    tick return is given as a `TickInput`; the loop runs over a finite list of
    them and, when they run out before it ends, is still running. */
module SamplingLoop {
  import opened Common
  import opened Dicts
  import opened EnergyRecord

  /** What one tick's calls give: the readings (or the exception sampling
      raised), the intensity lookup's result, the index of the first write the
      sink refuses (if any), the instant stamped on the tick's records, and the
      seconds elapsed since the loop started when the timeout is tested. */
  datatype TickInput = TickInput(
    samples: Result<Dict<real>>,
    co2: Result<Option<real>>,
    failAt: Option<nat>,
    now: int,
    elapsed: int)

  /** The calls the loop makes, in order: sampling, the intensity lookup, a
      successful write of a record, a sleep, and the sink's close. */
  datatype Event<R> = Sampled | LookedUp | Wrote(record: R) | Slept(seconds: int) | Closed

  /** How a loop run stands: still running, ended by its timeout, or ended by an exception. */
  datatype Outcome = Running | Finished | Raised(error: Error)

  /** How a tick ends: the loop goes on, breaks on the timeout, or raises. */
  datatype TickEnd = Continue | Finish | Fail(error: Error)

  /** The `while True` loop inside `try ... finally: db.close()`, over the
      ticks in order, `step` giving each tick's end and calls. */
  function Run<R>(step: TickInput -> (TickEnd, seq<Event<R>>), ticks: seq<TickInput>): (r: (Outcome, seq<Event<R>>))
    decreases |ticks|
  {
    if |ticks| == 0 then (Running, [])
    else
      var (end, evs) := step(ticks[0]);
      match end
      case Finish => (Finished, evs + [Closed])
      case Fail(e) => (Raised(e), evs + [Closed])
      case Continue =>
        var (o, rest) := Run(step, ticks[1..]);
        (o, evs + rest)
  }

  /** If no tick closes the sink itself, a run that has ended closed it
      exactly once, as its last call, and a run still going has not closed it. */
  lemma {:induction false} RunClosesOnce<R>(step: TickInput -> (TickEnd, seq<Event<R>>), ticks: seq<TickInput>)
    requires forall t :: Closed !in step(t).1
    ensures var (o, evs) := Run(step, ticks);
            && (o == Running ==> Closed !in evs)
            && (o != Running ==> |evs| > 0 && evs[|evs| - 1] == Closed && Closed !in evs[..|evs| - 1])
  {
    if |ticks| > 0 {
      var (end, evs) := step(ticks[0]);
      assert Closed !in evs;
      match end
      case Finish =>
        assert (evs + [Closed])[..|evs|] == evs;
      case Fail(e) =>
        assert (evs + [Closed])[..|evs|] == evs;
      case Continue =>
        RunClosesOnce(step, ticks[1..]);
        var (o, rest) := Run(step, ticks[1..]);
        if o != Running {
          assert (evs + rest)[..|evs + rest| - 1] == evs + rest[..|rest| - 1];
        }
    }
  }

  /** A loop with no timeout never ends by its timeout when no tick breaks. */
  lemma {:induction false} RunNeverFinishes<R>(step: TickInput -> (TickEnd, seq<Event<R>>), ticks: seq<TickInput>)
    requires forall t :: step(t).0 != Finish
    ensures Run(step, ticks).0 != Finished
  {
    if |ticks| > 0 && step(ticks[0]).0 == Continue {
      RunNeverFinishes(step, ticks[1..]);
    }
  }

  /** A run that goes past its first tick made all of that tick's calls first. */
  lemma RunFirstTick<R>(step: TickInput -> (TickEnd, seq<Event<R>>), ticks: seq<TickInput>)
    requires |ticks| > 0
    ensures var (end, evs) := step(ticks[0]);
            Run(step, ticks).1 == evs + (if end == Continue then Run(step, ticks[1..]).1 else [Closed])
  {
  }

  /** `Run` from tick `i` on: that tick's calls, then the close or the rest of the run. */
  lemma RunFrom<R>(step: TickInput -> (TickEnd, seq<Event<R>>), ticks: seq<TickInput>, i: nat)
    requires i < |ticks|
    ensures var r := step(ticks[i]);
            && (r.0 == Continue ==> Run(step, ticks[i..]) == (Run(step, ticks[i + 1..]).0, r.1 + Run(step, ticks[i + 1..]).1))
            && (r.0 == Finish ==> Run(step, ticks[i..]) == (Finished, r.1 + [Closed]))
            && (r.0.Fail? ==> Run(step, ticks[i..]) == (Raised(r.0.error), r.1 + [Closed]))
  {
    assert ticks[i..][0] == ticks[i] && ticks[i..][1..] == ticks[i + 1..];
  }

  /** A loop that has made the calls `events` of the ticks before `i`, and
      whose whole run is those calls followed by the run from `i`, advances by
      tick `i`: after its calls come the rest from `i + 1`, or the close. */
  lemma RunAdvance<R>(step: TickInput -> (TickEnd, seq<Event<R>>), ticks: seq<TickInput>, i: nat, events: seq<Event<R>>,
                      whole: (Outcome, seq<Event<R>>))
    requires i < |ticks|
    requires whole == (Run(step, ticks[i..]).0, events + Run(step, ticks[i..]).1)
    ensures var r := step(ticks[i]);
            && (r.0 == Continue ==> whole == (Run(step, ticks[i + 1..]).0, (events + r.1) + Run(step, ticks[i + 1..]).1))
            && (r.0 == Finish ==> whole == (Finished, (events + r.1) + [Closed]))
            && (r.0.Fail? ==> whole == (Raised(r.0.error), (events + r.1) + [Closed]))
  {
    RunFrom(step, ticks, i);
    var r := step(ticks[i]);
    if r.0 == Continue {
      var rest := Run(step, ticks[i + 1..]).1;
      assert events + (r.1 + rest) == (events + r.1) + rest;
    } else {
      assert events + (r.1 + [Closed]) == (events + r.1) + [Closed];
    }
  }

  /** The emission attributed to a device for one tick: `delay` seconds at
      `power` watts under `co2` gCO2e/kWh, in mgCO2e, computed as written. */
  function Emission(delay: int, power: real, co2: real): real {
    (delay as real / 3600.0) * (power / 1000.0) * co2 / 1000.0
  }

  /** The formula is watt-seconds times grams per kilowatt-hour, over 3.6e9. */
  lemma EmissionUnits(delay: int, power: real, co2: real)
    ensures Emission(delay, power, co2) == (delay as real) * power * co2 / 3600000000.0
  {
  }

  /** An hour at one kilowatt under 500 g/kWh gives 0.5; five seconds at 100 W
      under 300 g/kWh gives 0.0000416…, i.e. 1/24000. */
  lemma EmissionExamples()
    ensures Emission(3600, 1000.0, 500.0) == 0.5
    ensures Emission(5, 100.0, 300.0) == 1.0 / 24000.0
  {
    EmissionUnits(3600, 1000.0, 500.0);
    EmissionUnits(5, 100.0, 300.0);
  }

  /** The dict built for one device. */
  function UsageDict(device: string, power: real, co2: real, delay: int, now: int): Dict<Value> {
    [("device", VStr(device)), ("timestamp", VTime(now)), ("power_draw_watts", VReal(power)),
     ("avg_emitted_mgco2e", VReal(Emission(delay, power, co2))), ("grid_carbon_intensity_gco2perkwhr", VReal(co2))]
  }

  /** The record written for one device. */
  function UsageRecord(device: string, power: real, co2: real, delay: int, now: int): EnergyUsage {
    EnergyUsage(VStr(device), VTime(now), VReal(power), VReal(Emission(delay, power, co2)), VReal(co2))
  }

  /** The record is `EnergyUsage(energy_usage_dict=...)` of the device's dict:
      each column holds what the dict gives it. */
  lemma UsageRecordFromDict(device: string, power: real, co2: real, delay: int, now: int)
    ensures FromDict(UsageDict(device, power, co2, delay, now)) == Ok(UsageRecord(device, power, co2, delay, now))
  {
    var u := UsageRecord(device, power, co2, delay, now);
    assert UsageDict(device, power, co2, delay, now) == GetDict(u);
    FromDictOfGetDict(u);
  }

  /** The writes for the devices `items`, in order, all under one intensity. */
  function Writes(items: Dict<real>, co2: real, delay: int, now: int): seq<Event<EnergyUsage>> {
    seq(|items|, i requires 0 <= i < |items| => Wrote(UsageRecord(items[i].0, items[i].1, co2, delay, now)))
  }

  lemma WritesStep(items: Dict<real>, j: nat, co2: real, delay: int, now: int)
    requires j < |items|
    ensures Writes(items[..j + 1], co2, delay, now) ==
            Writes(items[..j], co2, delay, now) + [Wrote(UsageRecord(items[j].0, items[j].1, co2, delay, now))]
  {
    var a := Writes(items[..j + 1], co2, delay, now);
    var b := Writes(items[..j], co2, delay, now) + [Wrote(UsageRecord(items[j].0, items[j].1, co2, delay, now))];
    assert |a| == |b|;
    forall i | 0 <= i < |a| ensures a[i] == b[i] {
      if i < j {
        assert items[..j + 1][i] == items[..j][i];
      }
    }
  }

  /** The message of the ValueError `time.sleep` raises for a negative length. */
  const NegativeSleep: string := "sleep length must be non-negative"

  /** The timeout test after a tick's writes: break, or sleep and go on;
      sleeping a negative length raises ValueError instead. */
  function EndOfTick<R>(delay: int, timeout: Option<int>, elapsed: int, evs: seq<Event<R>>): (TickEnd, seq<Event<R>>) {
    if timeout.Some? && elapsed >= timeout.value then (Finish, evs)
    else if delay < 0 then (Fail(ValueError(NegativeSleep)), evs)
    else (Continue, evs + [Slept(delay)])
  }

  /** One turn of the loop. An intensity of None makes the first device's
      arithmetic raise TypeError; with no devices nothing is computed. */
  function Tick(delay: int, timeout: Option<int>, t: TickInput): (TickEnd, seq<Event<EnergyUsage>>) {
    match t.samples
    case Err(e) => (Fail(e), [Sampled])
    case Ok(items) =>
      match t.co2
      case Err(e) => (Fail(e), [Sampled, LookedUp])
      case Ok(co2) =>
        if co2.None? && |items| > 0 then (Fail(TypeError), [Sampled, LookedUp])
        else
          var c := if co2.Some? then co2.value else 0.0;
          if t.failAt.Some? && t.failAt.value < |items| then
            (Fail(SinkError), [Sampled, LookedUp] + Writes(items[..t.failAt.value], c, delay, t.now))
          else EndOfTick(delay, timeout, t.elapsed, [Sampled, LookedUp] + Writes(items, c, delay, t.now))
  }

  /** `monitor_energy_use`'s loop, tick by tick. */
  function Monitor(delay: int, timeout: Option<int>, ticks: seq<TickInput>): (Outcome, seq<Event<EnergyUsage>>) {
    Run(Step(delay, timeout), ticks)
  }

  /** `Tick` for one configuration of the loop. */
  function Step(delay: int, timeout: Option<int>): TickInput -> (TickEnd, seq<Event<EnergyUsage>>) {
    t => Tick(delay, timeout, t)
  }

  /** A tick never closes the sink. */
  lemma TickNeverCloses(delay: int, timeout: Option<int>, t: TickInput)
    ensures Closed !in Tick(delay, timeout, t).1
  {
    if t.samples.Ok? && t.co2.Ok? {
      var items := t.samples.value;
      var c := if t.co2.value.Some? then t.co2.value.value else 0.0;
      var n := if t.failAt.Some? && t.failAt.value < |items| then t.failAt.value else |items|;
      var w := Writes(items[..n], c, delay, t.now);
      assert forall i :: 0 <= i < |w| ==> w[i].Wrote?;
      assert items[..|items|] == items;
    }
  }

  /** Every tick samples first and looks the intensity up second, before any
      write; a sampling failure stops the tick before the lookup. */
  lemma TickOrder(delay: int, timeout: Option<int>, t: TickInput)
    ensures var evs := Tick(delay, timeout, t).1;
            && evs[0] == Sampled
            && (t.samples.Ok? ==> |evs| >= 2 && evs[1] == LookedUp)
            && (t.samples.Err? ==> evs == [Sampled])
            && (forall i :: 0 <= i < |evs| && evs[i].Wrote? ==> i >= 2)
  {
  }

  /** A tick that breaks on the timeout has written a record for every
      device, each carrying that device, its power, the emission formula and
      the tick's one intensity, and does not sleep; a tick that goes on has
      done the same and then slept `delay`, which is never negative. */
  lemma TickWritesAll(delay: int, timeout: Option<int>, t: TickInput)
    requires Tick(delay, timeout, t).0 == Finish || Tick(delay, timeout, t).0 == Continue
    ensures t.samples.Ok? && t.co2.Ok?
    ensures var items := t.samples.value;
            var evs := Tick(delay, timeout, t).1;
            && |evs| == 2 + |items| + (if Tick(delay, timeout, t).0 == Continue then 1 else 0)
            && (Tick(delay, timeout, t).0 == Finish <==> timeout.Some? && t.elapsed >= timeout.value)
            && (Tick(delay, timeout, t).0 == Continue ==> delay >= 0 && evs[|evs| - 1] == Slept(delay))
            && (items != [] ==> t.co2.value.Some?)
            && (forall i :: 0 <= i < |items| ==>
                  evs[2 + i] == Wrote(UsageRecord(items[i].0, items[i].1, t.co2.value.value, delay, t.now)))
  {
  }

  /** A negative delay makes the first tick that reaches the sleep raise
      ValueError after its writes; the loop then closes the sink and never
      sleeps, so the later ticks are never run. */
  lemma NegativeDelayRaises(delay: int, timeout: Option<int>, t: TickInput, later: seq<TickInput>)
    requires delay < 0 && t.samples.Ok? && t.co2.Ok? && t.co2.value.Some?
    requires t.failAt.None? && !(timeout.Some? && t.elapsed >= timeout.value)
    ensures Tick(delay, timeout, t) ==
            (Fail(ValueError(NegativeSleep)), [Sampled, LookedUp] + Writes(t.samples.value, t.co2.value.value, delay, t.now))
    ensures Monitor(delay, timeout, [t] + later) ==
            (Raised(ValueError(NegativeSleep)), [Sampled, LookedUp] + Writes(t.samples.value, t.co2.value.value, delay, t.now) + [Closed])
  {
  }

  /** With a negative delay no tick sleeps, so the loop never gets past its
      first tick: every run of at least one tick has ended. */
  lemma NegativeDelayStopsFirstTick(delay: int, timeout: Option<int>, ticks: seq<TickInput>)
    requires delay < 0 && |ticks| > 0
    ensures Monitor(delay, timeout, ticks).0 != Running
    ensures Monitor(delay, timeout, ticks) == Monitor(delay, timeout, ticks[..1])
  {
    var t := ticks[0];
    assert Tick(delay, timeout, t).0 != Continue;
    assert ticks[..1][0] == t;
  }

  /** An intensity of None with at least one device raises before any write. */
  lemma NoneIntensityRaises(delay: int, timeout: Option<int>, t: TickInput)
    requires t.samples.Ok? && |t.samples.value| > 0 && t.co2 == Ok(None)
    ensures Tick(delay, timeout, t) == (Fail(TypeError), [Sampled, LookedUp])
  {
  }

  /** A refused write ends the tick: the devices before it are written, no
      later one is, and the loop raises then closes the sink. */
  lemma FailedWriteStops(delay: int, timeout: Option<int>, t: TickInput, later: seq<TickInput>)
    requires t.samples.Ok? && t.co2.Ok? && t.co2.value.Some?
    requires t.failAt.Some? && t.failAt.value < |t.samples.value|
    ensures Monitor(delay, timeout, [t] + later) ==
            (Raised(SinkError), [Sampled, LookedUp] + Writes(t.samples.value[..t.failAt.value], t.co2.value.value, delay, t.now) + [Closed])
  {
  }

  /** Every ended run closed the sink exactly once, last; one still running has not. */
  lemma MonitorClosesOnce(delay: int, timeout: Option<int>, ticks: seq<TickInput>)
    ensures var (o, evs) := Monitor(delay, timeout, ticks);
            && (o == Running ==> Closed !in evs)
            && (o != Running ==> |evs| > 0 && evs[|evs| - 1] == Closed && Closed !in evs[..|evs| - 1])
  {
    forall t ensures Closed !in Step(delay, timeout)(t).1 {
      TickNeverCloses(delay, timeout, t);
    }
    RunClosesOnce(Step(delay, timeout), ticks);
  }

  /** Without a timeout the loop never ends normally. */
  lemma MonitorWithoutTimeout(delay: int, ticks: seq<TickInput>)
    ensures Monitor(delay, None, ticks).0 != Finished
  {
    RunNeverFinishes(Step(delay, None), ticks);
  }

  /** One tick, one device drawing 1000 W for an hour under 500 g/kWh, and a
      timeout already reached: one record of 0.5 mgCO2e, no sleep, then close. */
  lemma OneTickExample(device: string, now: int)
    ensures var (o, evs) := Monitor(3600, Some(0), [TickInput(Ok([(device, 1000.0)]), Ok(Some(500.0)), None, now, 0)]);
            o == Finished &&
            evs == [Sampled, LookedUp, Wrote(EnergyUsage(VStr(device), VTime(now), VReal(1000.0), VReal(0.5), VReal(500.0))), Closed]
  {
    EmissionExamples();
    var t := TickInput(Ok([(device, 1000.0)]), Ok(Some(500.0)), None, now, 0);
    var w := [Wrote(EnergyUsage(VStr(device), VTime(now), VReal(1000.0), VReal(0.5), VReal(500.0)))];
    assert Writes([(device, 1000.0)], 500.0, 3600, now) == w;
    assert Tick(3600, Some(0), t) == (Finish, [Sampled, LookedUp] + w);
    assert Step(3600, Some(0))(t) == (Finish, [Sampled, LookedUp] + w);
    assert Run(Step(3600, Some(0)), [t]) == (Finished, [Sampled, LookedUp] + w + [Closed]);
  }

  /** One tick of `monitor_energy_use`: sample, look up, write device by device. */
  method RunTick(delay: int, timeout: Option<int>, t: TickInput) returns (end: TickEnd, evs: seq<Event<EnergyUsage>>)
    ensures (end, evs) == Tick(delay, timeout, t)
  {
    evs := [Sampled];
    if t.samples.Err? {
      return Fail(t.samples.error), evs;
    }
    var items := t.samples.value;
    evs := evs + [LookedUp];
    assert evs == [Sampled, LookedUp];
    if t.co2.Err? {
      return Fail(t.co2.error), evs;
    }
    var co2 := t.co2.value;
    var j := 0;
    while j < |items|
      invariant 0 <= j <= |items|
      invariant co2.None? ==> j == 0 && evs == [Sampled, LookedUp]
      invariant co2.Some? ==> evs == [Sampled, LookedUp] + Writes(items[..j], co2.value, delay, t.now)
      invariant t.failAt.Some? ==> j <= t.failAt.value
    {
      if co2.None? {
        return Fail(TypeError), evs;
      }
      if t.failAt == Some(j) {
        return Fail(SinkError), evs;
      }
      WritesStep(items, j, co2.value, delay, t.now);
      evs := evs + [Wrote(UsageRecord(items[j].0, items[j].1, co2.value, delay, t.now))];
      j := j + 1;
    }
    assert items[..|items|] == items;
    ghost var c := if co2.Some? then co2.value else 0.0;
    assert evs == [Sampled, LookedUp] + Writes(items, c, delay, t.now);
    if timeout.Some? && t.elapsed >= timeout.value {
      return Finish, evs;
    }
    if delay < 0 {
      return Fail(ValueError(NegativeSleep)), evs;
    }
    evs := evs + [Slept(delay)];
    end := Continue;
  }

  /** `monitor_energy_use(get_energy_values, get_co2_data, db, delay, timeout)`. */
  method MonitorEnergyUse(delay: int, timeout: Option<int>, ticks: seq<TickInput>)
    returns (outcome: Outcome, events: seq<Event<EnergyUsage>>)
    ensures outcome == Monitor(delay, timeout, ticks).0 && events == Monitor(delay, timeout, ticks).1
  {
    ghost var step := Step(delay, timeout);
    events := [];
    outcome := Running;
    var i := 0;
    var stopped := false;
    assert ticks[0..] == ticks;
    assert events + Run(step, ticks).1 == Run(step, ticks).1;
    while i < |ticks| && !stopped
      invariant 0 <= i <= |ticks|
      invariant !stopped ==> outcome == Running && Run(step, ticks) == (Run(step, ticks[i..]).0, events + Run(step, ticks[i..]).1)
      invariant stopped ==> Run(step, ticks) == (outcome, events)
    {
      var end, tickEvents := RunTick(delay, timeout, ticks[i]);
      assert step(ticks[i]) == (end, tickEvents);
      RunAdvance(step, ticks, i, events, Run(step, ticks));
      events := events + tickEvents;
      match end {
        case Finish =>
          outcome := Finished;
          events := events + [Closed];
          stopped := true;
        case Fail(e) =>
          outcome := Raised(e);
          events := events + [Closed];
          stopped := true;
        case Continue =>
      }
      i := i + 1;
    }
    if !stopped {
      assert ticks[i..] == [];
    }
    assert Monitor(delay, timeout, ticks) == Run(step, ticks);
  }
}
