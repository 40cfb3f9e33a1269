/** The incubator process: the startup configuration check, the controller
    object whose fields are the devices it drives, the one-time relay
    self-test and one pass of the `while True` loop. */
module Incubadora {
  import opened Wrappers
  import opened Effects
  import opened Control

  /** The telemetry settings the process reads from its environment. */
  datatype Config = Config(host: string, org: string, token: string, bucket: string)

  /** A setting counts as given when it is present and non-empty (Python's
      truthiness of the value os.getenv returns). */
  predicate Given(v: Option<string>)
  {
    v.Some? && v.value != ""
  }

  /** A configuration with every setting non-empty. */
  predicate Complete(c: Config)
  {
    c.host != "" && c.org != "" && c.token != "" && c.bucket != ""
  }

  /** The startup check: the process goes on only with all four settings
      given, and otherwise exits with status 1. */
  function Configure(host: Option<string>, org: Option<string>, token: Option<string>, bucket: Option<string>)
    : (r: Result<Config, int>)
    ensures r.Success? <==> Given(host) && Given(org) && Given(token) && Given(bucket)
    ensures r.Failure? ==> r.error == 1
    ensures r.Success? ==> r.value == Config(host.value, org.value, token.value, bucket.value) && Complete(r.value)
  {
    if host.None? || host.value == "" || org.None? || org.value == ""
       || token.None? || token.value == "" || bucket.None? || bucket.value == ""
    then Failure(1)
    else Success(Config(host.value, org.value, token.value, bucket.value))
  }

  /** The controller and the devices it owns. The fields hold the current
      relay and buzzer levels, the screen, the records handed to the store
      and the number of failed reads logged; `trace` is the history of every
      effect performed, and Valid() keeps the fields equal to what replaying
      that history from the devices' state at power-on gives. */
  class Incubator {
    const config: Config
    const initial: Devices
    var relay: Level
    var buzzer: Level
    var screen: Screen
    var telemetry: seq<Record>
    var failures: nat
    ghost var trace: seq<Effect>

    function State(): Devices
      reads this
    {
      Devices(relay, buzzer, screen, telemetry, failures)
    }

    ghost predicate Valid()
      reads this
    {
      State() == Replay(initial, trace)
    }

    /** Pin setup and the startup screen. The output pins' levels before the
        program first drives them are not fixed by the program, so they are
        parameters. */
    constructor (config: Config, relay0: Level, buzzer0: Level)
      requires Complete(config)
      ensures Valid()
      ensures this.config == config && initial == Devices(relay0, buzzer0, Blank, [], 0)
      ensures trace == [Display(Startup)]
      ensures State() == Devices(relay0, buzzer0, Startup, [], 0)
    {
      this.config := config;
      initial := Devices(relay0, buzzer0, Blank, [], 0);
      relay, buzzer, screen, telemetry, failures := relay0, buzzer0, Startup, [], 0;
      trace := [Display(Startup)];
      new;
      ReplayOne(initial, Display(Startup));
    }

    /** GPIO.output(RELAY_PIN, level). */
    method SetRelay(level: Level)
      requires Valid()
      modifies this
      ensures Valid() && trace == old(trace) + [RelayOut(level)]
      ensures State() == old(State()).(relay := level)
    {
      relay := level;
      trace := trace + [RelayOut(level)];
      ReplayAppend(initial, old(trace), [RelayOut(level)]);
      ReplayOne(Replay(initial, old(trace)), RelayOut(level));
    }

    /** GPIO.output(BUZZER_PIN, level). */
    method SetBuzzer(level: Level)
      requires Valid()
      modifies this
      ensures Valid() && trace == old(trace) + [BuzzerOut(level)]
      ensures State() == old(State()).(buzzer := level)
    {
      buzzer := level;
      trace := trace + [BuzzerOut(level)];
      ReplayAppend(initial, old(trace), [BuzzerOut(level)]);
      ReplayOne(Replay(initial, old(trace)), BuzzerOut(level));
    }

    /** time.sleep: no device changes. */
    method Sleep(millis: nat)
      requires Valid()
      modifies this
      ensures Valid() && trace == old(trace) + [Pause(millis)]
      ensures State() == old(State())
    {
      trace := trace + [Pause(millis)];
      ReplayAppend(initial, old(trace), [Pause(millis)]);
      ReplayOne(Replay(initial, old(trace)), Pause(millis));
    }

    /** influx_write_api.write of one record. */
    method Write(record: Record)
      requires Valid()
      modifies this
      ensures Valid() && trace == old(trace) + [Submit(record)]
      ensures State() == old(State()).(telemetry := old(telemetry) + [record])
    {
      telemetry := telemetry + [record];
      trace := trace + [Submit(record)];
      ReplayAppend(initial, old(trace), [Submit(record)]);
      ReplayOne(Replay(initial, old(trace)), Submit(record));
    }

    /** Clear the display and draw a new screen. */
    method Show(s: Screen)
      requires Valid()
      modifies this
      ensures Valid() && trace == old(trace) + [Display(s)]
      ensures State() == old(State()).(screen := s)
    {
      screen := s;
      trace := trace + [Display(s)];
      ReplayAppend(initial, old(trace), [Display(s)]);
      ReplayOne(Replay(initial, old(trace)), Display(s));
    }

    /** Log a failed sensor read. */
    method LogFailure()
      requires Valid()
      modifies this
      ensures Valid() && trace == old(trace) + [LogError]
      ensures State() == old(State()).(failures := old(failures) + 1)
    {
      failures := failures + 1;
      trace := trace + [LogError];
      ReplayAppend(initial, old(trace), [LogError]);
      ReplayOne(Replay(initial, old(trace)), LogError);
    }

    /** do_beep(t): the buzzer is LOW again when it returns. */
    method DoBeep(millis: nat)
      requires Valid()
      modifies this
      ensures Valid() && trace == old(trace) + BeepEffects(millis)
      ensures State() == old(State()).(buzzer := Low)
    {
      SetBuzzer(High);
      Sleep(millis);
      SetBuzzer(Low);
    }

    /** One self-test pulse: relay on, wait, relay off, beep, wait. */
    method Pulse()
      requires Valid()
      modifies this
      ensures Valid() && trace == old(trace) + PulseEffects()
      ensures State() == old(State()).(relay := Low, buzzer := Low)
    {
      SetRelay(High);
      Sleep(RelayTestMillis);
      SetRelay(Low);
      DoBeep(BeepMillis);
      Sleep(RelayTestMillis);
      assert trace == old(trace) + PulseEffects();
    }

    /** The startup relay test: three pulses. Afterwards the relay and buzzer
        are LOW whatever they were before, and screen, store and log are
        untouched. */
    method SelfTest()
      requires Valid()
      modifies this
      ensures Valid() && trace == old(trace) + SelfTestEffects(RelayTestPulses)
      ensures State() == old(State()).(relay := Low, buzzer := Low)
    {
      for i := 0 to RelayTestPulses
        invariant Valid()
        invariant trace == old(trace) + SelfTestEffects(i)
        invariant State() == if i == 0 then old(State()) else old(State()).(relay := Low, buzzer := Low)
      {
        Pulse();
        assert SelfTestEffects(i + 1) == SelfTestEffects(i) + PulseEffects();
        assert trace == old(trace) + SelfTestEffects(i + 1);
      }
    }

    /** One pass of the control loop, given what the sensor returned and the
        clock: it performs exactly the effects of CycleEffects(o), so the
        devices end where replaying those effects leaves them. A missing or
        zero value logs the failure and changes nothing else (CycleOnFailure);
        otherwise the pass writes the reading's record, sets the relay HIGH
        and beeps iff the temperature is below 37.70, else sets it LOW, shows
        the reading and sleeps (CycleOutcome, CycleSequence). */
    method Step(o: Observation)
      requires Valid()
      modifies this
      ensures Valid() && trace == old(trace) + CycleEffects(o)
      ensures State() == Replay(old(State()), CycleEffects(o))
    {
      if o.humidity.None? || o.humidity.value == 0 || o.temperature.None? || o.temperature.value == 0 {
        LogFailure();
        ReplayAppend(initial, old(trace), CycleEffects(o));
        return;
      }
      var temperature := o.temperature.value;
      var humidity := o.humidity.value;
      Write(Record(Measurement, Location, temperature, humidity, o.now));
      ghost var written := trace;
      if temperature < TargetTemperature {
        SetRelay(High);
        DoBeep(BeepMillis);
        assert trace == written + ([RelayOut(High)] + BeepEffects(BeepMillis));
      } else {
        SetRelay(Low);
      }
      Show(Showing(temperature, humidity));
      Sleep(SamplingMillis);
      assert trace == old(trace) + CycleEffects(o);
      ReplayAppend(initial, old(trace), CycleEffects(o));
    }

    /** The `while True` loop over the passes whose observations are os: it
        performs the passes' effects in order, so the devices end where
        replaying those effects leaves them, which RunReports, RunFollowsLastReading
        and RunBeeps describe. */
    method Run(os: seq<Observation>)
      requires Valid()
      modifies this
      ensures Valid() && trace == old(trace) + RunEffects(os)
      ensures State() == Replay(old(State()), RunEffects(os))
    {
      for i := 0 to |os|
        invariant Valid()
        invariant trace == old(trace) + RunEffects(os[..i])
      {
        RunEffectsSnoc(os, i);
        Step(os[i]);
      }
      assert os[..|os|] == os;
      ReplayAppend(initial, old(trace), RunEffects(os));
    }
  }

  /** Process startup: the configuration check, then (only if it passes) pin
      setup, the startup screen and the relay self-test. On success the loop
      starts with the relay and buzzer LOW, nothing reported and nothing
      logged; on failure the process exits with status 1 before touching any
      device. */
  method Boot(host: Option<string>, org: Option<string>, token: Option<string>, bucket: Option<string>,
              relay0: Level, buzzer0: Level)
    returns (r: Result<Incubator, int>)
    ensures r.Failure? <==> !(Given(host) && Given(org) && Given(token) && Given(bucket))
    ensures r.Failure? ==> r.error == 1
    ensures r.Success? ==>
      && fresh(r.value) && r.value.Valid()
      && r.value.config == Config(host.value, org.value, token.value, bucket.value)
      && r.value.trace == [Display(Startup)] + SelfTestEffects(RelayTestPulses)
      && r.value.State() == Devices(Low, Low, Startup, [], 0)
  {
    var cfg := Configure(host, org, token, bucket);
    if cfg.Failure? {
      return Failure(cfg.error);
    }
    var incubator := new Incubator(cfg.value, relay0, buzzer0);
    incubator.SelfTest();
    return Success(incubator);
  }
}
