/** The outside world of the incubator controller: the relay and buzzer pins,
    the display, the telemetry store and the error log, and the effects the
    controller has on them, in the order it performs them. */
module Effects {

  /** A digital output level (GPIO.HIGH / GPIO.LOW). */
  datatype Level = Low | High

  /** What the two-line display shows. */
  datatype Screen =
    | Blank                                  // before the program draws anything
    | Startup                                // the "Iniciant" / "test ..." screen
    | Showing(temperature: int, humidity: int)

  /** One telemetry point; temperature and humidity in hundredths. */
  datatype Record = Record(measurement: string, location: string, temperature: int, humidity: int, time: nat)

  /** One externally visible action of the controller. */
  datatype Effect =
    | RelayOut(level: Level)                 // GPIO.output(RELAY_PIN, level)
    | BuzzerOut(level: Level)                // GPIO.output(BUZZER_PIN, level)
    | Pause(millis: nat)                     // time.sleep
    | Submit(record: Record)                 // influx_write_api.write
    | Display(screen: Screen)                // device.clear() and redraw
    | LogError                               // the error log line of a failed read

  /** The kinds of effect, for counting. */
  datatype Kind = RelayKind | BuzzerKind | PauseKind | SubmitKind | DisplayKind | LogKind

  function KindOf(e: Effect): Kind
  {
    match e
    case RelayOut(_) => RelayKind
    case BuzzerOut(_) => BuzzerKind
    case Pause(_) => PauseKind
    case Submit(_) => SubmitKind
    case Display(_) => DisplayKind
    case LogError => LogKind
  }

  /** The number of effects of kind k in s. */
  function CountKind(s: seq<Effect>, k: Kind): nat
  {
    if s == [] then 0 else (if KindOf(s[0]) == k then 1 else 0) + CountKind(s[1..], k)
  }

  lemma {:induction false} CountKindAppend(a: seq<Effect>, b: seq<Effect>, k: Kind)
    ensures CountKind(a + b, k) == CountKind(a, k) + CountKind(b, k)
  {
    if a == [] {
      assert a + b == b;
    } else {
      assert (a + b)[1..] == a[1..] + b;
      CountKindAppend(a[1..], b, k);
    }
  }

  /** A sequence with no effect of kind k counts none. */
  lemma {:induction false} CountKindAbsent(s: seq<Effect>, k: Kind)
    requires forall e :: e in s ==> KindOf(e) != k
    ensures CountKind(s, k) == 0
  {
    if s != [] {
      assert forall e :: e in s[1..] ==> e in s;
      CountKindAbsent(s[1..], k);
    }
  }

  /** The observable state of the devices and the store. */
  datatype Devices = Devices(relay: Level, buzzer: Level, screen: Screen, telemetry: seq<Record>, failures: nat)

  /** The state after one effect. */
  function Apply(d: Devices, e: Effect): Devices
  {
    match e
    case RelayOut(l) => d.(relay := l)
    case BuzzerOut(l) => d.(buzzer := l)
    case Pause(_) => d
    case Submit(r) => d.(telemetry := d.telemetry + [r])
    case Display(s) => d.(screen := s)
    case LogError => d.(failures := d.failures + 1)
  }

  /** The state after the effects s, performed in order from d. */
  function Replay(d: Devices, s: seq<Effect>): Devices
    decreases |s|
  {
    if s == [] then d else Apply(Replay(d, s[..|s| - 1]), s[|s| - 1])
  }

  /** Performing a then b is performing b from where a left off. */
  lemma {:induction false} ReplayAppend(d: Devices, a: seq<Effect>, b: seq<Effect>)
    ensures Replay(d, a + b) == Replay(Replay(d, a), b)
    decreases |b|
  {
    if b == [] {
      assert a + b == a;
    } else {
      assert (a + b)[..|a + b| - 1] == a + b[..|b| - 1];
      ReplayAppend(d, a, b[..|b| - 1]);
    }
  }

  /** Performing a single effect is applying it. */
  lemma ReplayOne(d: Devices, e: Effect)
    ensures Replay(d, [e]) == Apply(d, e)
  {
    assert [e][..0] == [];
  }

  /** The records carried by the Submit effects of s, in order. */
  function Submitted(s: seq<Effect>): seq<Record>
    decreases |s|
  {
    if s == [] then []
    else Submitted(s[..|s| - 1]) + (if s[|s| - 1].Submit? then [s[|s| - 1].record] else [])
  }

  /** The store only ever grows: the telemetry after s is the telemetry
      before it followed by the records of the Submit effects of s, in the
      order they were performed, one per Submit effect. */
  lemma {:induction false} ReplayTelemetryGrows(d: Devices, s: seq<Effect>)
    ensures Replay(d, s).telemetry == d.telemetry + Submitted(s)
    ensures |Submitted(s)| == CountKind(s, SubmitKind)
    decreases |s|
  {
    if s != [] {
      var init, e := s[..|s| - 1], s[|s| - 1];
      assert s == init + [e];
      ReplayTelemetryGrows(d, init);
      CountKindAppend(init, [e], SubmitKind);
      assert CountKind([e], SubmitKind) == (if e.Submit? then 1 else 0) by {
        assert [e][1..] == [];
      }
    }
  }
}
