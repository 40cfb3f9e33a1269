/** The control logic of one pass of the incubator loop, the startup relay
    self-test and runs of several passes, as the effects they perform. All
    temperatures and humidities are integers in hundredths of a unit. */
module Control {
  import opened Wrappers
  import opened Effects

  /** TARGET_TEMPERATURE, 37.7 degrees Celsius. */
  const TargetTemperature: int := 3770
  /** BEEP_TIME, half a second. */
  const BeepMillis: nat := 500
  /** SAMPLING_RATE, six seconds. */
  const SamplingMillis: nat := 6000
  /** The half-second pauses of the relay self-test. */
  const RelayTestMillis: nat := 500
  /** The number of relay self-test pulses, range(0,3). */
  const RelayTestPulses: nat := 3
  const Measurement: string := "incubadora_pollets"
  const Location: string := "incubadora_casa"

  /** What one pass of the loop takes from the outside world: the humidity and
      temperature the sensor returns (None when it returns nothing) and the UTC
      instant the pass would stamp on its record. */
  datatype Observation = Observation(humidity: Option<int>, temperature: Option<int>, now: nat)

  /** A pass goes on only if both values are present and truthy: Python treats
      a reading of exactly 0 as false, so 0.00 is rejected like a missing value. */
  predicate Accepted(o: Observation)
  {
    o.humidity.Some? && o.humidity.value != 0 && o.temperature.Some? && o.temperature.value != 0
  }

  /** The threshold controller: heat exactly when below the target. */
  function Decide(temperature: int): (r: Level)
    ensures r == High <==> temperature < TargetTemperature
  {
    if temperature < TargetTemperature then High else Low
  }

  /** The telemetry record of an accepted observation. */
  function RecordOf(o: Observation): Record
    requires Accepted(o)
  {
    Record(Measurement, Location, o.temperature.value, o.humidity.value, o.now)
  }

  /** do_beep(t): buzzer on, wait, buzzer off. */
  function BeepEffects(millis: nat): seq<Effect>
  {
    [BuzzerOut(High), Pause(millis), BuzzerOut(Low)]
  }

  /** The effects of one pass of the `while True` body. A rejected reading logs
      an error and continues at once: no write, no relay, no display, no sleep. */
  function CycleEffects(o: Observation): seq<Effect>
  {
    if !Accepted(o) then [LogError]
    else
      var t, h := o.temperature.value, o.humidity.value;
      [Submit(RecordOf(o))] + ActuateEffects(t) + [Display(Showing(t, h)), Pause(SamplingMillis)]
  }

  /** The relay branch of a pass: below the target the relay goes HIGH and the
      buzzer beeps, otherwise the relay goes LOW. */
  function ActuateEffects(temperature: int): seq<Effect>
  {
    if temperature < TargetTemperature then [RelayOut(High)] + BeepEffects(BeepMillis) else [RelayOut(Low)]
  }

  /** One self-test pulse: relay on, wait, relay off, beep, wait. */
  function PulseEffects(): seq<Effect>
  {
    [RelayOut(High), Pause(RelayTestMillis), RelayOut(Low)] + BeepEffects(BeepMillis) + [Pause(RelayTestMillis)]
  }

  /** The effects of the first n self-test pulses. */
  function SelfTestEffects(n: nat): seq<Effect>
  {
    if n == 0 then [] else SelfTestEffects(n - 1) + PulseEffects()
  }

  /** The effects of the passes over os, in order. */
  function RunEffects(os: seq<Observation>): seq<Effect>
    decreases |os|
  {
    if os == [] then [] else RunEffects(os[..|os| - 1]) + CycleEffects(os[|os| - 1])
  }

  /** A run over the first i + 1 observations is the run over the first i
      followed by pass i. */
  lemma RunEffectsSnoc(os: seq<Observation>, i: nat)
    requires i < |os|
    ensures RunEffects(os[..i + 1]) == RunEffects(os[..i]) + CycleEffects(os[i])
  {
    assert os[..i + 1][..i] == os[..i];
  }

  /** The records a run over os submits: one per accepted observation. */
  function Reported(os: seq<Observation>): seq<Record>
    decreases |os|
  {
    if os == [] then []
    else
      var o := os[|os| - 1];
      Reported(os[..|os| - 1]) + (if Accepted(o) then [RecordOf(o)] else [])
  }

  /** The number of passes over os that heat: accepted readings below the
      target. */
  function HeatingPasses(os: seq<Observation>): nat
    decreases |os|
  {
    if os == [] then 0
    else
      var o := os[|os| - 1];
      HeatingPasses(os[..|os| - 1]) + (if Accepted(o) && o.temperature.value < TargetTemperature then 1 else 0)
  }

  /** The last accepted observation of os, if any. */
  function LastAccepted(os: seq<Observation>): (r: Option<Observation>)
    ensures r.Some? ==> Accepted(r.value) && r.value in os
    decreases |os|
  {
    if os == [] then None
    else if Accepted(os[|os| - 1]) then Some(os[|os| - 1])
    else LastAccepted(os[..|os| - 1])
  }

  // ---------------------------------------------------------------------------
  // One pass

  /** A successful pass sets the relay by the threshold rule alone (HIGH iff the
      temperature is strictly below 37.70, so exactly 37.70 turns it off),
      leaves the buzzer LOW when it heats, appends exactly the pass's record to
      the store and shows the reading; the failure log is untouched. */
  lemma CycleOutcome(d: Devices, o: Observation)
    requires Accepted(o)
    ensures var d' := Replay(d, CycleEffects(o));
      && (d'.relay == High <==> o.temperature.value < TargetTemperature)
      && d'.relay == Decide(o.temperature.value)
      && (o.temperature.value == TargetTemperature ==> d'.relay == Low)
      && d'.buzzer == (if o.temperature.value < TargetTemperature then Low else d.buzzer)
      && d'.telemetry == d.telemetry + [Record(Measurement, Location, o.temperature.value, o.humidity.value, o.now)]
      && d'.screen == Showing(o.temperature.value, o.humidity.value)
      && d'.failures == d.failures
  {
    var t := o.temperature.value;
    var head, branch := [Submit(RecordOf(o))], ActuateEffects(t);
    var show, rest := [Display(Showing(t, o.humidity.value))], [Pause(SamplingMillis)];
    assert CycleEffects(o) == head + branch + show + rest;
    ReplayAppend(d, head + branch + show, rest);
    ReplayAppend(d, head + branch, show);
    ReplayAppend(d, head, branch);
    ReplayOne(d, Submit(RecordOf(o)));
    var d1 := Replay(d, head);
    ActuateOutcome(d1, t);
    var d2 := Replay(d1, branch);
    ReplayOne(d2, Display(Showing(t, o.humidity.value)));
    ReplayOne(Replay(d2, show), Pause(SamplingMillis));
  }

  /** The relay branch sets the relay to the threshold decision; when it heats
      it beeps and leaves the buzzer LOW, otherwise it does not touch the
      buzzer. Nothing else changes. */
  lemma ActuateOutcome(d: Devices, temperature: int)
    ensures Replay(d, ActuateEffects(temperature))
         == d.(relay := Decide(temperature), buzzer := if temperature < TargetTemperature then Low else d.buzzer)
  {
    if temperature < TargetTemperature {
      ReplayAppend(d, [RelayOut(High)], BeepEffects(BeepMillis));
      ReplayOne(d, RelayOut(High));
      BeepLeavesBuzzerLow(Replay(d, [RelayOut(High)]), BeepMillis);
    } else {
      ReplayOne(d, RelayOut(Low));
    }
  }

  /** How many effects of each kind the relay branch performs: one relay
      write, and when heating two buzzer writes and one pause. */
  lemma ActuateCounts(temperature: int, k: Kind)
    ensures CountKind(ActuateEffects(temperature), k) ==
      var heat := temperature < TargetTemperature;
      match k
      case RelayKind => 1
      case BuzzerKind => if heat then 2 else 0
      case PauseKind => if heat then 1 else 0
      case _ => 0
  {
    if temperature < TargetTemperature {
      assert ActuateEffects(temperature) == [RelayOut(High)] + [BuzzerOut(High)] + ([Pause(BeepMillis)] + [BuzzerOut(Low)]);
      CountKindThree([RelayOut(High)], [BuzzerOut(High)], [Pause(BeepMillis)] + [BuzzerOut(Low)], k);
      CountKindAppend([Pause(BeepMillis)], [BuzzerOut(Low)], k);
      CountKindOne(RelayOut(High), k);
      CountKindOne(BuzzerOut(High), k);
      CountKindOne(Pause(BeepMillis), k);
      CountKindOne(BuzzerOut(Low), k);
    } else {
      CountKindOne(RelayOut(Low), k);
    }
  }

  /** A rejected reading (missing, or exactly zero) only logs the failure: the
      relay, buzzer, display and store are as they were, and the pass performs
      no write, no relay or buzzer change, no display update and no sleep. */
  lemma CycleOnFailure(d: Devices, o: Observation)
    requires !Accepted(o)
    ensures Replay(d, CycleEffects(o)) == d.(failures := d.failures + 1)
    ensures forall k :: k != LogKind ==> CountKind(CycleEffects(o), k) == 0
  {
    ReplayOne(d, LogError);
    forall k ensures CountKind(CycleEffects(o), k) == if k == LogKind then 1 else 0 {
      CountKindOne(LogError, k);
    }
  }

  /** The count of kind k in a one-effect sequence. */
  lemma CountKindOne(e: Effect, k: Kind)
    ensures CountKind([e], k) == if KindOf(e) == k then 1 else 0
  {
    assert [e][1..] == [];
  }

  /** The counts of kind k in the pieces of a three-piece sequence add up. */
  lemma CountKindThree(a: seq<Effect>, b: seq<Effect>, c: seq<Effect>, k: Kind)
    ensures CountKind(a + b + c, k) == CountKind(a, k) + CountKind(b, k) + CountKind(c, k)
  {
    CountKindAppend(a + b, c, k);
    CountKindAppend(a, b, k);
  }

  /** How many effects of each kind a successful pass performs. */
  lemma CycleCounts(o: Observation, k: Kind)
    requires Accepted(o)
    ensures CountKind(CycleEffects(o), k) ==
      var heat := o.temperature.value < TargetTemperature;
      match k
      case SubmitKind => 1
      case RelayKind => 1
      case DisplayKind => 1
      case LogKind => 0
      case BuzzerKind => if heat then 2 else 0
      case PauseKind => if heat then 2 else 1
  {
    var t := o.temperature.value;
    var head, branch := [Submit(RecordOf(o))], ActuateEffects(t);
    var tail := [Display(Showing(t, o.humidity.value))] + [Pause(SamplingMillis)];
    assert CycleEffects(o) == head + branch + tail;
    CountKindThree(head, branch, tail, k);
    CountKindOne(Submit(RecordOf(o)), k);
    ActuateCounts(t, k);
    CountKindAppend([Display(Showing(t, o.humidity.value))], [Pause(SamplingMillis)], k);
    CountKindOne(Display(Showing(t, o.humidity.value)), k);
    CountKindOne(Pause(SamplingMillis), k);
  }

  /** A successful pass performs exactly one telemetry write, one relay write,
      one display update and one sampling sleep, in that order: the write comes
      first, the relay write second, and the display and sleep last. */
  lemma CycleSequence(o: Observation)
    requires Accepted(o)
    ensures var c := CycleEffects(o);
      && CountKind(c, SubmitKind) == 1
      && CountKind(c, RelayKind) == 1
      && CountKind(c, DisplayKind) == 1
      && CountKind(c, LogKind) == 0
      && c[0] == Submit(RecordOf(o))
      && c[1] == RelayOut(Decide(o.temperature.value))
      && c[|c| - 2] == Display(Showing(o.temperature.value, o.humidity.value))
      && c[|c| - 1] == Pause(SamplingMillis)
  {
    CycleCounts(o, SubmitKind);
    CycleCounts(o, RelayKind);
    CycleCounts(o, DisplayKind);
    CycleCounts(o, LogKind);
  }

  /** A pass beeps (drives the buzzer HIGH) exactly once when it heats and
      never when it does not: on every heating pass, whether or not the relay
      was already on. */
  lemma CycleBeeps(o: Observation)
    requires Accepted(o)
    ensures multiset(CycleEffects(o))[BuzzerOut(High)] == (if o.temperature.value < TargetTemperature then 1 else 0)
    ensures multiset(CycleEffects(o))[BuzzerOut(Low)] == multiset(CycleEffects(o))[BuzzerOut(High)]
  {
  }

  /** The relay level after a successful pass does not depend on the state
      before it. */
  lemma RelayIgnoresHistory(d1: Devices, d2: Devices, o: Observation)
    requires Accepted(o)
    ensures Replay(d1, CycleEffects(o)).relay == Replay(d2, CycleEffects(o)).relay
  {
    CycleOutcome(d1, o);
    CycleOutcome(d2, o);
  }

  /** Two passes with the same accepted reading leave the relay where one
      leaves it, beep once per heating pass and submit the record twice. */
  lemma SameReadingTwice(d: Devices, o: Observation)
    requires Accepted(o)
    ensures var once, twice := Replay(d, CycleEffects(o)), Replay(d, CycleEffects(o) + CycleEffects(o));
      && twice.relay == once.relay
      && twice.telemetry == d.telemetry + [RecordOf(o), RecordOf(o)]
      && multiset(CycleEffects(o) + CycleEffects(o))[BuzzerOut(High)]
         == (if o.temperature.value < TargetTemperature then 2 else 0)
  {
    ReplayAppend(d, CycleEffects(o), CycleEffects(o));
    CycleOutcome(d, o);
    CycleOutcome(Replay(d, CycleEffects(o)), o);
    CycleBeeps(o);
  }

  // ---------------------------------------------------------------------------
  // The startup self-test

  /** do_beep leaves the buzzer LOW and changes nothing else. */
  lemma BeepLeavesBuzzerLow(d: Devices, millis: nat)
    ensures Replay(d, BeepEffects(millis)) == d.(buzzer := Low)
  {
    assert BeepEffects(millis) == [BuzzerOut(High)] + [Pause(millis)] + [BuzzerOut(Low)];
    ReplayAppend(d, [BuzzerOut(High)] + [Pause(millis)], [BuzzerOut(Low)]);
    ReplayAppend(d, [BuzzerOut(High)], [Pause(millis)]);
    ReplayOne(d, BuzzerOut(High));
    ReplayOne(Replay(d, [BuzzerOut(High)]), Pause(millis));
    ReplayOne(Replay(d, [BuzzerOut(High)] + [Pause(millis)]), BuzzerOut(Low));
  }

  /** One self-test pulse leaves the relay and buzzer LOW. */
  lemma PulseOutcome(d: Devices)
    ensures Replay(d, PulseEffects()) == d.(relay := Low, buzzer := Low)
  {
    var on, wait, off := [RelayOut(High)], [Pause(RelayTestMillis)], [RelayOut(Low)];
    var beep := BeepEffects(BeepMillis);
    assert PulseEffects() == on + wait + off + beep + wait;
    var d1 := Replay(d, on);
    var d2 := Replay(d, on + wait);
    var d3 := Replay(d, on + wait + off);
    var d4 := Replay(d, on + wait + off + beep);
    ReplayOne(d, RelayOut(High));
    assert d1 == d.(relay := High);
    ReplayAppend(d, on, wait);
    ReplayOne(d1, Pause(RelayTestMillis));
    assert d2 == d1;
    ReplayAppend(d, on + wait, off);
    ReplayOne(d2, RelayOut(Low));
    assert d3 == d.(relay := Low);
    ReplayAppend(d, on + wait + off, beep);
    BeepLeavesBuzzerLow(d3, BeepMillis);
    assert d4 == d.(relay := Low, buzzer := Low);
    ReplayAppend(d, on + wait + off + beep, wait);
    ReplayOne(d4, Pause(RelayTestMillis));
  }

  /** One self-test pulse drives the relay HIGH once and LOW once and beeps
      once. */
  lemma PulseLevels()
    ensures multiset(PulseEffects())[RelayOut(High)] == 1
    ensures multiset(PulseEffects())[RelayOut(Low)] == 1
    ensures multiset(PulseEffects())[BuzzerOut(High)] == 1
  {
    var relays := [RelayOut(High), Pause(RelayTestMillis), RelayOut(Low)];
    var rest := BeepEffects(BeepMillis) + [Pause(RelayTestMillis)];
    assert PulseEffects() == relays + rest;
    assert multiset(PulseEffects()) == multiset(relays) + multiset(rest);
    assert multiset(relays)[RelayOut(High)] == 1 && multiset(relays)[RelayOut(Low)] == 1;
    assert multiset(relays)[BuzzerOut(High)] == 0;
    assert multiset(rest)[BuzzerOut(High)] == 1;
    assert multiset(rest)[RelayOut(High)] == 0 && multiset(rest)[RelayOut(Low)] == 0;
  }

  /** One self-test pulse writes, draws and logs nothing. */
  lemma PulseCounts(k: Kind)
    requires k in {SubmitKind, DisplayKind, LogKind}
    ensures CountKind(PulseEffects(), k) == 0
  {
    assert PulseEffects() == [RelayOut(High), Pause(RelayTestMillis), RelayOut(Low),
                              BuzzerOut(High), Pause(BeepMillis), BuzzerOut(Low), Pause(RelayTestMillis)];
    CountKindAbsent(PulseEffects(), k);
  }

  /** n >= 1 self-test pulses leave the relay and buzzer LOW, whatever they
      were before, and change nothing else. */
  lemma {:induction false} SelfTestOutcome(d: Devices, n: nat)
    requires n >= 1
    ensures Replay(d, SelfTestEffects(n)) == d.(relay := Low, buzzer := Low)
  {
    ReplayAppend(d, SelfTestEffects(n - 1), PulseEffects());
    PulseOutcome(Replay(d, SelfTestEffects(n - 1)));
    if n > 1 {
      SelfTestOutcome(d, n - 1);
    }
  }

  /** n self-test pulses drive the relay HIGH exactly n times and LOW exactly
      n times, and beep exactly n times. */
  lemma {:induction false} SelfTestLevels(n: nat, e: Effect)
    requires e in {RelayOut(High), RelayOut(Low), BuzzerOut(High)}
    ensures multiset(SelfTestEffects(n))[e] == n
  {
    if n > 0 {
      var before, pulse := SelfTestEffects(n - 1), PulseEffects();
      assert SelfTestEffects(n) == before + pulse;
      assert multiset(before + pulse)[e] == multiset(before)[e] + multiset(pulse)[e];
      SelfTestLevels(n - 1, e);
      PulseLevels();
    }
  }

  /** The self-test writes no telemetry, draws nothing and logs nothing. */
  lemma {:induction false} SelfTestQuiet(n: nat, k: Kind)
    requires k in {SubmitKind, DisplayKind, LogKind}
    ensures CountKind(SelfTestEffects(n), k) == 0
  {
    if n > 0 {
      SelfTestQuiet(n - 1, k);
      PulseCounts(k);
      CountKindAppend(SelfTestEffects(n - 1), PulseEffects(), k);
    }
  }

  // ---------------------------------------------------------------------------
  // Runs of several passes

  /** After any run the store holds one record per accepted reading, in
      order, and every rejected reading adds one failure to the log. */
  lemma {:induction false} RunReports(d: Devices, os: seq<Observation>)
    ensures Replay(d, RunEffects(os)).telemetry == d.telemetry + Reported(os)
    ensures |Reported(os)| <= |os|
    ensures Replay(d, RunEffects(os)).failures == d.failures + |os| - |Reported(os)|
    decreases |os|
  {
    if os != [] {
      var init, o := os[..|os| - 1], os[|os| - 1];
      var before := Replay(d, RunEffects(init));
      assert RunEffects(os) == RunEffects(init) + CycleEffects(o);
      RunReports(d, init);
      ReplayAppend(d, RunEffects(init), CycleEffects(o));
      if Accepted(o) {
        CycleOutcome(before, o);
      } else {
        CycleOnFailure(before, o);
      }
    }
  }

  /** After any run the relay and display follow the last accepted reading,
      so a sensor dropout freezes them at the last good one; if no reading was
      accepted they are as before the run. */
  lemma {:induction false} RunFollowsLastReading(d: Devices, os: seq<Observation>)
    ensures var last := LastAccepted(os);
      && Replay(d, RunEffects(os)).relay == (if last.Some? then Decide(last.value.temperature.value) else d.relay)
      && Replay(d, RunEffects(os)).screen
         == (if last.Some? then Showing(last.value.temperature.value, last.value.humidity.value) else d.screen)
    decreases |os|
  {
    if os != [] {
      var init, o := os[..|os| - 1], os[|os| - 1];
      var before := Replay(d, RunEffects(init));
      assert RunEffects(os) == RunEffects(init) + CycleEffects(o);
      ReplayAppend(d, RunEffects(init), CycleEffects(o));
      if Accepted(o) {
        CycleOutcome(before, o);
      } else {
        RunFollowsLastReading(d, init);
        CycleOnFailure(before, o);
      }
    }
  }

  /** Over any run the buzzer beeps exactly once per heating pass: once for
      every accepted reading below the target, and for nothing else. */
  lemma {:induction false} RunBeeps(os: seq<Observation>)
    ensures multiset(RunEffects(os))[BuzzerOut(High)] == HeatingPasses(os)
    decreases |os|
  {
    if os != [] {
      var init, o := os[..|os| - 1], os[|os| - 1];
      assert RunEffects(os) == RunEffects(init) + CycleEffects(o);
      assert multiset(RunEffects(os))[BuzzerOut(High)]
          == multiset(RunEffects(init))[BuzzerOut(High)] + multiset(CycleEffects(o))[BuzzerOut(High)];
      RunBeeps(init);
      if Accepted(o) {
        CycleBeeps(o);
      } else {
        assert CycleEffects(o) == [LogError];
      }
    }
  }

  /** The observations of the end-to-end example: 37.50, 37.90, a sensor
      dropout, then 37.60, all at 55 % humidity. */
  function DropoutReadings(): (os: seq<Observation>)
    ensures |os| == 4
  {
    [Observation(Some(5500), Some(3750), 1), Observation(Some(5500), Some(3790), 2),
     Observation(None, None, 3), Observation(Some(5500), Some(3760), 4)]
  }

  /** In the end-to-end example the relay is HIGH, LOW, still LOW through the
      dropout, then HIGH again after each pass, whatever it was before. */
  lemma DropoutRelay(d: Devices)
    ensures Replay(d, RunEffects(DropoutReadings()[..1])).relay == High
    ensures Replay(d, RunEffects(DropoutReadings()[..2])).relay == Low
    ensures Replay(d, RunEffects(DropoutReadings()[..3])).relay == Low
    ensures Replay(d, RunEffects(DropoutReadings())).relay == High
  {
    var os := DropoutReadings();
    var o1, o2, o3, o4 := os[0], os[1], os[2], os[3];
    assert os[..1] == [o1] && os[..2] == [o1, o2] && os[..3] == [o1, o2, o3] && os == [o1, o2, o3, o4];
    assert [o1][..0] == [] && [o1, o2][..1] == [o1] && [o1, o2, o3][..2] == [o1, o2] && os[..3] == [o1, o2, o3];
    assert LastAccepted([o1]) == Some(o1);
    assert LastAccepted([o1, o2]) == Some(o2);
    assert LastAccepted([o1, o2, o3]) == Some(o2);
    assert LastAccepted(os) == Some(o4);
    RunFollowsLastReading(d, [o1]);
    RunFollowsLastReading(d, [o1, o2]);
    RunFollowsLastReading(d, [o1, o2, o3]);
    RunFollowsLastReading(d, os);
  }

  /** In the end-to-end example the store receives the three good readings
      only, and the dropout is logged once. */
  lemma DropoutReports(d: Devices)
    ensures Replay(d, RunEffects(DropoutReadings())).telemetry
         == d.telemetry + [Record(Measurement, Location, 3750, 5500, 1), Record(Measurement, Location, 3790, 5500, 2),
                           Record(Measurement, Location, 3760, 5500, 4)]
    ensures Replay(d, RunEffects(DropoutReadings())).failures == d.failures + 1
  {
    var os := DropoutReadings();
    var o1, o2, o3, o4 := os[0], os[1], os[2], os[3];
    assert os[..3] == [o1, o2, o3] && [o1, o2, o3][..2] == [o1, o2] && [o1, o2][..1] == [o1] && [o1][..0] == [];
    assert Reported([o1]) == [RecordOf(o1)];
    assert Reported([o1, o2]) == [RecordOf(o1), RecordOf(o2)];
    assert Reported([o1, o2, o3]) == [RecordOf(o1), RecordOf(o2)];
    assert Reported(os) == [RecordOf(o1), RecordOf(o2), RecordOf(o4)];
    RunReports(d, os);
  }

  /** In the end-to-end example exactly the heating passes 1 and 4 beep,
      once each; the too-warm pass 2 and the dropout pass 3 do not. */
  lemma DropoutPassBeeps()
    ensures multiset(CycleEffects(DropoutReadings()[0]))[BuzzerOut(High)] == 1
    ensures multiset(CycleEffects(DropoutReadings()[1]))[BuzzerOut(High)] == 0
    ensures multiset(CycleEffects(DropoutReadings()[2]))[BuzzerOut(High)] == 0
    ensures multiset(CycleEffects(DropoutReadings()[3]))[BuzzerOut(High)] == 1
  {
    var os := DropoutReadings();
    CycleBeeps(os[0]);
    CycleBeeps(os[1]);
    assert CycleEffects(os[2]) == [LogError];
    CycleBeeps(os[3]);
  }

  /** In the end-to-end example the run beeps twice in all. */
  lemma DropoutBeeps()
    ensures multiset(RunEffects(DropoutReadings()))[BuzzerOut(High)] == 2
  {
    var os := DropoutReadings();
    var o1, o2, o3, o4 := os[0], os[1], os[2], os[3];
    assert os[..3] == [o1, o2, o3] && [o1, o2, o3][..2] == [o1, o2] && [o1, o2][..1] == [o1] && [o1][..0] == [];
    assert HeatingPasses([o1]) == 1;
    assert HeatingPasses([o1, o2]) == 1;
    assert HeatingPasses([o1, o2, o3]) == 1;
    assert HeatingPasses(os) == 2;
    RunBeeps(os);
  }
}
