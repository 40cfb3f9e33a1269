# Incubator control loop, modelled in Dafny

`incubadora.py` runs a chicken-egg incubator on a Raspberry Pi. At startup it
checks that the four telemetry settings (`INFLUX_HOST`, `INFLUX_ORG`,
`INFLUX_TOKEN`, `INFLUX_BUCKET`) are set, shows a startup screen and pulses the
heating relay three times, beeping after each pulse. It then loops forever. Each
pass reads the DHT22 sensor. On a good reading it writes one telemetry point,
switches the relay by a bang-bang threshold at 37.7 °C and beeps when it heats.
It then redraws the display and sleeps six seconds.

This project models that loop as effects on the outside world:

- `effects.dfy` (module `Effects`): pin levels, screens, telemetry records, the
  `Effect` datatype (relay write, buzzer write, sleep, telemetry write, display
  redraw, error log line) and the `Devices` state those effects change.
  `Replay` performs a sequence of effects in order.
- `control.dfy` (module `Control`): the constants of the program and the
  effects of one pass (`CycleEffects`), of a self-test pulse (`PulseEffects`),
  of the self-test (`SelfTestEffects`) and of a run of passes (`RunEffects`).
  It also holds the lemmas that state what those effects do.
- `incubadora.dfy` (module `Incubadora`): the startup configuration check and
  the `Incubator` class. The class fields are the relay and buzzer levels, the
  screen, the records handed to the store and the count of logged read
  failures. A ghost `trace` records every effect. `Valid()` ties the fields to
  the replay of that trace. `Step` is one pass of the loop, `Run` is the loop
  over a finite sequence of passes, `SelfTest` is the startup relay test and
  `Boot` is the whole startup.
- `wrappers.dfy`: `Option` and `Result`.

Temperatures and humidities are integers in hundredths. The target
`TARGET_TEMPERATURE = 37.7` is therefore 3770, and the heating decision
`temperature < TARGET_TEMPERATURE` is an exact integer comparison. Sleep
durations are kept as milliseconds: `BEEP_TIME` is 500, `SAMPLING_RATE` is
6000 and the self-test pauses are 500.

Behaviour the model keeps as the code has it:

- A failed read `continue`s straight to the next read. It does not sleep.
- A value of exactly zero is treated as a failed read, because the check is
  Python truthiness (`not humidity`). A true 0.00 °C or 0 % reading therefore
  freezes the relay and display.
- The telemetry write happens before the relay decision. The display update
  comes after it.
- The measurement name is `incubadora_pollets` and the location tag is
  `incubadora_casa`.
- The beep fires on every heating pass, not only when heating turns on. It
  never fires on a non-heating pass.
- Each self-test pulse is: relay HIGH, wait, relay LOW, beep, wait.
- The relay and buzzer levels before the program first drives them are
  parameters, because `GPIO.setup` gives them no value.

## Model

| member | source | states |
|---|---|---|
| `Incubadora.Configure` | incubadora.py:52-59 | startup goes on iff all four settings are present and non-empty; otherwise the result is exit status 1; on success the config holds exactly the four values |
| `Incubadora.Boot` | incubadora.py:57-134 | an incomplete configuration returns exit status 1 without creating or driving any device; otherwise the incubator keeps exactly the four settings and, after pin setup, the startup screen and the self-test, the loop starts with relay and buzzer LOW, the startup screen shown, no telemetry and no logged failure |
| `Incubadora.Incubator.constructor` | incubadora.py:83-124 | after pin setup and the startup screen, the only effect so far is drawing the startup screen; pins are at their power-on levels; store and log are empty |
| `Incubadora.Incubator.SetRelay` | incubadora.py:159 | a relay write sets the relay level and changes nothing else |
| `Incubadora.Incubator.SetBuzzer` | incubadora.py:96 | a buzzer write sets the buzzer level and changes nothing else |
| `Incubadora.Incubator.Sleep` | incubadora.py:179 | a sleep changes no device |
| `Incubadora.Incubator.Write` | incubadora.py:153 | a telemetry write appends exactly that record to the store and changes nothing else |
| `Incubadora.Incubator.Show` | incubadora.py:173-176 | a redraw replaces what the display shows and changes nothing else |
| `Incubadora.Incubator.LogFailure` | incubadora.py:141-142 | the error line of a failed read adds one logged failure and changes nothing else |
| `Incubadora.Incubator.DoBeep` | incubadora.py:95-98 | the buzzer goes HIGH, the pass sleeps for the given time, the buzzer goes LOW; nothing else changes |
| `Incubadora.Incubator.Pulse` | incubadora.py:129-134 | one self-test pulse performs relay HIGH, wait, relay LOW, a beep, wait; afterwards relay and buzzer are LOW and nothing else has changed |
| `Incubadora.Incubator.SelfTest` | incubadora.py:128-134 | performs exactly three self-test pulses; afterwards relay and buzzer are LOW whatever they were before; screen, store and log are unchanged |
| `Incubadora.Incubator.Step` | incubadora.py:136-179 | one pass performs exactly the effects of `CycleEffects`, in order, and leaves the devices where replaying them leaves them; `CycleOutcome`, `CycleOnFailure` and `CycleSequence` say what that is |
| `Incubadora.Incubator.Run` | incubadora.py:136-179 | the loop over a sequence of passes performs the passes' effects in order and leaves the devices where replaying them leaves them; `RunReports`, `RunFollowsLastReading` and `RunBeeps` say what that is |
| `Effects.Apply` | incubadora.py:96-176 | the state after one effect: a relay or buzzer write (`GPIO.output`) sets that pin's level, a sleep changes nothing, a telemetry write appends its record to the store, a redraw replaces the screen, the error line of a failed read adds one failure |
| `Control.Accepted` | incubadora.py:140 | a pass goes on only when humidity and temperature are both present and non-zero, which is Python truthiness; otherwise it logs and `continue`s (see `CycleOnFailure`) |
| `Control.Decide` | incubadora.py:156-164 | the relay level a pass sets: HIGH when the temperature is strictly below 3770, LOW otherwise, including at exactly 3770 |
| `Control.RecordOf` | incubadora.py:145-151 | the point a pass writes: measurement `incubadora_pollets`, location tag `incubadora_casa`, the temperature and humidity read, and the pass's UTC time |
| `Control.BeepEffects` | incubadora.py:95-98 | `do_beep(t)`: buzzer HIGH, sleep t, buzzer LOW (see `BeepLeavesBuzzerLow`) |
| `Control.CycleEffects` | incubadora.py:136-179 | the effects of one pass of the loop body, in order: the error log line alone for a rejected reading; otherwise the telemetry write, the relay branch, the redraw and the six-second sleep (see the `Cycle*` lemmas) |
| `Control.ActuateEffects` | incubadora.py:156-164 | the relay branch: below 3770 relay HIGH and a beep, otherwise relay LOW (see `ActuateOutcome`, `ActuateCounts`) |
| `Control.PulseEffects` | incubadora.py:129-134 | one self-test pulse: relay HIGH, 500 ms, relay LOW, a beep, 500 ms (see `PulseOutcome`, `PulseLevels`, `PulseCounts`) |
| `Control.SelfTestEffects` | incubadora.py:128-134 | the first n self-test pulses, in order (see `SelfTestOutcome`, `SelfTestLevels`, `SelfTestQuiet`) |
| `Control.RunEffects` | incubadora.py:136 | the effects of the `while True` loop over a finite sequence of passes: each pass's effects, in order (see `RunReports`, `RunFollowsLastReading`, `RunBeeps`) |
| `Effects.ReplayTelemetryGrows` | incubadora.py:153 | the store is append-only: after any effect sequence it holds the earlier records followed by the records of that sequence's telemetry writes, in order, one per write |
| `Control.CycleOutcome` | incubadora.py:145-176 | after an accepted pass, from any prior state: relay HIGH iff temperature < 3770 (LOW at exactly 3770); buzzer LOW after heating and untouched otherwise; store gains exactly the record (measurement, location tag, temperature, humidity, time); display shows the reading; failure log unchanged |
| `Control.ActuateOutcome` | incubadora.py:156-164 | the relay branch sets the relay to HIGH below 3770 and LOW otherwise, leaves the buzzer LOW when it heats, and changes nothing else |
| `Control.ActuateCounts` | incubadora.py:156-164 | the relay branch performs one relay write; when heating also two buzzer writes and one sleep, otherwise nothing more |
| `Control.CycleOnFailure` | incubadora.py:140-143 | a missing or zero value leaves relay, buzzer, display and store as they were and adds one logged failure; the pass performs no telemetry write, relay or buzzer write, display update or sleep |
| `Control.CycleCounts` | incubadora.py:148-179 | an accepted pass performs one telemetry write, one relay write, one display update and no error log; it performs two buzzer writes and two sleeps when heating, and none and one otherwise |
| `Control.CycleSequence` | incubadora.py:148-179 | an accepted pass writes telemetry first, then writes the relay, then updates the display, then sleeps; each of the telemetry write, relay write and display update happens exactly once |
| `Control.CycleBeeps` | incubadora.py:156-164 | an accepted pass drives the buzzer HIGH exactly once when temperature < 3770 and never otherwise; every HIGH is matched by a LOW |
| `Control.RelayIgnoresHistory` | incubadora.py:156-164 | the relay level after an accepted pass is the same from any two prior states |
| `Control.SameReadingTwice` | incubadora.py:153-164 | two passes with the same accepted reading leave the relay where one pass does; they submit the record twice and beep twice when heating, none otherwise |
| `Control.BeepLeavesBuzzerLow` | incubadora.py:95-98 | `do_beep` leaves the buzzer LOW and changes nothing else |
| `Control.PulseOutcome` | incubadora.py:130-134 | one self-test pulse leaves relay and buzzer LOW and changes nothing else |
| `Control.PulseLevels` | incubadora.py:130-133 | one self-test pulse drives the relay HIGH once and LOW once and beeps once |
| `Control.PulseCounts` | incubadora.py:130-134 | one self-test pulse performs no telemetry write, display update or log line |
| `Control.SelfTestOutcome` | incubadora.py:128-134 | n >= 1 pulses leave relay and buzzer LOW from any state and change nothing else |
| `Control.SelfTestLevels` | incubadora.py:128-133 | n pulses drive the relay HIGH n times and LOW n times, and beep n times |
| `Control.SelfTestQuiet` | incubadora.py:128-134 | the self-test performs no telemetry write, display update or log line |
| `Control.RunReports` | incubadora.py:136-153 | over any sequence of passes the store gains exactly the records of the accepted readings, in order; failures grow by the number of rejected readings |
| `Control.RunFollowsLastReading` | incubadora.py:136-176 | after any sequence of passes relay and display follow the last accepted reading, so a sensor dropout freezes them; with no accepted reading they are as before |
| `Control.RunBeeps` | incubadora.py:156-160 | over any sequence of passes the buzzer goes HIGH exactly once per accepted reading below 3770 |
| `Control.DropoutRelay` | incubadora.py:136-164 | readings 37.50, 37.90, a dropout, then 37.60 give relay HIGH, LOW, LOW, HIGH after each pass, from any starting state |
| `Control.DropoutReports` | incubadora.py:136-153 | the same readings produce exactly the three records of the good readings and one logged failure |
| `Control.DropoutPassBeeps` | incubadora.py:140-160 | with the same readings passes 1 and 4 beep once each, while pass 2 (too warm) and pass 3 (dropout) do not beep |
| `Control.DropoutBeeps` | incubadora.py:156-160 | the same readings beep exactly twice over the whole run |

## Left out

- The DHT22 sensor and `Adafruit_DHT.read_retry` are not modelled. What the sensor returns each pass is an `Observation` input: each of humidity and temperature may be missing.
- `RPi.GPIO` itself is not modelled. Pin writes are `RelayOut`/`BuzzerOut` effects, and pin setup is the `Incubator` constructor.
- The InfluxDB client is not modelled: its connection, batching, flush, jitter and retry options, and the `InfluxDBClient` setup. A write is the record appended to `telemetry`. Bucket and organisation are fixed per process and are kept only in `config`. The unused query string and `influx_query_api` are not modelled.
- `round(x, 2)` and the display's one-decimal formatting are not modelled, because they are float numerics and string formatting. Readings arrive already in hundredths, so rounding is the identity. A raw non-zero value that would round to 0.00 cannot be expressed.
- OLED rendering, the font and i2c are not modelled. A redraw is one `Display` effect carrying what is shown.
- Real time is not modelled. Sleeps are `Pause` effects with their durations, and `utcnow` is the `now` field of each `Observation`.
- Logging and `print` are not modelled, except the error line of a failed read, which is a `LogError` effect counted in `failures`. `load_dotenv` is not modelled: the environment values are parameters of `Configure` and `Boot`.
- `TARGET_HUMIDITY` is not modelled, because no code reads it.
- Exceptions raised by the GPIO, display or InfluxDB libraries are not modelled. The program does not catch them, so any of them ends the process.
- Incubadora.Incubator.Run: the source loop never ends. The model covers every finite sequence of passes, which is every prefix of an infinite run.
