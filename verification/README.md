# Potato sensor: the loop's state machine

A model of the deterministic core of the ESP32 sketch `main.cpp`. The sketch
reads a DHT22 temperature/humidity sensor every two seconds and tracks the
running minimum and maximum of each quantity. It shows four lines of text on
a 128x128 SSD1351 panel and shifts the panel by one pixel every minute
against burn-in. It also answers `GET /sensor-data` with a seven-field JSON
document.

The model has no clocks, sensors or sockets. Each pass of `loop()` is a
`Tick` record. A tick holds the `millis()` value, the `time(nullptr)` value,
the two sensor events (`None` stands for NaN) and whether a `/sensor-data`
request is waiting. The globals make up one immutable `State`. The
operations are pure functions:

- `Device.Setup`: placeholders, first draw, initial phase.
- `Device.SampleStep`: the two-second sampling block.
- `Device.PhaseStep` and `BurnIn.PhaseCheck`: the once-a-minute redraw.
- `Layout.DrawReadings`: one redraw as a list of drawing commands.
- `Http.SensorData`: the JSON document as a record.
- `Scheduler.LoopTick`: one pass of `loop()`.
- `Scheduler.Run`: the loop over any sequence of ticks.

Modules:

| module | file | what |
|---|---|---|
| `Optional` | optional.dfy | `Option`; `None` is NaN |
| `Numeric` | numeric.dfy | uint32/int16 conversions, wrapping subtraction, C division, C `round()` |
| `Text` | text.dfy | `%d` printing, its parser, snprintf truncation |
| `Extrema` | extrema.dfy | one quantity: latest value and running range |
| `Readout` | readout.dfy | the four `lineStr` lines, their formatting and reading back |
| `Layout` | layout.dfy | `drawReadings` geometry and colours |
| `BurnIn` | burnin.dfy | phase, offset table, the phase check |
| `Device` | device.dfy | the globals, `setup()`, the sampling and jiggle blocks |
| `Http` | http.dfy | `handleSensorData` and its sentinel policy |
| `Scheduler` | scheduler.dfy | `loop()`, runs over tick sequences, invariants |
| `Scenarios` | scenarios.dfy | concrete runs: boot, samples, a minute boundary, failed reads |

Behaviour worth knowing, all taken from the code:

- The sampling gate compares `millis() - lastReadTime` as a uint32. It
  therefore opens after two seconds of real time even across the 49.7-day
  wrap of `millis()` (`Device.GateAcrossWrap`).
- The phase is computed from the 32-bit `millis()`. 2^32 ms is not a
  multiple of four minutes. At the wrap the phase goes from 2 straight to 0,
  so phase 3 is skipped once (`BurnIn.PhaseSkipsAtWrap`).
- `128 - 12 * len` is always even. C's truncating division and flooring
  division therefore agree for every line, including lines wider than the
  panel (`Layout.CentringDivisionExact`).
- Lines of 11 to 15 characters are centred at a negative x and extend past
  the panel edges (`Layout.LineVisibleIff`).
- Before the first good read of a quantity, its range line prints the initial
  extrema. The 16-byte buffer cuts that line to `L:1000000 H:-10`
  (`Readout.UnsampledRangeLineTruncated`).
- `(int)round(NaN)` is undefined behaviour in C. The model takes the integer
  the target produces as the explicit parameter `nanInt`, fixed for a run.

Four further points about what the code does:

- The extrema start at plus and minus one million (`main.cpp:68-69`), not
  at infinity.
- Before any good read, `/sensor-data` reports `temp_low`, `temp_high`,
  `hum_low` and `hum_high` as 1e6 and -1e6, not as the -999/-1 sentinels.
  The `isnan` tests on the extrema in `handleSensorData` can never succeed,
  because the extrema are never NaN. The model's extrema are therefore
  plain reals.
- A new sample does not redraw the panel. New lines appear at the next
  phase change (`Scheduler.LoopTick`, `Scenarios.FirstSample`).
- The phase is not a clean four-minute cycle forever. It skips phase 3 once
  at the `millis()` wrap, as described above.

## Model

| member | source | states |
|---|---|---|
| Numeric.ToU32 | main.cpp:214 | the `(uint32_t)` cast of the NTP time is congruent to it modulo 2^32 and is the identity on values that fit |
| Numeric.ToI16 | main.cpp:280-300 | storing a coordinate into `int16_t` wraps modulo 2^16 and is the identity in range |
| Numeric.SubU32 | main.cpp:168 | the unsigned `millis() - lastReadTime` is the difference, plus 2^32 when it would be negative |
| Numeric.ElapsedSurvivesWrap | main.cpp:168 | the wrapped difference of two counter readings is the true elapsed time whenever less than 2^32 ms passed |
| Numeric.CDiv | main.cpp:274-300 | C division truncates toward zero: the remainder is smaller than the divisor and has the dividend's sign |
| Numeric.Round | main.cpp:195-209 | `round()` returns the nearest integer, with halves rounded away from zero |
| Numeric.RoundMonotone | main.cpp:199-209 | rounding keeps order, so a displayed low never exceeds its displayed high when the stored ones are ordered |
| Text.NatDigits | main.cpp:196 | `%d` prints at least one character, all decimal digits, with no leading zero, and exactly as many digits as the number has (10^(k-1) <= n < 10^k) |
| Text.DecimalString | main.cpp:196-210 | `%d` prints a leading minus exactly for negatives, then only digits, with no leading zero |
| Text.DecimalRoundTrip | main.cpp:196-210 | parsing what `%d` prints gives the integer back, so distinct values print differently |
| Text.Truncate | main.cpp:63 | snprintf keeps the prefix that fits the buffer with its NUL, and the whole string when it fits |
| Extrema.CelsiusToFahrenheit | main.cpp:175 | the stored temperature F satisfies (F - 32) * 5 = C * 9 |
| Extrema.Track | main.cpp:173-190 | a NaN read changes nothing; a good read becomes current, the low only falls, the high only rises, and both bracket the read |
| Extrema.TrackPreservesConsistent | main.cpp:174-190 | a quantity is either still unsampled or its current value lies within its range, and a read keeps that so |
| Extrema.TrackAllExtrema | main.cpp:176-187 | after a sequence of good reads the range is the min/max fold of the initial range with all reads and the current value is the last read |
| Readout.Fit | main.cpp:63 | each line is a prefix of the formatted text, at most 15 characters; the whole text when it fits, and exactly 15 characters when it does not |
| Readout.TempLine | main.cpp:196 | `lineStr[0]` is what the 16-byte buffer keeps of `TEMP: <t>F`: the whole text when shorter than 16, else its first 15 characters |
| Readout.RangeLine | main.cpp:201 | `lineStr[1]` (and `[3]`) is what the buffer keeps of `L:<low> H:<high>`, whole when shorter than 16, else its first 15 characters |
| Readout.HumidityLine | main.cpp:205 | `lineStr[2]` is what the buffer keeps of `HUMID: <h>%`, whole when shorter than 16, else its first 15 characters |
| Readout.RoundOr | main.cpp:195-204 | `(int)round(v)` is C's `round()` of a good v, hence within one half of it, and the target's value for NaN otherwise |
| Readout.FormatLines | main.cpp:193-211 | each of the four lines is what the buffer keeps of its format applied to the rounded value or extrema, and a line whose values have at most five characters is never cut |
| Readout.FormatRounded | main.cpp:196-210 | the same for already rounded integers: each line is the buffer's prefix of its text, and the whole text when its values are readable |
| Readout.TempTextRoundTrip | main.cpp:196 | the `TEMP: %dF` text reads back as the temperature it was printed from |
| Readout.HumidityTextRoundTrip | main.cpp:205 | the `HUMID: %d%%` text reads back as the humidity it was printed from |
| Readout.RangeTextRoundTrip | main.cpp:201 | the `L:%d H:%d` text reads back as the two extrema it was printed from |
| Readout.TempLineReadsBack | main.cpp:195-196 | any buffer-cut temperature line of a value with at most five characters reads back as that value |
| Readout.HumidityLineReadsBack | main.cpp:204-205 | any buffer-cut humidity line of a value with at most five characters reads back as that value |
| Readout.RangeLineReadsBack | main.cpp:199-201 | any buffer-cut range line of two values of at most five characters each reads back as both values |
| Readout.FormatLinesReadBack | main.cpp:193-211 | when every rounded value has at most five characters, all four lines of a sample read back as the rounded values |
| Readout.UnsampledRangeLineTruncated | main.cpp:68-69 | the range line of a never-sampled quantity is `L:1000000 H:-10`, cut by the 16-byte buffer |
| Layout.DrawReadings | main.cpp:263-303 | a redraw clears to black, then prints the four lines in order, red, red, blue, blue, each centred about the shifted axis, 24 px apart from y = 20 |
| Layout.BlockCentred | main.cpp:272-274 | the text block is 88 px tall and starts at y = 20, leaving equal margins above and below |
| Layout.CentringDivisionExact | main.cpp:280 | the centring division is exact for every line length, so truncation never differs from flooring |
| Layout.LineVisibleIff | main.cpp:267-301 | with an offset in -1..1 a line lies wholly on the panel iff it has at most ten characters |
| BurnIn.Phase | main.cpp:219 | the phase is always one of 0..3 |
| BurnIn.PhaseOffset | main.cpp:222-228 | each offset component is -1, 0 or 1 |
| BurnIn.PhaseCheck | main.cpp:217-231 | a redraw happens iff the phase differs from the last one, it uses the new phase's offset and the current lines, and the phase is recorded |
| BurnIn.PhaseCheckIdempotent | main.cpp:219-221 | a second check at the same instant never redraws and keeps the recorded phase |
| BurnIn.OffsetsDistinct | main.cpp:223-228 | different phases have different offsets, so every redraw moves the image |
| BurnIn.OffsetStepsOnePixel | main.cpp:223-228 | consecutive phases differ by one pixel along one axis |
| BurnIn.SameWindowSamePhase | main.cpp:219 | instants in the same 60 s window have the same phase |
| BurnIn.NextWindowNextPhase | main.cpp:219 | the next 60 s window has the next phase, cyclically |
| BurnIn.PhaseSkipsAtWrap | main.cpp:219 | at the `millis()` wrap the phase goes from 2 to 0 |
| Device.Setup | main.cpp:122-128 | setup writes the placeholders, draws them unshifted, records the current phase, and leaves both quantities unsampled |
| Device.FahrenheitReading | main.cpp:173-175 | a temperature is stored iff the read is not NaN, converted to Fahrenheit |
| Device.SampleStep | main.cpp:167-215 | a closed gate changes nothing; an open one stamps both timestamps, tracks each quantity, and rebuilds all lines, even when both reads failed |
| Device.PhaseStep | main.cpp:217-231 | the jiggle block changes only `lastPhase` and redraws iff the phase changed |
| Device.FailedTemperatureKept | main.cpp:178-180 | a NaN temperature leaves the temperature value and range as they were |
| Device.FailedHumidityKept | main.cpp:188-190 | a NaN humidity leaves the humidity value and range as they were |
| Device.QuantitiesIndependent | main.cpp:171-190 | each quantity's outcome does not depend on the other quantity's read |
| Device.GateAcrossWrap | main.cpp:168-169 | the gate opens iff at least 2000 ms of real time passed, across the counter wrap too |
| Http.SensorData | main.cpp:246-254 | `temperature` is -999 for NaN and `humidity` -1 for NaN, otherwise the stored values; the ranges and `last_updated` echo the state |
| Http.ReportDecodes | main.cpp:248-249 | for physically possible values the sentinels are lossless: `temperature` is -999 iff the temperature is NaN and `humidity` -1 iff the humidity is NaN, and reading the sentinel as "no value" recovers each stored value |
| Http.ReportDeterminedByState | main.cpp:246-258 | the document depends only on the values and `lastUpdateTime`, so repeated requests between samples agree |
| Scheduler.LoopTick | main.cpp:163-233 | the request sees the state before the sample; a redraw happens iff the phase changed, never because of a sample, and shows the freshest lines |
| Scheduler.SetupEstablishesInvariant | main.cpp:122-128 | after setup both quantities are consistent, the phase is in 0..3 and the lines are the placeholders |
| Scheduler.LoopTickPreservesInvariant | main.cpp:163-233 | one loop pass keeps that invariant, with the lines either placeholders or the readout of the current values |
| Scheduler.RunPreservesInvariant | main.cpp:163-233 | the invariant holds after any sequence of loop passes |
| Scheduler.LoopTickTracks | main.cpp:167-190 | a loop pass changes a quantity exactly by tracking its read when the gate is open |
| Scheduler.RunTracksAccepted | main.cpp:167-190 | over any run each quantity ends as if its accepted good reads were tracked in order |
| Scheduler.RunExtrema | main.cpp:174-190 | over any run the low and high are the min/max fold of the initial range with the accepted reads, the current value is the last accepted read, and without accepted reads nothing changed |
| Scheduler.RunRangeBrackets | main.cpp:176-187 | over any run the low never rises, the high never falls, and every accepted read lies between them |
| Scheduler.RunStaysPlausible | main.cpp:175-185 | with physically possible reads the stored values stay physically possible |
| Scheduler.NoRedrawTwiceAtSameTime | main.cpp:219-221 | a second pass at the same `millis()` never redraws |
| Scheduler.NoRedrawAfterSetupInSameWindow | main.cpp:127-128 | a first loop pass in the same minute as `setup()` does not redraw |
| Scheduler.NoRedrawWithinPhase | main.cpp:217-231 | a run whose ticks stay in the recorded phase issues no redraw, however many samples it takes |
| Scheduler.RedrawsAreFullFrames | main.cpp:217-231 | every redraw of a run is `drawReadings` of some set of lines with one of the four phase offsets, hence a full clear followed by the four lines |
| Scenarios.BootReport | main.cpp:246-254 | right after boot the document is -999, -1, 1e6, -1e6, 1e6, -1e6, 0 |
| Scenarios.FirstSample | main.cpp:163-215 | a first sample of 72.4 F / 45 % gives ranges 72.4/72.4 and 45/45, lines `TEMP: 72F`, `L:72 H:72`, `HUMID: 45%`, `L:45 H:45`, and no redraw |
| Scenarios.SecondSample | main.cpp:174-187 | a second sample of 68 F / 50 % moves only the temperature low and the humidity high |
| Scenarios.MinuteBoundary | main.cpp:217-231 | crossing a minute boundary with the gate closed redraws once, with the phase 1 offset and the unchanged lines |
| Scenarios.FailedReads | main.cpp:178-231 | two failed reads at 61.5 s after a good sample keep values, ranges and lines and move both timestamps; the same pass enters minute one, so the unchanged lines are redrawn with the phase 1 offset |
| Scenarios.FirstSampleHumidityFails | main.cpp:188-210 | a failed first humidity read leaves humidity unsampled and prints the cut initial range line |

## Left out

- Wi-Fi association and the NTP wait loops in `setup()`: blocking network I/O. The NTP time is an input of each tick.
- The DHT22 driver: each read is an `Option<real>` input, with `None` for NaN.
- SSD1351, SPI and GFX calls: a redraw is a list of drawing commands, not pixels. Text size 2 is assumed by the 12x16 glyph cell.
- The display library's default text wrapping: a print command records where a line starts, not where wrapped glyphs land.
- WebServer routing, `handleRoot`, the embedded HTML/CSS/JS page, and unmatched paths: library plumbing and an opaque asset.
- ArduinoJson text serialisation: the response is a record of its seven fields.
- Serial logging of failed reads.
- IEEE float details: readings are exact reals. The float rounding of `currentTempF` and the float/double mix of the conversion are not modelled.
- The three `millis()` calls in one pass of `loop()` are one value per tick. On the device they may differ by the latency of the sensor reads.
- The dashboard page's handling of the sentinels: it prints -999 and -1 as numbers. `Http.Decode` is the reading that would make the sentinels mean "no value", used only to state what the document preserves.
- Readout.RoundOr: the `(int)` conversion of values beyond the int range is not modelled. DHT22 reads and the initial extrema are far inside it.
