/** The sketch's global state and the two things `setup()` and `loop()` do to
    it besides serving HTTP: sampling the sensor and the burn-in check. The
    clock, the NTP time and the sensor are inputs of each tick. */
module Device {
  import opened Optional
  import opened Numeric
  import opened Extrema
  import opened Readout
  import opened Layout
  import opened BurnIn

  /** All globals the loop reads or writes. */
  datatype State = State(
    temp: Quantity,          // currentTempF, tMin, tMax
    hum: Quantity,           // currentHum, hMin, hMax
    lines: Lines,            // lineStr[4][16]
    lastReadTime: U32,       // millis() of the last sample
    lastUpdateTime: U32,     // UNIX time of the last sample
    lastPhase: int)          // burn-in phase of the last redraw

  /** The globals as initialised before `setup()` runs: zeroed line buffers
      and no phase yet. */
  const Boot: State := State(Unsampled, Unsampled, ["", "", "", ""], 0, 0, -1)

  /** What one pass of `loop()` observes from the outside world. */
  datatype Tick = Tick(
    millis: U32,             // millis()
    epoch: int,              // time(nullptr)
    tempC: Option<real>,     // the DHT22 temperature event, None for NaN
    humidity: Option<real>,  // the DHT22 humidity event, None for NaN
    sensorRequest: bool)     // a GET /sensor-data is waiting

  const SAMPLE_INTERVAL_MS: int := 2000

  datatype SetupResult = SetupResult(state: State, redraw: seq<DrawCmd>)

  /** `setup()` without the network: write the placeholders, draw them
      unshifted, and record the current phase so the loop does not redraw
      again until the phase changes. */
  function Setup(millis: U32): (r: SetupResult)
    ensures r.state.lines == Placeholders
    ensures r.redraw == DrawReadings(Placeholders, 0, 0)
    ensures r.state.lastPhase == Phase(millis)
    ensures r.state.temp == Unsampled && r.state.hum == Unsampled
    ensures r.state.lastReadTime == 0 && r.state.lastUpdateTime == 0
  {
    var withLines := Boot.(lines := Placeholders);
    SetupResult(withLines.(lastPhase := Phase(millis)), DrawReadings(Placeholders, 0, 0))
  }

  /** The sampling gate: at least two seconds on the wrapping millisecond counter. */
  predicate SampleDue(lastReadTime: U32, now: U32) {
    SubU32(now, lastReadTime) >= SAMPLE_INTERVAL_MS
  }

  /** The temperature read as the loop stores it, in Fahrenheit. */
  function FahrenheitReading(t: Tick): (r: Option<real>)
    ensures r.Some? <==> t.tempC.Some?
    ensures r.Some? ==> (r.value - 32.0) * 5.0 == t.tempC.value * 9.0
  {
    MapOption(t.tempC, CelsiusToFahrenheit)
  }

  /** The "read DHT22 every 2 seconds" block of `loop()`. When the gate is
      closed nothing changes. When it opens, the two quantities are updated
      independently, all four lines are rewritten from the (possibly stale)
      values, and both timestamps are stamped, whether or not a read failed. */
  function SampleStep(s: State, t: Tick, nanInt: int): (r: State)
    ensures r.lastPhase == s.lastPhase
    ensures !SampleDue(s.lastReadTime, t.millis) ==> r == s
    ensures SampleDue(s.lastReadTime, t.millis) ==>
      && r.lastReadTime == t.millis
      && r.lastUpdateTime == ToU32(t.epoch)
      && r.temp == Track(s.temp, FahrenheitReading(t))
      && r.hum == Track(s.hum, t.humidity)
      && r.lines == FormatLines(r.temp, r.hum, nanInt)
  {
    if SampleDue(s.lastReadTime, t.millis) then
      var temp := Track(s.temp, FahrenheitReading(t));
      var hum := Track(s.hum, t.humidity);
      State(temp, hum, FormatLines(temp, hum, nanInt), t.millis, ToU32(t.epoch), s.lastPhase)
    else
      s
  }

  datatype PhaseResult = PhaseResult(state: State, redraw: Option<seq<DrawCmd>>)

  /** The "jiggle" block of `loop()`: the only place the loop redraws. */
  function PhaseStep(s: State, now: U32): (r: PhaseResult)
    ensures r.state == s.(lastPhase := Phase(now))
    ensures r.redraw.Some? <==> Phase(now) != s.lastPhase
    ensures r.redraw.Some? ==>
      r.redraw.value == DrawReadings(s.lines, PhaseOffset(Phase(now)).dx, PhaseOffset(Phase(now)).dy)
  {
    var c := PhaseCheck(s.lastPhase, now, s.lines);
    PhaseResult(s.(lastPhase := c.lastPhase), c.redraw)
  }

  /** A failed temperature read leaves the temperature value and range
      untouched, whatever happens to humidity in the same sample. */
  lemma FailedTemperatureKept(s: State, t: Tick, nanInt: int)
    requires t.tempC.None?
    ensures SampleStep(s, t, nanInt).temp == s.temp
  {
  }

  /** A failed humidity read leaves the humidity value and range untouched. */
  lemma FailedHumidityKept(s: State, t: Tick, nanInt: int)
    requires t.humidity.None?
    ensures SampleStep(s, t, nanInt).hum == s.hum
  {
  }

  /** The two quantities are independent: the temperature outcome of a sample
      does not depend on the humidity read, and vice versa. */
  lemma QuantitiesIndependent(s: State, t: Tick, h: Option<real>, c: Option<real>, nanInt: int)
    ensures SampleStep(s, t.(humidity := h), nanInt).temp == SampleStep(s, t, nanInt).temp
    ensures SampleStep(s, t.(tempC := c), nanInt).hum == SampleStep(s, t, nanInt).hum
  {
  }

  /** Because the gate measures time on the wrapping counter, it opens after
      two seconds of real time even across the 49.7-day wrap of millis(). */
  lemma GateAcrossWrap(lastReal: int, nowReal: int)
    requires 0 <= lastReal && lastReal <= nowReal < lastReal + TWO_32
    ensures SampleDue(ToU32(lastReal), ToU32(nowReal)) <==> nowReal - lastReal >= SAMPLE_INTERVAL_MS
  {
    ElapsedSurvivesWrap(lastReal, nowReal);
  }
}
