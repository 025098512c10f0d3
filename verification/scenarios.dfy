/** Concrete runs of the loop: boot, a first and a second good sample, a
    minute boundary with no sample, and a failed read. */
module Scenarios {
  import opened Optional
  import opened Numeric
  import opened Text
  import opened Extrema
  import opened Readout
  import opened Layout
  import opened BurnIn
  import opened Device
  import opened Http
  import opened Scheduler

  const SETUP_MILLIS: U32 := 1000
  const EPOCH: int := 1700000000

  /** 72.4 F expressed in Celsius. */
  const FIRST_TEMP_C: real := 202.0 / 9.0

  function Booted(): State {
    Setup(SETUP_MILLIS).state
  }

  /** Right after boot the document reports the sentinels for the current
      values, but the initial extrema 1e6 and -1e6 for the ranges. */
  lemma BootReport()
    ensures SensorData(Booted())
         == SensorReport(-999.0, -1.0, 1000000.0, -1000000.0, 1000000.0, -1000000.0, 0)
  {
  }

  function FirstTick(): Tick {
    Tick(59000, EPOCH, Some(FIRST_TEMP_C), Some(45.0), true)
  }

  function AfterFirst(nanInt: int): State {
    LoopTick(Booted(), FirstTick(), nanInt).state
  }

  /** One good sample of 72.4 F / 45 %: each range collapses onto the read,
      the lines show the rounded values, the request served in the same pass
      still sees the boot state, and the phase has not changed so nothing is
      redrawn. */
  lemma FirstSample(nanInt: int)
    ensures AfterFirst(nanInt).temp == Quantity(Some(72.4), 72.4, 72.4)
    ensures AfterFirst(nanInt).hum == Quantity(Some(45.0), 45.0, 45.0)
    ensures AfterFirst(nanInt).lines == ["TEMP: 72F", "L:72 H:72", "HUMID: 45%", "L:45 H:45"]
    ensures AfterFirst(nanInt).lastUpdateTime == EPOCH
    ensures LoopTick(Booted(), FirstTick(), nanInt).response == Some(SensorData(Booted()))
    ensures LoopTick(Booted(), FirstTick(), nanInt).redraw.None?
  {
    assert CelsiusToFahrenheit(FIRST_TEMP_C) == 72.4;
    assert Round(72.4) == 72;
    assert Round(45.0) == 45;
    assert DecimalString(72) == "72";
    assert DecimalString(45) == "45";
    assert TempLine(72) == "TEMP: 72F";
    assert RangeLine(72, 72) == "L:72 H:72";
    assert HumidityLine(45) == "HUMID: 45%";
    assert RangeLine(45, 45) == "L:45 H:45";
    var s := AfterFirst(nanInt);
    assert s.temp == Quantity(Some(72.4), 72.4, 72.4);
    assert s.hum == Quantity(Some(45.0), 45.0, 45.0);
    assert s.lines == FormatLines(s.temp, s.hum, nanInt);
  }

  /** A second sample of 68 F / 50 %: the temperature low and the humidity
      high move, the other two extrema stay. */
  lemma SecondSample(nanInt: int)
    ensures var s := LoopTick(AfterFirst(nanInt), Tick(61500, EPOCH + 3, Some(20.0), Some(50.0), false), nanInt).state;
      && s.temp == Quantity(Some(68.0), 68.0, 72.4)
      && s.hum == Quantity(Some(50.0), 45.0, 50.0)
  {
    FirstSample(nanInt);
    assert CelsiusToFahrenheit(20.0) == 68.0;
  }

  /** Crossing the one-minute boundary one second after the first sample: the
      gate is closed, so no sample is taken, and exactly one redraw happens,
      with the phase 1 offset and the unchanged lines. */
  lemma MinuteBoundary(nanInt: int, t: Tick)
    requires t.millis == 60000
    ensures var r := LoopTick(AfterFirst(nanInt), t, nanInt);
      && r.state.temp == AfterFirst(nanInt).temp
      && r.state.hum == AfterFirst(nanInt).hum
      && r.state.lines == AfterFirst(nanInt).lines
      && r.state.lastPhase == 1
      && r.redraw == Some(DrawReadings(AfterFirst(nanInt).lines, 1, -1))
  {
    FirstSampleTimes(nanInt);
  }

  /** Both reads fail after the first sample: values, ranges and lines are
      exactly as before and the two timestamps move. The same pass is the
      first of minute one, so the unchanged lines are redrawn with the
      phase 1 offset. */
  lemma FailedReads(nanInt: int)
    ensures var r := LoopTick(AfterFirst(nanInt), Tick(61500, EPOCH + 3, None, None, false), nanInt);
      && r.state.temp == AfterFirst(nanInt).temp
      && r.state.hum == AfterFirst(nanInt).hum
      && r.state.lines == AfterFirst(nanInt).lines
      && r.state.lastReadTime == 61500
      && r.state.lastUpdateTime == EPOCH + 3
      && r.state.lastPhase == 1
      && r.redraw == Some(DrawReadings(AfterFirst(nanInt).lines, 1, -1))
  {
    FirstSampleTimes(nanInt);
  }

  /** The first sample is taken at 59000 ms, still in phase 0. */
  lemma FirstSampleTimes(nanInt: int)
    ensures AfterFirst(nanInt).lastReadTime == 59000
    ensures AfterFirst(nanInt).lastPhase == 0
  {
  }

  /** A good temperature with a failed humidity read on the first sample:
      the humidity line is whatever the target makes of round(NaN), and the
      humidity range line prints the initial extrema, cut by the buffer. */
  lemma FirstSampleHumidityFails(nanInt: int)
    ensures var s := LoopTick(Booted(), FirstTick().(humidity := None), nanInt).state;
      && s.hum == Unsampled
      && s.lines[2] == HumidityLine(nanInt)
      && s.lines[3] == "L:1000000 H:-10"
  {
    UnsampledRangeLineTruncated();
  }
}
