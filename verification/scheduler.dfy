/** `loop()`: serve a pending request, sample if due, then run the burn-in
    check; and the behaviour of the loop over any sequence of ticks. */
module Scheduler {
  import opened Optional
  import opened Numeric
  import opened Extrema
  import opened Readout
  import opened Layout
  import opened BurnIn
  import opened Device
  import opened Http

  datatype LoopResult = LoopResult(
    state: State,
    response: Option<SensorReport>,
    redraw: Option<seq<DrawCmd>>)

  /** One pass of `loop()`. The request is handled first, so it sees the state
      from before this pass's sample. A new sample never causes a redraw by
      itself: the display changes only when the phase does, and then shows the
      freshest lines. */
  function LoopTick(s: State, t: Tick, nanInt: int): (r: LoopResult)
    ensures t.sensorRequest ==> r.response == Some(SensorData(s))
    ensures !t.sensorRequest ==> r.response.None?
    ensures r.state.lastPhase == Phase(t.millis)
    ensures r.redraw.Some? <==> Phase(t.millis) != s.lastPhase
    ensures r.redraw.Some? ==>
      r.redraw.value == DrawReadings(r.state.lines, PhaseOffset(Phase(t.millis)).dx, PhaseOffset(Phase(t.millis)).dy)
    ensures r.state.(lastPhase := s.lastPhase) == SampleStep(s, t, nanInt)
  {
    var response := if t.sensorRequest then Some(SensorData(s)) else None;
    var sampled := SampleStep(s, t, nanInt);
    var checked := PhaseStep(sampled, t.millis);
    LoopResult(checked.state, response, checked.redraw)
  }

  /** The state after running the loop over `ticks`. */
  function Run(s: State, ticks: seq<Tick>, nanInt: int): State
    decreases |ticks|
  {
    if |ticks| == 0 then s else Run(LoopTick(s, ticks[0], nanInt).state, ticks[1..], nanInt)
  }

  /** The redraws issued while running the loop over `ticks`, in order. */
  function Redraws(s: State, ticks: seq<Tick>, nanInt: int): seq<seq<DrawCmd>>
    decreases |ticks|
  {
    if |ticks| == 0 then []
    else
      var r := LoopTick(s, ticks[0], nanInt);
      (if r.redraw.Some? then [r.redraw.value] else []) + Redraws(r.state, ticks[1..], nanInt)
  }

  datatype Kind = Temperature | Humidity

  function QuantityOf(s: State, k: Kind): Quantity {
    match k
    case Temperature => s.temp
    case Humidity => s.hum
  }

  function ReadingOf(t: Tick, k: Kind): Option<real> {
    match k
    case Temperature => FahrenheitReading(t)
    case Humidity => t.humidity
  }

  /** The good reads of quantity `k` that the loop accepted over `ticks`: those
      of ticks where the sampling gate was open and the read was not NaN. */
  function Accepted(s: State, ticks: seq<Tick>, k: Kind, nanInt: int): seq<real>
    decreases |ticks|
  {
    if |ticks| == 0 then []
    else
      var t := ticks[0];
      var here := if SampleDue(s.lastReadTime, t.millis) && ReadingOf(t, k).Some?
                  then [ReadingOf(t, k).value] else [];
      here + Accepted(LoopTick(s, t, nanInt).state, ticks[1..], k, nanInt)
  }

  /** The invariant of every state the loop can be in after `setup()`. */
  predicate Invariant(s: State, nanInt: int) {
    && Consistent(s.temp)
    && Consistent(s.hum)
    && 0 <= s.lastPhase < PHASE_COUNT
    && (s.lines == Placeholders || s.lines == FormatLines(s.temp, s.hum, nanInt))
  }

  lemma SetupEstablishesInvariant(millis: U32, nanInt: int)
    ensures Invariant(Setup(millis).state, nanInt)
  {
  }

  lemma LoopTickPreservesInvariant(s: State, t: Tick, nanInt: int)
    requires Invariant(s, nanInt)
    ensures Invariant(LoopTick(s, t, nanInt).state, nanInt)
  {
    TrackPreservesConsistent(s.temp, FahrenheitReading(t));
    TrackPreservesConsistent(s.hum, t.humidity);
  }

  /** From `setup()` on, whatever the clock and the sensor do: each quantity
      is either unsampled or its value lies within its range, the phase is in
      0..3, and the lines are the placeholders or the current readout. */
  lemma {:induction false} RunPreservesInvariant(s: State, ticks: seq<Tick>, nanInt: int)
    requires Invariant(s, nanInt)
    ensures Invariant(Run(s, ticks, nanInt), nanInt)
    decreases |ticks|
  {
    if |ticks| > 0 {
      LoopTickPreservesInvariant(s, ticks[0], nanInt);
      RunPreservesInvariant(LoopTick(s, ticks[0], nanInt).state, ticks[1..], nanInt);
    }
  }

  /** A loop pass changes a quantity exactly by tracking its accepted read. */
  lemma LoopTickTracks(s: State, t: Tick, k: Kind, nanInt: int)
    ensures QuantityOf(LoopTick(s, t, nanInt).state, k)
         == (if SampleDue(s.lastReadTime, t.millis) then Track(QuantityOf(s, k), ReadingOf(t, k))
             else QuantityOf(s, k))
  {
  }

  /** Over any run, each quantity ends exactly as if its accepted good reads
      had been tracked one after another, and nothing else touched it. */
  lemma {:induction false} RunTracksAccepted(s: State, ticks: seq<Tick>, k: Kind, nanInt: int)
    ensures QuantityOf(Run(s, ticks, nanInt), k) == TrackAll(QuantityOf(s, k), Accepted(s, ticks, k, nanInt))
    decreases |ticks|
  {
    if |ticks| > 0 {
      var t := ticks[0];
      var s1 := LoopTick(s, t, nanInt).state;
      var rest := Accepted(s1, ticks[1..], k, nanInt);
      RunTracksAccepted(s1, ticks[1..], k, nanInt);
      LoopTickTracks(s, t, k, nanInt);
      if SampleDue(s.lastReadTime, t.millis) && ReadingOf(t, k).Some? {
        var xs := [ReadingOf(t, k).value] + rest;
        assert xs[1..] == rest;
      } else {
        assert Accepted(s, ticks, k, nanInt) == rest;
      }
    }
  }

  /** Running extrema over any run: the final low is the minimum of the
      initial low and every accepted read, the final high the maximum, and the
      current value is the last accepted read. Without accepted reads the
      quantity is unchanged. */
  lemma {:induction false} RunExtrema(s: State, ticks: seq<Tick>, k: Kind, nanInt: int)
    ensures QuantityOf(Run(s, ticks, nanInt), k).low == FoldMin(QuantityOf(s, k).low, Accepted(s, ticks, k, nanInt))
    ensures QuantityOf(Run(s, ticks, nanInt), k).high == FoldMax(QuantityOf(s, k).high, Accepted(s, ticks, k, nanInt))
    ensures |Accepted(s, ticks, k, nanInt)| == 0 ==> QuantityOf(Run(s, ticks, nanInt), k) == QuantityOf(s, k)
    ensures |Accepted(s, ticks, k, nanInt)| > 0 ==>
      QuantityOf(Run(s, ticks, nanInt), k).current == Some(Last(Accepted(s, ticks, k, nanInt)))
  {
    RunTracksAccepted(s, ticks, k, nanInt);
    TrackAllExtrema(QuantityOf(s, k), Accepted(s, ticks, k, nanInt));
  }

  function Last(xs: seq<real>): real
    requires |xs| > 0
  {
    xs[|xs| - 1]
  }

  /** Over any run the low never rises, the high never falls, and every
      accepted read lies between them. */
  lemma {:induction false} RunRangeBrackets(s: State, ticks: seq<Tick>, k: Kind, nanInt: int)
    ensures QuantityOf(Run(s, ticks, nanInt), k).low <= QuantityOf(s, k).low
    ensures QuantityOf(s, k).high <= QuantityOf(Run(s, ticks, nanInt), k).high
    ensures forall i | 0 <= i < |Accepted(s, ticks, k, nanInt)| ::
      QuantityOf(Run(s, ticks, nanInt), k).low <= Accepted(s, ticks, k, nanInt)[i] <= QuantityOf(Run(s, ticks, nanInt), k).high
  {
    RunExtrema(s, ticks, k, nanInt);
  }

  /** Ticks whose temperature and humidity reads are physically possible. */
  predicate PlausibleTick(t: Tick) {
    && (t.tempC.Some? ==> t.tempC.value >= -273.15)
    && (t.humidity.Some? ==> t.humidity.value >= 0.0)
  }

  /** With physically possible reads the state stays plausible, so the JSON
      sentinels keep meaning "NaN" (see `Http.ReportDecodes`). */
  lemma {:induction false} RunStaysPlausible(s: State, ticks: seq<Tick>, nanInt: int)
    requires Plausible(s)
    requires forall i | 0 <= i < |ticks| :: PlausibleTick(ticks[i])
    ensures Plausible(Run(s, ticks, nanInt))
    decreases |ticks|
  {
    if |ticks| > 0 {
      var s1 := LoopTick(s, ticks[0], nanInt).state;
      assert Plausible(s1);
      assert forall i | 0 <= i < |ticks[1..]| :: PlausibleTick(ticks[1..][i]) by {
        forall i | 0 <= i < |ticks[1..]| ensures PlausibleTick(ticks[1..][i]) {
          assert ticks[1..][i] == ticks[i + 1];
        }
      }
      RunStaysPlausible(s1, ticks[1..], nanInt);
    }
  }

  /** The redraw check is idempotent: running a second tick at the same
      instant as the previous one never redraws, whatever it samples. */
  lemma NoRedrawTwiceAtSameTime(s: State, t: Tick, t': Tick, nanInt: int)
    requires t'.millis == t.millis
    ensures LoopTick(LoopTick(s, t, nanInt).state, t', nanInt).redraw.None?
  {
  }

  /** `setup()` records the phase it ran in, so a first loop pass in the same
      minute does not redraw what setup just drew. */
  lemma NoRedrawAfterSetupInSameWindow(millis: U32, t: Tick, nanInt: int)
    requires t.millis / PHASE_LENGTH_MS == millis / PHASE_LENGTH_MS
    ensures LoopTick(Setup(millis).state, t, nanInt).redraw.None?
  {
  }

  /** A run whose ticks all fall in the phase last drawn issues no redraw,
      however many samples it takes. */
  lemma {:induction false} NoRedrawWithinPhase(s: State, ticks: seq<Tick>, nanInt: int)
    requires forall i | 0 <= i < |ticks| :: Phase(ticks[i].millis) == s.lastPhase
    ensures Redraws(s, ticks, nanInt) == []
    decreases |ticks|
  {
    if |ticks| > 0 {
      var s1 := LoopTick(s, ticks[0], nanInt).state;
      assert s1.lastPhase == s.lastPhase;
      forall i | 0 <= i < |ticks[1..]|
        ensures Phase(ticks[1..][i].millis) == s1.lastPhase
      {
        assert ticks[1..][i] == ticks[i + 1];
      }
      NoRedrawWithinPhase(s1, ticks[1..], nanInt);
    }
  }

  /** `frame` is one of the four shifted images of some set of lines. */
  ghost predicate ShiftedFrame(frame: seq<DrawCmd>) {
    exists lines: Lines, p: int | 0 <= p < PHASE_COUNT ::
      frame == DrawReadings(lines, PhaseOffset(p).dx, PhaseOffset(p).dy)
  }

  /** Every redraw of a run is one of the four shifted images of some set of
      lines: a full clear followed by the four lines, never a partial update. */
  lemma {:induction false} RedrawsAreFullFrames(s: State, ticks: seq<Tick>, nanInt: int)
    ensures forall i | 0 <= i < |Redraws(s, ticks, nanInt)| ::
      ShiftedFrame(Redraws(s, ticks, nanInt)[i])
    ensures forall i | 0 <= i < |Redraws(s, ticks, nanInt)| ::
      |Redraws(s, ticks, nanInt)[i]| == 5 && Redraws(s, ticks, nanInt)[i][0] == FillScreen(COLOR_BLACK)
    decreases |ticks|
  {
    if |ticks| > 0 {
      var r := LoopTick(s, ticks[0], nanInt);
      var rest := Redraws(r.state, ticks[1..], nanInt);
      RedrawsAreFullFrames(r.state, ticks[1..], nanInt);
      if r.redraw.Some? {
        var p := Phase(ticks[0].millis);
        var frame := DrawReadings(r.state.lines, PhaseOffset(p).dx, PhaseOffset(p).dy);
        assert r.redraw.value == frame;
        assert ShiftedFrame(frame);
        assert Redraws(s, ticks, nanInt) == [frame] + rest;
      }
    }
  }
}
