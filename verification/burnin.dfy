/** The anti-burn-in cycle: once a minute the whole readout is redrawn shifted
    by at most one pixel. */
module BurnIn {
  import opened Optional
  import opened Numeric
  import opened Readout
  import opened Layout

  const PHASE_LENGTH_MS: int := 60000
  const PHASE_COUNT: int := 4

  /** `(millis() / 60000UL) % 4`, computed on the 32-bit millis value. */
  function Phase(now: U32): (p: int)
    ensures 0 <= p < PHASE_COUNT
  {
    (now / PHASE_LENGTH_MS) % PHASE_COUNT
  }

  datatype Offset = Offset(dx: I16, dy: I16)

  /** The `switch (phase)`: right, up, left, down around a one-pixel square.
      A phase outside the cases leaves both offsets at zero. */
  function PhaseOffset(p: int): (o: Offset)
    ensures -1 <= o.dx <= 1 && -1 <= o.dy <= 1
  {
    if p == 0 then Offset(1, 0)
    else if p == 1 then Offset(1, -1)
    else if p == 2 then Offset(0, -1)
    else Offset(0, 0)
  }

  /** The result of one burn-in check: the new `lastPhase` and, when the phase
      changed, the redraw it issued. */
  datatype Check = Check(lastPhase: int, redraw: Option<seq<DrawCmd>>)

  /** The block in `loop()` that redraws when the phase differs from the last
      one seen, with the new phase's offset and the current lines. */
  function PhaseCheck(lastPhase: int, now: U32, lines: Lines): (r: Check)
    ensures r.lastPhase == Phase(now)
    ensures r.redraw.Some? <==> Phase(now) != lastPhase
    ensures r.redraw.Some? ==>
      r.redraw.value == DrawReadings(lines, PhaseOffset(Phase(now)).dx, PhaseOffset(Phase(now)).dy)
  {
    var phase := Phase(now);
    if phase != lastPhase then
      var o := PhaseOffset(phase);
      Check(phase, Some(DrawReadings(lines, o.dx, o.dy)))
    else
      Check(lastPhase, None)
  }

  /** A second check at the same instant never redraws again. */
  lemma PhaseCheckIdempotent(lastPhase: int, now: U32, lines: Lines, lines': Lines)
    ensures PhaseCheck(PhaseCheck(lastPhase, now, lines).lastPhase, now, lines').redraw.None?
    ensures PhaseCheck(PhaseCheck(lastPhase, now, lines).lastPhase, now, lines').lastPhase
         == PhaseCheck(lastPhase, now, lines).lastPhase
  {
  }

  /** Distinct phases have distinct offsets, so every redraw moves the image. */
  lemma OffsetsDistinct(p: int, q: int)
    requires 0 <= p < PHASE_COUNT && 0 <= q < PHASE_COUNT && p != q
    ensures PhaseOffset(p) != PhaseOffset(q)
  {
  }

  /** Consecutive phases differ by exactly one pixel along exactly one axis. */
  lemma OffsetStepsOnePixel(p: int)
    requires 0 <= p < PHASE_COUNT
    ensures var a, b := PhaseOffset(p), PhaseOffset((p + 1) % PHASE_COUNT);
      (a.dx == b.dx && (a.dy - b.dy == 1 || b.dy - a.dy == 1))
      || (a.dy == b.dy && (a.dx - b.dx == 1 || b.dx - a.dx == 1))
  {
  }

  /** Two instants in the same 60-second window have the same phase. */
  lemma SameWindowSamePhase(t1: U32, t2: U32)
    requires t1 / PHASE_LENGTH_MS == t2 / PHASE_LENGTH_MS
    ensures Phase(t1) == Phase(t2)
  {
  }

  /** Entering the next window advances the phase by one, cyclically. */
  lemma NextWindowNextPhase(t1: U32, t2: U32)
    requires t2 / PHASE_LENGTH_MS == t1 / PHASE_LENGTH_MS + 1
    ensures Phase(t2) == (Phase(t1) + 1) % PHASE_COUNT
  {
    var w := t1 / PHASE_LENGTH_MS;
    assert (w + 1) % 4 == (w % 4 + 1) % 4;
  }

  /** The cycle is broken where millis() wraps: 2^32 is not a multiple of
      four minutes, so the last window before the wrap is phase 2 and the
      first after it is phase 0; phase 3 is skipped once every 49.7 days. */
  lemma PhaseSkipsAtWrap()
    ensures Phase(TWO_32 - 1) == 2
    ensures Phase(0) == 0
    ensures Phase(0) != (Phase(TWO_32 - 1) + 1) % PHASE_COUNT
  {
  }
}
