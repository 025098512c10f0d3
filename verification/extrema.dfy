/** One measured quantity (temperature in Fahrenheit, or relative humidity):
    its latest good reading and its running minimum and maximum. */
module Extrema {
  import opened Optional

  /** The globals start at tMin = hMin = 1e6 and tMax = hMax = -1e6, an empty
      range that the first good reading collapses onto itself. */
  const INITIAL_LOW: real := 1000000.0
  const INITIAL_HIGH: real := -1000000.0

  /** `current` is `None` while the global still holds its initial NaN. */
  datatype Quantity = Quantity(current: Option<real>, low: real, high: real)

  const Unsampled: Quantity := Quantity(None, INITIAL_LOW, INITIAL_HIGH)

  /** The reading converted from Celsius to Fahrenheit. */
  function CelsiusToFahrenheit(c: real): (f: real)
    ensures (f - 32.0) * 5.0 == c * 9.0
  {
    c * 9.0 / 5.0 + 32.0
  }

  function Min(a: real, b: real): (m: real)
    ensures m <= a && m <= b
    ensures m == a || m == b
  {
    if a < b then a else b
  }

  function Max(a: real, b: real): (m: real)
    ensures a <= m && b <= m
    ensures m == a || m == b
  {
    if a > b then a else b
  }

  /** Folds one read into the quantity. A failed (NaN) read changes nothing;
      a good read becomes the current value and widens the range to hold it. */
  function Track(q: Quantity, reading: Option<real>): (r: Quantity)
    ensures reading.None? ==> r == q
    ensures reading.Some? ==> r.current == reading
    ensures reading.Some? ==> r.low <= reading.value <= r.high
    ensures r.low <= q.low && q.high <= r.high
    ensures r.low == q.low || r.current == Some(r.low)
    ensures r.high == q.high || r.current == Some(r.high)
  {
    match reading
    case None => q
    case Some(v) => Quantity(Some(v), Min(q.low, v), Max(q.high, v))
  }

  /** The quantity's own invariant: before any good read it is exactly
      `Unsampled`; afterwards the current value lies within the range. */
  predicate Consistent(q: Quantity) {
    match q.current
    case None => q == Unsampled
    case Some(v) => q.low <= v <= q.high
  }

  lemma TrackPreservesConsistent(q: Quantity, reading: Option<real>)
    requires Consistent(q)
    ensures Consistent(Track(q, reading))
  {
  }

  /** The running minimum of `low` and every value of `xs`. */
  function FoldMin(low: real, xs: seq<real>): (m: real)
    decreases |xs|
    ensures m <= low
    ensures forall i | 0 <= i < |xs| :: m <= xs[i]
    ensures m == low || exists i | 0 <= i < |xs| :: m == xs[i]
  {
    if |xs| == 0 then low else FoldMin(Min(low, xs[0]), xs[1..])
  }

  /** The running maximum of `high` and every value of `xs`. */
  function FoldMax(high: real, xs: seq<real>): (m: real)
    decreases |xs|
    ensures high <= m
    ensures forall i | 0 <= i < |xs| :: xs[i] <= m
    ensures m == high || exists i | 0 <= i < |xs| :: m == xs[i]
  {
    if |xs| == 0 then high else FoldMax(Max(high, xs[0]), xs[1..])
  }

  /** Tracking a sequence of good reads one after another. */
  function TrackAll(q: Quantity, xs: seq<real>): Quantity
    decreases |xs|
  {
    if |xs| == 0 then q else TrackAll(Track(q, Some(xs[0])), xs[1..])
  }

  /** After any sequence of good reads, the range is exactly the fold of the
      initial range with every read, and the current value is the last read. */
  lemma {:induction false} TrackAllExtrema(q: Quantity, xs: seq<real>)
    ensures TrackAll(q, xs).low == FoldMin(q.low, xs)
    ensures TrackAll(q, xs).high == FoldMax(q.high, xs)
    ensures |xs| == 0 ==> TrackAll(q, xs) == q
    ensures |xs| > 0 ==> TrackAll(q, xs).current == Some(xs[|xs| - 1])
    decreases |xs|
  {
    if |xs| > 0 {
      TrackAllExtrema(Track(q, Some(xs[0])), xs[1..]);
      if |xs| > 1 {
        assert xs[1..][|xs[1..]| - 1] == xs[|xs| - 1];
      }
    }
  }
}
