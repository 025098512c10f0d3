/** `handleSensorData()`: the JSON document of GET /sensor-data, as a record
    of its seven fields. */
module Http {
  import opened Optional
  import opened Numeric
  import opened Extrema
  import opened Device

  /** Reported for a temperature that is NaN. */
  const TEMP_UNKNOWN: real := -999.0
  /** Reported for a humidity that is NaN. */
  const HUM_UNKNOWN: real := -1.0

  datatype SensorReport = SensorReport(
    temperature: real,
    humidity: real,
    tempLow: real,
    tempHigh: real,
    humLow: real,
    humHigh: real,
    lastUpdated: U32)

  /** The response built from the state. The extrema are never NaN (they
      start at plus or minus one million), so they are reported as stored;
      before any good read that is 1e6 and -1e6, not a sentinel. */
  function SensorData(s: State): (r: SensorReport)
    ensures s.temp.current.Some? ==> r.temperature == s.temp.current.value
    ensures s.temp.current.None? ==> r.temperature == TEMP_UNKNOWN
    ensures s.hum.current.Some? ==> r.humidity == s.hum.current.value
    ensures s.hum.current.None? ==> r.humidity == HUM_UNKNOWN
    ensures r.tempLow == s.temp.low && r.tempHigh == s.temp.high
    ensures r.humLow == s.hum.low && r.humHigh == s.hum.high
    ensures r.lastUpdated == s.lastUpdateTime
  {
    SensorReport(
      s.temp.current.GetOr(TEMP_UNKNOWN),
      s.hum.current.GetOr(HUM_UNKNOWN),
      s.temp.low, s.temp.high,
      s.hum.low, s.hum.high,
      s.lastUpdateTime)
  }

  /** Reading a reported value back with the sentinel taken to mean "no
      value": the inverse of the sentinel substitution, used to state what the
      document preserves. The dashboard page served with the firmware does not
      do this; it prints whatever number it receives, sentinel included. */
  function Decode(reported: real, sentinel: real): (v: Option<real>)
    ensures v.None? <==> reported == sentinel
  {
    if reported == sentinel then None else Some(reported)
  }

  /** A state whose stored readings are physically possible: a Fahrenheit
      temperature above absolute zero and a non-negative humidity. Such values
      can never collide with the sentinels. */
  predicate Plausible(s: State) {
    && (s.temp.current.Some? ==> s.temp.current.value >= -459.67)
    && (s.hum.current.Some? ==> s.hum.current.value >= 0.0)
  }

  /** For plausible states the sentinel policy is lossless: the client recovers
      exactly which readings are NaN and the value of every other one. In
      particular `temperature` is -999 iff the temperature is NaN, and
      `humidity` is -1 iff the humidity is NaN. */
  lemma ReportDecodes(s: State)
    requires Plausible(s)
    ensures Decode(SensorData(s).temperature, TEMP_UNKNOWN) == s.temp.current
    ensures Decode(SensorData(s).humidity, HUM_UNKNOWN) == s.hum.current
    ensures SensorData(s).temperature == TEMP_UNKNOWN <==> s.temp.current.None?
    ensures SensorData(s).humidity == HUM_UNKNOWN <==> s.hum.current.None?
  {
  }

  /** Serving the request does not depend on anything but the state: two
      requests with no sample between them get the same document. */
  lemma ReportDeterminedByState(s: State, s': State)
    requires s'.temp == s.temp && s'.hum == s.hum && s'.lastUpdateTime == s.lastUpdateTime
    ensures SensorData(s') == SensorData(s)
  {
  }
}
