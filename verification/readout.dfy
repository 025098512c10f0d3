/** The four text lines of the display (the `lineStr` buffers) and how a
    sample rewrites them. */
module Readout {
  import opened Optional
  import opened Numeric
  import opened Text
  import opened Extrema

  /** Each `lineStr[i]` is a 16-byte buffer. */
  const LINE_BUFFER: nat := 16

  /** Four strings, each short enough to fit its buffer with the NUL. */
  type Lines = s: seq<string>
    | && |s| == 4
      && |s[0]| < LINE_BUFFER && |s[1]| < LINE_BUFFER
      && |s[2]| < LINE_BUFFER && |s[3]| < LINE_BUFFER
    witness ["", "", "", ""]

  /** `r` is what snprintf leaves of `text` in a line buffer: the whole text
      when it fits with its NUL, otherwise exactly its first fifteen characters. */
  predicate Printed(r: string, text: string) {
    && r <= text
    && (|text| < LINE_BUFFER ==> r == text)
    && (LINE_BUFFER <= |text| ==> |r| == LINE_BUFFER - 1)
  }

  /** `snprintf(lineStr[i], sizeof(lineStr[i]), ...)`. */
  function Fit(s: string): (r: string)
    ensures |r| < LINE_BUFFER
    ensures r <= s
    ensures |s| < LINE_BUFFER ==> r == s
    ensures LINE_BUFFER <= |s| ==> |r| == LINE_BUFFER - 1
  {
    Truncate(s, LINE_BUFFER)
  }

  /** What `setup()` writes before the first sample. */
  const Placeholders: Lines := ["TEMP: --F", "L:-- H:--", "HUMID: --%", "L:-- H:--"]

  /** The full output of the formats, before the buffer cuts it. */
  function TempText(t: int): string {
    "TEMP: " + DecimalString(t) + "F"
  }

  function HumidityText(h: int): string {
    "HUMID: " + DecimalString(h) + "%"
  }

  function RangeText(low: int, high: int): string {
    "L:" + DecimalString(low) + " H:" + DecimalString(high)
  }

  /** `snprintf(lineStr[0], ..., "TEMP: %dF", tf)`. */
  function TempLine(t: int): (r: string)
    ensures Printed(r, TempText(t))
  {
    Fit(TempText(t))
  }

  /** `snprintf(lineStr[2], ..., "HUMID: %d%%", h_i)`. */
  function HumidityLine(h: int): (r: string)
    ensures Printed(r, HumidityText(h))
  {
    Fit(HumidityText(h))
  }

  /** `snprintf(lineStr[1 or 3], ..., "L:%d H:%d", low, high)`. */
  function RangeLine(low: int, high: int): (r: string)
    ensures Printed(r, RangeText(low, high))
  {
    Fit(RangeText(low, high))
  }

  /** `(int)round(v)`. Converting NaN to int is undefined in C; whatever the
      target produces is the parameter `nanInt`. */
  function RoundOr(v: Option<real>, nanInt: int): (r: int)
    ensures v.None? ==> r == nanInt
    ensures v.Some? ==> r == Round(v.value)
    ensures v.Some? ==> -0.5 <= v.value - r as real <= 0.5
  {
    match v
    case Some(x) => RoundNearest(x, 0); Round(x)
    case None => nanInt
  }

  /** A rounded value that fits the readout (at most five characters). */
  predicate Readable(n: int) {
    -9999 <= n <= 99999
  }

  lemma ReadableIsShort(n: int)
    ensures Readable(n) ==> |DecimalString(n)| <= 5
  {
    if Readable(n) {
      DecimalStringShort(n);
    }
  }

  /** The lines a sample writes: what snprintf leaves of each format applied
      to the rounded current value or extrema. */
  function FormatLines(temp: Quantity, hum: Quantity, nanInt: int): (r: Lines)
    ensures Printed(r[0], TempText(RoundOr(temp.current, nanInt)))
    ensures Printed(r[1], RangeText(Round(temp.low), Round(temp.high)))
    ensures Printed(r[2], HumidityText(RoundOr(hum.current, nanInt)))
    ensures Printed(r[3], RangeText(Round(hum.low), Round(hum.high)))
    ensures Readable(RoundOr(temp.current, nanInt)) ==> r[0] == TempText(RoundOr(temp.current, nanInt))
    ensures Readable(Round(temp.low)) && Readable(Round(temp.high)) ==>
      r[1] == RangeText(Round(temp.low), Round(temp.high))
    ensures Readable(RoundOr(hum.current, nanInt)) ==> r[2] == HumidityText(RoundOr(hum.current, nanInt))
    ensures Readable(Round(hum.low)) && Readable(Round(hum.high)) ==>
      r[3] == RangeText(Round(hum.low), Round(hum.high))
  {
    FormatRounded(RoundOr(temp.current, nanInt), Round(temp.low), Round(temp.high),
                  RoundOr(hum.current, nanInt), Round(hum.low), Round(hum.high))
  }

  /** The four lines for already rounded values; a readable value is never
      cut. */
  function FormatRounded(t: int, tLow: int, tHigh: int, h: int, hLow: int, hHigh: int): (r: Lines)
    ensures Printed(r[0], TempText(t))
    ensures Printed(r[1], RangeText(tLow, tHigh))
    ensures Printed(r[2], HumidityText(h))
    ensures Printed(r[3], RangeText(hLow, hHigh))
    ensures Readable(t) ==> r[0] == TempText(t)
    ensures Readable(tLow) && Readable(tHigh) ==> r[1] == RangeText(tLow, tHigh)
    ensures Readable(h) ==> r[2] == HumidityText(h)
    ensures Readable(hLow) && Readable(hHigh) ==> r[3] == RangeText(hLow, hHigh)
  {
    TempTextFits(t);
    RangeTextFits(tLow, tHigh);
    HumidityTextFits(h);
    RangeTextFits(hLow, hHigh);
    var lines: Lines := [TempLine(t), RangeLine(tLow, tHigh), HumidityLine(h), RangeLine(hLow, hHigh)];
    lines
  }

  lemma TempTextFits(t: int)
    ensures Readable(t) ==> |TempText(t)| < LINE_BUFFER
  {
    ReadableIsShort(t);
  }

  lemma HumidityTextFits(h: int)
    ensures Readable(h) ==> |HumidityText(h)| < LINE_BUFFER
  {
    ReadableIsShort(h);
  }

  lemma RangeTextFits(low: int, high: int)
    ensures Readable(low) && Readable(high) ==> |RangeText(low, high)| < LINE_BUFFER
  {
    ReadableIsShort(low);
    ReadableIsShort(high);
  }

  /** Every line of a sample reads back as the rounded values it shows, as
      long as those values are readable. */
  lemma FormatLinesReadBack(temp: Quantity, hum: Quantity, nanInt: int)
    ensures var r, t, h := FormatLines(temp, hum, nanInt), RoundOr(temp.current, nanInt), RoundOr(hum.current, nanInt);
      && (Readable(t) ==> ParseTempLine(r[0]) == Some(t))
      && (Readable(Round(temp.low)) && Readable(Round(temp.high)) ==>
            ParseRangeLine(r[1]) == Some((Round(temp.low), Round(temp.high))))
      && (Readable(h) ==> ParseHumidityLine(r[2]) == Some(h))
      && (Readable(Round(hum.low)) && Readable(Round(hum.high)) ==>
            ParseRangeLine(r[3]) == Some((Round(hum.low), Round(hum.high))))
  {
    var r := FormatLines(temp, hum, nanInt);
    TempLineReadsBack(RoundOr(temp.current, nanInt), r[0]);
    RangeLineReadsBack(Round(temp.low), Round(temp.high), r[1]);
    HumidityLineReadsBack(RoundOr(hum.current, nanInt), r[2]);
    RangeLineReadsBack(Round(hum.low), Round(hum.high), r[3]);
  }

  /** A printed temperature line reads back when the value is readable. */
  lemma TempLineReadsBack(t: int, line: string)
    requires Printed(line, TempText(t))
    ensures Readable(t) ==> ParseTempLine(line) == Some(t)
  {
    ReadableIsShort(t);
    TempTextRoundTrip(t);
  }

  /** A printed humidity line reads back when the value is readable. */
  lemma HumidityLineReadsBack(h: int, line: string)
    requires Printed(line, HumidityText(h))
    ensures Readable(h) ==> ParseHumidityLine(line) == Some(h)
  {
    ReadableIsShort(h);
    HumidityTextRoundTrip(h);
  }

  /** A printed range line reads back when both values are readable. */
  lemma RangeLineReadsBack(low: int, high: int, line: string)
    requires Printed(line, RangeText(low, high))
    ensures Readable(low) && Readable(high) ==> ParseRangeLine(line) == Some((low, high))
  {
    ReadableIsShort(low);
    ReadableIsShort(high);
    RangeTextRoundTrip(low, high);
  }

  // Reading the lines back. These parsers are the partners of the
  // formatting functions above: what a person reading the display sees.

  /** Reads "TEMP: <n>F". */
  function ParseTempLine(line: string): Option<int> {
    if 7 <= |line| && line[..6] == "TEMP: " && line[|line| - 1] == 'F'
    then ParseDecimal(line[6..|line| - 1])
    else None
  }

  /** Reads "HUMID: <n>%". */
  function ParseHumidityLine(line: string): Option<int> {
    if 8 <= |line| && line[..7] == "HUMID: " && line[|line| - 1] == '%'
    then ParseDecimal(line[7..|line| - 1])
    else None
  }

  /** Index of the first space in `s`, or `|s|` when there is none. */
  function FirstSpace(s: string): (k: nat)
    ensures k <= |s|
    ensures forall i | 0 <= i < k :: s[i] != ' '
    ensures k < |s| ==> s[k] == ' '
  {
    if |s| == 0 || s[0] == ' ' then 0 else 1 + FirstSpace(s[1..])
  }

  /** Reads "L:<low> H:<high>". */
  function ParseRangeLine(line: string): Option<(int, int)> {
    if 2 <= |line| && line[..2] == "L:" then
      var rest := line[2..];
      var k := FirstSpace(rest);
      if k + 3 <= |rest| && rest[k..k + 3] == " H:" then
        match (ParseDecimal(rest[..k]), ParseDecimal(rest[k + 3..]))
        case (Some(low), Some(high)) => Some((low, high))
        case _ => None
      else None
    else None
  }

  lemma FirstSpaceOf(a: string, t: string)
    requires ' ' !in a
    requires 1 <= |t| && t[0] == ' '
    ensures FirstSpace(a + t) == |a|
  {
    assert (a + t)[|a|] == ' ';
  }

  /** The temperature text reads back as its number. */
  lemma TempTextRoundTrip(t: int)
    ensures ParseTempLine(TempText(t)) == Some(t)
  {
    var d := DecimalString(t);
    var line := TempText(t);
    assert line[..6] == "TEMP: ";
    assert line[6..|line| - 1] == d;
    DecimalRoundTrip(t);
  }

  /** The humidity text reads back as its number. */
  lemma HumidityTextRoundTrip(h: int)
    ensures ParseHumidityLine(HumidityText(h)) == Some(h)
  {
    var d := DecimalString(h);
    var line := HumidityText(h);
    assert line[..7] == "HUMID: ";
    assert line[7..|line| - 1] == d;
    DecimalRoundTrip(h);
  }

  /** The range text reads back as its two numbers. */
  lemma RangeTextRoundTrip(low: int, high: int)
    ensures ParseRangeLine(RangeText(low, high)) == Some((low, high))
  {
    var a, b := DecimalString(low), DecimalString(high);
    var line := RangeText(low, high);
    assert line[..2] == "L:";
    var rest := line[2..];
    assert rest == a + (" H:" + b);
    DecimalHasNoSpace(low);
    FirstSpaceOf(a, " H:" + b);
    assert rest[..|a|] == a;
    assert rest[|a|..|a| + 3] == " H:";
    assert rest[|a| + 3..] == b;
    DecimalRoundTrip(low);
    DecimalRoundTrip(high);
  }

  /** Before the first good read of a quantity its range line prints the
      initial extrema and is cut to fifteen characters by the buffer. */
  lemma UnsampledRangeLineTruncated()
    ensures RangeLine(Round(INITIAL_LOW), Round(INITIAL_HIGH)) == "L:1000000 H:-10"
  {
    assert Round(INITIAL_LOW) == 1000000;
    assert Round(INITIAL_HIGH) == -1000000;
    InitialExtremaText();
  }

  /** The untruncated range text of the initial extrema: twenty characters. */
  lemma InitialExtremaText()
    ensures RangeText(1000000, -1000000) == "L:1000000 H:-1000000"
  {
    MillionDigits();
    assert DecimalString(-1000000) == "-1000000";
  }

  lemma MillionDigits()
    ensures DecimalString(1000000) == "1000000"
  {
    assert NatDigits(1) == "1";
    assert NatDigits(10) == "10";
    assert NatDigits(100) == "100";
    assert NatDigits(1000) == "1000";
    assert NatDigits(10000) == "10000";
    assert NatDigits(100000) == "100000";
  }

}
