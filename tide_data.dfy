/** The typed records the tide chart works on: observed water-level samples,
    predicted high/low tide events and the fishing windows derived from them.
    Timestamps are milliseconds since the epoch (what a JavaScript `Date`
    yields under arithmetic); water levels are feet. */
module TideData {

  /** A JavaScript value that may be `undefined`, such as a read past the end
      of an array. */
  datatype Option<+T> = None | Some(value: T)

  /** One observed water level (`parsedData` element). */
  datatype Sample = Sample(time: int, value: real)

  /** Samples in non-decreasing order of time, as the provider returns them. */
  predicate Chronological(series: seq<Sample>)
  {
    forall i, j :: 0 <= i < j < |series| ==> series[i].time <= series[j].time
  }

  /** One predicted tide extremum (`highLowData` element); `tag` is the
      provider's type field, "H" for a high tide and "L" for a low tide. */
  datatype Extremum = Extremum(time: int, value: real, tag: string)

  /** A fishing window (`{start, end}`), in milliseconds. */
  datatype Window = Window(start: int, end: int)

  /** A closed numeric range `[lo, hi]`, the domain of a d3 scale. */
  datatype Interval = Interval(lo: real, hi: real)

  function Abs(x: real): real
  {
    if x < 0.0 then -x else x
  }
}
