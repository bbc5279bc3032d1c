/** The domains of the chart's two scales: the time axis spans the observed
    times, the value axis spans the observed water levels widened by ten
    percent of their range at each end. */
module Domain {
  import opened TideData

  /** `d3.extent`: the least and greatest element, scanning left to right;
      no extent (`[undefined, undefined]`) for an empty input. */
  function Extent(xs: seq<real>): (r: Option<Interval>)
    ensures r.None? <==> xs == []
    ensures r.Some? ==> r.value.lo in xs && r.value.hi in xs
    ensures r.Some? ==> forall k :: 0 <= k < |xs| ==> r.value.lo <= xs[k] <= r.value.hi
  {
    if xs == [] then None
    else
      var last := xs[|xs| - 1];
      match Extent(xs[..|xs| - 1])
      case None => Some(Interval(last, last))
      case Some(e) =>
        Some(Interval(if e.lo > last then last else e.lo, if e.hi < last then last else e.hi))
  }

  function Times(series: seq<Sample>): (ts: seq<real>)
    ensures |ts| == |series| && forall k :: 0 <= k < |series| ==> ts[k] == series[k].time as real
  {
    seq(|series|, k requires 0 <= k < |series| => series[k].time as real)
  }

  function Values(series: seq<Sample>): (vs: seq<real>)
    ensures |vs| == |series| && forall k :: 0 <= k < |series| ==> vs[k] == series[k].value
  {
    seq(|series|, k requires 0 <= k < |series| => series[k].value)
  }

  /** `x.domain(d3.extent(parsedData, d => d.time))`. */
  function TimeDomain(series: seq<Sample>): (d: Option<Interval>)
    ensures d.None? <==> series == []
    ensures d.Some? ==> forall k :: 0 <= k < |series| ==> d.value.lo <= series[k].time as real <= d.value.hi
  {
    Extent(Times(series))
  }

  /** `0.10 * Math.abs(y_extent[1] - y_extent[0])`. */
  function Padding(e: Interval): (pad: real)
    ensures pad >= 0.0
    ensures 10.0 * pad == Abs(e.hi - e.lo)
    ensures e.lo <= e.hi ==> 10.0 * pad == e.hi - e.lo
  {
    0.10 * Abs(e.hi - e.lo)
  }

  /** `y.domain([y_extent[0] - pad, y_extent[1] + pad])`. */
  function ValueDomain(series: seq<Sample>): (d: Option<Interval>)
    ensures d.None? <==> series == []
    ensures d.Some? ==> d.value.lo <= d.value.hi
    ensures d.Some? ==> forall k :: 0 <= k < |series| ==> d.value.lo <= series[k].value <= d.value.hi
  {
    match Extent(Values(series))
    case None => None
    case Some(e) => Some(Interval(e.lo - Padding(e), e.hi + Padding(e)))
  }

  /** The time domain runs from the earliest to the latest observed time. */
  lemma TimeDomainSpan(series: seq<Sample>)
    ensures TimeDomain(series).None? <==> series == []
    ensures series != [] ==>
      var d := TimeDomain(series).value;
      (exists k :: 0 <= k < |series| && d.lo == series[k].time as real) &&
      (exists k :: 0 <= k < |series| && d.hi == series[k].time as real) &&
      forall k :: 0 <= k < |series| ==> d.lo <= series[k].time as real <= d.hi
  {
  }

  /** For a chronological series the time domain runs from its first
      sample to its last. */
  lemma TimeDomainOfChronological(series: seq<Sample>)
    requires series != [] && Chronological(series)
    ensures TimeDomain(series) ==
            Some(Interval(series[0].time as real, series[|series| - 1].time as real))
  {
  }

  /** The value domain, characterised by a lowest sample `i` and a highest
      sample `j`: it is `[v_i - r/10, v_j + r/10]` where `r = v_j - v_i`. */
  lemma ValueDomainSpan(series: seq<Sample>, i: nat, j: nat)
    requires i < |series| && j < |series|
    requires forall k :: 0 <= k < |series| ==> series[i].value <= series[k].value <= series[j].value
    ensures var range := series[j].value - series[i].value;
            ValueDomain(series) == Some(Interval(series[i].value - range / 10.0, series[j].value + range / 10.0))
  {
  }

  /** The value domain is absent only for an empty series; otherwise it is
      a range with `lo <= hi` (a single point when all levels are equal) that
      contains every observed level, with a tenth of the observed range (a
      twelfth of the domain's width) to spare on each side. */
  lemma ValueDomainContainsValues(series: seq<Sample>)
    ensures ValueDomain(series).None? <==> series == []
    ensures series != [] ==>
      var d := ValueDomain(series).value;
      d.lo <= d.hi &&
      forall k :: 0 <= k < |series| ==>
        d.lo + (d.hi - d.lo) / 12.0 <= series[k].value <= d.hi - (d.hi - d.lo) / 12.0
  {
  }
}
