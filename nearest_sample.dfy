/** Hit-testing the pointer against the observed series: a lower-bound
    bisection on time, then the nearer of the two samples around the
    insertion point. */
module NearestSample {
  import opened TideData

  function Dist(a: int, b: int): nat
  {
    if a <= b then b - a else a - b
  }

  /** d3's `bisector(d => d.time).left(a, t, lo, hi)`: the first index in
      `[lo, hi)` whose time is not before `t`, found by halving `[lo, hi)`. */
  method BisectLeft(a: array<Sample>, t: int, lo: int, hi: int) returns (idx: int)
    requires lo < hi ==> 0 <= lo && hi <= a.Length
    ensures hi <= lo ==> idx == lo
    ensures lo < hi ==> lo <= idx <= hi
    ensures lo < hi && Chronological(a[..]) ==>
      (forall k :: lo <= k < idx ==> a[k].time < t) && (forall k :: idx <= k < hi ==> a[k].time >= t)
  {
    idx := lo;
    var h := hi;
    while idx < h
      invariant lo <= idx && (lo < hi ==> idx <= h <= hi)
      invariant hi <= lo ==> idx == lo
      invariant Chronological(a[..]) ==> forall k :: lo <= k < idx ==> a[k].time < t
      invariant lo < hi && Chronological(a[..]) ==> forall k :: h <= k < hi ==> a[k].time >= t
      decreases h - idx
    {
      var mid := (idx + h) / 2;
      if a[mid].time < t {
        idx := mid + 1;
      } else {
        h := mid;
      }
    }
  }

  /** `s[i]` in JavaScript: `undefined` outside the array. */
  function At(s: seq<Sample>, i: int): (d: Option<Sample>)
    ensures d.Some? <==> 0 <= i < |s|
    ensures d.Some? ==> d.value == s[i]
  {
    if 0 <= i < |s| then Some(s[i]) else None
  }

  /** The choice between the neighbours `d0` and `d1` of `t`: the nearer one,
      `d0` on a tie, and whichever exists when only one does. */
  function Choose(d0: Option<Sample>, d1: Option<Sample>, t: int): (d: Option<Sample>)
    ensures d.None? <==> d0.None? && d1.None?
    ensures d0.None? ==> d == d1
    ensures d1.None? ==> d == d0
    ensures d0.Some? && d1.Some? && d0.value.time <= t <= d1.value.time ==>
      d.Some? && Dist(d.value.time, t) <= Dist(d0.value.time, t) && Dist(d.value.time, t) <= Dist(d1.value.time, t) &&
      (Dist(d0.value.time, t) == Dist(d1.value.time, t) ==> d == d0)
  {
    if d0.Some? && d1.Some? then
      if t - d0.value.time > d1.value.time - t then d1 else d0
    else if d0.Some? then d0
    else d1
  }

  /** The sample shown for pointer time `t`: bisect from index 1, then choose
      between `s[idx - 1]` and `s[idx]`. */
  method ResolveNearest(a: array<Sample>, t: int) returns (d: Option<Sample>)
    ensures d.None? <==> a.Length == 0
    ensures d.Some? ==> d.value in a[..]
    ensures a.Length == 1 ==> d == Some(a[0])
    ensures d.Some? && Chronological(a[..]) ==>
      forall k :: 0 <= k < a.Length ==> Dist(d.value.time, t) <= Dist(a[k].time, t)
    ensures d.Some? && Chronological(a[..]) ==>
      forall k :: 0 <= k < a.Length && a[k].time < d.value.time ==> Dist(d.value.time, t) < Dist(a[k].time, t)
    ensures a.Length > 0 && Chronological(a[..]) && t <= a[0].time ==> d == Some(a[0])
    ensures a.Length > 0 && Chronological(a[..]) && a[a.Length - 1].time < t ==> d == Some(a[a.Length - 1])
  {
    var idx := BisectLeft(a, t, 1, a.Length);
    d := Choose(At(a[..], idx - 1), At(a[..], idx), t);
    if a.Length > 0 && Chronological(a[..]) {
      NeighbourIsNearest(a[..], t, idx);
    }
  }

  /** Given the insertion point `idx` of a lower-bound bisection started at 1,
      the chosen neighbour is nearest to `t` over the whole series, and every
      sample strictly earlier than it is strictly farther. */
  lemma NeighbourIsNearest(s: seq<Sample>, t: int, idx: int)
    requires Chronological(s) && 1 <= idx <= |s|
    requires forall k :: 1 <= k < idx ==> s[k].time < t
    requires forall k :: idx <= k < |s| ==> s[k].time >= t
    ensures var d := Choose(At(s, idx - 1), At(s, idx), t);
      d.Some? &&
      (forall k :: 0 <= k < |s| ==> Dist(d.value.time, t) <= Dist(s[k].time, t)) &&
      (forall k :: 0 <= k < |s| && s[k].time < d.value.time ==> Dist(d.value.time, t) < Dist(s[k].time, t))
  {
  }
}
