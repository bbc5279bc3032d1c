/** Splitting the tide predictions into high tides and low tides with two
    order-preserving filters on the type tag. */
module Classification {
  import opened TideData

  const HighTag: string := "H"
  const LowTag: string := "L"

  /** `events.filter(d => d.type === tag)`: the events carrying `tag`, in
      their original order. */
  function FilterByTag(events: seq<Extremum>, tag: string): (r: seq<Extremum>)
    ensures |r| <= |events|
    ensures forall k :: 0 <= k < |r| ==> r[k].tag == tag && r[k] in events
  {
    if events == [] then []
    else if events[0].tag == tag then [events[0]] + FilterByTag(events[1..], tag)
    else FilterByTag(events[1..], tag)
  }

  /** `highTides`: the predictions tagged "H", in order. */
  function HighTides(events: seq<Extremum>): (highs: seq<Extremum>)
    ensures forall k :: 0 <= k < |highs| ==> highs[k].tag == HighTag
    ensures IsSubsequence(highs, events)
  {
    FilterIsSubsequence(events, HighTag);
    FilterByTag(events, HighTag)
  }

  /** `lowTides`: the predictions tagged "L", in order. */
  function LowTides(events: seq<Extremum>): (lows: seq<Extremum>)
    ensures forall k :: 0 <= k < |lows| ==> lows[k].tag == LowTag
    ensures IsSubsequence(lows, events)
  {
    FilterIsSubsequence(events, LowTag);
    FilterByTag(events, LowTag)
  }

  /** `a` can be obtained from `b` by deleting elements. */
  predicate IsSubsequence<T(==)>(a: seq<T>, b: seq<T>)
    decreases |b|
  {
    a == [] ||
    (b != [] && ((a[0] == b[0] && IsSubsequence(a[1..], b[1..])) || IsSubsequence(a, b[1..])))
  }

  /** The filter keeps the events in their original order. */
  lemma {:induction false} FilterIsSubsequence(events: seq<Extremum>, tag: string)
    ensures IsSubsequence(FilterByTag(events, tag), events)
  {
    if events != [] {
      FilterIsSubsequence(events[1..], tag);
    }
  }

  /** The filter keeps every event carrying `tag`, as often as it occurs,
      and nothing else. */
  lemma {:induction false} FilterMultiset(events: seq<Extremum>, tag: string, e: Extremum)
    ensures multiset(FilterByTag(events, tag))[e] == if e.tag == tag then multiset(events)[e] else 0
  {
    if events != [] {
      FilterMultiset(events[1..], tag, e);
      assert events == [events[0]] + events[1..];
    }
  }

  /** The two filters together keep exactly the events tagged "H" or "L":
      their lengths add up to the input's exactly when no other tag occurs. */
  lemma {:induction false} PartitionCount(events: seq<Extremum>)
    ensures |HighTides(events)| + |LowTides(events)| <= |events|
    ensures |HighTides(events)| + |LowTides(events)| == |events| <==>
            forall k :: 0 <= k < |events| ==> events[k].tag == HighTag || events[k].tag == LowTag
  {
    if events != [] {
      PartitionCount(events[1..]);
      var tail := events[1..];
      if !(forall k :: 0 <= k < |tail| ==> tail[k].tag == HighTag || tail[k].tag == LowTag) {
        var k :| 0 <= k < |tail| && !(tail[k].tag == HighTag || tail[k].tag == LowTag);
        assert events[k + 1] == tail[k];
      }
    }
  }

  /** When every tag is "H" or "L", the high and low tides are a partition
      of the predictions: together they hold each event as often as it occurs. */
  lemma PartitionMultiset(events: seq<Extremum>)
    requires forall k :: 0 <= k < |events| ==> events[k].tag == HighTag || events[k].tag == LowTag
    ensures multiset(HighTides(events)) + multiset(LowTides(events)) == multiset(events)
  {
    forall e | true
      ensures (multiset(HighTides(events)) + multiset(LowTides(events)))[e] == multiset(events)[e]
    {
      FilterMultiset(events, HighTag, e);
      FilterMultiset(events, LowTag, e);
    }
  }
}
