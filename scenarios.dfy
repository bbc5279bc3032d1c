/** Worked examples: the hover lookup and the fishing windows on small
    concrete inputs, derived from the contracts of the operations alone. */
module Scenarios {
  import opened TideData
  import opened Classification
  import opened FishingWindows
  import opened NearestSample

  const Hour: int := 60 * 60 * 1000
  const Minute: int := 60 * 1000

  /** Levels 3.0, 3.5 and 2.8 ft at 09:00, 10:00 and 11:00; the pointer at
      09:40 is 20 minutes from 10:00 and 40 from 09:00. */
  method HoverBetweenSamples() returns (d: Option<Sample>)
    ensures d == Some(Sample(10 * Hour, 3.5))
  {
    var a := new Sample[3];
    a[0], a[1], a[2] := Sample(9 * Hour, 3.0), Sample(10 * Hour, 3.5), Sample(11 * Hour, 2.8);
    assert a[..] == [a[0], a[1], a[2]];
    d := ResolveNearest(a, 9 * Hour + 40 * Minute);
    assert Dist(d.value.time, 9 * Hour + 40 * Minute) <= Dist(a[1].time, 9 * Hour + 40 * Minute);
  }

  /** Filtering a high tide followed by a low tide. */
  lemma ClassifyHighThenLow(h: Extremum, l: Extremum)
    requires h.tag == HighTag && l.tag == LowTag
    ensures HighTides([h, l]) == [h] && LowTides([h, l]) == [l]
  {
    var s := [h, l];
    assert s[1..] == [l] && s[1..][1..] == [];
    assert HighTag[0] != LowTag[0];
    assert FilterByTag(s[1..], HighTag) == [];
    assert FilterByTag(s[1..], LowTag) == [l];
  }

  /** A high tide at 08:00 and a low tide at 14:12 give the windows
      06:00-10:00 and 12:12-16:12, in that order. */
  method WindowsForTwoTides() returns (all: seq<Window>)
    ensures all == [Window(6 * Hour, 10 * Hour), Window(12 * Hour + 12 * Minute, 16 * Hour + 12 * Minute)]
  {
    var high, low := Extremum(8 * Hour, 5.1, HighTag), Extremum(14 * Hour + 12 * Minute, 0.4, LowTag);
    all := DeriveFishingWindows([high, low]);
    ClassifyHighThenLow(high, low);
    var expected := [WindowAround(high.time), WindowAround(low.time)];
    assert WindowsAround([high]) + WindowsAround([low]) == expected;
    SortedWindowsUnique(all, expected);
  }

  /** Filtering two high tides. */
  lemma ClassifyTwoHighs(h1: Extremum, h2: Extremum)
    requires h1.tag == HighTag && h2.tag == HighTag
    ensures HighTides([h1, h2]) == [h1, h2] && LowTides([h1, h2]) == []
  {
    var s := [h1, h2];
    assert s[1..] == [h2] && s[1..][1..] == [];
    assert HighTag[0] != LowTag[0];
    assert FilterByTag(s[1..], HighTag) == [h2];
    assert FilterByTag(s[1..], LowTag) == [];
  }

  /** Two high tides an hour apart give overlapping windows; both are kept,
      earliest start first. */
  method OverlappingWindowsKept() returns (all: seq<Window>)
    ensures all == [Window(6 * Hour, 10 * Hour), Window(7 * Hour, 11 * Hour)]
  {
    var later, earlier := Extremum(9 * Hour, 5.0, HighTag), Extremum(8 * Hour, 5.1, HighTag);
    all := DeriveFishingWindows([later, earlier]);
    ClassifyTwoHighs(later, earlier);
    var expected := [WindowAround(earlier.time), WindowAround(later.time)];
    assert WindowsAround([later, earlier]) + WindowsAround([]) == [expected[1], expected[0]];
    assert multiset([expected[1], expected[0]]) == multiset(expected);
    SortedWindowsUnique(all, expected);
  }
}
