/** Fishing windows: a four-hour interval centred on every predicted high
    and low tide, all of them in one list sorted by start time. Windows that
    overlap are kept apart, never merged. */
module FishingWindows {
  import opened TideData
  import opened Classification

  /** Two hours in milliseconds (`2 * 60 * 60 * 1000`). */
  const HalfWidth: int := 2 * 60 * 60 * 1000

  /** The window around a tide at time `t`. The source computes the end as
      `tideTime + 2 * 60 * 60 * 1000` with `tideTime` a `Date`, which in
      JavaScript concatenates strings instead of adding; the comment on that
      line and the subtraction for the start show the intended sum, which is
      what is modelled here. */
  function WindowAround(t: int): (w: Window)
    ensures w.start < t < w.end && t - w.start == w.end - t == HalfWidth
  {
    Window(t - HalfWidth, t + HalfWidth)
  }

  /** One window per tide, in the order of the tides. */
  function WindowsAround(tides: seq<Extremum>): (ws: seq<Window>)
    ensures |ws| == |tides|
    ensures forall k :: 0 <= k < |tides| ==> ws[k] == WindowAround(tides[k].time)
  {
    if tides == [] then [] else WindowsAround(tides[..|tides| - 1]) + [WindowAround(tides[|tides| - 1].time)]
  }

  /** `computeFishingWindows`: pushes one window per tide onto a fresh list. */
  method ComputeFishingWindows(tides: seq<Extremum>) returns (windows: seq<Window>)
    ensures windows == WindowsAround(tides)
  {
    windows := [];
    var i := 0;
    while i < |tides|
      invariant 0 <= i <= |tides|
      invariant windows == WindowsAround(tides[..i])
    {
      var tideTime := tides[i].time;
      var startTime := tideTime - HalfWidth;
      var endTime := tideTime + HalfWidth;
      windows := windows + [Window(startTime, endTime)];
      i := i + 1;
      assert tides[..i][..i - 1] == tides[..i - 1];
    }
    assert tides[..i] == tides;
  }

  predicate SortedByStart(s: seq<Window>)
  {
    forall i, j :: 0 <= i < j < |s| ==> s[i].start <= s[j].start
  }

  /** `allFishingWindows.sort((a, b) => a.start - b.start)`: an in-place
      sort of the array by start time (insertion by adjacent exchanges). */
  method SortByStart(a: array<Window>)
    modifies a
    ensures SortedByStart(a[..])
    ensures multiset(a[..]) == old(multiset(a[..]))
  {
    var i := 0;
    while i < a.Length
      invariant 0 <= i <= a.Length
      invariant SortedByStart(a[..i])
      invariant multiset(a[..]) == old(multiset(a[..]))
    {
      Insert(a, i);
      i := i + 1;
    }
    assert a[..i] == a[..];
  }

  /** Moves `a[i]` down into the sorted prefix `a[..i]`. */
  method Insert(a: array<Window>, i: nat)
    requires i < a.Length && SortedByStart(a[..i])
    modifies a
    ensures SortedByStart(a[..i + 1])
    ensures multiset(a[..]) == old(multiset(a[..]))
    ensures a[i + 1..] == old(a[i + 1..])
  {
    var j := i;
    while j > 0 && a[j - 1].start > a[j].start
      invariant 0 <= j <= i
      invariant forall p, q :: 0 <= p < q <= i && q != j ==> a[p].start <= a[q].start
      invariant multiset(a[..]) == old(multiset(a[..]))
      invariant a[i + 1..] == old(a[i + 1..])
    {
      Exchange(a, j - 1);
      j := j - 1;
    }
  }

  /** Exchanges `a[j]` and `a[j + 1]`. */
  method Exchange(a: array<Window>, j: nat)
    requires j + 1 < a.Length
    modifies a
    ensures a[j] == old(a[j + 1]) && a[j + 1] == old(a[j])
    ensures forall k :: 0 <= k < a.Length && k != j && k != j + 1 ==> a[k] == old(a[k])
    ensures multiset(a[..]) == old(multiset(a[..]))
  {
    a[j], a[j + 1] := a[j + 1], a[j];
  }

  /** Every window lasts four hours, so its start determines it. */
  predicate FourHourWindows(s: seq<Window>)
  {
    forall w :: w in s ==> w.end - w.start == 2 * HalfWidth
  }

  /** The high-tide windows followed by the low-tide windows, sorted by start:
      one window per classified tide, none dropped and none merged. */
  method DeriveFishingWindows(events: seq<Extremum>) returns (all: seq<Window>)
    ensures |all| == |HighTides(events)| + |LowTides(events)|
    ensures multiset(all) == multiset(WindowsAround(HighTides(events)) + WindowsAround(LowTides(events)))
    ensures SortedByStart(all)
    ensures FourHourWindows(all)
    ensures forall k :: 0 <= k < |events| && (events[k].tag == HighTag || events[k].tag == LowTag) ==>
      WindowAround(events[k].time) in all
  {
    var highTideWindows := ComputeFishingWindows(HighTides(events));
    var lowTideWindows := ComputeFishingWindows(LowTides(events));
    var combined := highTideWindows + lowTideWindows;
    var a := new Window[|combined|];
    forall k | 0 <= k < a.Length {
      a[k] := combined[k];
    }
    assert a[..] == combined;
    SortByStart(a);
    all := a[..];
    PermutationLength(combined, all);
    FourHourPermutation(combined, all);
    forall k | 0 <= k < |events| && (events[k].tag == HighTag || events[k].tag == LowTag)
      ensures WindowAround(events[k].time) in all
    {
      EveryTideHasWindow(events, all, k);
    }
  }

  lemma PermutationLength(s: seq<Window>, t: seq<Window>)
    requires multiset(s) == multiset(t)
    ensures |s| == |t|
  {
    assert |s| == |multiset(s)|;
  }

  /** A rearrangement of four-hour windows holds four-hour windows. */
  lemma FourHourPermutation(s: seq<Window>, t: seq<Window>)
    requires FourHourWindows(s) && multiset(s) == multiset(t)
    ensures FourHourWindows(t)
  {
    forall w | w in t ensures w.end - w.start == 2 * HalfWidth {
      assert w in multiset(t);
    }
  }

  /** Every prediction tagged "H" or "L" contributes its window to the list. */
  lemma EveryTideHasWindow(events: seq<Extremum>, all: seq<Window>, k: nat)
    requires multiset(all) == multiset(WindowsAround(HighTides(events)) + WindowsAround(LowTides(events)))
    requires k < |events| && (events[k].tag == HighTag || events[k].tag == LowTag)
    ensures WindowAround(events[k].time) in all
  {
    var e := events[k];
    var tides := FilterByTag(events, e.tag);
    FilterMultiset(events, e.tag, e);
    assert e in multiset(tides);
    var i :| 0 <= i < |tides| && tides[i] == e;
    assert WindowsAround(tides)[i] == WindowAround(e.time);
    assert WindowAround(e.time) in multiset(all);
  }

  /** A list of four-hour windows sorted by start is determined by its
      multiset: whatever order the sort leaves equal starts in, the result is
      the same list. */
  lemma {:induction false} SortedWindowsUnique(s: seq<Window>, t: seq<Window>)
    requires FourHourWindows(s) && SortedByStart(s) && SortedByStart(t)
    requires multiset(s) == multiset(t)
    ensures s == t
  {
    PermutationLength(s, t);
    if s != [] {
      SameHead(s, t);
      TailPermutation(s, t);
      SortedWindowsUnique(s[1..], t[1..]);
      assert s == [s[0]] + s[1..] && t == [t[0]] + t[1..];
    }
  }

  /** Removing a common first window keeps two rearrangements of four-hour
      windows rearrangements of each other. */
  lemma TailPermutation(s: seq<Window>, t: seq<Window>)
    requires s != [] && t != [] && s[0] == t[0]
    requires FourHourWindows(s) && multiset(s) == multiset(t)
    ensures FourHourWindows(s[1..]) && multiset(s[1..]) == multiset(t[1..])
  {
    assert s == [s[0]] + s[1..] && t == [t[0]] + t[1..];
    assert multiset(s[1..]) == multiset(s) - multiset{s[0]};
    assert multiset(t[1..]) == multiset(t) - multiset{t[0]};
    forall w | w in s[1..] ensures w in s { }
  }

  /** Two sorted rearrangements of the same four-hour windows start with the
      same window. */
  lemma SameHead(s: seq<Window>, t: seq<Window>)
    requires s != [] && |s| == |t|
    requires FourHourWindows(s) && SortedByStart(s) && SortedByStart(t)
    requires multiset(s) == multiset(t)
    ensures s[0] == t[0]
  {
    assert s[0] in multiset(t) && t[0] in multiset(s);
    var i :| 0 <= i < |t| && t[i] == s[0];
    var j :| 0 <= j < |s| && s[j] == t[0];
    assert s[0].start == t[0].start;
    assert t[0] in s;
  }
}
