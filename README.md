# Tide chart data pipeline

A model of the data handling inside the tide chart of `letsgofishing`
(`createD3Plot` in `src/TideVisualization.js`): the split of the NOAA hi/lo
predictions into high and low tides, the fishing windows derived from them,
the domains of the chart's time and water-level scales, and the lookup of
the observation nearest to the pointer. Drawing, fetching and parsing are
not modelled; the model starts from already-typed records.

Files, one module each:

- `tide_data.dfy` (`TideData`): the records. Times are integer milliseconds
  since the epoch, water levels are `real` feet, the prediction's type tag is
  the provider's string (`"H"`, `"L"`, or anything else).
- `classification.dfy` (`Classification`): the two type filters.
- `domain.dfy` (`Domain`): `d3.extent` and the padded value domain.
- `fishing_windows.dfy` (`FishingWindows`): window derivation, concatenation
  and the in-place sort by start.
- `nearest_sample.dfy` (`NearestSample`): d3's left bisector started at index
  1 and the choice between the two neighbours.
- `scenarios.dfy` (`Scenarios`): worked examples proved from the contracts.

How the model treats three edge cases of the code:

- Both filters silently drop events whose tag is neither "H" nor "L".
  `PartitionCount` shows the two lists cover the input exactly when no such
  tag occurs.
- For an empty observation series, `d3.extent` yields
  `[undefined, undefined]`. The model returns `None` for both domains.
- The model uses the intended window end, `t + 7 200 000` ms. Line 194 adds
  a number to a `Date`, and in JavaScript that concatenates two strings. The
  comment on that line and the subtraction on line 193 state the intended
  sum.

## Model

| member | source | states |
|---|---|---|
| `Classification.FilterByTag` | src/TideVisualization.js:51-52 | every kept event carries the requested tag and comes from the input; the output is no longer than the input |
| `Classification.HighTides` | src/TideVisualization.js:51 | every high tide is tagged "H", and the high tides are a subsequence of the predictions (`FilterMultiset` adds that every "H" event is kept) |
| `Classification.LowTides` | src/TideVisualization.js:52 | every low tide is tagged "L", and the low tides are a subsequence of the predictions (`FilterMultiset` adds that every "L" event is kept) |
| `Classification.FilterIsSubsequence` | src/TideVisualization.js:51-52 | the filtered list is a subsequence of the predictions, so chronological order is kept |
| `Classification.FilterMultiset` | src/TideVisualization.js:51-52 | each event with the tag is kept as often as it occurs; events with another tag are not kept at all |
| `Classification.PartitionCount` | src/TideVisualization.js:51-52 | `|highTides| + |lowTides| <= |predictions|`, with equality exactly when every tag is "H" or "L" |
| `Classification.PartitionMultiset` | src/TideVisualization.js:51-52 | when every tag is "H" or "L", high and low tides together are the predictions as a multiset |
| `Domain.Extent` | src/TideVisualization.js:56-57 | no extent for an empty list; otherwise both bounds are elements and every element lies between them |
| `Domain.Padding` | src/TideVisualization.js:58 | the padding is non-negative and is one tenth of the absolute difference of the extent's bounds |
| `Domain.TimeDomain` | src/TideVisualization.js:56-59 | absent exactly for an empty series; otherwise its bounds enclose every observed time (`TimeDomainSpan` adds that both bounds are observed times) |
| `Domain.ValueDomain` | src/TideVisualization.js:57-60 | absent exactly for an empty series; otherwise a range with `lo <= hi` (a single point when all levels are equal) enclosing every observed level (`ValueDomainSpan` gives its exact bounds) |
| `Domain.TimeDomainSpan` | src/TideVisualization.js:56-59 | the time domain is absent only for an empty series; its bounds are observed times and enclose every observed time |
| `Domain.TimeDomainOfChronological` | src/TideVisualization.js:56-59 | for a chronological series the time domain runs from the first sample's time to the last's |
| `Domain.ValueDomainSpan` | src/TideVisualization.js:57-60 | with lowest level `v_i` and highest `v_j`, the value domain is `[v_i - (v_j - v_i)/10, v_j + (v_j - v_i)/10]` |
| `Domain.ValueDomainContainsValues` | src/TideVisualization.js:57-60 | the value domain is absent only for an empty series; otherwise it is a range with `lo <= hi` (a single point when all levels are equal) holding every level, with a twelfth of its width to spare on each side |
| `FishingWindows.WindowAround` | src/TideVisualization.js:192-195 | the window around tide time `t` starts two hours before and ends two hours after it, so `start < t < end` |
| `FishingWindows.WindowsAround` | src/TideVisualization.js:189-198 | exactly one window per tide, the k-th window around the k-th tide |
| `FishingWindows.ComputeFishingWindows` | src/TideVisualization.js:189-198 | the loop that pushes one window per tide builds exactly `WindowsAround(tides)` |
| `FishingWindows.SortByStart` | src/TideVisualization.js:203 | the in-place sort leaves the array ordered by start and a permutation of what it was |
| `FishingWindows.DeriveFishingWindows` | src/TideVisualization.js:200-203 | the combined list has one window per high or low tide, is a permutation of the high-tide windows followed by the low-tide windows, is sorted by start, holds only four-hour windows, and contains the window of every "H" or "L" prediction |
| `FishingWindows.EveryTideHasWindow` | src/TideVisualization.js:189-203 | the window around each prediction tagged "H" or "L" occurs in the combined list, even when it overlaps another |
| `FishingWindows.SortedWindowsUnique` | src/TideVisualization.js:203 | two start-sorted rearrangements of the same four-hour windows are equal, so the sorted list does not depend on the sort's stability |
| `NearestSample.BisectLeft` | src/TideVisualization.js:154-155 | the index lies in `[lo, hi]` (`lo` when the range is empty); on a chronological series every sample in `[lo, idx)` is before `t` and every sample in `[idx, hi)` is not |
| `NearestSample.At` | src/TideVisualization.js:156-157 | an index outside the series yields no sample (`undefined`); one inside yields the sample there |
| `NearestSample.Choose` | src/TideVisualization.js:159-164 | no sample only when both neighbours are missing; a missing neighbour falls back to the other; with `d0.time <= t <= d1.time` the choice is no farther from `t` than either, and `d0` on a tie |
| `NearestSample.ResolveNearest` | src/TideVisualization.js:151-166 | no sample exactly for an empty series; the sample comes from the series; a one-sample series gives that sample; on a chronological series the sample minimises `|time - t|` over the whole series, every strictly earlier sample is strictly farther, `t` at or before the first sample gives the first, `t` after the last gives the last |
| `NearestSample.NeighbourIsNearest` | src/TideVisualization.js:154-164 | given the partition a bisection from index 1 returns, the chosen neighbour is nearest over the whole series and every strictly earlier sample is strictly farther |
| `Scenarios.HoverBetweenSamples` | src/TideVisualization.js:151-164 | levels at 09:00, 10:00 and 11:00 with the pointer at 09:40 resolve to the 10:00 sample |
| `Scenarios.WindowsForTwoTides` | src/TideVisualization.js:189-203 | a high tide at 08:00 and a low tide at 14:12 give windows 06:00-10:00 and 12:12-16:12 in that order |
| `Scenarios.OverlappingWindowsKept` | src/TideVisualization.js:189-203 | high tides at 09:00 and 08:00 give two overlapping windows, both kept, ordered by start |

## Left out

- Fetching: the two requests to the NOAA data service, the join of both
  responses and the logging of a failed request. These are network I/O.
- Parsing of the provider's timestamp and number strings. Records enter the
  model already typed.
- The resize observer and the React component around the chart. These are
  callback plumbing.
- All drawing: axes, the line and area paths, their animation, the gradient,
  the clip path, the highlight rectangles and the tooltip markup.
- The pixel mapping of the scales and the inversion of the pointer position.
  These are floating-point scale arithmetic. The pointer's time is an input of
  `ResolveNearest`.
- The current-time line. It reads the wall clock.
- `WindowAround`: the window end as the code literally computes it is not
  modelled. JavaScript turns `Date + number` into a string that is parsed
  back into a date. The model uses the intended sum instead.
- `BisectLeft`: d3's early return for an incomparable query (a `NaN` time)
  is not modelled, because integer times are always comparable. The
  midpoint `(lo + hi) >>> 1` is modelled as `(lo + hi) / 2`, which agrees
  for the non-negative indices involved.
- Levels are exact reals. The multiplication by `0.10` and the subtractions
  round in binary floating point in the source.
- `SortByStart`: the engine's own sorting algorithm is not modelled. An
  insertion sort stands in for it. `SortedWindowsUnique` shows every correct
  sort gives the same list.
