# Pokémon dashboard: a Dafny model of its data logic

The dashboard (`Homework3/ktachasooksaree/main.js`) is one D3 script. It loads a table of
Pokémon and draws three linked views. Most of the script draws SVG. This project models the
logic under the drawing, over integers and sequences:

- **Aggregation** (`aggregation.dfy`, module `Aggregation`). Records are grouped by body
  style (`d3.nest`), in the order each body style first appears. Each group becomes a row of
  six counters `gen1`..`gen6`. The rows are stacked column by column (`d3.stack` with its
  default order and offset). The maxima of the stack and of one column become the vertical
  domain.
- **Drill-down bar view** (`bar_view.dfy`, module `BarView`). A two-state machine,
  `Overview` and `Filtered(g)`. Its session holds the domain maximum, whether `.nice()` was
  applied to that domain, the bound bar set, legend visibility, back-control visibility and
  the subtitle. `Step` is the pure transition function and `InState` says what each state
  shows. The class `BarChart` holds the same fields and has the two handlers, `UpdateBar`
  and `ResetView`, each proved to perform one `Step`.
- **Scatter culling** (`scatter.dfy`, module `Scatter`). On every zoom event each rescaled
  coordinate is kept if it lies in the closed plot interval. Otherwise it becomes `-1000`.
  No point is removed.
- **Colour counts** (`color_count.dfy`, module `ColorCount`). `CountColors` is the
  `reduce` that fills an object key by key, followed by `Object.entries`. It is written as a
  loop over a map and proved equal to `Entries`, the declarative definition.
- `counting.dfy` (module `Counting`) holds the shared sequence facts: first-seen distinct
  elements, sums and multiset tallies. `records.dfy` holds the record type.
  `scenarios.dfy` works through a three-record example.

Decisions the code makes that a reader might not expect:

- The filtered domain is `[0, max]` with no minimum span (main.js:238). It cannot be
  `[0, 0]` after a click, though: a segment whose counter is 0 is drawn with no height
  (main.js:94), so it offers nothing to click, and `Clickable` requires a positive height.
  `RoundTrip` proves the filtered maximum is then at least 1.
- Only the initial domain is `.nice()`d (main.js:75). `updateBar` and `resetView` set the
  domain without it. A round trip therefore returns the same maximum. It does not return
  the niced domain of setup (`RoundTripFromSetup`).
- `resetView` sets the subtitle to the setup text without its final period
  (main.js:144, 332). The round trip restores the domain, the bars and both visibilities,
  but not the exact subtitle.
- An empty table makes `Object.keys(data[0])` throw (main.js:60). The throw ends the whole
  data callback: lines 61-561 never run, so no view is built at all (neither the bar chart,
  nor the scatter plot, nor the pie), and `.catch` logs the error (main.js:563-565).
  `LayerKeys` returns `None` for no rows, and `BarChart`'s constructor requires a non-empty
  table. `CountColors([])` and `Zoomed([], ...)` are defined but have no counterpart in the
  program.
- A record whose generation is not exactly `'1'`..`'6'` is counted in no column. A row's
  counters then add up to less than its group's size.

## Model

| member | source | states |
|---|---|---|
| `Aggregation.Nest` | Homework3/ktachasooksaree/main.js:39-41 | nesting yields exactly as many groups as there are distinct body styles (what each group holds is stated by `NestPartitions`) |
| `Aggregation.ToRow` | Homework3/ktachasooksaree/main.js:44-52 | every row has exactly the six counters `gen1`..`gen6` |
| `Aggregation.Rows` | Homework3/ktachasooksaree/main.js:44 | there is one row per group |
| `Aggregation.Stack` | Homework3/ktachasooksaree/main.js:61-63 | the stack has one layer per key, each with one segment per row |
| `Aggregation.NestPartitions` | Homework3/ktachasooksaree/main.js:39-41 | one group per distinct body style, keys pairwise distinct, every group non-empty; each group holds every record of its key exactly as often as the table does and no other record; group sizes sum to the number of records |
| `Aggregation.WithBodyStyleMultiset` | Homework3/ktachasooksaree/main.js:39-41 | selecting the records of one body style keeps each of them as often as the table holds it and drops every other record |
| `Aggregation.NestFirstSeenOrder` | Homework3/ktachasooksaree/main.js:39-41 | groups are ordered by the first appearance of their body style in the table |
| `Aggregation.RowsCount` | Homework3/ktachasooksaree/main.js:44-52 | one row per group in group order, empty exactly when the table is; counter `gen(k+1)` equals the number of records of that body style whose generation is exactly the k-th tag |
| `Aggregation.RowTotalAccountsForGroup` | Homework3/ktachasooksaree/main.js:46-51 | the six counters plus the records with any other generation equal the group size, so the counters add up to at most the group size |
| `Aggregation.FiltersCommute` | Homework3/ktachasooksaree/main.js:44-52 | filtering by body style then generation gives the same records as filtering by generation then body style |
| `Aggregation.GenKeysNameTags` | Homework3/ktachasooksaree/main.js:106 | each stacking key is `gen` followed by its tag, so removing `gen` gives the tag shown in titles and the subtitle |
| `Aggregation.Counter` | Homework3/ktachasooksaree/main.js:44-52 | a row object holds a counter exactly under the property names after `bodyType` |
| `Aggregation.LayerKeys` | Homework3/ktachasooksaree/main.js:60 | the stacking keys are the first row's property names after `bodyType` (missing exactly when there is no row): six names, none of them `bodyType`, the `k`-th reading counter `gen(k+1)` of every row |
| `Aggregation.StackFollowsLayerKeys` | Homework3/ktachasooksaree/main.js:60-64 | layer `i` is tagged with the `i`-th stacking key, and each of its segments is as tall as the counter that key reads from its row |
| `Aggregation.StackTiles` | Homework3/ktachasooksaree/main.js:60-64 | per body type, segments in key order start at 0, each starts where the previous ends, each is as tall as its counter (`d[1] - d[0]`), and the last ends at the row total |
| `Aggregation.TopMax` | Homework3/ktachasooksaree/main.js:74 | the overview maximum is the upper bound of some top-layer segment and at least every one (its meaning as the largest row total is `TopMaxIsLargestTotal`) |
| `Aggregation.Max` | Homework3/ktachasooksaree/main.js:74 | the maximum of a non-empty sequence is one of its members and is at least every member |
| `Aggregation.TopMaxIsLargestTotal` | Homework3/ktachasooksaree/main.js:74 | the largest upper bound of the top layer is the largest row total: at least every total and equal to one |
| `Aggregation.ColumnMaxBelowTopMax` | Homework3/ktachasooksaree/main.js:238 | the filtered maximum is reached by a counter of the clicked column, bounds all of them, and is at most the stacked maximum |
| `BarView.FilterBars` | Homework3/ktachasooksaree/main.js:231-235 | one bar per row, none taller than its row's total (that each is the clicked column's segment is `FilteredView`) |
| `BarView.InitialSession` | Homework3/ktachasooksaree/main.js:39-227 | setup's session has the niced domain, the legend shown and the back control hidden, its maximum at least every row total (stated in full by `InitialIsOverview`) |
| `BarView.Clicked` | Homework3/ktachasooksaree/main.js:229-285 | after `updateBar` the legend is hidden, the back control shown, one bar per row, none above the domain maximum (stated in full by `FilteredView` and `FilteredDomain`) |
| `BarView.BackClicked` | Homework3/ktachasooksaree/main.js:287-340 | after `resetView` the legend is shown, the back control hidden, the bars stacked, and the maximum is at least every row total (stated in full by `FilteredTransitions` and `RoundTrip`) |
| `BarView.Step` | Homework3/ktachasooksaree/main.js:84-340 | only a segment click (handler wired at 104) on stacked bars or a click on the displayed back control (198, 205) changes the session; afterwards the back control is shown exactly after a segment click and the legend exactly when the back control is not (per state: `OverviewTransitions`, `FilteredTransitions`) |
| `BarView.InitialIsOverview` | Homework3/ktachasooksaree/main.js:73-227 | setup shows the overview: stacked bars, stacked maximum (niced), legend shown, back control hidden |
| `BarView.OverviewTransitions` | Homework3/ktachasooksaree/main.js:84-106 | in the overview a stacked segment's click leads to `Filtered` of its column exactly when its counter is positive (a zero counter draws a segment of no height, main.js:94); the hidden back control does nothing |
| `BarView.FilteredTransitions` | Homework3/ktachasooksaree/main.js:247-285 | in `Filtered(g)` no bar is clickable, so there is no `Filtered(g) -> Filtered(g')` step; the back control leads to the overview |
| `BarView.FilteredView` | Homework3/ktachasooksaree/main.js:229-235 | `updateBar` gives one bar per body type in row order, keyed by the clicked column, each as tall as that column's segment for its body type |
| `BarView.FilteredDomain` | Homework3/ktachasooksaree/main.js:237-278 | the filtered domain maximum is reached by a bar, bounds all of them and is at most the stacked maximum; the subtitle is `Generation ` followed by the clicked key without `gen` |
| `BarView.RoundTrip` | Homework3/ktachasooksaree/main.js:287-340 | `Overview -> Filtered(g) -> Overview` restores the domain maximum, the stacked bar set, legend and back-control visibility; the filtered maximum reached by a click is at least 1 |
| `BarView.RoundTripFromSetup` | Homework3/ktachasooksaree/main.js:330-332 | from the setup session the round trip returns the subtitle without its final period and a domain without `.nice()` |
| `BarView.BarChart.constructor` | Homework3/ktachasooksaree/main.js:39-227 | setup groups and stacks the table into rows (39-64), sets the niced stacked maximum (73-76), the initial subtitle (144) and hides the back control (226-227): the initial overview session |
| `BarView.BarChart.UpdateBar` | Homework3/ktachasooksaree/main.js:229-285 | a click on a stacked segment performs the `Step` to `Filtered` of its column and keeps the state invariant |
| `BarView.BarChart.ResetView` | Homework3/ktachasooksaree/main.js:287-340 | a click on the displayed back control performs the `Step` back to the overview and keeps the state invariant |
| `Scatter.Cull` | Homework3/ktachasooksaree/main.js:454-461 | a culled coordinate is the original or `-1000`, and it is visible exactly when the original is (stated in full by `CullKeepsVisible` and `CullEdges`) |
| `Scatter.Zoomed` | Homework3/ktachasooksaree/main.js:444-462 | a zoom keeps one point per record, each coordinate visible or at `-1000` (per axis: `ZoomedKeepsEveryPoint`) |
| `Scatter.CullKeepsVisible` | Homework3/ktachasooksaree/main.js:454-461 | a culled coordinate is visible iff the original is; it is the original when visible and `-1000` otherwise, and `-1000` is never visible |
| `Scatter.CullEdges` | Homework3/ktachasooksaree/main.js:456 | both edges of the plot are visible; one unit beyond either edge is culled |
| `Scatter.CullIdempotent` | Homework3/ktachasooksaree/main.js:459-460 | culling an already culled coordinate changes nothing |
| `Scatter.ZoomedKeepsEveryPoint` | Homework3/ktachasooksaree/main.js:444-462 | a zoom keeps one point per record in order, culling each axis independently |
| `ColorCount.Entries` | Homework3/ktachasooksaree/main.js:482-483 | at most one entry per record, each naming a colour of the table with a count of at least 1 (stated in full by `EntriesCountRecords` and `EntriesFirstSeenOrder`) |
| `ColorCount.CountColors` | Homework3/ktachasooksaree/main.js:482-483 | the accumulator loop and the entries listing give exactly `Entries`: distinct colours in first-seen order with their counts |
| `ColorCount.EntriesCountRecords` | Homework3/ktachasooksaree/main.js:482-483 | one entry per distinct colour, colours pairwise distinct, each count the number of records of that colour and at least 1, counts summing to the number of records |
| `ColorCount.EntriesFirstSeenOrder` | Homework3/ktachasooksaree/main.js:483 | entries follow the first appearance of their colour in the table |
| `Scenarios.SampleNest` | Homework3/ktachasooksaree/main.js:39-41 | three records with body types A, A, B nest into group A (two records) then group B |
| `Scenarios.SampleRows` | Homework3/ktachasooksaree/main.js:44-52 | those groups become the rows A: gen1 = gen2 = 1 and B: gen1 = 1 |
| `Scenarios.SampleSessions` | Homework3/ktachasooksaree/main.js:231-238 | over those rows the overview maximum is 2, and the session after a click in column gen1 has bars A:1, B:1 with maximum 1 |
| `Scenarios.SampleView` | Homework3/ktachasooksaree/main.js:73-285 | from the sample's setup, a click on the first segment is a step to `Filtered(0)` with bars A:1, B:1 and maximum 1 |

## Left out

- SVG and DOM construction is not modelled: axes, axis labels, titles, the legend layout and the tooltip div with its positioning (main.js:33-35, 109-224, 365-432, 487-561). It is rendering only.
- The d3 scales are not modelled: `scaleBand`, `scaleLinear`, the ordinal colour scale and the `.nice()` rounding. The vertical domain is its maximum, plus a flag that says whether `.nice()` was applied. Filtered bars carry their column instead of its colour.
- The zoom behaviour is not modelled: its scale extent, gestures, `rescaleX`/`rescaleY` and the `zoomIdentity` reset (main.js:435-441, 446-451, 464-476). `Zoomed` takes the two rescaled scales as functions on integers.
- Coordinates are integers, not floating-point pixels. A `NaN` coordinate, which fails both comparisons and so is culled, has no counterpart.
- Animated transitions and their durations are not modelled (main.js:242-244, 269-273, 292-295, 475, 510-522). Only the final values are.
- CSV loading, the `.catch` logging and `console.log(nestedData)` are I/O (main.js:31, 108, 563-565).
- The `Number()` coercion of HP, Attack and Defense is not modelled (main.js:344-348). The records carry integer metrics already.
- The window-derived layout constants and the colour palette are configuration, not logic (main.js:1-29). The plot bounds are parameters.
- The bar chart's hover handlers only change the hovered bar's opacity (main.js:96-103, 249-256), so the model records only which bars are clickable. The pie's hover handlers also fade, fill and position the tooltip (main.js:507-523); that is rendering, covered by the first line. Hit-testing is reduced to one rule: a segment of zero height cannot be clicked.
- BarView.BarChart.UpdateBar: the bar set is modelled as data, not as DOM elements. The join keys bars by body type; applied to the old stacked rectangles, that key is `undefined`, so every old rectangle exits unless a body type is literally the text `undefined`. In that case only the first such old rectangle in document order is matched; every later one with the same key exits. The matched rectangle is merged into the update (main.js:268), so it moves to the new `y`, `height` and `fill` (main.js:271-273), but it keeps its old `x`, its old `width` and its click handler. The model does not capture that rectangle. The emptied layer groups that stay in the DOM are not modelled either.
- ColorCount.Entries: lists colours in first-seen order. `Object.entries` would list integer-like colour names (such as `"7"`) first, in ascending numeric order. Colour names that are inherited object properties (such as `"constructor"`) would make the missing-key default misbehave. Neither occurs among colour names, and neither is modelled.
- `d3.nest` and `d3.stack` are library code that is not part of this model. They are stated by their default behaviour: groups in first-seen key order, and per row cumulative offsets from 0 in key order.
- The pie layout and arcs are not modelled (main.js:485-523). Only their input, the colour counts, is.
