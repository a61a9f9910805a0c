# Vietnam province map: selection, search, overview and chart datasets

A Dafny model of the logic under the React components of the Vietnam
province map. All four pieces work over one `Province` record: code, name,
English name, optional region, and optional population, area and GDP.

- **Map selection** (`MapSelection`) holds the hovered and the selected
  province code. A class `MapView` has these two fields, the extracted
  province list and the loaded document. It has one method per event:
  mouseover, mouseout, click, search pick and reset. `StyleFor` resolves the
  style of each province with the priority selected > hovered > default.
- **Search** (`Search`) is the three-way substring filter. It matches the name
  and the English name ignoring case, and the code as typed. It keeps catalog
  order and shows at most 8 results. A class `SearchBox` holds `searchTerm`
  and `isOpen`, with one method per handler. `PanelFor` decides what is shown
  under the input.
- **Overview** (`Overview`) keeps the complete provinces, those whose
  population, area and GDP are all truthy (0 counts as missing). It sums over
  them, takes the average area, and runs the two argmax folds over the whole
  list with a strict `>`.
- **Charts** (`Charts`) derives the datasets of the chart modal:
  - the averages;
  - the unit-scaled comparison rows;
  - the top-10 population ranking after a stable sort;
  - the regional rollup, a loop over the sorted provinces into a map with
    insertion-ordered keys;
  - the capped radar axes.

Shared modules:

- `Provinces` holds the record, JavaScript truthiness (`Truthy`, `OrZero` for
  `x || 0`), the complete subset, sums and averages.
- `Seqs` holds a generic `Filter` with its subsequence characterisation.
- `Numbers` holds the two minimums: of lengths (`slice`) and of numbers
  (`Math.min`).
- `Wrappers` holds `Option`.

Numbers are exact `real`s. JavaScript's NaN from an average over an empty
complete subset is `None`. The radar axis distinguishes a finite value, NaN
and minus infinity, because a zero average divides to those.

Three behaviours of the code are easy to miss, and the model keeps each:

- **Mouseout.** Mouseout clears the hover whichever province is left, even
  when another province is hovered by then (`MapView.MouseOut`,
  `LateMouseOut`).
- **Empty term.** `includes("")` is true, so an empty term matches every
  province. Only the `isOpen && searchTerm` guard hides the panel
  (`EmptyTermShowsNothing`).
- **Empty complete subset.** The averages divide by the size of the complete
  subset with no guard, which gives NaN (`Average`, `AxisScore`). The
  overview shows N/A only because `NaN > 0` is false (`AverageAreaLabel`).

## Model

| member | source | states |
|---|---|---|
| MapSelection.StyleFor | src/components/MapComponent.tsx:70-106 | selected style iff the selected code is the province's; hovered iff not selected and the hovered code is the province's; default otherwise |
| MapSelection.AtMostOneHighlighted | src/components/MapComponent.tsx:70-72 | with unique codes, two provinces with the same non-default style are the same province |
| MapSelection.Properties | src/components/MapComponent.tsx:55-59 | the extracted list has the features' length and holds each feature's properties at the same index |
| MapSelection.MapView.StyleOf | src/components/MapComponent.tsx:70-72 | the style the layer of a code is drawn with in the current state: `StyleFor` of the two fields |
| MapSelection.MapView.constructor | src/components/MapComponent.tsx:40-43 | a new view has no hover, no selection, no provinces and no document |
| MapSelection.MapView.LoadFinished | src/components/MapComponent.tsx:47-63 | a failed load changes nothing; a parsed document is stored, and its features' properties become the province list only when `features` is present |
| MapSelection.MapView.MouseOver | src/components/MapComponent.tsx:113-114 | hover becomes the province's code; selection unchanged |
| MapSelection.MapView.MouseOut | src/components/MapComponent.tsx:127-128 | hover is cleared whichever province is left; selection unchanged |
| MapSelection.MapView.Click | src/components/MapComponent.tsx:133-136 | selection becomes the province's code, the province is reported, hover unchanged |
| MapSelection.MapView.SearchSelect | src/components/MapComponent.tsx:157-159 | selection becomes the province's code, the province is reported, hover unchanged |
| MapSelection.MapView.Reset | src/components/MapComponent.tsx:204-206 | selection cleared, null reported, hover unchanged |
| Search.Includes | src/components/SearchBox.tsx:30-32 | `String.prototype.includes`: the needle is a prefix of some suffix; a needle found is no longer than the haystack, and the empty needle is always found |
| Search.IncludesIffOccurs | src/components/SearchBox.tsx:30-32 | `includes` holds iff the needle occurs at some offset of the haystack |
| Search.IncludesLower | src/components/SearchBox.tsx:30-31 | a substring stays a substring when both sides are lowercased |
| Search.Matches | src/components/SearchBox.tsx:30-32 | the filter callback: the lowercased term is in the lowercased name or English name, or the term as typed is in the code; the empty term matches every province |
| Search.Filtered | src/components/SearchBox.tsx:29-33 | every result is a catalog province that matches, and every matching catalog province is a result |
| Search.FilteredIsSubsequence | src/components/SearchBox.tsx:29-33 | the results are exactly the provinces at the matching positions, in catalog order |
| Search.NameMatchIgnoresCase | src/components/SearchBox.tsx:30-31 | a name or English name containing a word matches every term with the same lowercasing |
| Search.CodeIsCaseSensitive | src/components/SearchBox.tsx:30-32 | "hn" does not find code "HN" while "HN" does, and "ha" finds the name "HA" |
| Search.EmptyTermMatchesAll | src/components/SearchBox.tsx:29-33 | the empty term keeps the whole catalog |
| Numbers.Min | src/components/SearchBox.tsx:77 | the length bound of `slice(0, n)`: at most both arguments and equal to one of them |
| Search.PanelFor | src/components/SearchBox.tsx:74-94 | hidden iff closed or the term is empty; "no results" iff visible and nothing matches; otherwise the first min(8, matches) matches |
| Search.EmptyTermShowsNothing | src/components/SearchBox.tsx:74 | with the empty term everything matches, yet the panel is hidden |
| Search.PickedNameMatches | src/components/SearchBox.tsx:35-39 | after a pick the term is the picked name, which finds the picked province, and the closed panel is hidden |
| Search.SearchBox.constructor | src/components/SearchBox.tsx:26-27 | the term starts empty and the panel closed |
| Search.SearchBox.View | src/components/SearchBox.tsx:74-94 | the panel rendered for the current term and open flag: `PanelFor` of the two fields |
| Search.SearchBox.Select | src/components/SearchBox.tsx:35-39 | reports the province, sets the term to its name and closes the panel |
| Search.SearchBox.Clear | src/components/SearchBox.tsx:41-44 | empties the term and closes the panel |
| Search.SearchBox.Change | src/components/SearchBox.tsx:53-56 | sets the term to the typed value and opens the panel |
| Search.SearchBox.Focus | src/components/SearchBox.tsx:57 | opens the panel and keeps the term |
| Provinces.Complete | src/components/StatsOverview.tsx:38 | `filter(p => p.area && p.pop && p.gdp)`: a subsequence no longer than the catalog (membership in `CompleteSpec`) |
| Provinces.Total | src/components/StatsOverview.tsx:40-42 | `reduce((sum, p) => sum + (p.m \|\| 0), 0)`, the sum of the truthy values; no contract of its own, its properties are the `Total*` lemmas |
| Provinces.CompleteSpec | src/components/StatsOverview.tsx:38 | every kept province is a complete catalog province; every complete catalog province is kept |
| Provinces.CompleteIsSubsequence | src/components/ChartModal.tsx:51 | the complete subset is exactly the provinces at the complete positions, in catalog order |
| Provinces.TotalAppend | src/components/StatsOverview.tsx:40-42 | the sum over a concatenation is the sum of the sums |
| Provinces.TotalAtMost | src/components/StatsOverview.tsx:40-42 | values each at most b sum to at most count times b |
| Provinces.TotalPositive | src/components/StatsOverview.tsx:40-42 | positive values over a nonempty list sum to a positive total |
| Provinces.Average | src/components/ChartModal.tsx:52-54 | the average is NaN (None) exactly when there is no complete province |
| Provinces.AverageTimesCount | src/components/ChartModal.tsx:52-54 | an existing average times the complete count is the total over the complete provinces |
| Provinces.AverageAtMost | src/components/ChartModal.tsx:52-54 | a bound on every complete value bounds the average |
| Provinces.AveragePositive | src/components/ChartModal.tsx:52-54 | without negative data and with a complete province, every average exists and is positive |
| Overview.Step | src/components/StatsOverview.tsx:45-48 | one callback of the argmax reduce: it returns the current province or keeps the best; a null best is replaced, and a current province without a truthy value never replaces a best one |
| Overview.Champion | src/components/StatsOverview.tsx:44-56 | the fold is null exactly for an empty list and otherwise returns a list element |
| Overview.ExtendFirstMax | src/components/StatsOverview.tsx:45 | one fold step keeps the first maximum, or moves to the new element only when it is strictly larger |
| Overview.ExtendNoData | src/components/StatsOverview.tsx:45 | before any truthy value the fold holds the first element, and the first truthy value replaces it |
| Overview.ChampionIndex | src/components/StatsOverview.tsx:44-56 | the fold returns the earliest province with the largest truthy value, or the first province when none has a truthy value |
| Overview.Recompute | src/components/StatsOverview.tsx:36-67 | an empty list keeps the previous stats; otherwise the count is the list length, the totals and average are over the complete subset, and the two records come from the folds |
| Overview.CompleteAtMostMax | src/components/StatsOverview.tsx:44-49 | every complete province's value is at most the first maximum's |
| Overview.CompleteHasData | src/components/StatsOverview.tsx:38-49 | a complete province gives the fold a truthy value to pick |
| Overview.AverageAreaAtMostLargest | src/components/StatsOverview.tsx:41-63 | with a complete province, the average area exists and is at most the area of the largest province |
| Overview.AverageAreaLabel | src/components/StatsOverview.tsx:147 | N/A exactly when the average area is NaN or not positive; otherwise a positive value |
| Overview.Rendered | src/components/StatsOverview.tsx:70-72 | nothing is rendered exactly when a province is selected; otherwise the stats |
| Overview.NoCompleteShowsNotAvailable | src/components/StatsOverview.tsx:63 | a nonempty list without complete provinces shows the average area as N/A |
| Charts.Comparison | src/components/ChartModal.tsx:57-73 | `comparisonData`: three rows, for population, area and GDP in that order, each the `ComparisonFor` row |
| Charts.ComparisonFor | src/components/ChartModal.tsx:57-73 | the province value and the average are the raw ones divided by 10^6 (area by 10^3); a missing focal value is 0; the average is NaN exactly without complete provinces |
| Charts.Insert | src/components/ChartModal.tsx:77 | inserts a province before the first one whose population is not larger; one longer, starting with the new province or the old head |
| Charts.SortByPop | src/components/ChartModal.tsx:77 | the comparator sort `(b.pop \|\| 0) - (a.pop \|\| 0)` as a stable insertion sort; same length (order, permutation and stability in the lemmas below) |
| Charts.SortByPopCorrect | src/components/ChartModal.tsx:77 | the sorted list is non-increasing in population and a permutation of its input |
| Charts.SortByPopStable | src/components/ChartModal.tsx:77 | for every population value, the provinces with that value keep their input order |
| Charts.SortByPopTotal | src/components/ChartModal.tsx:77 | sorting keeps every total |
| Charts.Ranked | src/components/ChartModal.tsx:76-77 | `validProvinces` after the in-place sort: the sorted complete provinces, as many as there are complete ones |
| Charts.TopByPopulation | src/components/ChartModal.tsx:76-83 | min(10, complete count) entries naming the sorted provinces in order, population in millions, non-increasing, selected exactly for the focal code |
| Charts.RegionKey | src/components/ChartModal.tsx:87 | `p.region \|\| 'Khác'`: a nonempty key, the region when it is present and nonempty, `Khác` otherwise |
| Charts.Regions | src/components/ChartModal.tsx:97 | the key order of `Object.values(regionData)`: region keys in first-seen order; no contract of its own, its properties are in `RegionsSpec` |
| Charts.RegionsSpec | src/components/ChartModal.tsx:86-95 | the region keys are distinct, include every province's key and name only keys with members |
| Charts.RollupStep | src/components/ChartModal.tsx:87-93 | one reduce step turns the accumulator for a prefix into the accumulator for the prefix plus one province |
| Charts.Rollup | src/components/ChartModal.tsx:86-95 | the keys are the regions in first-seen order; each key's entry holds that region's population total, GDP total and count |
| Charts.RollupCounts | src/components/ChartModal.tsx:86-95 | the group counts add up to the number of provinces rolled up |
| Charts.RollupTotals | src/components/ChartModal.tsx:86-95 | the group totals add up to the total of the provinces rolled up |
| Charts.ExactlyOneGroup | src/components/ChartModal.tsx:87-90 | a province's key is among the regions, and the province lies in a group exactly when the group is its key's |
| Charts.RowOf | src/components/ChartModal.tsx:97-102 | a chart row has the entry's name and count, and population and GDP in millions |
| Charts.RegionChart | src/components/ChartModal.tsx:86-102 | one row per region of the sorted complete provinces, in first-seen order, each the row of that region's entry |
| Charts.RegionChartCoversComplete | src/components/ChartModal.tsx:77-102 | over the regions of the sorted complete provinces, counts add up to the complete count and populations and GDP to the complete totals |
| Numbers.MinReal | src/components/ChartModal.tsx:108 | `Math.min`: at most both arguments and equal to one of them |
| Charts.AxisScore | src/components/ChartModal.tsx:108-118 | NaN exactly for a NaN average or 0/0; minus infinity exactly for a negative value over a zero average; a finite score never exceeds 100 |
| Charts.AxisAtAverage | src/components/ChartModal.tsx:108-118 | a province at the average scores 50 |
| Charts.AxisSaturates | src/components/ChartModal.tsx:108-118 | twice a positive average or more scores the full 100 |
| Charts.AxisMonotone | src/components/ChartModal.tsx:108-118 | against a positive average the score is finite, grows with the value and is non-negative for non-negative values |
| Charts.DensityScore | src/components/ChartModal.tsx:123-124 | the density axis is at most 100, and 0 unless population and area are both truthy |
| Charts.DensityReference | src/components/ChartModal.tsx:123-124 | 300 people per km² scores 100, 150 scores 50, and non-negative data scores at least 0 |
| Charts.RadarOf | src/components/ChartModal.tsx:105-127 | each metric axis is NaN exactly for a NaN average or 0/0; finite axes and the density stay within the full mark 100 |
| Charts.RadarMatchesComparison | src/components/ChartModal.tsx:108-118 | each metric axis is the comparison row's province-to-average ratio times 50, capped at 100 |
| Charts.RadarInRange | src/components/ChartModal.tsx:105-127 | without negative data and with a complete province, all axes are numbers within 0..100 |
| Seqs.FilterPicksPositions | src/components/StatsOverview.tsx:38 | `filter` keeps exactly the elements at the passing positions, in order |

## Left out

- Loading: `fetch`, `response.json()` and the async effect are I/O.
  `MapView.LoadFinished` takes the outcome of the load as a parameter.
- Leaflet:
  - the map container and the GeoJSON layer;
  - the icon setup;
  - the direct `layer.setStyle` calls in the handlers, including the style
    the mouseout handler recomputes from its render's closure;
  - all colour and weight literals.
  These are effects in a foreign library; `Style` stands for the three
  style objects.
- Recharts rendering, the colour table, the active tab and the modal
  open/close markup are presentation.
- `toLocaleString` and `toFixed` are formatting only.
- Floating point: all arithmetic is on exact reals. Rounding and overflow to
  infinity are not modelled. NaN appears only where a division by an empty
  count or a zero average produces it.
- `src/components/ProvinceInfo.tsx` and `src/App.tsx` are presentation and
  prop wiring. They are not part of this model. The record fields `id`,
  `fname`, `fne`, `level`, `clime` and `sort` are not modelled, because no
  modelled logic reads them.
- Search.Lower: lowercases ASCII letters only. `toLowerCase` on Vietnamese
  letters is not modelled.
- Charts.SortByPop:
  - `Array.prototype.sort` with the comparator `(b.pop || 0) - (a.pop || 0)`
    is modelled as a stable insertion sort on a sequence value.
  - The in-place effect on the shared array is modelled only by feeding the
    sorted sequence to the rollup, which is the order the code's reduce
    sees.
- Charts.Rollup:
  - The key order is insertion order. JavaScript enumerates integer-like
    object keys first, in ascending order. A region named like a number
    would come first there.
  - Keys inherited from `Object.prototype` (such as `constructor`) are not
    modelled as already present.
  - The code first creates the entry and then adds to its fields. The model
    stores the updated entry in one map update.
- The search box's clear button appearing only for a non-empty term is
  markup. `Search.SearchBox.Clear` models its handler.
