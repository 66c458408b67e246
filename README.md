# SpaceX launch records dashboard — a Dafny model of its chart callbacks

The dashboard loads a table of launch records and draws two charts. Each record
has a launch site, a payload mass, an outcome class (1 success, 0 failure) and a
booster version category. The page has a site dropdown, whose value is a site
name or the sentinel `"ALL"`, and a payload range slider.

- `get_pie_chart` with `"ALL"` keeps the successful launches and gives the
  chart one slice per launch site. With a single site it keeps that site's
  launches and counts them per outcome class (`value_counts`). The two classes
  have fixed colours.
- `get_scatter_chart` keeps the launches whose payload lies in `[low, high]`,
  ends included. Unless `"ALL"` is selected it also keeps only the selected
  site. It then plots payload against class, coloured by booster category.
- The slider starts at `[min_payload, max_payload]`, the extremes of the
  payload column.

The model writes these as pure functions over the table (`seq<Row>`). Each
Plotly figure is reduced to the data the callback hands to the charting
library. The files are:

- `frames.dfy` (module `Frames`): the row type and pandas boolean masks.
  A mask is a `Cond` value, and `Both` is the element-wise `&`. `Select` is
  `df[mask]`, and `MinPayload`/`MaxPayload` are the column's `min()`/`max()`.
- `value_counts.dfy` (module `ValueCounts`): the count table of a column, as
  a map from value to number of occurrences. `MapSum` adds up its counts.
- `dashboard.dfy` (module `Dashboard`): the two callbacks, the default slider
  range and the properties of all three.

A pie chart given only a `names` column sums one unit per row for each name.
The model writes that aggregation as a count table, like `value_counts`.

A single site's pie has one slice per outcome class that occurs at the site:
one slice when the site has only successes, none for a site with no rows. The
slider's limits are fixed at 0 and 10000 (dashboard_ds.py:51); only its
initial value comes from the data (dashboard_ds.py:53).

## Model

| member | source | states |
|---|---|---|
| `Frames.Select` | dashboard_ds.py:102 | a mask keeps no more rows than the table has, and every row it keeps satisfies the mask |
| `Frames.SelectCounts` | dashboard_ds.py:101-102 | a row occurs in the masked table as often as in the table when the mask is true on it, and not at all otherwise |
| `Frames.SelectIsSubsequence` | dashboard_ds.py:102 | masking keeps rows unchanged and in table order (the result is a subsequence of the table) |
| `Frames.SelectSelect` | dashboard_ds.py:101-114 | masking by one mask and then by another equals masking once by their `&` |
| `Frames.SelectAppend` | dashboard_ds.py:102 | masking a concatenation is the concatenation of the masked parts |
| `Frames.SelectSkipsRejected` | dashboard_ds.py:72 | a row the mask is false on changes nothing, wherever it is inserted |
| `Frames.SelectMembership` | dashboard_ds.py:102 | a row is in the masked table exactly when it is in the table and the mask is true on it |
| `Frames.SelectNothing` | dashboard_ds.py:101 | a mask that holds on no row of the table keeps nothing |
| `Frames.SelectEverything` | dashboard_ds.py:101-102 | a mask that holds on every row of the table keeps the whole table |
| `Frames.MaxPayload` | dashboard_ds.py:18 | the column maximum exists exactly for a non-empty table; it bounds every payload from above and is some row's payload |
| `Frames.MinPayload` | dashboard_ds.py:19 | the column minimum exists exactly for a non-empty table; it bounds every payload from below and is some row's payload |
| `ValueCounts.Tally` | dashboard_ds.py:79 | the count table has one key per distinct value of the column, and each count is that value's number of occurrences, which is positive |
| `ValueCounts.TallyTotal` | dashboard_ds.py:79 | the counts of a count table add up to the length of the column |
| `ValueCounts.TallySizeBound` | dashboard_ds.py:79 | a count table has no more entries than the set of values the column can take |
| `Dashboard.Sites` | dashboard_ds.py:73 | the 'Launch Site' column the `"ALL"` pie aggregates by (`names='Launch Site'`): one entry per row, each that row's site, in row order |
| `Dashboard.Classes` | dashboard_ds.py:79 | the 'class' column that `value_counts` counts: one entry per row, each that row's class, in row order |
| `Dashboard.GetPieChart` | dashboard_ds.py:69-91 | the chart aggregates by site exactly when `"ALL"` is selected; for one site the colour map is fixed, class 1 `#42f56c` and class 0 `#f54242`, whatever the counts (dashboard_ds.py:88) |
| `Dashboard.PieAllSitesSlices` | dashboard_ds.py:70-76 | with `"ALL"`, a site has a slice exactly when it has a successful launch, and the slice is its number of successful launches |
| `Dashboard.PieAllSitesTotal` | dashboard_ds.py:70-76 | with `"ALL"`, the slices add up to the number of successful launches |
| `Dashboard.PieAllSitesIgnoresFailures` | dashboard_ds.py:72 | with `"ALL"`, inserting a failed launch anywhere in the table leaves the chart unchanged |
| `Dashboard.PieSiteSlices` | dashboard_ds.py:77-80 | for one site, a class has a slice exactly when the site has a launch of that class; the slice is that number of launches, and it is positive |
| `Dashboard.PieSiteTotal` | dashboard_ds.py:78-79 | for one site, the slices add up to the number of that site's launches |
| `Dashboard.PieSiteAtMostTwoSlices` | dashboard_ds.py:78-79 | when every class is 0 or 1, a site's pie has at most two slices |
| `Dashboard.PieAbsentSiteIsEmpty` | dashboard_ds.py:78-79 | a site with no launches in the table gets a pie with no slices |
| `Dashboard.ScatterRows` | dashboard_ds.py:100-114 | the scatter selection has no more rows than the table, and every row in it has a payload in `[low, high]` and, unless `"ALL"` is selected, the selected site |
| `Dashboard.GetScatterChart` | dashboard_ds.py:105-122 | the chart has one point per selected row, in selection order, and the i-th point is `PointOf` of the i-th selected row: the x = payload, y = class, colour = booster mapping of dashboard_ds.py:107-109 and 117-119; with `ScatterRowsExact` and `ScatterRowsInOrder` this fixes which points appear, how often and in what order |
| `Dashboard.ScatterRowsExact` | dashboard_ds.py:100-114 | a row is plotted, as often as it occurs, exactly when `low <= payload <= high` and the site is `"ALL"` or the row's site; otherwise it is not plotted |
| `Dashboard.ScatterRowsInOrder` | dashboard_ds.py:101-114 | the scatter selection keeps rows unchanged and in table order |
| `Dashboard.ScatterPointsFromTable` | dashboard_ds.py:104-122 | every point is the (payload, class, booster) of a launch in the table that is in range and from the selected site |
| `Dashboard.ScatterPointsComplete` | dashboard_ds.py:101-122 | every launch in the table that is in range and from the selected site (or any site with `"ALL"`) appears in the chart as its (payload, class, booster) point |
| `Dashboard.ScatterInvertedRangeIsEmpty` | dashboard_ds.py:101 | when `low > high` the selection and the chart are empty, whatever the site |
| `Dashboard.DefaultPayloadRange` | dashboard_ds.py:18-19 | the default range exists exactly for a non-empty table; its low end is at most its high end, every payload lies within it, and both ends are payloads of rows, so they are the column's minimum and maximum |
| `Dashboard.DefaultScatterShowsEverything` | dashboard_ds.py:53 | for a non-empty table, `"ALL"` with the default range `[min_payload, max_payload]` keeps the whole table |
| `Dashboard.ThreeLaunchesPieAllSites` | dashboard_ds.py:70-76 | for launches (A, 500, success), (A, 1500, failure) and (B, 2000, success), the `"ALL"` pie is A ↦ 1, B ↦ 1 |
| `Dashboard.ThreeLaunchesPieSiteA` | dashboard_ds.py:77-89 | for the same launches, site A's pie is 1 ↦ 1, 0 ↦ 1 |
| `Dashboard.ThreeLaunchesScatter` | dashboard_ds.py:99-114 | for the same launches, `"ALL"` with range [0, 1000] plots only the 500 kg launch |

Both callbacks are functions of their arguments and the table. So calling
either one twice with the same inputs gives the same chart by construction,
and no lemma states it.

## Left out

- Loading the CSV and the `wget` download when the file is missing (dashboard_ds.py:11-16) are file and network I/O. The table is a parameter of every function.
- The Dash app, the Bootstrap layout, the dropdown's option list and the slider's limits, step and marks (dashboard_ds.py:22-62) are UI configuration with no logic. The site is any string, so the model also covers sites the dropdown does not offer.
- Callback registration and `app.run()` (dashboard_ds.py:65-68, 94-98, 127-128) are framework plumbing.
- Plotly figure construction is not modelled: `px.pie`, `px.scatter`, titles, template and `update_layout(transition_duration=500)`. Only the data handed to the library is. The per-name aggregation of a pie given no `values` column is modelled as a count per site, but it is not checked against the library.
- The descending-count row order of `value_counts` and the column rename on line 80 are library behaviour and cosmetics. The count table is a map.
- Colours for class values other than 0 and 1 are not modelled. Plotly picks them from its default sequence.
- Payloads are integers. Floating-point payloads and NaN cells are not modelled. The NaN that `min()`/`max()` give for an empty table is `None`.
- A cleared dropdown, whose value is `None`, is not modelled. The mask `site == None` keeps no row, so it behaves like a site absent from the table.
- A slider value that is not a two-element list, which would make `low, high = payload_range` raise, is not modelled. The range is two integer parameters.
