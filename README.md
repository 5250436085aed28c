# SpaceX launch-records dashboard: the data behind the charts

The dashboard loads a table of SpaceX launch records once at start-up. Each record has a launch site, a payload mass in kg, a booster version category and a `class` (1 for a success, 0 for a failure). It then shows:

- a dropdown of launch sites, with an extra "All Sites" entry;
- a payload range slider that starts at the smallest and largest payload in the table;
- a pie chart of successes. For "All Sites" there is one slice per site, sized by the site's successes. For one site there is one slice per outcome value, sized by the number of launches with that outcome;
- a scatter chart of payload against outcome. It shows the launches whose payload is in the slider's range and, unless "All Sites" is chosen, whose site is the chosen site.

This project models the data each of these is computed from, as functions of the table. The table is the parameter `data: seq<LaunchRecord>` instead of a module-level global. The model proves what each function computes.

- `tabular.dfy`, module `Tabular`: the pandas operations the app uses, over a table held as a sequence of rows.
  - Boolean-mask selection is `Filter`, `KeyMask` and `WithKey`.
  - Column access is `Column`.
  - `groupby(...).sum()` is `GroupSum`. Its reference definition is `SumWhere`.
  - `value_counts()` is `GroupSum` with a weight of 1 per row.
  - `unique()` is `Distinct`.
  - `min()` and `max()` are `Min` and `Max`.
  - Supporting definitions: `IsSubsequence` (order kept, nothing duplicated), `FirstIndex` and `SumOver` (the total of a map's values, in any order).
- `dashboard.dfy`, module `Dashboard`: the app itself.
  - `LaunchRecord` is one row of the table.
  - `MinPayload` and `MaxPayload` give the slider's default range.
  - `LaunchSites` and `SiteOptions` give the dropdown entries.
  - `ScatterPoints` gives the scatter callback's rows.
  - `SuccessesBySite`, `OutcomeCounts` and `PieChart` give the pie callback's data.
  - Lemmas relate these pieces to each other.

Every function is pure, and the table is a value, so no operation can change the table. Calling a function twice with the same arguments gives the same result.

The model follows the code in these details, where one might expect otherwise:

- The code does not require `low <= high`. A range with `low > high` selects nothing, and `ScatterPoints` returns the empty sequence.
- For a single site, the code counts each `class` value that occurs among that site's launches. It does not always count both 0 and 1: an outcome with no launches has no entry. A site with no launches gives an empty map.
- The selector is compared as a string with `"ALL"`, as in the code. A launch site that was itself named "ALL" would be treated as "All Sites".

## Model

| member | source | states |
|---|---|---|
| `Tabular.Filter` | spacex_dash_app.py:67 | a boolean-mask selection keeps exactly the rows the mask accepts: the same number of copies as in the table, in table order (a subsequence), never more rows than the table |
| `Tabular.FilterKeepsAll` | spacex_dash_app.py:67 | a mask that accepts every row returns the table unchanged |
| `Tabular.FilterCommutes` | spacex_dash_app.py:67-74 | applying two masks one after the other selects the same rows in either order |
| `Tabular.SubsequenceTransitive` | spacex_dash_app.py:74 | a selection taken from a selection of the table is still a subsequence of the table |
| `Tabular.WithKey` | spacex_dash_app.py:53 | `df[df[key] == k]` holds exactly the rows whose key is `k` |
| `Tabular.Column` | spacex_dash_app.py:17 | a column has one entry per row, and entry `i` is row `i`'s value |
| `Tabular.GroupSum` | spacex_dash_app.py:49 | `groupby(key).sum()` has one entry for each key value in the column and no others; the sum for any key equals that entry, or 0 when the key is absent |
| `Tabular.SumWhereSelected` | spacex_dash_app.py:49 | the one-pass group sum of a key equals the sum over the rows that the key's mask selects |
| `Tabular.GroupSumOfSelections` | spacex_dash_app.py:49 | every group sum is the weight summed over the rows `df[df[key] == k]` |
| `Tabular.GroupSumTotal` | spacex_dash_app.py:49 | the group sums add up to the weight summed over the whole table |
| `Tabular.SumOfOnes` | spacex_dash_app.py:54 | summing a weight of 1 per row counts the rows, which is what `value_counts` does |
| `Tabular.Distinct` | spacex_dash_app.py:17 | `unique()` holds every value of the column and nothing else, each exactly once |
| `Tabular.DistinctInFirstOccurrenceOrder` | spacex_dash_app.py:17 | `unique()` lists the values in the order of their first occurrence in the column |
| `Tabular.FirstIndex` | spacex_dash_app.py:17 | the position of a value's first occurrence: the value is there, and at no earlier position |
| `Tabular.Max` | spacex_dash_app.py:10 | the maximum is in the column and is at least every entry; there is none only for an empty column |
| `Tabular.Min` | spacex_dash_app.py:11 | the minimum is in the column and is at most every entry; there is none only for an empty column |
| `Dashboard.MaxPayload` | spacex_dash_app.py:10 | `max_payload` bounds every record's payload from above and is some record's payload; it is absent only for an empty table |
| `Dashboard.MinPayload` | spacex_dash_app.py:11 | `min_payload` bounds every record's payload from below and is some record's payload; it is absent only for an empty table |
| `Dashboard.LaunchSites` | spacex_dash_app.py:17 | the launch sites are every site in the table, each exactly once |
| `Dashboard.SiteOptions` | spacex_dash_app.py:19-20 | the dropdown offers "All Sites" with value `ALL` first, then each launch site of the table exactly once, labelled by its own name, in first-occurrence order, and no other value |
| `Dashboard.BySite` | spacex_dash_app.py:53 | the site restriction keeps exactly the table's records from that site |
| `Dashboard.ByPayload` | spacex_dash_app.py:67 | the payload mask keeps exactly the records with `low <= payload <= high`, both ends included |
| `Dashboard.ScatterPoints` | spacex_dash_app.py:66-74 | the scatter rows are exactly the in-range records, restricted to the chosen site unless it is `ALL`; each appears as many times as in the table, in table order |
| `Dashboard.ScatterEmptyIffNoMatch` | spacex_dash_app.py:67-74 | the scatter rows are empty exactly when no record matches, and an empty match is an empty result, not an error |
| `Dashboard.ScatterSinglePayload` | spacex_dash_app.py:67 | with `low == high`, only records with exactly that payload are plotted, and all of them are |
| `Dashboard.ScatterSiteFirst` | spacex_dash_app.py:67-74 | for a specific site, restricting by site first and by payload second gives the same rows |
| `Dashboard.InitialScatterShowsEveryLaunch` | spacex_dash_app.py:29-38 | at start-up (dropdown `ALL`, slider `[min_payload, max_payload]`) the scatter chart plots the whole table, in order |
| `Dashboard.SuccessesBySite` | spacex_dash_app.py:49 | one entry per distinct launch site, holding the sum of `class` over that site's records; the entries add up to the table's total `class` |
| `Dashboard.OutcomeCounts` | spacex_dash_app.py:53-54 | one entry per distinct `class` value, holding the number of records with that value; every count is positive and the counts add up to the number of records |
| `Dashboard.PieChart` | spacex_dash_app.py:47-56 | `ALL` gives the per-site successes. Any other value gives the per-outcome counts of that site's launches, which add up to the site's launch count and are empty exactly when the site has no launch |
| `Dashboard.SiteHasLaunches` | spacex_dash_app.py:53-54 | a site is in the site column exactly when its restriction is non-empty, which is exactly when its outcome counts are non-empty |
| `Dashboard.OfferedSitesHaveLaunches` | spacex_dash_app.py:19-20 | every site the dropdown offers has launches, so its pie has at least one slice |
| `Dashboard.SumCountsSuccesses` | spacex_dash_app.py:49 | with 0/1 outcomes, the sum of `class` is the number of successful launches |
| `Dashboard.SitePiesAgree` | spacex_dash_app.py:47-56 | with 0/1 outcomes, a site's slice in the `ALL` pie equals the `1` slice of that site's own pie (0 if it has none) and lies between 0 and the site's launch count |

## Left out

- Loading the table from the remote CSV (spacex_dash_app.py:9) is network I/O. The table is a parameter.
- Dash app creation, the page layout, the widgets, the callback registration and `app.run_server` (spacex_dash_app.py:14, 23-40, 43-46, 60-64, 82-83) are framework wiring. The model covers the values the callbacks compute.
- Building the figures with `px.pie` and `px.scatter` (titles, colours, axes) is done by the plotting library. The model's output is the data passed to it. The scatter rows carry the booster category, which the chart uses for colour.
- The `names='index'` column label of the single-site pie (spacex_dash_app.py:55) depends on the pandas version. The counts are keyed by the `class` value instead.
- The row order of the `groupby` and `value_counts` results is not modelled; it only changes the order of the pie slices. Both results are maps.
- Payloads are integers in kg. pandas holds them as floating-point numbers, and rows with NaN are out of scope.
- Dashboard.MaxPayload: returns `None` for an empty table, where pandas returns NaN. What the slider does with a NaN default is not modelled.
- Dashboard.MinPayload: returns `None` for an empty table, where pandas returns NaN, as for `MaxPayload`.
- The slider's bounds (0 to 10000), its step and its marks (spacex_dash_app.py:35-37) are not modelled. The callbacks take any integer range.
- A cleared dropdown sends `None` to the callbacks. The model's selector is always a string.
