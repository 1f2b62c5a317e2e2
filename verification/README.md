# DHIS2 dashboard viewer — decision rules in Dafny

The viewer is a Streamlit application (`main.py`) that lists the dashboards of
a DHIS2 server and shows their items as tables, charts and analyses. Most of it
is presentation and HTTP glue. This project models the small pure rules inside
it as immutable datatypes and total functions, and proves what those rules promise:

- **Items** (`items.dfy`, `itemdata.dfy`): how a dashboard item is typed, named,
  judged visualizable, sorted into buckets, and turned into a data table by `get_item_data`.
- **Catalog and listing** (`catalog.dfy`, `listing.dfy`): the paged fetch of all
  dashboards with ownership tagging, the "Mes dashboards" / "Dashboards publics"
  filter, and the four stable sorts of the list view.
- **Visualization data** (`series.dfy`): the two-endpoint fetch chain, header naming and
  shape classification of the analytics answer, and the keyword choice of the
  synthetic data set.
- **Tables** (`tables.dfy`): temporal, geographic, numeric and categorical column
  detection, the data-quality counts, and the gates of the ANOVA and regression views.
- **Performance** (`performance.dfy`): candidate columns, the threshold clamp, the bins
  check and the `pd.cut` banding into Faible / Moyenne / Bonne / Excellente.
- **Regression** (`regression.dfy`): the fallback `linregress` used when scipy is
  missing, the prediction, and the trend label.
- **Support** (`filenames.dfy`, `strings.dfy`, `numbers.dfy`, `outcomes.dfy`):
  `clean_filename`, and the Python operations the rules rely on (`lower`, `in`,
  `strip`, slicing with "...", decimal rendering, `min`/`max`). `Option` models
  absent keys, `Field` tells an absent key from a JSON `null`, and `Result`
  models raised exceptions.

Python exceptions that a rule can actually reach are modelled, not excluded.
A `text: null` item makes `len`/`strip` raise. A `user: null` dashboard, or a
null `pager` or `pageCount`, makes the paged fetch return `[]`. A null name,
`created` or `dashboardItems` makes the list view's sort raise. A header list of
`null` makes parsing fail. Undefined generator methods, and the malaria
generator's empty `randint` range, make data generation fail. Each of these is a
`Result.Err` or an error message in the model.

A visualization answer whose `rows` list is empty ends the fetch chain with an
empty table ("Aucune donnée disponible"). It does not fall through to synthetic data.

## Model

| member | source | states |
|---|---|---|
| Items.ItemTypeIsFirstPopulated | main.py:2258-2269 | The item type is the first populated test in the order visualization > chart > map > text. It is "text" exactly when the three sub-objects are falsy and the `text` key is present. An empty text still gives "text". |
| Items.VisualizableAgreesWithType | main.py:1877-1887 | A visualizable item is never "other". Sub-object items are always visualizable. A text item is visualizable exactly when its content is not blank, so blank text is typed "text" but not visualizable. Only a null text raises. |
| Items.TextLabelShape | main.py:2252-2253 | A text name starts with "Texte: " and is at most 60 characters. It carries the whole content up to 50 characters; longer content is cut to 50 characters plus "...". |
| Items.ItemNameSources | main.py:2240-2255 | A visualization, chart or map uses its own name when the key is present. Without it the name is "Visualisation ", "Graphique " or "Carte " followed by the 1-based position. An other-item is "Élément " followed by its 1-based position. A text name is a text label. The function raises exactly when `has_visualizable_data` raises. |
| Items.DashboardItemTypes | main.py:1279-1322 | On success the five bucket sizes add up to the number of items. A failure is always caused by some item whose entry fails. |
| Items.BucketsFollowItemType | main.py:1279-1322 | The pass succeeds exactly when every item's entry succeeds. Each bucket holds the entries of the items of that kind, in item order, and agrees with `get_item_type`. |
| Items.EntryFailsOnNullText | main.py:1310-1315 | An entry fails exactly for a text item whose `text` is null, and then `has_visualizable_data` raises too. |
| ItemData.DispatchFollowsItemType | main.py:606-663 | The item type picks the frame: a map table exactly for map items, a text table exactly for text items with content, and a data frame exactly for visualizations, charts and other items. |
| ItemData.FetchedUnderOwnName | main.py:606-663 | With an id, a visualization or chart is fetched under its own name (default "Visualisation" / "Graphique"). A visualization appends " \| Type: " and its type, and a chart has kind "Chart". Without an id, both fall to generic data for that name. Other items get generic data for "Élément". |
| ItemData.RepliesUsedOnlyWithId | main.py:613-634 | Server replies affect the result only for a visualization or chart that carries an id. |
| ItemData.TextContentBounded | main.py:653-660 | A text item gives a one-row table "Texte". Its content is cut to 500 characters plus "...", is kept whole when it fits, and has kind "Text". |
| ItemData.ErrorTableOnNullText | main.py:665-670 | The error table appears exactly when the item raises (null text). It then holds the `len(None)` message, element "Texte", info "Erreur: …" and kind "Erreur". |
| Filenames.ReplaceForbidden | main.py:1812 | Each character of `<>:"/\|?*` becomes `_`; every other character is unchanged and the length is kept. |
| Filenames.CleanFilename | main.py:1809-1815 | The result is at most 50 characters: exactly min(length, 50). It contains no forbidden character. Each kept position maps forbidden → `_` and keeps everything else. |
| Filenames.CleanFilenameIdempotent | main.py:1809-1815 | Cleaning a cleaned name changes nothing. |
| Filenames.CleanFilenameKeepsSafeNames | main.py:1809-1815 | A name of at most 50 characters without forbidden characters is returned unchanged. |
| Catalog.TagPage | main.py:314-323 | Tagging a page succeeds exactly when no dashboard has `user: null`. It keeps the page's order and length. `is_owner` holds exactly when the owner id equals the current user id. |
| Catalog.GetAllDashboardsComplete | main.py:282-338 | The page loop starting at page 1 returns exactly the result of the recursive page walk. |
| Catalog.WalkThrough | main.py:289-329 | If pages 1..k all continue the loop, they exist, and the walk reaches page k+1 with pages 1..k tagged and concatenated in order. |
| Catalog.FetchOutcome | main.py:289-338 | After k continuing pages, the fetch stops with a result that depends on page k+1. A non-200 status or an empty page keeps pages 1..k. An accepted last page (`page >= pageCount`) adds itself. A transport error, an undecodable body, a null owner, or a null `pager` or `pageCount` on a non-empty page yields []. |
| Catalog.WalkExtends | main.py:289-329 | The walk only appends to what it has accumulated. Every appended dashboard has a non-null owner and the correct `is_owner` tag. |
| Catalog.FetchOwnership | main.py:314-321 | Every dashboard the fetch returns is tagged as owned exactly when its owner id equals the current user id. |
| Listing.FilterDashboards | main.py:2355-2362 | The filter never grows the list, and every dashboard it keeps passes the selected option. |
| Listing.FilterMembership | main.py:2355-2362 | A dashboard is in the filtered list exactly when it is in the input and passes the option. |
| Listing.OwnershipFilterPartitions | main.py:2355-2362 | "Tous" keeps the list unchanged. "Mes dashboards" and "Dashboards publics" split it into two parts whose multisets and sizes add up to the input's. |
| Listing.KeyLessIsStrictTotalOrder | main.py:2365-2372 | The sort keys (strings compared by code point, or counts) form a strict total order. |
| Listing.SortPositions | main.py:2365-2372 | Insertion of positions yields a permutation of 0..n-1 that is sorted under (key, original position). |
| Listing.InsertKeepsOrder | main.py:2365-2372 | Inserting a new position into a sorted list of positions keeps it sorted. |
| Listing.SortIsPermutation | main.py:2365-2372 | The sorted list has the input's length. It is the input read through an order that lists every position exactly once. |
| Listing.SortListing | main.py:2365-2372 | The sort raises exactly when the sorted field is JSON null in some dashboard. For the created-date sort this needs at least two dashboards, because only a comparison raises. The error is the `lower`, `len` or `<` TypeError for that sort. Otherwise the result is the stable sort: the same dashboards, as many times each, and a list of at most one unchanged. |
| Listing.SortPreservesMultiset | main.py:2365-2372 | The sorted list holds exactly the input's dashboards, each as many times. |
| Listing.SortIsStable | main.py:2365-2372 | The sorted list is ordered by key: ascending for A-Z, descending for Z-A, creation date and item count. Dashboards with equal keys keep their original order, also when `reverse=True`. |
| Tables.NamesWhere | main.py:678-684 | A column filter lists the name of every column that passes, and only names of columns that pass. |
| Tables.ColumnDetection | main.py:678-684 | A datetime column is temporal. Any other column is temporal exactly when its lower-cased name contains one of the temporal keywords as a substring. A column is geographic exactly when its lower-cased name contains a geographic keyword. Detected columns are listed. |
| Tables.MissingByRowsEqualsByColumns | main.py:1213 | The total of missing cells counted row by row equals the sum of the per-column missing counts. |
| Tables.MissingBreakdown | main.py:1228-1230 | Every entry is some column's name paired with that column's missing count, and the count is positive. Every column with missing values has its entry. |
| Tables.MissingBreakdownColumns | main.py:1228-1230 | Entry k belongs to the k-th listed column. The listed columns are in strictly increasing column order, and a column is listed exactly when it has missing values. |
| Tables.MissingPercent | main.py:1213 | The percentage is undefined exactly when the frame is empty; otherwise it lies in [0, 100]. |
| Tables.MissingBounded | main.py:1213 | There are never more missing cells than cells. |
| Tables.DuplicatesAreRowsMinusDistinct | main.py:1217 | Duplicated rows plus distinct rows equal the number of rows. |
| Tables.ZeroCount | main.py:1225 | Zero cells are counted only in numeric columns and never exceed rows × numeric columns. |
| Tables.ZerosByRowsEqualsByColumns | main.py:1224-1225 | The zero cells counted row by row equal the sum over the numeric columns of each column's zero count, while non-numeric columns add nothing. |
| Tables.UniqueCountBounded | main.py:831-832 | A column never has more distinct present values than the frame has rows. |
| Tables.AnovaGate | main.py:813-833 | When the ANOVA runs, its group column is among the non-numeric columns and its value column among the numeric ones. The frame has three rows with pairwise different present values in the group column. |
| Tables.CompleteRowsCountsKeptRows | main.py:880-882 | The rows `dropna` keeps are exactly the rows complete in both chosen columns, and their number is the size of that set of row positions. |
| Tables.RegressionGate | main.py:874-882 | The regression runs exactly when both chosen columns are numeric, they differ, and more than 10 rows are complete in both. It then has more than 10 rows. A regression of a variable on itself is never attempted. |
| Performance.PerformanceCandidates | main.py:1080-1091 | An int64/float64 column is always a candidate. Any other numeric column (including bool) is a candidate exactly when its lower-cased name holds a performance keyword. Datetime and object columns never are. Every listed name belongs to a numeric column. |
| Performance.Clamp | main.py:1146-1148 | For any integers the clamped thresholds satisfy low < mid < high. Low never rises and high never falls. |
| Performance.ClampFixesOrdered | main.py:1146-1148 | Clamping changes a triple exactly when it is not already strictly increasing. Clamping is idempotent. |
| Performance.ClampRange | main.py:1146-1148 | Slider values in [0,100] clamp into [-1,101]. (0,0,0) becomes (-1,0,1) and (100,100,100) becomes (99,100,101). The defaults (70,85,95) are unchanged. |
| Performance.BinsCheckAfterClamp | main.py:1152-1156 | After clamping, the bins [0, low, mid, high, 100] are strictly increasing exactly when 0 < low and high < 100. |
| Performance.CutPicksInterval | main.py:1152-1160 | With increasing bins, values outside [0,100] get no band. Each band is exactly its right-closed interval, with 0 included in Faible: [0,low], (low,mid], (mid,high], (high,100]. |
| Performance.CutMonotone | main.py:1157-1160 | A larger value never gets a lower band. |
| Performance.Classify | main.py:1152-1160 | Banding happens exactly when the clamped bins pass the check, and then gives one band per value. |
| Performance.ClassifyDefaults | main.py:1146-1160 | The default thresholds always band. The sliders (0,0,0) and (100,100,100) are always rejected. |
| Performance.BandCountsAddUp | main.py:1163-1177 | The four per-band counts add up to the number of banded values. |
| Regression.LinRegress | main.py:27-48 | Fewer than two points give slope and intercept 0. The fitted line passes through the means. Constant x (zero denominator) gives slope 0. |
| Regression.PredictAtMean | main.py:905 | The prediction `slope * x + intercept` at the mean of x is the mean of y. |
| Regression.SpreadZeroIffConstantX | main.py:41-43 | The denominator is zero exactly when all x values are equal. |
| Regression.ConstantXIsFlat | main.py:43-48 | With all x equal, the slope is 0 and the intercept is the mean of y. |
| Regression.CovarianceOnLine | main.py:40-41 | For points on y = a·x + b, the numerator is a times the denominator. |
| Regression.ExactLineRecovered | main.py:21-48 | For points on y = a·x + b with two different x values, the fit returns exactly slope a and intercept b. |
| Regression.SeriesTrendOfLine | main.py:770-787 | A series indexed 0..n-1 that lies on a line is labelled rising, falling or stable according to the sign of its slope. |
| Series.ColumnNames | main.py:410-415 | There is one column name per header. |
| Series.ColumnNamesResolve | main.py:410-415 | Each name is the header's `name` when truthy, else its `column` when truthy, else "Colonne_i" for position i. No name is empty. |
| Series.FallbackNameReadsBack | main.py:415 | A fallback name is "Colonne_" followed by the decimal digits of its position. |
| Strings.DecimalRoundTrip | main.py:415 | Decimal rendering yields a non-empty digit string that reads back to the number. |
| Series.MaxWidth | main.py:417 | The width of a list of rows is the length of its longest row, and some row attains it. |
| Series.Pad | main.py:417 | A short row is padded with missing cells up to the frame width and keeps its own cells in front. |
| Series.ParseRows | main.py:403-425 | A non-empty `rows` list gives a table exactly when the number of names passed equals the widest row. The names passed are the names cut to the first row's length. Otherwise the pandas width-mismatch message is returned. A table has one column per name, one row per input row, and the message with the row count. |
| Series.ParseShapes | main.py:400-436 | An empty or null `rows` gives "Aucune donnée disponible". Without `rows`, a non-empty `data` list gives a table. Anything else gives "Format de données non reconnu". A null header list gives a parse error. Parsing never produces synthetic data. |
| Series.FirstMatchIsFirst | main.py:441-458 | The first-match rule returns the category of the first keyword set that matches, and the generic data set exactly when none does. |
| Series.CategoryIsFirstMatch | main.py:441-458 | The category is the first of ecv/dsdm, vaccination, malaria, nutrition, consultation, birth, mortality whose keyword occurs in the lower-cased name; otherwise it is generic. |
| Series.Generate | main.py:441-461 | Synthetic data is produced exactly for the ecv/dsdm, vaccination and generic categories, and matches the chosen category. Malaria ends in "Erreur génération données: high <= 0". The four categories whose generator does not exist end in "Erreur génération données: …" with their AttributeError. |
| Series.GenerateOutcome | main.py:441-461 | For any draws of the malaria loop in which some confirmed count is at most 66, the malaria branch equals the draw-level model of the code as written. Every failing branch's info starts with "Erreur génération données: ". |
| Series.MalariaRunFails | main.py:582-588 | The malaria loop fails exactly when some row's `deaths` range is empty, with numpy's "high <= 0" message. Otherwise it builds the 1170-row frame. |
| Series.SmallDrawEmptiesRange | main.py:584-588 | A confirmed count of at most 66 gives at most 9 severe cases, so `int(severe * 0.1)` is 0. |
| Series.MalariaAsWrittenFails | main.py:584-588 | As written, the malaria generator fails exactly when some row draws fewer than 10 severe cases. Any draw with at most 66 confirmed cases is such a row. |
| Series.MalariaCounterexample | main.py:584-588 | Draws with 10 confirmed and 1 severe case in every row make the generator as written return the empty frame and "Erreur génération données: high <= 0". |
| Series.MalariaIntendedBuilds | main.py:582-604 | With a death range that always holds 0, every feasible set of draws builds the 1170-row malaria frame and its info line. |
| Series.ChainOutcome | main.py:358-398 | A first endpoint that answers 200 with JSON is final, even with an empty table. Otherwise a second endpoint that does so is final. Synthetic data is used exactly when neither does, and is then the data generated for the name. |
| Strings.ContainsIffOccurs | main.py:682-683 | Python's substring test holds exactly when the keyword occurs at some position. |
| Strings.AbbreviateShape | main.py:658 | Cutting to n characters adds "..." only to longer strings and keeps the first n characters, so the result has at most n+3 characters. |

## Left out

- Streamlit UI, CSS, widgets, session state, login/logout: presentation only.
- HTTP (`requests.Session`, URLs, timeouts, authentication). Each endpoint answer is an abstract datatype: status, decodable or not, transport error.
- The values of synthetic data (`np.random`, fixed seed) and the random map values. Only the category and the row counts of generated frames are modelled.
- pandas numerics: `pd.to_numeric` coercion of parsed columns, the column layout of the `data` records format (only its row count is kept), mean/median/std, quantiles and the `qcut` fallback, ANOVA, plotly charts.
- CSV/JSON/Excel export (main.py:1749-1875): library serialisation.
- Temporal aggregation by `strftime` periods. Its daily branch sorts by a column the groupby has removed, so it always ends in the error message at main.py:800.
- `get_item_id` (main.py:1551) uses Python's per-run `hash`.
- The server-side search query of the paged fetch, and the client-side search box of the list view.
- JSON `null` for an item sub-object's `name`, `id` or `type`, or for the item's own `type` in `get_dashboard_item_types` (read as "Inconnu" where Python keeps `None`), is treated like an absent key (the default is used).
- The statistics banner and the dashboard cards of the list view (main.py:2374-2395). A null `dashboardItems` also makes the banner's item total raise, whatever the sort.
- The `details` field (`str(item)[:100]`) of other-items in `get_dashboard_item_types`.
- Tables.MissingBreakdown: lists the columns in column order; the descending order of `sort_values(ascending=False)` is left out.
- Listing.SortListing: for the created-date sort only the start of the TypeError text, "'<' not supported between instances of ", is promised. The operand type names that follow depend on which pair the sort compares first, which is not modelled.
- Tables.AnovaRuns: column labels are strings, so the `if cat_col and num_col` test on a falsy label (such as the integer column 0 of a frame built from positional records) is not modelled.
- Tables.RegressionRuns: column labels are strings, so the `if x_var and y_var` test on a falsy label (such as the integer column 0 of a frame built from positional records) is not modelled.
- MalariaRunFails: the empty-range message is the one of numpy's current bounds check, "high <= 0"; older numpy releases word it "low >= high", which is not modelled.
- Series.Generate: the malaria error text is numpy's "high <= 0"; with older numpy releases the same outcome reads "Erreur génération données: low >= high".
- Series.Generate: the malaria branch is the failing outcome. Success needs every one of the 1170 rows to draw at least 10 severe cases, so `MalariaAsWritten` shows the draws that fail. Draws are parameters, and their probabilities are left out.
- Tables.MissingPercent: the percentage is exact; the one-decimal display rounding is left out.
- Strings.Lower: lower-cases ASCII and Latin-1 letters only; the rest of Unicode case mapping is left out.
- Regression.LinRegress: observations are integers and slope/intercept are exact rationals, not floating point. The numerator and denominator are each multiplied by n² (deviations n·v − Σv instead of v − mean), which leaves the slope unchanged. rvalue, pvalue and stderr of the fallback, and scipy's own `linregress`, are not modelled.

## Findings

| source | as written | input that shows it | evidently intended | confidence | as-written member | corrected member |
|---|---|---|---|---|---|---|
| main.py:584-588 | `deaths = np.random.randint(0, int(severe * 0.1))`, and numpy's `randint` raises ValueError "high <= 0" when the upper bound is 0 | confirmed = 10 gives severe = 0 or 1 for every uniform draw in [0.05, 0.15), so the bound is 0. Any confirmed count of at most 66 gives severe ≤ 9 and the same bound. The exception sends `_generate_analysis_ready_data` to its error frame. | a death count between 0 and a tenth of the severe cases, always drawable, so the generator returns its 1170-row frame | not executed | Series.MalariaAsWritten (Series.MalariaAsWrittenFails, Series.MalariaCounterexample) | Series.MalariaIntended (Series.MalariaIntendedBuilds) |
