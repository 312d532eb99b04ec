# Site listing reconciliation: a Dafny model

The dashboard in `app.py` loads a sheet of charging sites that is cross-referenced
between an internal database (`external_reference`) and Google Maps (`placeId`).
It preprocesses the rows column by column. It evaluates the two missing-connector
cells, coerces `connector_match` and `power_match` to booleans, and flags a
missing `placeId` or `external_reference`. It reads latitude and longitude from
`geometry_db` and builds the `station_filter` / `hover_info` labels. Then it shows
the invalid-geometry rows, two summary counts, the two "missing" tables, a map
coloured by one category per row, and a detail table sorted by the two match flags.

This project models that pipeline as pure functions over a sequence of rows:

- `wrappers.dfy`: `Option` and `Result`.
- `cells.dfy`: a sheet cell is `Absent` (None/NaN), `Text` or another `Scalar`
  (a number or boolean, known here only by its Python truth value). The module also
  holds `isna`, `fillna(False).astype(bool)` and the row-wise `+` that builds the labels.
- `geometry.dfy`: the pattern `POINT \(([^ ]+) ([^)]+)\)`. The regular
  expression's meaning allows any split of the text into the two groups
  (`MatchesAt`). The greedy matcher (`MatchAt`) is proved to find exactly those
  matches. `re.search` (`Search`) is proved to return the leftmost one. The
  extractors are built on it.
- `frame.dfy`: the preprocessing steps in script order. A step that raises
  stops the page. `Preprocess` returns the first failing step, or the rows, each
  related to its sheet row by `DerivedFrom`.
- `classify.dfy`: `assign_map_category`.
- `views.dfy`: the boolean-mask selections, the counts, the sort, the map
  markers, the colour tables and `Run`, which assembles the page.

Calls into Python that the model cannot see are parameters (`Frame.Env`):
`evalLiteral` stands for `eval` on a cell's text and returns `None` where `eval`
raises. `parseFloat` stands for `float` on a token and returns `None` where
`float` raises or returns NaN. The `isnull` test at app.py:55 treats NaN like a
missing value, so `"POINT (nan 52.3)"` has no longitude in the model either.

In several places the code does not do what a reader might expect. The model
follows the code:
- The code has no `"NULL"`/`"N/A"` sentinels. A flag is missing exactly when
  `isna` holds.
- The code does not parse `"TRUE"`/`"FALSE"`. Any non-empty text, `"FALSE"`
  included, coerces to true (`AsBoolIgnoresWording`).
- The code has no fallback to `geometry_google` (`CoordinatesIgnoreGoogleGeometry`).
- Latitude and longitude are converted separately, so a row can have one without
  the other (`CoordinatesConvertSeparately`).
- "Fully Correct" depends on `connector_match` alone (`PowerMatchNeverDecides`).
- A malformed mapping literal stops the whole page instead of one record (`Preprocess`).
- A sheet with a header but no data rows stops the page with KeyError at
  app.py:27, because the empty frame has no columns (`Preprocess`).

## Model

| member | source | states |
|---|---|---|
| Cells.AsBoolIgnoresWording | app.py:29-30 | a missing cell coerces to false; text coerces to true exactly when non-empty, so "FALSE" and "false" become true |
| Cells.JoinLabel | app.py:59 | the label fails (TypeError) exactly when a non-string scalar meets a string in the left-to-right additions; it is missing when any part is missing; otherwise it is `name - street, city` |
| Geometry.MatchAtSound | app.py:38 | every result of the greedy matcher is a match of the pattern at that index |
| Geometry.MatchAtComplete | app.py:38 | every match of the pattern at an index is the one the matcher returns (the split into groups is unique) |
| Geometry.MatchAtMeaning | app.py:38 | the matcher returns groups (lon, lat) at index i if and only if the pattern matches there with those groups |
| Geometry.MatchAtFindsAMatch | app.py:38 | the matcher succeeds at an index exactly when the pattern has some match there |
| Geometry.SearchFrom | app.py:38 | the search returns the first start index at or after i where the matcher succeeds, or fails when it succeeds nowhere |
| Geometry.SearchFindsLeftmostMatch | app.py:38 | `re.search` returns (i, lon, lat) if and only if the pattern matches at i with those groups and at no earlier index |
| Geometry.SearchFailsWithoutMatch | app.py:38-40 | the search fails exactly when the pattern matches nowhere in the text |
| Geometry.ContainsAt | app.py:36 | text that has t starting at some index contains t (Python `in`) |
| Geometry.MatchedTextContainsPoint | app.py:36-38 | text the pattern matches contains "POINT", so the `"POINT" in geometry` guard never changes a result |
| Geometry.ExtractLatitude | app.py:35-41 | a non-string cell, text without "POINT" or a failed search gives None; otherwise the result is `float` of group 2 of the leftmost match |
| Geometry.ExtractLongitude | app.py:43-49 | a non-string cell, text without "POINT" or a failed search gives None; otherwise the result is `float` of group 1 of the leftmost match |
| Geometry.ExtractFromLeftmostMatch | app.py:35-49 | with a leftmost match (lon, lat), longitude is `float(lon)` and latitude `float(lat)` |
| Geometry.ExtractWithoutMatch | app.py:35-49 | when the pattern matches nowhere, both extractors give None whatever `float` does |
| Geometry.WellFormedPoint | app.py:38-46 | "POINT (4.9 52.3)" gives longitude from token "4.9" and latitude from token "52.3" |
| Geometry.ThirdOrdinateJoinsLatitude | app.py:38 | group 2 runs up to the `)`, so "POINT (4.9 52.3 7)" hands "52.3 7" to `float` for the latitude |
| Geometry.CoordinatesConvertSeparately | app.py:51-52 | one token that `float` rejects loses only its own coordinate: latitude present, longitude None |
| Frame.EvalColumn | app.py:27-28 | `apply(eval)` on a column succeeds exactly when every cell evaluates; a missing cell evaluates to the empty mapping; each result is that cell's evaluation |
| Frame.LabelColumn | app.py:59 | the label column is built exactly when every row's label is, and holds each row's label |
| Frame.Preprocess | app.py:27-59 | fails with KeyError exactly when the sheet has no data rows (the empty frame has no columns); otherwise fails at eval of `missing_in_google` if any row's cell raises, else at `missing_in_db`, else at `station_filter`; otherwise every row is derived from its sheet row: flags are `isna`, the match flags are truthiness, coordinates come from `geometry_db`, and `hover_info` equals `station_filter` (line 97) |
| Frame.CoordinatesIgnoreGoogleGeometry | app.py:51-52 | rows with the same `geometry_db` get the same coordinates, whatever `geometry_google` holds |
| Classify.AssignMapCategory | app.py:100-108 | exactly one of four categories, first rule wins: missing place id; else missing external reference; else connector match gives "Fully Correct"; else "Discrepant" |
| Classify.PowerMatchNeverDecides | app.py:100-108 | changing `power_match` never changes the category |
| Classify.CategoryNamesDistinct | app.py:100-108 | the four category names are pairwise different |
| Classify.FullyCorrectFromSheet | app.py:29-32 | a row is "Fully Correct" exactly when its sheet row has both ids and a truthy connector-match cell |
| Views.FilterAppend | app.py:85 | boolean-mask selection keeps the order: selecting from a concatenation concatenates the selections |
| Views.FilterMultiplicity | app.py:55 | boolean-mask selection keeps each selected row exactly as often as it occurs and drops every other row |
| Views.InvalidGeometry | app.py:55 | the invalid-geometry rows are exactly those with a missing latitude or a missing longitude, each as often as it occurs |
| Views.MissingGoogle | app.py:85 | the "missing on Google Maps" rows are exactly those without a place id, each as often as it occurs |
| Views.MissingDb | app.py:90 | the "potential duplicates" rows are exactly those without an external reference, each as often as it occurs |
| Views.MissingGoogleIsItsCategory | app.py:63-69 | the rows counted as missing in Google Maps are exactly, in order, the rows of category "Missing Location in Google Maps" |
| Views.DuplicatesCountSplit | app.py:63-69 | the "Potential Duplicates" count is the "Missing Location in Database" category count plus the number of rows missing both ids, so it is at least that category count |
| Views.MissingCountsFromSheet | app.py:63-69 | the two counts equal the numbers of sheet rows whose `placeId`, respectively `external_reference`, cell is missing |
| Views.LocatedOrInvalid | app.py:54-55 | every row either has both coordinates or is in the invalid-geometry table, never both |
| Views.SortIsPermutation | app.py:133 | the sort by (`connector_match`, `power_match`) neither loses nor adds rows (same multiset) |
| Views.SortIsOrdered | app.py:133 | the sorted rows are in ascending lexicographic order of (`connector_match`, `power_match`), false before true |
| Views.DetailTable | app.py:132-133 | the detail table is a permutation of the rows with both ids, contains exactly those rows, is ordered by the two flags, and puts every connector mismatch before every match |
| Views.MapPoints | app.py:117-127 | one marker per row with both coordinates, in row order, each carrying its row's category and hover label; every located row has its marker; markers plus invalid-geometry rows number all rows |
| Views.CategoryColour | app.py:111-116 | every category name has an entry in `category_color_map`, and different categories get different colours |
| Views.DuplicatesBarMissesItsColour | app.py:63-80 | as written, the colour map gives the first bar the blue of its map category but has no entry for "Potential Duplicates" |
| Views.SummaryBarsColouredLikeMap | app.py:76-79 | (corrected half of the finding, not used by the page) with the key corrected, each bar gets the colour of the map category it counts |
| Views.SummaryBars | app.py:63-69 | two bars: the first counts the "Missing Location in Google Maps" category; the second counts "Missing Location in Database" plus the rows missing both ids; colours come from the map as written, so the first bar is blue and the second has no entry (default palette) |
| Views.Run | app.py:26-134 | the page fails exactly when preprocessing does, at the same step; otherwise markers and invalid-geometry rows together cover all rows, the bars count the two missing tables, the second bar has no colour entry, and the detail table is a permutation of the rows with both ids |

## Findings

| source | as written | input that shows it | evidently intended | confidence | as-written member | corrected member |
|---|---|---|---|---|---|---|
| app.py:64-79 | the bar chart's `color_discrete_map` has the key "Potential Duplicate", but the bar's category is "Potential Duplicates" | any sheet: the bar "Potential Duplicates" finds no entry and takes a default palette colour | the key "Potential Duplicates", giving the purple `#9b59b6` that the comment names and the map uses for "Missing Location in Database" | high (not executed) | Views.SummaryColourAsWritten, Views.DuplicatesBarMissesItsColour | Views.SummaryColour, Views.SummaryBarsColouredLikeMap |

## Left out

- Loading the sheet (app.py:8-24) is left out: secrets, gspread, the network, and the catch-all handler that stops the page. The model starts from the loaded rows. test_google.py (service-account download to a file) is not part of this model.
- The result of `eval` (app.py:27-28) is a parameter. A literal that evaluates to something other than a mapping from text to integers is outside the `Detail` type.
- `float` is a parameter. Coordinates are typed `real`, and no arithmetic is done on them. `float("inf")` and `float("-inf")` return infinities, which a `real` cannot hold. The model leaves open what `parseFloat` does with such tokens.
- pandas dtype details are left out. `get_all_records` returns `""` for an empty cell, and `isna` does not treat that as missing. The model takes the cell kinds as given and represents numbers only by their truth value.
- Rendering is left out: the Streamlit calls, chart layout, map style and zoom, and the columns each table displays. The map markers, bars and colours are modelled as data only.
- Run: when a step raises, Streamlit keeps what it already drew (the invalid-geometry table at line 56 comes before the label step at line 59). The model records only the failing step, not the partial page, the exception text or the row.
- Views.SortByMatch is one particular stable sort. Only the order and the permutation are claimed; stability is not.
- A sheet with data rows but without one of the expected header columns (KeyError) is not modelled. Every `RawRow` carries every column. The empty sheet, whose frame has no columns, is modelled (`Stage.NoColumns`).
