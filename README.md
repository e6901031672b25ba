# mlit-1km-fromto in Dafny

A Dafny model of the Streamlit app that compares the MLIT "nationwide people-flow open data"
(1 km mesh populations and city-level origin flows) between 2020 and 2021. The app has two
steps. Step 1 picks a region, a prefecture and cities. Step 2 fetches the monthly archives,
filters them by day type, time of day and city, and then does one of two things:

- for the city-flow dataset (`fromto`), shows the relabelled tables;
- for the mesh dataset (`mdp`), builds a population layer and a year-over-year ratio layer for
  the map.

The model covers the rules of that pipeline and proves, for each, what the code promises of it; what it does not cover is listed under "Left out".

Modules, one per source file or shared concept:

- `Options`: `Option` and `Result`.
- `Strings`: `endswith`, `in` on strings, single-character `rstrip`/`lstrip`, and the
  f-string integer formats `{n}` and `{n:02}`.
- `PyDict`: Python's ordered `dict` as an association list. Keys iterate in first-insertion
  order, and the last pair with a key decides its value.
- `Frames`: pandas tables, column by column. A cell is a number, text, NaN or an infinity.
  The module gives row selection (`df[mask]`), column drop, rename, assignment and
  projection, plus a `DataFrame` class for the operations the program does in place.
- `Merge`: `merge_df`. The left join is given by its documented meaning:
  - left rows keep their order;
  - a left row fans out over duplicate right keys;
  - an unmatched right cell is NaN;
  - colliding names get the suffixes.

  On top of the join come the drop of suffixed columns and the `lat`/`lon` renaming.
- `Fetch`: `_unzip_csv` and `fetch_data`. It covers the URL normalisation, the scan for the
  first `.csv` member and its parse, the archive path, and the handled failures with the
  message of the `except` clause that catches each.
- `Polygons`: `lonlat_to_polygon` (shapely's `box`, with its bounds and area) and
  `make_polygons`.
- `Regions`: `_load_region`, `prefcode_to_name` and `region_builder`.
- `Const`: the four lookup tables and the widget defaults taken from them.
- `Wizard`: the `StepByStep` class, with its button callbacks and the rule for which buttons
  are shown.
- `Comparison`: the comparison page, which has these parts:
  - `_filter` and the city filter;
  - the zoom level;
  - the ratio table and `dropna`;
  - `_datamap`, as a function and as an in-place method;
  - `step_2`: how it ends for each dataset, and the session keys its fetches write.

Everything outside the program is a parameter:

- `Env.blob`: the archive server's address and token.
- `Env.download`: what the GET of a URL returns (a failure, a body that is not a zip, or the
  zip's member names).
- `Env.read`: `z.open` and `pd.read_csv` on one member, from archive URL and member to the
  parsed table or the kind of exception raised: a ValueError, a BadZipFile (a corrupt member)
  or any other exception (such as `zlib.error`).
- `Env.master`: the city master that `prefcode_to_name` reads.
- `Selection`: every widget answer and session value that `step_2` reads.
- `Masters` and `Picks`: the master tables and widget answers for `region_builder`.

An `st.error` followed by `st.stop` becomes `View.Halted(message)`. An exception, which the
page's `except Exception: pass` swallows, becomes `Crashed`.

## Model

| member | source | states |
|---|---|---|
| Strings.RStrip | app/common/utils.py:37 | `rstrip("/")` keeps a prefix, removes only that character and leaves a result not ending in it |
| Strings.LStrip | app/common/utils.py:38-39 | `lstrip` keeps a suffix, removes only leading copies of the character and leaves a result not starting with it |
| Strings.NatToStringRoundTrip | app/common/utils.py:85 | the decimal rendering of a year reads back as the same number |
| Strings.Pad2 | app/common/utils.py:85 | `{n:02}` is at least two characters, zero-filled exactly for 0..9, and otherwise `str(n)` |
| Strings.Pad2RoundTrip | app/common/utils.py:85 | a zero-padded natural number reads back as itself |
| Fetch.UrlShape | app/common/utils.py:37-39 | the URL is stripped base + `/` + stripped path + `?` + stripped token; no part repeats its separator; the removed parts are only separators |
| Fetch.UrlIdempotent | app/common/utils.py:37-39 | normalising already-normalised parts gives the same URL |
| Fetch.UrlAbsorbsSeparators | app/common/utils.py:37-39 | an extra `/` after the base or before the path, or an extra `?` before the token, does not change the URL |
| Fetch.FirstCsv | app/common/utils.py:51-52 | reference scan: the first position whose name ends in `.csv`, all earlier names not; None only when no name does |
| Fetch.ScanCsv | app/common/utils.py:48-58 | the `for` loop with early return finds exactly `FirstCsv` of the member list |
| Fetch.FirstCsvIsUnique | app/common/utils.py:51-55 | a `.csv` position with no `.csv` before it is the first one |
| Fetch.Opened | app/common/utils.py:42-60 | a failed request is NetworkError; otherwise only the first `.csv` member is read: BadZipFile iff the body is not a zip or that member raises BadZipFile, NoCsvFound iff there is no `.csv` member, CsvRejected iff it raises a ValueError, MemberUnreadable iff it raises anything else, and a success holds that member of the zip fetched from the URL with its table |
| Fetch.UnzipCsv | app/common/utils.py:21-60 | `_unzip_csv` builds the URL, fetches, opens the archive, scans and parses; its result is the function `Unzip` of the same inputs |
| Fetch.PicksFirstCsv | app/common/utils.py:48-58 | no-CSV failure iff no member ends in `.csv`; a member is read iff one does; a parsed member ends in `.csv` and is preceded only by non-CSV names |
| Fetch.DataPath | app/common/utils.py:76-87 | `mesh1km` gives the 2019 attribute path for 2019 and the 2020 path for any other year; otherwise missing `ss.pref`, an empty `ss.pref` and a dataset other than mdp/fromto are each their own crash |
| Fetch.MonthlyPath | app/common/utils.py:82-87 | a monthly path starts with `f/PP/year/MM/monthly_f` (first selected prefecture) and ends in `_mesh1km.csv.zip` iff the dataset is mdp, `_city.csv.zip` iff fromto |
| Fetch.SuffixesDiffer | app/common/utils.py:85-87 | no path ends with both suffixes |
| Fetch.SuffixFollowsSession | app/common/utils.py:84-87 | the suffix depends only on `ss.set`, not on `f`, year, prefecture or month |
| Fetch.MonthSegment | app/pages/comparison.py:192-198 | a month from the bounded widget (1..12) gives a two-digit `MM` that reads back as the month |
| Fetch.Message | app/common/utils.py:92-98 | each caught failure's message starts with the common prefix and is the message of the `except` clause that catches it: a missing CSV member and a parse failure are both ValueErrors |
| Fetch.MessagesDistinct | app/common/utils.py:91-99 | two caught failures have the same message iff the same `except` clause catches them |
| Fetch.Handled | app/common/utils.py:89-99 | a caught failure becomes exactly its clause's message and a stop, a success is loaded with its parsed table, and only an exception no clause names crashes |
| Fetch.Fetched | app/common/utils.py:63-99 | an unresolvable path crashes with its exception, a resolved one gives the handled fetch of that path, and a crash is one of the two |
| Fetch.FailureMessages | app/common/utils.py:89-99 | network failure iff the network message; a non-zip body or a first CSV member raising BadZipFile iff the format message; no CSV member or a first CSV member raising a ValueError iff the not-found message; any other exception of that member iff a crash; a parsed member is loaded with its table, and a load only from a zip with a CSV member |
| Fetch.FetchData | app/common/utils.py:63-99 | the method resolves the path, fetches and maps each failure; its result is `Fetched` |
| Const.DefaultDataset | app/pages/comparison.py:163 | `list(dataset)[0]` is "mdp", labelled 1kmメッシュ |
| Const.LastKey | app/pages/comparison.py:208 | `list(d)[-1]` is a key of the table, the key of its last entry |
| Const.FlagTables | app/common/const.py:6-17 | `dayflag` and `timezone` have exactly the keys 0, 1, 2, with 2 labelled 全日 and last (the default selection of both controls) |
| Const.DatasetTable | app/common/const.py:20-23 | `dataset` has exactly the keys "mdp" and "fromto", in that order |
| Const.FromAreaTable | app/common/const.py:26-31 | `from_area` has exactly the keys 0..3 |
| PyDict.Get | app/common/region_builder.py:34-38 | a lookup fails exactly for a key not in the dict |
| PyDict.Insert | app/common/region_builder.py:88 | `d[k] = v` keeps keys distinct, adds `k`, stores `v` under it, changes no other key and keeps the first key in place |
| PyDict.LastValue | app/common/region_builder.py:36-37 | reference meaning of "last pair wins": the value of the last pair with the key, none when no pair has it |
| PyDict.FromItemsShape | app/common/region_builder.py:123-125 | a dict built from pairs has distinct keys, exactly the pairs' keys and at most one entry per pair |
| PyDict.FromItemsLastWins | app/common/region_builder.py:123-125 | each key of a dict built from pairs holds the value of the last pair with that key |
| Frames.Lookup | app/pages/comparison.py:108 | `df[name]` finds a column iff one has the name, and gives the first such column |
| Seqs.Matching | app/pages/comparison.py:222 | a boolean mask keeps the increasing positions of exactly the accepted cells |
| Frames.Where | app/pages/comparison.py:222-223 | `df[cond]` keeps the columns and at most the rows of the input |
| Frames.WhereRows | app/pages/comparison.py:222-223 | every kept row is accepted and is the input row at its matching position |
| Frames.WhereIdempotent | app/pages/comparison.py:222-223 | filtering twice by one condition is filtering once |
| Frames.SelectSelect | app/pages/comparison.py:222-223 | two successive selections are one selection of the composed positions |
| Frames.DropColumns | app/common/utils.py:112 | the kept columns are exactly the input columns the test does not drop, each once and in their original order |
| Frames.LookupDrop | app/common/utils.py:112 | dropping other columns does not change what a kept name refers to |
| Frames.LookupRename | app/common/utils.py:114 | `rename(columns=...)` keeps every column in place with its values; a renaming that neither moves a name nor maps another name onto it keeps its lookup |
| Frames.SetColumn | app/pages/comparison.py:108 | `df[name] = vs` reads back as `vs`, leaves every other name alone, and appends the name only when absent |
| Frames.Project | app/pages/comparison.py:111 | `df[[a, b]]` has exactly those columns, in that order, with their values |
| Frames.DataFrame.Drop | app/common/utils.py:111-112 | `drop(..., inplace=True)` replaces the columns by the kept ones and keeps the height |
| Frames.DataFrame.Assign | app/pages/comparison.py:148-152 | an in-place column assignment leaves the object equal to `SetColumn` of its old state |
| Merge.KeyMatches | app/common/utils.py:103-109 | the right rows matching a key: increasing, all equal to it, and all of them |
| Merge.JoinPairs | app/common/utils.py:103-109 | the left join has at least one row per left row; a matched row has an equal right key; an unmatched row's key is absent on the right |
| Merge.JoinOrdered | app/common/utils.py:103-109 | the join keeps the left order |
| Merge.JoinCovers | app/common/utils.py:103-109 | every left row appears in the join |
| Merge.UniqueKeysKeepLeftRows | app/common/utils.py:103-109 | with unique right keys the join has exactly one row per left row, in order |
| Merge.RightColumns | app/common/utils.py:103-109 | the `i`-th right column of the join comes from the `i`-th non-key right column, suffixed on collision, holds the matched right row's value at each matched join row and NaN at each unmatched one |
| Merge.RightColumnsMatched | app/common/utils.py:103-109 | at a matched join row, the `i`-th right column holds the matched right row's cell of the `i`-th non-key right column, under that column's (possibly suffixed) name |
| Merge.LeftJoin | app/common/utils.py:103-109 | the join has one row per join pair; its columns are the left columns, each gathered along the join rows, followed by the right columns |
| Merge.JoinLeftColumn | app/common/utils.py:103-109 | each left column keeps its place, is suffixed with `s0` only on a non-key collision, and holds its values along the join rows |
| Merge.LatLon | app/common/utils.py:114 | after the rename no name is `lat_center` or `lon_center` |
| Merge.Finish | app/common/utils.py:111-114 | drop-then-rename keeps the height, leaves no centre names, and with `drop` leaves no name containing `suffixes[1]` |
| Merge.RenamedKeepsNoSuffix | app/common/utils.py:111-114 | renaming a centre column cannot introduce the dropped suffix |
| Merge.MergeDf | app/common/utils.py:102-116 | `merge_df` equals the reference merge: at least the left row count, no centre names, no name containing `suffixes[1]` when dropping |
| Merge.MergedHeight | app/common/utils.py:103-109 | the merge keeps at least the left row count, and exactly it when the right keys are unique |
| Merge.FinishKeeps | app/common/utils.py:111-114 | a column neither dropped nor renamed reads the same after the drop and rename |
| Merge.JoinLeftNames | app/common/utils.py:103-109 | with an empty left suffix every left column keeps its name |
| Merge.JoinLeftLookup | app/common/utils.py:103-109 | with an empty left suffix a left column reads as its values along the join rows |
| Merge.LeftValuesKept | app/common/utils.py:102-116 | with an empty left suffix a kept left column holds the left values along the join rows, exactly the left values when the right keys are unique |
| Merge.DroppedNameAbsent | app/common/utils.py:111-112 | with `drop`, a name containing `suffixes[1]` is not in the result |
| Merge.FinishRenames | app/common/utils.py:114 | a column that is not dropped reaches the result under its renamed name |
| Merge.CentersRenamed | app/common/utils.py:114 | a left `lat_center`/`lon_center` that is not the key and has no right namesake arrives as `lat`/`lon`, unless `drop` removes it for containing `suffixes[1]` |
| Merge.DropKeepsLeftValues | tests/unit/test_utils.py:76-95 | the drop example keeps the left `value` column [10, 20] and has no `value_right` |
| Polygons.Box | app/common/utils.py:122 | `box` is a closed five-point ring over the four given coordinates |
| Polygons.BoundsOf | app/common/utils.py:122 | the reported bounds enclose every point of the ring |
| Polygons.BoundsAttained | app/common/utils.py:122 | each bound is a coordinate of some point of the ring |
| Polygons.Area | app/common/utils.py:122 | the area is never negative |
| Polygons.BoxBounds | app/common/utils.py:119-122 | a box's bounds are the minima and maxima of its corner coordinates, in whatever order they were given |
| Polygons.OrderedBoxBounds | tests/unit/test_utils.py:14-45 | a box built from ordered corners has bounds equal to the four arguments |
| Polygons.BoxArea | app/common/utils.py:119-122 | the area of a box is the absolute value of width times height |
| Polygons.DegenerateBoxArea | tests/unit/test_utils.py:26-33 | a point box, and any box of zero width or height, has area 0 |
| Polygons.MakePolygons | app/common/utils.py:125-140 | defined iff the four corner columns and the value column exist and no corner is text; then exactly the columns value and `geometry`, the values unchanged, one box per row in row order |
| Polygons.Lift | app/common/utils.py:137 | a numeric polygon as cells keeps every point |
| Polygons.NumericRow | app/common/utils.py:136-137 | a row with numeric corners gets exactly `lonlat_to_polygon` of its corners |
| Regions.RegionPath | app/common/region_builder.py:14-22 | "pref" reads the region master, "city" the city master, anything else the Hokkaido master |
| Regions.PrefcodeToNameMaps | app/common/region_builder.py:26-38 | both maps, built by zipping the master's code column with a name column, have distinct keys, exactly the master's codes, at most one entry per row, and the last row's name for a repeated code |
| Regions.Unique | app/common/region_builder.py:57 | `unique()` lists each region once, exactly the regions present, in order of first appearance |
| Regions.Prefectures | app/common/region_builder.py:77 | the list has one entry per row of the chosen region, in row order, each that row's prefecture name, so `len(prefectures) == 1` counts rows |
| Regions.SelectedPrefecture | app/common/region_builder.py:79-82 | a sole prefecture is selected without asking, otherwise the answer is used |
| Regions.PrefPairs | app/common/region_builder.py:84-86 | the records are exactly the rows carrying the selected prefecture name |
| Regions.CityPairs | app/common/region_builder.py:119-121 | the records are exactly the rows of the whole city master whose name was chosen |
| Regions.CityOptions | app/common/region_builder.py:100-107 | for Hokkaido the cities of the chosen sub-region (none while no sub-region is chosen), otherwise the cities of the selected prefecture |
| Regions.RegionBuilder | app/common/region_builder.py:41-133 | no region gives `(None, None)`; a falsy prefecture stops; an empty city list crashes at `city_name[0]`; otherwise the maps are built from the selected records |
| Regions.SinglePrefectureAutoSelected | app/common/region_builder.py:79-80 | with one prefecture in the region the prefecture answer makes no difference |
| Regions.PrefDictOnlySelected | app/common/region_builder.py:84-88 | `pref_dict` holds exactly the codes of rows with the selected name, each mapped to that name |
| Regions.CityDictByName | app/common/region_builder.py:119-125 | `city_dict` holds exactly the codes whose name was chosen, in any prefecture, each mapped to the chosen name of a row with that code |
| Regions.SameNameAcrossPrefectures | app/common/region_builder.py:119-125 | choosing 府中市 puts both Tokyo's and Hiroshima's code in `city_dict` |
| Regions.HokkaidoNeedsSubregion | app/common/region_builder.py:100-117 | Hokkaido with no sub-region chosen crashes at `city_name[0]` once a prefecture is in use |
| Wizard.Buttons | app/common/step_by_step.py:46-53 | next iff `now <= 1`, back iff `now >= 1`, restart iff `now >= 2` |
| Wizard.Initialized | app/common/step_by_step.py:18-22 | both keys are set to 0 and False only when `now` is absent |
| Wizard.Step | app/common/step_by_step.py:24-53 | next is `countup(False)`, back is `countdown`, restart is `reset`, with their effects on `now` and `rst` |
| Wizard.InitializeIdempotent | app/common/step_by_step.py:18-22 | a second `initialize_state` changes nothing |
| Wizard.StepInRange | app/common/step_by_step.py:46-53 | an offered button keeps `now` in 0..2 and `rst` False |
| Wizard.RunInRange | app/common/step_by_step.py:46-53 | any run of offered buttons keeps `now` in 0..2 and `rst` False |
| Wizard.FreshSessionInRange | app/common/step_by_step.py:14-22 | a fresh session starts in range and stays there under offered buttons |
| Wizard.StepByStep.constructor | app/common/step_by_step.py:14-16 | binding to the session initialises it |
| Wizard.StepByStep.InitializeState | app/common/step_by_step.py:18-22 | updates the fields as `Initialized` says |
| Wizard.StepByStep.Countup | app/common/step_by_step.py:24-27 | `now` plus one and `rst` set to the argument |
| Wizard.StepByStep.Countdown | app/common/step_by_step.py:29-31 | `now` minus one, `rst` unchanged |
| Wizard.StepByStep.Reset | app/common/step_by_step.py:33-35 | `now` is 0, `rst` unchanged |
| Wizard.StepByStep.Press | app/common/step_by_step.py:46-53 | a click on a shown button updates the fields as `Step` says and keeps them in range |
| Comparison.Filter | app/pages/comparison.py:221-225 | `_filter` is defined iff both flag columns exist, and keeps the columns and at most the rows |
| Comparison.FilterKeepsExactly | app/pages/comparison.py:221-225 | `_filter` keeps exactly the rows with both selected codes, in their original order |
| Comparison.FilterSelects | app/pages/comparison.py:221-225 | the two filters select the composed increasing positions |
| Comparison.FilterKeptMatch | app/pages/comparison.py:221-225 | every kept row has the selected day type and time of day |
| Comparison.FilterComplete | app/pages/comparison.py:221-225 | every row with both selected codes is kept |
| Comparison.FilterIdempotent | app/pages/comparison.py:221-225 | filtering a filtered table changes nothing |
| Comparison.ClearedFlagKeepsNothing | app/pages/comparison.py:222 | a cleared day-type control keeps no row |
| Comparison.CityFilter | app/pages/comparison.py:45-47 | no selection leaves the table as it is; a selection needs the `citycode` column and keeps the columns |
| Comparison.CityFilterKeepsExactly | app/pages/comparison.py:45-47 | the city filter keeps exactly the rows whose code was selected, in order |
| Comparison.Zoom | app/pages/comparison.py:134-139 | 9 with no city, 11 with one, 10 with several, always within the maps' 9..14 bounds (app/common/folium_map_builder.py:75-76) |
| Comparison.Ratio | app/pages/comparison.py:108 | `a / b - 1` per cell: the ratio for a non-zero baseline, an infinity for a zero baseline and a non-zero count, NaN for 0/0 or a NaN operand, a TypeError for text |
| Comparison.RatioColumn | app/pages/comparison.py:108 | defined iff no cell is text, and then the cell-wise ratio |
| Comparison.DiffTable | app/pages/comparison.py:108-111 | exactly the columns `mesh1kmid` and `diff`, the keys unchanged, `diff` the cell-wise ratio of the two counts |
| Comparison.DropNa | app/pages/comparison.py:120 | `dropna(subset=["diff"])` keeps only non-NaN cells, the columns and at most the rows |
| Comparison.DropNaKeeps | app/pages/comparison.py:120 | `dropna` keeps a row iff its cell is not NaN, so infinities stay, in order |
| Comparison.JoinedCountMissing | app/pages/comparison.py:97-104 | in the 2021/2020 join the 2020 count is NaN at every unmatched 2021 row |
| Comparison.LeftNamesAvoid | app/pages/comparison.py:97-104 | no left column of that join is named `population_2020` |
| Comparison.DiffCellMissing | app/pages/comparison.py:108 | a NaN 2020 count gives a NaN ratio |
| Comparison.UnmatchedRatioMissing | app/pages/comparison.py:97-108 | a 2021 mesh without a 2020 row gets a NaN ratio |
| Comparison.MatchedRatio | app/pages/comparison.py:97-108 | a 2021 mesh with a 2020 row gets as its ratio that of its own `population` and the matched row's `population` |
| Comparison.MatchedRatioExample | app/pages/comparison.py:97-108 | a one-mesh pair of tables (3 people in 2021, 2 in 2020) meets every precondition of `MatchedRatio`, joins to one matched row, and has ratio 0.5 |
| Comparison.JoinedCount2021 | app/common/utils.py:103-109 | in the 2021/2020 join the 2021 count of each join row is the `population` of its 2021 row |
| Comparison.LeftCount2021 | app/common/utils.py:103-109 | the left column named `population_2021` holds the 2021 `population` gathered along the join rows |
| Comparison.JoinedCount2020 | app/common/utils.py:103-109 | in that join the 2020 count of a matched join row is the `population` of its 2020 row |
| Comparison.SubTableSelects | app/pages/comparison.py:115-120 | the ratio layer's rows are the merged rows with a present ratio |
| Comparison.MissingRatioDropped | app/pages/comparison.py:115-120 | a NaN ratio never survives `dropna` |
| Comparison.UnmatchedMeshDropped | app/pages/comparison.py:97-121 | a 2021 mesh without a 2020 match never reaches `gdf_sub` |
| Comparison.Label | app/pages/comparison.py:148-152 | `Series.map`, applied cell by cell: a whole-number code in the table becomes its label, anything else NaN |
| Comparison.Relabelled | app/pages/comparison.py:148-152 | relabelling one column keeps the height and the column names |
| Comparison.DataMapped | app/pages/comparison.py:144-154 | `_datamap` is defined iff the five code columns exist, and keeps the height and names |
| Comparison.DataMapLabels | app/pages/comparison.py:144-154 | each code column holds the labels of its former codes from its table, every other column is unchanged |
| Comparison.RelabelledLookup | app/pages/comparison.py:148-152 | one relabelling changes its own column and no other |
| Comparison.DayTypeLabels | app/pages/comparison.py:148-149 | day-type codes 0, 1, 2 read as 休日, 平日, 全日; an unknown code reads as NaN |
| Comparison.DataMappedLabelled | app/pages/comparison.py:144-154 | after `_datamap` every code column holds only labels or NaN |
| Comparison.DataMap | app/pages/comparison.py:144-154 | the in-place method succeeds iff the five columns exist, and then leaves the table equal to the reference `_datamap` |
| Comparison.Load | app/pages/comparison.py:38-39 | a fetch either loads a table, only when the archive path resolves, or ends the page with one of the three messages or an exception |
| Comparison.FromtoView | app/pages/comparison.py:52-67 | the city-flow dataset ends with two relabelled tables or an exception, never a map |
| Comparison.MainLayer | app/pages/comparison.py:84-93 | the population layer has exactly the columns population and `geometry`, and the centre table `lat` and `lon` |
| Comparison.Centre | app/pages/comparison.py:93 | `df_main[["lat", "lon"]]` exists iff both columns do, with the same row count |
| Comparison.SubTable | app/pages/comparison.py:115-120 | the ratio rows that reach the map have no NaN ratio |
| Comparison.DiffLayer | app/pages/comparison.py:97-121 | the ratio layer has exactly the columns `diff` and `geometry` and no NaN value |
| Comparison.Layers | app/pages/comparison.py:84-141 | both layers are built or the page crashes; a map has the right layers and zoom |
| Comparison.MapView | app/pages/comparison.py:73-141 | the mesh dataset ends with a map or an exception, never with tables |
| Comparison.MeshAttributes | app/pages/comparison.py:32-33 | the mesh attributes are fetched iff the dataset is mdp |
| Comparison.Narrowed | app/pages/comparison.py:38-47 | the first failure among the 2021 fetch, the 2020 fetch and the city filter decides the result; no selection leaves both tables as fetched |
| Comparison.Years | app/pages/comparison.py:38-47 | the two years fetched and narrowed, or a fetch message or an exception; a success only for `ss.set` mdp, fromto or `"mesh1km"` (the only value outside the widget's options whose path resolves) |
| Comparison.Dispatch | app/pages/comparison.py:52-141 | fromto gives tables (relabelled) or a crash; any other dataset gives a map or a crash; a map needs `ss.df_mesh` |
| Comparison.YearsThenView | app/pages/comparison.py:38-141 | a stop shows a fetch message; fromto never gives a map, mdp never tables; a map needs mesh attributes and `ss.set` mdp or `"mesh1km"` |
| Comparison.Step2 | app/pages/comparison.py:29-141 | `step_2`: a stop shows a fetch message; fromto returns relabelled tables and no map; a map needs `ss.set` mdp, or `"mesh1km"` with an earlier `ss.df_mesh`, and has both layers, no NaN ratio and the zoom for the cities selected |
| Comparison.PageState.constructor | app/pages/comparison.py:20 | the session keys start as given |
| Comparison.PageState.Fetches | app/pages/comparison.py:32-47 | the fetches stop exactly on a mesh or year failure, with that outcome; `ss.df_mesh` is set by a successful mdp fetch and otherwise kept; on success the year keys hold `Years` |
| Comparison.PageState.Store | app/pages/comparison.py:38-47 | storing the two years and narrowing them stops exactly when `Narrowed` fails, and otherwise leaves its tables in the keys |
| Comparison.PageState.Step2Page | app/pages/comparison.py:29-141 | `step_2` on the session object gives the view `Step2` gives for the session's earlier `ss.df_mesh` |

## Left out

- HTTP, zip and CSV: `requests.get`, `zipfile` and `pd.read_csv` are parameters (`Env.download`, `Env.read`). The model keeps the member-name list, the choice of member, and the kind of exception reading that member raises (a ValueError, a BadZipFile, anything else); which bytes raise which exception, and what the parser makes of a member's bytes, are not modelled.
- `st.cache_data` on `_unzip_csv` and `prefcode_to_name`: memoisation cannot change a result of a function of its inputs.
- Streamlit widgets and rendering: every control answer is an input, and `st.write`, `st.popover`, `st.expander`, `st.subheader` and the sidebars are not modelled. The month bound of `st.number_input` is the precondition of `Fetch.MonthSegment`.
- The page dispatch on `ss.now` and `step_1` (app/pages/comparison.py:232-250) are not modelled beyond the wizard itself; `ss.pref` is an input of `step_2`.
- `folium_map_builder`, `maplibre_map_builder`, `routing` and the `maplibre_test` page: rendering and navigation. Only their zoom bounds appear, in `Comparison.Zoom`.
- `pd.merge` internals: the join is given by its documented meaning. The model does not cover `MergeError`, a missing key column (a precondition), outer/inner joins (`how` is always "left" here) or duplicate column names that pandas suffixes further.
- Floating point: numbers are reals, so the ratio is exact. The model keeps NaN and the infinities that `x/0` gives; it has no rounding.
- shapely: only `box`, `bounds` and `area` of a polygon without holes. Converting a cell to a float is covered only as "text cannot be read".
- Streamlit's `StopException` and other exceptions both end the page. The model tells them apart (`Halted`, `Crashed`) but does not model how exceptions propagate.
- The facts in tests/unit/test_region_builder.py:68-74 depend on the CSV assets, not on the code.
- Comparison.DataMap: when a code column is missing, the method's contract says only that the names and height are kept. The columns relabelled before the failure are not stated.
- Merge.LeftValuesKept: stated for an empty left suffix, the one `step_2` and the drop example use. With a non-empty left suffix a colliding left column is renamed, and `Merge.JoinLeftColumn` covers that case.
- Comparison.PageState.Fetches: says which keys hold what after success and after each stop, but not which year keys a failed run had already written.
