# Berlin traffic dashboard: a verified model of the data pipeline and the map animation

The repository turns hourly counts from Berlin's traffic detectors into an
animated map. This project models its core in Dafny:

- **Loading** (`KpiLoader`). The KPI loader keeps the rows whose quality
  (`qualitaet`) is at least 0.75. It parses the `tag` day with the
  `%d.%m.%Y` format and renames `stunde` to `hour`.
- **Enriching** (`Enricher`). The enricher left-joins the cleaned table with
  the detector master data on `detid_15`, drops detectors that have no WGS84
  location, and copies the coordinates into `lon` and `lat`. The same class
  appears twice in the repository; both copies are modelled by the same
  module.
- **Matching** (`OsmMatcher`). The street matcher turns every detector into
  a point. It joins each point with its nearest road segment (every
  equidistant segment, as a left join), merges back the segment geometry,
  resolves the segment name and keeps the KPI columns. Its aggregation
  averages one KPI per (segment geometry, segment name).
- **Snapshot keys** (`SnapshotKeys`, `Dates`). Both snapshot generators key
  every row by `YYYY-MM-DD HH:00`. They take the distinct keys and slice the
  table by key.
- **The MongoDB generator** (`SnapshotStore`). It clears the collection, then
  loops over the keys and the six vehicle/KPI combinations. It skips a
  combination when the KPI column is missing, when aggregation raises
  `ValueError`, or when no segment has a geometry. Otherwise it inserts one
  document per (key, vehicle type, KPI type). Any other exception ends the
  script.
- **The file generator** (`SnapshotFiles`). It writes one GeoJSON file per
  key under `data/road_kpi_snapshots`. Each file name has the key with `:`
  replaced by `-`.
- **The dashboard pages** (`Dashboard`, `Animation`, `ColorScales`). Two
  Streamlit pages, `Home.py` and `Home_4.py`, keep session state across
  reruns. Each run turns the selected start and end times into a range of
  frame indices. That range is handed to an embedded JavaScript animation,
  which clamps its current index into the range and advances it once per
  timer tick, wrapping around at the end. Segments are coloured by
  threshold chains, with a legend beside them.

Tables are lists of rows, and each row is a map from column name to cell. A
missing cell stands for NaN, None and NaT alike. Pandas operations become
functions with the exceptions they raise (`KeyError`, `ValueError`,
`TypeError`, `MergeError`, `IndexError`, `AttributeError`) as `Result`
errors.

Objects whose fields the source updates in place are classes with methods:
`TrafficKpiLoader`, `TrafficDataEnricher`, `StreetMatcher`, the MongoDB
collection, the output directory, the two pages' session state and the
JavaScript frame stepper. Each method is proved against a specification
function.

The generators' loops are methods with loop invariants. Each invariant ties
the state to a function over the prefix of keys processed so far.

Things outside the program become parameters:

- the contents of the CSV, the Excel sheet and the road graph;
- the distance between a point and a segment;
- whether the database accepts an insert.

`Home.py` stores the start index as a position among the available times
(lines 237-238). On the next run, lines 179 and 203 use it as a position in
`unique_times`. `Dashboard.HomeSession.Run` keeps this as written, and
`Dashboard.HomeSession.RunCorrected` queries from the chosen start time's
position instead (see Findings). In the same way, src/scripts/generate_snapshot.py
line 28 omits the KPI column: `SnapshotFiles.SnapshotFilesRunAsWritten` is the
loop as written, and the rest of `SnapshotFiles` is the loop with the column
passed.

## Model

| member | source | states |
|---|---|---|
| Frames.Filter | src/scripts/processor/osm_matcher.py:30 | A boolean-mask selection keeps exactly the rows that satisfy the condition and no others, and never grows the table |
| Frames.FilterSelectsInOrder | scripts/processor/kpi_loader.py:10 | A mask selection keeps the satisfying positions, in increasing order: it is an order-preserving subsequence |
| Frames.FilterMultiplicity | scripts/processor/kpi_loader.py:10 | A mask keeps every copy of a satisfying row and no copy of any other |
| Frames.Unique | scripts/generate_snapshot.py:54 | `Series.unique()` has no repeats and exactly the values of the column |
| Frames.SetColumn | scripts/processor/kpi_loader.py:12 | `df[c] = cells` puts cell i in row i under `c`, changes no other column, appends `c` only when new, and keeps the table well formed |
| Frames.DropColumn | scripts/processor/kpi_loader.py:13 | `drop(columns=[c])` removes `c` from the columns and from every row and leaves every other cell alone |
| Frames.RenameColumn | scripts/processor/enricher.py:19 | `rename(columns={from: to})` ignores an absent column, renames it in place in the column list, and moves each row's cell to the new name |
| TextUtil.LexTotal | src/scripts/processor/osm_matcher.py:73 | Python's string order is total (with `LexTransitive` and `LexIrreflexive`, a strict total order), so `sorted` is well defined |
| TextUtil.SortedDistinct | src/scripts/processor/osm_matcher.py:73 | `sorted(set(names))` is strictly increasing and holds exactly the given names |
| TextUtil.StrictlySortedUnique | src/scripts/processor/osm_matcher.py:73 | Two strictly increasing lists with the same elements are equal: `sorted(set(...))` has one possible result |
| TextUtil.NatToStrValue | scripts/generate_snapshot.py:53 | `str(hour)` reads back as the same number |
| TextUtil.NatToStrLength | scripts/generate_snapshot.py:53 | `str(n)` has at most `w` digits exactly when `n < 10^w` |
| TextUtil.Zfill | scripts/generate_snapshot.py:53 | `str.zfill(w)` returns a string of length `max(len, w)` |
| TextUtil.ZerosPrefixValue | scripts/generate_snapshot.py:53 | Leading zeros from `zfill` do not change the number the digits denote |
| TextUtil.PadNatFacts | scripts/generate_snapshot.py:53 | `str(n).zfill(w)` for `n < 10^w` is exactly `w` digits denoting `n` |
| TextUtil.SplitOnce | scripts/generate_snapshot.py:76 | `split(sep, 1)` gives two parts exactly when `sep` occurs; the first part has no `sep`, and the parts rejoin to the input |
| TextUtil.SplitOnceJoined | scripts/generate_snapshot.py:76 | Splitting `a + sep + b` with `sep` not in `a` gives back `(a, b)` |
| TextUtil.ReplaceChar | src/scripts/generate_snapshot.py:34 | `replace(from, to)` changes exactly the `from` characters and keeps the length |
| TextUtil.ReplaceCharInjective | src/scripts/generate_snapshot.py:34 | Strings whose `from` characters sit at the same places and that agree after the replacement are equal |
| Dates.ParseDmy | scripts/processor/kpi_loader.py:11 | `to_datetime(format="%d.%m.%Y")` accepts only a real calendar day in pandas' nanosecond range; everything else is `ValueError` |
| Dates.ParseFormatDmy | scripts/processor/kpi_loader.py:11 | Printing a valid in-range day as `%d.%m.%Y` and parsing it back gives the same day |
| Dates.KeyFacts | scripts/generate_snapshot.py:53 | For an in-range day and an hour 0-23, the snapshot key is 16 characters of the shape `YYYY-MM-DD HH:00`, and its fields denote the year, month, day and hour |
| Dates.ParseKeyRoundTrip | scripts/generate_snapshot.py:53 | Reading a key back gives its day and hour |
| Dates.KeyInjective | scripts/generate_snapshot.py:53 | Different (day, hour) pairs never share a snapshot key |
| Dates.SafeTimestamp | src/scripts/generate_snapshot.py:34 | `ts.replace(":", "-")` has no colon and keeps every other character in place |
| Dates.SafeTimestampInjective | src/scripts/generate_snapshot.py:34 | Two well-shaped keys with the same safe form are the same key |
| Dates.Reformat | streamlit_app/Home.py:31-34 | Reparsing a stored key and printing it as `%Y-%m-%d %H:00` succeeds exactly on the key of a real day in pandas' range and an hour 0-23, and then gives the key back |
| Dates.ReformatAll | streamlit_app/Home.py:31-34 | Reparsing the whole list fails exactly when one key does not parse; otherwise it gives every key back in place |
| Dates.ReformatKey | streamlit_app/Home.py:31-34 | Reparsing and reprinting a key the generator wrote gives the key back |
| KpiLoader.FilterQuality | scripts/processor/kpi_loader.py:10 | `df[df["qualitaet"] >= 0.75]` raises `KeyError` without the column and `TypeError` on a non-numeric quality; otherwise it keeps exactly the rows with quality at least 0.75 (a missing quality is dropped), with the same columns |
| KpiLoader.FilterQualityInOrder | scripts/processor/kpi_loader.py:10 | Row k of the filtered table is the k-th good row of the input: the filter keeps input order |
| KpiLoader.QualityBoundary | scripts/processor/kpi_loader.py:10 | The threshold is inclusive: a quality of 0.75 is kept, anything below is dropped |
| KpiLoader.ParseTagCell | scripts/processor/kpi_loader.py:11 | A text day is accepted exactly when `%d.%m.%Y` parses it, and becomes that day; a missing day stays missing (NaT) |
| KpiLoader.ParseTagCells | scripts/processor/kpi_loader.py:11 | Parsing the column fails exactly when some row's day fails, else gives one parsed cell per row |
| KpiLoader.ParseTags | scripts/processor/kpi_loader.py:11 | Replacing `tag` by its parsed days: `KeyError` without the column; otherwise it succeeds exactly when every day parses and changes no other cell |
| KpiLoader.CopyHour | scripts/processor/kpi_loader.py:12 | `df["hour"] = df["stunde"]` fails exactly when `stunde` is absent, and otherwise copies it row by row |
| KpiLoader.CleanSpecRows | scripts/processor/kpi_loader.py:9-13 | After `_clean`: no `stunde` column; row i is the i-th good input row; its `hour` is its former `stunde`, its `tag` the parsed day, and every other cell is unchanged |
| KpiLoader.TrafficKpiLoader.constructor | scripts/processor/kpi_loader.py:5-7 | Stores the path; no table yet |
| KpiLoader.TrafficKpiLoader.Clean | scripts/processor/kpi_loader.py:9-13 | `_clean` leaves the cleaned table in `df`. A raising step leaves `df` as the earlier steps made it, because each step reassigns `df` |
| KpiLoader.TrafficKpiLoader.Load | scripts/processor/kpi_loader.py:15-18 | `load` returns the cleaned CSV table and keeps it in `df` |
| Enricher.Partners | scripts/processor/enricher.py:20 | The metadata rows a KPI row joins with are exactly those with its `detid_15` |
| Enricher.JoinPairs | scripts/processor/enricher.py:20 | The left join pairs every KPI row with each of its partners, or with nothing when it has none; it never loses a KPI row |
| Enricher.JoinPairsComplete | scripts/processor/enricher.py:20 | Every KPI/metadata pair with equal keys is in the join, and every KPI row without a partner is in it unmatched |
| Enricher.RightOnly | scripts/processor/enricher.py:20 | The merge adds the metadata columns other than the key |
| Enricher.FromPairs | scripts/processor/enricher.py:20 | A merged row has exactly the merged column names |
| Enricher.FromPairsGet | scripts/processor/enricher.py:20 | With distinct names, each merged column holds its own cell |
| Enricher.LeftPairs | scripts/processor/enricher.py:20 | KPI cells of a merged row go under the KPI names, with `_x` on a shared non-key name |
| Enricher.RightPairs | scripts/processor/enricher.py:20 | Metadata cells of a merged row go under their names, with `_y` on a shared non-key name, and are missing without a partner |
| Enricher.LeftMerge | scripts/processor/enricher.py:20 | `pd.merge(how="left", on="detid_15")` raises `KeyError` when a side lacks the key and `MergeError` on clashing names; otherwise row i is the merge of join pair i |
| Enricher.MergedPairsDistinct | scripts/processor/enricher.py:20 | Tables that share only the key give merged rows with distinct column names |
| Enricher.MergedRowCells | scripts/processor/enricher.py:20 | With only the key shared, a merged row keeps every KPI cell and holds the partner's metadata cells, or missing values without a partner |
| Enricher.MergedColumnsDisjoint | scripts/processor/enricher.py:20 | With only the key shared, the merged columns are the KPI columns followed by the other metadata columns |
| Enricher.DropMissingLocation | scripts/processor/enricher.py:23 | `dropna(subset=[LÄNGE, BREITE])` raises `KeyError` without a coordinate column; otherwise it keeps exactly the rows that have both coordinates |
| Enricher.AddLonLat | scripts/processor/enricher.py:24-25 | `lon` and `lat` copy the two WGS84 columns row by row; every other cell is unchanged |
| Enricher.LocatedRowMatched | scripts/processor/enricher.py:20-23 | A merged row with a metadata coordinate had a partner, and it keeps the KPI row's key |
| Enricher.MergeRowsLocated | scripts/processor/enricher.py:20-23 | Every merged row with a longitude comes from a join pair whose partner has the KPI row's key |
| Enricher.MergedColumnFrom | scripts/processor/enricher.py:20 | A merged column that is not a KPI column is a metadata column |
| Enricher.EnrichedRow | scripts/processor/enricher.py:23-25 | One enriched row has both coordinates, `lon`/`lat` equal to them, and comes from a matched join pair |
| Enricher.EnrichedRows | scripts/processor/enricher.py:23-25 | The same for every enriched row |
| Enricher.MergeAndLocateRows | scripts/processor/enricher.py:19-27 | Every row `enrich` returns has both coordinates, `lon`/`lat` equal to them, and comes from a KPI row joined with master data of the same detector: detectors without master data never survive |
| Enricher.TrafficDataEnricher.constructor | scripts/processor/enricher.py:5-10 | Stores the KPI table and the path; the sheet defaults to `Stammdaten_TEU_20220720`; no metadata or result yet |
| Enricher.TrafficDataEnricher.Enrich | src/scripts/processor/enricher.py:17-29 | `enrich` returns the merged, located table with `lon`/`lat` and keeps it in `df_enriched`. `df_metadata` holds the renamed sheet. A raising step leaves the fields as the earlier steps made them. The KPI table is never changed |
| OsmMatcher.Enumerate | src/scripts/processor/osm_matcher.py:31-32 | After `reset_index`, edge i carries `osm_id_index == i` |
| OsmMatcher.IndexEdges | src/scripts/processor/osm_matcher.py:29-32 | The loaded edge table holds the graph's edges that have a geometry, in order, each indexed by its row position |
| OsmMatcher.IndexEdgesKeepsGeometries | src/scripts/processor/osm_matcher.py:30 | Every edge with a geometry is kept, and kept edges keep their relative order |
| OsmMatcher.LookupEdge | src/scripts/processor/osm_matcher.py:62-68 | The merge on `osm_id_index` finds exactly the edges with that index |
| OsmMatcher.LookupIndexed | src/scripts/processor/osm_matcher.py:62-68 | Because the index is the row position, the merge finds exactly the edge at that position, or none out of range |
| OsmMatcher.PointCell | src/scripts/processor/osm_matcher.py:37 | `points_from_xy` gives the point (lon, lat) when both are numbers, an empty geometry when one is missing, and an error otherwise |
| OsmMatcher.PointCells | src/scripts/processor/osm_matcher.py:37 | The points column fails exactly when one row's point fails, else gives one point per row |
| OsmMatcher.ToGeo | src/scripts/processor/osm_matcher.py:34-40 | `_to_geo` raises `KeyError` without `lon`/`lat`; otherwise it adds each row's point as `geometry` and keeps the rows |
| OsmMatcher.MinDistance | src/scripts/processor/osm_matcher.py:54-59 | The least distance from a detector to any edge, attained by some edge |
| OsmMatcher.NearestFrom | src/scripts/processor/osm_matcher.py:54-59 | Lists exactly the positions at a given distance |
| OsmMatcher.NearestPositions | src/scripts/processor/osm_matcher.py:54-59 | The positions at the least distance are exactly the nearest edges |
| OsmMatcher.MatchesAt | src/scripts/processor/osm_matcher.py:54-59 | One join row per chosen edge, carrying `index_right` and `dist_to_road` |
| OsmMatcher.NearestMatches | src/scripts/processor/osm_matcher.py:54-59 | A located detector gets one join row per nearest edge, each at the least distance, and every nearest edge appears |
| OsmMatcher.NearestRows | src/scripts/processor/osm_matcher.py:54-59 | A detector without a point, or with no edges, gets one unmatched row; otherwise it gets one row per nearest edge |
| OsmMatcher.SJoinNearest | src/scripts/processor/osm_matcher.py:54-59 | `sjoin_nearest(how="left")` rows are nearest rows of the input detectors, at least one per detector |
| OsmMatcher.SJoinNearestRows | src/scripts/processor/osm_matcher.py:54-59 | Every detector survives the left join, and every nearest row of every detector is in it |
| OsmMatcher.NearestRowsTie | src/scripts/processor/osm_matcher.py:54-59 | Two equidistant edges give a detector two rows |
| OsmMatcher.MergeEdgesExact | src/scripts/processor/osm_matcher.py:62-68 | On an indexed edge table, the merge keeps one row per join row, with the edge that `index_right` names |
| OsmMatcher.FillName | src/scripts/processor/osm_matcher.py:76 | `fillna(STRASSE)`: the segment name, or the detector's street when the name is missing |
| OsmMatcher.FlattenName | src/scripts/processor/osm_matcher.py:70-74 | `flatten_name_field`: a list becomes one text, a text stays, an integer becomes its `str`, and only a missing value gives None |
| OsmMatcher.FlattenNameCanonical | src/scripts/processor/osm_matcher.py:73 | A list's flattened name is its distinct names, sorted, joined by `, ` |
| OsmMatcher.FlattenNameSameNames | src/scripts/processor/osm_matcher.py:73 | Lists with the same names flatten alike, whatever their order and repeats |
| OsmMatcher.FlattenNameCaseSensitive | src/scripts/processor/osm_matcher.py:73 | De-duplication is case-sensitive: names differing only in case both stay |
| OsmMatcher.ProjectRow | src/scripts/processor/osm_matcher.py:76-81 | An output row has exactly `geometry`, `name_road_segment` and the KPI columns; the geometry is the segment's, the name is filled then flattened, and the KPI cells are the detector's |
| OsmMatcher.RoadKpiTable | src/scripts/processor/osm_matcher.py:76-81 | `KeyError` exactly when `STRASSE` is absent; otherwise the columns are `geometry`, `name_road_segment` and the `q_`/`v_` columns, with one projected row per merged row |
| Frames.FilterDistinct | src/scripts/processor/osm_matcher.py:81 | Selecting columns by a condition keeps distinct column names distinct (used for the KPI selection and the merge's metadata columns) |
| OsmMatcher.RoadKpiTableWellFormed | src/scripts/processor/osm_matcher.py:81 | With distinct input columns, the output table is well formed |
| OsmMatcher.MatchSpecNearest | src/scripts/processor/osm_matcher.py:42-85 | The matcher returns one row per join row (at least one per detector); row i has the geometry of its nearest edge, or none, and the detector's KPI cells |
| OsmMatcher.JoinIndicesInRange | src/scripts/processor/osm_matcher.py:54-59 | The join names only edges of the table |
| OsmMatcher.ProjectedGeometry | src/scripts/processor/osm_matcher.py:62-81 | Row i of the output carries the geometry of join row i's edge |
| OsmMatcher.GroupNumbers | src/scripts/processor/osm_matcher.py:90 | A group's numbers are exactly the numeric KPI values of the keyed rows with that key |
| OsmMatcher.Mean | src/scripts/processor/osm_matcher.py:90 | The mean exists exactly when the group has a number |
| OsmMatcher.SumBounds | src/scripts/processor/osm_matcher.py:90 | A sum of values in `[lo, hi]` lies in `[n*lo, n*hi]` |
| OsmMatcher.MeanBounds | src/scripts/processor/osm_matcher.py:90 | The mean of values in `[lo, hi]` lies in `[lo, hi]` |
| OsmMatcher.Least | src/scripts/processor/osm_matcher.py:90 | The least value of a group, which the group contains |
| OsmMatcher.Greatest | src/scripts/processor/osm_matcher.py:90 | The greatest value of a group, which the group contains |
| OsmMatcher.GroupKeys | src/scripts/processor/osm_matcher.py:90 | `groupby` keys: distinct, and exactly the keys of rows with no missing key part |
| OsmMatcher.AggregateRowKey | src/scripts/processor/osm_matcher.py:90 | An aggregated row carries its group's key |
| OsmMatcher.AggregateRows | src/scripts/processor/osm_matcher.py:90 | One row per distinct key, in order of first appearance. Row i holds exactly `geometry`, `name_road_segment` and `value`, carries the i-th key, and has as `value` the mean of its group's numbers, which lies between their least and greatest, or a missing value when the group has none |
| OsmMatcher.AggregateKpiBySegment | src/scripts/processor/osm_matcher.py:87-93 | `ValueError` exactly when the KPI column is absent, and `KeyError` when a group column is absent. Otherwise the table `geometry`, `name_road_segment`, `value` of the per-group means |
| OsmMatcher.AggregateRowsKeys | src/scripts/processor/osm_matcher.py:90 | Row i of the aggregate has the i-th distinct key |
| OsmMatcher.AggregateKeysDistinct | src/scripts/processor/osm_matcher.py:90 | No segment appears twice in the aggregate |
| OsmMatcher.AggregateKeysComplete | src/scripts/processor/osm_matcher.py:90 | Every keyed input row's segment is in the aggregate, and every aggregate row's segment comes from some input row |
| OsmMatcher.AggregateValueBounds | src/scripts/processor/osm_matcher.py:90 | Each averaged value lies between the least and the greatest numeric value of its group; a group without numbers gets a missing value |
| OsmMatcher.SingleKey | src/scripts/processor/osm_matcher.py:90 | Rows that share one key form one group |
| OsmMatcher.SegmentRow | src/scripts/processor/osm_matcher.py:90 | A matched row with the given segment key and KPI cell |
| OsmMatcher.SegmentNumbers | src/scripts/processor/osm_matcher.py:90 | Values 10, 20 and a missing one on a segment give the numbers 10 and 20 |
| OsmMatcher.AggregateIgnoresMissing | src/scripts/processor/osm_matcher.py:90 | Those three detectors average to 15: a missing value is skipped, not counted as 0 |
| OsmMatcher.AggregateAllMissing | src/scripts/processor/osm_matcher.py:90 | A group with only missing values still gets a row, with a missing value |
| OsmMatcher.DefaultCachePath | src/scripts/processor/osm_matcher.py:10-15 | The default cache file lies under the script's directory |
| OsmMatcher.StreetMatcher.constructor | src/scripts/processor/osm_matcher.py:9-18 | Stores the place and the cache path, which defaults to `berlin_drive.graphml` under the data directory; no edges yet |
| OsmMatcher.StreetMatcher.LoadOsmNetwork | src/scripts/processor/osm_matcher.py:20-32 | `osm_edges` becomes the graph's edges with a geometry, indexed by row position |
| OsmMatcher.StreetMatcher.MatchDetectorsToSegments | src/scripts/processor/osm_matcher.py:42-85 | Loads the network only when none is loaded, then returns the matcher's table for the loaded edges. `gdf_matched` holds the nearest join once the points are built |
| OsmMatcher.MatchSlice | src/scripts/processor/osm_matcher.py:42-85 | Matching on a loaded network gives the match function's result and leaves the network as it was |
| SnapshotKeys.TimestampCell | scripts/generate_snapshot.py:53 | A row's key is `%Y-%m-%d` of its day, a blank, `str(hour).zfill(2)` and `:00`; a missing day gives a missing key; any other cell is an error |
| SnapshotKeys.TimestampCells | scripts/generate_snapshot.py:53 | The key column fails exactly when one row's key fails, else gives one key per row |
| SnapshotKeys.AddTimestamps | src/scripts/generate_snapshot.py:17 | `KeyError` without `tag` or `hour`; otherwise it adds each row's key under `timestamp` and changes no other cell |
| SnapshotKeys.TimestampCellShape | scripts/generate_snapshot.py:53 | An in-range day with hour 0-23 gets a key of the `YYYY-MM-DD HH:00` shape, from which its day and hour read back |
| SnapshotKeys.UniqueTimes | src/scripts/generate_snapshot.py:18 | The distinct keys have no repeats and are exactly the keys in the table |
| SnapshotKeys.KeyedTimes | scripts/generate_snapshot.py:53-54 | Every distinct key is text or missing |
| SnapshotKeys.TimeSlice | scripts/generate_snapshot.py:73 | `df[df["timestamp"] == ts]` keeps exactly the rows with that key, with the same columns |
| SnapshotKeys.TimeSliceMissing | src/scripts/generate_snapshot.py:26 | The slice for a missing key is empty: NaN equals nothing |
| SnapshotKeys.TimeSlicesPartition | scripts/generate_snapshot.py:72-73 | Every keyed row lies in the slice of its own key, and the slices of different keys share no row: the loop visits each keyed row once |
| SnapshotStore.VehicleAndKpi | scripts/generate_snapshot.py:76-78 | `split('_', 1)` then `parts[1]` raises `IndexError` exactly when there is no `_`; otherwise the vehicle type has no `_` and rejoins with the KPI type to the key |
| SnapshotStore.ComboSplit | scripts/generate_snapshot.py:76-78 | A vehicle type without `_` and a KPI type split back from their combination key |
| SnapshotStore.CombinationKeysSplit | scripts/generate_snapshot.py:56-63 | Each of the six combination keys splits into `all`/`cars`/`trucks` and `number_of_vehicles`/`avg_speed` |
| SnapshotStore.ComboKeys | scripts/generate_snapshot.py:56-63 | The keys of the combination table, in order |
| SnapshotStore.CombinationKeysDistinct | scripts/generate_snapshot.py:56-63 | The six combination keys are distinct |
| SnapshotStore.ComboOutcome | scripts/generate_snapshot.py:75-119 | An offered document carries the iteration's key, at least one feature, and the two parts of the combination key |
| SnapshotStore.SegmentsOutcome | scripts/generate_snapshot.py:85-119 | An offered document carries the key, the vehicle and KPI types and at least one feature |
| SnapshotStore.SegmentsOutcomeRules | scripts/generate_snapshot.py:85-119 | A matcher exception ends the script. An aggregation error skips exactly when it is `ValueError`. A document is offered exactly when matching and aggregation succeed with a segment, and it holds the aggregated segments |
| SnapshotStore.ComboOutcomeRules | scripts/generate_snapshot.py:80-119 | A missing KPI column skips, and so does an aggregation `ValueError`. A document is offered exactly when the column is there and matching and aggregation succeed with a segment. Its features are the aggregate |
| SnapshotStore.EmptySliceNoOffer | scripts/generate_snapshot.py:95-102 | A key with no detector rows gives no document |
| SnapshotStore.Outcomes | scripts/generate_snapshot.py:75 | One outcome per combination |
| SnapshotStore.RunOutcomes | scripts/generate_snapshot.py:75-119 | The inner loop stores at most one document per iteration |
| SnapshotStore.RunTime | scripts/generate_snapshot.py:72-119 | One key stores at most one document per combination |
| SnapshotStore.RunTimesCount | scripts/generate_snapshot.py:69-119 | At most six documents per key: at most the announced number |
| SnapshotStore.RunOutcomesNext | scripts/generate_snapshot.py:75-119 | One more inner iteration applies its outcome to the run so far |
| SnapshotStore.RunTimesNext | scripts/generate_snapshot.py:72-119 | One more key appends its documents to the run so far |
| SnapshotStore.RunOutcomesStopped | scripts/generate_snapshot.py:85 | After an uncaught exception, later combinations add nothing |
| SnapshotStore.RunTimesStopped | scripts/generate_snapshot.py:85 | After an uncaught exception, later keys add nothing |
| SnapshotStore.Slots | scripts/generate_snapshot.py:104-109 | The (key, vehicle type, KPI type) slot of each stored document |
| SnapshotStore.RunOutcomesDocs | scripts/generate_snapshot.py:111-117 | Every stored document was offered by some iteration, and offers to different slots are stored in different slots |
| SnapshotStore.TimeOffers | scripts/generate_snapshot.py:75-109 | The offers for one key carry it and the parts of distinct combinations |
| SnapshotStore.TimeStepDocs | scripts/generate_snapshot.py:75-117 | The documents of one key carry it and the parts of a combination, and fill distinct slots |
| SnapshotStore.SlotsAppend | scripts/generate_snapshot.py:72-117 | Documents of different keys with distinct slots stay distinct when appended |
| SnapshotStore.RunTimesDocs | scripts/generate_snapshot.py:72-117 | Every stored document carries a visited key and a combination's parts, and no slot is stored twice |
| SnapshotStore.SnapshotRunDocs | scripts/generate_snapshot.py:53-117 | The script stores at most one document per (key, vehicle type, KPI type), each with a text key from the table and the parts of a combination, and at most six per key |
| SnapshotStore.TimeDocs | scripts/generate_snapshot.py:73-109 | The documents of one key carry it, and a missing key gives none |
| SnapshotStore.NoMissingKeyDocs | scripts/generate_snapshot.py:72-109 | When every key is text or missing, every document's key is text |
| SnapshotStore.RefusedInsertsContinue | scripts/generate_snapshot.py:111-117 | A refused insert loses only its own document: the script stops at the same point and stores the accepted documents in order |
| SnapshotStore.RefusedOutcomes | scripts/generate_snapshot.py:111-117 | The same for one run of outcomes |
| SnapshotStore.SnapshotCollection.constructor | scripts/generate_snapshot.py:16-19 | An empty collection with the server's acceptance rule |
| SnapshotStore.SnapshotCollection.DeleteMany | scripts/generate_snapshot.py:24 | `delete_many({})` empties the collection |
| SnapshotStore.SnapshotCollection.InsertOne | scripts/generate_snapshot.py:111-117 | `insert_one` appends the document when the server accepts it; the caught exception leaves the collection unchanged |
| SnapshotStore.ProcessCombo | scripts/generate_snapshot.py:76-119 | One inner iteration stores the offered document if accepted, reports an uncaught exception, and leaves the network alone |
| SnapshotStore.AggregateAndInsert | scripts/generate_snapshot.py:88-119 | Aggregate, check geometry and insert, as `SegmentsOutcome` says |
| SnapshotStore.ProcessAt | scripts/generate_snapshot.py:75-119 | Iteration j takes the run one step further |
| SnapshotStore.SnapshotsAt | scripts/generate_snapshot.py:73-119 | The inner loop appends exactly the documents of `RunTime` and stops exactly when it does |
| SnapshotStore.SnapshotsFor | scripts/generate_snapshot.py:72-119 | The outer loop appends exactly the documents of `RunTimes` and stops exactly when it does |
| SnapshotStore.GenerateSnapshots | scripts/generate_snapshot.py:24-119 | The script clears the collection, keys the table, loads the network once, and leaves exactly the documents of `SnapshotRun` on that network |
| SnapshotFiles.SnapshotFileAsWritten | src/scripts/generate_snapshot.py:27-28 | As written: an iteration always raises; `TypeError` for the missing `kpi_col` once matching succeeds, else the matcher's error |
| SnapshotFiles.AsWrittenLoopWritesNothing | src/scripts/generate_snapshot.py:25-35 | As written, the loop writes no file, and stops with an exception exactly when there is a key; `TypeError` when the first key matches |
| SnapshotFiles.AsWrittenWritesNothing | src/scripts/generate_snapshot.py:13-35 | As written, the directory keeps exactly the files it had after `makedirs`; a table with a key always ends in an exception |
| SnapshotFiles.SnapshotPath | src/scripts/generate_snapshot.py:34-35 | The file lies directly under `SAVE_DIR`, is named `road_kpi_` plus the key with `:` replaced by `-`, and ends in `.geojson` |
| SnapshotFiles.PathInjective | src/scripts/generate_snapshot.py:34-35 | Distinct well-shaped keys get distinct files |
| SnapshotFiles.SnapshotFile | src/scripts/generate_snapshot.py:26-35 | One key writes a file exactly when it is text and matching and aggregation succeed. The file holds the aggregate at the key's path. A missing KPI column raises `ValueError`; a missing key raises `AttributeError` on `replace` |
| SnapshotFiles.FileRuns | src/scripts/generate_snapshot.py:25-35 | The loop writes at most one file per key |
| SnapshotFiles.FileRunsFiles | src/scripts/generate_snapshot.py:25-35 | The k-th file is the k-th key's; a run that did not stop wrote one file per key |
| SnapshotFiles.FileRunsDistinctPaths | src/scripts/generate_snapshot.py:25-35 | Distinct well-shaped keys never write the same path twice |
| SnapshotFiles.FileRunsNext | src/scripts/generate_snapshot.py:25-35 | One more key applies its outcome to the run so far |
| SnapshotFiles.FileRunsStopped | src/scripts/generate_snapshot.py:25-35 | After an exception, later keys write nothing |
| SnapshotFiles.Apply | src/scripts/generate_snapshot.py:35 | Writing files adds exactly their paths to the directory |
| SnapshotFiles.ApplyDistinct | src/scripts/generate_snapshot.py:35 | When no path is written twice, each path holds what was written to it |
| SnapshotFiles.ApplyNext | src/scripts/generate_snapshot.py:35 | One more write replaces that path's content |
| SnapshotFiles.SnapshotDirectory.constructor | src/scripts/generate_snapshot.py:13 | The directory as found |
| SnapshotFiles.SnapshotDirectory.MakeDirs | src/scripts/generate_snapshot.py:13 | `makedirs(exist_ok=True)` ensures the directory exists and touches no file |
| SnapshotFiles.SnapshotDirectory.ToFile | src/scripts/generate_snapshot.py:35 | `to_file` creates or replaces the file at the path |
| SnapshotFiles.WriteSnapshot | src/scripts/generate_snapshot.py:26-35 | One iteration writes what `SnapshotFile` says and leaves the network alone |
| SnapshotFiles.WriteStep | src/scripts/generate_snapshot.py:25-35 | One pass of the loop moves the run and the directory on by one key; a raise ends the whole run |
| SnapshotFiles.WriteSnapshotsFor | src/scripts/generate_snapshot.py:25-35 | The loop writes exactly the files of `FileRuns` and stops exactly when it does |
| SnapshotFiles.WriteSnapshots | src/scripts/generate_snapshot.py:13-35 | The script creates `SAVE_DIR`, keys the table, loads the network once, and writes exactly the files of `SnapshotFilesRun` on that network |
| SnapshotFiles.EveryKeyWritten | src/scripts/generate_snapshot.py:25-35 | After a run that did not stop, every distinct well-shaped key has its own file holding that key's aggregate |
| ColorScales.ThresholdColor | streamlit_app/Home.py:274-283 | A `getColor` chain answers with one of its colours |
| ColorScales.Bucket | streamlit_app/Home.py:274-283 | The branch that answers: the first threshold the value exceeds, none before it |
| ColorScales.ColorOfBucket | streamlit_app/Home.py:274-283 | The chain's colour is the colour of the value's bucket |
| ColorScales.DecreasingSteps | streamlit_app/Home.py:274-283 | Thresholds that decrease step by step decrease |
| ColorScales.BucketBounds | streamlit_app/Home.py:274-283 | On decreasing thresholds a value is in bucket i exactly when it is at most threshold i-1 and above threshold i |
| ColorScales.BucketMonotone | streamlit_app/Home.py:274-283 | A larger value never gets a later colour |
| ColorScales.LabelsFromThresholds | streamlit_app/Home.py:287-296 | Labels `above t0`, `(t_i, t_(i-1)]`, `0..t_last` name exactly the buckets |
| ColorScales.SoundFromLabels | streamlit_app/Home.py:287-296 | Such a legend, with the chain's colours in order, makes the scale sound |
| ColorScales.HomeSpeedSound | streamlit_app/Home.py:274-296 | The corrected `Home.py` speed scale is sound |
| ColorScales.HomeCountSound | streamlit_app/Home.py:300-322 | The corrected `Home.py` count scale is sound |
| ColorScales.Home4SpeedSound | streamlit_app/Home_4.py:253-271 | The corrected `Home_4.py` speed scale is sound |
| ColorScales.Home4CountSound | streamlit_app/Home_4.py:275-295 | The corrected `Home_4.py` count scale is sound |
| ColorScales.FirstLabelOverlap | streamlit_app/Home.py:287-296 | A legend whose first label includes the first threshold names it twice, and the value gets the second colour |
| ColorScales.HomeSpeedLegendOverlap | streamlit_app/Home.py:287-296 | 70 km/h is named by `70+ km/h` and `61-70 km/h` and drawn in the second colour |
| ColorScales.HomeCountLegendOverlap | streamlit_app/Home.py:313-322 | 2000 is named by `2000+` and `1001-2000` and drawn in the second colour |
| ColorScales.Home4SpeedLegendOverlap | streamlit_app/Home_4.py:264-271 | 80 is named by `80+` and `61-80` and drawn in the second colour |
| ColorScales.Home4CountLegendOverlap | streamlit_app/Home_4.py:287-295 | 200 is named by `200+` and `101-200` and drawn in the second colour |
| ColorScales.MissingValueColor | streamlit_app/Home.py:274-283 | A null or NaN value gets the last colour of each chain |
| Animation.NextFrame | streamlit_app/Home.py:584-593 | A tick moves to the next index, or back to the start past the end, and stays inside the range |
| Animation.ClampFrame | streamlit_app/Home.py:579-581 | An index outside the range is replaced by the start; an index inside stays |
| Animation.ClampIdempotent | streamlit_app/Home.py:456-460 | Clamping twice is clamping once |
| Animation.AfterTicksClosedForm | streamlit_app/Home.py:584-593 | After n ticks from inside the range, the index is `start + (i - start + n) mod (end - start + 1)` |
| Animation.AfterTicksInRange | streamlit_app/Home.py:584-593 | Ticking never leaves the range |
| Animation.AfterTicksVisitsAll | streamlit_app/Home.py:584-593 | Every frame of the range is shown within one round of ticks |
| Animation.AfterTicksPeriodic | streamlit_app/Home.py:584-593 | After a whole round the animation is back on the frame it left |
| Animation.ModUnique | streamlit_app/Home.py:584-593 | The remainder is fixed by any decomposition, used for the closed form |
| Animation.ModSucc | streamlit_app/Home.py:584-593 | One more step within the round adds one, and the last one wraps to 0 |
| Animation.FrameAt | streamlit_app/Home.py:528-533 | `availableTimes[i]` exists exactly when i is a position of the list |
| Animation.FrameStepper.InitMap | streamlit_app/Home.py:456-484 | `initMap` clamps the page's current index into the range and plays when the page was playing |
| Animation.FrameStepper.StartAnimation | streamlit_app/Home.py:574-581 | `startAnimation` clamps the index and starts the timer |
| Animation.FrameStepper.Tick | streamlit_app/Home.py:584-593 | A timer callback advances as `NextFrame` says and keeps the index in range |
| Animation.FrameStepper.StopAnimation | streamlit_app/Home.py:596-599 | `stopAnimation` stops the timer and keeps the frame |
| Animation.FrameStepper.RunTicks | streamlit_app/Home.py:584-593 | n callbacks move the index as `AfterTicks` says |
| Animation.PlayFromLoad | streamlit_app/Home.py:456-593 | Whatever index the page hands over, every frame shown while playing lies in the range |
| Dashboard.SpeedMs | streamlit_app/Home.py:184-200 | The speed slider maps 1..20 linearly onto 2000..100 ms per frame |
| Dashboard.SpeedStrictlyDecreasing | streamlit_app/Home.py:195 | Each slider step makes a frame 100 ms shorter |
| Dashboard.Position | streamlit_app/Home.py:176 | `list.index(x)` is the first position of x, or `ValueError` when x is absent |
| Dashboard.PySlice | streamlit_app/Home.py:203 | Python slicing cuts out-of-range bounds back and is empty for a reversed range |
| Dashboard.QueryTimes | streamlit_app/Home.py:203 | The queried times are `unique_times[start..end]` |
| Dashboard.StoredTimes | streamlit_app/Home.py:59-63 | The database finds exactly the stored keys for the selected vehicle type and KPI type |
| Dashboard.AvailableTimes | streamlit_app/Home.py:216 | The available times are sorted, without repeats, and exactly the queried times that have a snapshot |
| Dashboard.FilterSorted | streamlit_app/Home.py:216 | A sublist of a sorted list is sorted |
| Dashboard.AvailableIsStoredQuery | streamlit_app/Home.py:203-216 | Because `unique_times` is sorted, the available times are the queried times that have a snapshot, in query order |
| Dashboard.ResetCurrent | streamlit_app/Home.py:241-243 | The current frame is kept when it is a position of the available times, and reset to 0 otherwise |
| Dashboard.PageFramesDefined | streamlit_app/Home.py:223-243 | On a page whose range and current index are positions, every frame the animation shows exists |
| Dashboard.Shown | streamlit_app/Home.py:219-221 | A run without available times halts; otherwise it renders the page |
| Dashboard.ResolveRange | streamlit_app/Home.py:223-235 | The JavaScript range holds the first positions of the chosen times among the available times, else the first and last positions. The end is never before the start |
| Dashboard.HomePage | streamlit_app/Home.py:219-243 | The page halts exactly when nothing is available; otherwise its range and current index are positions of the available times |
| Dashboard.HomePageDefined | streamlit_app/Home.py:219-243 | Whatever the user selects, a rendered `Home.py` page never asks for a frame it lacks |
| Dashboard.HomeSession.Init | streamlit_app/Home.py:89-103 | The first run's defaults: the whole range, 1000 ms, frame 0, stopped, all vehicles, vehicle count |
| Dashboard.HomeSession.SelectVehicleType | streamlit_app/Home.py:143-147 | A new vehicle type stops and rewinds the animation and reruns; the same one changes nothing |
| Dashboard.HomeSession.SelectKpiType | streamlit_app/Home.py:149-153 | A new KPI type stops and rewinds the animation and reruns; the same one changes nothing |
| Dashboard.HomeSession.SetEnd | streamlit_app/Home.py:176-182 | The end index is the chosen end time's position (`ValueError` when absent); an end before the stored start is moved up to it with a rerun |
| Dashboard.HomeSession.ShowRange | streamlit_app/Home.py:219-243 | Halts without available times; otherwise it stores the resolved range and current frame and renders them |
| Dashboard.LoadTimes | streamlit_app/Home.py:30-41 | The page stops exactly when a stored timestamp does not parse; otherwise `unique_times` is sorted, free of repeats, and exactly the stored keys |
| Dashboard.HomeSession.Run | streamlit_app/Home.py:143-243 | As written, the new state for each outcome. A new vehicle or KPI type reruns with the frame rewound, the animation stopped and the range kept. The same filters and an end that is not a time crash with `ValueError`, changing nothing. An end before the stored start reruns with end = start. Otherwise the speed is the slider's and the query starts at the stored index. The page halts keeping start and current, or renders a valid page whose range and current frame become the state |
| Dashboard.HomeSession.RunCorrected | streamlit_app/Home.py:176-243 | Corrected: the same outcomes, but the end check and the query start at the chosen start time's position in `unique_times` (`ValueError` when absent) |
| Dashboard.HomeStartIndexMismatch | streamlit_app/Home.py:203-238 | With three stored hours: a first run choosing the last hour stores start 2; a second run choosing the first hour then queries the last hour alone and starts there, although the first hour is stored |
| Dashboard.StartShiftAsWritten | streamlit_app/Home.py:143-243 | Two consecutive runs of the page as written: the second one's animation does not begin at the chosen first hour |
| Dashboard.CorrectedStartShown | streamlit_app/Home.py:203-235 | With the corrected query, a chosen start time that has a snapshot is the frame the range starts at |
| Dashboard.StartKeptCorrected | streamlit_app/Home.py:143-243 | The same two runs, corrected: each animation begins at the chosen start hour |
| Dashboard.HomeSession.Start | streamlit_app/Home.py:672-676 | Start plays from the start of the range |
| Dashboard.HomeSession.Stop | streamlit_app/Home.py:679-682 | Stop stops and keeps the frame |
| Dashboard.Home4Page | streamlit_app/Home_4.py:214-222 | As written: halts without available times; otherwise it passes the `unique_times` positions unchanged and resets the current frame |
| Dashboard.AllStoredAvailable | streamlit_app/Home_4.py:198-212 | When every time is stored, the available times are exactly the selected stretch of `unique_times` |
| Dashboard.Home4IndexSpaceMismatch | streamlit_app/Home_4.py:632-642 | With every time stored and start > 0, the first frame shown is not the chosen start time; with a short range no frame exists at all |
| Dashboard.Home4PageCorrected | streamlit_app/Home_4.py:632-642 | Corrected: the chosen times are looked up among the available times; the page is valid and starts at the chosen start time when it is available |
| Dashboard.Home4CorrectedFramesDefined | streamlit_app/Home_4.py:632-642 | With the corrected range every frame shown exists |
| Dashboard.Home4Session.Init | streamlit_app/Home_4.py:99-108 | The first run's defaults, as in `Home.py` |
| Dashboard.Home4Session.SelectVehicleType | streamlit_app/Home_4.py:154-158 | A new vehicle type stops and rewinds the animation and reruns |
| Dashboard.Home4Session.SelectKpiType | streamlit_app/Home_4.py:160-164 | A new KPI type stops and rewinds the animation and reruns |
| Dashboard.Home4Session.ShowRange | streamlit_app/Home_4.py:214-222 | Halts without available times; otherwise it resets the current frame and renders the page |
| Dashboard.Home4Session.Run | streamlit_app/Home_4.py:154-222 | The new state for each outcome. A new vehicle or KPI type reruns with the frame rewound, the animation stopped and the range kept. A start that is not a time crashes with `ValueError` and changes nothing. An end that is not a time crashes after storing the start. A reversed range reruns with both indices at the start. Otherwise the indices are the chosen times' positions and the speed is the slider value. The page halts keeping the current frame, or renders with the current frame reset as `Home4Page` says |
| Dashboard.Home4Session.Start | streamlit_app/Home_4.py:654-660 | Start plays from the start of the range |
| Dashboard.Home4Session.Stop | streamlit_app/Home_4.py:665-670 | Stop stops and keeps the frame |

## Left out

- Reading the CSV, the Excel sheet, the parquet file and the road graph, and talking to MongoDB: their contents are parameters. The connection, the index creation, `sys.exit` on a connection error (scripts/generate_snapshot.py lines 16-41) and `client.close` are not modelled.
- `load_snapshots_from_mongodb` (streamlit_app/Home.py lines 45-86) is modelled by the stored documents it can find. Its error path, which returns an empty dict, is not modelled.
- The road graph download and cache (`osmnx`): `LoadOsmNetwork` takes the graph's edges as a parameter.
- Coordinate reprojection (EPSG:32633 and back) and metric distances: the point-to-segment distance is a parameter `dist`.
- `simplify(0.0001)` on geometries (scripts/generate_snapshot.py line 96, src/scripts/generate_snapshot.py line 31): geometry is opaque, so only the check that a geometry column with rows exists is modelled.
- Floating-point arithmetic: means, qualities and speeds are exact reals.
- JavaScript rendering: Leaflet layers, tooltips, the legend HTML, the progress bar, map-view storage and `time.sleep`. The timer is modelled as a sequence of `Tick` calls.
- Streamlit widgets are inputs of `Run`. `st.rerun()` and `st.stop()` end a run with the outcomes `Rerun` and `Halted`. The rerun loop itself is not modelled.
- scripts/generate_snapshot.py imports `StreetMatcher` from `processor.osm_matcher_2`, and that file is not part of this model. The model uses the matcher of src/scripts/processor/osm_matcher.py in its place.
- SnapshotFiles.SnapshotFile: this is the corrected loop, with the KPI column passed at line 28 (see Findings). The line as written is `SnapshotFiles.SnapshotFileAsWritten`.
- OsmMatcher.AggregateRows: rows come in first-appearance order, not pandas' sorted group order (`groupby` sorts keys by default). The contents of each row are modelled.
- OsmMatcher.FlattenName: only lists, texts and integers are turned into text. Python's `str` of a float, a date or a geometry is not modelled, so such values are returned unchanged.
- Dates.Reformat: only keys of the stored shape `YYYY-MM-DD HH:00` are read. Other forms pandas parses, such as other minutes, an ISO `T` or seconds, are refused rather than truncated to the hour.
- ColorScales.LabelsExact: legend labels are checked for whole values from 0 up. Fractional values between two labels (for example 70.5 km/h) and negative values are not named by any label.
- Dashboard.HomeSession.Run: the speed is kept as the exact `SpeedMs` value of line 200. The `int(...)` stored at line 197 is overwritten at line 200, so it is not modelled.
- Dashboard.Home4Session.Run: it states no `Valid()` invariant, because `Home_4.py` keeps indices that need not be positions of the available times (see Findings).
- JavaScript `undefined` for a missing frame is modelled as `None` by `Animation.FrameAt`. What Leaflet then draws is not modelled.
- Dates.ParseDmy: pandas' acceptance of variants beyond one- or two-digit day and month fields (for example surrounding whitespace) is not modelled.
- The `hour` columns are taken as integers. A float hour (for example `7.0`, which `astype(str)` prints as `7.0`) is treated as an error rather than as a different key.
- The `main()` of src/scripts/processor/enricher.py (paths, printing, `to_parquet`) is not modelled.

## Findings

| source | as written | input that shows it | evidently intended | confidence | as-written member | corrected member |
|---|---|---|---|---|---|---|
| streamlit_app/Home.py:287-296 | The first speed legend label `70+ km/h` includes 70, but `getColor` gives 70 the second colour (`d > 70`) | a segment with speed 70 | `71+ km/h` | high; not executed | ColorScales.HomeSpeedLegendOverlap | ColorScales.HomeSpeedSound |
| streamlit_app/Home.py:313-322 | The first count legend label `2000+` includes 2000, but `getColor` gives 2000 the second colour | a segment with count 2000 | `2001+` | high; not executed | ColorScales.HomeCountLegendOverlap | ColorScales.HomeCountSound |
| streamlit_app/Home_4.py:264-271 | The first speed legend label `80+` includes 80, but `getColor` gives 80 the second colour | a segment with speed 80 | `81+` | high; not executed | ColorScales.Home4SpeedLegendOverlap | ColorScales.Home4SpeedSound |
| streamlit_app/Home_4.py:287-295 | The first count legend label `200+` includes 200, but `getColor` gives 200 the second colour | a segment with count 200 | `201+` | high; not executed | ColorScales.Home4CountLegendOverlap | ColorScales.Home4CountSound |
| src/scripts/generate_snapshot.py:28 | `aggregate_kpi_by_osm_segment(gdf_matched)` passes no `kpi_col`, so Python raises `TypeError` and no file is ever written | any table with a key whose detectors match | pass the KPI column to aggregate as `kpi_col` | high; not executed | SnapshotFiles.AsWrittenWritesNothing | SnapshotFiles.SnapshotFile |
| streamlit_app/Home.py:203 | The stored start index is a position among the available times (line 237), but the query reads it as a position in `unique_times` | three stored hours; a run with start and end at the last hour, then a run with start at the first hour | query from `unique_times.index(start_time_str)` | high; not executed | Dashboard.HomeStartIndexMismatch | Dashboard.HomeSession.RunCorrected |
| streamlit_app/Home_4.py:632-642 | The start and end indices handed to the animation are positions in `unique_times`, but the animation indexes `available_times_for_animation`, which holds only the selected stretch | four stored hours, with the 3rd and 4th selected: the animation gets range [2, 3] over a two-element list, so no frame exists | look the chosen times up among the available times, as `Home.py` lines 223-235 do | high; not executed | Dashboard.Home4IndexSpaceMismatch | Dashboard.Home4PageCorrected |
