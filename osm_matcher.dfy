/** The street matcher: snaps every detector to its nearest road segment of the
    OpenStreetMap drive network, names the segment, keeps the KPI columns and
    averages one KPI per (segment geometry, segment name).

    Geometry is opaque and the point-to-line distance is a parameter, so the
    model covers which segment wins, not how far away it is in metres. */
module OsmMatcher {
  import opened Frames
  import opened TextUtil

  /** An edge as the network graph yields it: its geometry may be absent. */
  datatype RawEdge = RawEdge(geometry: Option<Geom>, name: Cell)

  /** An edge after loading: it has a geometry and knows its row position. */
  datatype Edge = Edge(geometry: Geom, name: Cell, osmIdIndex: nat)

  /** One row of the nearest join: the detector row and, when it was matched,
      the position of its segment in the edge table and the distance to it. */
  datatype Match = Match(detector: Row, indexRight: Option<nat>, distance: Option<real>)

  /** Distance between a detector point and a segment geometry. */
  type Distance = (Geom, Geom) -> real

  // ----- loading the network -----

  predicate HasGeometry(e: RawEdge)
  {
    e.geometry.Some?
  }

  /** Numbers the kept edges 0, 1, 2, ... in order. */
  function Enumerate(kept: seq<RawEdge>): (edges: seq<Edge>)
    requires forall i :: 0 <= i < |kept| ==> kept[i].geometry.Some?
    ensures |edges| == |kept|
    ensures forall i :: 0 <= i < |kept| ==>
              edges[i] == Edge(kept[i].geometry.value, kept[i].name, i)
  {
    seq(|kept|, i requires 0 <= i < |kept| => Edge(kept[i].geometry.value, kept[i].name, i))
  }

  /** The edge table after `load_osm_network`: edges without geometry dropped,
      the index reset, and `osm_id_index` set to the new row position. */
  function IndexEdges(graph: seq<RawEdge>): (edges: seq<Edge>)
    ensures Indexed(edges)
    ensures |edges| == |Filter(graph, HasGeometry)|
    ensures forall i :: 0 <= i < |edges| ==>
              Some(edges[i].geometry) == Filter(graph, HasGeometry)[i].geometry &&
              edges[i].name == Filter(graph, HasGeometry)[i].name
  {
    Enumerate(Filter(graph, HasGeometry))
  }

  /** Every edge's `osm_id_index` is its row position. */
  predicate Indexed(edges: seq<Edge>)
  {
    forall i :: 0 <= i < |edges| ==> edges[i].osmIdIndex == i
  }

  /** Every raw edge with a geometry is kept, every raw edge without one is
      dropped, and the kept edges keep their order. */
  lemma IndexEdgesKeepsGeometries(graph: seq<RawEdge>)
    ensures forall e :: e in graph && HasGeometry(e) ==>
              exists i :: 0 <= i < |IndexEdges(graph)| && IndexEdges(graph)[i].geometry == e.geometry.value && IndexEdges(graph)[i].name == e.name
    ensures forall i, j :: 0 <= i < j < |IndexEdges(graph)| ==>
              exists a, b :: 0 <= a < b < |graph| && Some(IndexEdges(graph)[i].geometry) == graph[a].geometry && Some(IndexEdges(graph)[j].geometry) == graph[b].geometry
  {
    var kept := Filter(graph, HasGeometry);
    var edges := IndexEdges(graph);
    forall e | e in graph && HasGeometry(e)
      ensures exists i :: 0 <= i < |edges| && edges[i].geometry == e.geometry.value && edges[i].name == e.name
    {
      var i :| 0 <= i < |kept| && kept[i] == e;
      assert edges[i].geometry == e.geometry.value;
    }
    FilterSelectsInOrder(graph, HasGeometry, 0);
    assert graph[0..] == graph;
    var pos := KeptPositions(graph, HasGeometry, 0);
    forall i, j | 0 <= i < j < |edges|
      ensures exists a, b :: 0 <= a < b < |graph| && Some(edges[i].geometry) == graph[a].geometry && Some(edges[j].geometry) == graph[b].geometry
    {
      assert Some(edges[i].geometry) == graph[pos[i]].geometry;
      assert Some(edges[j].geometry) == graph[pos[j]].geometry;
    }
  }

  /** The edges whose `osm_id_index` equals `idx`: the right side of the merge
      on `index_right`. */
  function LookupEdge(edges: seq<Edge>, idx: nat): (found: seq<Edge>)
    ensures forall e :: e in found <==> e in edges && e.osmIdIndex == idx
  {
    Filter(edges, (e: Edge) => e.osmIdIndex == idx)
  }

  /** Because the index is the row position, the merge finds exactly the edge at
      that position, and nothing for a position past the end. */
  lemma {:induction false} LookupIndexed(edges: seq<Edge>, idx: nat)
    requires Indexed(edges)
    ensures LookupEdge(edges, idx) == if idx < |edges| then [edges[idx]] else []
  {
    LookupFrom(edges, idx, 0);
    assert edges[0..] == edges;
  }

  lemma {:induction false} LookupFrom(edges: seq<Edge>, idx: nat, from: nat)
    requires Indexed(edges) && from <= |edges|
    ensures Filter(edges[from..], (e: Edge) => e.osmIdIndex == idx) ==
              if from <= idx < |edges| then [edges[idx]] else []
    decreases |edges| - from
  {
    var p := (e: Edge) => e.osmIdIndex == idx;
    if from < |edges| {
      LookupFrom(edges, idx, from + 1);
      assert edges[from..][1..] == edges[from + 1..];
      assert Filter(edges[from..], p) == (if p(edges[from]) then [edges[from]] else []) + Filter(edges[from + 1..], p);
    }
  }

  // ----- detectors as points -----

  /** The point geometry of one detector row, from its longitude and latitude
      cells: missing when either is missing, an error when either is not a number. */
  function PointCell(lon: Cell, lat: Cell): (r: Result<Cell>)
    ensures r.Ok? && r.value.Geo? <==> AsReal(lon).Some? && AsReal(lat).Some?
    ensures r.Ok? && r.value.Geo? ==> r.value.g == Point(AsReal(lon).value, AsReal(lat).value)
    ensures r.Ok? ==> r.value.Geo? || r.value.Missing?
  {
    if (AsReal(lon).None? && !lon.Missing?) || (AsReal(lat).None? && !lat.Missing?) then Err(ValueError("could not convert to float"))
    else if lon.Missing? || lat.Missing? then Ok(Missing)
    else Ok(Geo(Point(AsReal(lon).value, AsReal(lat).value)))
  }

  function PointCells(rows: seq<Row>, lonCol: string, latCol: string): (r: Result<seq<Cell>>)
    ensures r.Ok? ==> |r.value| == |rows|
    ensures r.Ok? ==> forall i :: 0 <= i < |rows| ==> PointCell(Get(rows[i], lonCol), Get(rows[i], latCol)) == Ok(r.value[i])
    ensures r.Err? <==> exists i :: 0 <= i < |rows| && PointCell(Get(rows[i], lonCol), Get(rows[i], latCol)).Err?
  {
    if rows == [] then Ok([])
    else
      match (PointCell(Get(rows[0], lonCol), Get(rows[0], latCol)), PointCells(rows[1..], lonCol, latCol))
      case (Ok(c), Ok(cs)) =>
        assert forall i :: 1 <= i < |rows| ==> rows[i] == rows[1..][i - 1];
        Ok([c] + cs)
      case (Err(e), _) => Err(e)
      case (_, Err(e)) =>
        var i :| 0 <= i < |rows[1..]| && PointCell(Get(rows[1..][i], lonCol), Get(rows[1..][i], latCol)).Err?;
        assert rows[1..][i] == rows[i + 1];
        Err(e)
  }

  /** `_to_geo`: the table with a `geometry` column holding each row's point,
      row by row; a missing `lon` or `lat` column is a `KeyError`. */
  function ToGeo(t: Table, lonCol: string, latCol: string): (r: Result<Table>)
    ensures lonCol !in t.columns ==> r == Err(KeyError(lonCol))
    ensures lonCol in t.columns && latCol !in t.columns ==> r == Err(KeyError(latCol))
    ensures r.Ok? ==> |r.value.rows| == |t.rows|
    ensures r.Ok? ==> forall i :: 0 <= i < |t.rows| ==>
              PointCell(Get(t.rows[i], lonCol), Get(t.rows[i], latCol)) == Ok(Get(r.value.rows[i], "geometry")) &&
              forall d :: d != "geometry" ==> Get(r.value.rows[i], d) == Get(t.rows[i], d)
  {
    if lonCol !in t.columns then Err(KeyError(lonCol))
    else if latCol !in t.columns then Err(KeyError(latCol))
    else
      match PointCells(t.rows, lonCol, latCol)
      case Err(e) => Err(e)
      case Ok(cells) => Ok(SetColumn(t, "geometry", cells))
  }

  // ----- nearest join -----

  /** The least distance from `p` to any edge. */
  function MinDistance(p: Geom, edges: seq<Edge>, dist: Distance): (m: real)
    requires |edges| > 0
    ensures forall j :: 0 <= j < |edges| ==> m <= dist(p, edges[j].geometry)
    ensures exists j :: 0 <= j < |edges| && m == dist(p, edges[j].geometry)
  {
    if |edges| == 1 then dist(p, edges[0].geometry)
    else
      var rest := MinDistance(p, edges[1..], dist);
      assert forall j :: 1 <= j < |edges| ==> edges[j] == edges[1..][j - 1];
      if dist(p, edges[0].geometry) <= rest then dist(p, edges[0].geometry) else rest
  }

  /** The positions `from..` of the edges at the least distance, in increasing order. */
  function NearestFrom(p: Geom, edges: seq<Edge>, dist: Distance, best: real, from: nat): (js: seq<nat>)
    requires from <= |edges|
    ensures forall j :: j in js <==> from <= j < |edges| && dist(p, edges[j].geometry) == best
    decreases |edges| - from
  {
    if from == |edges| then []
    else (if dist(p, edges[from].geometry) == best then [from] else []) + NearestFrom(p, edges, dist, best, from + 1)
  }

  /** Edge `j` is at the least distance from `p` among all edges. */
  predicate IsNearest(p: Geom, edges: seq<Edge>, dist: Distance, j: nat)
  {
    j < |edges| && forall k :: 0 <= k < |edges| ==> dist(p, edges[j].geometry) <= dist(p, edges[k].geometry)
  }

  /** One matched join row per position in `js`, carrying the distance. */
  function MatchesAt(r: Row, p: Geom, edges: seq<Edge>, dist: Distance, js: seq<nat>): (ms: seq<Match>)
    requires forall k :: 0 <= k < |js| ==> js[k] < |edges|
    ensures |ms| == |js|
    ensures forall k :: 0 <= k < |js| ==> ms[k] == Match(r, Some(js[k]), Some(dist(p, edges[js[k]].geometry)))
  {
    seq(|js|, k requires 0 <= k < |js| => Match(r, Some(js[k]), Some(dist(p, edges[js[k]].geometry))))
  }

  /** The positions at the least distance are exactly the nearest edges. */
  lemma NearestPositions(p: Geom, edges: seq<Edge>, dist: Distance)
    requires |edges| > 0
    ensures forall j: nat :: j in NearestFrom(p, edges, dist, MinDistance(p, edges, dist), 0) <==> IsNearest(p, edges, dist, j)
  {
  }

  /** The matched join rows of a detector at point `p`: one per edge at the
      least distance, in edge order. */
  function NearestMatches(r: Row, p: Geom, edges: seq<Edge>, dist: Distance): (ms: seq<Match>)
    requires |edges| > 0
    ensures |ms| >= 1
    ensures forall m :: m in ms ==>
              m.detector == r && m.indexRight.Some? && m.indexRight.value < |edges| &&
              IsNearest(p, edges, dist, m.indexRight.value) &&
              m.distance == Some(dist(p, edges[m.indexRight.value].geometry))
    ensures forall j: nat :: j < |edges| && IsNearest(p, edges, dist, j) ==>
              Match(r, Some(j), Some(dist(p, edges[j].geometry))) in ms
  {
    var js := NearestFrom(p, edges, dist, MinDistance(p, edges, dist), 0);
    NearestPositions(p, edges, dist);
    assert forall k :: 0 <= k < |js| ==> js[k] in js;
    var ms := MatchesAt(r, p, edges, dist, js);
    assert |js| > 0 by {
      var j :| 0 <= j < |edges| && MinDistance(p, edges, dist) == dist(p, edges[j].geometry);
      assert j in js;
    }
    assert forall m :: m in ms ==> exists k :: 0 <= k < |js| && m == ms[k];
    assert forall k :: 0 <= k < |js| ==> ms[k] in ms;
    ms
  }

  /** `sjoin_nearest(how="left")` for one detector: one row per edge at the least
      distance (all of them on a tie), or one unmatched row when the detector
      has no point or there are no edges. */
  function NearestRows(r: Row, edges: seq<Edge>, dist: Distance): (ms: seq<Match>)
    ensures |ms| >= 1
    ensures forall m :: m in ms ==> m.detector == r
    ensures forall m :: m in ms && m.indexRight.Some? ==>
              m.indexRight.value < |edges| && Get(r, "geometry").Geo? &&
              IsNearest(Get(r, "geometry").g, edges, dist, m.indexRight.value) &&
              m.distance == Some(dist(Get(r, "geometry").g, edges[m.indexRight.value].geometry))
    ensures forall j: nat :: j < |edges| && Get(r, "geometry").Geo? && IsNearest(Get(r, "geometry").g, edges, dist, j) ==>
              Match(r, Some(j), Some(dist(Get(r, "geometry").g, edges[j].geometry))) in ms
    ensures (!Get(r, "geometry").Geo? || |edges| == 0) <==> ms == [Match(r, None, None)]
  {
    var g := Get(r, "geometry");
    if !g.Geo? || |edges| == 0 then [Match(r, None, None)]
    else
      var ms := NearestMatches(r, g.g, edges, dist);
      assert ms[0] in ms;
      ms
  }

  /** `gpd.sjoin_nearest(detectors, edges, how="left", distance_col=...)`: the
      detectors' rows in order, each followed by its nearest-edge rows. */
  function SJoinNearest(rows: seq<Row>, edges: seq<Edge>, dist: Distance): (ms: seq<Match>)
    ensures |ms| >= |rows|
    ensures forall m :: m in ms ==> m.detector in rows && m in NearestRows(m.detector, edges, dist)
  {
    if rows == [] then []
    else NearestRows(rows[0], edges, dist) + SJoinNearest(rows[1..], edges, dist)
  }

  /** Every detector survives the left join, and every row it gets is one of
      its nearest-edge rows. */
  lemma {:induction false} SJoinNearestRows(rows: seq<Row>, edges: seq<Edge>, dist: Distance)
    ensures forall r :: r in rows ==> exists m :: m in SJoinNearest(rows, edges, dist) && m.detector == r
    ensures forall r, m :: r in rows && m in NearestRows(r, edges, dist) ==> m in SJoinNearest(rows, edges, dist)
  {
    if rows != [] {
      SJoinNearestRows(rows[1..], edges, dist);
      var head := NearestRows(rows[0], edges, dist);
      assert head[0] in SJoinNearest(rows, edges, dist);
      assert forall r :: r in rows ==> r == rows[0] || r in rows[1..];
    }
  }

  /** Merging the join rows with the edge table on `index_right` = `osm_id_index`
      (a left merge): each join row with every edge carrying its index, or alone. */
  function MergeEdges(ms: seq<Match>, edges: seq<Edge>): (merged: seq<(Row, Option<Edge>)>)
  {
    if ms == [] then []
    else
      var found := if ms[0].indexRight.Some? then LookupEdge(edges, ms[0].indexRight.value) else [];
      var head := if found == [] then [(ms[0].detector, None)]
                  else seq(|found|, k requires 0 <= k < |found| => (ms[0].detector, Some(found[k])));
      head + MergeEdges(ms[1..], edges)
  }

  /** On an indexed edge table and join rows whose indices are in range, the
      merge neither loses nor duplicates a row: row `i` gets exactly the edge
      that the join chose. */
  lemma {:induction false} MergeEdgesExact(ms: seq<Match>, edges: seq<Edge>)
    requires Indexed(edges)
    requires forall m :: m in ms && m.indexRight.Some? ==> m.indexRight.value < |edges|
    ensures |MergeEdges(ms, edges)| == |ms|
    ensures forall i :: 0 <= i < |ms| ==>
              MergeEdges(ms, edges)[i] == (ms[i].detector, if ms[i].indexRight.Some? then Some(edges[ms[i].indexRight.value]) else None)
  {
    if ms != [] {
      if ms[0].indexRight.Some? { LookupIndexed(edges, ms[0].indexRight.value); }
      MergeEdgesExact(ms[1..], edges);
      assert forall i :: 1 <= i < |ms| ==> ms[i] == ms[1..][i - 1];
    }
  }

  // ----- naming and projecting -----

  /** `fillna(STRASSE)` on the segment name: the detector's street when the
      segment has no name. */
  function FillName(name: Cell, strasse: Cell): (r: Cell)
    ensures !name.Missing? ==> r == name
    ensures name.Missing? ==> r == strasse
  {
    if name.Missing? then strasse else name
  }

  /** `flatten_name_field`: a list of names becomes its distinct names, sorted and
      joined by ", "; a text stays as it is; an integer becomes its decimal
      text; a missing name stays missing. */
  function FlattenName(v: Cell): (r: Cell)
    ensures v.TextList? ==> r.Text?
    ensures v.Text? ==> r == v
    ensures v.Int? ==> r == Text(IntToStr(v.i))
    ensures v.Missing? <==> r.Missing?
  {
    match v
    case TextList(items) => Text(Join(SortedDistinct(items), ", "))
    case Int(i) => Text(IntToStr(i))
    case _ => v
  }

  /** The flattened name of a list is the join of the one strictly sorted list
      holding exactly the list's names: any order or repetition of the same
      names gives the same text. */
  lemma FlattenNameCanonical(items: seq<string>, names: seq<string>)
    requires StrictlySorted(names)
    requires forall y :: y in names <==> y in items
    ensures FlattenName(TextList(items)) == Text(Join(names, ", "))
  {
    StrictlySortedUnique(SortedDistinct(items), names);
  }

  /** Two lists with the same names flatten to the same text. */
  lemma FlattenNameSameNames(a: seq<string>, b: seq<string>)
    requires forall y :: y in a <==> y in b
    ensures FlattenName(TextList(a)) == FlattenName(TextList(b))
  {
    FlattenNameCanonical(b, SortedDistinct(a));
  }

  /** A column name of the enriched table that `match_detectors_to_segments`
      keeps: one starting with `q_` or `v_`. */
  predicate IsKpiColumn(c: string)
  {
    |c| >= 2 && (c[0] == 'q' || c[0] == 'v') && c[1] == '_'
  }

  /** One output row: the segment geometry, the resolved name and the KPI cells. */
  function ProjectRow(detector: Row, edge: Option<Edge>, kpiCols: seq<string>): (r: Row)
    requires forall c :: c in kpiCols ==> IsKpiColumn(c)
    ensures r.Keys == ColumnSet(["geometry", "name_road_segment"] + kpiCols)
    ensures Get(r, "geometry") == if edge.Some? then Geo(edge.value.geometry) else Missing
    ensures Get(r, "name_road_segment") == FlattenName(FillName(if edge.Some? then edge.value.name else Missing, Get(detector, "STRASSE")))
    ensures forall c :: c in kpiCols ==> Get(r, c) == Get(detector, c)
  {
    assert !IsKpiColumn("geometry") && !IsKpiColumn("name_road_segment");
    var kpi := map c | c in ColumnSet(kpiCols) :: Get(detector, c);
    var name := FlattenName(FillName(if edge.Some? then edge.value.name else Missing, Get(detector, "STRASSE")));
    kpi["geometry" := if edge.Some? then Geo(edge.value.geometry) else Missing]["name_road_segment" := name]
  }

  /** The table `match_detectors_to_segments` returns from the merged rows: the
      columns `geometry`, `name_road_segment`, then the enriched table's KPI
      columns in their order; a `KeyError` when there is no `STRASSE` column. */
  function RoadKpiTable(merged: seq<(Row, Option<Edge>)>, enrichedColumns: seq<string>): (r: Result<Table>)
    ensures "STRASSE" !in enrichedColumns <==> r == Err(KeyError("STRASSE"))
    ensures r.Ok? ==> r.value.columns == ["geometry", "name_road_segment"] + Filter(enrichedColumns, IsKpiColumn)
    ensures r.Ok? ==> |r.value.rows| == |merged|
    ensures r.Ok? ==> forall i :: 0 <= i < |merged| ==>
              r.value.rows[i] == ProjectRow(merged[i].0, merged[i].1, Filter(enrichedColumns, IsKpiColumn))
  {
    if "STRASSE" !in enrichedColumns then Err(KeyError("STRASSE"))
    else
      var kpiCols := Filter(enrichedColumns, IsKpiColumn);
      Ok(Table(["geometry", "name_road_segment"] + kpiCols,
               seq(|merged|, i requires 0 <= i < |merged| => ProjectRow(merged[i].0, merged[i].1, kpiCols))))
  }

  /** On an enriched table with distinct column names the output is a well-formed
      table: distinct columns, every row holding exactly those columns. */
  lemma RoadKpiTableWellFormed(merged: seq<(Row, Option<Edge>)>, enrichedColumns: seq<string>)
    requires Distinct(enrichedColumns)
    requires RoadKpiTable(merged, enrichedColumns).Ok?
    ensures WellFormed(RoadKpiTable(merged, enrichedColumns).value)
  {
    var kpiCols := Filter(enrichedColumns, IsKpiColumn);
    FilterDistinct(enrichedColumns, IsKpiColumn);
    var cols := ["geometry", "name_road_segment"] + kpiCols;
    assert !IsKpiColumn("geometry") && !IsKpiColumn("name_road_segment");
    forall i, j | 0 <= i < j < |cols| ensures cols[i] != cols[j] {
      if i >= 2 { assert cols[i] == kpiCols[i - 2] && cols[j] == kpiCols[j - 2]; }
      else { assert cols[j] in kpiCols || j == 1; }
    }
  }

  /** The whole of `match_detectors_to_segments` on a loaded edge table. */
  function MatchSpec(df: Table, edges: seq<Edge>, dist: Distance): (r: Result<Table>)
  {
    match ToGeo(df, "lon", "lat")
    case Err(e) => Err(e)
    case Ok(points) => RoadKpiTable(MergeEdges(SJoinNearest(points.rows, edges, dist), edges), df.columns)
  }

  /** Row `i` of the matcher's output belongs to join row `i`: it carries the
      geometry of the edge the join chose for that detector (an edge at the
      least distance from its point), or no geometry when the detector was not
      matched; so every detector has at least one output row. */
  lemma MatchSpecNearest(df: Table, edges: seq<Edge>, dist: Distance)
    requires Indexed(edges)
    requires MatchSpec(df, edges, dist).Ok?
    ensures |MatchSpec(df, edges, dist).value.rows| == |SJoinNearest(ToGeo(df, "lon", "lat").value.rows, edges, dist)| >= |df.rows|
    ensures forall i :: 0 <= i < |MatchSpec(df, edges, dist).value.rows| ==>
              var m := SJoinNearest(ToGeo(df, "lon", "lat").value.rows, edges, dist)[i];
              Get(MatchSpec(df, edges, dist).value.rows[i], "geometry") ==
                if m.indexRight.Some? then Geo(edges[m.indexRight.value].geometry) else Missing
  {
    var points := ToGeo(df, "lon", "lat").value;
    var ms := SJoinNearest(points.rows, edges, dist);
    assert MatchSpec(df, edges, dist) == RoadKpiTable(MergeEdges(ms, edges), df.columns);
    JoinIndicesInRange(points.rows, edges, dist);
    ProjectedGeometry(ms, edges, df.columns);
  }

  /** The join only picks edges of the table. */
  lemma JoinIndicesInRange(rows: seq<Row>, edges: seq<Edge>, dist: Distance)
    ensures forall m :: m in SJoinNearest(rows, edges, dist) && m.indexRight.Some? ==> m.indexRight.value < |edges|
  {
    var ms := SJoinNearest(rows, edges, dist);
    forall m | m in ms && m.indexRight.Some? ensures m.indexRight.value < |edges| {
      assert m in NearestRows(m.detector, edges, dist);
    }
  }

  /** Row `i` of the projected table carries the geometry of join row `i`'s edge. */
  lemma ProjectedGeometry(ms: seq<Match>, edges: seq<Edge>, enrichedColumns: seq<string>)
    requires Indexed(edges)
    requires forall m :: m in ms && m.indexRight.Some? ==> m.indexRight.value < |edges|
    requires RoadKpiTable(MergeEdges(ms, edges), enrichedColumns).Ok?
    ensures |RoadKpiTable(MergeEdges(ms, edges), enrichedColumns).value.rows| == |ms|
    ensures forall i :: 0 <= i < |ms| ==>
              Get(RoadKpiTable(MergeEdges(ms, edges), enrichedColumns).value.rows[i], "geometry") ==
                if ms[i].indexRight.Some? then Geo(edges[ms[i].indexRight.value].geometry) else Missing
  {
    var merged := MergeEdges(ms, edges);
    MergeEdgesExact(ms, edges);
    var rows := RoadKpiTable(merged, enrichedColumns).value.rows;
    forall i | 0 <= i < |ms|
      ensures Get(rows[i], "geometry") == if ms[i].indexRight.Some? then Geo(edges[ms[i].indexRight.value].geometry) else Missing
    {
      assert merged[i] == (ms[i].detector, if ms[i].indexRight.Some? then Some(edges[ms[i].indexRight.value]) else None);
    }
  }

  // ----- aggregation -----

  /** The group-by key of a row: its segment geometry and its segment name. */
  function KeyOf(r: Row): (Cell, Cell)
  {
    (Get(r, "geometry"), Get(r, "name_road_segment"))
  }

  /** `groupby` drops rows with a missing key part. */
  predicate HasKey(r: Row)
  {
    !Get(r, "geometry").Missing? && !Get(r, "name_road_segment").Missing?
  }

  /** The numeric KPI values of the rows with key `k`, in row order. */
  function GroupNumbers(rows: seq<Row>, kpiCol: string, k: (Cell, Cell)): (xs: seq<real>)
    ensures forall x :: x in xs <==> exists r :: r in rows && HasKey(r) && KeyOf(r) == k && AsReal(Get(r, kpiCol)) == Some(x)
  {
    if rows == [] then []
    else
      var r := rows[0];
      var rest := GroupNumbers(rows[1..], kpiCol, k);
      assert forall q :: q in rows <==> q == r || q in rows[1..];
      (if HasKey(r) && KeyOf(r) == k && AsReal(Get(r, kpiCol)).Some? then [AsReal(Get(r, kpiCol)).value] else []) + rest
  }

  function Sum(xs: seq<real>): real
  {
    if xs == [] then 0.0 else xs[0] + Sum(xs[1..])
  }

  /** The arithmetic mean, missing (NaN) for no values. */
  function Mean(xs: seq<real>): (m: Option<real>)
    ensures m.Some? <==> |xs| > 0
  {
    if xs == [] then None else Some(Sum(xs) / (|xs| as real))
  }

  /** The mean of values all within `[lo, hi]` is within `[lo, hi]`. */
  lemma {:induction false} SumBounds(xs: seq<real>, lo: real, hi: real)
    requires forall x :: x in xs ==> lo <= x <= hi
    ensures (|xs| as real) * lo <= Sum(xs) <= (|xs| as real) * hi
  {
    if xs != [] {
      assert forall x :: x in xs[1..] ==> x in xs;
      SumBounds(xs[1..], lo, hi);
      assert xs[0] in xs;
      assert (|xs| as real) * lo == (|xs[1..]| as real) * lo + lo;
      assert (|xs| as real) * hi == (|xs[1..]| as real) * hi + hi;
    }
  }

  lemma MeanBounds(xs: seq<real>, lo: real, hi: real)
    requires |xs| > 0
    requires forall x :: x in xs ==> lo <= x <= hi
    ensures lo <= Mean(xs).value <= hi
  {
    SumBounds(xs, lo, hi);
    var n := |xs| as real;
    DivideBounds(Sum(xs), n, lo, hi);
  }

  lemma DivideBounds(s: real, n: real, lo: real, hi: real)
    requires n > 0.0 && n * lo <= s <= n * hi
    ensures lo <= s / n <= hi
  {
    assert (s / n - lo) * n == s - n * lo;
    assert (hi - s / n) * n == n * hi - s;
  }

  /** The least and greatest of a non-empty list of values. */
  function Least(xs: seq<real>): (m: real)
    requires |xs| > 0
    ensures m in xs && forall x :: x in xs ==> m <= x
  {
    if |xs| == 1 then xs[0]
    else
      var rest := Least(xs[1..]);
      assert forall x :: x in xs ==> x == xs[0] || x in xs[1..];
      if xs[0] <= rest then xs[0] else rest
  }

  function Greatest(xs: seq<real>): (m: real)
    requires |xs| > 0
    ensures m in xs && forall x :: x in xs ==> x <= m
  {
    if |xs| == 1 then xs[0]
    else
      var rest := Greatest(xs[1..]);
      assert forall x :: x in xs ==> x == xs[0] || x in xs[1..];
      if xs[0] >= rest then xs[0] else rest
  }

  /** A KPI cell `groupby(...).mean()` can average: a number or missing. */
  predicate Averageable(c: Cell)
  {
    c.Missing? || c.Int? || c.Num?
  }

  /** The distinct keys of the rows that have one, in order of first appearance. */
  function GroupKeys(rows: seq<Row>): (ks: seq<(Cell, Cell)>)
    ensures Distinct(ks)
    ensures forall k :: k in ks <==> exists r :: r in rows && HasKey(r) && KeyOf(r) == k
  {
    var keyed := Filter(rows, HasKey);
    var all := seq(|keyed|, i requires 0 <= i < |keyed| => KeyOf(keyed[i]));
    assert forall k :: k in all <==> exists r :: r in keyed && KeyOf(r) == k by {
      forall k | k in all ensures exists r :: r in keyed && KeyOf(r) == k {
        var i :| 0 <= i < |all| && all[i] == k;
        assert keyed[i] in keyed;
      }
      forall r | r in keyed ensures KeyOf(r) in all {
        var i :| 0 <= i < |keyed| && keyed[i] == r;
        assert all[i] == KeyOf(r);
      }
    }
    Unique(all)
  }

  /** One aggregated row: the key and the group's mean, missing when the group
      has no numeric value. */
  function AggregateRow(rows: seq<Row>, kpiCol: string, k: (Cell, Cell)): Row
  {
    var m := Mean(GroupNumbers(rows, kpiCol, k));
    map["geometry" := k.0, "name_road_segment" := k.1, "value" := if m.Some? then Num(m.value) else Missing]
  }

  lemma AggregateRowKey(rows: seq<Row>, kpiCol: string, k: (Cell, Cell))
    ensures KeyOf(AggregateRow(rows, kpiCol, k)) == k
  {
    var r := AggregateRow(rows, kpiCol, k);
    assert "geometry" in r && r["geometry"] == k.0;
    assert "name_road_segment" in r && r["name_road_segment"] == k.1;
  }

  /** The aggregated rows: one per distinct key, in order of first appearance.
      Each row carries its group's key and, under `value`, the arithmetic mean
      of the group's numeric KPI values, or a missing value when it has none. */
  function AggregateRows(rows: seq<Row>, kpiCol: string): (out: seq<Row>)
    ensures |out| == |GroupKeys(rows)|
    ensures forall i :: 0 <= i < |out| ==>
              out[i].Keys == {"geometry", "name_road_segment", "value"} && KeyOf(out[i]) == GroupKeys(rows)[i]
    ensures forall i :: 0 <= i < |out| ==>
              var xs := GroupNumbers(rows, kpiCol, GroupKeys(rows)[i]);
              (xs == [] ==> out[i]["value"] == Missing) &&
              (xs != [] ==> out[i]["value"] == Num(Sum(xs) / (|xs| as real)) &&
                            Least(xs) <= Sum(xs) / (|xs| as real) <= Greatest(xs))
  {
    var ks := GroupKeys(rows);
    var out := seq(|ks|, i requires 0 <= i < |ks| => AggregateRow(rows, kpiCol, ks[i]));
    forall i | 0 <= i < |out|
      ensures out[i].Keys == {"geometry", "name_road_segment", "value"} && KeyOf(out[i]) == ks[i]
      ensures var xs := GroupNumbers(rows, kpiCol, ks[i]);
              (xs == [] ==> out[i]["value"] == Missing) &&
              (xs != [] ==> out[i]["value"] == Num(Sum(xs) / (|xs| as real)) &&
                            Least(xs) <= Sum(xs) / (|xs| as real) <= Greatest(xs))
    {
      AggregateRowKey(rows, kpiCol, ks[i]);
      var xs := GroupNumbers(rows, kpiCol, ks[i]);
      if xs != [] {
        MeanBounds(xs, Least(xs), Greatest(xs));
      }
    }
    out
  }

  /** `aggregate_kpi_by_osm_segment`: a `ValueError` when the KPI column is
      absent, a `KeyError` when a key column is absent, a `TypeError` when a KPI
      cell is not a number; otherwise the aggregated rows under the columns
      `geometry`, `name_road_segment` and `value`. */
  function AggregateKpiBySegment(t: Table, kpiCol: string): (r: Result<Table>)
    ensures r.Err? && r.error.ValueError? <==> kpiCol !in t.columns
    ensures r.Err? && r.error.KeyError? <==>
              kpiCol in t.columns && ("geometry" !in t.columns || "name_road_segment" !in t.columns)
    ensures r.Ok? <==> (kpiCol in t.columns && "geometry" in t.columns && "name_road_segment" in t.columns &&
                        forall row :: row in t.rows ==> Averageable(Get(row, kpiCol)))
    ensures r.Ok? ==> r.value == Table(["geometry", "name_road_segment", "value"], AggregateRows(t.rows, kpiCol))
  {
    if kpiCol !in t.columns then Err(ValueError("KPI column not found in the matched GeoDataFrame for aggregation"))
    else if "geometry" !in t.columns then Err(KeyError("geometry"))
    else if "name_road_segment" !in t.columns then Err(KeyError("name_road_segment"))
    else if exists row :: row in t.rows && !Averageable(Get(row, kpiCol)) then Err(TypeError(kpiCol))
    else Ok(Table(["geometry", "name_road_segment", "value"], AggregateRows(t.rows, kpiCol)))
  }

  /** Row `i` of the aggregate carries key `i` of the distinct keys. */
  lemma AggregateRowsKeys(rows: seq<Row>, kpiCol: string)
    ensures forall i :: 0 <= i < |AggregateRows(rows, kpiCol)| ==> KeyOf(AggregateRows(rows, kpiCol)[i]) == GroupKeys(rows)[i]
  {
    var ks := GroupKeys(rows);
    var out := AggregateRows(rows, kpiCol);
    forall i | 0 <= i < |out| ensures KeyOf(out[i]) == ks[i] {
      AggregateRowKey(rows, kpiCol, ks[i]);
    }
  }

  /** No key occurs twice in the aggregate. */
  lemma AggregateKeysDistinct(rows: seq<Row>, kpiCol: string)
    ensures forall i, j :: 0 <= i < j < |AggregateRows(rows, kpiCol)| ==>
              KeyOf(AggregateRows(rows, kpiCol)[i]) != KeyOf(AggregateRows(rows, kpiCol)[j])
  {
    AggregateRowsKeys(rows, kpiCol);
    var ks := GroupKeys(rows);
    assert forall i, j :: 0 <= i < j < |ks| ==> ks[i] != ks[j];
  }

  /** Every input row with a key has a row with that key in the aggregate, and
      every aggregate row's key is the key of some input row. */
  lemma AggregateKeysComplete(rows: seq<Row>, kpiCol: string)
    ensures forall row :: row in rows && HasKey(row) ==>
              exists out :: out in AggregateRows(rows, kpiCol) && KeyOf(out) == KeyOf(row)
    ensures forall out :: out in AggregateRows(rows, kpiCol) ==>
              exists row :: row in rows && HasKey(row) && KeyOf(row) == KeyOf(out)
  {
    AggregateRowsKeys(rows, kpiCol);
    var ks := GroupKeys(rows);
    var out := AggregateRows(rows, kpiCol);
    forall row | row in rows && HasKey(row)
      ensures exists o :: o in out && KeyOf(o) == KeyOf(row)
    {
      assert KeyOf(row) in ks;
      var i :| 0 <= i < |ks| && ks[i] == KeyOf(row);
      assert out[i] in out;
    }
    forall o | o in out
      ensures exists row :: row in rows && HasKey(row) && KeyOf(row) == KeyOf(o)
    {
      var i :| 0 <= i < |out| && out[i] == o;
      assert ks[i] in ks;
    }
  }

  /** Each aggregated value lies between the least and the greatest numeric KPI
      value of its group, and is missing exactly when the group has none. */
  lemma AggregateValueBounds(rows: seq<Row>, kpiCol: string)
    ensures forall out :: out in AggregateRows(rows, kpiCol) ==>
              var xs := GroupNumbers(rows, kpiCol, KeyOf(out));
              (Get(out, "value").Missing? <==> xs == []) &&
              (xs != [] ==> (Get(out, "value").Num? && Least(xs) <= Get(out, "value").r <= Greatest(xs)))
  {
    var ks := GroupKeys(rows);
    var out := AggregateRows(rows, kpiCol);
    forall o | o in out
      ensures var xs := GroupNumbers(rows, kpiCol, KeyOf(o));
              (Get(o, "value").Missing? <==> xs == []) &&
              (xs != [] ==> (Get(o, "value").Num? && Least(xs) <= Get(o, "value").r <= Greatest(xs)))
    {
      var i :| 0 <= i < |out| && out[i] == o;
      var xs := GroupNumbers(rows, kpiCol, ks[i]);
      assert KeyOf(o) == ks[i];
      if xs != [] { MeanBounds(xs, Least(xs), Greatest(xs)); }
    }
  }

  // ----- worked cases -----

  /** Case-sensitive de-duplication: the name list of a segment carrying the same
      street twice and once in lower case flattens to two names, upper case first. */
  lemma FlattenNameCaseSensitive()
    ensures FlattenName(TextList(["Friedrichstraße", "friedrichstraße", "Friedrichstraße"])) ==
              Text("Friedrichstraße" + ", " + "friedrichstraße")
  {
    var upper := "Friedrichstraße";
    var lower := "friedrichstraße";
    var items := [upper, lower, upper];
    var names := [upper, lower];
    assert upper[0] == 'F' && lower[0] == 'f';
    assert LexLess(upper, lower);
    assert StrictlySorted(names);
    assert forall y :: y in names <==> y in items;
    FlattenNameCanonical(items, names);
    assert Join(names, ", ") == upper + ", " + lower;
  }

  /** On a tie the left nearest join keeps every equidistant edge: a detector
      equally far from two segments gets two rows. */
  lemma NearestRowsTie(r: Row, a: Edge, b: Edge, dist: Distance)
    requires Get(r, "geometry").Geo?
    requires dist(Get(r, "geometry").g, a.geometry) == dist(Get(r, "geometry").g, b.geometry)
    ensures |NearestRows(r, [a, b], dist)| == 2
  {
    var g := Get(r, "geometry").g;
    var ms := NearestRows(r, [a, b], dist);
    assert IsNearest(g, [a, b], dist, 0) && IsNearest(g, [a, b], dist, 1);
    assert Match(r, Some(0), Some(dist(g, a.geometry))) in ms;
    assert Match(r, Some(1), Some(dist(g, b.geometry))) in ms;
    var best := MinDistance(g, [a, b], dist);
    assert [a, b][1..] == [b];
    assert best == dist(g, a.geometry);
    assert NearestFrom(g, [a, b], dist, best, 2) == [];
    assert NearestFrom(g, [a, b], dist, best, 1) == [1];
    assert NearestFrom(g, [a, b], dist, best, 0) == [0, 1];
  }

  /** Rows that all share one key form one group. */
  lemma SingleKey(rows: seq<Row>, k: (Cell, Cell))
    requires |rows| > 0
    requires forall i :: 0 <= i < |rows| ==> HasKey(rows[i]) && KeyOf(rows[i]) == k
    ensures GroupKeys(rows) == [k]
  {
    var ks := GroupKeys(rows);
    assert rows[0] in rows;
    assert k in ks;
    assert forall x :: x in ks ==> x == k;
    assert forall i :: 0 <= i < |ks| ==> ks[i] in ks;
    assert |ks| >= 2 ==> ks[0] == ks[1];
  }

  /** A matched row of segment `seg` named `name` with KPI cell `v`. */
  function SegmentRow(seg: Geom, name: string, v: Cell): (r: Row)
    ensures HasKey(r) && KeyOf(r) == (Geo(seg), Text(name)) && Get(r, "q_kfz_det_hr") == v
  {
    map["geometry" := Geo(seg), "name_road_segment" := Text(name), "q_kfz_det_hr" := v]
  }

  /** The numeric values of three detectors on one segment with KPI cells 10, 20
      and a missing value. */
  lemma SegmentNumbers(seg: Geom, name: string)
    ensures GroupNumbers([SegmentRow(seg, name, Int(10)), SegmentRow(seg, name, Int(20)), SegmentRow(seg, name, Missing)],
                         "q_kfz_det_hr", (Geo(seg), Text(name))) == [10.0, 20.0]
  {
    var rows := [SegmentRow(seg, name, Int(10)), SegmentRow(seg, name, Int(20)), SegmentRow(seg, name, Missing)];
    var k := (Geo(seg), Text(name));
    assert rows[1..] == [rows[1], rows[2]] && rows[1..][1..] == [rows[2]];
    assert GroupNumbers([rows[2]], "q_kfz_det_hr", k) == [];
    assert GroupNumbers([rows[1], rows[2]], "q_kfz_det_hr", k) == [20.0];
  }

  /** Three detectors on one segment with KPI values 10, 20 and a missing value
      aggregate to one row whose value is 15: missing values are left out of the mean. */
  lemma AggregateIgnoresMissing(seg: Geom, name: string)
    ensures AggregateRows([SegmentRow(seg, name, Int(10)), SegmentRow(seg, name, Int(20)), SegmentRow(seg, name, Missing)], "q_kfz_det_hr") ==
              [map["geometry" := Geo(seg), "name_road_segment" := Text(name), "value" := Num(15.0)]]
  {
    var rows := [SegmentRow(seg, name, Int(10)), SegmentRow(seg, name, Int(20)), SegmentRow(seg, name, Missing)];
    var k := (Geo(seg), Text(name));
    SingleKey(rows, k);
    SegmentNumbers(seg, name);
    assert Sum([10.0, 20.0]) == 30.0 by {
      assert [10.0, 20.0][1..] == [20.0] && [20.0][1..] == [];
    }
    AggregateOneGroup(rows, "q_kfz_det_hr", k);
  }

  /** Rows that form one group aggregate to that group's row. */
  lemma AggregateOneGroup(rows: seq<Row>, kpiCol: string, k: (Cell, Cell))
    requires GroupKeys(rows) == [k]
    ensures AggregateRows(rows, kpiCol) == [AggregateRow(rows, kpiCol, k)]
  {
  }

  /** A group whose KPI values are all missing still gets a row, with a missing value. */
  lemma AggregateAllMissing(seg: Geom, name: string)
    ensures var r := map["geometry" := Geo(seg), "name_road_segment" := Text(name), "q_kfz_det_hr" := Missing];
            AggregateRows([r, r], "q_kfz_det_hr") ==
              [map["geometry" := Geo(seg), "name_road_segment" := Text(name), "value" := Missing]]
  {
    var r := map["geometry" := Geo(seg), "name_road_segment" := Text(name), "q_kfz_det_hr" := Missing];
    var k := (Geo(seg), Text(name));
    assert HasKey(r) && KeyOf(r) == k;
    assert [r, r][1..] == [r];
    SingleKey([r, r], k);
    assert GroupNumbers([r], "q_kfz_det_hr", k) == [];
    assert GroupNumbers([r, r], "q_kfz_det_hr", k) == [];
    AggregateOneGroup([r, r], "q_kfz_det_hr", k);
  }

  // ----- the matcher object -----

  /** The cache file used when none is given: `data/osm/berlin_drive.graphml`
      two directories above the matcher's own directory. */
  function DefaultCachePath(scriptDir: string): (path: string)
    ensures |path| > |scriptDir| && path[..|scriptDir|] == scriptDir
  {
    scriptDir + "/../../data/osm/berlin_drive.graphml"
  }

  /** `StreetMatcher`: the loaded edge table, once there is one, and the last
      nearest-join result. The graph that the cache or the download would
      yield is passed in. */
  class StreetMatcher {
    var networkPlace: string
    var cachePath: string
    var osmEdges: Option<seq<Edge>>
    var gdfMatched: Option<seq<Match>>

    /** A loaded edge table is indexed by row position. */
    predicate Valid()
      reads this
    {
      osmEdges.Some? ==> Indexed(osmEdges.value)
    }

    constructor (networkPlace: string, cachePath: Option<string>, scriptDir: string)
      ensures this.networkPlace == networkPlace
      ensures this.cachePath == if cachePath.Some? then cachePath.value else DefaultCachePath(scriptDir)
      ensures osmEdges == None && gdfMatched == None
      ensures Valid()
    {
      this.networkPlace := networkPlace;
      this.cachePath := if cachePath.Some? then cachePath.value else DefaultCachePath(scriptDir);
      osmEdges := None;
      gdfMatched := None;
    }

    /** `load_osm_network` on the graph read from the cache or downloaded. */
    method LoadOsmNetwork(graph: seq<RawEdge>)
      modifies this
      ensures osmEdges == Some(IndexEdges(graph))
      ensures networkPlace == old(networkPlace) && cachePath == old(cachePath) && gdfMatched == old(gdfMatched)
      ensures Valid()
    {
      osmEdges := Some(IndexEdges(graph));
    }

    /** `match_detectors_to_segments`: loads the network only when none is loaded,
      never changes a loaded one, records the nearest join once the points are
      built, and returns the matched table. */
    method MatchDetectorsToSegments(df: Table, graph: seq<RawEdge>, dist: Distance) returns (r: Result<Table>)
      requires Valid()
      modifies this
      ensures Valid() && osmEdges.Some?
      ensures old(osmEdges).Some? ==> osmEdges == old(osmEdges)
      ensures old(osmEdges).None? ==> osmEdges == Some(IndexEdges(graph))
      ensures networkPlace == old(networkPlace) && cachePath == old(cachePath)
      ensures r == MatchSpec(df, osmEdges.value, dist)
      ensures ToGeo(df, "lon", "lat").Ok? ==>
                gdfMatched == Some(SJoinNearest(ToGeo(df, "lon", "lat").value.rows, osmEdges.value, dist))
      ensures ToGeo(df, "lon", "lat").Err? ==> gdfMatched == old(gdfMatched)
    {
      if osmEdges.None? {
        LoadOsmNetwork(graph);
      }
      var edges := osmEdges.value;
      var points := ToGeo(df, "lon", "lat");
      if points.Err? {
        return Err(points.error);
      }
      var matched := SJoinNearest(points.value.rows, edges, dist);
      gdfMatched := Some(matched);
      r := RoadKpiTable(MergeEdges(matched, edges), df.columns);
    }
  }

  // ----- the matcher as a function -----

  /** What `match_detectors_to_segments` gives for a table of detectors. A
      generator's matcher is `MatchWith` of the network it loaded. */
  type MatchFn = Table -> Result<Table>

  function MatchWith(edges: seq<Edge>, dist: Distance): MatchFn
  {
    (s: Table) => MatchSpec(s, edges, dist)
  }

  /** `matchFn` is the matcher on the loaded network `edges`. */
  ghost predicate MatchesNetwork(matchFn: MatchFn, edges: seq<Edge>, dist: Distance)
  {
    forall s {:trigger MatchSpec(s, edges, dist)} :: matchFn(s) == MatchSpec(s, edges, dist)
  }

  /** `match_detectors_to_segments` on the loaded network: the network stays. */
  method MatchSlice(slice: Table, matcher: StreetMatcher, graph: seq<RawEdge>, dist: Distance, ghost matchFn: MatchFn)
    returns (r: Result<Table>)
    requires matcher.Valid() && matcher.osmEdges.Some? && MatchesNetwork(matchFn, matcher.osmEdges.value, dist)
    modifies matcher
    ensures matcher.Valid() && matcher.osmEdges == old(matcher.osmEdges)
    ensures r == matchFn(slice)
  {
    r := matcher.MatchDetectorsToSegments(slice, graph, dist);
  }
}
