/** The enricher: joins the cleaned KPI table with the detector master data on
    the detector id, drops detectors without a location and copies the WGS84
    coordinates into `lon` and `lat`. The spreadsheet's contents are passed in;
    reading it is not modelled. */
module Enricher {
  import opened Frames

  const Key: string := "detid_15"
  const Longitude: string := "LÄNGE (WGS84)"
  const Latitude: string := "BREITE (WGS84)"
  const DefaultSheet: string := "Stammdaten_TEU_20220720"

  // ----- the left join -----

  /** The metadata rows whose key equals that of `l`. */
  function Partners(l: Row, right: seq<Row>): (ps: seq<Row>)
    ensures forall r :: r in ps <==> r in right && Get(r, Key) == Get(l, Key)
  {
    Filter(right, (r: Row) => Get(r, Key) == Get(l, Key))
  }

  /** The row pairs of a left join on `detid_15`: each left row with each of its
      partners in metadata order, or with none when it has no partner. */
  function JoinPairs(left: seq<Row>, right: seq<Row>): (ps: seq<(Row, Option<Row>)>)
    ensures |ps| >= |left|
    ensures forall p :: p in ps ==> p.0 in left
    ensures forall p :: p in ps && p.1.Some? ==> p.1.value in Partners(p.0, right)
    ensures forall p :: p in ps && p.1.None? ==> Partners(p.0, right) == []
  {
    if left == [] then []
    else
      var l := left[0];
      var found := Partners(l, right);
      var head := if found == [] then [(l, None)] else seq(|found|, k requires 0 <= k < |found| => (l, Some(found[k])));
      assert forall p :: p in head ==> p.0 == l && (p.1.Some? ==> p.1.value in found) && (p.1.None? ==> found == []);
      head + JoinPairs(left[1..], right)
  }

  /** Left-join completeness: every pair of rows with equal keys is in the join,
      and every left row without a partner is in it once, unmatched. */
  lemma {:induction false} JoinPairsComplete(left: seq<Row>, right: seq<Row>)
    ensures forall l, r :: l in left && r in right && Get(r, Key) == Get(l, Key) ==> (l, Some(r)) in JoinPairs(left, right)
    ensures forall l :: l in left && Partners(l, right) == [] ==> (l, None) in JoinPairs(left, right)
  {
    if left != [] {
      JoinPairsComplete(left[1..], right);
      var l := left[0];
      var found := Partners(l, right);
      forall r | r in right && Get(r, Key) == Get(l, Key) ensures (l, Some(r)) in JoinPairs(left, right) {
        var k :| 0 <= k < |found| && found[k] == r;
        var head := seq(|found|, k requires 0 <= k < |found| => (l, Some(found[k])));
        assert head[k] == (l, Some(r));
        assert JoinPairs(left, right) == head + JoinPairs(left[1..], right);
      }
      assert forall x :: x in left ==> x == l || x in left[1..];
    }
  }

  // ----- column names after the merge -----

  /** pandas' suffixing: a non-key column that both sides have gets `suffix`. */
  function OutName(c: string, other: seq<string>, suffix: string): string
  {
    if c != Key && c in other then c + suffix else c
  }

  function LeftNames(left: seq<string>, right: seq<string>): (names: seq<string>)
    ensures |names| == |left|
  {
    seq(|left|, i requires 0 <= i < |left| => OutName(left[i], right, "_x"))
  }

  /** The metadata columns the merge adds: all but the key, in order. */
  function RightOnly(right: seq<string>): (cs: seq<string>)
    ensures forall c :: c in cs <==> c in right && c != Key
  {
    Filter(right, (c: string) => c != Key)
  }

  function RightNames(left: seq<string>, right: seq<string>): (names: seq<string>)
    ensures |names| == |RightOnly(right)|
  {
    var cs := RightOnly(right);
    seq(|cs|, i requires 0 <= i < |cs| => OutName(cs[i], left, "_y"))
  }

  /** The merged table's columns: the KPI columns, then the metadata columns
      other than the key. */
  function MergedColumns(left: seq<string>, right: seq<string>): seq<string>
  {
    LeftNames(left, right) + RightNames(left, right)
  }

  /** A row built from (column, cell) pairs. */
  function FromPairs(ps: seq<(string, Cell)>): (r: Row)
    ensures r.Keys == set i | 0 <= i < |ps| :: ps[i].0
  {
    if ps == [] then map[]
    else
      var init := FromPairs(ps[..|ps| - 1]);
      assert forall i :: 0 <= i < |ps| - 1 ==> ps[..|ps| - 1][i] == ps[i];
      init[ps[|ps| - 1].0 := ps[|ps| - 1].1]
  }

  /** With distinct column names every column holds its own cell. */
  lemma {:induction false} FromPairsGet(ps: seq<(string, Cell)>)
    requires forall i, j :: 0 <= i < j < |ps| ==> ps[i].0 != ps[j].0
    ensures forall i :: 0 <= i < |ps| ==> Get(FromPairs(ps), ps[i].0) == ps[i].1
  {
    if ps != [] {
      var init := ps[..|ps| - 1];
      assert forall i :: 0 <= i < |init| ==> init[i] == ps[i];
      FromPairsGet(init);
    }
  }

  /** The KPI cells of a merged row, under their merged names. */
  function LeftPairs(l: Row, leftCols: seq<string>, rightCols: seq<string>): (ps: seq<(string, Cell)>)
    ensures |ps| == |leftCols|
    ensures forall i :: 0 <= i < |leftCols| ==> ps[i] == (OutName(leftCols[i], rightCols, "_x"), Get(l, leftCols[i]))
  {
    seq(|leftCols|, i requires 0 <= i < |leftCols| => (OutName(leftCols[i], rightCols, "_x"), Get(l, leftCols[i])))
  }

  /** The metadata cells of a merged row, missing when there is no partner. */
  function RightPairs(r: Option<Row>, leftCols: seq<string>, rightCols: seq<string>): (ps: seq<(string, Cell)>)
    ensures |ps| == |RightOnly(rightCols)|
    ensures forall i :: 0 <= i < |ps| ==>
              ps[i] == (OutName(RightOnly(rightCols)[i], leftCols, "_y"), if r.Some? then Get(r.value, RightOnly(rightCols)[i]) else Missing)
  {
    var cs := RightOnly(rightCols);
    seq(|cs|, i requires 0 <= i < |cs| => (OutName(cs[i], leftCols, "_y"), if r.Some? then Get(r.value, cs[i]) else Missing))
  }

  /** The merged row of a KPI row `l` and its partner `r`, if any. */
  function MergedRow(l: Row, r: Option<Row>, leftCols: seq<string>, rightCols: seq<string>): Row
  {
    FromPairs(LeftPairs(l, leftCols, rightCols) + RightPairs(r, leftCols, rightCols))
  }

  /** `pd.merge(df_kpi, df_metadata, on="detid_15", how="left")`: a `KeyError`
      when a side has no key column, a `MergeError` when the suffixed names
      clash, else the joined rows. */
  function LeftMerge(left: Table, right: Table): (r: Result<Table>)
    ensures Key !in left.columns ==> r == Err(KeyError(Key))
    ensures Key in left.columns && Key !in right.columns ==> r == Err(KeyError(Key))
    ensures r.Ok? <==> Key in left.columns && Key in right.columns && Distinct(MergedColumns(left.columns, right.columns))
    ensures r.Ok? ==> r.value.columns == MergedColumns(left.columns, right.columns)
    ensures r.Ok? ==> |r.value.rows| == |JoinPairs(left.rows, right.rows)|
    ensures r.Ok? ==> forall i :: 0 <= i < |r.value.rows| ==>
              r.value.rows[i] == MergedRow(JoinPairs(left.rows, right.rows)[i].0, JoinPairs(left.rows, right.rows)[i].1, left.columns, right.columns)
  {
    if Key !in left.columns || Key !in right.columns then Err(KeyError(Key))
    else if !Distinct(MergedColumns(left.columns, right.columns)) then Err(MergeError)
    else
      var ps := JoinPairs(left.rows, right.rows);
      Ok(Table(MergedColumns(left.columns, right.columns),
               seq(|ps|, i requires 0 <= i < |ps| => MergedRow(ps[i].0, ps[i].1, left.columns, right.columns))))
  }

  /** Tables that share no column but the key. */
  predicate Disjoint(leftCols: seq<string>, rightCols: seq<string>)
  {
    Distinct(leftCols) && Distinct(rightCols) && forall c :: c in leftCols && c in rightCols ==> c == Key
  }

  lemma MergedPairsDistinct(l: Row, r: Option<Row>, leftCols: seq<string>, rightCols: seq<string>)
    requires Disjoint(leftCols, rightCols)
    ensures var ps := LeftPairs(l, leftCols, rightCols) + RightPairs(r, leftCols, rightCols);
            forall i, j :: 0 <= i < j < |ps| ==> ps[i].0 != ps[j].0
  {
    var cs := RightOnly(rightCols);
    var lp := LeftPairs(l, leftCols, rightCols);
    var rp := RightPairs(r, leftCols, rightCols);
    FilterDistinctLocal(rightCols);
    assert forall i :: 0 <= i < |lp| ==> lp[i].0 == leftCols[i];
    assert forall i :: 0 <= i < |rp| ==> cs[i] in cs && rp[i].0 == cs[i] && cs[i] !in leftCols;
    var ps := lp + rp;
    forall i, j | 0 <= i < j < |ps| ensures ps[i].0 != ps[j].0 {
      if j < |lp| {
        assert ps[i] == lp[i] && ps[j] == lp[j];
      } else if i >= |lp| {
        assert ps[i] == rp[i - |lp|] && ps[j] == rp[j - |lp|];
      } else {
        assert ps[i] == lp[i] && ps[j] == rp[j - |lp|];
        assert leftCols[i] in leftCols;
      }
    }
  }

  /** When the two tables share no column but the key, every KPI cell keeps its
      name and value, and every metadata column holds the partner's cell, or a
      missing value for a KPI row without partner. */
  lemma MergedRowCells(l: Row, r: Option<Row>, leftCols: seq<string>, rightCols: seq<string>)
    requires Disjoint(leftCols, rightCols) && Key in leftCols
    ensures forall c :: c in leftCols ==> Get(MergedRow(l, r, leftCols, rightCols), c) == Get(l, c)
    ensures forall c :: c in rightCols && c !in leftCols ==>
              Get(MergedRow(l, r, leftCols, rightCols), c) == if r.Some? then Get(r.value, c) else Missing
  {
    var cs := RightOnly(rightCols);
    var lp := LeftPairs(l, leftCols, rightCols);
    var rp := RightPairs(r, leftCols, rightCols);
    var ps := lp + rp;
    MergedPairsDistinct(l, r, leftCols, rightCols);
    FromPairsGet(ps);
    forall c | c in leftCols ensures Get(FromPairs(ps), c) == Get(l, c) {
      var i :| 0 <= i < |leftCols| && leftCols[i] == c;
      assert ps[i] == lp[i];
    }
    forall c | c in rightCols && c !in leftCols
      ensures Get(FromPairs(ps), c) == if r.Some? then Get(r.value, c) else Missing
    {
      assert c in cs;
      var i :| 0 <= i < |cs| && cs[i] == c;
      assert ps[|lp| + i] == rp[i];
    }
  }

  lemma FilterDistinctLocal(rightCols: seq<string>)
    requires Distinct(rightCols)
    ensures Distinct(RightOnly(rightCols))
  {
    FilterDistinct(rightCols, (c: string) => c != Key);
  }

  // ----- dropping rows without a location -----

  /** `dropna(subset=[LÄNGE (WGS84), BREITE (WGS84)])`: a `KeyError` when a
      coordinate column is absent, else the rows that have both coordinates. */
  function DropMissingLocation(t: Table): (r: Result<Table>)
    ensures r.Err? <==> Longitude !in t.columns || Latitude !in t.columns
    ensures r.Ok? ==> r.value.columns == t.columns
    ensures r.Ok? ==> forall row :: row in r.value.rows <==>
              row in t.rows && Get(row, Longitude) != Missing && Get(row, Latitude) != Missing
  {
    if Longitude !in t.columns then Err(KeyError(Longitude))
    else if Latitude !in t.columns then Err(KeyError(Latitude))
    else Ok(Table(t.columns, Filter(t.rows, (row: Row) => Get(row, Longitude) != Missing && Get(row, Latitude) != Missing)))
  }

  /** `df["lon"] = df[LÄNGE (WGS84)]` and `df["lat"] = df[BREITE (WGS84)]`. */
  function AddLonLat(t: Table): (r: Table)
    ensures |r.rows| == |t.rows|
    ensures forall i :: 0 <= i < |t.rows| ==>
              Get(r.rows[i], "lon") == Get(t.rows[i], Longitude) &&
              Get(r.rows[i], "lat") == Get(t.rows[i], Latitude) &&
              forall c :: c != "lon" && c != "lat" ==> Get(r.rows[i], c) == Get(t.rows[i], c)
  {
    var withLon := SetColumn(t, "lon", ColumnValues(t, Longitude));
    SetColumn(withLon, "lat", ColumnValues(withLon, Latitude))
  }

  /** The merge, the location filter and the coordinate copy, on the metadata
      after its key column has been renamed. */
  function MergeAndLocate(kpi: Table, meta: Table): Result<Table>
  {
    match LeftMerge(kpi, meta)
    case Err(e) => Err(e)
    case Ok(merged) =>
      match DropMissingLocation(merged)
      case Err(e) => Err(e)
      case Ok(located) => Ok(AddLonLat(located))
  }

  /** `enrich` as a whole, on the KPI table and the metadata sheet. */
  function EnrichSpec(kpi: Table, metadata: Table): Result<Table>
  {
    MergeAndLocate(kpi, RenameColumn(metadata, "DET_ID15", Key))
  }

  /** Without shared columns the merge renames nothing: its columns are the
      KPI columns followed by the metadata columns other than the key. */
  lemma MergedColumnsDisjoint(leftCols: seq<string>, rightCols: seq<string>)
    requires Disjoint(leftCols, rightCols) && Key in leftCols
    ensures MergedColumns(leftCols, rightCols) == leftCols + RightOnly(rightCols)
  {
    var cs := RightOnly(rightCols);
    assert LeftNames(leftCols, rightCols) == leftCols by {
      forall i | 0 <= i < |leftCols| ensures LeftNames(leftCols, rightCols)[i] == leftCols[i] {
        assert leftCols[i] in leftCols;
      }
    }
    assert RightNames(leftCols, rightCols) == cs by {
      forall i | 0 <= i < |cs| ensures RightNames(leftCols, rightCols)[i] == cs[i] {
        assert cs[i] in cs;
      }
    }
  }

  /** A merged row that has a coordinate taken from the metadata had a partner. */
  lemma LocatedRowMatched(l: Row, r: Option<Row>, leftCols: seq<string>, rightCols: seq<string>, c: string)
    requires Disjoint(leftCols, rightCols) && Key in leftCols
    requires c in rightCols && c !in leftCols
    requires Get(MergedRow(l, r, leftCols, rightCols), c) != Missing
    ensures r.Some?
    ensures Get(MergedRow(l, r, leftCols, rightCols), Key) == Get(l, Key)
  {
    MergedRowCells(l, r, leftCols, rightCols);
  }

  /** A row of the merge that has a longitude had a partner with its key. */
  lemma MergeRowsLocated(kpi: Table, meta: Table)
    requires LeftMerge(kpi, meta).Ok?
    requires Disjoint(kpi.columns, meta.columns)
    requires Longitude !in kpi.columns && Longitude in meta.columns
    ensures forall j :: 0 <= j < |LeftMerge(kpi, meta).value.rows| && Get(LeftMerge(kpi, meta).value.rows[j], Longitude) != Missing ==>
              var p := JoinPairs(kpi.rows, meta.rows)[j];
              p.1.Some? && Get(p.1.value, Key) == Get(p.0, Key) && Get(LeftMerge(kpi, meta).value.rows[j], Key) == Get(p.0, Key)
  {
    var merged := LeftMerge(kpi, meta).value;
    var ps := JoinPairs(kpi.rows, meta.rows);
    forall j | 0 <= j < |merged.rows| && Get(merged.rows[j], Longitude) != Missing
      ensures ps[j].1.Some? && Get(ps[j].1.value, Key) == Get(ps[j].0, Key) && Get(merged.rows[j], Key) == Get(ps[j].0, Key)
    {
      var p := ps[j];
      assert p in ps;
      LocatedRowMatched(p.0, p.1, kpi.columns, meta.columns, Longitude);
      assert p.1.value in Partners(p.0, meta.rows);
    }
  }

  /** A column of the merge that is not a KPI column is a metadata column. */
  lemma MergedColumnFrom(kpi: Table, meta: Table, c: string)
    requires LeftMerge(kpi, meta).Ok? && Disjoint(kpi.columns, meta.columns)
    requires c in LeftMerge(kpi, meta).value.columns && c !in kpi.columns
    ensures c in meta.columns
  {
    MergedColumnsDisjoint(kpi.columns, meta.columns);
    assert c in RightOnly(meta.columns);
  }

  /** One enriched row: its coordinates are present and copied, and the merge
      row it comes from had a partner. */
  lemma EnrichedRow(ps: seq<(Row, Option<Row>)>, merged: Table, located: Table, i: nat)
    requires |merged.rows| == |ps|
    requires forall j :: 0 <= j < |merged.rows| && Get(merged.rows[j], Longitude) != Missing ==>
               ps[j].1.Some? && Get(ps[j].1.value, Key) == Get(ps[j].0, Key) && Get(merged.rows[j], Key) == Get(ps[j].0, Key)
    requires DropMissingLocation(merged) == Ok(located)
    requires i < |located.rows|
    ensures var row := AddLonLat(located).rows[i];
            Get(row, "lon") == Get(row, Longitude) != Missing &&
            Get(row, "lat") == Get(row, Latitude) != Missing &&
            exists p :: p in ps && p.1.Some? && Get(p.1.value, Key) == Get(p.0, Key) && Get(row, Key) == Get(p.0, Key)
  {
    var src := located.rows[i];
    assert src in located.rows;
    var j :| 0 <= j < |merged.rows| && merged.rows[j] == src;
    assert ps[j] in ps;
  }

  /** Every enriched row: see `EnrichedRow`. */
  lemma EnrichedRows(ps: seq<(Row, Option<Row>)>, merged: Table, located: Table)
    requires |merged.rows| == |ps|
    requires forall j :: 0 <= j < |merged.rows| && Get(merged.rows[j], Longitude) != Missing ==>
               ps[j].1.Some? && Get(ps[j].1.value, Key) == Get(ps[j].0, Key) && Get(merged.rows[j], Key) == Get(ps[j].0, Key)
    requires DropMissingLocation(merged) == Ok(located)
    ensures forall row :: row in AddLonLat(located).rows ==>
              Get(row, "lon") == Get(row, Longitude) != Missing &&
              Get(row, "lat") == Get(row, Latitude) != Missing &&
              exists p :: p in ps && p.1.Some? && Get(p.1.value, Key) == Get(p.0, Key) && Get(row, Key) == Get(p.0, Key)
  {
    var out := AddLonLat(located);
    forall row | row in out.rows
      ensures Get(row, "lon") == Get(row, Longitude) != Missing
      ensures Get(row, "lat") == Get(row, Latitude) != Missing
      ensures exists p :: p in ps && p.1.Some? && Get(p.1.value, Key) == Get(p.0, Key) && Get(row, Key) == Get(p.0, Key)
    {
      var i :| 0 <= i < |out.rows| && out.rows[i] == row;
      EnrichedRow(ps, merged, located, i);
    }
  }

  /** Every enriched row has both coordinates, `lon` and `lat` equal them, and
      it comes from a KPI row joined with a metadata row of the same detector
      id: KPI rows without master data never survive. */
  lemma MergeAndLocateRows(kpi: Table, meta: Table)
    requires MergeAndLocate(kpi, meta).Ok?
    requires Disjoint(kpi.columns, meta.columns)
    requires Longitude !in kpi.columns && Latitude !in kpi.columns
    ensures forall row :: row in MergeAndLocate(kpi, meta).value.rows ==>
              Get(row, "lon") == Get(row, Longitude) != Missing &&
              Get(row, "lat") == Get(row, Latitude) != Missing &&
              exists p :: p in JoinPairs(kpi.rows, meta.rows) && p.1.Some? &&
                Get(p.1.value, Key) == Get(p.0, Key) && Get(row, Key) == Get(p.0, Key)
  {
    var merged := LeftMerge(kpi, meta).value;
    MergedColumnFrom(kpi, meta, Longitude);
    MergeRowsLocated(kpi, meta);
    EnrichedRows(JoinPairs(kpi.rows, meta.rows), merged, DropMissingLocation(merged).value);
  }

  /** `TrafficDataEnricher`: the KPI table, where the master data lives, and the
      metadata and enriched tables once `enrich` has produced them. */
  class TrafficDataEnricher {
    var dfKpi: Table
    var metadataPath: string
    var sheet: string
    var dfMetadata: Option<Table>
    var dfEnriched: Option<Table>

    constructor (dfKpi: Table, metadataPath: string, sheet: Option<string>)
      ensures this.dfKpi == dfKpi && this.metadataPath == metadataPath
      ensures this.sheet == if sheet.Some? then sheet.value else DefaultSheet
      ensures dfMetadata == None && dfEnriched == None
    {
      this.dfKpi := dfKpi;
      this.metadataPath := metadataPath;
      this.sheet := if sheet.Some? then sheet.value else DefaultSheet;
      dfMetadata := None;
      dfEnriched := None;
    }

    /** `enrich` on the sheet the spreadsheet holds. `df_metadata` is replaced by
        the renamed sheet, then `df_enriched` by the merge, the located rows and
        the rows with `lon` and `lat`; a step that raises leaves the fields as the
        earlier steps made them. The KPI table is never changed. */
    method Enrich(sheetRows: Table) returns (r: Result<Table>)
      modifies this
      ensures dfKpi == old(dfKpi) && metadataPath == old(metadataPath) && sheet == old(sheet)
      ensures dfMetadata == Some(RenameColumn(sheetRows, "DET_ID15", Key))
      ensures r == EnrichSpec(dfKpi, sheetRows)
      ensures r.Ok? ==> dfEnriched == Some(r.value)
      ensures LeftMerge(dfKpi, dfMetadata.value).Err? ==> dfEnriched == old(dfEnriched)
      ensures LeftMerge(dfKpi, dfMetadata.value).Ok? && r.Err? ==> dfEnriched == Some(LeftMerge(dfKpi, dfMetadata.value).value)
    {
      dfMetadata := Some(sheetRows);
      dfMetadata := Some(RenameColumn(dfMetadata.value, "DET_ID15", Key));
      var merged := LeftMerge(dfKpi, dfMetadata.value);
      if merged.Err? {
        return Err(merged.error);
      }
      dfEnriched := Some(merged.value);
      var located := DropMissingLocation(dfEnriched.value);
      if located.Err? {
        return Err(located.error);
      }
      dfEnriched := Some(located.value);
      dfEnriched := Some(SetColumn(dfEnriched.value, "lon", ColumnValues(dfEnriched.value, Longitude)));
      dfEnriched := Some(SetColumn(dfEnriched.value, "lat", ColumnValues(dfEnriched.value, Latitude)));
      return Ok(dfEnriched.value);
    }
  }
}
