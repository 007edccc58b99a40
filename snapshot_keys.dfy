/** The snapshot key column both snapshot generators add to the enriched table,
    its distinct values, and the slice of rows for one key. */
module SnapshotKeys {
  import opened Frames
  import opened Dates

  /** One row's key: `tag.dt.strftime("%Y-%m-%d") + " " + hour.astype(str).str.zfill(2) + ":00"`.
      A missing day (NaT) gives a missing key; a `tag` that is not a day or an
      `hour` that is not an integer is an error. */
  function TimestampCell(tag: Cell, hour: Cell): (r: Result<Cell>)
    ensures tag.Missing? ==> r == Ok(Missing)
    ensures tag.Day? && hour.Int? ==> r == Ok(Text(TimestampKey(tag.d, hour.i)))
    ensures r.Ok? <==> tag.Missing? || (tag.Day? && hour.Int?)
  {
    if tag.Missing? then Ok(Missing)
    else if tag.Day? && hour.Int? then Ok(Text(TimestampKey(tag.d, hour.i)))
    else Err(TypeError("timestamp"))
  }

  function TimestampCells(rows: seq<Row>): (r: Result<seq<Cell>>)
    ensures r.Ok? <==> forall i :: 0 <= i < |rows| ==> TimestampCell(Get(rows[i], "tag"), Get(rows[i], "hour")).Ok?
    ensures r.Ok? ==> |r.value| == |rows|
    ensures r.Ok? ==> forall i :: 0 <= i < |rows| ==> TimestampCell(Get(rows[i], "tag"), Get(rows[i], "hour")) == Ok(r.value[i])
  {
    if rows == [] then Ok([])
    else
      var head := TimestampCell(Get(rows[0], "tag"), Get(rows[0], "hour"));
      var rest := rows[1..];
      var tail := TimestampCells(rest);
      if head.Err? then Err(head.error)
      else if tail.Err? then
        var i :| 0 <= i < |rest| && TimestampCell(Get(rest[i], "tag"), Get(rest[i], "hour")).Err?;
        assert rest[i] == rows[i + 1];
        Err(tail.error)
      else
        var cells := [head.value] + tail.value;
        assert forall i :: 1 <= i < |rows| ==> rows[i] == rest[i - 1] && cells[i] == tail.value[i - 1];
        Ok(cells)
  }

  /** `df["timestamp"] = ...`: a `KeyError` when `tag` or `hour` is absent. */
  function AddTimestamps(t: Table): (r: Result<Table>)
    ensures "tag" !in t.columns ==> r == Err(KeyError("tag"))
    ensures "tag" in t.columns && "hour" !in t.columns ==> r == Err(KeyError("hour"))
    ensures r.Ok? ==> |r.value.rows| == |t.rows|
    ensures r.Ok? ==> forall i :: 0 <= i < |t.rows| ==>
                TimestampCell(Get(t.rows[i], "tag"), Get(t.rows[i], "hour")) == Ok(Get(r.value.rows[i], "timestamp")) &&
                forall c :: c != "timestamp" ==> Get(r.value.rows[i], c) == Get(t.rows[i], c)
  {
    if "tag" !in t.columns then Err(KeyError("tag"))
    else if "hour" !in t.columns then Err(KeyError("hour"))
    else
      match TimestampCells(t.rows)
      case Err(e) => Err(e)
      case Ok(cells) => Ok(SetColumn(t, "timestamp", cells))
  }

  /** A row whose day pandas can hold and whose hour is 0-23 gets a key of the
      fixed `YYYY-MM-DD HH:00` shape, from which its day and hour read back. */
  lemma TimestampCellShape(tag: Cell, hour: Cell)
    requires tag.Day? && ValidDate(tag.d) && InTimestampRange(tag.d)
    requires hour.Int? && 0 <= hour.i < 24
    ensures TimestampCell(tag, hour).Ok? && TimestampCell(tag, hour).value.Text?
    ensures KeyShaped(TimestampCell(tag, hour).value.s)
    ensures ParseKey(TimestampCell(tag, hour).value.s) == Some((tag.d, hour.i))
  {
    KeyFacts(tag.d, hour.i);
    ParseKeyRoundTrip(tag.d, hour.i);
  }

  /** `df["timestamp"].unique()`. */
  function UniqueTimes(t: Table): (ts: seq<Cell>)
    ensures Distinct(ts)
    ensures forall c :: c in ts <==> exists i :: 0 <= i < |t.rows| && Get(t.rows[i], "timestamp") == c
  {
    var cells := ColumnValues(t, "timestamp");
    assert forall c :: c in cells <==> exists i :: 0 <= i < |t.rows| && Get(t.rows[i], "timestamp") == c by {
      forall c | c in cells ensures exists i :: 0 <= i < |t.rows| && Get(t.rows[i], "timestamp") == c {
        var i :| 0 <= i < |cells| && cells[i] == c;
      }
      forall i | 0 <= i < |t.rows| ensures Get(t.rows[i], "timestamp") in cells {
        assert cells[i] == Get(t.rows[i], "timestamp");
      }
    }
    Unique(cells)
  }

  /** Every distinct key of a keyed table is text or missing. */
  lemma KeyedTimes(df: Table)
    requires AddTimestamps(df).Ok?
    ensures forall c :: c in UniqueTimes(AddTimestamps(df).value) ==> c.Text? || c.Missing?
  {
    var t := AddTimestamps(df).value;
    forall c | c in UniqueTimes(t) ensures c.Text? || c.Missing? {
      var i :| 0 <= i < |t.rows| && Get(t.rows[i], "timestamp") == c;
      assert TimestampCell(Get(df.rows[i], "tag"), Get(df.rows[i], "hour")) == Ok(c);
    }
  }

  /** `df["timestamp"] == ts` for one row: a missing key (NaN) equals nothing. */
  predicate AtTime(row: Row, ts: Cell)
  {
    !ts.Missing? && Get(row, "timestamp") == ts
  }

  /** `df[df["timestamp"] == ts]`: the rows at that time, in table order. */
  function TimeSlice(t: Table, ts: Cell): (r: Table)
    ensures r.columns == t.columns && |r.rows| <= |t.rows|
    ensures forall row :: row in r.rows <==> row in t.rows && AtTime(row, ts)
  {
    Table(t.columns, Filter(t.rows, (row: Row) => AtTime(row, ts)))
  }

  /** The slice for a missing key is empty. */
  lemma TimeSliceMissing(t: Table)
    ensures TimeSlice(t, Missing).rows == []
  {
    FilterNone(t.rows, (row: Row) => AtTime(row, Missing));
  }

  /** The slices of the distinct keys share no row, and every row with a key lies
      in the slice of its own key: looping over the distinct keys visits each
      keyed row exactly once. */
  lemma TimeSlicesPartition(t: Table)
    ensures forall row :: row in t.rows && !Get(row, "timestamp").Missing? ==>
              Get(row, "timestamp") in UniqueTimes(t) && row in TimeSlice(t, Get(row, "timestamp")).rows
    ensures forall i, j, row :: 0 <= i < j < |UniqueTimes(t)| && row in TimeSlice(t, UniqueTimes(t)[i]).rows ==>
              row !in TimeSlice(t, UniqueTimes(t)[j]).rows
  {
    forall row | row in t.rows && !Get(row, "timestamp").Missing?
      ensures Get(row, "timestamp") in UniqueTimes(t)
    {
      var i :| 0 <= i < |t.rows| && t.rows[i] == row;
    }
  }
}
