/** The KPI loader: reads the hourly detector CSV and cleans it by keeping the
    rows of sufficient quality, parsing the day, and renaming `stunde` to `hour`.
    The CSV file's contents are passed in; reading the file is not modelled. */
module KpiLoader {
  import opened Frames
  import opened Dates

  /** The least `qualitaet` a row must have to be kept. */
  const MinQuality: real := 0.75

  /** `qualitaet >= 0.75` for one row; a missing quality (NaN) compares false. */
  predicate GoodQuality(r: Row)
  {
    AsReal(Get(r, "qualitaet")).Some? && AsReal(Get(r, "qualitaet")).value >= MinQuality
  }

  /** A quality cell the comparison accepts: a number or missing. */
  predicate Comparable(c: Cell)
  {
    c.Missing? || c.Int? || c.Num?
  }

  /** `df[df["qualitaet"] >= 0.75]`: a `KeyError` without the column, a
      `TypeError` when a quality is not a number, else the good rows in order. */
  function FilterQuality(t: Table): (r: Result<Table>)
    ensures "qualitaet" !in t.columns ==> r == Err(KeyError("qualitaet"))
    ensures r.Ok? <==> "qualitaet" in t.columns && forall row :: row in t.rows ==> Comparable(Get(row, "qualitaet"))
    ensures r.Err? ==> r.error == KeyError("qualitaet") || r.error == TypeError("qualitaet")
    ensures r.Ok? ==> r.value.columns == t.columns && |r.value.rows| <= |t.rows|
    ensures r.Ok? ==> forall row :: row in r.value.rows <==> row in t.rows && GoodQuality(row)
  {
    if "qualitaet" !in t.columns then Err(KeyError("qualitaet"))
    else if exists row :: row in t.rows && !Comparable(Get(row, "qualitaet")) then Err(TypeError("qualitaet"))
    else Ok(Table(t.columns, Filter(t.rows, GoodQuality)))
  }

  /** The filter keeps the good rows in their original order and adds none:
      position `k` of the result is the `k`-th good row of the input. */
  lemma FilterQualityInOrder(t: Table)
    requires FilterQuality(t).Ok?
    ensures |KeptPositions(t.rows, GoodQuality, 0)| == |FilterQuality(t).value.rows|
    ensures forall k :: 0 <= k < |FilterQuality(t).value.rows| ==>
              KeptPositions(t.rows, GoodQuality, 0)[k] < |t.rows| &&
              FilterQuality(t).value.rows[k] == t.rows[KeptPositions(t.rows, GoodQuality, 0)[k]]
    ensures forall k, l :: 0 <= k < l < |FilterQuality(t).value.rows| ==>
              KeptPositions(t.rows, GoodQuality, 0)[k] < KeptPositions(t.rows, GoodQuality, 0)[l]
  {
    FilterSelectsInOrder(t.rows, GoodQuality, 0);
    assert t.rows[0..] == t.rows;
  }

  /** The boundary is inclusive: a quality of exactly 0.75 is kept, and anything
      below it is dropped. */
  lemma QualityBoundary(r: Row, q: real)
    requires Get(r, "qualitaet") == Num(q)
    ensures GoodQuality(r) <==> q >= 0.75
  {
  }

  /** `pd.to_datetime(tag, format="%d.%m.%Y")` on one cell: a missing day stays
      missing (NaT), a text is parsed, a day already parsed stays, anything else
      is an error. */
  function ParseTagCell(c: Cell): (r: Result<Cell>)
    ensures r.Ok? ==> r.value.Missing? || (r.value.Day? && ValidDate(r.value.d) && InTimestampRange(r.value.d))
    ensures c.Text? ==> (r.Ok? <==> ParseDmy(c.s).Ok?)
    ensures c.Text? && r.Ok? ==> r.value == Day(ParseDmy(c.s).value)
    ensures c.Missing? ==> r == Ok(Missing)
  {
    match c
    case Missing => Ok(Missing)
    case Text(s) => (if ParseDmy(s).Ok? then Ok(Day(ParseDmy(s).value)) else Err(ParseDmy(s).error))
    case Day(d) => if ValidDate(d) && InTimestampRange(d) then Ok(c) else Err(ValueError("out of bounds nanosecond timestamp"))
    case _ => Err(ValueError("time data does not match format"))
  }

  function ParseTagCells(rows: seq<Row>): (r: Result<seq<Cell>>)
    ensures r.Ok? ==> |r.value| == |rows|
    ensures r.Ok? ==> forall i :: 0 <= i < |rows| ==> ParseTagCell(Get(rows[i], "tag")) == Ok(r.value[i])
    ensures r.Err? <==> exists i :: 0 <= i < |rows| && ParseTagCell(Get(rows[i], "tag")).Err?
  {
    if rows == [] then Ok([])
    else
      match (ParseTagCell(Get(rows[0], "tag")), ParseTagCells(rows[1..]))
      case (Ok(c), Ok(cs)) =>
        assert forall i :: 1 <= i < |rows| ==> rows[i] == rows[1..][i - 1];
        Ok([c] + cs)
      case (Err(e), _) => Err(e)
      case (_, Err(e)) =>
        var i :| 0 <= i < |rows[1..]| && ParseTagCell(Get(rows[1..][i], "tag")).Err?;
        assert rows[1..][i] == rows[i + 1];
        Err(e)
  }

  /** `df["tag"] = pd.to_datetime(df["tag"], format="%d.%m.%Y")`. */
  function ParseTags(t: Table): (r: Result<Table>)
    ensures "tag" !in t.columns ==> r == Err(KeyError("tag"))
    ensures r.Ok? <==> "tag" in t.columns && forall i :: 0 <= i < |t.rows| ==> ParseTagCell(Get(t.rows[i], "tag")).Ok?
    ensures r.Ok? ==> r.value.columns == t.columns && |r.value.rows| == |t.rows|
    ensures r.Ok? ==> forall i :: 0 <= i < |t.rows| ==>
              ParseTagCell(Get(t.rows[i], "tag")) == Ok(Get(r.value.rows[i], "tag")) &&
              forall c :: c != "tag" ==> Get(r.value.rows[i], c) == Get(t.rows[i], c)
  {
    if "tag" !in t.columns then Err(KeyError("tag"))
    else
      match ParseTagCells(t.rows)
      case Err(e) => Err(e)
      case Ok(cells) => Ok(SetColumn(t, "tag", cells))
  }

  /** `df["hour"] = df["stunde"]`. */
  function CopyHour(t: Table): (r: Result<Table>)
    ensures r.Err? <==> "stunde" !in t.columns
    ensures r.Err? ==> r.error == KeyError("stunde")
    ensures r.Ok? ==> |r.value.rows| == |t.rows|
    ensures r.Ok? ==> r.value.columns == if "hour" in t.columns then t.columns else t.columns + ["hour"]
    ensures r.Ok? ==> forall i :: 0 <= i < |t.rows| ==>
              Get(r.value.rows[i], "hour") == Get(t.rows[i], "stunde") &&
              forall c :: c != "hour" ==> Get(r.value.rows[i], c) == Get(t.rows[i], c)
  {
    if "stunde" !in t.columns then Err(KeyError("stunde"))
    else Ok(SetColumn(t, "hour", ColumnValues(t, "stunde")))
  }

  /** `_clean` as a whole: filter, parse the day, copy the hour, drop `stunde`. */
  function CleanSpec(t: Table): (r: Result<Table>)
  {
    match FilterQuality(t)
    case Err(e) => Err(e)
    case Ok(good) =>
      match ParseTags(good)
      case Err(e) => Err(e)
      case Ok(dated) =>
        match CopyHour(dated)
        case Err(e) => Err(e)
        case Ok(houred) => Ok(DropColumn(houred, "stunde"))
  }

  /** After cleaning, every row is a good row of the input, in input order; its
      `hour` is its former `stunde`; its `tag` is the parsed day (or missing);
      its other cells are unchanged; and there is no `stunde` column any more. */
  lemma CleanSpecRows(t: Table)
    requires CleanSpec(t).Ok?
    ensures "stunde" !in CleanSpec(t).value.columns
    ensures |CleanSpec(t).value.rows| == |FilterQuality(t).value.rows|
    ensures forall i :: 0 <= i < |CleanSpec(t).value.rows| ==>
              var before := FilterQuality(t).value.rows[i];
              var after := CleanSpec(t).value.rows[i];
              before in t.rows && GoodQuality(before) &&
              Get(after, "hour") == Get(before, "stunde") &&
              Get(after, "stunde") == Missing &&
              ParseTagCell(Get(before, "tag")) == Ok(Get(after, "tag")) &&
              forall c :: c != "hour" && c != "stunde" && c != "tag" ==> Get(after, c) == Get(before, c)
  {
    var good := FilterQuality(t).value;
    var dated := ParseTags(good).value;
    var houred := CopyHour(dated).value;
    var r := CleanSpec(t).value;
    assert r == DropColumn(houred, "stunde");
    forall i | 0 <= i < |r.rows|
      ensures var before := good.rows[i];
              var after := r.rows[i];
              before in t.rows && GoodQuality(before) &&
              Get(after, "hour") == Get(before, "stunde") &&
              Get(after, "stunde") == Missing &&
              ParseTagCell(Get(before, "tag")) == Ok(Get(after, "tag")) &&
              forall c :: c != "hour" && c != "stunde" && c != "tag" ==> Get(after, c) == Get(before, c)
    {
      assert good.rows[i] in good.rows;
    }
  }

  /** `TrafficKPILoader`: the CSV path and the table once it is loaded. */
  class TrafficKpiLoader {
    var csvPath: string
    var df: Option<Table>

    constructor (csvPath: string)
      ensures this.csvPath == csvPath && df == None
    {
      this.csvPath := csvPath;
      df := None;
    }

    /** `_clean`: each step replaces `df` in turn, so a step that raises leaves
        the table as the previous steps made it. */
    method Clean() returns (err: Option<Error>)
      requires df.Some?
      modifies this
      ensures csvPath == old(csvPath) && df.Some?
      ensures err.None? <==> CleanSpec(old(df).value).Ok?
      ensures err.None? ==> df == Some(CleanSpec(old(df).value).value)
      ensures err.Some? ==> Err(err.value) == CleanSpec(old(df).value)
      ensures FilterQuality(old(df).value).Err? ==> df == old(df)
      ensures FilterQuality(old(df).value).Ok? && ParseTags(FilterQuality(old(df).value).value).Err? ==>
                df == Some(FilterQuality(old(df).value).value)
      ensures FilterQuality(old(df).value).Ok? && ParseTags(FilterQuality(old(df).value).value).Ok? &&
              CopyHour(ParseTags(FilterQuality(old(df).value).value).value).Err? ==>
                df == Some(ParseTags(FilterQuality(old(df).value).value).value)
    {
      var filtered := FilterQuality(df.value);
      if filtered.Err? {
        return Some(filtered.error);
      }
      df := Some(filtered.value);
      var dated := ParseTags(df.value);
      if dated.Err? {
        return Some(dated.error);
      }
      df := Some(dated.value);
      var houred := CopyHour(df.value);
      if houred.Err? {
        return Some(houred.error);
      }
      df := Some(DropColumn(houred.value, "stunde"));
      return None;
    }

    /** `load` on the table the CSV file holds: `df` becomes the cleaned table,
        which is also returned. */
    method Load(csv: Table) returns (r: Result<Table>)
      modifies this
      ensures csvPath == old(csvPath)
      ensures r == CleanSpec(csv)
      ensures r.Ok? ==> df == Some(r.value)
    {
      df := Some(csv);
      var err := Clean();
      if err.Some? {
        return Err(err.value);
      }
      return Ok(df.value);
    }
  }
}
