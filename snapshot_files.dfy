/** The file-writing snapshot generator: for every distinct key of the enriched
    table it matches that hour's detectors to road segments, averages the KPI
    per segment and writes the result as one GeoJSON file named after the key.
    Unlike the database generator it catches nothing: the first exception ends
    the script. The geometry simplification before writing is not modelled,
    and the files are a map from path to the table written there. */
module SnapshotFiles {
  import opened Frames
  import opened Dates
  import opened SnapshotKeys
  import opened OsmMatcher

  /** `SAVE_DIR`. */
  const SaveDir: string := "data/road_kpi_snapshots"

  /** `f"{SAVE_DIR}/road_kpi_{safe_ts}.geojson"` with `safe_ts = ts.replace(":", "-")`:
      a file directly under `SAVE_DIR` whose name carries the safe key. */
  function SnapshotPath(ts: string): (p: string)
    ensures |p| == |SaveDir| + 10 + |ts| + 8
    ensures p[..|SaveDir| + 10] == SaveDir + "/road_kpi_"
    ensures p[|SaveDir| + 10..|p| - 8] == SafeTimestamp(ts)
    ensures p[|p| - 8..] == ".geojson"
    ensures ':' !in p[|SaveDir| + 10..]
  {
    var p := SaveDir + "/road_kpi_" + SafeTimestamp(ts) + ".geojson";
    assert p[|SaveDir| + 10..] == SafeTimestamp(ts) + ".geojson";
    p
  }

  /** Distinct keys of the `YYYY-MM-DD HH:00` shape get distinct files. */
  lemma PathInjective(k1: string, k2: string)
    requires KeyShaped(k1) && KeyShaped(k2)
    requires SnapshotPath(k1) == SnapshotPath(k2)
    ensures k1 == k2
  {
    assert SafeTimestamp(k1) == SafeTimestamp(k2);
    SafeTimestampInjective(k1, k2);
  }

  /** What one iteration of the loop does: write a file, or raise. */
  datatype FileOutcome = Written(path: string, content: Table) | Raised(error: Error)

  /** One iteration for key `ts`: slice, match, aggregate, then name the file.
      A missing key (NaN) has no `replace`, so naming its file raises
      `AttributeError` after its (empty) slice was matched and aggregated. */
  function SnapshotFile(t: Table, ts: Cell, matchFn: MatchFn, kpiColumn: string): (o: FileOutcome)
    ensures var m := matchFn(TimeSlice(t, ts));
            o.Written? <==> ts.Text? && m.Ok? && AggregateKpiBySegment(m.value, kpiColumn).Ok?
    ensures o.Written? ==>
              o.path == SnapshotPath(ts.s) &&
              o.content == AggregateKpiBySegment(matchFn(TimeSlice(t, ts)).value, kpiColumn).value
    ensures var m := matchFn(TimeSlice(t, ts));
            m.Ok? && kpiColumn !in m.value.columns ==> o.Raised? && o.error.ValueError?
    ensures var m := matchFn(TimeSlice(t, ts));
            m.Ok? && AggregateKpiBySegment(m.value, kpiColumn).Ok? && !ts.Text? ==> o == Raised(AttributeError("replace"))
  {
    var slice := TimeSlice(t, ts);
    match matchFn(slice)
    case Err(e) => Raised(e)
    case Ok(matched) =>
      match AggregateKpiBySegment(matched, kpiColumn)
      case Err(e) => Raised(e)
      case Ok(road) => if ts.Text? then Written(SnapshotPath(ts.s), road) else Raised(AttributeError("replace"))
  }

  /** The files written so far, in order, and the exception that ended the
      script, if any. */
  datatype FileRun = FileRun(files: seq<(string, Table)>, aborted: Option<Error>)

  /** What one iteration does to the run so far. */
  function FileStep(done: FileRun, o: FileOutcome): FileRun
  {
    if done.aborted.Some? then done
    else
      match o
      case Written(p, c) => FileRun(done.files + [(p, c)], None)
      case Raised(e) => FileRun(done.files, Some(e))
  }

  /** The loop over the keys `times` of the keyed table `t`. */
  function FileRuns(t: Table, times: seq<Cell>, matchFn: MatchFn, kpiColumn: string): (r: FileRun)
    ensures |r.files| <= |times|
  {
    if times == [] then FileRun([], None)
    else
      var done := FileRuns(t, times[..|times| - 1], matchFn, kpiColumn);
      FileStep(done, SnapshotFile(t, times[|times| - 1], matchFn, kpiColumn))
  }

  /** The whole script on the enriched table, after the network is loaded. */
  function SnapshotFilesRun(df: Table, matchFn: MatchFn, kpiColumn: string): (r: FileRun)
  {
    match AddTimestamps(df)
    case Err(e) => FileRun([], Some(e))
    case Ok(t) => FileRuns(t, UniqueTimes(t), matchFn, kpiColumn)
  }

  // ----- line 28 as written -----

  /** One iteration as line 28 is written: `aggregate_kpi_by_osm_segment(gdf_matched)`
      passes no `kpi_col`, so Python raises `TypeError` at the call, before any
      aggregation; only a failing match raises first. */
  function SnapshotFileAsWritten(t: Table, ts: Cell, matchFn: MatchFn): (o: FileOutcome)
    ensures o.Raised?
    ensures matchFn(TimeSlice(t, ts)).Ok? ==> o == Raised(TypeError("kpi_col"))
    ensures matchFn(TimeSlice(t, ts)).Err? ==> o == Raised(matchFn(TimeSlice(t, ts)).error)
  {
    match matchFn(TimeSlice(t, ts))
    case Err(e) => Raised(e)
    case Ok(_) => Raised(TypeError("kpi_col"))
  }

  /** The loop over the keys with line 28 as written. */
  function FileRunsAsWritten(t: Table, times: seq<Cell>, matchFn: MatchFn): FileRun
  {
    if times == [] then FileRun([], None)
    else FileStep(FileRunsAsWritten(t, times[..|times| - 1], matchFn), SnapshotFileAsWritten(t, times[|times| - 1], matchFn))
  }

  /** The script with line 28 as written. */
  function SnapshotFilesRunAsWritten(df: Table, matchFn: MatchFn): FileRun
  {
    match AddTimestamps(df)
    case Err(e) => FileRun([], Some(e))
    case Ok(t) => FileRunsAsWritten(t, UniqueTimes(t), matchFn)
  }

  /** With line 28 as written the loop writes nothing, and it stops at the first
      key: with `TypeError` when that key's detectors match. */
  lemma {:induction false} AsWrittenLoopWritesNothing(t: Table, times: seq<Cell>, matchFn: MatchFn)
    ensures FileRunsAsWritten(t, times, matchFn).files == []
    ensures FileRunsAsWritten(t, times, matchFn).aborted.None? <==> times == []
    ensures times != [] && matchFn(TimeSlice(t, times[0])).Ok? ==>
              FileRunsAsWritten(t, times, matchFn).aborted == Some(TypeError("kpi_col"))
  {
    if times != [] {
      var init := times[..|times| - 1];
      AsWrittenLoopWritesNothing(t, init, matchFn);
      if init != [] {
        assert init[0] == times[0];
      }
    }
  }

  /** With line 28 as written the script leaves the directory's files exactly as
      `makedirs` left them, and it stops whenever the table has a key. */
  lemma AsWrittenWritesNothing(df: Table, matchFn: MatchFn, base: map<string, Table>)
    ensures Apply(base, SnapshotFilesRunAsWritten(df, matchFn).files) == base
    ensures AddTimestamps(df).Ok? && UniqueTimes(AddTimestamps(df).value) != [] ==>
              SnapshotFilesRunAsWritten(df, matchFn).aborted.Some?
  {
    if AddTimestamps(df).Ok? {
      var t := AddTimestamps(df).value;
      AsWrittenLoopWritesNothing(t, UniqueTimes(t), matchFn);
    }
  }

  /** The `k`-th file written is the `k`-th key's: its path is named after the
      key and it holds that key's aggregate; a run that did not stop wrote one
      file per key. */
  lemma {:induction false} FileRunsFiles(t: Table, times: seq<Cell>, matchFn: MatchFn, kpiColumn: string)
    ensures var r := FileRuns(t, times, matchFn, kpiColumn);
            forall k :: 0 <= k < |r.files| ==>
              times[k].Text? && SnapshotFile(t, times[k], matchFn, kpiColumn) == Written(r.files[k].0, r.files[k].1)
    ensures var r := FileRuns(t, times, matchFn, kpiColumn);
            r.aborted.None? ==> |r.files| == |times|
  {
    if times != [] {
      var prefix := times[..|times| - 1];
      FileRunsFiles(t, prefix, matchFn, kpiColumn);
      var done := FileRuns(t, prefix, matchFn, kpiColumn);
      var r := FileRuns(t, times, matchFn, kpiColumn);
      forall k | 0 <= k < |r.files|
        ensures times[k].Text? && SnapshotFile(t, times[k], matchFn, kpiColumn) == Written(r.files[k].0, r.files[k].1)
      {
        if k < |done.files| {
          assert r.files[k] == done.files[k];
          assert times[k] == prefix[k];
        } else {
          var o := SnapshotFile(t, times[|times| - 1], matchFn, kpiColumn);
          assert done.aborted.None? && o.Written?;
          assert k == |times| - 1;
          assert r.files[k] == (o.path, o.content);
        }
      }
    }
  }

  /** A run over distinct well-shaped keys never writes the same path twice. */
  lemma FileRunsDistinctPaths(t: Table, times: seq<Cell>, matchFn: MatchFn, kpiColumn: string)
    requires Distinct(times)
    requires forall k :: 0 <= k < |times| && times[k].Text? ==> KeyShaped(times[k].s)
    ensures var r := FileRuns(t, times, matchFn, kpiColumn);
            forall i, j :: 0 <= i < j < |r.files| ==> r.files[i].0 != r.files[j].0
  {
    FileRunsFiles(t, times, matchFn, kpiColumn);
    var r := FileRuns(t, times, matchFn, kpiColumn);
    forall i, j | 0 <= i < j < |r.files|
      ensures r.files[i].0 != r.files[j].0
    {
      if r.files[i].0 == r.files[j].0 {
        PathInjective(times[i].s, times[j].s);
      }
    }
  }

  /** One more iteration of the loop. */
  lemma FileRunsNext(t: Table, times: seq<Cell>, i: nat, matchFn: MatchFn, kpiColumn: string)
    requires i < |times|
    ensures FileRuns(t, times[..i + 1], matchFn, kpiColumn) ==
              FileStep(FileRuns(t, times[..i], matchFn, kpiColumn), SnapshotFile(t, times[i], matchFn, kpiColumn))
  {
    assert times[..i + 1][..i] == times[..i];
  }

  /** A stopped run stays stopped: later keys write nothing. */
  lemma {:induction false} FileRunsStopped(t: Table, times: seq<Cell>, k: nat, matchFn: MatchFn, kpiColumn: string)
    requires k <= |times|
    requires FileRuns(t, times[..k], matchFn, kpiColumn).aborted.Some?
    ensures FileRuns(t, times, matchFn, kpiColumn) == FileRuns(t, times[..k], matchFn, kpiColumn)
    decreases |times| - k
  {
    if k < |times| {
      assert times[..k + 1][..k] == times[..k];
      FileRunsStopped(t, times, k + 1, matchFn, kpiColumn);
    } else {
      assert times[..k] == times;
    }
  }

  /** The directory after writing `files` in order over `base`: a later write
      to a path replaces an earlier one. */
  function Apply(base: map<string, Table>, files: seq<(string, Table)>): (m: map<string, Table>)
    ensures m.Keys == base.Keys + set f | f in files :: f.0
  {
    if files == [] then base
    else
      var prev := Apply(base, files[..|files| - 1]);
      var last := files[|files| - 1];
      assert forall f :: f in files <==> f in files[..|files| - 1] || f == last;
      prev[last.0 := last.1]
  }

  /** When no path is written twice, each path holds the table written to it. */
  lemma {:induction false} ApplyDistinct(base: map<string, Table>, files: seq<(string, Table)>)
    requires forall i, j :: 0 <= i < j < |files| ==> files[i].0 != files[j].0
    ensures forall k :: 0 <= k < |files| ==> Apply(base, files)[files[k].0] == files[k].1
  {
    if files != [] {
      var init := files[..|files| - 1];
      ApplyDistinct(base, init);
      forall k | 0 <= k < |files|
        ensures Apply(base, files)[files[k].0] == files[k].1
      {
        if k < |init| {
          assert files[k] == init[k];
        }
      }
    }
  }

  /** What one more written file does to the directory. */
  lemma ApplyNext(base: map<string, Table>, files: seq<(string, Table)>, p: string, c: Table)
    ensures Apply(base, files + [(p, c)]) == Apply(base, files)[p := c]
  {
    assert (files + [(p, c)])[..|files|] == files;
  }

  /** The output directory: the files in it, by path, and the directories
      that exist. */
  class SnapshotDirectory {
    var files: map<string, Table>
    var dirs: set<string>

    constructor (files: map<string, Table>, dirs: set<string>)
      ensures this.files == files && this.dirs == dirs
    {
      this.files := files;
      this.dirs := dirs;
    }

    /** `os.makedirs(path, exist_ok=True)`: an existing directory is no error. */
    method MakeDirs(path: string)
      modifies this
      ensures dirs == old(dirs) + {path} && files == old(files)
    {
      dirs := dirs + {path};
    }

    /** `to_file(path)`: creates the file or replaces its contents. */
    method ToFile(path: string, content: Table)
      modifies this
      ensures files == old(files)[path := content] && dirs == old(dirs)
    {
      files := files[path := content];
    }
  }

  /** One iteration of the loop for key `ts`: what `SnapshotFile` says, with
      the matcher on the loaded network, which it leaves alone. */
  method WriteSnapshot(t: Table, ts: Cell, matcher: StreetMatcher, graph: seq<RawEdge>, dist: Distance,
                       kpiColumn: string, dir: SnapshotDirectory, ghost matchFn: MatchFn) returns (stop: Option<Error>)
    requires matcher.Valid() && matcher.osmEdges.Some? && MatchesNetwork(matchFn, matcher.osmEdges.value, dist)
    modifies matcher, dir
    ensures matcher.Valid() && matcher.osmEdges == old(matcher.osmEdges)
    ensures dir.dirs == old(dir.dirs)
    ensures var o := SnapshotFile(t, ts, matchFn, kpiColumn);
            (o.Raised? ==> stop == Some(o.error) && dir.files == old(dir.files)) &&
            (o.Written? ==> stop == None && dir.files == old(dir.files)[o.path := o.content])
  {
    ghost var o := SnapshotFile(t, ts, matchFn, kpiColumn);
    var slice := TimeSlice(t, ts);
    var matched := MatchSlice(slice, matcher, graph, dist, matchFn);
    if matched.Err? {
      assert o == Raised(matched.error);
      return Some(matched.error);
    }
    var road := AggregateKpiBySegment(matched.value, kpiColumn);
    if road.Err? {
      assert o == Raised(road.error);
      return Some(road.error);
    }
    if !ts.Text? {
      assert o == Raised(AttributeError("replace"));
      return Some(AttributeError("replace"));
    }
    var path := SnapshotPath(ts.s);
    assert o == Written(path, road.value);
    dir.ToFile(path, road.value);
    return None;
  }

  /** Iteration `i` of the loop, on a run that has not stopped: the run and
      the directory move on by one key, and a raise ends the whole run. */
  method WriteStep(t: Table, times: seq<Cell>, i: nat, matcher: StreetMatcher, graph: seq<RawEdge>, dist: Distance,
                   kpiColumn: string, dir: SnapshotDirectory, ghost matchFn: MatchFn, ghost base: map<string, Table>,
                   ghost done: FileRun) returns (stop: Option<Error>, ghost next: FileRun)
    requires i < |times|
    requires matcher.Valid() && matcher.osmEdges.Some? && MatchesNetwork(matchFn, matcher.osmEdges.value, dist)
    requires done == FileRuns(t, times[..i], matchFn, kpiColumn) && done.aborted.None?
    requires dir.files == Apply(base, done.files)
    modifies matcher, dir
    ensures matcher.Valid() && matcher.osmEdges == old(matcher.osmEdges)
    ensures dir.dirs == old(dir.dirs)
    ensures next == FileRuns(t, times[..i + 1], matchFn, kpiColumn) && stop == next.aborted
    ensures dir.files == Apply(base, next.files)
    ensures stop.Some? ==> next == FileRuns(t, times, matchFn, kpiColumn)
  {
    ghost var o := SnapshotFile(t, times[i], matchFn, kpiColumn);
    stop := WriteSnapshot(t, times[i], matcher, graph, dist, kpiColumn, dir, matchFn);
    FileRunsNext(t, times, i, matchFn, kpiColumn);
    if o.Written? {
      ApplyNext(base, done.files, o.path, o.content);
    }
    next := FileStep(done, o);
    if stop.Some? {
      FileRunsStopped(t, times, i + 1, matchFn, kpiColumn);
    }
  }

  /** The loop over the keys, until one iteration raises. The directory gains
      the files of `FileRuns`. */
  method WriteSnapshotsFor(t: Table, times: seq<Cell>, matcher: StreetMatcher, graph: seq<RawEdge>, dist: Distance,
                           kpiColumn: string, dir: SnapshotDirectory, ghost matchFn: MatchFn) returns (stop: Option<Error>)
    requires matcher.Valid() && matcher.osmEdges.Some? && MatchesNetwork(matchFn, matcher.osmEdges.value, dist)
    modifies matcher, dir
    ensures matcher.Valid() && matcher.osmEdges == old(matcher.osmEdges)
    ensures dir.dirs == old(dir.dirs)
    ensures dir.files == Apply(old(dir.files), FileRuns(t, times, matchFn, kpiColumn).files)
    ensures stop == FileRuns(t, times, matchFn, kpiColumn).aborted
  {
    ghost var edges := matcher.osmEdges.value;
    ghost var base := dir.files;
    ghost var done := FileRun([], None);
    var i := 0;
    while i < |times|
      invariant 0 <= i <= |times|
      invariant matcher.osmEdges == Some(edges) && matcher.Valid()
      invariant dir.dirs == old(dir.dirs)
      invariant done == FileRuns(t, times[..i], matchFn, kpiColumn)
      invariant done.aborted.None?
      invariant dir.files == Apply(base, done.files)
    {
      stop, done := WriteStep(t, times, i, matcher, graph, dist, kpiColumn, dir, matchFn, base, done);
      if stop.Some? {
        return stop;
      }
      i := i + 1;
    }
    assert times[..i] == times;
    return None;
  }

  /** The script: create `SAVE_DIR`, key the table, load the network once,
      then write one file per key. Afterwards the directory holds the files of
      `SnapshotFilesRun` with the matcher on that network, and the script
      stopped exactly when that run stopped. */
  method WriteSnapshots(df: Table, matcher: StreetMatcher, graph: seq<RawEdge>, dist: Distance,
                        kpiColumn: string, dir: SnapshotDirectory) returns (aborted: Option<Error>)
    requires matcher.Valid()
    modifies matcher, dir
    ensures SaveDir in dir.dirs
    ensures AddTimestamps(df).Ok? ==> matcher.osmEdges == Some(IndexEdges(graph))
    ensures dir.files == Apply(old(dir.files), SnapshotFilesRun(df, MatchWith(IndexEdges(graph), dist), kpiColumn).files)
    ensures aborted == SnapshotFilesRun(df, MatchWith(IndexEdges(graph), dist), kpiColumn).aborted
  {
    dir.MakeDirs(SaveDir);
    var keyed := AddTimestamps(df);
    if keyed.Err? {
      return Some(keyed.error);
    }
    var times := UniqueTimes(keyed.value);
    matcher.LoadOsmNetwork(graph);
    ghost var matchFn := MatchWith(IndexEdges(graph), dist);
    assert MatchesNetwork(matchFn, IndexEdges(graph), dist);
    aborted := WriteSnapshotsFor(keyed.value, times, matcher, graph, dist, kpiColumn, dir, matchFn);
  }

  /** After a run that did not stop, every distinct well-shaped key has its own
      file under `SAVE_DIR`, holding that key's aggregate. */
  lemma EveryKeyWritten(t: Table, times: seq<Cell>, matchFn: MatchFn, kpiColumn: string, base: map<string, Table>)
    requires Distinct(times)
    requires forall k :: 0 <= k < |times| && times[k].Text? ==> KeyShaped(times[k].s)
    requires FileRuns(t, times, matchFn, kpiColumn).aborted.None?
    ensures forall k :: 0 <= k < |times| ==>
              times[k].Text? &&
              var o := SnapshotFile(t, times[k], matchFn, kpiColumn);
              o.Written? && o.path == SnapshotPath(times[k].s) &&
              var m := Apply(base, FileRuns(t, times, matchFn, kpiColumn).files);
              o.path in m && m[o.path] == o.content
  {
    var r := FileRuns(t, times, matchFn, kpiColumn);
    FileRunsFiles(t, times, matchFn, kpiColumn);
    FileRunsDistinctPaths(t, times, matchFn, kpiColumn);
    ApplyDistinct(base, r.files);
    forall k | 0 <= k < |times|
      ensures r.files[k].0 in Apply(base, r.files)
    {
      assert r.files[k] in r.files;
    }
  }
}
