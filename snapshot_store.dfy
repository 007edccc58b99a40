/** The MongoDB snapshot generator: for every distinct snapshot key and every
    KPI combination it matches the detectors of that hour to road segments,
    averages the combination's KPI per segment and inserts one document. The
    collection is a list of documents; whether the server accepts an insert is
    a parameter. */
module SnapshotStore {
  import opened Frames
  import opened TextUtil
  import opened OsmMatcher
  import opened SnapshotKeys

  /** `KPI_COMBINATIONS` in insertion order: the combination key (written as
      its vehicle type and KPI type joined by `_`) and its KPI column. */
  const KpiCombinations: seq<(string, string)> := [
    ("all" + "_" + "number_of_vehicles", "q_kfz_det_hr"),
    ("all" + "_" + "avg_speed", "v_kfz_det_hr"),
    ("cars" + "_" + "number_of_vehicles", "q_pkw_det_hr"),
    ("cars" + "_" + "avg_speed", "v_pkw_det_hr"),
    ("trucks" + "_" + "number_of_vehicles", "q_lkw_det_hr"),
    ("trucks" + "_" + "avg_speed", "v_lkw_det_hr")
  ]

  /** `combo_key.split('_', 1)` read as `parts[0]`, `parts[1]`: an `IndexError`
      when the key has no `_`. */
  function VehicleAndKpi(key: string): (r: Result<(string, string)>)
    ensures r.Err? <==> '_' !in key
    ensures r.Ok? ==> '_' !in r.value.0 && r.value.0 + "_" + r.value.1 == key
  {
    match SplitOnce(key, '_')
    case None => Err(IndexError("list index out of range"))
    case Some(parts) => Ok(parts)
  }

  predicate VehicleType(v: string)
  {
    v == "all" || v == "cars" || v == "trucks"
  }

  predicate KpiType(k: string)
  {
    k == "number_of_vehicles" || k == "avg_speed"
  }

  lemma ComboSplit(vehicle: string, kpiType: string)
    requires VehicleType(vehicle) && KpiType(kpiType)
    ensures VehicleAndKpi(vehicle + "_" + kpiType) == Ok((vehicle, kpiType))
  {
    assert '_' !in vehicle;
    SplitOnceJoined(vehicle, kpiType, '_');
  }

  /** Every combination key splits into a vehicle type and a KPI type, and
      joining the two parts with `_` gives the key back. */
  lemma CombinationKeysSplit()
    ensures forall i :: 0 <= i < |KpiCombinations| ==>
              var parts := VehicleAndKpi(KpiCombinations[i].0);
              parts.Ok? && VehicleType(parts.value.0) && KpiType(parts.value.1)
  {
    forall i | 0 <= i < |KpiCombinations|
      ensures var parts := VehicleAndKpi(KpiCombinations[i].0);
              parts.Ok? && VehicleType(parts.value.0) && KpiType(parts.value.1)
    {
      if i == 0 { ComboSplit("all", "number_of_vehicles"); }
      else if i == 1 { ComboSplit("all", "avg_speed"); }
      else if i == 2 { ComboSplit("cars", "number_of_vehicles"); }
      else if i == 3 { ComboSplit("cars", "avg_speed"); }
      else if i == 4 { ComboSplit("trucks", "number_of_vehicles"); }
      else { ComboSplit("trucks", "avg_speed"); }
    }
  }

  /** The combination keys are distinct. */
  function ComboKeys(combos: seq<(string, string)>): (ks: seq<string>)
    ensures |ks| == |combos| && forall i :: 0 <= i < |combos| ==> ks[i] == combos[i].0
  {
    seq(|combos|, i requires 0 <= i < |combos| => combos[i].0)
  }

  lemma CombinationKeysDistinct()
    ensures Distinct(ComboKeys(KpiCombinations))
  {
    var ks := ComboKeys(KpiCombinations);
    assert ks[0][0] == 'a' && ks[1][0] == 'a' && ks[2][0] == 'c' && ks[3][0] == 'c' && ks[4][0] == 't' && ks[5][0] == 't';
    assert ks[0][4] == 'n' && ks[1][4] == 'a' && ks[2][5] == 'n' && ks[3][5] == 'a' && ks[4][7] == 'n' && ks[5][7] == 'a';
  }

  /** A snapshot document: the key, the two parts of the combination key and
      the features (one per road segment with its averaged value). */
  datatype Document = Document(timestamp: Cell, vehicleType: string, kpiType: string, features: seq<Row>)

  /** What one (timestamp, combination) iteration does: skip it, end the script
      with an uncaught exception, or offer a document for insertion. */
  datatype Outcome = Skip | Abort(error: Error) | Offer(doc: Document)

  /** One iteration of the inner loop on the rows of one timestamp, where
      `matched` is what the matcher gives for them. A missing KPI column, a
      `ValueError` from the aggregation, and a result without geometry rows are
      skipped; any other exception ends the script. */
  function ComboOutcome(slice: Table, ts: Cell, combo: (string, string), matched: Result<Table>): (o: Outcome)
    ensures o.Offer? ==> o.doc.timestamp == ts && o.doc.features != [] && '_' !in o.doc.vehicleType &&
                         o.doc.vehicleType + "_" + o.doc.kpiType == combo.0
  {
    match VehicleAndKpi(combo.0)
    case Err(e) => Abort(e)
    case Ok((vehicle, kpiType)) =>
      if combo.1 !in slice.columns then Skip
      else SegmentsOutcome(ts, vehicle, kpiType, combo.1, matched)
  }

  /** The rest of the iteration once the key is split and the KPI column is
      there: aggregate the matched detectors and offer the segments. */
  function SegmentsOutcome(ts: Cell, vehicle: string, kpiType: string, kpiColumn: string, matched: Result<Table>): (o: Outcome)
    ensures o.Offer? ==> o.doc.timestamp == ts && o.doc.features != [] &&
                         o.doc.vehicleType == vehicle && o.doc.kpiType == kpiType
  {
    match matched
    case Err(e) => Abort(e)
    case Ok(segments) =>
      match AggregateKpiBySegment(segments, kpiColumn)
      case Err(e) => if e.ValueError? then Skip else Abort(e)
      case Ok(road) =>
        if "geometry" in road.columns && |road.rows| > 0 then Offer(Document(ts, vehicle, kpiType, road.rows))
        else Skip
  }

  /** The skip rules after the key is split: a `ValueError` from the
      aggregation skips the combination; a document is offered exactly when the
      match and the aggregation succeed with at least one segment, and it holds
      the aggregated segments. */
  lemma SegmentsOutcomeRules(ts: Cell, vehicle: string, kpiType: string, kpiColumn: string, matched: Result<Table>)
    ensures var o := SegmentsOutcome(ts, vehicle, kpiType, kpiColumn, matched);
            (matched.Err? ==> o == Abort(matched.error)) &&
            (matched.Ok? && AggregateKpiBySegment(matched.value, kpiColumn).Err? ==>
               (o == Skip <==> AggregateKpiBySegment(matched.value, kpiColumn).error.ValueError?)) &&
            (o.Offer? <==> matched.Ok? && AggregateKpiBySegment(matched.value, kpiColumn).Ok? &&
                           AggregateKpiBySegment(matched.value, kpiColumn).value.rows != []) &&
            (o.Offer? ==> o.doc.features == AggregateKpiBySegment(matched.value, kpiColumn).value.rows)
  {
    if matched.Ok? {
      var road := AggregateKpiBySegment(matched.value, kpiColumn);
      if road.Ok? {
        assert "geometry" in road.value.columns;
      }
    }
  }

  /** The skip rules: a missing KPI column or a `ValueError` from the
      aggregation skips the combination; a document is offered exactly when the
      match and the aggregation succeed with at least one segment, and it holds
      the aggregated segments. */
  lemma ComboOutcomeRules(slice: Table, ts: Cell, combo: (string, string), matched: Result<Table>)
    requires '_' in combo.0
    ensures combo.1 !in slice.columns ==> ComboOutcome(slice, ts, combo, matched) == Skip
    ensures combo.1 in slice.columns && matched.Ok? &&
            AggregateKpiBySegment(matched.value, combo.1).Err? &&
            AggregateKpiBySegment(matched.value, combo.1).error.ValueError? ==>
              ComboOutcome(slice, ts, combo, matched) == Skip
    ensures ComboOutcome(slice, ts, combo, matched).Offer? <==>
              combo.1 in slice.columns && matched.Ok? &&
              AggregateKpiBySegment(matched.value, combo.1).Ok? &&
              AggregateKpiBySegment(matched.value, combo.1).value.rows != []
    ensures ComboOutcome(slice, ts, combo, matched).Offer? ==>
              ComboOutcome(slice, ts, combo, matched).doc.features == AggregateKpiBySegment(matched.value, combo.1).value.rows
  {
    var parts := VehicleAndKpi(combo.0);
    assert parts.Ok?;
    if combo.1 in slice.columns {
      assert ComboOutcome(slice, ts, combo, matched) == SegmentsOutcome(ts, parts.value.0, parts.value.1, combo.1, matched);
      SegmentsOutcomeRules(ts, parts.value.0, parts.value.1, combo.1, matched);
    } else {
      assert ComboOutcome(slice, ts, combo, matched) == Skip;
    }
  }

  /** The rows of no detector give no document. */
  lemma EmptySliceNoOffer(slice: Table, ts: Cell, combo: (string, string), edges: seq<Edge>, dist: Distance)
    requires slice.rows == []
    ensures !ComboOutcome(slice, ts, combo, MatchSpec(slice, edges, dist)).Offer?
  {
    if combo.1 in slice.columns && MatchSpec(slice, edges, dist).Ok? {
      var points := ToGeo(slice, "lon", "lat").value;
      assert points.rows == [];
      var matched := MatchSpec(slice, edges, dist).value;
      assert matched.rows == [];
      assert GroupKeys(matched.rows) == [];
    }
  }

  /** What the loops have done so far: the documents inserted and, if the script
      stopped on an uncaught exception, that exception. */
  datatype Run = Run(docs: seq<Document>, aborted: Option<Error>)

  /** The outcomes of the inner loop's iterations on one timestamp's rows. */
  function Outcomes(slice: Table, ts: Cell, combos: seq<(string, string)>, matched: Result<Table>): (os: seq<Outcome>)
    ensures |os| == |combos|
  {
    seq(|combos|, k requires 0 <= k < |combos| => ComboOutcome(slice, ts, combos[k], matched))
  }

  /** Unfolds one element of `Outcomes` (a helper for the loop proofs). */
  lemma OutcomeAt(slice: Table, ts: Cell, combos: seq<(string, string)>, matched: Result<Table>, k: nat)
    requires k < |combos|
    ensures Outcomes(slice, ts, combos, matched)[k] == ComboOutcome(slice, ts, combos[k], matched)
  {
  }

  /** Running the iterations with outcomes `os` in turn: a skip does nothing, an
      abort stops everything, and an offered document is stored if the server
      accepts it; a refused one is lost and the loop goes on. */
  function RunOutcomes(os: seq<Outcome>, accepts: Document -> bool): (r: Run)
    ensures |r.docs| <= |os|
  {
    if os == [] then Run([], None)
    else
      var done := RunOutcomes(os[..|os| - 1], accepts);
      if done.aborted.Some? then done
      else
        match os[|os| - 1]
        case Skip => done
        case Abort(e) => Run(done.docs, Some(e))
        case Offer(doc) => Run(done.docs + (if accepts(doc) then [doc] else []), None)
  }

  /** The inner loop for timestamp `ts` of the keyed table `t`. */
  function RunTime(t: Table, ts: Cell, combos: seq<(string, string)>, matchFn: MatchFn, accepts: Document -> bool): (r: Run)
    ensures |r.docs| <= |combos|
  {
    var slice := TimeSlice(t, ts);
    RunOutcomes(Outcomes(slice, ts, combos, matchFn(slice)), accepts)
  }

  /** The outer loop over the distinct timestamps `times` of the keyed table `t`. */
  function RunTimes(t: Table, times: seq<Cell>, combos: seq<(string, string)>, matchFn: MatchFn, accepts: Document -> bool): Run
  {
    if times == [] then Run([], None)
    else
      var done := RunTimes(t, times[..|times| - 1], combos, matchFn, accepts);
      if done.aborted.Some? then done
      else
        var step := RunTime(t, times[|times| - 1], combos, matchFn, accepts);
        Run(done.docs + step.docs, step.aborted)
  }

  /** The whole script on the enriched table, after the network is loaded. */
  function SnapshotRun(df: Table, matchFn: MatchFn, accepts: Document -> bool): (r: Run)
  {
    match AddTimestamps(df)
    case Err(e) => Run([], Some(e))
    case Ok(t) => RunTimes(t, UniqueTimes(t), KpiCombinations, matchFn, accepts)
  }

  /** At most one document per combination for each timestamp: at most six per
      timestamp. */
  lemma {:induction false} RunTimesCount(t: Table, times: seq<Cell>, combos: seq<(string, string)>, matchFn: MatchFn,
                                         accepts: Document -> bool)
    requires |combos| <= 6
    ensures |RunTimes(t, times, combos, matchFn, accepts).docs| <= 6 * |times|
  {
    if times != [] {
      RunTimesCount(t, times[..|times| - 1], combos, matchFn, accepts);
    }
  }

  /** What one iteration does to the run so far. */
  function Step(done: Run, o: Outcome, accepts: Document -> bool): Run
  {
    if done.aborted.Some? then done
    else
      match o
      case Skip => done
      case Abort(e) => Run(done.docs, Some(e))
      case Offer(doc) => Run(done.docs + (if accepts(doc) then [doc] else []), None)
  }

  /** One more iteration of the inner loop. */
  lemma RunOutcomesNext(os: seq<Outcome>, j: nat, accepts: Document -> bool)
    requires j < |os|
    ensures RunOutcomes(os[..j + 1], accepts) == Step(RunOutcomes(os[..j], accepts), os[j], accepts)
  {
    assert os[..j + 1][..j] == os[..j];
  }

  /** One more iteration of the outer loop. */
  lemma RunTimesNext(t: Table, times: seq<Cell>, combos: seq<(string, string)>, i: nat, matchFn: MatchFn,
                     accepts: Document -> bool)
    requires i < |times|
    requires RunTimes(t, times[..i], combos, matchFn, accepts).aborted.None?
    ensures RunTimes(t, times[..i + 1], combos, matchFn, accepts) ==
              Run(RunTimes(t, times[..i], combos, matchFn, accepts).docs + RunTime(t, times[i], combos, matchFn, accepts).docs,
                  RunTime(t, times[i], combos, matchFn, accepts).aborted)
  {
    assert times[..i + 1][..i] == times[..i];
  }

  lemma AppendAssoc<T>(a: seq<T>, b: seq<T>, c: seq<T>)
    ensures (a + b) + c == a + (b + c)
  {
  }

  /** A stopped run stays stopped: later iterations add nothing. */
  lemma {:induction false} RunOutcomesStopped(os: seq<Outcome>, k: nat, accepts: Document -> bool)
    requires k <= |os|
    requires RunOutcomes(os[..k], accepts).aborted.Some?
    ensures RunOutcomes(os, accepts) == RunOutcomes(os[..k], accepts)
    decreases |os| - k
  {
    if k < |os| {
      assert os[..k + 1][..k] == os[..k];
      RunOutcomesStopped(os, k + 1, accepts);
    } else {
      assert os[..k] == os;
    }
  }

  lemma {:induction false} RunTimesStopped(t: Table, times: seq<Cell>, combos: seq<(string, string)>, k: nat, matchFn: MatchFn,
                                           accepts: Document -> bool)
    requires k <= |times|
    requires RunTimes(t, times[..k], combos, matchFn, accepts).aborted.Some?
    ensures RunTimes(t, times, combos, matchFn, accepts) == RunTimes(t, times[..k], combos, matchFn, accepts)
    decreases |times| - k
  {
    if k < |times| {
      assert times[..k + 1][..k] == times[..k];
      RunTimesStopped(t, times, combos, k + 1, matchFn, accepts);
    } else {
      assert times[..k] == times;
    }
  }

  // ----- what the stored documents satisfy -----

  /** The slot a document fills: its key, vehicle type and KPI type. */
  function Slot(d: Document): (Cell, string, string)
  {
    (d.timestamp, d.vehicleType, d.kpiType)
  }

  function Slots(docs: seq<Document>): (s: seq<(Cell, string, string)>)
    ensures |s| == |docs| && forall i :: 0 <= i < |docs| ==> s[i] == Slot(docs[i])
  {
    seq(|docs|, i requires 0 <= i < |docs| => Slot(docs[i]))
  }

  /** Offers in different iterations fill different slots. */
  predicate OffersDistinct(os: seq<Outcome>)
  {
    forall k, l :: 0 <= k < l < |os| && os[k].Offer? && os[l].Offer? ==> Slot(os[k].doc) != Slot(os[l].doc)
  }

  /** Every stored document was offered by some iteration, and when offers fill
      different slots so do the stored documents. */
  lemma {:induction false} RunOutcomesDocs(os: seq<Outcome>, accepts: Document -> bool)
    ensures forall d :: d in RunOutcomes(os, accepts).docs ==> exists k :: 0 <= k < |os| && os[k] == Offer(d)
    ensures OffersDistinct(os) ==> Distinct(Slots(RunOutcomes(os, accepts).docs))
  {
    if os != [] {
      var init := os[..|os| - 1];
      var last := os[|os| - 1];
      RunOutcomesDocs(init, accepts);
      var done := RunOutcomes(init, accepts);
      assert forall k :: 0 <= k < |init| ==> init[k] == os[k];
      if done.aborted.None? && last.Offer? && accepts(last.doc) {
        var docs := done.docs + [last.doc];
        forall d | d in docs ensures exists k :: 0 <= k < |os| && os[k] == Offer(d) {
          if d !in done.docs { assert os[|os| - 1] == Offer(d); }
        }
        if OffersDistinct(os) {
          assert OffersDistinct(init);
          forall i | 0 <= i < |done.docs| ensures Slot(done.docs[i]) != Slot(last.doc) {
            assert done.docs[i] in done.docs;
          }
          assert Slots(docs) == Slots(done.docs) + [Slot(last.doc)];
        }
      } else if OffersDistinct(os) {
        assert OffersDistinct(init);
      }
    }
  }

  /** The offers of one timestamp carry that timestamp and the two parts of
      their combination key, so the distinct combination keys give distinct slots. */
  lemma TimeOffers(slice: Table, ts: Cell, combos: seq<(string, string)>, matched: Result<Table>)
    requires Distinct(ComboKeys(combos))
    ensures var os := Outcomes(slice, ts, combos, matched);
            OffersDistinct(os) &&
            forall k :: 0 <= k < |os| && os[k].Offer? ==>
              os[k].doc.timestamp == ts && os[k].doc.features != [] &&
              os[k].doc.vehicleType + "_" + os[k].doc.kpiType == combos[k].0
  {
    var os := Outcomes(slice, ts, combos, matched);
    forall k, l | 0 <= k < l < |os| && os[k].Offer? && os[l].Offer? ensures Slot(os[k].doc) != Slot(os[l].doc) {
      assert ComboKeys(combos)[k] != ComboKeys(combos)[l];
    }
  }

  /** The documents stored for one timestamp carry it, the parts of one
      combination key and at least one feature, and fill distinct slots. */
  lemma TimeStepDocs(t: Table, ts: Cell, combos: seq<(string, string)>, matchFn: MatchFn, accepts: Document -> bool)
    requires Distinct(ComboKeys(combos))
    ensures forall d :: d in RunTime(t, ts, combos, matchFn, accepts).docs ==>
              d.timestamp == ts && d.features != [] &&
              exists c :: c in combos && d.vehicleType + "_" + d.kpiType == c.0
    ensures Distinct(Slots(RunTime(t, ts, combos, matchFn, accepts).docs))
  {
    var slice := TimeSlice(t, ts);
    var os := Outcomes(slice, ts, combos, matchFn(slice));
    TimeOffers(slice, ts, combos, matchFn(slice));
    RunOutcomesDocs(os, accepts);
    forall d | d in RunOutcomes(os, accepts).docs
      ensures exists c :: c in combos && d.vehicleType + "_" + d.kpiType == c.0
    {
      var k :| 0 <= k < |os| && os[k] == Offer(d);
      assert combos[k] in combos;
    }
  }

  /** Two runs of documents that fill distinct slots, and whose keys differ,
      together fill distinct slots. */
  lemma SlotsAppend(a: seq<Document>, b: seq<Document>)
    requires Distinct(Slots(a)) && Distinct(Slots(b))
    requires forall d, e :: d in a && e in b ==> d.timestamp != e.timestamp
    ensures Distinct(Slots(a + b))
  {
    var ab := a + b;
    forall i, j | 0 <= i < j < |ab| ensures Slots(ab)[i] != Slots(ab)[j] {
      if j < |a| {
        assert Slots(ab)[i] == Slots(a)[i] && Slots(ab)[j] == Slots(a)[j];
      } else if i >= |a| {
        assert Slots(ab)[i] == Slots(b)[i - |a|];
        assert Slots(ab)[j] == Slots(b)[j - |a|];
      } else {
        assert ab[i] in a && ab[j] in b;
      }
    }
  }

  /** Every stored document carries one of the timestamps the loop visited, the
      parts of one combination key, and at least one feature; with distinct
      timestamps no two documents fill the same slot: at most one document per
      (timestamp, combination). */
  lemma {:induction false} RunTimesDocs(t: Table, times: seq<Cell>, combos: seq<(string, string)>, matchFn: MatchFn,
                                        accepts: Document -> bool)
    requires Distinct(times) && Distinct(ComboKeys(combos))
    ensures forall d :: d in RunTimes(t, times, combos, matchFn, accepts).docs ==>
              d.timestamp in times && d.features != [] &&
              exists c :: c in combos && d.vehicleType + "_" + d.kpiType == c.0
    ensures Distinct(Slots(RunTimes(t, times, combos, matchFn, accepts).docs))
  {
    if times != [] {
      var init := times[..|times| - 1];
      var ts := times[|times| - 1];
      assert Distinct(init);
      RunTimesDocs(t, init, combos, matchFn, accepts);
      var done := RunTimes(t, init, combos, matchFn, accepts);
      if done.aborted.None? {
        var step := RunTime(t, ts, combos, matchFn, accepts);
        TimeStepDocs(t, ts, combos, matchFn, accepts);
        assert ts !in init;
        SlotsAppend(done.docs, step.docs);
      }
    }
  }

  /** The stored documents of the script: each has a text key that is one of
      the table's distinct keys, at least one feature, and the parts of one
      combination key; no two fill the same slot, so there are at most six per
      key. No document has a missing key: the slice of a missing key (NaN) is
      empty, so it never yields a segment. */
  lemma SnapshotRunDocs(df: Table, edges: seq<Edge>, dist: Distance, accepts: Document -> bool)
    requires AddTimestamps(df).Ok?
    ensures forall d :: d in SnapshotRun(df, MatchWith(edges, dist), accepts).docs ==>
              d.timestamp.Text? && d.features != [] && d.timestamp in UniqueTimes(AddTimestamps(df).value) &&
              exists c :: c in KpiCombinations && d.vehicleType + "_" + d.kpiType == c.0
    ensures Distinct(Slots(SnapshotRun(df, MatchWith(edges, dist), accepts).docs))
    ensures |SnapshotRun(df, MatchWith(edges, dist), accepts).docs| <= 6 * |UniqueTimes(AddTimestamps(df).value)|
  {
    var t := AddTimestamps(df).value;
    var times := UniqueTimes(t);
    var matchFn := MatchWith(edges, dist);
    assert SnapshotRun(df, matchFn, accepts) == RunTimes(t, times, KpiCombinations, matchFn, accepts);
    CombinationKeysDistinct();
    KeyedTimes(df);
    RunTimesDocs(t, times, KpiCombinations, matchFn, accepts);
    NoMissingKeyDocs(t, times, KpiCombinations, edges, dist, accepts);
    RunTimesCount(t, times, KpiCombinations, matchFn, accepts);
  }

  /** The documents of one timestamp carry it, and a missing key (NaN) gives
      none: its slice is empty, so it never yields a segment. */
  lemma TimeDocs(t: Table, ts: Cell, combos: seq<(string, string)>, edges: seq<Edge>, dist: Distance,
                 accepts: Document -> bool)
    ensures forall d :: d in RunTime(t, ts, combos, MatchWith(edges, dist), accepts).docs ==> d.timestamp == ts && !ts.Missing?
  {
    var slice := TimeSlice(t, ts);
    var matched := MatchWith(edges, dist)(slice);
    var os := Outcomes(slice, ts, combos, matched);
    RunOutcomesDocs(os, accepts);
    forall k | 0 <= k < |os| && os[k].Offer? ensures os[k].doc.timestamp == ts && !ts.Missing? {
      OutcomeAt(slice, ts, combos, matched, k);
      if ts.Missing? {
        TimeSliceMissing(t);
        EmptySliceNoOffer(slice, ts, combos[k], edges, dist);
      }
    }
  }

  /** When every visited key is text or missing, every document has a text key. */
  lemma {:induction false} NoMissingKeyDocs(t: Table, times: seq<Cell>, combos: seq<(string, string)>, edges: seq<Edge>, dist: Distance,
                                            accepts: Document -> bool)
    requires forall ts :: ts in times ==> ts.Text? || ts.Missing?
    ensures forall d :: d in RunTimes(t, times, combos, MatchWith(edges, dist), accepts).docs ==> d.timestamp.Text?
  {
    if times != [] {
      var init := times[..|times| - 1];
      var ts := times[|times| - 1];
      assert forall c :: c in init ==> c in times;
      NoMissingKeyDocs(t, init, combos, edges, dist, accepts);
      TimeDocs(t, ts, combos, edges, dist, accepts);
    }
  }

  /** A refused insert loses only its own document: the run stops at the same
      point whatever the server accepts, and the stored documents are those of a
      server that accepts everything, less the refused ones. */
  lemma {:induction false} RefusedInsertsContinue(t: Table, times: seq<Cell>, combos: seq<(string, string)>, matchFn: MatchFn,
                                                  accepts: Document -> bool)
    ensures RunTimes(t, times, combos, matchFn, accepts).aborted == RunTimes(t, times, combos, matchFn, d => true).aborted
    ensures RunTimes(t, times, combos, matchFn, accepts).docs == Filter(RunTimes(t, times, combos, matchFn, d => true).docs, accepts)
  {
    if times != [] {
      var init := times[..|times| - 1];
      var ts := times[|times| - 1];
      RefusedInsertsContinue(t, init, combos, matchFn, accepts);
      var all := RunTimes(t, init, combos, matchFn, d => true);
      if all.aborted.None? {
        var slice := TimeSlice(t, ts);
        RefusedOutcomes(Outcomes(slice, ts, combos, matchFn(slice)), accepts);
        FilterConcat(all.docs, RunTime(t, ts, combos, matchFn, d => true).docs, accepts);
      }
    }
  }

  lemma {:induction false} RefusedOutcomes(os: seq<Outcome>, accepts: Document -> bool)
    ensures RunOutcomes(os, accepts).aborted == RunOutcomes(os, d => true).aborted
    ensures RunOutcomes(os, accepts).docs == Filter(RunOutcomes(os, d => true).docs, accepts)
  {
    if os != [] {
      var init := os[..|os| - 1];
      RefusedOutcomes(init, accepts);
      var all := RunOutcomes(init, d => true);
      if all.aborted.None? && os[|os| - 1].Offer? {
        FilterConcat(all.docs, [os[|os| - 1].doc], accepts);
      }
    }
  }

  /** `road_kpi_snapshots`: the documents in insertion order. Whether the server
      accepts an insert is fixed per document. */
  class SnapshotCollection {
    var docs: seq<Document>
    const accepts: Document -> bool

    constructor (accepts: Document -> bool)
      ensures docs == [] && this.accepts == accepts
    {
      docs := [];
      this.accepts := accepts;
    }

    /** `delete_many({})`. */
    method DeleteMany()
      modifies this
      ensures docs == []
    {
      docs := [];
    }

    /** `insert_one`: appends the document, unless the server refuses it. */
    method InsertOne(doc: Document) returns (ok: bool)
      modifies this
      ensures ok == accepts(doc)
      ensures docs == old(docs) + (if ok then [doc] else [])
    {
      ok := accepts(doc);
      if ok {
        docs := docs + [doc];
      }
    }
  }

  /** One iteration of the inner loop: split the combination key, check the KPI
      column, match, aggregate, check the geometry, insert. It does what
      `ComboOutcome` says, with the matcher on the loaded network, and leaves
      that network alone. */
  method ProcessCombo(slice: Table, ts: Cell, combo: (string, string), matcher: StreetMatcher, graph: seq<RawEdge>,
                      dist: Distance, collection: SnapshotCollection, ghost matchFn: MatchFn, ghost o: Outcome)
    returns (stop: Option<Error>)
    requires matcher.Valid() && matcher.osmEdges.Some? && MatchesNetwork(matchFn, matcher.osmEdges.value, dist)
    requires o == ComboOutcome(slice, ts, combo, matchFn(slice))
    modifies matcher, collection
    ensures matcher.Valid() && matcher.osmEdges == old(matcher.osmEdges)
    ensures o.Abort? ==> stop == Some(o.error)
    ensures !o.Abort? ==> stop == None
    ensures collection.docs == old(collection.docs) + (if o.Offer? && collection.accepts(o.doc) then [o.doc] else [])
  {
    var parts := VehicleAndKpi(combo.0);
    if parts.Err? {
      return Some(parts.error);
    }
    var (vehicle, kpiType) := parts.value;
    var kpiColumn := combo.1;
    if kpiColumn !in slice.columns {
      return None;
    }
    var matched := MatchSlice(slice, matcher, graph, dist, matchFn);
    stop := AggregateAndInsert(ts, vehicle, kpiType, kpiColumn, matched, collection);
  }

  /** Aggregate the matched detectors, check the geometry, insert: what
      `SegmentsOutcome` says. */
  method AggregateAndInsert(ts: Cell, vehicle: string, kpiType: string, kpiColumn: string, matched: Result<Table>,
                            collection: SnapshotCollection) returns (stop: Option<Error>)
    modifies collection
    ensures var o := SegmentsOutcome(ts, vehicle, kpiType, kpiColumn, matched);
            (o.Abort? ==> stop == Some(o.error)) && (!o.Abort? ==> stop == None) &&
            collection.docs == old(collection.docs) + (if o.Offer? && collection.accepts(o.doc) then [o.doc] else [])
  {
    ghost var o := SegmentsOutcome(ts, vehicle, kpiType, kpiColumn, matched);
    if matched.Err? {
      assert o == Abort(matched.error);
      return Some(matched.error);
    }
    var road := AggregateKpiBySegment(matched.value, kpiColumn);
    if road.Err? {
      if road.error.ValueError? {
        assert o == Skip;
        return None;
      }
      assert o == Abort(road.error);
      return Some(road.error);
    }
    if !("geometry" in road.value.columns && |road.value.rows| > 0) {
      assert o == Skip;
      return None;
    }
    var doc := Document(ts, vehicle, kpiType, road.value.rows);
    assert o == Offer(doc);
    var ok := collection.InsertOne(doc);
    return None;
  }

  /** Iteration `j` of the inner loop, on a collection that holds `base`
      followed by the run so far: afterwards it holds `base` followed by the run
      one iteration on, and the iteration raised exactly when that run stopped. */
  method ProcessAt(slice: Table, ts: Cell, combos: seq<(string, string)>, j: nat, matcher: StreetMatcher, graph: seq<RawEdge>,
                   dist: Distance, collection: SnapshotCollection, ghost matchFn: MatchFn, ghost os: seq<Outcome>,
                   ghost base: seq<Document>, ghost done: Run)
    returns (stop: Option<Error>)
    requires matcher.Valid() && matcher.osmEdges.Some? && MatchesNetwork(matchFn, matcher.osmEdges.value, dist)
    requires j < |combos| && os == Outcomes(slice, ts, combos, matchFn(slice))
    requires done.aborted.None? && collection.docs == base + done.docs
    modifies matcher, collection
    ensures matcher.Valid() && matcher.osmEdges == old(matcher.osmEdges)
    ensures stop == Step(done, os[j], collection.accepts).aborted
    ensures collection.docs == base + Step(done, os[j], collection.accepts).docs
  {
    OutcomeAt(slice, ts, combos, matchFn(slice), j);
    ghost var o := os[j];
    stop := ProcessCombo(slice, ts, combos[j], matcher, graph, dist, collection, matchFn, o);
    AppendAssoc(base, done.docs, if o.Offer? && collection.accepts(o.doc) then [o.doc] else []);
  }

  /** The inner loop for one timestamp: the combinations in order, until one
      raises. The collection gains the documents of `RunTime`. */
  method SnapshotsAt(t: Table, ts: Cell, combos: seq<(string, string)>, matcher: StreetMatcher, graph: seq<RawEdge>, dist: Distance,
                     collection: SnapshotCollection, ghost matchFn: MatchFn) returns (stop: Option<Error>)
    requires matcher.Valid() && matcher.osmEdges.Some? && MatchesNetwork(matchFn, matcher.osmEdges.value, dist)
    modifies matcher, collection
    ensures matcher.Valid() && matcher.osmEdges == old(matcher.osmEdges)
    ensures collection.docs == old(collection.docs) + RunTime(t, ts, combos, matchFn, collection.accepts).docs
    ensures stop == RunTime(t, ts, combos, matchFn, collection.accepts).aborted
  {
    ghost var edges := matcher.osmEdges.value;
    var slice := TimeSlice(t, ts);
    ghost var accepts := collection.accepts;
    ghost var base := collection.docs;
    ghost var os := Outcomes(slice, ts, combos, matchFn(slice));
    ghost var done := Run([], None);
    var j := 0;
    while j < |combos|
      invariant 0 <= j <= |combos|
      invariant matcher.osmEdges == Some(edges) && matcher.Valid()
      invariant collection.accepts == accepts
      invariant done == RunOutcomes(os[..j], accepts)
      invariant done.aborted.None?
      invariant collection.docs == base + done.docs
    {
      stop := ProcessAt(slice, ts, combos, j, matcher, graph, dist, collection, matchFn, os, base, done);
      RunOutcomesNext(os, j, accepts);
      done := Step(done, os[j], accepts);
      if stop.Some? {
        RunOutcomesStopped(os, j + 1, accepts);
        return stop;
      }
      j := j + 1;
    }
    assert os[..j] == os;
    return None;
  }

  /** The outer loop over the distinct timestamps, until one iteration raises.
      The collection gains the documents of `RunTimes`. */
  method SnapshotsFor(t: Table, times: seq<Cell>, combos: seq<(string, string)>, matcher: StreetMatcher, graph: seq<RawEdge>, dist: Distance,
                      collection: SnapshotCollection, ghost matchFn: MatchFn) returns (stop: Option<Error>)
    requires matcher.Valid() && matcher.osmEdges.Some? && MatchesNetwork(matchFn, matcher.osmEdges.value, dist)
    modifies matcher, collection
    ensures matcher.Valid() && matcher.osmEdges == old(matcher.osmEdges)
    ensures collection.docs == old(collection.docs) + RunTimes(t, times, combos, matchFn, collection.accepts).docs
    ensures stop == RunTimes(t, times, combos, matchFn, collection.accepts).aborted
  {
    ghost var edges := matcher.osmEdges.value;
    ghost var accepts := collection.accepts;
    ghost var base := collection.docs;
    ghost var done := Run([], None);
    var i := 0;
    while i < |times|
      invariant 0 <= i <= |times|
      invariant matcher.osmEdges == Some(edges) && matcher.Valid()
      invariant collection.accepts == accepts
      invariant done == RunTimes(t, times[..i], combos, matchFn, accepts)
      invariant done.aborted.None?
      invariant collection.docs == base + done.docs
    {
      ghost var step := RunTime(t, times[i], combos, matchFn, accepts);
      stop := SnapshotsAt(t, times[i], combos, matcher, graph, dist, collection, matchFn);
      RunTimesNext(t, times, combos, i, matchFn, accepts);
      AppendAssoc(base, done.docs, step.docs);
      done := Run(done.docs + step.docs, step.aborted);
      if stop.Some? {
        RunTimesStopped(t, times, combos, i + 1, matchFn, accepts);
        return stop;
      }
      i := i + 1;
    }
    assert times[..i] == times;
    return None;
  }

  /** The script from `delete_many` on: clear the collection, key the table,
      load the network once, then run the two loops. Afterwards the collection holds
      exactly the documents of `SnapshotRun` with the matcher on that network,
      and the script stopped exactly when that run stopped. */
  method GenerateSnapshots(df: Table, matcher: StreetMatcher, graph: seq<RawEdge>, dist: Distance,
                           collection: SnapshotCollection) returns (aborted: Option<Error>)
    requires matcher.Valid()
    modifies matcher, collection
    ensures AddTimestamps(df).Ok? ==> matcher.osmEdges == Some(IndexEdges(graph))
    ensures collection.docs == SnapshotRun(df, MatchWith(IndexEdges(graph), dist), collection.accepts).docs
    ensures aborted == SnapshotRun(df, MatchWith(IndexEdges(graph), dist), collection.accepts).aborted
  {
    collection.DeleteMany();
    var keyed := AddTimestamps(df);
    if keyed.Err? {
      return Some(keyed.error);
    }
    var times := UniqueTimes(keyed.value);
    matcher.LoadOsmNetwork(graph);
    ghost var matchFn := MatchWith(IndexEdges(graph), dist);
    assert MatchesNetwork(matchFn, IndexEdges(graph), dist);
    aborted := SnapshotsFor(keyed.value, times, KpiCombinations, matcher, graph, dist, collection, matchFn);
  }
}
