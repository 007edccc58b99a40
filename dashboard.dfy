/** The index logic of the two dashboard pages (`Home.py` and `Home_4.py`):
    the session state they keep across reruns, how a run of the page turns the
    selected start and end times into the range of frames handed to the
    embedded animation, and the play/stop and filter-change transitions.
    A Streamlit run is modelled as one call of `Run`; `st.rerun()` and
    `st.stop()` end that call early with the outcomes `Rerun` and `Halted`.
    The stored snapshots are the documents the snapshot generator inserted;
    reading them from the database is modelled by `StoredTimes`. */
module Dashboard {
  import opened Frames
  import opened TextUtil
  import opened Animation
  import SnapshotStore
  import Dates

  // ----- values shared by both pages -----

  /** The animation speed chosen with the 1..20 slider of `Home.py`, in
      milliseconds per frame: 2000 ms at 1, 100 ms at 20, in equal steps. */
  function SpeedMs(d: int): (ms: real)
    requires 1 <= d <= 20
    ensures ms == (2000 - 100 * (d - 1)) as real
    ensures 100.0 <= ms <= 2000.0
    ensures d == 1 ==> ms == 2000.0
    ensures d == 20 ==> ms == 100.0
  {
    2000.0 + ((100.0 - 2000.0) / (20.0 - 1.0)) * ((d - 1) as real)
  }

  /** A faster slider setting always gives a shorter frame time. */
  lemma SpeedStrictlyDecreasing(d1: int, d2: int)
    requires 1 <= d1 < d2 <= 20
    ensures SpeedMs(d2) < SpeedMs(d1)
    ensures SpeedMs(d1) - SpeedMs(d2) == (100 * (d2 - d1)) as real
  {
  }

  /** `s.index(x)`: the first position of `x`, or `None` where Python raises
      `ValueError`. */
  function Position(s: seq<string>, x: string): (r: Option<nat>)
    ensures r.Some? <==> x in s
    ensures r.Some? ==> r.value < |s| && s[r.value] == x && x !in s[..r.value]
  {
    if s == [] then None
    else if s[0] == x then Some(0)
    else match Position(s[1..], x)
      case None => None
      case Some(k) => assert s[..k + 1] == [s[0]] + s[1..][..k]; Some(k + 1)
  }

  /** Python's `s[a:b]` for non-negative bounds: out-of-range bounds are cut
      back to the list, and a reversed range is empty. */
  function PySlice<T>(s: seq<T>, a: nat, b: nat): (r: seq<T>)
    ensures |r| == (if b <= a || a >= |s| then 0 else (if b < |s| then b else |s|) - a)
    ensures forall k :: 0 <= k < |r| ==> a + k < |s| && r[k] == s[a + k]
    ensures a <= b <= |s| ==> r == s[a..b]
  {
    if b <= a || a >= |s| then [] else s[a..if b < |s| then b else |s|]
  }

  /** `unique_times[start : end + 1]`: the times queried from the database. */
  function QueryTimes(unique: seq<string>, start: nat, end: nat): (q: seq<string>)
    ensures start <= end < |unique| ==> q == unique[start..end + 1]
    ensures |q| <= |unique|
  {
    PySlice(unique, start, end + 1)
  }

  /** The timestamps stored for one vehicle type and KPI type: what
      `load_snapshots_from_mongodb` can find. */
  function StoredTimes(docs: seq<SnapshotStore.Document>, vehicle: string, kpiType: string): (ts: set<string>)
    ensures forall t :: t in ts <==>
      exists d :: d in docs && d.vehicleType == vehicle && d.kpiType == kpiType && d.timestamp == Text(t)
  {
    set d | d in docs && d.vehicleType == vehicle && d.kpiType == kpiType && d.timestamp.Text? :: d.timestamp.s
  }

  /** `sorted(all_geojson_data.keys())`: the queried times that have a stored
      snapshot, sorted and without repeats. */
  function AvailableTimes(query: seq<string>, stored: set<string>): (r: seq<string>)
    ensures StrictlySorted(r)
    ensures forall t :: t in r <==> t in query && t in stored
  {
    SortedDistinct(Filter(query, t => t in stored))
  }

  /** A sublist of a sorted list is sorted. */
  lemma {:induction false} FilterSorted(s: seq<string>, p: string -> bool)
    requires StrictlySorted(s)
    ensures StrictlySorted(Filter(s, p))
  {
    if s != [] {
      FilterSorted(s[1..], p);
      var rest := Filter(s[1..], p);
      forall y | y in rest
        ensures LexLess(s[0], y)
      {
        var k :| 0 <= k < |s[1..]| && s[1..][k] == y;
        assert s[k + 1] == y;
      }
    }
  }

  /** Because `unique_times` is sorted, the available times are the queried
      times that have a snapshot, in the order of the query. */
  lemma AvailableIsStoredQuery(query: seq<string>, stored: set<string>)
    requires StrictlySorted(query)
    ensures AvailableTimes(query, stored) == Filter(query, t => t in stored)
  {
    FilterSorted(query, t => t in stored);
    StrictlySortedUnique(AvailableTimes(query, stored), Filter(query, t => t in stored));
  }

  /** The current frame index kept when it is a position of the available
      times, else reset to 0. */
  function ResetCurrent(current: int, n: int): (c: int)
    ensures 0 <= current < n ==> c == current
    ensures n > 0 ==> 0 <= c < n
    ensures c == current || c == 0
  {
    if current < 0 || current >= n then 0 else current
  }

  /** What a run hands to the embedded animation. */
  datatype Page = Page(available: seq<string>, start: int, end: int, current: int)

  /** The range and the current index are positions of the available times. */
  predicate PageValid(p: Page)
  {
    0 <= p.start <= p.end < |p.available| && 0 <= p.current < |p.available|
  }

  /** On a valid page every frame the animation ever shows exists: the
      initial frame after the clamp and every frame after `n` ticks. */
  lemma PageFramesDefined(p: Page, n: nat)
    requires PageValid(p)
    ensures FrameAt(p.available, AfterTicks(p.start, p.end, ClampFrame(p.start, p.end, p.current), n)).Some?
  {
    AfterTicksInRange(p.start, p.end, ClampFrame(p.start, p.end, p.current), n);
  }

  /** How a run of either page ends. */
  datatype RunOutcome = Rerun | Halted | Crashed(error: Error) | Rendered(page: Page, autoPlay: bool, speed: real)

  /** The outcome of a run that got as far as loading the available times. */
  function Shown(page: Option<Page>, autoPlay: bool, speed: real): (o: RunOutcome)
    ensures o.Halted? <==> page.None?
    ensures o.Rendered? <==> page.Some?
    ensures o.Rendered? ==> Some(o.page) == page && o.autoPlay == autoPlay && o.speed == speed
  {
    if page.None? then Halted else Rendered(page.value, autoPlay, speed)
  }

  // ----- Home.py -----

  /** Lines 30-41 of `Home.py`: the distinct stored timestamps read back as
      hours; the page stops (`None`) when any of them does not parse, and
      otherwise its time list is sorted, free of repeats and made of exactly
      the stored keys, each the key of a real day and an hour 0-23. */
  function LoadTimes(distinct: seq<string>): (r: Option<seq<string>>)
    ensures r.None? <==> exists k :: k in distinct && Dates.Reformat(k).None?
    ensures r.Some? ==> StrictlySorted(r.value) && forall t :: t in r.value <==> t in distinct
    ensures r.Some? ==> forall t :: t in r.value ==> Dates.Reformat(t) == Some(t)
  {
    match Dates.ReformatAll(distinct)
    case None => None
    case Some(formatted) => Some(SortedDistinct(formatted))
  }

  /** The JavaScript range of `Home.py`: the positions of the chosen start and
      end times among the available times, else the first and the last
      position, with the end moved up to the start when it lies before it. */
  function ResolveRange(available: seq<string>, startStr: string, endStr: string): (r: (int, int))
    ensures |available| > 0 ==> 0 <= r.0 <= r.1 < |available|
    ensures startStr in available ==> available[r.0] == startStr && startStr !in available[..r.0]
    ensures startStr !in available ==> r.0 == 0
    ensures r.0 <= r.1
    ensures endStr in available ==> r.1 == r.0 || (available[r.1] == endStr && endStr !in available[..r.1])
    ensures endStr !in available ==> r.1 == (if r.0 > |available| - 1 then r.0 else |available| - 1)
  {
    var s := match Position(available, startStr) case Some(k) => k case None => 0;
    var e := match Position(available, endStr) case Some(k) => k case None => |available| - 1;
    if s > e then (s, s) else (s, e)
  }

  /** Lines 219-243 of `Home.py`: stop when no time is available, else
      resolve the range among the available times and reset the current frame. */
  function HomePage(available: seq<string>, startStr: string, endStr: string, current: int): (r: Option<Page>)
    ensures r.None? <==> available == []
    ensures r.Some? ==> PageValid(r.value) && r.value.available == available
  {
    if available == [] then None
    else
      var range := ResolveRange(available, startStr, endStr);
      Some(Page(available, range.0, range.1, ResetCurrent(current, |available|)))
  }

  /** Whatever the user selects, a page of `Home.py` that renders never asks
      the animation for a frame it does not have. */
  lemma HomePageDefined(available: seq<string>, startStr: string, endStr: string, current: int, n: nat)
    requires HomePage(available, startStr, endStr, current).Some?
    ensures var p := HomePage(available, startStr, endStr, current).value;
            FrameAt(p.available, AfterTicks(p.start, p.end, ClampFrame(p.start, p.end, p.current), n)).Some?
  {
    PageFramesDefined(HomePage(available, startStr, endStr, current).value, n);
  }

  /** The session state of `Home.py`. */
  class HomeSession {
    var startIndex: int
    var endIndex: int
    var speed: real
    var current: int
    var autoPlaying: bool
    var vehicleType: string
    var kpiType: string

    /** The stored indices are never negative, except an end of -1 when the
        time list is empty; they need not be positions of any list. */
    predicate Valid()
      reads this
    {
      startIndex >= 0 && endIndex >= -1
    }

    /** The first run's defaults: the whole time range, 1000 ms per frame,
        the first frame, stopped, all vehicles and the vehicle count. */
    constructor Init(unique: seq<string>)
      ensures startIndex == 0 && endIndex == |unique| - 1
      ensures speed == 1000.0 && current == 0 && !autoPlaying
      ensures vehicleType == "all" && kpiType == "number_of_vehicles"
      ensures Valid()
    {
      startIndex := 0;
      endIndex := |unique| - 1;
      speed := 1000.0;
      current := 0;
      autoPlaying := false;
      vehicleType := "all";
      kpiType := "number_of_vehicles";
    }

    /** A new vehicle type stops the animation, rewinds it and reruns the page. */
    method SelectVehicleType(v: string) returns (rerun: bool)
      modifies this
      ensures rerun <==> v != old(vehicleType)
      ensures rerun ==> vehicleType == v && !autoPlaying && current == 0
      ensures rerun ==> startIndex == old(startIndex) && endIndex == old(endIndex) && kpiType == old(kpiType) && speed == old(speed)
      ensures !rerun ==> unchanged(this)
    {
      rerun := v != vehicleType;
      if rerun {
        vehicleType := v;
        autoPlaying := false;
        current := 0;
      }
    }

    /** A new KPI type stops the animation, rewinds it and reruns the page. */
    method SelectKpiType(k: string) returns (rerun: bool)
      modifies this
      ensures rerun <==> k != old(kpiType)
      ensures rerun ==> kpiType == k && !autoPlaying && current == 0
      ensures rerun ==> startIndex == old(startIndex) && endIndex == old(endIndex) && vehicleType == old(vehicleType) && speed == old(speed)
      ensures !rerun ==> unchanged(this)
    {
      rerun := k != kpiType;
      if rerun {
        kpiType := k;
        autoPlaying := false;
        current := 0;
      }
    }

    /** One run of the page, from the filter boxes to the range handed to the
        animation, as written: the chosen end time must be one of
        `unique_times`, or the page fails with `ValueError`, and the query
        starts at the index the previous run stored. */
    method Run(unique: seq<string>, vehicle: string, kpi: string, startStr: string, endStr: string,
               slider: int, docs: seq<SnapshotStore.Document>) returns (o: RunOutcome)
      requires Valid() && 1 <= slider <= 20
      modifies this
      ensures Valid()
      ensures o.Crashed? ==> endStr !in unique && o.error.ValueError?
      // a new vehicle type
      ensures vehicle != old(vehicleType) ==>
                o == Rerun && vehicleType == vehicle && kpiType == old(kpiType) && current == 0 && !autoPlaying &&
                startIndex == old(startIndex) && endIndex == old(endIndex) && speed == old(speed)
      // the same vehicle type and a new KPI type
      ensures vehicle == old(vehicleType) && kpi != old(kpiType) ==>
                o == Rerun && vehicleType == vehicle && kpiType == kpi && current == 0 && !autoPlaying &&
                startIndex == old(startIndex) && endIndex == old(endIndex) && speed == old(speed)
      // the same filters and an end time that is not one of the times
      ensures vehicle == old(vehicleType) && kpi == old(kpiType) && endStr !in unique ==>
                o == Crashed(ValueError("is not in list")) && startIndex == old(startIndex) && endIndex == old(endIndex) &&
                current == old(current) && autoPlaying == old(autoPlaying) && speed == old(speed) &&
                vehicleType == vehicle && kpiType == kpi
      // the same filters and an end before the stored start
      ensures vehicle == old(vehicleType) && kpi == old(kpiType) && endStr in unique && Position(unique, endStr).value < old(startIndex) ==>
                o == Rerun && startIndex == endIndex == old(startIndex) && current == old(current) &&
                autoPlaying == old(autoPlaying) && speed == old(speed) && vehicleType == vehicle && kpiType == kpi
      // the same filters and a range: the query starts at the stored index
      ensures vehicle == old(vehicleType) && kpi == old(kpiType) && endStr in unique && old(startIndex) <= Position(unique, endStr).value ==>
                var available := AvailableTimes(QueryTimes(unique, old(startIndex), Position(unique, endStr).value), StoredTimes(docs, vehicle, kpi));
                o == Shown(HomePage(available, startStr, endStr, old(current)), autoPlaying, speed) &&
                speed == SpeedMs(slider) && autoPlaying == old(autoPlaying) && vehicleType == vehicle && kpiType == kpi &&
                (o.Halted? ==> startIndex == old(startIndex) && endIndex == Position(unique, endStr).value && current == old(current)) &&
                (o.Rendered? ==> PageValid(o.page) && startIndex == o.page.start && endIndex == o.page.end && current == o.page.current)
    {
      var rerun := SelectVehicleType(vehicle);
      if rerun {
        return Rerun;
      }
      rerun := SelectKpiType(kpi);
      if rerun {
        return Rerun;
      }
      var stop := SetEnd(unique, endStr);
      if stop.Some? {
        return stop.value;
      }
      speed := SpeedMs(slider);
      var available := AvailableTimes(QueryTimes(unique, startIndex, endIndex), StoredTimes(docs, vehicleType, kpiType));
      o := ShowRange(available, startStr, endStr);
    }

    /** One run as lines 179 and 203 evidently intend it: the range queried
        and checked starts at the position of the chosen start time in
        `unique_times` (`ValueError` when it is not there, as for the end),
        not at the index the previous run stored among the available times. */
    method RunCorrected(unique: seq<string>, vehicle: string, kpi: string, startStr: string, endStr: string,
                        slider: int, docs: seq<SnapshotStore.Document>) returns (o: RunOutcome)
      requires Valid() && 1 <= slider <= 20
      modifies this
      ensures Valid()
      ensures o.Crashed? ==> (startStr !in unique || endStr !in unique) && o.error.ValueError?
      // a new vehicle type
      ensures vehicle != old(vehicleType) ==>
                o == Rerun && vehicleType == vehicle && kpiType == old(kpiType) && current == 0 && !autoPlaying &&
                startIndex == old(startIndex) && endIndex == old(endIndex) && speed == old(speed)
      // the same vehicle type and a new KPI type
      ensures vehicle == old(vehicleType) && kpi != old(kpiType) ==>
                o == Rerun && vehicleType == vehicle && kpiType == kpi && current == 0 && !autoPlaying &&
                startIndex == old(startIndex) && endIndex == old(endIndex) && speed == old(speed)
      // the same filters and a start or end time that is not one of the times
      ensures vehicle == old(vehicleType) && kpi == old(kpiType) && (startStr !in unique || endStr !in unique) ==>
                o == Crashed(ValueError("is not in list")) && startIndex == old(startIndex) && endIndex == old(endIndex) &&
                current == old(current) && autoPlaying == old(autoPlaying) && speed == old(speed) &&
                vehicleType == vehicle && kpiType == kpi
      // the same filters and an end before the chosen start
      ensures vehicle == old(vehicleType) && kpi == old(kpiType) && startStr in unique && endStr in unique &&
              Position(unique, endStr).value < Position(unique, startStr).value ==>
                o == Rerun && startIndex == old(startIndex) && endIndex == Position(unique, startStr).value &&
                current == old(current) && autoPlaying == old(autoPlaying) && speed == old(speed) &&
                vehicleType == vehicle && kpiType == kpi
      // the same filters and a range: the query starts at the chosen start time
      ensures vehicle == old(vehicleType) && kpi == old(kpiType) && startStr in unique && endStr in unique &&
              Position(unique, startStr).value <= Position(unique, endStr).value ==>
                var available := AvailableTimes(QueryTimes(unique, Position(unique, startStr).value, Position(unique, endStr).value),
                                                StoredTimes(docs, vehicle, kpi));
                o == Shown(HomePage(available, startStr, endStr, old(current)), autoPlaying, speed) &&
                speed == SpeedMs(slider) && autoPlaying == old(autoPlaying) && vehicleType == vehicle && kpiType == kpi &&
                (o.Halted? ==> startIndex == old(startIndex) && endIndex == old(endIndex) && current == old(current)) &&
                (o.Rendered? ==> PageValid(o.page) && startIndex == o.page.start && endIndex == o.page.end && current == o.page.current)
    {
      var rerun := SelectVehicleType(vehicle);
      if rerun {
        return Rerun;
      }
      rerun := SelectKpiType(kpi);
      if rerun {
        return Rerun;
      }
      var e := Position(unique, endStr);
      if e.None? {
        return Crashed(ValueError("is not in list"));
      }
      var s := Position(unique, startStr);
      if s.None? {
        return Crashed(ValueError("is not in list"));
      }
      if s.value > e.value {
        endIndex := s.value;
        return Rerun;
      }
      speed := SpeedMs(slider);
      var available := AvailableTimes(QueryTimes(unique, s.value, e.value), StoredTimes(docs, vehicleType, kpiType));
      o := ShowRange(available, startStr, endStr);
    }

    /** Lines 176-182: the end index is the position of the chosen end time
        in `unique_times` (`ValueError` when it is not there); an end before
        the stored start is moved up to it and the page reruns. */
    method SetEnd(unique: seq<string>, endStr: string) returns (stop: Option<RunOutcome>)
      requires Valid()
      modifies this
      ensures Valid()
      ensures endStr !in unique <==> stop == Some(Crashed(ValueError("is not in list")))
      ensures endStr !in unique ==> endIndex == old(endIndex)
      ensures stop.None? <==> endStr in unique && startIndex <= Position(unique, endStr).value
      ensures stop.None? ==> endIndex == Position(unique, endStr).value
      ensures stop.Some? && endStr in unique ==> stop == Some(Rerun) && endIndex == startIndex
      ensures startIndex == old(startIndex) && current == old(current) && autoPlaying == old(autoPlaying)
      ensures speed == old(speed) && vehicleType == old(vehicleType) && kpiType == old(kpiType)
    {
      var e := Position(unique, endStr);
      if e.None? {
        return Some(Crashed(ValueError("is not in list")));
      }
      endIndex := e.value;
      if startIndex > endIndex {
        endIndex := startIndex;
        return Some(Rerun);
      }
      return None;
    }

    /** Lines 219-243: stop the page when no time is available, else store
        the resolved range and current frame. */
    method ShowRange(available: seq<string>, startStr: string, endStr: string) returns (o: RunOutcome)
      modifies this
      ensures o == Shown(HomePage(available, startStr, endStr, old(current)), autoPlaying, speed)
      ensures o.Rendered? ==> startIndex == o.page.start && endIndex == o.page.end && current == o.page.current
      ensures o.Halted? ==> startIndex == old(startIndex) && endIndex == old(endIndex) && current == old(current)
      ensures autoPlaying == old(autoPlaying) && speed == old(speed)
      ensures vehicleType == old(vehicleType) && kpiType == old(kpiType)
    {
      var page := HomePage(available, startStr, endStr, current);
      if page.None? {
        return Halted;
      }
      startIndex, endIndex, current := page.value.start, page.value.end, page.value.current;
      return Rendered(page.value, autoPlaying, speed);
    }

    /** The Start button (enabled only while stopped): play from the start of
        the range, and rerun. */
    method Start()
      requires !autoPlaying
      modifies this
      ensures autoPlaying && current == startIndex
      ensures startIndex == old(startIndex) && endIndex == old(endIndex) && speed == old(speed)
      ensures vehicleType == old(vehicleType) && kpiType == old(kpiType)
    {
      autoPlaying := true;
      current := startIndex;
    }

    /** The Stop button (enabled only while playing): stop, and rerun. */
    method Stop()
      requires autoPlaying
      modifies this
      ensures !autoPlaying
      ensures startIndex == old(startIndex) && endIndex == old(endIndex) && current == old(current)
      ensures speed == old(speed) && vehicleType == old(vehicleType) && kpiType == old(kpiType)
    {
      autoPlaying := false;
    }
  }

  /** Line 237 of `Home.py` stores the start as a position of the available
      times, and line 203 reads it back as a position of `unique_times`. With
      three hours, all stored: a first run from the first session state that
      chooses the last hour as start and end stores 2; a second run that
      chooses the first hour then queries the last hour alone, and the
      animation begins there although the chosen first hour has a snapshot. */
  lemma HomeStartIndexMismatch(unique: seq<string>, stored: set<string>)
    requires |unique| == 3 && StrictlySorted(unique)
    requires forall t :: t in unique ==> t in stored
    ensures Position(unique, unique[2]) == Some(2)
    ensures HomePage(AvailableTimes(QueryTimes(unique, 0, 2), stored), unique[2], unique[2], 0) == Some(Page(unique, 2, 2, 0))
    ensures HomePage(AvailableTimes(QueryTimes(unique, 2, 2), stored), unique[0], unique[2], 0) == Some(Page([unique[2]], 0, 0, 0))
    ensures unique[0] in stored && unique[0] != unique[2]
  {
    LexIrreflexive(unique[2]);
    assert LexLess(unique[0], unique[2]) && LexLess(unique[1], unique[2]);
    assert unique[0] != unique[2] && unique[1] != unique[2];
    assert Position(unique, unique[2]) == Some(2);
    AllStoredAvailable(unique, 0, 2, stored);
    assert unique[0..3] == unique;
    assert ResolveRange(unique, unique[2], unique[2]) == (2, 2);
    AllStoredAvailable(unique, 2, 2, stored);
    assert unique[2..3] == [unique[2]];
    assert Position([unique[2]], unique[0]).None?;
    assert ResolveRange([unique[2]], unique[0], unique[2]) == (0, 0);
  }

  /** Two consecutive runs of `Home.py` as written, with three hours that all
      have a snapshot: the second run's animation begins at the last hour,
      not at the first hour the user chose. */
  method StartShiftAsWritten(unique: seq<string>, docs: seq<SnapshotStore.Document>) returns (first: RunOutcome, second: RunOutcome)
    requires |unique| == 3 && StrictlySorted(unique)
    requires forall t :: t in unique ==> t in StoredTimes(docs, "all", "number_of_vehicles")
    ensures first.Rendered? && first.page.available == unique && first.page.start == 2
    ensures second.Rendered? && second.page.available == [unique[2]] && second.page.start == 0
    ensures second.page.available[second.page.start] != unique[0]
  {
    HomeStartIndexMismatch(unique, StoredTimes(docs, "all", "number_of_vehicles"));
    var session := new HomeSession.Init(unique);
    first := session.Run(unique, "all", "number_of_vehicles", unique[2], unique[2], 10, docs);
    second := session.Run(unique, "all", "number_of_vehicles", unique[0], unique[2], 10, docs);
  }

  /** With the corrected query, a chosen start time that has a snapshot is
      the frame the range starts at. */
  lemma CorrectedStartShown(unique: seq<string>, startStr: string, endStr: string, stored: set<string>, current: int)
    requires startStr in unique && endStr in unique
    requires Position(unique, startStr).value <= Position(unique, endStr).value
    requires startStr in stored
    ensures var p := HomePage(AvailableTimes(QueryTimes(unique, Position(unique, startStr).value, Position(unique, endStr).value), stored),
                              startStr, endStr, current);
            p.Some? && p.value.available[p.value.start] == startStr
  {
    var s, e := Position(unique, startStr).value, Position(unique, endStr).value;
    assert QueryTimes(unique, s, e)[0] == startStr;
  }

  /** The same two runs with the corrected query: the second run's animation
      begins at the first hour the user chose. */
  method StartKeptCorrected(unique: seq<string>, docs: seq<SnapshotStore.Document>) returns (first: RunOutcome, second: RunOutcome)
    requires |unique| == 3 && StrictlySorted(unique)
    requires forall t :: t in unique ==> t in StoredTimes(docs, "all", "number_of_vehicles")
    ensures first.Rendered? && PageValid(first.page) && first.page.available[first.page.start] == unique[2]
    ensures second.Rendered? && PageValid(second.page) && second.page.available[second.page.start] == unique[0]
  {
    HomeStartIndexMismatch(unique, StoredTimes(docs, "all", "number_of_vehicles"));
    var session := new HomeSession.Init(unique);
    first := session.RunCorrected(unique, "all", "number_of_vehicles", unique[2], unique[2], 10, docs);
    CorrectedStartShown(unique, unique[2], unique[2], StoredTimes(docs, "all", "number_of_vehicles"), 0);
    var current := session.current;
    assert Position(unique, unique[0]) == Some(0);
    CorrectedStartShown(unique, unique[0], unique[2], StoredTimes(docs, "all", "number_of_vehicles"), current);
    second := session.RunCorrected(unique, "all", "number_of_vehicles", unique[0], unique[2], 10, docs);
  }

  // ----- Home_4.py -----

  /** Lines 214-222 of `Home_4.py` as written: stop when no time is
      available, else reset the current frame and hand the animation the
      start and end positions in `unique_times` unchanged. */
  function Home4Page(available: seq<string>, startIndex: int, endIndex: int, current: int): (r: Option<Page>)
    ensures r.None? <==> available == []
    ensures r.Some? ==> r.value.available == available && r.value.start == startIndex && r.value.end == endIndex
    ensures r.Some? ==> 0 <= r.value.current < |available|
  {
    if available == [] then None
    else Some(Page(available, startIndex, endIndex, ResetCurrent(current, |available|)))
  }

  /** When every selected time has a snapshot, the available times are
      exactly the selected stretch of `unique_times`. */
  lemma AllStoredAvailable(unique: seq<string>, startIndex: nat, endIndex: nat, stored: set<string>)
    requires StrictlySorted(unique) && startIndex <= endIndex < |unique|
    requires forall t :: t in unique ==> t in stored
    ensures AvailableTimes(QueryTimes(unique, startIndex, endIndex), stored) == unique[startIndex..endIndex + 1]
  {
    var query := QueryTimes(unique, startIndex, endIndex);
    assert StrictlySorted(query) by {
      forall i, j | 0 <= i < j < |query|
        ensures LexLess(query[i], query[j])
      {
        assert query[i] == unique[startIndex + i] && query[j] == unique[startIndex + j];
      }
    }
    AvailableIsStoredQuery(query, stored);
    FilterAll(query, t => t in stored);
  }

  /** `Home_4.py` hands the animation positions in `unique_times`, but the
      animation indexes the available times. With every time stored and a
      start after the first time, the first frame shown is not the chosen
      start time; and when the range is no longer than the number of times
      before it, no frame the animation ever asks for exists. */
  lemma Home4IndexSpaceMismatch(unique: seq<string>, startIndex: nat, endIndex: nat, stored: set<string>, n: nat)
    requires StrictlySorted(unique) && 0 < startIndex <= endIndex < |unique|
    requires forall t :: t in unique ==> t in stored
    ensures var p := Home4Page(AvailableTimes(QueryTimes(unique, startIndex, endIndex), stored), startIndex, endIndex, 0);
            p.Some? && ClampFrame(p.value.start, p.value.end, p.value.current) == startIndex &&
            FrameAt(p.value.available, startIndex) != Some(unique[startIndex])
    ensures endIndex - startIndex < startIndex ==>
            var p := Home4Page(AvailableTimes(QueryTimes(unique, startIndex, endIndex), stored), startIndex, endIndex, 0);
            p.Some? && FrameAt(p.value.available, AfterTicks(p.value.start, p.value.end, ClampFrame(p.value.start, p.value.end, p.value.current), n)).None?
  {
    AllStoredAvailable(unique, startIndex, endIndex, stored);
    var available := unique[startIndex..endIndex + 1];
    if startIndex < |available| {
      assert available[startIndex] == unique[2 * startIndex];
      assert LexLess(unique[startIndex], unique[2 * startIndex]);
      LexIrreflexive(unique[startIndex]);
    }
    AfterTicksInRange(startIndex, endIndex, startIndex, n);
  }

  /** The range as `Home_4.py` evidently intends it: the selected start and
      end times looked up among the available times, as `Home.py` does. */
  function Home4PageCorrected(unique: seq<string>, startIndex: nat, endIndex: nat, available: seq<string>, current: int): (r: Option<Page>)
    requires startIndex <= endIndex < |unique|
    ensures r.None? <==> available == []
    ensures r.Some? ==> PageValid(r.value) && r.value.available == available
    ensures r.Some? && unique[startIndex] in available ==> available[r.value.start] == unique[startIndex]
    ensures r.Some? && unique[endIndex] in available ==> r.value.end == r.value.start || available[r.value.end] == unique[endIndex]
  {
    HomePage(available, unique[startIndex], unique[endIndex], current)
  }

  /** With the corrected range, every frame the animation shows exists. */
  lemma Home4CorrectedFramesDefined(unique: seq<string>, startIndex: nat, endIndex: nat, available: seq<string>, current: int, n: nat)
    requires startIndex <= endIndex < |unique|
    requires Home4PageCorrected(unique, startIndex, endIndex, available, current).Some?
    ensures var p := Home4PageCorrected(unique, startIndex, endIndex, available, current).value;
            FrameAt(p.available, AfterTicks(p.start, p.end, ClampFrame(p.start, p.end, p.current), n)).Some?
  {
    PageFramesDefined(Home4PageCorrected(unique, startIndex, endIndex, available, current).value, n);
  }

  /** The session state of `Home_4.py`. */
  class Home4Session {
    var startIndex: int
    var endIndex: int
    var speed: int
    var current: int
    var autoPlaying: bool
    var vehicleType: string
    var kpiType: string

    /** The first run's defaults, as in `Home.py`. */
    constructor Init(unique: seq<string>)
      ensures startIndex == 0 && endIndex == |unique| - 1
      ensures speed == 1000 && current == 0 && !autoPlaying
      ensures vehicleType == "all" && kpiType == "number_of_vehicles"
    {
      startIndex := 0;
      endIndex := |unique| - 1;
      speed := 1000;
      current := 0;
      autoPlaying := false;
      vehicleType := "all";
      kpiType := "number_of_vehicles";
    }

    /** A new vehicle type stops the animation, rewinds it and reruns the page. */
    method SelectVehicleType(v: string) returns (rerun: bool)
      modifies this
      ensures rerun <==> v != old(vehicleType)
      ensures rerun ==> vehicleType == v && !autoPlaying && current == 0
      ensures rerun ==> startIndex == old(startIndex) && endIndex == old(endIndex) && kpiType == old(kpiType) && speed == old(speed)
      ensures !rerun ==> unchanged(this)
    {
      rerun := v != vehicleType;
      if rerun {
        vehicleType := v;
        autoPlaying := false;
        current := 0;
      }
    }

    /** A new KPI type stops the animation, rewinds it and reruns the page. */
    method SelectKpiType(k: string) returns (rerun: bool)
      modifies this
      ensures rerun <==> k != old(kpiType)
      ensures rerun ==> kpiType == k && !autoPlaying && current == 0
      ensures rerun ==> startIndex == old(startIndex) && endIndex == old(endIndex) && vehicleType == old(vehicleType) && speed == old(speed)
      ensures !rerun ==> unchanged(this)
    {
      rerun := k != kpiType;
      if rerun {
        kpiType := k;
        autoPlaying := false;
        current := 0;
      }
    }

    /** One run of the page. The start and end times are chosen from
        `unique_times`; their positions there are the range, and an end
        before the start is moved up to it with a rerun. */
    method Run(unique: seq<string>, vehicle: string, kpi: string, startStr: string, endStr: string,
               slider: int, docs: seq<SnapshotStore.Document>) returns (o: RunOutcome)
      modifies this
      ensures o.Crashed? ==> (startStr !in unique || endStr !in unique) && o.error.ValueError?
      // a new vehicle type
      ensures vehicle != old(vehicleType) ==>
                o == Rerun && vehicleType == vehicle && kpiType == old(kpiType) && current == 0 && !autoPlaying &&
                startIndex == old(startIndex) && endIndex == old(endIndex) && speed == old(speed)
      // the same vehicle type and a new KPI type
      ensures vehicle == old(vehicleType) && kpi != old(kpiType) ==>
                o == Rerun && vehicleType == vehicle && kpiType == kpi && current == 0 && !autoPlaying &&
                startIndex == old(startIndex) && endIndex == old(endIndex) && speed == old(speed)
      // the same filters and a start time that is not one of the times
      ensures vehicle == old(vehicleType) && kpi == old(kpiType) && startStr !in unique ==>
                o == Crashed(ValueError("is not in list")) && startIndex == old(startIndex) && endIndex == old(endIndex) &&
                current == old(current) && autoPlaying == old(autoPlaying) && speed == old(speed) &&
                vehicleType == vehicle && kpiType == kpi
      // the same filters and an end time that is not one of the times: line 174 has stored the start
      ensures vehicle == old(vehicleType) && kpi == old(kpiType) && startStr in unique && endStr !in unique ==>
                o == Crashed(ValueError("is not in list")) && startIndex == Position(unique, startStr).value &&
                endIndex == old(endIndex) && current == old(current) && autoPlaying == old(autoPlaying) &&
                speed == old(speed) && vehicleType == vehicle && kpiType == kpi
      // the same filters and an end before the start
      ensures vehicle == old(vehicleType) && kpi == old(kpiType) && startStr in unique && endStr in unique &&
              Position(unique, endStr).value < Position(unique, startStr).value ==>
                o == Rerun && startIndex == endIndex == Position(unique, startStr).value &&
                current == old(current) && autoPlaying == old(autoPlaying) && speed == old(speed) &&
                vehicleType == vehicle && kpiType == kpi
      // the same filters and a range
      ensures vehicle == old(vehicleType) && kpi == old(kpiType) && startStr in unique && endStr in unique &&
              Position(unique, startStr).value <= Position(unique, endStr).value ==>
                startIndex == Position(unique, startStr).value && endIndex == Position(unique, endStr).value &&
                var available := AvailableTimes(QueryTimes(unique, startIndex, endIndex), StoredTimes(docs, vehicle, kpi));
                o == Shown(Home4Page(available, startIndex, endIndex, old(current)), autoPlaying, speed as real) &&
                speed == slider && autoPlaying == old(autoPlaying) && vehicleType == vehicle && kpiType == kpi &&
                (o.Halted? ==> current == old(current)) &&
                (o.Rendered? ==> current == o.page.current)
    {
      var rerun := SelectVehicleType(vehicle);
      if rerun {
        return Rerun;
      }
      rerun := SelectKpiType(kpi);
      if rerun {
        return Rerun;
      }
      var s := Position(unique, startStr);
      if s.None? {
        return Crashed(ValueError("is not in list"));
      }
      startIndex := s.value;
      var e := Position(unique, endStr);
      if e.None? {
        return Crashed(ValueError("is not in list"));
      }
      endIndex := e.value;
      if startIndex > endIndex {
        endIndex := startIndex;
        return Rerun;
      }
      speed := slider;
      var available := AvailableTimes(QueryTimes(unique, startIndex, endIndex), StoredTimes(docs, vehicleType, kpiType));
      o := ShowRange(available);
    }

    /** Lines 214-222: stop the page when no time is available, else reset
        the current frame. */
    method ShowRange(available: seq<string>) returns (o: RunOutcome)
      modifies this
      ensures o == Shown(Home4Page(available, startIndex, endIndex, old(current)), autoPlaying, speed as real)
      ensures o.Rendered? ==> current == o.page.current
      ensures o.Halted? ==> current == old(current)
      ensures startIndex == old(startIndex) && endIndex == old(endIndex)
      ensures autoPlaying == old(autoPlaying) && speed == old(speed)
      ensures vehicleType == old(vehicleType) && kpiType == old(kpiType)
    {
      var page := Home4Page(available, startIndex, endIndex, current);
      if page.None? {
        return Halted;
      }
      current := page.value.current;
      return Rendered(page.value, autoPlaying, speed as real);
    }

    /** The Start button (enabled only while stopped). */
    method Start()
      requires !autoPlaying
      modifies this
      ensures autoPlaying && current == startIndex
      ensures startIndex == old(startIndex) && endIndex == old(endIndex) && speed == old(speed)
      ensures vehicleType == old(vehicleType) && kpiType == old(kpiType)
    {
      autoPlaying := true;
      current := startIndex;
    }

    /** The Stop button (enabled only while playing). */
    method Stop()
      requires autoPlaying
      modifies this
      ensures !autoPlaying
      ensures startIndex == old(startIndex) && endIndex == old(endIndex) && current == old(current)
      ensures speed == old(speed) && vehicleType == old(vehicleType) && kpiType == old(kpiType)
    {
      autoPlaying := false;
    }
  }
}
