/** The colour scales of the two dashboard pages: each `getColor` is a chain of
    `d > t ? colour : ...` tests over strictly decreasing thresholds, and each
    page draws a legend with one entry per colour. */
module ColorScales {
  import opened Frames

  /** JavaScript's `d > t` on a segment value: a null or NaN value compares
      false with every threshold. */
  predicate Above(d: Option<real>, t: int)
  {
    d.Some? && d.value > t as real
  }

  /** A `getColor` chain: the colour of the first threshold the value exceeds,
      or the last colour when it exceeds none. */
  function ThresholdColor(thresholds: seq<int>, colors: seq<string>, d: Option<real>): (c: string)
    requires |colors| == |thresholds| + 1
    ensures c in colors
  {
    if thresholds == [] then colors[0]
    else if Above(d, thresholds[0]) then colors[0]
    else ThresholdColor(thresholds[1..], colors[1..], d)
  }

  /** The position of the first threshold the value exceeds (`|thresholds|`
      when it exceeds none): which branch of the chain answers. */
  function Bucket(thresholds: seq<int>, d: Option<real>): (i: nat)
    ensures i <= |thresholds|
    ensures forall j :: 0 <= j < i ==> !Above(d, thresholds[j])
    ensures i < |thresholds| ==> Above(d, thresholds[i])
  {
    if thresholds == [] then 0
    else if Above(d, thresholds[0]) then 0
    else
      var rest := Bucket(thresholds[1..], d);
      assert forall j :: 1 <= j < rest + 1 ==> thresholds[j] == thresholds[1..][j - 1];
      rest + 1
  }

  /** The chain answers with the colour of the value's bucket. */
  lemma {:induction false} ColorOfBucket(thresholds: seq<int>, colors: seq<string>, d: Option<real>)
    requires |colors| == |thresholds| + 1
    ensures ThresholdColor(thresholds, colors, d) == colors[Bucket(thresholds, d)]
  {
    if thresholds != [] && !Above(d, thresholds[0]) {
      ColorOfBucket(thresholds[1..], colors[1..], d);
    }
  }

  predicate Decreasing(thresholds: seq<int>)
  {
    forall i, j :: 0 <= i < j < |thresholds| ==> thresholds[i] > thresholds[j]
  }

  /** Thresholds that decrease step by step decrease. */
  lemma {:induction false} DecreasingSteps(thresholds: seq<int>)
    requires forall i :: 0 < i < |thresholds| ==> thresholds[i - 1] > thresholds[i]
    ensures Decreasing(thresholds)
  {
    if |thresholds| > 1 {
      var rest := thresholds[1..];
      DecreasingSteps(rest);
      forall i, j | 0 <= i < j < |thresholds| ensures thresholds[i] > thresholds[j] {
        if i == 0 && j > 1 {
          assert rest[0] > rest[j - 1];
        } else if i > 0 {
          assert rest[i - 1] > rest[j - 1];
        }
      }
    }
  }

  /** On decreasing thresholds a value lies in bucket `i` exactly when it is at
      most threshold `i - 1` and above threshold `i`. */
  lemma BucketBounds(thresholds: seq<int>, x: real, i: nat)
    requires Decreasing(thresholds) && i <= |thresholds|
    ensures Bucket(thresholds, Some(x)) == i <==>
              (i == 0 || x <= thresholds[i - 1] as real) && (i == |thresholds| || x > thresholds[i] as real)
  {
    var b := Bucket(thresholds, Some(x));
    if b < i && i > 0 {
      assert thresholds[b] >= thresholds[i - 1];
    }
    if b > i && i < |thresholds| {
      assert !Above(Some(x), thresholds[i]);
    }
  }

  /** A larger value never gets a later bucket: the colouring is monotone. */
  lemma BucketMonotone(thresholds: seq<int>, x: real, y: real)
    requires Decreasing(thresholds) && x <= y
    ensures Bucket(thresholds, Some(y)) <= Bucket(thresholds, Some(x))
  {
    var bx := Bucket(thresholds, Some(x));
    if bx < |thresholds| {
      assert Above(Some(y), thresholds[bx]);
    }
  }

  /** A legend entry: its label, its colour, and the whole numbers the label
      names (from `low` up to `high`, or upwards when the label ends in `+`). */
  datatype LegendEntry = LegendEntry(text: string, color: string, low: int, high: Option<int>)

  predicate Names(e: LegendEntry, n: int)
  {
    e.low <= n && (e.high.None? || n <= e.high.value)
  }

  /** The legend lists the chain's colours in the chain's order. */
  predicate ColorsMatch(legend: seq<LegendEntry>, colors: seq<string>)
  {
    |legend| == |colors| && forall i :: 0 <= i < |legend| ==> legend[i].color == colors[i]
  }

  /** Every whole value from 0 up is named by exactly the legend entry of its
      bucket. */
  ghost predicate LabelsExact(legend: seq<LegendEntry>, thresholds: seq<int>)
  {
    forall n: int, i :: 0 <= n && 0 <= i < |legend| ==> (Names(legend[i], n) <==> Bucket(thresholds, Some(n as real)) == i)
  }

  /** Labels "above the first threshold", then "(t_i, t_(i-1)]" in whole
      numbers, then "0 up to the last threshold" name exactly the buckets. */
  lemma LabelsFromThresholds(legend: seq<LegendEntry>, thresholds: seq<int>)
    requires Decreasing(thresholds) && |thresholds| > 0 && |legend| == |thresholds| + 1
    requires legend[0].low == thresholds[0] + 1 && legend[0].high.None?
    requires forall i :: 0 < i < |thresholds| ==> legend[i].low == thresholds[i] + 1 && legend[i].high == Some(thresholds[i - 1])
    requires legend[|thresholds|].low == 0 && legend[|thresholds|].high == Some(thresholds[|thresholds| - 1])
    ensures LabelsExact(legend, thresholds)
  {
    forall n: int, i | 0 <= n && 0 <= i < |legend| ensures Names(legend[i], n) <==> Bucket(thresholds, Some(n as real)) == i {
      BucketBounds(thresholds, n as real, i);
    }
  }

  // ----- streamlit_app/Home.py -----

  const HomeSpeedThresholds: seq<int> := [70, 60, 50, 40, 30, 20, 0]
  const HomeSpeedColors: seq<string> :=
    ["#1A9850", "#66BD63", "#A6D96A", "#D9EF8B", "#FEE08B", "#FDAE61", "#F46D43", "#D73027"]

  function HomeSpeedColor(d: Option<real>): (c: string)
  {
    ThresholdColor(HomeSpeedThresholds, HomeSpeedColors, d)
  }

  /** The speed legend as written: its first label, `70+`, also names 70. */
  const HomeSpeedLegendAsWritten: seq<LegendEntry> := [
    LegendEntry("70+ km/h", "#1A9850", 70, None),
    LegendEntry("61-70 km/h", "#66BD63", 61, Some(70)),
    LegendEntry("51-60 km/h", "#A6D96A", 51, Some(60)),
    LegendEntry("41-50 km/h", "#D9EF8B", 41, Some(50)),
    LegendEntry("31-40 km/h", "#FEE08B", 31, Some(40)),
    LegendEntry("21-30 km/h", "#FDAE61", 21, Some(30)),
    LegendEntry("1-20 km/h", "#F46D43", 1, Some(20)),
    LegendEntry("0 km/h", "#D73027", 0, Some(0))
  ]

  /** The speed legend with its first label naming only what that colour gets. */
  const HomeSpeedLegend: seq<LegendEntry> := [
    LegendEntry("71+ km/h", "#1A9850", 71, None),
    LegendEntry("61-70 km/h", "#66BD63", 61, Some(70)),
    LegendEntry("51-60 km/h", "#A6D96A", 51, Some(60)),
    LegendEntry("41-50 km/h", "#D9EF8B", 41, Some(50)),
    LegendEntry("31-40 km/h", "#FEE08B", 31, Some(40)),
    LegendEntry("21-30 km/h", "#FDAE61", 21, Some(30)),
    LegendEntry("1-20 km/h", "#F46D43", 1, Some(20)),
    LegendEntry("0 km/h", "#D73027", 0, Some(0))
  ]

  const HomeCountThresholds: seq<int> := [2000, 1000, 500, 200, 100, 50, 20]
  const HomeCountColors: seq<string> :=
    ["#A50026", "#D73027", "#F46D43", "#FDAE61", "#FEE08B", "#D9EF8B", "#A6D96A", "#66BD63"]

  function HomeCountColor(d: Option<real>): (c: string)
  {
    ThresholdColor(HomeCountThresholds, HomeCountColors, d)
  }

  const HomeCountLegendAsWritten: seq<LegendEntry> := [
    LegendEntry("2000+", "#A50026", 2000, None),
    LegendEntry("1001-2000", "#D73027", 1001, Some(2000)),
    LegendEntry("501-1000", "#F46D43", 501, Some(1000)),
    LegendEntry("201-500", "#FDAE61", 201, Some(500)),
    LegendEntry("101-200", "#FEE08B", 101, Some(200)),
    LegendEntry("51-100", "#D9EF8B", 51, Some(100)),
    LegendEntry("21-50", "#A6D96A", 21, Some(50)),
    LegendEntry("0-20", "#66BD63", 0, Some(20))
  ]

  const HomeCountLegend: seq<LegendEntry> := [
    LegendEntry("2001+", "#A50026", 2001, None),
    LegendEntry("1001-2000", "#D73027", 1001, Some(2000)),
    LegendEntry("501-1000", "#F46D43", 501, Some(1000)),
    LegendEntry("201-500", "#FDAE61", 201, Some(500)),
    LegendEntry("101-200", "#FEE08B", 101, Some(200)),
    LegendEntry("51-100", "#D9EF8B", 51, Some(100)),
    LegendEntry("21-50", "#A6D96A", 21, Some(50)),
    LegendEntry("0-20", "#66BD63", 0, Some(20))
  ]

  // ----- streamlit_app/Home_4.py -----

  const Home4SpeedThresholds: seq<int> := [80, 60, 40, 20, 0]
  const Home4SpeedColors: seq<string> := ["#4CAF50", "#8BC34A", "#FFEB3B", "#FFC107", "#F44336", "#D32F2F"]

  function Home4SpeedColor(d: Option<real>): (c: string)
  {
    ThresholdColor(Home4SpeedThresholds, Home4SpeedColors, d)
  }

  const Home4SpeedLegendAsWritten: seq<LegendEntry> := [
    LegendEntry("80+", "#4CAF50", 80, None),
    LegendEntry("61-80", "#8BC34A", 61, Some(80)),
    LegendEntry("41-60", "#FFEB3B", 41, Some(60)),
    LegendEntry("21-40", "#FFC107", 21, Some(40)),
    LegendEntry("1-20", "#F44336", 1, Some(20)),
    LegendEntry("0", "#D32F2F", 0, Some(0))
  ]

  const Home4SpeedLegend: seq<LegendEntry> := [
    LegendEntry("81+", "#4CAF50", 81, None),
    LegendEntry("61-80", "#8BC34A", 61, Some(80)),
    LegendEntry("41-60", "#FFEB3B", 41, Some(60)),
    LegendEntry("21-40", "#FFC107", 21, Some(40)),
    LegendEntry("1-20", "#F44336", 1, Some(20)),
    LegendEntry("0", "#D32F2F", 0, Some(0))
  ]

  const Home4CountThresholds: seq<int> := [200, 100, 50, 20, 10, 0]
  const Home4CountColors: seq<string> := ["#D32F2F", "#F44336", "#FF5722", "#FFC107", "#FFEB3B", "#8BC34A", "#4CAF50"]

  function Home4CountColor(d: Option<real>): (c: string)
  {
    ThresholdColor(Home4CountThresholds, Home4CountColors, d)
  }

  const Home4CountLegendAsWritten: seq<LegendEntry> := [
    LegendEntry("200+", "#D32F2F", 200, None),
    LegendEntry("101-200", "#F44336", 101, Some(200)),
    LegendEntry("51-100", "#FF5722", 51, Some(100)),
    LegendEntry("21-50", "#FFC107", 21, Some(50)),
    LegendEntry("11-20", "#FFEB3B", 11, Some(20)),
    LegendEntry("1-10", "#8BC34A", 1, Some(10)),
    LegendEntry("0", "#4CAF50", 0, Some(0))
  ]

  const Home4CountLegend: seq<LegendEntry> := [
    LegendEntry("201+", "#D32F2F", 201, None),
    LegendEntry("101-200", "#F44336", 101, Some(200)),
    LegendEntry("51-100", "#FF5722", 51, Some(100)),
    LegendEntry("21-50", "#FFC107", 21, Some(50)),
    LegendEntry("11-20", "#FFEB3B", 11, Some(20)),
    LegendEntry("1-10", "#8BC34A", 1, Some(10)),
    LegendEntry("0", "#4CAF50", 0, Some(0))
  ]

  // ----- what each scale promises -----

  /** A scale is sound when its thresholds decrease, its legend lists its
      colours in order, the colouring is monotone, and every whole value from 0
      up is named by exactly the legend entry whose colour it gets. */
  ghost predicate Sound(thresholds: seq<int>, colors: seq<string>, legend: seq<LegendEntry>)
    requires |colors| == |thresholds| + 1
  {
    Decreasing(thresholds) && ColorsMatch(legend, colors) &&
    (forall x: real, y: real :: x <= y ==> Bucket(thresholds, Some(y)) <= Bucket(thresholds, Some(x))) &&
    (forall d :: ThresholdColor(thresholds, colors, d) == colors[Bucket(thresholds, d)]) &&
    LabelsExact(legend, thresholds)
  }

  lemma SoundFromLabels(thresholds: seq<int>, colors: seq<string>, legend: seq<LegendEntry>)
    requires |colors| == |thresholds| + 1 && |thresholds| > 0 && |legend| == |colors|
    requires Decreasing(thresholds)
    requires forall i :: 0 <= i < |legend| ==> legend[i].color == colors[i]
    requires legend[0].low == thresholds[0] + 1 && legend[0].high.None?
    requires forall i :: 0 < i < |thresholds| ==> legend[i].low == thresholds[i] + 1 && legend[i].high == Some(thresholds[i - 1])
    requires legend[|thresholds|].low == 0 && legend[|thresholds|].high == Some(thresholds[|thresholds| - 1])
    ensures Sound(thresholds, colors, legend)
  {
    forall x: real, y: real | x <= y ensures Bucket(thresholds, Some(y)) <= Bucket(thresholds, Some(x)) {
      BucketMonotone(thresholds, x, y);
    }
    forall d ensures ThresholdColor(thresholds, colors, d) == colors[Bucket(thresholds, d)] {
      ColorOfBucket(thresholds, colors, d);
    }
    LabelsFromThresholds(legend, thresholds);
  }

  lemma HomeSpeedSound()
    ensures |HomeSpeedLegend| == 8 && Sound(HomeSpeedThresholds, HomeSpeedColors, HomeSpeedLegend)
  {
    DecreasingSteps(HomeSpeedThresholds);
    SoundFromLabels(HomeSpeedThresholds, HomeSpeedColors, HomeSpeedLegend);
  }

  lemma HomeCountSound()
    ensures |HomeCountLegend| == 8 && Sound(HomeCountThresholds, HomeCountColors, HomeCountLegend)
  {
    DecreasingSteps(HomeCountThresholds);
    SoundFromLabels(HomeCountThresholds, HomeCountColors, HomeCountLegend);
  }

  lemma Home4SpeedSound()
    ensures |Home4SpeedLegend| == 6 && Sound(Home4SpeedThresholds, Home4SpeedColors, Home4SpeedLegend)
  {
    DecreasingSteps(Home4SpeedThresholds);
    SoundFromLabels(Home4SpeedThresholds, Home4SpeedColors, Home4SpeedLegend);
  }

  lemma Home4CountSound()
    ensures |Home4CountLegend| == 7 && Sound(Home4CountThresholds, Home4CountColors, Home4CountLegend)
  {
    DecreasingSteps(Home4CountThresholds);
    SoundFromLabels(Home4CountThresholds, Home4CountColors, Home4CountLegend);
  }

  // ----- the legends as written -----

  /** A legend whose first label also names the first threshold `t` shows `t`
      under two labels, and `t` gets the second colour. */
  lemma FirstLabelOverlap(thresholds: seq<int>, legend: seq<LegendEntry>)
    requires Decreasing(thresholds) && |thresholds| > 0 && |legend| >= 2 && thresholds[0] >= 0
    requires legend[0].low == thresholds[0] && legend[0].high.None?
    requires legend[1].low <= thresholds[0] && legend[1].high == Some(thresholds[0])
    ensures Names(legend[0], thresholds[0]) && Names(legend[1], thresholds[0])
    ensures Bucket(thresholds, Some(thresholds[0] as real)) == 1
    ensures !LabelsExact(legend, thresholds)
  {
    BucketBounds(thresholds, thresholds[0] as real, 1);
    var n := thresholds[0];
    assert Names(legend[0], n) && Bucket(thresholds, Some(n as real)) != 0;
  }

  /** 70 km/h is named by both `70+ km/h` and `61-70 km/h`; it is drawn in the
      `61-70` colour. */
  lemma HomeSpeedLegendOverlap()
    ensures Names(HomeSpeedLegendAsWritten[0], 70) && Names(HomeSpeedLegendAsWritten[1], 70)
    ensures HomeSpeedColor(Some(70.0)) == HomeSpeedLegendAsWritten[1].color
    ensures !LabelsExact(HomeSpeedLegendAsWritten, HomeSpeedThresholds)
  {
    FirstLabelOverlap(HomeSpeedThresholds, HomeSpeedLegendAsWritten);
    ColorOfBucket(HomeSpeedThresholds, HomeSpeedColors, Some(70.0));
  }

  lemma HomeCountLegendOverlap()
    ensures Names(HomeCountLegendAsWritten[0], 2000) && Names(HomeCountLegendAsWritten[1], 2000)
    ensures HomeCountColor(Some(2000.0)) == HomeCountLegendAsWritten[1].color
    ensures !LabelsExact(HomeCountLegendAsWritten, HomeCountThresholds)
  {
    FirstLabelOverlap(HomeCountThresholds, HomeCountLegendAsWritten);
    ColorOfBucket(HomeCountThresholds, HomeCountColors, Some(2000.0));
  }

  lemma Home4SpeedLegendOverlap()
    ensures Names(Home4SpeedLegendAsWritten[0], 80) && Names(Home4SpeedLegendAsWritten[1], 80)
    ensures Home4SpeedColor(Some(80.0)) == Home4SpeedLegendAsWritten[1].color
    ensures !LabelsExact(Home4SpeedLegendAsWritten, Home4SpeedThresholds)
  {
    FirstLabelOverlap(Home4SpeedThresholds, Home4SpeedLegendAsWritten);
    ColorOfBucket(Home4SpeedThresholds, Home4SpeedColors, Some(80.0));
  }

  lemma Home4CountLegendOverlap()
    ensures Names(Home4CountLegendAsWritten[0], 200) && Names(Home4CountLegendAsWritten[1], 200)
    ensures Home4CountColor(Some(200.0)) == Home4CountLegendAsWritten[1].color
    ensures !LabelsExact(Home4CountLegendAsWritten, Home4CountThresholds)
  {
    FirstLabelOverlap(Home4CountThresholds, Home4CountLegendAsWritten);
    ColorOfBucket(Home4CountThresholds, Home4CountColors, Some(200.0));
  }

  /** A segment without a value (null or NaN) gets the last colour: `0 km/h`
      on the speed scales. */
  lemma MissingValueColor()
    ensures HomeSpeedColor(None) == "#D73027" && HomeCountColor(None) == "#66BD63"
    ensures Home4SpeedColor(None) == "#D32F2F" && Home4CountColor(None) == "#4CAF50"
  {
    ColorOfBucket(HomeSpeedThresholds, HomeSpeedColors, None);
    ColorOfBucket(HomeCountThresholds, HomeCountColors, None);
    ColorOfBucket(Home4SpeedThresholds, Home4SpeedColors, None);
    ColorOfBucket(Home4CountThresholds, Home4CountColors, None);
  }
}
