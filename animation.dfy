/** The frame stepper embedded in both dashboard pages as JavaScript: an index
    into the list of available times that is clamped into the selected range
    `[start, end]` and then advanced once per timer tick, wrapping back to
    `start` after `end`. The timer itself (`setInterval`) is modelled as a
    sequence of calls to `Tick`; rendering a frame is not modelled. */
module Animation {
  import opened Frames

  /** The index a tick moves to: one further, or back to `start` once past `end`. */
  function NextFrame(start: int, end: int, i: int): (j: int)
    ensures start <= i <= end ==> start <= j <= end
    ensures j == i + 1 || j == start
    ensures i + 1 <= end ==> j == i + 1
  {
    if i + 1 <= end then i + 1 else start
  }

  /** The guard of `initMap` and `startAnimation`: an index outside `[start, end]`
      is replaced by `start`. */
  function ClampFrame(start: int, end: int, i: int): (j: int)
    ensures start <= i <= end ==> j == i
    ensures start <= end ==> start <= j <= end
    ensures end < start ==> j == start
  {
    if i < start || i > end then start else i
  }

  /** Clamping twice is clamping once. */
  lemma ClampIdempotent(start: int, end: int, i: int)
    ensures ClampFrame(start, end, ClampFrame(start, end, i)) == ClampFrame(start, end, i)
  {
  }

  /** The index after `n` ticks from `i`. */
  function AfterTicks(start: int, end: int, i: int, n: nat): int
  {
    if n == 0 then i else NextFrame(start, end, AfterTicks(start, end, i, n - 1))
  }

  /** A positive multiple of `m` is at least `m`. */
  lemma {:induction false} MulAtLeast(a: int, m: int)
    requires a >= 1 && m > 0
    ensures a * m >= m
    decreases a
  {
    if a > 1 {
      MulAtLeast(a - 1, m);
      assert a * m == (a - 1) * m + m;
    }
  }

  /** `x % m` is determined by any decomposition `x == q * m + r` with `0 <= r < m`. */
  lemma ModUnique(x: int, m: int, q: int, r: int)
    requires m > 0 && 0 <= r < m && x == q * m + r
    ensures x % m == r
  {
    var q', r' := x / m, x % m;
    assert x == q' * m + r';
    assert (q - q') * m == r' - r by {
      assert (q - q') * m == q * m - q' * m;
    }
    if q > q' {
      MulAtLeast(q - q', m);
      assert false;
    } else if q < q' {
      MulAtLeast(q' - q, m);
      assert false;
    }
  }

  /** Adding one whole round leaves the remainder unchanged. */
  lemma ModPeriodic(x: int, m: int)
    requires m > 0
    ensures (x + m) % m == x % m
  {
    assert x == (x / m) * m + x % m;
    assert (x / m + 1) * m == (x / m) * m + m;
    ModUnique(x + m, m, x / m + 1, x % m);
  }

  /** The position inside a range of `m` frames after one more step. */
  lemma ModSucc(x: nat, m: int)
    requires m > 0
    ensures x % m + 1 < m ==> (x + 1) % m == x % m + 1
    ensures x % m + 1 == m ==> (x + 1) % m == 0
  {
    var q := x / m;
    assert x == q * m + x % m;
    if x % m + 1 < m {
      ModUnique(x + 1, m, q, x % m + 1);
    } else {
      ModUnique(x + 1, m, q + 1, 0);
    }
  }

  /** From inside the range, `n` ticks move `n` frames on, counted round the
      range of `end - start + 1` frames. */
  lemma {:induction false} AfterTicksClosedForm(start: int, end: int, i: int, n: nat)
    requires start <= i <= end
    ensures AfterTicks(start, end, i, n) == start + (i - start + n) % (end - start + 1)
  {
    var m := end - start + 1;
    if n == 0 {
      ModUnique(i - start, m, 0, i - start);
    } else {
      AfterTicksClosedForm(start, end, i, n - 1);
      ModSucc(i - start + n - 1, m);
    }
  }

  /** Ticking never leaves the range it started in. */
  lemma {:induction false} AfterTicksInRange(start: int, end: int, i: int, n: nat)
    requires start <= i <= end
    ensures start <= AfterTicks(start, end, i, n) <= end
  {
    if n > 0 {
      AfterTicksInRange(start, end, i, n - 1);
    }
  }

  /** Every frame of the range is shown within one round of `end - start + 1`
      ticks, whatever frame the animation starts from. */
  lemma AfterTicksVisitsAll(start: int, end: int, i: int, k: int)
    requires start <= i <= end && start <= k <= end
    ensures exists n: nat :: n < end - start + 1 && AfterTicks(start, end, i, n) == k
  {
    var m := end - start + 1;
    var n: nat := if k >= i then k - i else k - i + m;
    AfterTicksClosedForm(start, end, i, n);
    if k >= i {
      ModUnique(i - start + n, m, 0, k - start);
    } else {
      ModUnique(i - start + n, m, 1, k - start);
    }
  }

  /** After a whole round of ticks the animation is back on the frame it left. */
  lemma AfterTicksPeriodic(start: int, end: int, i: int, n: nat)
    requires start <= i <= end
    ensures AfterTicks(start, end, i, n + (end - start + 1)) == AfterTicks(start, end, i, n)
  {
    var m := end - start + 1;
    AfterTicksClosedForm(start, end, i, n);
    AfterTicksClosedForm(start, end, i, n + m);
    ModPeriodic(i - start + n, m);
  }

  /** `availableTimes[i]` in JavaScript: the time at position `i`, or `undefined`
      when `i` is not a position of the list. */
  function FrameAt(available: seq<string>, i: int): (r: Option<string>)
    ensures r.Some? <==> 0 <= i < |available|
    ensures r.Some? ==> r.value in available
  {
    if 0 <= i < |available| then Some(available[i]) else None
  }

  /** The animation state of one rendered page: the range handed over by the
      page, the current frame index, and whether the timer is running. */
  class FrameStepper {
    const start: int
    const end: int
    var index: int
    var playing: bool

    /** The index is in the range; when the page hands over an empty range
        (`end < start`) every guard sends it to `start`. */
    predicate Valid()
      reads this
    {
      index == ClampFrame(start, end, index)
    }

    /** `initMap`: take the page's current index, clamp it, and restart the
        timer when the page was playing. */
    constructor InitMap(start: int, end: int, initial: int, autoPlay: bool)
      ensures this.start == start && this.end == end
      ensures index == ClampFrame(start, end, initial)
      ensures playing == autoPlay
      ensures Valid()
    {
      this.start := start;
      this.end := end;
      index := ClampFrame(start, end, initial);
      playing := autoPlay;
      ClampIdempotent(start, end, initial);
    }

    /** `startAnimation`: clamp the index and start the timer. */
    method StartAnimation()
      modifies this
      ensures index == ClampFrame(start, end, old(index))
      ensures playing
      ensures Valid()
    {
      ClampIdempotent(start, end, index);
      index := ClampFrame(start, end, index);
      playing := true;
    }

    /** One timer callback: advance, wrapping to `start` past `end`. */
    method Tick()
      requires Valid() && playing
      modifies this
      ensures index == NextFrame(start, end, old(index))
      ensures playing
      ensures Valid()
    {
      index := index + 1;
      if index > end {
        index := start;
      }
    }

    /** `stopAnimation`: the timer stops and the frame stays where it is. */
    method StopAnimation()
      modifies this
      ensures !playing && index == old(index)
      ensures Valid() == old(Valid())
    {
      playing := false;
    }

    /** `n` callbacks of the running timer. */
    method RunTicks(n: nat)
      requires Valid() && playing
      modifies this
      ensures index == AfterTicks(start, end, old(index), n)
      ensures playing && Valid()
    {
      var k := 0;
      while k < n
        invariant 0 <= k <= n
        invariant index == AfterTicks(start, end, old(index), k)
        invariant playing && Valid()
      {
        Tick();
        k := k + 1;
      }
    }
  }

  /** The whole life of a page that starts playing: whatever index the page
      hands over, every frame shown lies in `[start, end]`. */
  method PlayFromLoad(start: int, end: int, initial: int, n: nat) returns (shown: int)
    requires start <= end
    ensures start <= shown <= end
    ensures shown == AfterTicks(start, end, ClampFrame(start, end, initial), n)
  {
    var s := new FrameStepper.InitMap(start, end, initial, true);
    s.RunTicks(n);
    AfterTicksInRange(start, end, ClampFrame(start, end, initial), n);
    shown := s.index;
  }
}
