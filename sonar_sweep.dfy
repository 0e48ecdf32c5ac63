/** Sonar sweep: how often the measured depth increases, reading by reading
    or over sliding windows of readings. */
module SonarSweep {
  import opened Outcome

  // ---------------------------------------------------------------------------
  // Specification functions
  // ---------------------------------------------------------------------------

  /** Mathematical sum of a sequence, added up from the left. */
  function Sum(s: seq<int>): int
  {
    if s == [] then 0 else Sum(s[..|s| - 1]) + s[|s| - 1]
  }

  /** Rust's `iter().sum()` over `u32` values with overflow checks: the
      running total is kept in a `u32` and the fold stops at the first
      addition that does not fit. Because every term is non-negative, it
      fails exactly when the mathematical sum does not fit. */
  function CheckedSum(s: seq<u32>): (r: Result<u32>)
    ensures Sum(s) <= U32_MAX ==> r == Ok(Sum(s))
    ensures Sum(s) > U32_MAX ==> r == Err(Overflow)
  {
    if s == [] then Ok(0)
    else
      match CheckedSum(s[..|s| - 1])
      case Err(e) => Err(e)
      case Ok(total) =>
        if total + s[|s| - 1] > U32_MAX then Err(Overflow) else Ok(total + s[|s| - 1])
  }

  /** `depths[n..n + w].iter().sum()`: the checked `u32` sum of one window. */
  function CheckedWindowSum(d: seq<u32>, n: nat, w: nat): (r: Result<u32>)
    requires n + w <= |d|
    ensures WindowSum(d, n, w) <= U32_MAX ==> r.Ok? && r.value as int == WindowSum(d, n, w)
    ensures WindowSum(d, n, w) > U32_MAX ==> r == Err(Overflow)
  {
    CheckedSum(d[n..n + w])
  }

  /** Number of positions whose element is strictly greater than the one before. */
  function Rises(s: seq<int>): (r: nat)
    ensures |s| > 0 ==> r <= |s| - 1
  {
    if |s| < 2 then 0
    else Rises(s[..|s| - 1]) + (if s[|s| - 1] > s[|s| - 2] then 1 else 0)
  }

  /** Position `i` holds a strictly greater element than position `i - 1`. */
  predicate RiseAt(s: seq<int>, i: int)
    requires 1 <= i < |s|
  {
    s[i] > s[i - 1]
  }

  /** The positions `i` in `[1, |s|)` with `s[i] > s[i - 1]`. */
  ghost function RiseIndices(s: seq<int>): set<int>
  {
    set i | 1 <= i < |s| && RiseAt(s, i)
  }

  /** Counting the rises of one more element adds one exactly when that element rises. */
  lemma RisesExtend(s: seq<int>, n: nat)
    requires 1 <= n < |s|
    ensures Rises(s[..n + 1]) == Rises(s[..n]) + (if s[n] > s[n - 1] then 1 else 0)
  {
    assert s[..n + 1][..n] == s[..n];
  }

  /** Sum of the window of `w` readings that starts at index `n`. */
  function WindowSum(d: seq<int>, n: nat, w: nat): int
    requires n + w <= |d|
  {
    Sum(d[n..n + w])
  }

  /** The window starting at `n` sums to more than the window starting at `n - 1`. */
  predicate WindowRiseAt(d: seq<int>, n: int, w: nat)
    requires 1 <= n && n + w <= |d|
  {
    WindowSum(d, n, w) > WindowSum(d, n - 1, w)
  }

  /** The sums of all `|d| - w + 1` windows of size `w`, in order. */
  function WindowSums(d: seq<int>, w: nat): (r: seq<int>)
    requires w <= |d|
    ensures |r| == |d| - w + 1
  {
    seq(|d| - w + 1, n requires 0 <= n < |d| - w + 1 => WindowSum(d, n, w))
  }

  /** Number of windows among the first `n` whose sum is greater than the sum
      of the window before it. */
  function RisingWindows(d: seq<int>, w: nat, n: nat): (r: nat)
    requires n + w <= |d| + 1
    ensures n >= 1 ==> r <= n - 1
  {
    if n < 2 then 0
    else RisingWindows(d, w, n - 1) + (if WindowSum(d, n - 1, w) > WindowSum(d, n - 2, w) then 1 else 0)
  }

  /** Every window sum fits in a `u32`. */
  predicate WindowsFit(d: seq<u32>, w: nat)
    requires w <= |d|
  {
    forall n :: 0 <= n <= |d| - w ==> WindowSum(d, n, w) <= U32_MAX
  }

  /** What `calculate_num_depth_increases` produces: an error for fewer than
      two readings, otherwise the number of readings above their predecessor. */
  function DepthIncreases(d: seq<u32>): (r: Result<nat>)
    ensures r.Err? <==> |d| < 2
    ensures r.Ok? ==> r.value == |RiseIndices(d)| && r.value <= |d| - 1
  {
    if |d| < 2 then Err(InvalidInput)
    else
      RisesCountsRiseIndices(d);
      Ok(Rises(d))
  }

  /** What `calculate_windowed_num_depth_increases` produces: an error when
      there are fewer readings than one window, an overflow when some window
      sum does not fit in a `u32`, otherwise the number of window sums above
      the previous window sum. */
  function WindowedDepthIncreases(d: seq<u32>, w: nat): (r: Result<nat>)
    ensures r == Err(InvalidInput) <==> |d| < w
    ensures r.Ok? ==> r.value <= |d| - w
  {
    if |d| < w then Err(InvalidInput)
    else if !WindowsFit(d, w) then Err(Overflow)
    else Ok(RisingWindows(d, w, |d| - w + 1))
  }

  // ---------------------------------------------------------------------------
  // The two counters, as the loops they are in the source
  // ---------------------------------------------------------------------------

  /** `calculate_num_depth_increases`: one pass remembering the previous reading. */
  method CalculateNumDepthIncreases(depths: seq<u32>) returns (r: Result<nat>)
    ensures r == DepthIncreases(depths)
    ensures r.Err? <==> |depths| < 2
    ensures r.Ok? ==> r.value == |RiseIndices(depths)| && r.value <= |depths| - 1
  {
    if |depths| < 2 {
      return Err(InvalidInput);
    }
    var prevDepth := depths[0];
    var increases := 0;
    for i := 1 to |depths|
      invariant prevDepth == depths[i - 1]
      invariant increases == Rises(depths[..i])
    {
      var d := depths[i];
      RisesExtend(depths, i);
      if d > prevDepth {
        increases := increases + 1;
      }
      prevDepth := d;
    }
    assert depths[..|depths|] == depths;
    return Ok(increases);
  }

  /** `calculate_windowed_num_depth_increases`: each window is summed afresh
      with a checked `u32` sum and compared with the previous window's sum. */
  method CalculateWindowedNumDepthIncreases(depths: seq<u32>, windowSize: nat) returns (r: Result<nat>)
    ensures r == WindowedDepthIncreases(depths, windowSize)
    ensures r == Err(InvalidInput) <==> |depths| < windowSize
    ensures r.Ok? ==> r.value <= |depths| - windowSize
  {
    if |depths| < windowSize {
      return Err(InvalidInput);
    }
    var first := CheckedWindowSum(depths, 0, windowSize);
    if first.Err? {
      OverflowingWindowFails(depths, windowSize, 0);
      return Err(Overflow);
    }
    var prevSum := first.value;
    var increases := 0;
    for n := 1 to |depths| - windowSize + 1
      invariant prevSum as int == WindowSum(depths, n - 1, windowSize)
      invariant forall k :: 0 <= k < n ==> WindowSum(depths, k, windowSize) <= U32_MAX
      invariant increases == RisingWindows(depths, windowSize, n)
    {
      var next := CheckedWindowSum(depths, n, windowSize);
      if next.Err? {
        OverflowingWindowFails(depths, windowSize, n);
        return Err(Overflow);
      }
      var newSum := next.value;
      if newSum > prevSum {
        increases := increases + 1;
      }
      prevSum := newSum;
    }
    return Ok(increases);
  }

  /** Counting the rising windows is counting the rises of the sequence of window sums. */
  lemma {:induction false} RisingWindowsAreRises(d: seq<int>, w: nat, n: nat)
    requires 1 <= n && n + w <= |d| + 1
    ensures RisingWindows(d, w, n) == Rises(WindowSums(d, w)[..n])
  {
    var sums := WindowSums(d, w);
    if n == 1 {
    } else {
      RisingWindowsAreRises(d, w, n - 1);
      RisesExtend(sums, n - 1);
    }
  }

  /** A window whose sum does not fit makes the whole windowed count overflow. */
  lemma OverflowingWindowFails(d: seq<u32>, w: nat, n: nat)
    requires n + w <= |d| && WindowSum(d, n, w) > U32_MAX
    ensures WindowedDepthIncreases(d, w) == Err(Overflow)
  {
  }

  // ---------------------------------------------------------------------------
  // Properties
  // ---------------------------------------------------------------------------

  /** The recursive count is the number of rising positions. */
  lemma {:induction false} RisesCountsRiseIndices(s: seq<int>)
    ensures Rises(s) == |RiseIndices(s)|
  {
    if |s| < 2 {
      assert RiseIndices(s) == {};
    } else {
      var last := |s| - 1;
      var init := s[..last];
      RisesCountsRiseIndices(init);
      var step := if s[last] > s[last - 1] then {last} else {};
      assert RiseIndices(s) == RiseIndices(init) + step;
      assert last !in RiseIndices(init);
    }
  }

  /** Adding a reading in front adds it to the sum. */
  lemma {:induction false} SumPrepend(x: int, s: seq<int>)
    ensures Sum([x] + s) == x + Sum(s)
  {
    if s != [] {
      var t := [x] + s;
      assert t[..|t| - 1] == [x] + s[..|s| - 1];
      SumPrepend(x, s[..|s| - 1]);
    }
  }

  /** Rolling sum: the next window's sum is the previous one minus the reading
      that leaves and plus the reading that enters, so summing each window
      afresh and updating a running sum give the same window sums. */
  lemma RollingWindowSum(d: seq<int>, n: nat, w: nat)
    requires 1 <= n && n + w <= |d|
    ensures WindowSum(d, n, w) == WindowSum(d, n - 1, w) - d[n - 1] + d[n - 1 + w]
  {
    if w > 0 {
      var mid := d[n..n - 1 + w];
      assert d[n - 1..n - 1 + w] == [d[n - 1]] + mid;
      SumPrepend(d[n - 1], mid);
      assert d[n..n + w][..w - 1] == mid;
    }
  }

  /** A window sum rises exactly when the reading entering the window is
      greater than the one leaving it. */
  lemma WindowRiseIff(d: seq<int>, n: nat, w: nat)
    requires 1 <= n && n + w <= |d|
    ensures WindowSum(d, n, w) > WindowSum(d, n - 1, w) <==> d[n - 1 + w] > d[n - 1]
  {
    RollingWindowSum(d, n, w);
  }

  /** The windowed count is the number of windows whose sum is greater than
      the previous window's sum. */
  lemma WindowedCountsRisingWindows(d: seq<u32>, w: nat)
    requires w <= |d| && WindowsFit(d, w)
    ensures WindowedDepthIncreases(d, w)
      == Ok(|set n | 1 <= n < |d| - w + 1 && WindowRiseAt(d, n, w)|)
  {
    var sums := WindowSums(d, w);
    RisingWindowsAreRises(d, w, |sums|);
    assert sums[..|sums|] == sums;
    RisesCountsRiseIndices(sums);
    var rising := set n | 1 <= n < |d| - w + 1 && WindowRiseAt(d, n, w);
    forall n
      ensures n in RiseIndices(sums) <==> n in rising
    {
      if 1 <= n < |sums| {
        assert sums[n] == WindowSum(d, n, w) && sums[n - 1] == WindowSum(d, n - 1, w);
      }
    }
    assert RiseIndices(sums) == rising;
  }

  /** A window of one reading sums to that reading. */
  lemma WindowOfOne(d: seq<int>, n: nat)
    requires n < |d|
    ensures WindowSum(d, n, 1) == d[n]
  {
    var one := d[n..n + 1];
    assert one[..0] == [] && one[0] == d[n];
    assert Sum(one) == Sum(one[..0]) + one[0];
  }

  /** With a window of one reading the windowed counter agrees with the
      adjacent counter on every input except a single reading. */
  lemma WindowSizeOneIsAdjacent(d: seq<u32>)
    requires |d| != 1
    ensures WindowedDepthIncreases(d, 1) == DepthIncreases(d)
  {
    if |d| == 0 {
      assert WindowedDepthIncreases(d, 1) == Err(InvalidInput);
      return;
    }
    forall n | 0 <= n < |d|
      ensures WindowSum(d, n, 1) == d[n]
    {
      WindowOfOne(d, n);
    }
    assert WindowsFit(d, 1);
    RisingWindowsAreRises(d, 1, |d|);
    assert WindowSums(d, 1)[..|d|] == d;
    assert WindowedDepthIncreases(d, 1) == Ok(Rises(d));
  }

  /** When the input is exactly one window long there is nothing to compare:
      the count is zero, unless that single sum already overflows. */
  lemma SingleWindowCountsZero(d: seq<u32>)
    ensures WindowedDepthIncreases(d, |d|)
      == if Sum(d) <= U32_MAX then Ok(0) else Err(Overflow)
  {
    assert d[0..|d|] == d;
    assert WindowSum(d, 0, |d|) == Sum(d);
  }

  /** A window size of zero is accepted: every window sum is zero and never rises. */
  lemma EmptyWindowCountsZero(d: seq<u32>)
    ensures WindowedDepthIncreases(d, 0) == Ok(0)
  {
    var sums := WindowSums(d, 0);
    forall n | 0 <= n < |sums|
      ensures sums[n] == 0
    {
      assert d[n..n] == [];
    }
    RisingWindowsAreRises(d, 0, |sums|);
    assert sums[..|sums|] == sums;
    RisesCountsRiseIndices(sums);
    assert RiseIndices(sums) == {};
  }

  /** On a single reading the two counters part ways: window size 1 leaves the
      loop range empty and yields 0, while the adjacent counter rejects the input. */
  lemma SingleReadingCountersDisagree(x: u32)
    ensures WindowedDepthIncreases([x], 1) == Ok(0)
    ensures DepthIncreases([x]) == Err(InvalidInput)
  {
    WindowOfOne([x], 0);
  }
}
