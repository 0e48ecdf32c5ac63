# Advent of Code 2021, days 1 and 2 — a verified Dafny model

This project models the puzzle logic of `src/main.rs`:

- **Sonar sweep** (day 1, module `SonarSweep`, `sonar_sweep.dfy`). From a
  sequence of `u32` depth readings, `calculate_num_depth_increases` counts the
  readings that are strictly deeper than the one before. From the same readings
  and a window size, `calculate_windowed_num_depth_increases` sums every
  contiguous window and counts the window sums that exceed the previous one.
- **Dive** (day 2, module `Dive`, `dive.dfy`). `calculate_position` folds a
  course of `Move`s (`Forward`, `Up`, `Down`, each with a `u32` distance) into
  a horizontal position and a depth, starting from `(0, 0)`.
- **Scenarios** (`scenarios.dfy`): the worked examples the unit tests check.
- **Outcome** (`outcome.dfy`): `u32` as a subset type of `int`, and the
  `Result`/`Error` type that stands for the source's panics.

Each of the three Rust functions is a `for` loop over a slice with local
accumulators. Each is modelled as a Dafny method with the same loop. Each
method is proved equal to a specification function (`DepthIncreases`,
`WindowedDepthIncreases`, `Course`). Lemmas then tie those functions to
declarative meanings: a count of rising indices, a count of rising window
sums, and sums of distances filtered by direction.

Where the Rust code panics, the model returns `Err`:

- `InvalidInput`: fewer than two readings for the adjacent counter, or fewer
  readings than one window for the windowed counter.
- `Overflow`: a `u32` addition goes past `0xFFFF_FFFF`. This covers the window
  sums of `iter().sum()` and the `+=` on `x_pos` and `y_pos`.
- `Underflow`: an `Up` move takes the `u32` depth below zero.

This is the behaviour of a debug build, where integer overflow panics; Rust's
default test profile is such a build.

Facts about the code that the model makes explicit:

- `y_pos` is a `u32`, so a course whose depth would go below zero panics
  (`Underflow`), even if later moves would bring it back down.
  `Dive.CourseMeaning` states exactly which courses succeed.
- Window size 0 is accepted: every window sum is then 0 and the result is 0
  (`SonarSweep.EmptyWindowCountsZero`).
- The code sums every window afresh, and so does the model.
  `SonarSweep.RollingWindowSum` proves that a rolling update gives the same
  window sums.
- The panic messages say "more than 2 elements" and "more than window_size
  elements", but the guards accept exactly 2 and exactly `window_size`
  readings. The model follows the guards.
- On a single reading the two counters differ: with window size 1 the
  windowed counter returns 0, while the adjacent counter panics
  (`SonarSweep.SingleReadingCountersDisagree`). On every other input, window
  size 1 gives the adjacent counter's result (`SonarSweep.WindowSizeOneIsAdjacent`).

## Model

| member | source | states |
|---|---|---|
| `SonarSweep.CalculateNumDepthIncreases` | src/main.rs:86-100 | the loop returns `DepthIncreases(depths)`: `InvalidInput` exactly when there are fewer than 2 readings, otherwise the number of indices i in [1, len) with `depths[i] > depths[i-1]`, which is at most len - 1 |
| `SonarSweep.DepthIncreases` | src/main.rs:86-99 | the adjacent counter's result: `InvalidInput` exactly when there are fewer than 2 readings, otherwise the size of the set of indices i in [1, len) with `depths[i] > depths[i-1]`, at most len - 1 |
| `SonarSweep.RisesCountsRiseIndices` | src/main.rs:93-98 | the running count of rises equals the number of indices i in [1, len) with `s[i] > s[i-1]` |
| `SonarSweep.Rises` | src/main.rs:93-98 | a non-empty sequence has at most len - 1 rises |
| `SonarSweep.RisesExtend` | src/main.rs:94-97 | one more reading adds one to the count exactly when it is greater than the previous reading |
| `SonarSweep.CheckedSum` | src/main.rs:74 | the checked `u32` fold of `iter().sum()` yields the mathematical sum when it fits in `u32`, and `Overflow` exactly when it does not |
| `SonarSweep.CheckedWindowSum` | src/main.rs:77 | the checked sum of the window at `n` is that window's sum when it fits, `Overflow` otherwise |
| `SonarSweep.CalculateWindowedNumDepthIncreases` | src/main.rs:70-84 | the loop returns `WindowedDepthIncreases(depths, window_size)`: `InvalidInput` exactly when there are fewer readings than one window, `Overflow` when some window sum does not fit in `u32`, otherwise the number of window sums above the previous one, at most len - window_size |
| `SonarSweep.WindowedDepthIncreases` | src/main.rs:70-83 | the windowed counter's result: `InvalidInput` exactly when len < window_size; any count it returns is at most len - window_size |
| `SonarSweep.WindowSums` | src/main.rs:74-77 | the sums of the len - window_size + 1 windows, in the order the code computes them; `RisingWindowsAreRises` ties the loop's count to this sequence |
| `SonarSweep.RisingWindows` | src/main.rs:76-82 | among the first n windows at most n - 1 window sums can rise |
| `SonarSweep.RisingWindowsAreRises` | src/main.rs:76-82 | the loop's count of rising windows equals the number of rises in the sequence of window sums, the same count the adjacent counter applies to readings |
| `SonarSweep.OverflowingWindowFails` | src/main.rs:74-77 | any window whose sum exceeds `u32` makes the whole windowed count fail with `Overflow` |
| `SonarSweep.WindowedCountsRisingWindows` | src/main.rs:74-83 | when all window sums fit, the result is the number of n in [1, len - w + 1) with sum(depths[n..n+w]) > sum(depths[n-1..n-1+w]) |
| `SonarSweep.SumPrepend` | src/main.rs:74 | the left-to-right sum of `[x] + s` is `x` plus the sum of `s` |
| `SonarSweep.RollingWindowSum` | src/main.rs:74-77 | each window sum is the previous one minus the reading that leaves plus the reading that enters, so a rolling sum gives the same results as summing each window afresh |
| `SonarSweep.WindowRiseIff` | src/main.rs:77-78 | a window sum rises exactly when the entering reading is greater than the leaving reading |
| `SonarSweep.WindowOfOne` | src/main.rs:77 | a window of size 1 sums to its single reading |
| `SonarSweep.WindowSizeOneIsAdjacent` | src/main.rs:70-99 | for every input except a single reading (including the empty one, which both reject), the windowed counter with window size 1 returns the same result as the adjacent counter |
| `SonarSweep.SingleReadingCountersDisagree` | src/main.rs:71-88 | on one reading, window size 1 yields 0 while the adjacent counter rejects the input |
| `SonarSweep.SingleWindowCountsZero` | src/main.rs:71-76 | with exactly `window_size` readings the loop range is empty and the result is 0, unless that one sum overflows |
| `SonarSweep.EmptyWindowCountsZero` | src/main.rs:70-83 | window size 0 is accepted and always yields 0 |
| `Dive.CalculatePosition` | src/main.rs:57-68 | the loop returns `Course(moves)`. It succeeds exactly when every prefix keeps the horizontal position and the depth in `u32` range. It then ends at (sum of `Forward` distances, sum of `Down` distances minus sum of `Up` distances) |
| `Dive.Step` | src/main.rs:61-65 | one move: `Forward` adds its distance to `x_pos`, `Down` adds it to `y_pos`, `Up` subtracts it; the step succeeds exactly when the new coordinates stay in `u32` range, and a failing `Up` move is `Underflow` and a failing `Forward` or `Down` move is `Overflow` |
| `Dive.Course` | src/main.rs:57-67 | the moves applied in order from (0, 0), stopping at the first failing move; on success the result is (sum of `Forward` distances, `Down` sum minus `Up` sum) |
| `Dive.FailureSticks` | src/main.rs:60-66 | once a prefix of the moves overflows or underflows, the whole computation fails with that error |
| `Dive.LastMoveAdds` | src/main.rs:61-65 | the last move shifts the horizontal position and the depth by its own displacement alone, on top of the earlier moves |
| `Dive.StaysInRangeExtend` | src/main.rs:60-66 | a course stays in `u32` range exactly when it did before its last move and still does after it |
| `Dive.CourseMeaning` | src/main.rs:57-67 | the course succeeds exactly when no prefix leaves `u32` range, and then its result is the sum of the `Forward` distances and the `Down` sum minus the `Up` sum |
| `Scenarios.SampleRisesOfFirstFive` | src/main.rs:106-110 | three of the first five sample readings are deeper than the one before |
| `Scenarios.SampleDepthIncreases` | src/main.rs:106-110 | the ten sample readings have 7 increases |
| `Scenarios.SampleWindowSumsOfThree` | src/main.rs:114-116 | the eight window sums of size 3 over the sample are 607, 618, 618, 617, 647, 716, 769, 792 |
| `Scenarios.WindowOfThree` | src/main.rs:77 | a window of size 3 sums to its three readings |
| `Scenarios.SampleWindowedByOne` | src/main.rs:113-115 | window size 1 on the sample gives 7 |
| `Scenarios.SampleWindowedByThree` | src/main.rs:113-116 | window size 3 on the sample gives 5 |
| `Scenarios.SingleReadingRejected` | src/main.rs:71-88 | a single reading is rejected with `InvalidInput` by both counters (window 3), not counted as 0 |
| `Scenarios.SampleCourseEndsAt` | src/main.rs:119-130 | Forward 5, Down 5, Forward 8, Up 3, Down 8, Forward 2 ends at (15, 10), whose product (the day-2 answer) is 150 |

## Left out

- `main`, `day_one` and `day_two` (src/main.rs:5-43) are not modelled. They open fixed file paths, read lines and print the answers. The product `pos.0 * pos.1` is only checked on the sample, in `Scenarios.SampleCourseEndsAt`.
- The line parsing in `day_two` is not modelled: the split on a space, `parse::<u32>().unwrap()`, and the panic on an unknown direction token. The model takes validated `Move` values. Its `Direction` is the same closed three-way choice as the source's `match`.
- Release-build wrap-around is not modelled. In release builds, `+=`, `-=` and `iter().sum()` on `u32` wrap modulo 2^32 instead of panicking. The model follows the debug build.
- SonarSweep.CalculateNumDepthIncreases: keeps its counter as an unbounded `nat`. In Rust, `increases` is a `u32`, so it could overflow only with more than 2^32 readings.
- SonarSweep.CalculateWindowedNumDepthIncreases: likewise keeps its counter as an unbounded `nat`.
- Slices become Dafny sequences. The functions only read their slices, so aliasing does not matter.
