/** The worked examples of the puzzle statement, as the unit tests of the
    source check them. */
module Scenarios {
  import opened Outcome
  import opened SonarSweep
  import opened Dive

  /** The ten sample sonar readings. */
  const SampleDepths: seq<u32> := [199, 200, 208, 210, 200, 207, 240, 269, 260, 263]

  /** The six sample moves. */
  const SampleCourse: seq<Move> := [
    Move(Forward, 5), Move(Down, 5), Move(Forward, 8),
    Move(Up, 3), Move(Down, 8), Move(Forward, 2)
  ]

  /** Three of the first five sample readings are deeper than the one before. */
  lemma SampleRisesOfFirstFive()
    ensures Rises(SampleDepths[..5]) == 3
  {
    var d := SampleDepths;
    assert Rises(d[..1]) == 0;
    RisesExtend(d, 1);
    assert Rises(d[..2]) == 1;
    RisesExtend(d, 2);
    assert Rises(d[..3]) == 2;
    RisesExtend(d, 3);
    assert Rises(d[..4]) == 3;
    RisesExtend(d, 4);
    assert Rises(d[..5]) == 3;
  }

  /** Seven of the sample readings are deeper than the one before. */
  lemma SampleDepthIncreases()
    ensures DepthIncreases(SampleDepths) == Ok(7)
  {
    var d := SampleDepths;
    SampleRisesOfFirstFive();
    RisesExtend(d, 5);
    assert Rises(d[..6]) == 4;
    RisesExtend(d, 6);
    assert Rises(d[..7]) == 5;
    RisesExtend(d, 7);
    assert Rises(d[..8]) == 6;
    RisesExtend(d, 8);
    assert Rises(d[..9]) == 6;
    RisesExtend(d, 9);
    assert Rises(d[..10]) == 7;
    assert d[..10] == d;
  }

  /** The sums of the eight windows of three sample readings. */
  lemma SampleWindowSumsOfThree()
    ensures WindowSum(SampleDepths, 0, 3) == 607 && WindowSum(SampleDepths, 1, 3) == 618
    ensures WindowSum(SampleDepths, 2, 3) == 618 && WindowSum(SampleDepths, 3, 3) == 617
    ensures WindowSum(SampleDepths, 4, 3) == 647 && WindowSum(SampleDepths, 5, 3) == 716
    ensures WindowSum(SampleDepths, 6, 3) == 769 && WindowSum(SampleDepths, 7, 3) == 792
  {
    WindowOfThree(SampleDepths, 0);
    WindowOfThree(SampleDepths, 1);
    WindowOfThree(SampleDepths, 2);
    WindowOfThree(SampleDepths, 3);
    WindowOfThree(SampleDepths, 4);
    WindowOfThree(SampleDepths, 5);
    WindowOfThree(SampleDepths, 6);
    WindowOfThree(SampleDepths, 7);
  }

  /** With windows of one reading the count is again seven. */
  lemma SampleWindowedByOne()
    ensures WindowedDepthIncreases(SampleDepths, 1) == Ok(7)
  {
    SampleDepthIncreases();
    WindowSizeOneIsAdjacent(SampleDepths);
  }

  /** With windows of three readings five window sums rise, and none overflows. */
  lemma SampleWindowedByThree()
    ensures WindowedDepthIncreases(SampleDepths, 3) == Ok(5)
  {
    var d := SampleDepths;
    SampleWindowSumsOfThree();
    assert WindowsFit(d, 3);
    assert RisingWindows(d, 3, 2) == 1;
    assert RisingWindows(d, 3, 3) == 1;
    assert RisingWindows(d, 3, 4) == 1;
    assert RisingWindows(d, 3, 5) == 2;
    assert RisingWindows(d, 3, 6) == 3;
    assert RisingWindows(d, 3, 7) == 4;
    assert RisingWindows(d, 3, 8) == 5;
  }

  /** A window of three readings sums to those three readings. */
  lemma WindowOfThree(d: seq<int>, n: nat)
    requires n + 3 <= |d|
    ensures WindowSum(d, n, 3) == d[n] + d[n + 1] + d[n + 2]
  {
    var a, b, c := d[n], d[n + 1], d[n + 2];
    assert [a][..0] == [];
    assert Sum([a]) == a;
    assert [a, b][..1] == [a];
    assert Sum([a, b]) == a + b;
    assert [a, b, c][..2] == [a, b];
    assert d[n..n + 3] == [a, b, c];
  }

  /** A single reading is rejected rather than counted as zero increases. */
  lemma SingleReadingRejected()
    ensures DepthIncreases([199]) == Err(InvalidInput)
    ensures WindowedDepthIncreases([199], 3) == Err(InvalidInput)
  {
  }

  /** The sample course ends 15 units forward at depth 10, whose product is 150. */
  lemma SampleCourseEndsAt()
    ensures Course(SampleCourse) == Ok(Position(15, 10))
    ensures Course(SampleCourse).value.horizontal * Course(SampleCourse).value.depth == 150
  {
    var c := SampleCourse;
    assert c[..0] == [];
    assert c[..1][..0] == c[..0];
    assert Course(c[..1]) == Ok(Position(5, 0));
    assert c[..2][..1] == c[..1];
    assert Course(c[..2]) == Ok(Position(5, 5));
    assert c[..3][..2] == c[..2];
    assert Course(c[..3]) == Ok(Position(13, 5));
    assert c[..4][..3] == c[..3];
    assert Course(c[..4]) == Ok(Position(13, 2));
    assert c[..5][..4] == c[..4];
    assert Course(c[..5]) == Ok(Position(13, 10));
    assert c[..6][..5] == c[..5];
    assert c[..6] == c;
  }
}
