/** Dive: where the submarine ends up after following a planned course. */
module Dive {
  import opened Outcome

  /** The closed set of directions a course may contain. */
  datatype Direction = Forward | Up | Down

  /** One planned command: a direction and how far to go. */
  datatype Move = Move(direction: Direction, distance: u32)

  /** The `(x_pos, y_pos)` pair: horizontal position and depth, both `u32`. */
  datatype Position = Position(horizontal: u32, depth: u32)

  // ---------------------------------------------------------------------------
  // Specification functions
  // ---------------------------------------------------------------------------

  /** Sum of the distances of the moves that go in direction `dir`. */
  function Total(moves: seq<Move>, dir: Direction): nat
  {
    if moves == [] then 0
    else
      var last := moves[|moves| - 1];
      Total(moves[..|moves| - 1], dir) + (if last.direction == dir then last.distance else 0)
  }

  /** Horizontal position after the moves, in unbounded arithmetic. */
  function Horizontal(moves: seq<Move>): int
  {
    Total(moves, Forward)
  }

  /** Depth after the moves, in unbounded arithmetic: it may be negative. */
  function Depth(moves: seq<Move>): int
  {
    Total(moves, Down) - Total(moves, Up)
  }

  /** Both coordinates after the moves can be held in a `u32`. */
  predicate InRange(moves: seq<Move>)
  {
    Horizontal(moves) <= U32_MAX && 0 <= Depth(moves) <= U32_MAX
  }

  /** Every prefix of the course, the empty one included, stays in `u32` range:
      the depth never goes above the surface and neither coordinate overflows. */
  predicate StaysInRange(moves: seq<Move>)
  {
    forall k :: 0 <= k <= |moves| ==> InRange(moves[..k])
  }

  /** One iteration of the loop of `calculate_position`, with the overflow
      checks of a debug build: `+=` past U32_MAX and `-=` below zero stop the
      computation. */
  function Step(p: Position, m: Move): (r: Result<Position>)
    ensures r.Ok? <==>
      p.horizontal + Horizontal([m]) <= U32_MAX && 0 <= p.depth + Depth([m]) <= U32_MAX
    ensures r.Ok? ==>
      r.value.horizontal == p.horizontal + Horizontal([m]) && r.value.depth == p.depth + Depth([m])
    ensures r.Err? ==> r.error == (if m.direction == Up then Underflow else Overflow)
  {
    assert [m][..0] == [];
    assert Total([m], Forward) == if m.direction == Forward then m.distance else 0;
    assert Total([m], Up) == if m.direction == Up then m.distance else 0;
    assert Total([m], Down) == if m.direction == Down then m.distance else 0;
    match m.direction
    case Forward =>
      if p.horizontal + m.distance > U32_MAX then Err(Overflow)
      else Ok(p.(horizontal := p.horizontal + m.distance))
    case Up =>
      if p.depth < m.distance then Err(Underflow)
      else Ok(p.(depth := p.depth - m.distance))
    case Down =>
      if p.depth + m.distance > U32_MAX then Err(Overflow)
      else Ok(p.(depth := p.depth + m.distance))
  }

  /** The moves applied in order from `(0, 0)`; the first failing step decides the outcome. */
  function Course(moves: seq<Move>): (r: Result<Position>)
    ensures r.Ok? ==> r.value.horizontal == Horizontal(moves) && r.value.depth == Depth(moves)
  {
    if moves == [] then Ok(Position(0, 0))
    else
      match Course(moves[..|moves| - 1])
      case Err(e) => Err(e)
      case Ok(p) => Step(p, moves[|moves| - 1])
  }

  // ---------------------------------------------------------------------------
  // The tracker, as the loop it is in the source
  // ---------------------------------------------------------------------------

  /** `calculate_position`: fold the moves into `x_pos` and `y_pos`. */
  method CalculatePosition(moves: seq<Move>) returns (r: Result<Position>)
    ensures r == Course(moves)
    ensures r.Ok? <==> StaysInRange(moves)
    ensures r.Ok? ==> r.value.horizontal == Horizontal(moves) && r.value.depth == Depth(moves)
  {
    var xPos: u32 := 0;
    var yPos: u32 := 0;
    for i := 0 to |moves|
      invariant Course(moves[..i]) == Ok(Position(xPos, yPos))
    {
      var movement := moves[i];
      assert moves[..i + 1][..i] == moves[..i];
      assert Course(moves[..i + 1]) == Step(Position(xPos, yPos), movement);
      match movement.direction {
        case Forward =>
          if xPos + movement.distance > U32_MAX {
            FailureSticks(moves, i + 1);
            CourseMeaning(moves);
            return Err(Overflow);
          }
          xPos := xPos + movement.distance;
        case Up =>
          if yPos < movement.distance {
            FailureSticks(moves, i + 1);
            CourseMeaning(moves);
            return Err(Underflow);
          }
          yPos := yPos - movement.distance;
        case Down =>
          if yPos + movement.distance > U32_MAX {
            FailureSticks(moves, i + 1);
            CourseMeaning(moves);
            return Err(Overflow);
          }
          yPos := yPos + movement.distance;
      }
    }
    assert moves[..|moves|] == moves;
    CourseMeaning(moves);
    return Ok(Position(xPos, yPos));
  }

  // ---------------------------------------------------------------------------
  // Properties
  // ---------------------------------------------------------------------------

  /** Once a prefix of the course fails, the whole course fails the same way. */
  lemma {:induction false} FailureSticks(moves: seq<Move>, k: nat)
    requires k <= |moves| && Course(moves[..k]).Err?
    ensures Course(moves) == Course(moves[..k])
    decreases |moves| - k
  {
    if k < |moves| {
      var init := moves[..|moves| - 1];
      assert init[..k] == moves[..k];
      FailureSticks(init, k);
    } else {
      assert moves[..k] == moves;
    }
  }

  /** The course succeeds exactly when no prefix leaves the `u32` range, and
      then it ends at the sum of the Forward distances and at the sum of the
      Down distances minus the sum of the Up distances. */
  lemma {:induction false} CourseMeaning(moves: seq<Move>)
    ensures Course(moves).Ok? <==> StaysInRange(moves)
    ensures Course(moves).Ok? ==>
      Course(moves).value.horizontal == Horizontal(moves) && Course(moves).value.depth == Depth(moves)
  {
    if moves == [] {
      assert moves[..0] == [];
    } else {
      var init := moves[..|moves| - 1];
      CourseMeaning(init);
      LastMoveAdds(moves);
      StaysInRangeExtend(moves);
    }
  }

  /** The last move adds its own displacement to that of the moves before it. */
  lemma LastMoveAdds(moves: seq<Move>)
    requires |moves| > 0
    ensures Horizontal(moves) == Horizontal(moves[..|moves| - 1]) + Horizontal([moves[|moves| - 1]])
    ensures Depth(moves) == Depth(moves[..|moves| - 1]) + Depth([moves[|moves| - 1]])
  {
    var m := moves[|moves| - 1];
    assert [m][..0] == [];
    assert Total([m], Forward) == if m.direction == Forward then m.distance else 0;
    assert Total([m], Up) == if m.direction == Up then m.distance else 0;
    assert Total([m], Down) == if m.direction == Down then m.distance else 0;
  }

  /** A course stays in range exactly when the course without its last move
      does and the whole course ends in range. */
  lemma StaysInRangeExtend(moves: seq<Move>)
    requires |moves| > 0
    ensures StaysInRange(moves) <==> StaysInRange(moves[..|moves| - 1]) && InRange(moves)
  {
    var init := moves[..|moves| - 1];
    assert forall k :: 0 <= k <= |init| ==> moves[..k] == init[..k];
    assert moves[..|moves|] == moves;
  }
}
