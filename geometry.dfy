/** The arena, the robot's pose and the tables that drive turning and moving. */
module Geometry {

  /** A grid position. Coordinates are unbounded integers. */
  datatype Coordinate = Coordinate(x: int, y: int)

  /** The compass direction the robot faces. */
  datatype Heading = North | South | East | West

  /** The four instructions a robot understands. */
  datatype Direction = Forward | Left | Right | Backward

  /** The instructions that move the robot rather than turn it. */
  type Movement = d: Direction | d.Forward? || d.Backward? witness Forward

  /** Per-axis extremes of the arena; the arena is the closed box they span. */
  datatype ArenaBounds = ArenaBounds(minX: int, maxX: int, minY: int, maxY: int)

  /** Heading after a quarter turn counter-clockwise. */
  function LeftTurn(h: Heading): (l: Heading)
    ensures CompassIndex(l) == (CompassIndex(h) + 3) % 4
  {
    match h
    case North => West
    case West => South
    case South => East
    case East => North
  }

  /** Heading after a quarter turn clockwise. */
  function RightTurn(h: Heading): (r: Heading)
    ensures CompassIndex(r) == (CompassIndex(h) + 1) % 4
  {
    match h
    case North => East
    case East => South
    case South => West
    case West => North
  }

  /** The unit step taken by a forward move for each heading. */
  function MoveVector(h: Heading): (v: Coordinate)
    ensures (v.x == 0 && (v.y == 1 || v.y == -1)) || (v.y == 0 && (v.x == 1 || v.x == -1))
  {
    match h
    case North => Coordinate(0, 1)
    case South => Coordinate(0, -1)
    case East => Coordinate(1, 0)
    case West => Coordinate(-1, 0)
  }

  /** Position of a heading on the compass, counted clockwise from north:
      an independent description of the two turn tables. */
  function CompassIndex(h: Heading): (i: nat)
    ensures i < 4
  {
    match h
    case North => 0
    case East => 1
    case South => 2
    case West => 3
  }

  function Min(a: int, b: int): int { if a <= b then a else b }
  function Max(a: int, b: int): int { if a <= b then b else a }

  /** The bounds of the arena spanned by two opposite corners given in any order. */
  function GetArenaBounds(corner1: Coordinate, corner2: Coordinate): (b: ArenaBounds)
    ensures b.minX <= b.maxX && b.minY <= b.maxY
    ensures b.minX <= corner1.x && b.minX <= corner2.x && (b.minX == corner1.x || b.minX == corner2.x)
    ensures b.maxX >= corner1.x && b.maxX >= corner2.x && (b.maxX == corner1.x || b.maxX == corner2.x)
    ensures b.minY <= corner1.y && b.minY <= corner2.y && (b.minY == corner1.y || b.minY == corner2.y)
    ensures b.maxY >= corner1.y && b.maxY >= corner2.y && (b.maxY == corner1.y || b.maxY == corner2.y)
  {
    ArenaBounds(Min(corner1.x, corner2.x), Max(corner1.x, corner2.x),
                Min(corner1.y, corner2.y), Max(corner1.y, corner2.y))
  }

  /** True when the location lies in the closed box of the bounds (the source
      calls this test hasRobotCrashed, although it holds for a safe location). */
  predicate WithinArena(location: Coordinate, bounds: ArenaBounds)
    ensures WithinArena(location, bounds) ==> bounds.minX <= bounds.maxX && bounds.minY <= bounds.maxY
  {
    && bounds.minX <= location.x <= bounds.maxX
    && bounds.minY <= location.y <= bounds.maxY
  }

  /** The location one step ahead of (forward) or behind (backward) the robot. */
  function UpdateRobotLocation(heading: Heading, location: Coordinate, movement: Movement): (next: Coordinate)
    ensures (next.x == location.x && (next.y == location.y + 1 || next.y == location.y - 1))
         || (next.y == location.y && (next.x == location.x + 1 || next.x == location.x - 1))
  {
    var move := MoveVector(heading);
    var multiplier := if movement == Backward then -1 else 1;
    Coordinate(location.x + move.x * multiplier, location.y + move.y * multiplier)
  }

  /** The heading after n successive left turns. */
  function LeftTurns(h: Heading, n: nat): Heading
    decreases n
  {
    if n == 0 then h else LeftTurns(LeftTurn(h), n - 1)
  }

  /** The heading after n successive right turns. */
  function RightTurns(h: Heading, n: nat): Heading
    decreases n
  {
    if n == 0 then h else RightTurns(RightTurn(h), n - 1)
  }

  // ---------------------------------------------------------------------
  // Properties of the tables

  /** A left turn undoes a right turn and vice versa. */
  lemma TurnsAreInverse(h: Heading)
    ensures LeftTurn(RightTurn(h)) == h
    ensures RightTurn(LeftTurn(h)) == h
  {
  }

  /** Four quarter turns in the same sense return to the starting heading. */
  lemma FourTurnsIdentity(h: Heading)
    ensures LeftTurn(LeftTurn(LeftTurn(LeftTurn(h)))) == h
    ensures RightTurn(RightTurn(RightTurn(RightTurn(h)))) == h
  {
  }

  /** Turning n times depends on n modulo 4 only. */
  lemma {:induction false} TurnsModuloFour(h: Heading, n: nat)
    ensures LeftTurns(h, n) == LeftTurns(h, n % 4)
    ensures RightTurns(h, n) == RightTurns(h, n % 4)
  {
    if n >= 4 {
      FourTurnsIdentity(h);
      TurnsShift(h, 4, n - 4);
      TurnsModuloFour(h, n - 4);
    }
  }

  /** n + m turns are n turns followed by m turns. */
  lemma {:induction false} TurnsShift(h: Heading, n: nat, m: nat)
    ensures LeftTurns(h, n + m) == LeftTurns(LeftTurns(h, n), m)
    ensures RightTurns(h, n + m) == RightTurns(RightTurns(h, n), m)
    decreases n
  {
    if n > 0 {
      TurnsShift(LeftTurn(h), n - 1, m);
      TurnsShift(RightTurn(h), n - 1, m);
    }
  }

  /** The movement table agrees with the turn tables: a right turn rotates the
      unit step a quarter turn clockwise, a left turn counter-clockwise. */
  lemma MoveVectorRotates(h: Heading)
    ensures MoveVector(RightTurn(h)) == Coordinate(MoveVector(h).y, -MoveVector(h).x)
    ensures MoveVector(LeftTurn(h)) == Coordinate(-MoveVector(h).y, MoveVector(h).x)
  {
  }

  /** Swapping the corners does not change the bounds. */
  lemma ArenaBoundsSymmetric(corner1: Coordinate, corner2: Coordinate)
    ensures GetArenaBounds(corner1, corner2) == GetArenaBounds(corner2, corner1)
  {
  }

  /** The containment test is closed on all four sides: both corners and every
      boundary point are inside, one unit beyond any side is outside. */
  lemma ArenaIsClosedBox(b: ArenaBounds, p: Coordinate)
    requires b.minX <= b.maxX && b.minY <= b.maxY
    ensures WithinArena(Coordinate(b.minX, b.minY), b) && WithinArena(Coordinate(b.maxX, b.maxY), b)
    ensures WithinArena(p, b) ==> WithinArena(Coordinate(b.minX, p.y), b) && WithinArena(Coordinate(b.maxX, p.y), b)
    ensures WithinArena(p, b) ==> WithinArena(Coordinate(p.x, b.minY), b) && WithinArena(Coordinate(p.x, b.maxY), b)
    ensures !WithinArena(Coordinate(b.minX - 1, p.y), b) && !WithinArena(Coordinate(b.maxX + 1, p.y), b)
    ensures !WithinArena(Coordinate(p.x, b.minY - 1), b) && !WithinArena(Coordinate(p.x, b.maxY + 1), b)
  {
  }

  /** A backward step from the result of a forward step (same heading) restores
      the location, and the other way round. */
  lemma ForwardBackwardCancel(h: Heading, location: Coordinate)
    ensures UpdateRobotLocation(h, UpdateRobotLocation(h, location, Forward), Backward) == location
    ensures UpdateRobotLocation(h, UpdateRobotLocation(h, location, Backward), Forward) == location
  {
  }

  /** Forward moves by the heading's unit step and backward by its opposite. */
  lemma MovesAreOpposite(h: Heading, location: Coordinate)
    ensures UpdateRobotLocation(h, location, Forward) == Coordinate(location.x + MoveVector(h).x, location.y + MoveVector(h).y)
    ensures UpdateRobotLocation(h, location, Backward) == Coordinate(location.x - MoveVector(h).x, location.y - MoveVector(h).y)
  {
  }
}
