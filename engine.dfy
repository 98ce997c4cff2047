/** The simulation engine: moveRobot, given once as a recursive definition of
    its outcome and once as the loop the source runs, proved to agree. */
module Engine {
  import opened Geometry
  import opened Tokens

  datatype Status = Ok | Error | Crash

  /** The arena (two opposite corners), the start pose and the direction tokens. */
  datatype Request = Request(corner1: Coordinate, corner2: Coordinate,
                             location: Coordinate, heading: Heading,
                             directions: seq<string>)

  /** The outcome: status, final pose and the expanded path actually attempted. */
  datatype Response = Response(status: Status, location: Coordinate, heading: Heading,
                               path: seq<string>)

  /** Runs the instruction d up to n times from the given pose, recording each
      attempt in the path before acting on it. Status Ok means all n steps
      were taken; Crash means a move would have left the arena, and the pose
      is the one held before that move. */
  function RunRepetitions(bounds: ArenaBounds, d: Direction, n: nat,
                          location: Coordinate, heading: Heading, path: seq<string>): Response
    decreases n
  {
    if n == 0 then Response(Ok, location, heading, path)
    else
      var path' := path + [DirectionName(d)];
      match d
      case Left => RunRepetitions(bounds, d, n - 1, location, LeftTurn(heading), path')
      case Right => RunRepetitions(bounds, d, n - 1, location, RightTurn(heading), path')
      case _ =>
        var next := UpdateRobotLocation(heading, location, d);
        if !WithinArena(next, bounds) then Response(Crash, location, heading, path')
        else RunRepetitions(bounds, d, n - 1, next, heading, path')
  }

  /** Runs the tokens in order from the given pose and path. An unreadable token
      ends the run with Error, the pose held before it and the name read from
      it appended; a crash ends the run at once; otherwise the run goes on with
      the next token. */
  function RunTokens(bounds: ArenaBounds, location: Coordinate, heading: Heading,
                     path: seq<string>, tokens: seq<string>): Response
    decreases |tokens|
  {
    if tokens == [] then Response(Ok, location, heading, path)
    else
      var (name, count) := ResolveToken(tokens[0]);
      if !IsValidDirection(name) then Response(Error, location, heading, path + [name])
      else
        var r := RunRepetitions(bounds, DirectionOf(name), count, location, heading, path);
        if r.status == Crash then r
        else RunTokens(bounds, r.location, r.heading, r.path, tokens[1..])
  }

  /** What follows a fully expanded token: a crash stands, otherwise the run
      continues with the remaining tokens. */
  function AfterToken(bounds: ArenaBounds, r: Response, rest: seq<string>): Response
  {
    if r.status == Crash then r
    else RunTokens(bounds, r.location, r.heading, r.path, rest)
  }

  /** The outcome the engine gives for a request. */
  function Simulate(request: Request): Response
  {
    RunTokens(GetArenaBounds(request.corner1, request.corner2),
              request.location, request.heading, [], request.directions)
  }

  /** The engine as the source runs it: a loop over the tokens, an inner loop
      over the repetitions, a path extended step by step, and early returns on
      an unreadable token or a crash. */
  method MoveRobot(request: Request) returns (response: Response)
    ensures response == Simulate(request)
  {
    var bounds := GetArenaBounds(request.corner1, request.corner2);
    var location := request.location;
    var heading := request.heading;
    var path: seq<string> := [];

    for k := 0 to |request.directions|
      invariant RunTokens(bounds, location, heading, path, request.directions[k..]) == Simulate(request)
    {
      var direction := request.directions[k];
      var repetition: nat := 1;
      if !IsValidDirection(direction) {
        var found := MatchRepeated(direction);
        if found.Some? {
          repetition := ParseInt(found.value.1);
          direction := found.value.0;
        }
      }

      if !IsValidDirection(direction) {
        path := path + [direction];
        return Response(Error, location, heading, path);
      }

      var d := DirectionOf(direction);
      ghost var rest := request.directions[k + 1..];
      assert ResolveToken(request.directions[k]) == (direction, repetition);
      assert request.directions[k..][1..] == rest;
      for i := 0 to repetition
        invariant AfterToken(bounds, RunRepetitions(bounds, d, repetition - i, location, heading, path), rest)
                  == Simulate(request)
      {
        path := path + [direction];
        match d {
          case Left =>
            heading := LeftTurn(heading);
          case Right =>
            heading := RightTurn(heading);
          case _ =>
            var newLocation := UpdateRobotLocation(heading, location, d);
            if !WithinArena(newLocation, bounds) {
              return Response(Crash, location, heading, path);
            }
            location := newLocation;
        }
      }
    }

    return Response(Ok, location, heading, path);
  }
}
