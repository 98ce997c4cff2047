/** What the engine promises: how repetitions expand, how a run stops on an
    unreadable token or a crash, where the robot can be, and what the path holds. */
module EngineProperties {
  import opened Geometry
  import opened Tokens
  import opened Engine

  /** n copies of one path entry. */
  function Replicate(s: string, n: nat): (r: seq<string>)
    ensures |r| == n && forall i :: 0 <= i < n ==> r[i] == s
  {
    if n == 0 then [] else [s] + Replicate(s, n - 1)
  }

  /** The path a list of readable tokens expands to: each token's name, as
      many times as its count says. */
  function Expansion(tokens: seq<string>): seq<string>
  {
    if tokens == [] then []
    else
      var (name, count) := ResolveToken(tokens[0]);
      Replicate(name, count) + Expansion(tokens[1..])
  }

  /** The sum of the tokens' repetition counts (a bare name counts once). */
  function TotalSteps(tokens: seq<string>): nat
  {
    if tokens == [] then 0 else ResolveToken(tokens[0]).1 + TotalSteps(tokens[1..])
  }

  /** Every token reads as one of the four instruction names. */
  predicate AllReadable(tokens: seq<string>)
  {
    tokens == [] || (IsValidDirection(ResolveToken(tokens[0]).0) && AllReadable(tokens[1..]))
  }

  /** The named instruction is a move, and from this pose it would leave the arena. */
  predicate WouldCrash(bounds: ArenaBounds, location: Coordinate, heading: Heading, name: string)
  {
    && IsValidDirection(name)
    && (DirectionOf(name).Forward? || DirectionOf(name).Backward?)
    && !WithinArena(UpdateRobotLocation(heading, location, DirectionOf(name)), bounds)
  }

  /** Continue a run that ended Ok with more tokens; an Error or a Crash stands. */
  function ThenRun(bounds: ArenaBounds, r: Response, tokens: seq<string>): Response
  {
    if r.status == Ok then RunTokens(bounds, r.location, r.heading, r.path, tokens) else r
  }

  // ---------------------------------------------------------------------
  // One token's repetitions

  /** Repeating one instruction never gives Error. On Ok the path gains the
      instruction's name n times; on Crash it gains it between once and n
      times, the instruction is a move, and that move from the returned
      (pre-step) pose would leave the arena. */
  lemma {:induction false} RepetitionsOutcome(bounds: ArenaBounds, d: Direction, n: nat,
                                              location: Coordinate, heading: Heading, path: seq<string>)
    ensures var r := RunRepetitions(bounds, d, n, location, heading, path);
      && r.status != Error
      && (r.status == Ok ==> r.path == path + Replicate(DirectionName(d), n))
      && (r.status == Crash ==>
            && |path| < |r.path| <= |path| + n
            && r.path == path + Replicate(DirectionName(d), |r.path| - |path|)
            && WouldCrash(bounds, r.location, r.heading, DirectionName(d)))
    decreases n
  {
    if n > 0 {
      var s := DirectionName(d);
      var path' := path + [s];
      var r := RunRepetitions(bounds, d, n, location, heading, path);
      match d
      case Left =>
        RepetitionsOutcome(bounds, d, n - 1, location, LeftTurn(heading), path');
        ReplicateCons(path, s, n);
      case Right =>
        RepetitionsOutcome(bounds, d, n - 1, location, RightTurn(heading), path');
        ReplicateCons(path, s, n);
      case _ =>
        var next := UpdateRobotLocation(heading, location, d);
        ReplicateCons(path, s, n);
        if !WithinArena(next, bounds) {
          ReplicateCons(path, s, 1);
        } else {
          RepetitionsOutcome(bounds, d, n - 1, next, heading, path');
          if r.status == Crash { ReplicateCons(path, s, |r.path| - |path|); }
        }
    }
  }

  /** The pose a crash returns is the pose reached by the repetitions before
      the crashing one: running one step fewer ends Ok in exactly that pose,
      with the path minus its last (crashing) entry. */
  lemma {:induction false} RepetitionsCrashPose(bounds: ArenaBounds, d: Direction, n: nat,
                                                location: Coordinate, heading: Heading, path: seq<string>)
    ensures var r := RunRepetitions(bounds, d, n, location, heading, path);
      r.status == Crash ==>
        && |path| < |r.path|
        && RunRepetitions(bounds, d, |r.path| - |path| - 1, location, heading, path)
           == Response(Ok, r.location, r.heading, r.path[..|r.path| - 1])
    decreases n
  {
    RepetitionsOutcome(bounds, d, n, location, heading, path);
    if n > 0 {
      var path' := path + [DirectionName(d)];
      match d
      case Left => RepetitionsCrashPose(bounds, d, n - 1, location, LeftTurn(heading), path');
      case Right => RepetitionsCrashPose(bounds, d, n - 1, location, RightTurn(heading), path');
      case _ =>
        var next := UpdateRobotLocation(heading, location, d);
        if WithinArena(next, bounds) {
          RepetitionsCrashPose(bounds, d, n - 1, next, heading, path');
          RepetitionsOutcome(bounds, d, n - 1, next, heading, path');
        } else {
          assert path'[..|path'| - 1] == path;
        }
    }
  }

  lemma ReplicateCons(path: seq<string>, s: string, n: nat)
    requires n > 0
    ensures path + Replicate(s, n) == (path + [s]) + Replicate(s, n - 1)
  {
  }

  /** Turning never moves the robot and never ends the run: n left (right)
      instructions give n left (right) turns and n path entries. */
  lemma {:induction false} TurnsNeverMoveOrStop(bounds: ArenaBounds, n: nat,
                                                location: Coordinate, heading: Heading, path: seq<string>)
    ensures RunRepetitions(bounds, Left, n, location, heading, path)
         == Response(Ok, location, LeftTurns(heading, n), path + Replicate("left", n))
    ensures RunRepetitions(bounds, Right, n, location, heading, path)
         == Response(Ok, location, RightTurns(heading, n), path + Replicate("right", n))
    decreases n
  {
    if n > 0 {
      TurnsNeverMoveOrStop(bounds, n - 1, location, LeftTurn(heading), path + ["left"]);
      TurnsNeverMoveOrStop(bounds, n - 1, location, RightTurn(heading), path + ["right"]);
      ReplicateCons(path, "left", n);
      ReplicateCons(path, "right", n);
    }
  }

  /** Moving never changes the heading. */
  lemma {:induction false} MovesKeepHeading(bounds: ArenaBounds, d: Movement, n: nat,
                                            location: Coordinate, heading: Heading, path: seq<string>)
    ensures RunRepetitions(bounds, d, n, location, heading, path).heading == heading
    decreases n
  {
    if n > 0 {
      var next := UpdateRobotLocation(heading, location, d);
      if WithinArena(next, bounds) {
        MovesKeepHeading(bounds, d, n - 1, next, heading, path + [DirectionName(d)]);
      }
    }
  }

  /** Each location the robot adopts lies inside the arena: the returned
      location is the start location or lies inside. */
  lemma {:induction false} RepetitionsStayInside(bounds: ArenaBounds, d: Direction, n: nat,
                                                 location: Coordinate, heading: Heading, path: seq<string>)
    ensures var r := RunRepetitions(bounds, d, n, location, heading, path);
      r.location == location || WithinArena(r.location, bounds)
    decreases n
  {
    if n > 0 {
      var path' := path + [DirectionName(d)];
      match d
      case Left => RepetitionsStayInside(bounds, d, n - 1, location, LeftTurn(heading), path');
      case Right => RepetitionsStayInside(bounds, d, n - 1, location, RightTurn(heading), path');
      case _ =>
        var next := UpdateRobotLocation(heading, location, d);
        if WithinArena(next, bounds) {
          RepetitionsStayInside(bounds, d, n - 1, next, heading, path');
        }
    }
  }

  /** n + m repetitions are n repetitions followed, unless they crashed, by m
      more: a crash discards all the remaining repetitions. */
  lemma {:induction false} RepetitionsSplit(bounds: ArenaBounds, d: Direction, n: nat, m: nat,
                                            location: Coordinate, heading: Heading, path: seq<string>)
    ensures var r := RunRepetitions(bounds, d, n, location, heading, path);
      RunRepetitions(bounds, d, n + m, location, heading, path)
      == if r.status == Crash then r else RunRepetitions(bounds, d, m, r.location, r.heading, r.path)
    decreases n
  {
    if n > 0 {
      var path' := path + [DirectionName(d)];
      match d
      case Left => RepetitionsSplit(bounds, d, n - 1, m, location, LeftTurn(heading), path');
      case Right => RepetitionsSplit(bounds, d, n - 1, m, location, RightTurn(heading), path');
      case _ =>
        var next := UpdateRobotLocation(heading, location, d);
        if WithinArena(next, bounds) {
          RepetitionsSplit(bounds, d, n - 1, m, next, heading, path');
        }
    }
  }

  // ---------------------------------------------------------------------
  // A whole run

  /** The expansion of the tokens is as long as the sum of their counts. */
  lemma {:induction false} ExpansionLength(tokens: seq<string>)
    ensures |Expansion(tokens)| == TotalSteps(tokens)
    decreases |tokens|
  {
    if tokens != [] {
      ExpansionLength(tokens[1..]);
    }
  }

  /** Running xs then ys is running xs and, if that ended Ok, continuing with
      ys: once a run ends in Error or Crash the later tokens are never read. */
  lemma {:induction false} RunTokensAppend(bounds: ArenaBounds, location: Coordinate, heading: Heading,
                                           path: seq<string>, xs: seq<string>, ys: seq<string>)
    ensures RunTokens(bounds, location, heading, path, xs + ys)
         == ThenRun(bounds, RunTokens(bounds, location, heading, path, xs), ys)
    decreases |xs|
  {
    if xs != [] {
      assert (xs + ys)[0] == xs[0];
      assert (xs + ys)[1..] == xs[1..] + ys;
      var (name, count) := ResolveToken(xs[0]);
      if IsValidDirection(name) {
        var r := RunRepetitions(bounds, DirectionOf(name), count, location, heading, path);
        RepetitionsOutcome(bounds, DirectionOf(name), count, location, heading, path);
        if r.status != Crash {
          RunTokensAppend(bounds, r.location, r.heading, r.path, xs[1..], ys);
        }
      }
    } else {
      assert xs + ys == ys;
    }
  }

  /** An unreadable token after a run that went well ends the run with Error,
      the pose held before that token, and the path so far plus the name read
      from the token (the token itself, or the captured name when it has the
      form name(count)); the tokens after it are never read. */
  lemma ErrorStopsRun(bounds: ArenaBounds, location: Coordinate, heading: Heading, path: seq<string>,
                      xs: seq<string>, t: string, ys: seq<string>)
    requires RunTokens(bounds, location, heading, path, xs).status == Ok
    requires !IsValidDirection(ResolveToken(t).0)
    ensures var r := RunTokens(bounds, location, heading, path, xs);
      RunTokens(bounds, location, heading, path, xs + [t] + ys)
      == Response(Error, r.location, r.heading, r.path + [ResolveToken(t).0])
  {
    var r := RunTokens(bounds, location, heading, path, xs);
    RunTokensAppend(bounds, location, heading, path, xs, [t] + ys);
    assert xs + [t] + ys == xs + ([t] + ys);
    assert ([t] + ys)[0] == t;
  }

  /** An unreadable token that does not have the form name(digits) is
      recorded as written: the run ends with Error, the pose held before the
      token, and the raw token appended to the path. */
  lemma UnmatchedTokenRecordedRaw(bounds: ArenaBounds, location: Coordinate, heading: Heading, path: seq<string>,
                                  xs: seq<string>, t: string, ys: seq<string>)
    requires RunTokens(bounds, location, heading, path, xs).status == Ok
    requires !IsValidDirection(t)
    requires forall name, digits :: IsWord(name) && IsDigits(digits) ==> t != name + "(" + digits + ")"
    ensures var r := RunTokens(bounds, location, heading, path, xs);
      RunTokens(bounds, location, heading, path, xs + [t] + ys)
      == Response(Error, r.location, r.heading, r.path + [t])
  {
    ResolveUnmatched(t);
    ErrorStopsRun(bounds, location, heading, path, xs, t, ys);
  }

  /** A bare move that would leave the arena, after a run that went well,
      ends the run with Crash, the pose held before the move (the candidate
      location is never adopted), and the move as the last path entry; the
      tokens after it are never read. */
  lemma MoveOutOfArenaCrashes(bounds: ArenaBounds, location: Coordinate, heading: Heading, path: seq<string>,
                              xs: seq<string>, m: Movement, ys: seq<string>)
    requires RunTokens(bounds, location, heading, path, xs).status == Ok
    requires !WithinArena(UpdateRobotLocation(RunTokens(bounds, location, heading, path, xs).heading,
                                              RunTokens(bounds, location, heading, path, xs).location, m), bounds)
    ensures var r := RunTokens(bounds, location, heading, path, xs);
      RunTokens(bounds, location, heading, path, xs + [DirectionName(m)] + ys)
      == Response(Crash, r.location, r.heading, r.path + [DirectionName(m)])
  {
    var t := DirectionName(m);
    RunTokensAppend(bounds, location, heading, path, xs, [t] + ys);
    ResolveBare(m);
    assert xs + [t] + ys == xs + ([t] + ys);
    assert ([t] + ys)[0] == t;
  }

  /** A run that crashed is not affected by any tokens that follow. */
  lemma CrashStopsRun(bounds: ArenaBounds, location: Coordinate, heading: Heading, path: seq<string>,
                      xs: seq<string>, ys: seq<string>)
    requires RunTokens(bounds, location, heading, path, xs).status == Crash
    ensures RunTokens(bounds, location, heading, path, xs + ys)
         == RunTokens(bounds, location, heading, path, xs)
  {
    RunTokensAppend(bounds, location, heading, path, xs, ys);
  }

  /** A run's path extends the path it started with. */
  lemma {:induction false} RunTokensPathExtends(bounds: ArenaBounds, location: Coordinate, heading: Heading,
                                                path: seq<string>, tokens: seq<string>)
    ensures var r := RunTokens(bounds, location, heading, path, tokens);
      |path| <= |r.path| && r.path[..|path|] == path
    decreases |tokens|
  {
    if tokens != [] {
      var (name, count) := ResolveToken(tokens[0]);
      if IsValidDirection(name) {
        var d := DirectionOf(name);
        var r := RunRepetitions(bounds, d, count, location, heading, path);
        RepetitionsOutcome(bounds, d, count, location, heading, path);
        if r.status != Crash {
          RunTokensPathExtends(bounds, r.location, r.heading, r.path, tokens[1..]);
          var r' := RunTokens(bounds, r.location, r.heading, r.path, tokens[1..]);
          assert r'.path[..|path|] == r'.path[..|r.path|][..|path|];
        }
      }
    }
  }

  /** Every entry a run adds to the path is one of the four names, except on
      Error, whose last entry is the unreadable name (see RunTokensErrorLast). */
  lemma {:induction false} RunTokensPathEntries(bounds: ArenaBounds, location: Coordinate, heading: Heading,
                                                path: seq<string>, tokens: seq<string>)
    ensures var r := RunTokens(bounds, location, heading, path, tokens);
      && (forall i :: |path| <= i < |r.path| - 1 ==> IsValidDirection(r.path[i]))
      && (r.status != Error ==> forall i :: |path| <= i < |r.path| ==> IsValidDirection(r.path[i]))
    decreases |tokens|
  {
    if tokens != [] {
      var (name, count) := ResolveToken(tokens[0]);
      if IsValidDirection(name) {
        var d := DirectionOf(name);
        var r := RunRepetitions(bounds, d, count, location, heading, path);
        RepetitionsOutcome(bounds, d, count, location, heading, path);
        assert forall i :: |path| <= i < |r.path| ==> r.path[i] == name;
        if r.status != Crash {
          RunTokensPathExtends(bounds, r.location, r.heading, r.path, tokens[1..]);
          RunTokensPathEntries(bounds, r.location, r.heading, r.path, tokens[1..]);
          var r' := RunTokens(bounds, r.location, r.heading, r.path, tokens[1..]);
          forall i | |path| <= i < |r.path|
            ensures IsValidDirection(r'.path[i])
          {
            assert r'.path[i] == r'.path[..|r.path|][i];
          }
        }
      }
    }
  }

  /** A run that ends in Error has appended the unreadable name as its last
      path entry. */
  lemma {:induction false} RunTokensErrorLast(bounds: ArenaBounds, location: Coordinate, heading: Heading,
                                              path: seq<string>, tokens: seq<string>)
    ensures var r := RunTokens(bounds, location, heading, path, tokens);
      r.status == Error ==> |path| < |r.path| && !IsValidDirection(r.path[|r.path| - 1])
    decreases |tokens|
  {
    if tokens != [] {
      var (name, count) := ResolveToken(tokens[0]);
      if !IsValidDirection(name) {
        assert RunTokens(bounds, location, heading, path, tokens) == Response(Error, location, heading, path + [name]);
        assert (path + [name])[|path|] == name;
      } else {
        var d := DirectionOf(name);
        var r := RunRepetitions(bounds, d, count, location, heading, path);
        RepetitionsOutcome(bounds, d, count, location, heading, path);
        if r.status != Crash {
          assert RunTokens(bounds, location, heading, path, tokens) == RunTokens(bounds, r.location, r.heading, r.path, tokens[1..]);
          RunTokensErrorLast(bounds, r.location, r.heading, r.path, tokens[1..]);
        }
      }
    }
  }

  /** A run that ends Ok read every token, and its new path entries are
      exactly the expansion of the tokens. */
  lemma {:induction false} RunTokensOk(bounds: ArenaBounds, location: Coordinate, heading: Heading,
                                       path: seq<string>, tokens: seq<string>)
    ensures var r := RunTokens(bounds, location, heading, path, tokens);
      r.status == Ok ==> r.path == path + Expansion(tokens) && AllReadable(tokens)
    decreases |tokens|
  {
    if tokens != [] {
      var (name, count) := ResolveToken(tokens[0]);
      if IsValidDirection(name) {
        var d := DirectionOf(name);
        var r := RunRepetitions(bounds, d, count, location, heading, path);
        RepetitionsOutcome(bounds, d, count, location, heading, path);
        if r.status == Ok {
          var rest := tokens[1..];
          assert RunTokens(bounds, location, heading, path, tokens) == RunTokens(bounds, r.location, r.heading, r.path, rest);
          assert Expansion(tokens) == Replicate(name, count) + Expansion(rest);
          RunTokensOk(bounds, r.location, r.heading, r.path, rest);
          var r' := RunTokens(bounds, r.location, r.heading, r.path, rest);
          if r'.status == Ok {
            assert r'.path == path + (Replicate(name, count) + Expansion(rest));
          }
        }
      }
    }
  }

  /** On Ok the path holds exactly as many entries as the tokens' counts add up to. */
  lemma RunTokensOkLength(bounds: ArenaBounds, location: Coordinate, heading: Heading,
                          path: seq<string>, tokens: seq<string>)
    ensures var r := RunTokens(bounds, location, heading, path, tokens);
      r.status == Ok ==> |r.path| == |path| + TotalSteps(tokens)
  {
    RunTokensOk(bounds, location, heading, path, tokens);
    ExpansionLength(tokens);
  }

  /** A crash leaves the pre-step pose and ends the path with the move that
      would have left the arena: forward or backward. */
  lemma {:induction false} RunTokensCrash(bounds: ArenaBounds, location: Coordinate, heading: Heading,
                                          path: seq<string>, tokens: seq<string>)
    ensures var r := RunTokens(bounds, location, heading, path, tokens);
      r.status == Crash ==>
        && |path| < |r.path|
        && (r.path[|r.path| - 1] == "forward" || r.path[|r.path| - 1] == "backward")
        && WouldCrash(bounds, r.location, r.heading, r.path[|r.path| - 1])
    decreases |tokens|
  {
    if tokens != [] {
      var (name, count) := ResolveToken(tokens[0]);
      if IsValidDirection(name) {
        var d := DirectionOf(name);
        var r := RunRepetitions(bounds, d, count, location, heading, path);
        RepetitionsOutcome(bounds, d, count, location, heading, path);
        if r.status == Crash {
          assert r.path[|r.path| - 1] == name;
          assert d.Forward? || d.Backward?;
        } else {
          RunTokensCrash(bounds, r.location, r.heading, r.path, tokens[1..]);
        }
      }
    }
  }

  /** The robot only ever adopts locations inside the arena: the final
      location is the start location or lies inside. */
  lemma {:induction false} RunTokensStayInside(bounds: ArenaBounds, location: Coordinate, heading: Heading,
                                               path: seq<string>, tokens: seq<string>)
    ensures var r := RunTokens(bounds, location, heading, path, tokens);
      r.location == location || WithinArena(r.location, bounds)
    decreases |tokens|
  {
    if tokens != [] {
      var (name, count) := ResolveToken(tokens[0]);
      if IsValidDirection(name) {
        var d := DirectionOf(name);
        var r := RunRepetitions(bounds, d, count, location, heading, path);
        RepetitionsStayInside(bounds, d, count, location, heading, path);
        if r.status != Crash {
          RunTokensStayInside(bounds, r.location, r.heading, r.path, tokens[1..]);
        }
      }
    }
  }

  /** A run over tokens that all read as instruction names never ends in Error. */
  lemma {:induction false} ReadableNeverErrors(bounds: ArenaBounds, location: Coordinate, heading: Heading,
                                               path: seq<string>, tokens: seq<string>)
    requires AllReadable(tokens)
    ensures RunTokens(bounds, location, heading, path, tokens).status != Error
    decreases |tokens|
  {
    if tokens != [] {
      var (name, count) := ResolveToken(tokens[0]);
      var d := DirectionOf(name);
      var r := RunRepetitions(bounds, d, count, location, heading, path);
      RepetitionsOutcome(bounds, d, count, location, heading, path);
      if r.status != Crash {
        ReadableNeverErrors(bounds, r.location, r.heading, r.path, tokens[1..]);
      }
    }
  }

  /** Bare instruction names are readable and each expands to itself. */
  lemma {:induction false} BareTokensExpandToThemselves(tokens: seq<string>)
    requires forall i :: 0 <= i < |tokens| ==> IsValidDirection(tokens[i])
    ensures AllReadable(tokens) && Expansion(tokens) == tokens && TotalSteps(tokens) == |tokens|
    decreases |tokens|
  {
    if tokens != [] {
      BareTokensExpandToThemselves(tokens[1..]);
      assert Replicate(tokens[0], 1) == [tokens[0]];
    }
  }

  // ---------------------------------------------------------------------
  // Requests

  /** Giving the arena's corners in the other order gives the same outcome. */
  lemma SwapCornersSameOutcome(request: Request)
    ensures Simulate(request.(corner1 := request.corner2, corner2 := request.corner1)) == Simulate(request)
  {
    ArenaBoundsSymmetric(request.corner1, request.corner2);
  }

  /** A request run from inside its arena ends inside it. A crash ends with a
      forward or backward entry, whose move would leave the arena from the
      returned pose. An Ok run records sum-of-counts entries, all instruction
      names. */
  lemma SimulateOutcome(request: Request)
    ensures var bounds := GetArenaBounds(request.corner1, request.corner2);
      var r := Simulate(request);
      && (WithinArena(request.location, bounds) ==> WithinArena(r.location, bounds))
      && (r.status == Crash ==> |r.path| > 0 && WouldCrash(bounds, r.location, r.heading, r.path[|r.path| - 1]))
      && (r.status == Ok ==> |r.path| == TotalSteps(request.directions)
                             && forall i :: 0 <= i < |r.path| ==> IsValidDirection(r.path[i]))
  {
    var bounds := GetArenaBounds(request.corner1, request.corner2);
    RunTokensStayInside(bounds, request.location, request.heading, [], request.directions);
    RunTokensCrash(bounds, request.location, request.heading, [], request.directions);
    RunTokensPathEntries(bounds, request.location, request.heading, [], request.directions);
    RunTokensOkLength(bounds, request.location, request.heading, [], request.directions);
  }

  /** A request of bare instruction names never ends in Error, and when it
      ends Ok its path is exactly its list of tokens. */
  lemma SimulateBareTokens(request: Request)
    requires forall i :: 0 <= i < |request.directions| ==> IsValidDirection(request.directions[i])
    ensures Simulate(request).status != Error
    ensures Simulate(request).status == Ok ==> Simulate(request).path == request.directions
  {
    var bounds := GetArenaBounds(request.corner1, request.corner2);
    BareTokensExpandToThemselves(request.directions);
    ReadableNeverErrors(bounds, request.location, request.heading, [], request.directions);
    RunTokensOk(bounds, request.location, request.heading, [], request.directions);
  }
}
