/** Worked requests, stated as facts about Simulate (and so, through
    MoveRobot's contract, about the loop). */
module Scenarios {
  import opened Geometry
  import opened Tokens
  import opened Engine
  import opened EngineProperties

  lemma ReadForwardTwice()
    ensures ResolveToken("forward(2)") == ("forward", 2)
  {
    ResolveRepeated("forward", "2");
    assert "forward" + "(" + "2" + ")" == "forward(2)";
  }

  /** Repetition, a turn, and more repetition inside a 5 by 5 arena. */
  lemma WalkThrough()
    ensures Simulate(Request(Coordinate(0, 0), Coordinate(4, 4), Coordinate(0, 0), North,
                             ["forward(2)", "right", "forward(2)"]))
         == Response(Ok, Coordinate(2, 2), East, ["forward", "forward", "right", "forward", "forward"])
  {
    WalkThroughFirst();
    WalkThroughSecond();
    WalkThroughThird();
  }

  lemma WalkThroughFirst()
    ensures RunTokens(ArenaBounds(0, 4, 0, 4), Coordinate(0, 0), North, [], ["forward(2)", "right", "forward(2)"])
         == RunTokens(ArenaBounds(0, 4, 0, 4), Coordinate(0, 2), North, ["forward", "forward"], ["right", "forward(2)"])
  {
    ReadForwardTwice();
    var tokens := ["forward(2)", "right", "forward(2)"];
    assert tokens[1..] == ["right", "forward(2)"];
    assert RunRepetitions(ArenaBounds(0, 4, 0, 4), Forward, 2, Coordinate(0, 0), North, [])
        == Response(Ok, Coordinate(0, 2), North, ["forward", "forward"]);
  }

  lemma WalkThroughSecond()
    ensures RunTokens(ArenaBounds(0, 4, 0, 4), Coordinate(0, 2), North, ["forward", "forward"], ["right", "forward(2)"])
         == RunTokens(ArenaBounds(0, 4, 0, 4), Coordinate(0, 2), East, ["forward", "forward", "right"], ["forward(2)"])
  {
    var tokens := ["right", "forward(2)"];
    assert tokens[0] == "right" && tokens[1..] == ["forward(2)"];
    assert ResolveToken("right") == ("right", 1) && DirectionOf("right") == Right;
    assert ["forward", "forward"] + ["right"] == ["forward", "forward", "right"];
    assert RunRepetitions(ArenaBounds(0, 4, 0, 4), Right, 1, Coordinate(0, 2), North, ["forward", "forward"])
        == Response(Ok, Coordinate(0, 2), East, ["forward", "forward", "right"]);
  }

  lemma WalkThroughThird()
    ensures RunTokens(ArenaBounds(0, 4, 0, 4), Coordinate(0, 2), East, ["forward", "forward", "right"], ["forward(2)"])
         == Response(Ok, Coordinate(2, 2), East, ["forward", "forward", "right", "forward", "forward"])
  {
    ReadForwardTwice();
    assert ["forward(2)"][1..] == [];
    assert RunRepetitions(ArenaBounds(0, 4, 0, 4), Forward, 2, Coordinate(0, 2), East, ["forward", "forward", "right"])
        == Response(Ok, Coordinate(2, 2), East, ["forward", "forward", "right", "forward", "forward"]);
  }

  /** In a 2 by 2 arena the first of two forward steps reaches the top edge,
      which is still inside the closed box; the second would leave it, so the
      run stops with the pose held before it and that step last in the path. */
  lemma CrashHaltsRepetition()
    ensures Simulate(Request(Coordinate(0, 0), Coordinate(1, 1), Coordinate(0, 0), North, ["forward(2)"]))
         == Response(Crash, Coordinate(0, 1), North, ["forward", "forward"])
  {
    ReadForwardTwice();
  }

  /** An unknown bare token ends the run with Error and is recorded as written. */
  lemma UnknownTokenIsError()
    ensures Simulate(Request(Coordinate(0, 0), Coordinate(4, 4), Coordinate(0, 0), North, ["left", "spin"]))
         == Response(Error, Coordinate(0, 0), West, ["left", "spin"])
  {
    var t := "spin";
    assert WordPrefixLength(t) == 4;
  }

  /** A count of zero adds nothing and the run goes on. */
  lemma ZeroRepetitions()
    ensures Simulate(Request(Coordinate(0, 0), Coordinate(4, 4), Coordinate(0, 0), North, ["forward(0)", "left"]))
         == Response(Ok, Coordinate(0, 0), West, ["left"])
  {
    ZeroRepetitionsFirst();
    assert ["left"][0] == "left" && ["left"][1..] == [];
    assert ResolveToken("left") == ("left", 1) && DirectionOf("left") == Left;
  }

  lemma ZeroRepetitionsFirst()
    ensures RunTokens(ArenaBounds(0, 4, 0, 4), Coordinate(0, 0), North, [], ["forward(0)", "left"])
         == RunTokens(ArenaBounds(0, 4, 0, 4), Coordinate(0, 0), North, [], ["left"])
  {
    ReadForwardZero();
    var tokens := ["forward(0)", "left"];
    assert tokens[1..] == ["left"];
  }

  lemma ReadForwardZero()
    ensures ResolveToken("forward(0)") == ("forward", 0)
  {
    ResolveRepeated("forward", "0");
    assert "forward" + "(" + "0" + ")" == "forward(0)";
  }

  /** An unknown name with a count is recorded by its captured name alone:
      the count suffix is gone from the path. */
  lemma UnknownCountedTokenRecordsName()
    ensures Simulate(Request(Coordinate(0, 0), Coordinate(4, 4), Coordinate(1, 1), East, ["forward", "spin(3)", "left"]))
         == Response(Error, Coordinate(2, 1), East, ["forward", "spin"])
  {
    ResolveRepeated("spin", "3");
    assert "spin" + "(" + "3" + ")" == "spin(3)";
  }
}
