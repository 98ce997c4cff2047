# Robot simulation engine, modelled in Dafny

The engine moves a robot inside an axis-aligned rectangular arena given by two
opposite corners. A request holds the corners, a start location, a start
heading (north, south, east, west) and a list of direction tokens. A token is
`forward`, `left`, `right` or `backward`, optionally written with a repetition
count such as `forward(3)`. The response holds a status (`ok`, `error` or
`crash`), the final location and heading, and the expanded path of atomic
instructions actually attempted.

Files:

- `geometry.dfy` (module `Geometry`): coordinates, headings, the left-turn,
  right-turn and move tables, arena bounds, the closed-box containment test and
  the one-step location update, with the group laws of the turn tables.
- `tokens.dfy` (module `Tokens`): the four valid names, a hand-written scanner
  for the pattern `^(\w+)\((\d+)\)$`, `parseInt` on its digit group, and how a
  token is read into a name and a repetition count.
- `engine.dfy` (module `Engine`): the engine's outcome as a recursive
  definition (`RunRepetitions`, `RunTokens`, `Simulate`), and `MoveRobot`, the
  nested loop with early returns that the source runs, proved to give exactly
  that outcome.
- `engine_properties.dfy` (module `EngineProperties`): what a run promises
  about errors, crashes, the path and the locations the robot adopts.
- `scenarios.dfy` (module `Scenarios`): worked requests.

Two behaviours of src/index.ts are worth stating on their own.

- A token that is not a valid name but has the form `name(count)` (for
  example `spin(3)`) has its direction replaced by the captured name before
  the second validity check (src/index.ts:173). It is therefore recorded in the
  path as `spin`, not `spin(3)` (src/index.ts:181). Any other invalid token is
  recorded as written. `Scenarios.UnknownCountedTokenRecordsName`,
  `Tokens.ResolveUnmatched` and `EngineProperties.UnmatchedTokenRecordedRaw`
  state this.
- The containment test includes the arena's edges (src/index.ts:104-109), so a
  move onto the boundary succeeds. In a 2 by 2 arena from (0,0) heading north,
  `forward(2)` takes the first step to (0,1) and crashes on the second
  (src/index.ts:210-216). The run returns (0,1) with the path
  `["forward", "forward"]` (`Scenarios.CrashHaltsRepetition`).

The request is a Dafny value, so the engine cannot change the caller's request.
The source gets the same effect by copying the start location (src/index.ts:155).

## Model

| member | source | states |
|---|---|---|
| `Geometry.GetArenaBounds` | src/index.ts:87-94 | the bounds satisfy minX ≤ maxX and minY ≤ maxY, and each is the per-axis minimum or maximum of the two corners |
| `Geometry.ArenaBoundsSymmetric` | src/index.ts:87-94 | swapping the two corners gives identical bounds |
| `Geometry.ArenaIsClosedBox` | src/index.ts:103-110 | the containment test is closed on all four sides: corners and boundary points are inside, one unit beyond any side is outside |
| `Geometry.UpdateRobotLocation` | src/index.ts:130-142 | a forward or backward step changes exactly one coordinate, by exactly one |
| `Geometry.ForwardBackwardCancel` | src/index.ts:130-142 | with the same heading, a backward step undoes a forward step and vice versa |
| `Geometry.MovesAreOpposite` | src/index.ts:73-78 | forward adds the heading's unit vector, backward subtracts it |
| `Geometry.TurnsAreInverse` | src/index.ts:57-68 | the left-turn and right-turn tables are mutual inverses |
| `Geometry.LeftTurn` | src/index.ts:57-62 | the left-turn table steps the clockwise compass index by -1 (mod 4) |
| `Geometry.RightTurn` | src/index.ts:63-68 | the right-turn table steps the clockwise compass index by +1 (mod 4) |
| `Geometry.MoveVector` | src/index.ts:73-78 | each heading's move is a unit vector along one axis |
| `Geometry.WithinArena` | src/index.ts:103-110 | the closed-box test (the source's hasRobotCrashed, true when inside); a location can be inside only bounds with minX ≤ maxX and minY ≤ maxY |
| `Geometry.FourTurnsIdentity` | src/index.ts:57-68 | four left turns, or four right turns, return the starting heading |
| `Geometry.TurnsShift` | src/index.ts:57-68 | n + m turns are n turns followed by m turns |
| `Geometry.TurnsModuloFour` | src/index.ts:57-68 | n turns in one sense depend only on n mod 4 |
| `Geometry.MoveVectorRotates` | src/index.ts:57-78 | the move table agrees with the turn tables: a right turn rotates the unit vector clockwise, a left turn counter-clockwise |
| `Tokens.IsValidDirection` | src/index.ts:118-120 | membership in the four valid names (see DirectionNamesRoundTrip and ValidNamesHaveNoCount for its properties) |
| `Tokens.ValidNamesHaveNoCount` | src/index.ts:165-167 | a valid name is a `\w+` word and never matches the name(count) pattern |
| `Tokens.DirectionOf` | src/index.ts:118-120 | a valid name maps to the instruction carrying that name |
| `Tokens.DirectionNamesRoundTrip` | src/index.ts:52 | valid names and instructions correspond one to one |
| `Tokens.WordPrefixIsGreedy` | src/index.ts:167 | the greedy `\w+` prefix that WordPrefixLength measures: all word characters, followed by a non-word character or the end |
| `Tokens.MatchRepeated` | src/index.ts:167 | on a match the token is exactly name + "(" + count + ")" for its two captures |
| `Tokens.MatchRepeatedSound` | src/index.ts:167 | on a match the captures are a `\w+` name and a `\d+` count |
| `Tokens.MatchRepeatedComplete` | src/index.ts:167 | every string of the form name(digits) matches, with exactly those captures |
| `Tokens.ParseInt` | src/index.ts:170 | parseInt on a `\d+` capture: its base-ten value (see ParseIntRoundTrip) |
| `Tokens.ParseIntRoundTrip` | src/index.ts:170 | parseInt of the decimal numeral of n is n |
| `Tokens.ParseIntLeadingZero` | src/index.ts:170 | a leading zero does not change the count |
| `Tokens.ResolveToken` | src/index.ts:163-176 | a valid bare name reads as itself once; a name that differs from the token comes from a pattern match on a token that was not valid |
| `Tokens.ResolveTokenSound` | src/index.ts:165-176 | a name that differs from the token is a `\w+` word w such that the token is w + "(" + digits + ")" and the count is parseInt(digits) |
| `Tokens.ResolveUnmatched` | src/index.ts:165-176 | a token that is neither a valid name nor of the form name(digits) reads as itself, once |
| `Tokens.ResolveBare` | src/index.ts:163-165 | each bare valid name is read once |
| `Tokens.ResolveRepeated` | src/index.ts:165-176 | any name(digits) token, valid name or not, reads as the captured name with parseInt(digits) repetitions |
| `Tokens.ResolveCounted` | src/index.ts:165-176 | a direction written with count n reads as that direction repeated n times |
| `Engine.RunRepetitions` | src/index.ts:191-224 | one token's repetitions: record the name, then turn, or move if the candidate is inside, or stop with crash and the pre-step pose (properties in RepetitionsOutcome and the lemmas after it) |
| `Engine.RunTokens` | src/index.ts:162-225 | the token loop: read each token, stop with error and the pre-token pose on an unreadable name, stop on crash, else continue |
| `Engine.Simulate` | src/index.ts:150-234 | the response for a request: bounds from the corners, then RunTokens from the start pose with an empty path |
| `Engine.MoveRobot` | src/index.ts:150-234 | the nested loop with early returns yields exactly the outcome `Simulate` defines |
| `EngineProperties.RepetitionsOutcome` | src/index.ts:191-224 | repeating an instruction never gives error; on ok the path gains the name n times; on crash it gains it 1..n times, the instruction is a move and that move from the returned pre-step pose leaves the arena |
| `EngineProperties.RepetitionsCrashPose` | src/index.ts:209-216 | on crash, running one repetition fewer ends ok in exactly the returned pose, with the path minus its crashing entry: the pose is the one held before the failing step |
| `EngineProperties.TurnsNeverMoveOrStop` | src/index.ts:195-203 | n left (right) instructions never move and never stop the run: n turns and n path entries |
| `EngineProperties.MovesKeepHeading` | src/index.ts:204-222 | forward and backward never change the heading |
| `EngineProperties.RepetitionsStayInside` | src/index.ts:204-222 | a location the robot adopts is the start location or lies inside the arena |
| `EngineProperties.RepetitionsSplit` | src/index.ts:191-217 | n + m repetitions are n then m; a crash discards the remaining repetitions |
| `EngineProperties.ExpansionLength` | src/index.ts:191-193 | the expanded path is as long as the sum of the repetition counts |
| `EngineProperties.RunTokensAppend` | src/index.ts:162-225 | running xs then ys is running xs and continuing only if it ended ok: after error or crash later tokens are never read |
| `EngineProperties.ErrorStopsRun` | src/index.ts:178-188 | an unreadable token after a successful prefix gives error, the pose before it, and the prior path plus the name read from it, whatever follows |
| `EngineProperties.UnmatchedTokenRecordedRaw` | src/index.ts:179-187 | an invalid token not of the form name(digits), after an ok prefix, ends with error, the prior pose and the raw token appended |
| `EngineProperties.MoveOutOfArenaCrashes` | src/index.ts:204-217 | a bare move that would leave the arena, after an ok prefix, ends with crash, the prior pose and the move appended, whatever follows |
| `EngineProperties.CrashStopsRun` | src/index.ts:209-217 | a crashed run is unaffected by the tokens after it |
| `EngineProperties.RunTokensPathExtends` | src/index.ts:181-193 | a run's path extends the path it started with |
| `EngineProperties.RunTokensPathEntries` | src/index.ts:178-193 | every added path entry is a valid name, except the last one of an error run |
| `EngineProperties.RunTokensErrorLast` | src/index.ts:178-188 | an error run ends its path with the unreadable name |
| `EngineProperties.RunTokensOk` | src/index.ts:227-233 | an ok run read every token and its new entries are exactly the expansion of the tokens |
| `EngineProperties.RunTokensOkLength` | src/index.ts:162-193 | on ok the path length is the sum of the repetition counts (bare names count 1, name(0) counts 0) |
| `EngineProperties.RunTokensCrash` | src/index.ts:204-217 | on crash the last path entry is forward or backward, and that move from the returned pose leaves the arena |
| `EngineProperties.RunTokensStayInside` | src/index.ts:204-222 | the final location is the start location or lies inside the arena |
| `EngineProperties.ReadableNeverErrors` | src/index.ts:178-188 | tokens that all read as valid names never produce error |
| `EngineProperties.BareTokensExpandToThemselves` | src/index.ts:163-165 | bare valid names are readable and expand to themselves, one entry each |
| `EngineProperties.SwapCornersSameOutcome` | src/index.ts:152 | swapping the arena's corners gives the same response |
| `EngineProperties.SimulateOutcome` | src/index.ts:150-234 | from inside the arena the robot ends inside; a crash ends with a move that leaves the arena from the returned pose; ok records sum-of-counts valid names |
| `EngineProperties.SimulateBareTokens` | src/index.ts:162-193 | a request of bare valid names never errors, and on ok its path equals its tokens |
| `Scenarios.WalkThrough` | src/index.ts:150-234 | `forward(2)`, `right`, `forward(2)` from (0,0) north in a 5 by 5 arena ends ok at (2,2) east with five path entries |
| `Scenarios.CrashHaltsRepetition` | src/index.ts:191-217 | the second step of `forward(2)` in a 2 by 2 arena crashes, keeping (0,1) north |
| `Scenarios.UnknownTokenIsError` | src/index.ts:178-188 | `left`, `spin` ends in error facing west with path `left`, `spin` |
| `Scenarios.ZeroRepetitions` | src/index.ts:191 | `forward(0)` adds nothing and the run continues |
| `Scenarios.UnknownCountedTokenRecordsName` | src/index.ts:173 | `spin(3)` is recorded as `spin` and the run ends in error with the pose before it |

## Left out

- `run()` (src/index.ts:241-273) is not modelled: it reads stdin, parses and prints JSON and reports `Invalid input JSON`. This is I/O.
- dist/index.js is a compiled copy of the same logic, so it is not part of this model.
- src/index.test.ts only loads fixture files that are not available, so it is not part of this model.
- JavaScript numbers: coordinates are unbounded integers, and `parseInt` is exact on any digit string. Floating point, precision loss beyond 2^53 and NaN are not modelled.
- The `isNaN` guard (src/index.ts:171) is not modelled, because a `\d+` capture always parses to a number.
- The regular-expression engine is replaced by a scanner for this one pattern. `\w` is ASCII letters, digits and underscore, as in a JavaScript pattern without the `u` flag.
- Malformed request shapes (missing fields, a heading outside the four values) cannot be expressed in the model's types. Rejecting them is the caller's job.
- The path is a sequence value that the loop reassigns, not an array pushed in place. The response does not share objects with the engine's state.
- JavaScript strings are UTF-16 code units, while a Dafny string is a sequence of Unicode scalar values. A raw token holding a lone surrogate cannot be represented. This does not affect matching, which only tests ASCII characters.
