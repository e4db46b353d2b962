/**
 * The robot primitives and the flat pseudocode interpreter: `turn` rotates the
 * facing direction, `move` advances one cell when the target is inside the grid
 * and not a wall, and `executePseudoCode` runs the trimmed, non-blank lines of a
 * program once from top to bottom, recording a state for every MOVE, TURN LEFT
 * and TURN RIGHT and ignoring every other line.
 */
module Interpreter {
  import opened Wrappers
  import opened Levels
  import opened JsText

  // ---------------------------------------------------------------------------
  // turn
  // ---------------------------------------------------------------------------

  /** The position of a direction in the cycle up, right, down, left. */
  function DirIndex(d: Direction): (i: nat)
    ensures i < 4
  {
    match d
    case Up => 0
    case Right => 1
    case Down => 2
    case Left => 3
  }

  function DirAt(i: nat): Direction
    requires i < 4
  {
    [Up, Right, Down, Left][i]
  }

  /** The argument `"LEFT" | "RIGHT"` of `turn`. */
  datatype Rotation = ToLeft | ToRight

  /** `turn`: LEFT steps back one place in the cycle, RIGHT steps forward one. */
  function Turn(d: Direction, rot: Rotation): (r: Direction)
    ensures r != d
    ensures (DirIndex(r) - DirIndex(d)) % 4 == (if rot == ToLeft then 3 else 1)
  {
    var idx := DirIndex(d);
    DirAt(if rot == ToLeft then (idx + 3) % 4 else (idx + 1) % 4)
  }

  /** The cycle written out: what each turn gives from each direction. */
  lemma TurnTable()
    ensures Turn(Up, ToLeft) == Left && Turn(Left, ToLeft) == Down
    ensures Turn(Down, ToLeft) == Right && Turn(Right, ToLeft) == Up
    ensures Turn(Up, ToRight) == Right && Turn(Right, ToRight) == Down
    ensures Turn(Down, ToRight) == Left && Turn(Left, ToRight) == Up
  {
  }

  /** Turning never keeps the facing direction, and left and right undo each other. */
  lemma TurnInverse(d: Direction)
    ensures Turn(d, ToLeft) != d && Turn(d, ToRight) != d
    ensures Turn(Turn(d, ToLeft), ToRight) == d
    ensures Turn(Turn(d, ToRight), ToLeft) == d
  {
    TurnTable();
  }

  /** Four turns in the same direction come back to the start. */
  lemma FourTurns(d: Direction, rot: Rotation)
    ensures Turn(Turn(Turn(Turn(d, rot), rot), rot), rot) == d
  {
    TurnTable();
  }

  // ---------------------------------------------------------------------------
  // move
  // ---------------------------------------------------------------------------

  /** The cell one step ahead of the robot in its facing direction. */
  function Ahead(s: RobotState): Pos {
    match s.direction
    case Up => Pos(s.x, s.y - 1)
    case Down => Pos(s.x, s.y + 1)
    case Left => Pos(s.x - 1, s.y)
    case Right => Pos(s.x + 1, s.y)
  }

  /** A cell the robot may enter: it exists in the grid and is not a wall. */
  predicate Passable(grid: Grid, p: Pos) {
    InBounds(grid, p.x, p.y) && grid[p.y][p.x] != Wall
  }

  /** The robot stands on a wall cell of the grid. */
  predicate OnWall(grid: Grid, s: RobotState) {
    InBounds(grid, s.x, s.y) && grid[s.y][s.x] == Wall
  }

  /** `move`: one cell forward when that cell is passable, otherwise no change. */
  function Move(state: RobotState, grid: Grid): (r: RobotState)
    ensures r.direction == state.direction
    ensures Passable(grid, Ahead(state)) ==> Pos(r.x, r.y) == Ahead(state)
    ensures !Passable(grid, Ahead(state)) ==> r == state
  {
    var nx, ny := Ahead(state).x, Ahead(state).y;
    if 0 <= ny < |grid| && 0 <= nx < |grid[ny]| && grid[ny][nx] != Wall then
      RobotState(nx, ny, state.direction)
    else
      state
  }

  /** A move never ends on a wall unless it started there, since a blocked move stays put. */
  lemma MoveAvoidsWalls(state: RobotState, grid: Grid)
    ensures Move(state, grid) != state ==> Passable(grid, Pos(Move(state, grid).x, Move(state, grid).y))
    ensures !OnWall(grid, state) ==> !OnWall(grid, Move(state, grid))
  {
  }

  // ---------------------------------------------------------------------------
  // executePseudoCode
  // ---------------------------------------------------------------------------

  /** The three lines the interpreter acts on. */
  predicate IsPrimitive(line: string) {
    line == "MOVE" || line == "TURN LEFT" || line == "TURN RIGHT"
  }

  /** The state one line produces, or None for a line the interpreter ignores. */
  function Step(state: RobotState, line: string, grid: Grid): (r: Option<RobotState>)
    ensures r.Some? <==> IsPrimitive(line)
  {
    if line == "MOVE" then Some(Move(state, grid))
    else if line == "TURN LEFT" then Some(state.(direction := Turn(state.direction, ToLeft)))
    else if line == "TURN RIGHT" then Some(state.(direction := Turn(state.direction, ToRight)))
    else None
  }

  /** `lines.map((l) => l.trim())` */
  function TrimAll(lines: seq<string>): (r: seq<string>)
    ensures |r| == |lines|
    ensures forall i :: 0 <= i < |lines| ==> r[i] == Trim(lines[i])
  {
    if lines == [] then [] else [Trim(lines[0])] + TrimAll(lines[1..])
  }

  /** `lines.filter(Boolean)`: the non-empty strings, in order. */
  function NonBlank(lines: seq<string>): (r: seq<string>)
    ensures forall i :: 0 <= i < |r| ==> r[i] != ""
    ensures forall x :: x in r <==> x in lines && x != ""
  {
    if lines == [] then []
    else
      assert lines == [lines[0]] + lines[1..];
      if lines[0] == "" then NonBlank(lines[1..])
      else [lines[0]] + NonBlank(lines[1..])
  }

  /** Every non-empty line is kept as often as it occurs, and the empty ones all go. */
  lemma {:induction false} NonBlankMultiset(lines: seq<string>)
    ensures multiset(NonBlank(lines)) == multiset(lines)["" := 0]
    decreases |lines|
  {
    if lines != [] {
      assert lines == [lines[0]] + lines[1..];
      NonBlankMultiset(lines[1..]);
    }
  }

  /** Filtering a concatenation filters each part in turn: the kept lines stay in their order. */
  lemma {:induction false} NonBlankAppend(a: seq<string>, b: seq<string>)
    ensures NonBlank(a + b) == NonBlank(a) + NonBlank(b)
    decreases |a|
  {
    if a == [] {
      assert a + b == b;
    } else {
      assert (a + b)[0] == a[0] && (a + b)[1..] == a[1..] + b;
      NonBlankAppend(a[1..], b);
    }
  }

  /** The lines `executePseudoCode` walks through. */
  function ProgramLines(code: string): (r: seq<string>)
    ensures forall x :: x in r <==> x != "" && exists line :: line in SplitLines(code) && x == Trim(line)
  {
    var trimmed := TrimAll(SplitLines(code));
    forall x | x in trimmed ensures exists line :: line in SplitLines(code) && x == Trim(line) {
      var i :| 0 <= i < |trimmed| && trimmed[i] == x;
      assert SplitLines(code)[i] in SplitLines(code);
    }
    NonBlank(trimmed)
  }

  /** How many of the lines are MOVE, TURN LEFT or TURN RIGHT. */
  function CommandCount(lines: seq<string>): nat {
    if lines == [] then 0 else (if IsPrimitive(lines[0]) then 1 else 0) + CommandCount(lines[1..])
  }

  /**
   * The history produced by running `lines` from `start`: the start state, then
   * one state for each line the interpreter acts on.
   */
  function Trace(start: RobotState, lines: seq<string>, grid: Grid): (h: seq<RobotState>)
    ensures |h| >= 1 && h[0] == start
    decreases |lines|
  {
    if lines == [] then [start]
    else
      match Step(start, lines[0], grid)
      case None => Trace(start, lines[1..], grid)
      case Some(next) => [start] + Trace(next, lines[1..], grid)
  }

  /** `executePseudoCode(code, level)` */
  method ExecutePseudoCode(code: string, level: Level) returns (history: seq<RobotState>)
    ensures history == Trace(level.start, ProgramLines(code), level.grid)
    ensures history[0] == level.start
    ensures |history| == 1 + CommandCount(TrimAll(SplitLines(code)))
  {
    var lines := ProgramLines(code);
    var state := level.start;
    history := [state];
    for i := 0 to |lines|
      invariant |history| >= 1 && history[|history| - 1] == state
      invariant history + Trace(state, lines[i..], level.grid)[1..] == Trace(level.start, lines, level.grid)
    {
      var line := lines[i];
      ghost var before, rest := history, lines[i + 1..];
      assert lines[i..] == [line] + rest;
      if line == "MOVE" {
        state := Move(state, level.grid);
        history := history + [state];
      } else if line == "TURN LEFT" {
        state := state.(direction := Turn(state.direction, ToLeft));
        history := history + [state];
      } else if line == "TURN RIGHT" {
        state := state.(direction := Turn(state.direction, ToRight));
        history := history + [state];
      }
      TraceAfterLine(before, state, history, line, rest, level.grid);
    }
    assert lines[|lines|..] == [];
    ProgramTraceLength(code, level.start, level.grid);
  }

  /** The history holds one state more than there are acting lines among the trimmed lines. */
  lemma ProgramTraceLength(code: string, start: RobotState, grid: Grid)
    ensures |Trace(start, ProgramLines(code), grid)| == 1 + CommandCount(TrimAll(SplitLines(code)))
  {
    TraceLength(start, ProgramLines(code), grid);
    BlankLinesCountNothing(TrimAll(SplitLines(code)));
  }

  /** One loop iteration of the interpreter keeps history and remaining trace in step. */
  lemma TraceAfterLine(before: seq<RobotState>, state: RobotState, history: seq<RobotState>,
                       line: string, rest: seq<string>, grid: Grid)
    requires |before| >= 1
    requires Step(before[|before| - 1], line, grid).None? ==> history == before && state == before[|before| - 1]
    requires Step(before[|before| - 1], line, grid).Some? ==>
               state == Step(before[|before| - 1], line, grid).value && history == before + [state]
    ensures |history| >= 1 && history[|history| - 1] == state
    ensures history + Trace(state, rest, grid)[1..]
         == before + Trace(before[|before| - 1], [line] + rest, grid)[1..]
  {
    var last := before[|before| - 1];
    assert ([line] + rest)[1..] == rest;
    var t := Trace(state, rest, grid);
    if Step(last, line, grid).Some? {
      assert Trace(last, [line] + rest, grid) == [last] + t;
      assert ([last] + t)[1..] == t;
      assert t == [state] + t[1..];
    }
  }

  // ---------------------------------------------------------------------------
  // Properties of the trace
  // ---------------------------------------------------------------------------

  /** The first line of a program either adds nothing or contributes its state. */
  lemma TraceCons(start: RobotState, lines: seq<string>, grid: Grid)
    requires lines != []
    ensures Step(start, lines[0], grid).None? ==> Trace(start, lines, grid) == Trace(start, lines[1..], grid)
    ensures Step(start, lines[0], grid).Some? ==>
              Trace(start, lines, grid) == [start] + Trace(Step(start, lines[0], grid).value, lines[1..], grid)
  {
  }

  /** The history holds the start state plus one state per MOVE, TURN LEFT or TURN RIGHT. */
  lemma {:induction false} TraceLength(start: RobotState, lines: seq<string>, grid: Grid)
    ensures |Trace(start, lines, grid)| == 1 + CommandCount(lines)
    decreases |lines|
  {
    if lines != [] {
      match Step(start, lines[0], grid)
      case None => TraceLength(start, lines[1..], grid);
      case Some(next) => TraceLength(next, lines[1..], grid);
    }
  }

  /** Dropping blank lines does not change how many commands there are. */
  lemma {:induction false} BlankLinesCountNothing(lines: seq<string>)
    ensures CommandCount(NonBlank(lines)) == CommandCount(lines)
  {
    if lines != [] {
      BlankLinesCountNothing(lines[1..]);
      if lines[0] != "" {
        assert NonBlank(lines) == [lines[0]] + NonBlank(lines[1..]);
        assert ([lines[0]] + NonBlank(lines[1..]))[1..] == NonBlank(lines[1..]);
      }
    }
  }

  /** A line other than MOVE, TURN LEFT and TURN RIGHT (PICKUP, IF …, END, anything) adds nothing. */
  lemma IgnoredLineAddsNothing(start: RobotState, line: string, rest: seq<string>, grid: Grid)
    requires !IsPrimitive(line)
    ensures Trace(start, [line] + rest, grid) == Trace(start, rest, grid)
  {
    assert ([line] + rest)[1..] == rest;
  }

  /** A blocked MOVE still records a state: the unchanged one, repeated. */
  lemma BlockedMoveRepeatsState(start: RobotState, rest: seq<string>, grid: Grid)
    requires !Passable(grid, Ahead(start))
    ensures Trace(start, ["MOVE"] + rest, grid)[..2] == [start, start]
  {
    assert (["MOVE"] + rest)[1..] == rest;
  }

  /**
   * Two consecutive poses are one action apart: a quarter turn on the spot, or
   * the same direction with the position unchanged or one cell ahead.
   */
  predicate OneActionApart(a: RobotState, b: RobotState) {
    || (b.x == a.x && b.y == a.y && (b.direction == Turn(a.direction, ToLeft) || b.direction == Turn(a.direction, ToRight)))
    || (b.direction == a.direction && (b == a || Pos(b.x, b.y) == Ahead(a)))
  }

  lemma {:induction false} TraceStepsAreAdjacent(start: RobotState, lines: seq<string>, grid: Grid)
    ensures var h := Trace(start, lines, grid);
      forall i :: 0 <= i < |h| - 1 ==> OneActionApart(h[i], h[i + 1])
    decreases |lines|
  {
    if lines != [] {
      TraceCons(start, lines, grid);
      var h := Trace(start, lines, grid);
      match Step(start, lines[0], grid)
      case None => TraceStepsAreAdjacent(start, lines[1..], grid);
      case Some(next) =>
        TraceStepsAreAdjacent(next, lines[1..], grid);
        var t := Trace(next, lines[1..], grid);
        assert h == [start] + t;
        forall i | 0 <= i < |h| - 1 ensures OneActionApart(h[i], h[i + 1]) {
          if i == 0 {
            assert h[0] == start && h[1] == next;
            TurnInverse(start.direction);
          } else {
            assert h[i] == t[i - 1] && h[i + 1] == t[i];
          }
        }
    }
  }

  /** Starting off the walls, the robot never stands on a wall anywhere in the history. */
  lemma {:induction false} TraceAvoidsWalls(start: RobotState, lines: seq<string>, grid: Grid)
    requires !OnWall(grid, start)
    ensures var h := Trace(start, lines, grid);
      forall i :: 0 <= i < |h| ==> !OnWall(grid, h[i])
    decreases |lines|
  {
    if lines != [] {
      TraceCons(start, lines, grid);
      var h := Trace(start, lines, grid);
      match Step(start, lines[0], grid)
      case None => TraceAvoidsWalls(start, lines[1..], grid);
      case Some(next) =>
        MoveAvoidsWalls(start, grid);
        assert !OnWall(grid, next);
        TraceAvoidsWalls(next, lines[1..], grid);
        var t := Trace(next, lines[1..], grid);
        assert h == [start] + t;
        forall i | 0 <= i < |h| ensures !OnWall(grid, h[i]) {
          if i > 0 {
            assert h[i] == t[i - 1];
          }
        }
    }
  }

  lemma SplitThreeLines(code: string, move: string, pickup: string)
    requires move == "MOVE" && pickup == "PICKUP"
    requires code == move + "\n" + (pickup + "\n" + move)
    ensures SplitLines(code) == [move, pickup, move]
  {
    SplitLinesSingle(move);
    SplitLinesCons(pickup, move);
    SplitLinesCons(move, pickup + "\n" + move);
  }

  lemma CleanThreeLines(split: seq<string>, move: string, pickup: string)
    requires move == "MOVE" && pickup == "PICKUP"
    requires split == [move, pickup, move]
    ensures NonBlank(TrimAll(split)) == split
  {
    assert TrimAll(split) == split;
    assert split[1..] == [pickup, move] && split[1..][1..] == [move] && split[1..][1..][1..] == [];
    assert NonBlank([move]) == [move];
    assert NonBlank([pickup, move]) == [pickup, move];
  }

  /** Level 1's solution splits into three program lines, PICKUP among them. */
  lemma Level1Lines(code: string)
    requires code == Level1().solution
    ensures ProgramLines(code) == ["MOVE", "PICKUP", "MOVE"]
  {
    var move, pickup := "MOVE", "PICKUP";
    assert code == move + "\n" + (pickup + "\n" + move);
    SplitThreeLines(code, move, pickup);
    CleanThreeLines(SplitLines(code), move, pickup);
  }

  lemma Level1Moves(grid: Grid)
    requires grid == Level1().grid
    ensures Move(RobotState(1, 1, Right), grid) == RobotState(2, 1, Right)
    ensures Move(RobotState(2, 1, Right), grid) == RobotState(3, 1, Right)
  {
  }

  /** Level 1's solution: PICKUP is ignored and the two moves reach the goal cell. */
  lemma Level1Solution(level: Level)
    requires level == Level1()
    ensures Trace(level.start, ProgramLines(level.solution), level.grid)
         == [RobotState(1, 1, Right), RobotState(2, 1, Right), RobotState(3, 1, Right)]
  {
    Level1Lines(level.solution);
    Level1Moves(level.grid);
    Level1Trace(level.start, ProgramLines(level.solution), level.grid);
  }

  lemma Level1Trace(s0: RobotState, lines: seq<string>, grid: Grid)
    requires s0 == RobotState(1, 1, Right) && lines == ["MOVE", "PICKUP", "MOVE"]
    requires Move(s0, grid) == RobotState(2, 1, Right)
    requires Move(RobotState(2, 1, Right), grid) == RobotState(3, 1, Right)
    ensures Trace(s0, lines, grid) == [s0, RobotState(2, 1, Right), RobotState(3, 1, Right)]
  {
    var s1, s2 := RobotState(2, 1, Right), RobotState(3, 1, Right);
    assert lines[1..] == ["PICKUP", "MOVE"] && lines[1..][1..] == ["MOVE"] && lines[1..][1..][1..] == [];
    assert Trace(s2, [], grid) == [s2];
    assert Trace(s1, ["MOVE"], grid) == [s1, s2];
    assert Trace(s1, ["PICKUP", "MOVE"], grid) == [s1, s2];
  }
}
