/**
 * The level builder: a square grid that the author paints tile by tile, with
 * at most one start and one goal whose positions are remembered beside the
 * grid; the level descriptor built from it with defaults for a missing start,
 * goal or name; the gate that runs a solution only when it validates; and the
 * verdict on a finished run.
 */
module LevelBuilder {
  import opened Wrappers
  import opened Levels
  import opened JsText
  import Interpreter
  import Validation
  import Commands

  const DefaultGridSize: nat := 5

  // ---------------------------------------------------------------------------
  // Cells
  // ---------------------------------------------------------------------------

  /** An n-by-n grid. */
  predicate Square(grid: Grid, n: nat) {
    |grid| == n && forall y :: 0 <= y < n ==> |grid[y]| == n
  }

  /** `newGrid[y][x] = t` on the row-wise copy. */
  function SetCell(grid: Grid, x: nat, y: nat, t: Tile): (r: Grid)
    requires y < |grid| && x < |grid[y]|
    ensures |r| == |grid| && forall j :: 0 <= j < |r| ==> |r[j]| == |grid[j]|
    ensures forall j, i :: 0 <= j < |r| && 0 <= i < |r[j]| ==>
      r[j][i] == (if i == x && j == y then t else grid[j][i])
  {
    grid[y := grid[y][x := t]]
  }

  /** An n-by-n grid of empty cells. */
  function EmptyGrid(n: nat): (r: Grid)
    ensures Square(r, n)
    ensures forall y, x :: 0 <= y < n && 0 <= x < n ==> r[y][x] == Empty
  {
    seq(n, _ => seq(n, _ => Empty))
  }

  // ---------------------------------------------------------------------------
  // The board: grid plus remembered start and goal
  // ---------------------------------------------------------------------------

  /** What `handlePlaceTile` reads and writes: the grid and the two remembered positions. */
  datatype Board = Board(grid: Grid, startPos: Option<RobotState>, goalPos: Option<Pos>)

  function StartCell(startPos: Option<RobotState>): Option<Pos> {
    if startPos.Some? then Some(Pos(startPos.value.x, startPos.value.y)) else None
  }

  /** The grid is n-by-n and the remembered positions lie on it. */
  predicate Fits(b: Board, n: nat) {
    Square(b.grid, n)
    && (b.startPos.Some? ==> 0 <= b.startPos.value.x < n && 0 <= b.startPos.value.y < n)
    && (b.goalPos.Some? ==> 0 <= b.goalPos.value.x < n && 0 <= b.goalPos.value.y < n)
  }

  /** Every cell holding `t` is at `pos`: so there is at most one, and none when `pos` is None. */
  predicate Tracked(grid: Grid, t: Tile, pos: Option<Pos>) {
    forall y, x :: 0 <= y < |grid| && 0 <= x < |grid[y]| && grid[y][x] == t ==> pos == Some(Pos(x, y))
  }

  /** At most one start cell and at most one goal cell, each at its remembered position. */
  predicate AtMostOne(b: Board) {
    Tracked(b.grid, Start, StartCell(b.startPos)) && Tracked(b.grid, Goal, b.goalPos)
  }

  /** In addition, a remembered position always holds its tile. */
  predicate Consistent(b: Board, n: nat) {
    Fits(b, n) && AtMostOne(b)
    && (b.startPos.Some? ==> b.grid[b.startPos.value.y][b.startPos.value.x] == Start)
    && (b.goalPos.Some? ==> b.grid[b.goalPos.value.y][b.goalPos.value.x] == Goal)
  }

  /** Two tracked cells of the same tile are the same cell. */
  lemma TrackedAtMostOne(grid: Grid, t: Tile, pos: Option<Pos>, x1: nat, y1: nat, x2: nat, y2: nat)
    requires Tracked(grid, t, pos)
    requires y1 < |grid| && x1 < |grid[y1]| && grid[y1][x1] == t
    requires y2 < |grid| && x2 < |grid[y2]| && grid[y2][x2] == t
    ensures x1 == x2 && y1 == y2
  {
  }

  /** `handlePlaceTile(x, y)` with `selectedTile` as `tile`, as the source writes it. */
  function Placed(b: Board, tile: Tile, x: nat, y: nat, n: nat): (r: Board)
    requires Fits(b, n) && x < n && y < n
    ensures Fits(r, n)
  {
    if tile == Start then
      var g := if b.startPos.Some? then SetCell(b.grid, b.startPos.value.x, b.startPos.value.y, Empty)
               else b.grid;
      Board(SetCell(g, x, y, Start), Some(RobotState(x, y, Right)), b.goalPos)
    else if tile == Goal then
      var g := if b.goalPos.Some? then SetCell(b.grid, b.goalPos.value.x, b.goalPos.value.y, Empty)
               else b.grid;
      Board(SetCell(g, x, y, Goal), b.startPos, Some(Pos(x, y)))
    else
      var startPos := if b.grid[y][x] == Start then None else b.startPos;
      var goalPos := if b.grid[y][x] == Goal then None else b.goalPos;
      Board(SetCell(b.grid, x, y, tile), startPos, goalPos)
  }

  /** Placing any tile keeps at most one start and at most one goal on the grid. */
  lemma PlacedKeepsAtMostOne(b: Board, tile: Tile, x: nat, y: nat, n: nat)
    requires Fits(b, n) && AtMostOne(b) && x < n && y < n
    ensures AtMostOne(Placed(b, tile, x, y, n))
  {
    var r := Placed(b, tile, x, y, n);
    forall j, i | 0 <= j < |r.grid| && 0 <= i < |r.grid[j]| && r.grid[j][i] == Start
      ensures StartCell(r.startPos) == Some(Pos(i, j))
    {
      if !(i == x && j == y) {
        assert b.grid[j][i] == Start;
      }
    }
    forall j, i | 0 <= j < |r.grid| && 0 <= i < |r.grid[j]| && r.grid[j][i] == Goal
      ensures r.goalPos == Some(Pos(i, j))
    {
      if !(i == x && j == y) {
        assert b.grid[j][i] == Goal;
      }
    }
  }

  /**
   * Placing changes only cell (x, y), which then holds the tile, and, when a
   * start or goal is placed, the cell of the previous start or goal, which
   * becomes empty. The remembered positions follow the placement.
   */
  lemma PlacedFrame(b: Board, tile: Tile, x: nat, y: nat, n: nat)
    requires Fits(b, n) && x < n && y < n
    ensures var r := Placed(b, tile, x, y, n);
      r.grid[y][x] == tile
      && (forall j, i :: 0 <= j < n && 0 <= i < n && !(i == x && j == y)
            && !(tile == Start && StartCell(b.startPos) == Some(Pos(i, j)))
            && !(tile == Goal && b.goalPos == Some(Pos(i, j)))
            ==> r.grid[j][i] == b.grid[j][i])
    ensures var r := Placed(b, tile, x, y, n);
      tile == Start ==> r.startPos == Some(RobotState(x, y, Right)) && r.goalPos == b.goalPos
    ensures var r := Placed(b, tile, x, y, n);
      tile == Goal ==> r.goalPos == Some(Pos(x, y)) && r.startPos == b.startPos
    ensures var r := Placed(b, tile, x, y, n);
      tile == Start && b.startPos.Some? && StartCell(b.startPos) != Some(Pos(x, y)) ==>
        r.grid[b.startPos.value.y][b.startPos.value.x] == Empty
    ensures var r := Placed(b, tile, x, y, n);
      tile == Goal && b.goalPos.Some? && b.goalPos != Some(Pos(x, y)) ==>
        r.grid[b.goalPos.value.y][b.goalPos.value.x] == Empty
    ensures var r := Placed(b, tile, x, y, n);
      tile != Start && tile != Goal ==>
        r.startPos == (if b.grid[y][x] == Start then None else b.startPos)
        && r.goalPos == (if b.grid[y][x] == Goal then None else b.goalPos)
  {
  }

  /**
   * The source keeps a stale position: on any consistent board with a start,
   * placing the goal on the start's cell overwrites the start tile but keeps
   * the start position, and placing a start on any other cell afterwards then
   * clears the goal tile while the goal position still names its cell.
   */
  lemma PlacedLeavesStalePosition(b: Board, n: nat, x: nat, y: nat)
    requires Consistent(b, n) && b.startPos.Some?
    requires x < n && y < n && StartCell(b.startPos) != Some(Pos(x, y))
    ensures var sx, sy := b.startPos.value.x, b.startPos.value.y;
      var b2 := Placed(b, Goal, sx, sy, n);
      b2.grid[sy][sx] == Goal && b2.startPos == b.startPos && !Consistent(b2, n)
    ensures var sx, sy := b.startPos.value.x, b.startPos.value.y;
      var b3 := Placed(Placed(b, Goal, sx, sy, n), Start, x, y, n);
      b3.grid[sy][sx] == Empty && b3.goalPos == Some(Pos(sx, sy)) && !Consistent(b3, n)
  {
    var sx, sy := b.startPos.value.x, b.startPos.value.y;
    PlacedFrame(b, Goal, sx, sy, n);
    var b2 := Placed(b, Goal, sx, sy, n);
    PlacedFrame(b2, Start, x, y, n);
  }

  /**
   * `handlePlaceTile` with the other remembered position cleared too when its
   * cell is overwritten by a start or a goal, as the branch for the other tiles
   * already does.
   */
  function PlacedCorrected(b: Board, tile: Tile, x: nat, y: nat, n: nat): (r: Board)
    requires Fits(b, n) && x < n && y < n
    ensures Fits(r, n)
  {
    var r := Placed(b, tile, x, y, n);
    if tile == Start && b.grid[y][x] == Goal then r.(goalPos := None)
    else if tile == Goal && b.grid[y][x] == Start then r.(startPos := None)
    else r
  }

  /** The corrected placement keeps every remembered position on a cell holding its tile. */
  lemma PlacedCorrectedKeepsConsistent(b: Board, tile: Tile, x: nat, y: nat, n: nat)
    requires Consistent(b, n) && x < n && y < n
    ensures Consistent(PlacedCorrected(b, tile, x, y, n), n)
  {
    PlacedKeepsAtMostOne(b, tile, x, y, n);
    var r := PlacedCorrected(b, tile, x, y, n);
    var p := Placed(b, tile, x, y, n);
    assert AtMostOne(r) by {
      forall j, i | 0 <= j < |r.grid| && 0 <= i < |r.grid[j]| && r.grid[j][i] == Start
        ensures StartCell(r.startPos) == Some(Pos(i, j))
      {
        assert p.grid[j][i] == Start;
      }
      forall j, i | 0 <= j < |r.grid| && 0 <= i < |r.grid[j]| && r.grid[j][i] == Goal
        ensures r.goalPos == Some(Pos(i, j))
      {
        assert p.grid[j][i] == Goal;
      }
    }
  }

  /** Apart from those two cases the corrected placement is the source's. */
  lemma PlacedCorrectedAgrees(b: Board, tile: Tile, x: nat, y: nat, n: nat)
    requires Fits(b, n) && x < n && y < n
    requires !(tile == Start && b.grid[y][x] == Goal) && !(tile == Goal && b.grid[y][x] == Start)
    ensures PlacedCorrected(b, tile, x, y, n) == Placed(b, tile, x, y, n)
  {
  }

  // ---------------------------------------------------------------------------
  // Changing the grid size
  // ---------------------------------------------------------------------------

  /** The tile a cell gets when the grid is rebuilt around the remembered positions. */
  function ResetCell(startPos: Option<RobotState>, goalPos: Option<Pos>, x: int, y: int): Tile {
    if StartCell(startPos) == Some(Pos(x, y)) then Start
    else if goalPos == Some(Pos(x, y)) then Goal
    else Empty
  }

  /** The n-by-n grid holding the start and goal tiles at the given positions, empty elsewhere. */
  function RebuiltGrid(startPos: Option<RobotState>, goalPos: Option<Pos>, n: nat): (g: Grid)
    ensures Square(g, n)
    ensures forall y, x :: 0 <= y < n && 0 <= x < n ==> g[y][x] == ResetCell(startPos, goalPos, x, y)
  {
    seq(n, y => seq(n, x => ResetCell(startPos, goalPos, x, y)))
  }

  /**
   * The reset after a grid size change, as the source writes it: a fresh
   * n-by-n grid that keeps the start and goal tiles where they fit, after
   * which both remembered positions are forgotten.
   */
  function Resized(b: Board, n: nat): (r: Board)
    ensures Fits(r, n) && r.startPos == None && r.goalPos == None
    ensures forall y, x :: 0 <= y < n && 0 <= x < n ==>
      (r.grid[y][x] == Start <==> StartCell(b.startPos) == Some(Pos(x, y)))
    ensures forall y, x :: 0 <= y < n && 0 <= x < n ==>
      (r.grid[y][x] == Goal <==> b.goalPos == Some(Pos(x, y)) && StartCell(b.startPos) != Some(Pos(x, y)))
    ensures forall y, x :: 0 <= y < n && 0 <= x < n ==> r.grid[y][x] in {Start, Goal, Empty}
  {
    Board(RebuiltGrid(b.startPos, b.goalPos, n), None, None)
  }

  /**
   * After a size change that the start fits, the start tile survives with no
   * remembered position, so placing a start on any other cell does not clear
   * it: the grid then holds two starts.
   */
  lemma ResizeThenPlaceDuplicatesStart(b: Board, m: nat, n: nat, x: nat, y: nat)
    requires Consistent(b, m) && b.startPos.Some?
    requires b.startPos.value.x < n && b.startPos.value.y < n
    requires x < n && y < n && StartCell(b.startPos) != Some(Pos(x, y))
    ensures !AtMostOne(Resized(b, n))
    ensures var b3 := Placed(Resized(b, n), Start, x, y, n);
      b3.grid[b.startPos.value.y][b.startPos.value.x] == Start && b3.grid[y][x] == Start
  {
    var sx, sy := b.startPos.value.x, b.startPos.value.y;
    var r := Resized(b, n);
    assert r.grid[sy][sx] == Start;
    PlacedFrame(r, Start, x, y, n);
  }

  /**
   * The reset keeping what it rebuilds: the start and goal positions that fit
   * the new size are remembered together with their tiles.
   */
  function ResizedCorrected(b: Board, n: nat): (r: Board)
    ensures Fits(r, n)
  {
    var startPos := if b.startPos.Some? && 0 <= b.startPos.value.x < n && 0 <= b.startPos.value.y < n
                    then b.startPos else None;
    var goalPos := if b.goalPos.Some? && 0 <= b.goalPos.value.x < n && 0 <= b.goalPos.value.y < n
                   then b.goalPos else None;
    Board(RebuiltGrid(startPos, goalPos, n), startPos, goalPos)
  }

  /** The corrected reset turns a consistent board into a consistent board of the new size. */
  lemma ResizedCorrectedKeepsConsistent(b: Board, m: nat, n: nat)
    requires Consistent(b, m)
    ensures Consistent(ResizedCorrected(b, n), n)
  {
    var r := ResizedCorrected(b, n);
    if r.startPos.Some? && r.goalPos.Some? {
      var sp, gp := r.startPos.value, r.goalPos.value;
      assert b.grid[sp.y][sp.x] == Start && b.grid[gp.y][gp.x] == Goal;
      assert StartCell(r.startPos) != r.goalPos;
    }
    forall y, x | 0 <= y < |r.grid| && 0 <= x < |r.grid[y]| && r.grid[y][x] == Goal
      ensures r.goalPos == Some(Pos(x, y))
    {
      assert ResetCell(r.startPos, r.goalPos, x, y) == Goal;
    }
  }

  /** Where both positions fit the new size, the corrected reset builds the source's grid. */
  lemma ResizedCorrectedAgrees(b: Board, m: nat, n: nat)
    requires Fits(b, m)
    requires b.startPos.Some? ==> b.startPos.value.x < n && b.startPos.value.y < n
    requires b.goalPos.Some? ==> b.goalPos.value.x < n && b.goalPos.value.y < n
    ensures ResizedCorrected(b, n).grid == Resized(b, n).grid
  {
  }

  // ---------------------------------------------------------------------------
  // Counting berries
  // ---------------------------------------------------------------------------

  /** How many cells of `cells` hold `t`. */
  function CountTile(cells: seq<Tile>, t: Tile): (r: nat)
    ensures r <= |cells|
    ensures r == 0 <==> t !in cells
  {
    if cells == [] then 0 else (if cells[0] == t then 1 else 0) + CountTile(cells[1..], t)
  }

  /** `grid.flat()` */
  function Flatten(grid: Grid): seq<Tile> {
    if grid == [] then [] else grid[0] + Flatten(grid[1..])
  }

  /** A tile is in the flattened grid exactly when some row holds it. */
  lemma {:induction false} FlattenHas(grid: Grid, t: Tile)
    ensures t in Flatten(grid) <==> exists y :: 0 <= y < |grid| && t in grid[y]
    decreases |grid|
  {
    if grid != [] {
      FlattenHas(grid[1..], t);
      if exists y :: 0 <= y < |grid| && t in grid[y] {
        var y :| 0 <= y < |grid| && t in grid[y];
        if y > 0 {
          assert t in grid[1..][y - 1];
        }
      }
      if exists y :: 0 <= y < |grid[1..]| && t in grid[1..][y] {
        var y :| 0 <= y < |grid[1..]| && t in grid[1..][y];
        assert t in grid[y + 1];
      }
    }
  }

  /**
   * `grid.flat().filter((t) => t === "berry").length`: never more than there
   * are cells, and zero exactly when no row holds a berry.
   */
  function BerryCount(grid: Grid): (r: nat)
    ensures r <= |Flatten(grid)|
    ensures r == 0 <==> forall y :: 0 <= y < |grid| ==> Berry !in grid[y]
  {
    FlattenHas(grid, Berry);
    CountTile(Flatten(grid), Berry)
  }

  lemma {:induction false} CountTileAppend(a: seq<Tile>, b: seq<Tile>, t: Tile)
    ensures CountTile(a + b, t) == CountTile(a, t) + CountTile(b, t)
    decreases |a|
  {
    if a != [] {
      assert (a + b)[1..] == a[1..] + b;
      CountTileAppend(a[1..], b, t);
    } else {
      assert a + b == b;
    }
  }

  /** Writing one cell changes the count by what left and what arrived. */
  lemma {:induction false} CountTileUpdate(s: seq<Tile>, i: nat, v: Tile, t: Tile)
    requires i < |s|
    ensures CountTile(s[i := v], t) + (if s[i] == t then 1 else 0)
         == CountTile(s, t) + (if v == t then 1 else 0)
    decreases |s|
  {
    if i > 0 {
      assert s[i := v][1..] == s[1..][i - 1 := v];
      CountTileUpdate(s[1..], i - 1, v, t);
    }
  }

  lemma {:induction false} FlattenSplit(grid: Grid, y: nat)
    requires y < |grid|
    ensures Flatten(grid) == Flatten(grid[..y]) + grid[y] + Flatten(grid[y + 1..])
    decreases y
  {
    if y == 0 {
      assert grid[..0] == [] && grid[1..] == grid[y + 1..];
    } else {
      FlattenSplit(grid[1..], y - 1);
      assert grid[1..][..y - 1] == grid[1..y] && grid[1..][y..] == grid[y + 1..];
      assert grid[..y] == [grid[0]] + grid[1..y];
      assert Flatten(grid[..y]) == grid[0] + Flatten(grid[1..y]) by {
        assert grid[..y][1..] == grid[1..y];
      }
    }
  }

  /** Writing one cell of the grid changes the berry count by what left and what arrived. */
  lemma BerryCountSetCell(grid: Grid, x: nat, y: nat, t: Tile)
    requires y < |grid| && x < |grid[y]|
    ensures BerryCount(SetCell(grid, x, y, t)) + (if grid[y][x] == Berry then 1 else 0)
         == BerryCount(grid) + (if t == Berry then 1 else 0)
  {
    var g := SetCell(grid, x, y, t);
    FlattenSplit(grid, y);
    FlattenSplit(g, y);
    assert g[..y] == grid[..y] && g[y + 1..] == grid[y + 1..];
    var a, c := Flatten(grid[..y]), Flatten(grid[y + 1..]);
    CountTileAppend(a + grid[y], c, Berry);
    CountTileAppend(a, grid[y], Berry);
    CountTileAppend(a + g[y], c, Berry);
    CountTileAppend(a, g[y], Berry);
    CountTileUpdate(grid[y], x, t, Berry);
  }

  /**
   * On a consistent board a corrected placement changes the berry count only
   * through cell (x, y): a berry placed adds one, a berry painted over removes one.
   */
  lemma PlacedBerryCount(b: Board, tile: Tile, x: nat, y: nat, n: nat)
    requires Consistent(b, n) && x < n && y < n
    ensures BerryCount(PlacedCorrected(b, tile, x, y, n).grid) + (if b.grid[y][x] == Berry then 1 else 0)
         == BerryCount(b.grid) + (if tile == Berry then 1 else 0)
  {
    if tile == Start && b.startPos.Some? {
      var g := SetCell(b.grid, b.startPos.value.x, b.startPos.value.y, Empty);
      BerryCountSetCell(b.grid, b.startPos.value.x, b.startPos.value.y, Empty);
      BerryCountSetCell(g, x, y, Start);
    } else if tile == Goal && b.goalPos.Some? {
      var g := SetCell(b.grid, b.goalPos.value.x, b.goalPos.value.y, Empty);
      BerryCountSetCell(b.grid, b.goalPos.value.x, b.goalPos.value.y, Empty);
      BerryCountSetCell(g, x, y, Goal);
    } else {
      BerryCountSetCell(b.grid, x, y, tile);
    }
  }

  // ---------------------------------------------------------------------------
  // The verdict on a run
  // ---------------------------------------------------------------------------

  /**
   * `Object.values(berries).every((v) => v)`: every berry is collected exactly
   * when a pickup on any of their cells would change nothing.
   */
  predicate AllCollected(berries: map<string, bool>)
    ensures AllCollected(berries) <==> forall k :: k in berries ==> Commands.Collect(berries, k) == berries
  {
    forall k :: k in berries ==> berries[k]
  }

  datatype Verdict = Success | NotAllBerries | GoalNotReached

  /**
   * The check after a run: success needs the last state on the goal and every
   * berry collected; when berries are missing that is reported, whatever the
   * position.
   */
  function Judge(history: seq<RobotState>, goal: Pos, berries: map<string, bool>): (v: Verdict)
    requires |history| >= 1
    ensures var last := history[|history| - 1];
      v == Success <==> last.x == goal.x && last.y == goal.y && AllCollected(berries)
    ensures v == NotAllBerries <==> !AllCollected(berries)
    ensures var last := history[|history| - 1];
      v == GoalNotReached <==> AllCollected(berries) && !(last.x == goal.x && last.y == goal.y)
  {
    var last := history[|history| - 1];
    var all := AllCollected(berries);
    if last.x == goal.x && last.y == goal.y && all then Success
    else if !all then NotAllBerries
    else GoalNotReached
  }

  /** PICKUP at each key of `keys` in turn. */
  function CollectEach(berries: map<string, bool>, keys: seq<string>): map<string, bool>
    decreases |keys|
  {
    if keys == [] then berries else CollectEach(Commands.Collect(berries, keys[0]), keys[1..])
  }

  /**
   * Picking up on a list of cells collects everything exactly when every berry
   * that was still uncollected lies on one of those cells.
   */
  lemma {:induction false} CollectEachAll(berries: map<string, bool>, keys: seq<string>)
    ensures AllCollected(CollectEach(berries, keys)) <==>
      forall k :: k in berries && !berries[k] ==> k in keys
    decreases |keys|
  {
    if keys != [] {
      var m := Commands.Collect(berries, keys[0]);
      Commands.CollectFrame(berries, keys[0]);
      CollectEachAll(m, keys[1..]);
      assert forall k :: k in keys <==> k == keys[0] || k in keys[1..];
    }
  }

  // ---------------------------------------------------------------------------
  // The builder page
  // ---------------------------------------------------------------------------

  /** The object `buildLevel` returns: a level descriptor plus the chosen difficulty. */
  datatype BuiltLevel = BuiltLevel(level: Level, difficulty: int)

  /**
   * `> Error (line N): message`, one console line per validation error: the
   * fixed prefix, the line number in decimal, `): ` and the message.
   */
  function ErrorLog(e: Validation.PseudoCodeError): (r: string)
    ensures |r| >= 14 + 1 + 3 + |e.message|
    ensures r[..14] == "> Error (line "
    ensures var digits := r[14..|r| - |e.message| - 3]; IntText(digits) && ParseInt(digits) == e.line
    ensures r[|r| - |e.message| - 3..|r| - |e.message|] == "): " && r[|r| - |e.message|..] == e.message
  {
    var digits := IntToString(e.line);
    ParseIntToString(e.line);
    var r := "> Error (line " + digits + "): " + e.message;
    assert r[..14] == "> Error (line " && r[14..|r| - |e.message| - 3] == digits;
    assert r[|r| - |e.message| - 3..|r| - |e.message|] == "): " && r[|r| - |e.message|..] == e.message;
    r
  }

  function ErrorLogs(errors: seq<Validation.PseudoCodeError>): (r: seq<string>)
    ensures |r| == |errors|
    ensures forall i :: 0 <= i < |r| ==> r[i] == ErrorLog(errors[i])
  {
    if errors == [] then [] else [ErrorLog(errors[0])] + ErrorLogs(errors[1..])
  }

  /** What a test run ends in: the error console, or the history of a run. */
  datatype TestOutcome = Rejected(logs: seq<string>) | Ran(history: seq<RobotState>)

  /** The state of the level builder page that the modelled handlers use. */
  class LevelEditor {
    var name: string
    var tutorial: string
    var difficulty: int
    var solution: string
    var gridSize: nat
    var selectedTile: Tile
    var grid: Grid
    var startPos: Option<RobotState>
    var goalPos: Option<Pos>

    function Snapshot(): Board
      reads this
    {
      Board(grid, startPos, goalPos)
    }

    /**
     * The grid is gridSize-by-gridSize and the remembered positions lie on it.
     * At most one start and goal is not kept: a size change can leave a start
     * or goal tile with no remembered position.
     */
    predicate Valid()
      reads this
    {
      Fits(Snapshot(), gridSize)
    }

    /** The page as it first renders: a 5-by-5 empty grid with the wall tile selected. */
    constructor ()
      ensures Valid()
      ensures name == "" && tutorial == "" && difficulty == 1 && solution == ""
      ensures gridSize == DefaultGridSize && grid == EmptyGrid(DefaultGridSize)
      ensures selectedTile == Wall && startPos == None && goalPos == None
    {
      name, tutorial, difficulty, solution := "", "", 1, "";
      gridSize := DefaultGridSize;
      selectedTile := Wall;
      grid := EmptyGrid(DefaultGridSize);
      startPos, goalPos := None, None;
    }

    /** `handlePlaceTile(x, y)`: paint the selected tile on a copy of the grid, then keep it. */
    method PlaceTile(x: nat, y: nat)
      requires Valid() && x < gridSize && y < gridSize
      modifies this
      ensures name == old(name) && tutorial == old(tutorial) && difficulty == old(difficulty)
      ensures solution == old(solution) && gridSize == old(gridSize) && selectedTile == old(selectedTile)
      ensures Valid()
      ensures Snapshot() == Placed(old(Snapshot()), selectedTile, x, y, gridSize)
      ensures old(AtMostOne(Snapshot())) ==> AtMostOne(Snapshot())
    {
      if AtMostOne(Snapshot()) {
        PlacedKeepsAtMostOne(Snapshot(), selectedTile, x, y, gridSize);
      }
      var newGrid := grid;
      if selectedTile == Start {
        if startPos.Some? {
          newGrid := SetCell(newGrid, startPos.value.x, startPos.value.y, Empty);
        }
        newGrid := SetCell(newGrid, x, y, Start);
        startPos := Some(RobotState(x, y, Right));
      } else if selectedTile == Goal {
        if goalPos.Some? {
          newGrid := SetCell(newGrid, goalPos.value.x, goalPos.value.y, Empty);
        }
        newGrid := SetCell(newGrid, x, y, Goal);
        goalPos := Some(Pos(x, y));
      } else {
        if newGrid[y][x] == Start {
          startPos := None;
        }
        if newGrid[y][x] == Goal {
          goalPos := None;
        }
        newGrid := SetCell(newGrid, x, y, selectedTile);
      }
      grid := newGrid;
    }

    /**
     * Choosing a grid size, with the reset that follows a change: the grid is
     * rebuilt at the new size and both remembered positions are forgotten.
     * Choosing the size already shown changes nothing.
     */
    method SetGridSize(n: nat)
      requires Valid()
      modifies this
      ensures name == old(name) && tutorial == old(tutorial) && difficulty == old(difficulty)
      ensures solution == old(solution) && selectedTile == old(selectedTile)
      ensures gridSize == n && Valid()
      ensures n == old(gridSize) ==> Snapshot() == old(Snapshot())
      ensures n != old(gridSize) ==> Snapshot() == Resized(old(Snapshot()), n)
    {
      if n != gridSize {
        gridSize := n;
        grid := RebuiltGrid(startPos, goalPos, n);
        startPos, goalPos := None, None;
      }
    }

    /**
     * `buildLevel()`: the name defaults to "Untitled", a missing start to (0, 0)
     * facing right and a missing goal to the far corner; the berry count is the
     * number of berry cells.
     */
    function BuildLevel(): (r: BuiltLevel)
      reads this
      ensures r.level.id == 9999 && r.difficulty == difficulty
      ensures r.level.name == (if name == "" then "Untitled" else name) && r.level.name != ""
      ensures startPos.None? ==> r.level.start == RobotState(0, 0, Right)
      ensures goalPos.None? ==> r.level.goal == Pos(gridSize - 1, gridSize - 1)
      ensures r.level.grid == grid && r.level.solution == solution && r.level.tutorial == tutorial
      ensures r.level.berries == Some(BerryCount(grid))
      ensures Valid() && gridSize > 0 ==>
        InBounds(r.level.grid, r.level.start.x, r.level.start.y)
        && InBounds(r.level.grid, r.level.goal.x, r.level.goal.y)
      ensures startPos.Some? ==> r.level.start == startPos.value
      ensures goalPos.Some? ==> r.level.goal == goalPos.value
    {
      var start := if startPos.Some? then startPos.value else RobotState(0, 0, Right);
      var goal := if goalPos.Some? then goalPos.value else Pos(gridSize - 1, gridSize - 1);
      BuiltLevel(
        Level(9999, if name == "" then "Untitled" else name, grid, start, goal, tutorial, solution,
              Some(BerryCount(grid))),
        difficulty)
    }

    /**
     * The gate of "Test Solution" and "Simulate": a solution with validation
     * errors is reported line by line and not run; otherwise it runs on the
     * built level.
     */
    method TestSolution() returns (outcome: TestOutcome)
      ensures var errors := Validation.Errors(SplitLines(solution));
        outcome.Rejected? <==> errors != []
    ensures var errors := Validation.Errors(SplitLines(solution));
        outcome.Rejected? ==> outcome.logs == ErrorLogs(errors)
      ensures outcome.Ran? ==>
        outcome.history == Interpreter.Trace(BuildLevel().level.start, Interpreter.ProgramLines(solution), grid)
    {
      var level := BuildLevel().level;
      var errors := Validation.ValidatePseudoCode(solution);
      if |errors| > 0 {
        return Rejected(ErrorLogs(errors));
      }
      var history := Interpreter.ExecutePseudoCode(solution, level);
      return Ran(history);
    }
  }

  /**
   * A run that starts off the walls stays off them, and the run's lines are the
   * allowed ones: what the gate lets through is safe to animate.
   */
  lemma GatedRunIsSafe(solution: string, level: Level, history: seq<RobotState>)
    requires Validation.Errors(SplitLines(solution)) == []
    requires history == Interpreter.Trace(level.start, Interpreter.ProgramLines(solution), level.grid)
    requires !Interpreter.OnWall(level.grid, level.start)
    ensures forall i :: 0 <= i < |history| ==> !Interpreter.OnWall(level.grid, history[i])
    ensures forall x :: x in Interpreter.ProgramLines(solution) ==> Validation.IsAllowed(x)
  {
    Interpreter.TraceAvoidsWalls(level.start, Interpreter.ProgramLines(solution), level.grid);
    Validation.ValidProgramLinesAllowed(solution);
  }
}
