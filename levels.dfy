/**
 * The level data types of the game: tiles, facing directions, robot poses and
 * the level descriptor the interpreter and the level builder share, with the
 * first built-in level as a fixture.
 */
module Levels {
  import opened Wrappers

  /** The five tile kinds a grid cell can hold. */
  datatype Tile = Empty | Wall | Start | Goal | Berry

  /** A grid is a list of rows, indexed `grid[y][x]` with the origin at the top left. */
  type Grid = seq<seq<Tile>>

  datatype Direction = Up | Down | Left | Right

  /** The robot's pose; `level.start` has exactly this shape. */
  datatype RobotState = RobotState(x: int, y: int, direction: Direction)

  datatype Pos = Pos(x: int, y: int)

  datatype Level = Level(
    id: int,
    name: string,
    grid: Grid,
    start: RobotState,
    goal: Pos,
    tutorial: string,
    solution: string,
    berries: Option<nat>)

  /** True when (x, y) names a cell of the grid (rows may differ in length). */
  predicate InBounds(grid: Grid, x: int, y: int) {
    0 <= y < |grid| && 0 <= x < |grid[y]|
  }

  /** The first built-in level: a corridor start, berry, goal between walls. */
  function Level1(): Level {
    Level(
      1,
      "Level 1: Berry Pickup",
      [ [Wall, Wall, Wall, Wall, Wall],
        [Wall, Start, Berry, Goal, Wall],
        [Wall, Wall, Wall, Wall, Wall] ],
      RobotState(1, 1, Right),
      Pos(3, 1),
      "Sammle die Berry mit PICKUP und erreiche das Ziel.",
      "MOVE\nPICKUP\nMOVE",
      Some(1))
  }
}
