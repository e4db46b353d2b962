/**
 * The pseudocode command registry: every entry has a name that its anchored
 * pattern accepts exactly, and the primitive entries carry an executor. MOVE,
 * TURN LEFT and TURN RIGHT return a new robot state; PICKUP marks the berry
 * under the robot as collected in the shared berry map, in place, and returns
 * nothing. The IF, WHILE and ELSE headers are listed without an executor.
 */
module Commands {
  import opened Wrappers
  import opened Levels
  import opened JsText
  import Interpreter
  import CodeEditor

  // ---------------------------------------------------------------------------
  // The table
  // ---------------------------------------------------------------------------

  /** The executable effect of an entry. */
  datatype Executor = ExecMove | ExecTurnLeft | ExecTurnRight | ExecPickup

  /** One entry: the pattern `/^name$/` is represented by the name it accepts. */
  datatype Command = Command(name: string, execute: Option<Executor>)

  /** `PSEUDOCODE_COMMANDS`, in source order: thirteen entries, no two with the same name. */
  function Registry(): (r: seq<Command>)
    ensures |r| == 13
    ensures forall i, j :: 0 <= i < j < |r| ==> r[i].name != r[j].name
  {
    [
    Command("MOVE", Some(ExecMove)),
    Command("TURN LEFT", Some(ExecTurnLeft)),
    Command("TURN RIGHT", Some(ExecTurnRight)),
    Command("PICKUP", Some(ExecPickup)),
    Command("IF ISBLOCKED", None),
    Command("IF NOT ISBLOCKED", None),
    Command("IF GETBLOCK == berry", None),
    Command("IF GETBLOCK == free", None),
    Command("ELSE", None),
    Command("WHILE ISBLOCKED", None),
    Command("WHILE NOT ISBLOCKED", None),
    Command("WHILE GETBLOCK == berry", None),
    Command("WHILE GETBLOCK == free", None)
    ]
  }

  /** `cmd.pattern.test(line)`: the pattern is anchored at both ends and has no wildcards. */
  predicate Matches(cmd: Command, line: string) {
    line == cmd.name
  }

  /** At most one entry matches any line, so dispatch by pattern is unambiguous. */
  lemma AtMostOneMatch(line: string, i: nat, j: nat)
    requires i < |Registry()| && j < |Registry()|
    requires Matches(Registry()[i], line) && Matches(Registry()[j], line)
    ensures i == j
  {
  }

  /**
   * Exactly the IF, WHILE and ELSE headers come without an executor, and they
   * are exactly the entries after which the editor indents the next line.
   */
  lemma ControlHeadersHaveNoExecutor()
    ensures forall i :: 0 <= i < |Registry()| ==>
      (Registry()[i].execute.None? <==> CodeEditor.OpensBlock(Registry()[i].name))
  {
    var reg := Registry();
    forall i | 0 <= i < |reg|
      ensures reg[i].execute.None? <==> CodeEditor.OpensBlock(reg[i].name)
    {
      var n := reg[i].name;
      if i < 4 {
        assert n[0] != 'I' && n[0] != 'W' && n != "ELSE";
        assert |n| < 3 || n[..3][0] != 'I';
        assert |n| < 6 || n[..6][0] != 'W';
      } else if i < 8 {
        assert n[..3] == "IF ";
      } else if i > 8 {
        assert n[..6] == "WHILE ";
      }
    }
  }

  /** The lines the interpreter acts on are exactly the registry's state-returning entries. */
  lemma InterpreterPrimitivesAreRegistered(line: string)
    ensures Interpreter.IsPrimitive(line) <==>
      exists i :: 0 <= i < |Registry()| && Matches(Registry()[i], line)
                  && Registry()[i].execute.Some? && Registry()[i].execute != Some(ExecPickup)
  {
    var reg := Registry();
    if Interpreter.IsPrimitive(line) {
      if line == "MOVE" {
        assert Matches(reg[0], line);
      } else if line == "TURN LEFT" {
        assert Matches(reg[1], line);
      } else {
        assert Matches(reg[2], line);
      }
    }
  }

  // ---------------------------------------------------------------------------
  // MOVE, TURN LEFT, TURN RIGHT
  // ---------------------------------------------------------------------------

  /** The MOVE executor, with its own copy of the forward step and the blocking test. */
  function ExecuteMove(state: RobotState, level: Level): (r: RobotState)
    ensures r.direction == state.direction
  {
    var nx := state.x + (if state.direction == Left then -1 else if state.direction == Right then 1 else 0);
    var ny := state.y + (if state.direction == Up then -1 else if state.direction == Down then 1 else 0);
    if 0 <= ny < |level.grid| && 0 <= nx < |level.grid[ny]| && level.grid[ny][nx] != Wall then
      state.(x := nx, y := ny)
    else
      state
  }

  /** The MOVE executor and the interpreter's `move` agree on every state and grid. */
  lemma MoveExecutorAgrees(state: RobotState, level: Level)
    ensures ExecuteMove(state, level) == Interpreter.Move(state, level.grid)
  {
  }

  /** The facing directions in the order of the executors' `dirs` list. */
  const Dirs: seq<Direction> := [Up, Right, Down, Left]

  /** `dirs.indexOf(d)` */
  function DirsIndexOf(d: Direction): (i: nat)
    ensures i < |Dirs| && Dirs[i] == d
  {
    match d
    case Up => 0
    case Right => 1
    case Down => 2
    case Left => 3
  }

  /** TURN LEFT: the position is kept and the direction is the interpreter's left turn of it. */
  function ExecuteTurnLeft(state: RobotState): (r: RobotState)
    ensures r.x == state.x && r.y == state.y && r.direction != state.direction
    ensures r.direction == Interpreter.Turn(state.direction, Interpreter.ToLeft)
  {
    Interpreter.TurnTable();
    state.(direction := Dirs[(DirsIndexOf(state.direction) + 3) % 4])
  }

  /** TURN RIGHT: the position is kept and the direction is the interpreter's right turn of it. */
  function ExecuteTurnRight(state: RobotState): (r: RobotState)
    ensures r.x == state.x && r.y == state.y && r.direction != state.direction
    ensures r.direction == Interpreter.Turn(state.direction, Interpreter.ToRight)
  {
    Interpreter.TurnTable();
    state.(direction := Dirs[(DirsIndexOf(state.direction) + 1) % 4])
  }

  /**
   * TURN LEFT moves the direction index i to (i + 3) mod 4 and TURN RIGHT to
   * (i + 1) mod 4; both keep the position, they undo each other, and they agree
   * with the interpreter's `turn`.
   */
  lemma TurnExecutors(state: RobotState)
    ensures DirsIndexOf(ExecuteTurnLeft(state).direction) == (DirsIndexOf(state.direction) + 3) % 4
    ensures DirsIndexOf(ExecuteTurnRight(state).direction) == (DirsIndexOf(state.direction) + 1) % 4
    ensures ExecuteTurnLeft(state).x == state.x && ExecuteTurnLeft(state).y == state.y
    ensures ExecuteTurnRight(state).x == state.x && ExecuteTurnRight(state).y == state.y
    ensures ExecuteTurnRight(ExecuteTurnLeft(state)) == state
    ensures ExecuteTurnLeft(ExecuteTurnRight(state)) == state
    ensures ExecuteTurnLeft(state).direction == Interpreter.Turn(state.direction, Interpreter.ToLeft)
    ensures ExecuteTurnRight(state).direction == Interpreter.Turn(state.direction, Interpreter.ToRight)
  {
    Interpreter.TurnTable();
  }

  // ---------------------------------------------------------------------------
  // PICKUP and the berry map
  // ---------------------------------------------------------------------------

  /**
   * The berry map key of a cell: the template string `${x},${y}`. Reading the
   * text before the first comma and the text after it as integers gives the
   * cell back.
   */
  function Key(x: int, y: int): (r: string)
    ensures 0 <= IndexOf(r, ',') < |r|
    ensures var i := IndexOf(r, ','); IntText(r[..i]) && ParseInt(r[..i]) == x
    ensures var i := IndexOf(r, ','); IntText(r[i + 1..]) && ParseInt(r[i + 1..]) == y
  {
    var a, b := IntToString(x), IntToString(y);
    IndexOfAfter(a, ',', b);
    assert a + "," + b == a + [','] + b;
    ParseIntToString(x);
    ParseIntToString(y);
    var r := a + "," + b;
    assert r[..|a|] == a && r[|a| + 1..] == b;
    r
  }

  /** Different cells have different keys, so a pickup at one cell leaves the others alone. */
  lemma KeyInjective(x1: int, y1: int, x2: int, y2: int)
    requires Key(x1, y1) == Key(x2, y2)
    ensures x1 == x2 && y1 == y2
  {
    CommaSplitUnique(IntToString(x1), IntToString(y1), IntToString(x2), IntToString(y2));
    IntToStringInjective(x1, x2);
    IntToStringInjective(y1, y2);
  }

  /**
   * The berry map after a pickup at `key`: `if (berries[key] === false) berries[key] = true`.
   * No key is added or removed, the entry at the key is true afterwards, and
   * every other entry is kept.
   */
  function Collect(berries: map<string, bool>, key: string): (r: map<string, bool>)
    ensures r.Keys == berries.Keys
    ensures key in berries ==> r[key]
    ensures forall k :: k in berries && k != key ==> r[k] == berries[k]
  {
    if key in berries && berries[key] == false then berries[key := true] else berries
  }

  /**
   * A pickup sets the entry at the key to true only when it was exactly false:
   * no key is added or removed and every other entry keeps its value.
   */
  lemma CollectFrame(berries: map<string, bool>, key: string)
    ensures Collect(berries, key).Keys == berries.Keys
    ensures key in berries ==> Collect(berries, key)[key]
    ensures forall k :: k in berries && k != key ==> Collect(berries, key)[k] == berries[k]
    ensures Collect(berries, key) != berries <==> key in berries && !berries[key]
  {
  }

  /** Picking up twice at the same cell is the same as picking up once. */
  lemma CollectIdempotent(berries: map<string, bool>, key: string)
    ensures Collect(Collect(berries, key), key) == Collect(berries, key)
  {
  }

  /** The shared berry map that PICKUP updates in place. */
  class Berries {
    var collected: map<string, bool>

    constructor (initial: map<string, bool>)
      ensures collected == initial
    {
      collected := initial;
    }

    /** The PICKUP executor: mark the berry under the robot as collected. */
    method Pickup(state: RobotState)
      modifies this
      ensures collected == Collect(old(collected), Key(state.x, state.y))
    {
      var key := Key(state.x, state.y);
      if key in collected && collected[key] == false {
        collected := collected[key := true];
      }
    }
  }

  /**
   * Running an entry's executor: MOVE and the turns return a new state and do
   * not touch the berry map; PICKUP returns nothing and updates the map.
   */
  method Execute(exec: Executor, state: RobotState, level: Level, berries: Berries)
    returns (r: Option<RobotState>)
    modifies berries
    ensures exec == ExecMove ==> r == Some(ExecuteMove(state, level))
    ensures exec == ExecTurnLeft ==> r == Some(ExecuteTurnLeft(state))
    ensures exec == ExecTurnRight ==> r == Some(ExecuteTurnRight(state))
    ensures exec == ExecPickup ==> r == None
    ensures exec != ExecPickup ==> berries.collected == old(berries.collected)
    ensures exec == ExecPickup ==> berries.collected == Collect(old(berries.collected), Key(state.x, state.y))
  {
    match exec
    case ExecMove => r := Some(ExecuteMove(state, level));
    case ExecTurnLeft => r := Some(ExecuteTurnLeft(state));
    case ExecTurnRight => r := Some(ExecuteTurnRight(state));
    case ExecPickup =>
      berries.Pickup(state);
      r := None;
  }
}
