/**
 * The 2D maze domain: a state is the agent's cell, a set of obstacle cells and
 * the grid size; the four actions move the agent one cell unless the target
 * cell is off the grid or an obstacle, in which case nothing changes; every
 * step costs 1.0; a goal is the text "Go to (r, c)".
 */
module Maze {
  import opened Options
  import opened Text
  import opened Planning

  /** A grid cell as (row, column). */
  type Cell = (int, int)

  const UP: int := 0
  const DOWN: int := 1
  const LEFT: int := 2
  const RIGHT: int := 3

  /** The action codes the transition accepts; any other code has no move. */
  type Action = a: int | UP <= a <= RIGHT

  /** The frozen maze state; `CopyWith` replaces the agent and keeps the rest. */
  datatype MazeState = MazeState(agent: Cell, obstacles: set<Cell>, height: int, width: int)
  {
    function CopyWith(agent': Cell): (s: MazeState)
      ensures s.agent == agent'
      ensures s.obstacles == obstacles && s.height == height && s.width == width
    {
      MazeState(agent', obstacles, height, width)
    }
  }

  function GetActions(): (actions: seq<Action>)
    ensures |actions| == 4
    ensures forall i :: 0 <= i < |actions| ==> actions[i] == i
    ensures forall a: Action :: a in actions
  {
    [UP, DOWN, LEFT, RIGHT]
  }

  /** The row and column offset of each action. */
  function Delta(a: Action): (d: (int, int))
    ensures (if d.0 < 0 then -d.0 else d.0) + (if d.1 < 0 then -d.1 else d.1) == 1
  {
    if a == UP then (-1, 0)
    else if a == DOWN then (1, 0)
    else if a == LEFT then (0, -1)
    else (0, 1)
  }

  /** The cell one move away from `cell` in the direction of `a`. */
  function Step(cell: Cell, a: Action): Cell {
    (cell.0 + Delta(a).0, cell.1 + Delta(a).1)
  }

  predicate InGrid(height: int, width: int, cell: Cell) {
    0 <= cell.0 < height && 0 <= cell.1 < width
  }

  /** The agent may stand on `cell`: it is on the grid and not an obstacle. */
  predicate Free(s: MazeState, cell: Cell) {
    InGrid(s.height, s.width, cell) && cell !in s.obstacles
  }

  /** Two cells are one horizontal or vertical move apart. */
  predicate Adjacent(x: Cell, y: Cell) {
    (x.0 == y.0 && (x.1 - y.1 == 1 || y.1 - x.1 == 1)) ||
    (x.1 == y.1 && (x.0 - y.0 == 1 || y.0 - x.0 == 1))
  }

  /** The agent stands on a free cell of its own grid. */
  predicate Placed(s: MazeState) {
    Free(s, s.agent)
  }

  function NextState(s: MazeState, a: Action): (s': MazeState)
    ensures s'.obstacles == s.obstacles && s'.height == s.height && s'.width == s.width
    ensures Free(s, Step(s.agent, a)) ==> s'.agent == Step(s.agent, a)
    ensures !Free(s, Step(s.agent, a)) ==> s' == s
    ensures s' == s || (Adjacent(s.agent, s'.agent) && Free(s, s'.agent))
    ensures Placed(s) ==> Placed(s')
  {
    var (r, c) := s.agent;
    var (dr, dc) := Delta(a);
    var (nr, nc) := (r + dr, c + dc);
    var (nr', nc') :=
      if !(0 <= nr < s.height && 0 <= nc < s.width) || (nr, nc) in s.obstacles then (r, c)
      else (nr, nc);
    s.CopyWith((nr', nc'))
  }

  function GetCost(s: MazeState, a: Action, s': MazeState): (cost: real)
    ensures cost == 1.0
  {
    1.0
  }

  /**
   * Any plan keeps the obstacles and the grid size, and keeps an agent that
   * starts on a free cell on a free cell.
   */
  lemma {:induction false} ReplayKeepsLayout(s: MazeState, plan: seq<Action>)
    ensures var e := Replay(NextState, s, plan);
      e.obstacles == s.obstacles && e.height == s.height && e.width == s.width &&
      (Placed(s) ==> Placed(e))
    decreases |plan|
  {
    if plan != [] {
      ReplayKeepsLayout(NextState(s, plan[0]), plan[1..]);
    }
  }

  const GOAL_PREFIX: string := "Go to ("

  /**
   * The target cell named by a goal text, or `None` where the goal test fails
   * loudly: the text does not start with "Go to (" and end with ")", or the
   * part between them, once spaces are removed, is not two integers separated
   * by one comma.
   */
  function ParseGoal(goal: string): (target: Option<Cell>)
    ensures target.Some? ==> |goal| > |GOAL_PREFIX| && goal[..|GOAL_PREFIX|] == GOAL_PREFIX
    ensures target.Some? ==> goal[|goal| - 1] == ')'
  {
    if |goal| >= |GOAL_PREFIX| && goal[..|GOAL_PREFIX|] == GOAL_PREFIX && |goal| >= 1 && goal[|goal| - 1] == ')' then
      assert goal[|GOAL_PREFIX| - 1] == '(';
      var parts := Split(RemoveSpaces(goal[|GOAL_PREFIX|..|goal| - 1]), ',');
      if |parts| != 2 then None
      else
        match (ParseInt(parts[0]), ParseInt(parts[1]))
        case (Some(r), Some(c)) => Some((r, c))
        case _ => None
    else None
  }

  /**
   * `goal` is "Go to (" + `a` + "," + `b` + ")" where `a` and `b` hold no
   * comma and, once their spaces are removed, read as the two coordinates of
   * `target`.
   */
  predicate NamesTarget(goal: string, a: string, b: string, target: Cell) {
    ',' !in a && ',' !in b && goal == GOAL_PREFIX + a + "," + b + ")" &&
    ParseInt(RemoveSpaces(a)) == Some(target.0) && ParseInt(RemoveSpaces(b)) == Some(target.1)
  }

  /** The frame of "Go to (" + `middle` + ")". */
  lemma FrameOf(middle: string)
    ensures var goal := GOAL_PREFIX + middle + ")";
      |goal| > |GOAL_PREFIX| && goal[..|GOAL_PREFIX|] == GOAL_PREFIX && goal[|goal| - 1] == ')' &&
      goal[|GOAL_PREFIX|..|goal| - 1] == middle
  {
  }

  /** The frame of "Go to (" + `a` + "," + `b` + ")". */
  lemma Framed(goal: string, a: string, b: string)
    requires goal == GOAL_PREFIX + a + "," + b + ")"
    ensures |goal| > |GOAL_PREFIX| && goal[..|GOAL_PREFIX|] == GOAL_PREFIX && goal[|goal| - 1] == ')'
    ensures goal[|GOAL_PREFIX|..|goal| - 1] == a + [','] + b
  {
    var middle := a + [','] + b;
    assert goal == GOAL_PREFIX + middle + ")";
  }

  /** A framed goal whose middle splits into two integers parses to them. */
  lemma ParseGoalOfParts(goal: string, x: string, y: string, target: Cell)
    requires |goal| > |GOAL_PREFIX| && goal[..|GOAL_PREFIX|] == GOAL_PREFIX && goal[|goal| - 1] == ')'
    requires Split(RemoveSpaces(goal[|GOAL_PREFIX|..|goal| - 1]), ',') == [x, y]
    requires ParseInt(x) == Some(target.0) && ParseInt(y) == Some(target.1)
    ensures ParseGoal(goal) == Some(target)
  {
  }

  /** Every goal text of the documented form names its target. */
  lemma ParseGoalAccepts(goal: string, a: string, b: string, target: Cell)
    requires NamesTarget(goal, a, b, target)
    ensures ParseGoal(goal) == Some(target)
  {
    Framed(goal, a, b);
    RemoveSpacesAroundComma(a, b);
    RemoveSpacesKeeps(a, ',');
    RemoveSpacesKeeps(b, ',');
    SplitTwo(RemoveSpaces(a), ',', RemoveSpaces(b));
    ParseGoalOfParts(goal, RemoveSpaces(a), RemoveSpaces(b), target);
  }

  /** What a successful parse tells about the goal text: the frame and the two integers between. */
  lemma ParseGoalParts(goal: string, target: Cell)
    requires ParseGoal(goal) == Some(target)
    ensures |goal| > |GOAL_PREFIX| && goal[..|GOAL_PREFIX|] == GOAL_PREFIX && goal[|goal| - 1] == ')'
    ensures var parts := Split(RemoveSpaces(goal[|GOAL_PREFIX|..|goal| - 1]), ',');
      |parts| == 2 && ParseInt(parts[0]) == Some(target.0) && ParseInt(parts[1]) == Some(target.1)
  {
  }

  lemma Reframe(goal: string, a: string, b: string)
    requires |goal| > |GOAL_PREFIX| && goal[..|GOAL_PREFIX|] == GOAL_PREFIX && goal[|goal| - 1] == ')'
    requires goal[|GOAL_PREFIX|..|goal| - 1] == a + [','] + b
    ensures goal == GOAL_PREFIX + a + "," + b + ")"
  {
    assert goal == goal[..|GOAL_PREFIX|] + goal[|GOAL_PREFIX|..|goal| - 1] + [goal[|goal| - 1]];
    assert GOAL_PREFIX + (a + [','] + b) + ")" == GOAL_PREFIX + a + "," + b + ")";
  }

  /** A goal text names a target only when it has the documented form. */
  lemma ParseGoalOnlyNamed(goal: string, target: Cell) returns (a: string, b: string)
    requires ParseGoal(goal) == Some(target)
    ensures NamesTarget(goal, a, b, target)
  {
    ParseGoalParts(goal, target);
    var inner := goal[|GOAL_PREFIX|..|goal| - 1];
    var parts := Split(RemoveSpaces(inner), ',');
    SplitPair(RemoveSpaces(inner), ',');
    a, b := RemoveSpacesAt(inner, parts[0], parts[1]);
    RemoveSpacesKeeps(a, ',');
    RemoveSpacesKeeps(b, ',');
    Reframe(goal, a, b);
  }

  /** The goal text the task generator writes for a target cell. */
  function GoalString(target: Cell): (goal: string)
    ensures |goal| > |GOAL_PREFIX| && goal[..|GOAL_PREFIX|] == GOAL_PREFIX && goal[|goal| - 1] == ')'
    ensures goal[|GOAL_PREFIX|..|goal| - 1] == IntToString(target.0) + ", " + IntToString(target.1)
  {
    var middle := IntToString(target.0) + ", " + IntToString(target.1);
    FrameOf(middle);
    GOAL_PREFIX + middle + ")"
  }

  function CheckGoal(s: MazeState, goal: string): (reached: bool)
    requires ParseGoal(goal).Some?
    ensures reached <==> s.agent == ParseGoal(goal).value
  {
    var (r, c) := ParseGoal(goal).value;
    s.agent == (r, c)
  }

  /** Removing the spaces from "<r>, <c>" leaves "<r>,<c>". */
  lemma CoordinatesWithoutSpaces(r: int, c: int)
    ensures RemoveSpaces(IntToString(r) + ", " + IntToString(c)) == IntToString(r) + [','] + IntToString(c)
  {
    IntToStringOmits(r, ' ');
    IntToStringOmits(c, ' ');
    RemoveSpacesCommaSpace(IntToString(r), IntToString(c));
  }

  /**
   * The goal text written for a target parses back to that target, so the
   * goal test holds exactly when the agent stands on the target.
   */
  lemma GoalRoundTrip(target: Cell, s: MazeState)
    ensures ParseGoal(GoalString(target)) == Some(target)
    ensures CheckGoal(s, GoalString(target)) <==> s.agent == target
  {
    var (r, c) := target;
    CoordinatesWithoutSpaces(r, c);
    IntToStringOmits(r, ',');
    IntToStringOmits(c, ',');
    SplitTwo(IntToString(r), ',', IntToString(c));
    IntToStringRoundTrip(r);
    IntToStringRoundTrip(c);
  }

  /** The maze's four functions, as an approach receives them. */
  function MazeDomain(): (d: Domain<MazeState, string, Action>)
    ensures d.actions == GetActions()
    ensures forall s, g :: d.goal.requires(s, g) <==> ParseGoal(g).Some?
  {
    Domain(GetActions(), NextState, GetCost, CheckGoal)
  }

  /**
   * Only the state a plan ends in is judged: on a 1 x 2 grid with the goal
   * "Go to (0, 1)", moving right reaches the goal, and moving right then left
   * passes through it but does not solve the task.
   */
  lemma OnlyFinalStateCounts()
    ensures var task := Task(MazeState((0, 0), {}, 1, 2), GoalString((0, 1)));
      var there: seq<Action> := [RIGHT];
      var thereAndBack: seq<Action> := [RIGHT, LEFT];
      ParseGoal(task.goal).Some? &&
      Solves(MazeDomain(), task, there) && !Solves(MazeDomain(), task, thereAndBack)
  {
    var init := MazeState((0, 0), {}, 1, 2);
    ThereAndBack();
    GoalRoundTrip((0, 1), init);
    GoalRoundTrip((0, 1), MazeState((0, 1), {}, 1, 2));
  }

  /** On a free 1 x 2 grid, right reaches the second cell and right then left comes back. */
  lemma ThereAndBack()
    ensures var init := MazeState((0, 0), {}, 1, 2);
      var there: seq<Action> := [RIGHT];
      var thereAndBack: seq<Action> := [RIGHT, LEFT];
      Replay(NextState, init, there) == MazeState((0, 1), {}, 1, 2) &&
      Replay(NextState, init, thereAndBack) == init
  {
    var init := MazeState((0, 0), {}, 1, 2);
    var there: seq<Action> := [RIGHT];
    var thereAndBack: seq<Action> := [RIGHT, LEFT];
    var mid := NextState(init, RIGHT);
    assert mid == MazeState((0, 1), {}, 1, 2);
    assert NextState(mid, LEFT) == init;
    assert Replay(NextState, init, there) == mid by {
      assert there[1..] == [];
    }
    var back: seq<Action> := [LEFT];
    assert thereAndBack[1..] == back;
    assert back[1..] == [];
    assert Replay(NextState, mid, back) == init;
  }
}
