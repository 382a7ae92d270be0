/**
 * Random maze tasks: a grid of random size, a random start, a random walk
 * from the start that stops on a cell other than the start, and obstacles on
 * a quarter of the cells the walk never entered. Because no obstacle lies on
 * the walk, replaying the walk on the finished maze reaches the goal.
 */
module MazeTasks {
  import opened Options
  import opened Planning
  import opened Maze
  import opened Random

  /** The cells the agent stands on while `plan` is replayed from `s`, `s` included. */
  function Trace(next: (MazeState, Action) -> MazeState, s: MazeState, plan: seq<Action>): set<Cell>
    decreases |plan|
  {
    {s.agent} + (if plan == [] then {} else Trace(next, next(s, plan[0]), plan[1..]))
  }

  /** One more action adds the cell it leads to. */
  lemma {:induction false} TraceSnoc(next: (MazeState, Action) -> MazeState, s: MazeState, plan: seq<Action>, a: Action)
    ensures Trace(next, s, plan + [a]) == Trace(next, s, plan) + {Replay(next, s, plan + [a]).agent}
    decreases |plan|
  {
    if plan == [] {
      assert plan + [a] == [a];
      assert [a][1..] == [];
    } else {
      assert (plan + [a])[1..] == plan[1..] + [a];
      TraceSnoc(next, next(s, plan[0]), plan[1..], a);
    }
  }

  /** The end cell of a replay is one of the cells the replay passes. */
  lemma {:induction false} ReplayEndsOnTrace(next: (MazeState, Action) -> MazeState, s: MazeState, plan: seq<Action>)
    ensures Replay(next, s, plan).agent in Trace(next, s, plan)
    decreases |plan|
  {
    if plan != [] {
      ReplayEndsOnTrace(next, next(s, plan[0]), plan[1..]);
    }
  }

  /**
   * Obstacles placed off the cells a replay passes do not change where the
   * agent goes: the replay on the maze with the extra obstacles passes the
   * same cells and ends in the same cell, with the same grid.
   */
  lemma {:induction false} ExtraObstaclesOffTrace(s: MazeState, plan: seq<Action>, extra: set<Cell>)
    requires extra !! Trace(NextState, s, plan)
    ensures Replay(NextState, s.(obstacles := s.obstacles + extra), plan)
         == Replay(NextState, s, plan).(obstacles := s.obstacles + extra)
    ensures Trace(NextState, s.(obstacles := s.obstacles + extra), plan) == Trace(NextState, s, plan)
    decreases |plan|
  {
    var blocked := s.(obstacles := s.obstacles + extra);
    ReplayKeepsLayout(s, plan);
    if plan != [] {
      var a := plan[0];
      var next := NextState(s, a);
      assert next.agent in Trace(NextState, s, plan);
      assert NextState(blocked, a) == next.(obstacles := s.obstacles + extra);
      assert Trace(NextState, next, plan[1..]) <= Trace(NextState, s, plan);
      ExtraObstaclesOffTrace(next, plan[1..], extra);
    }
  }

  /**
   * On a 1 x 1 grid every move is blocked, so a walk never leaves its start
   * and the walk's stopping test (agent off the start) never passes.
   */
  lemma {:induction false} SingleCellWalkStays(s: MazeState, plan: seq<Action>)
    requires s.height == 1 && s.width == 1 && InGrid(1, 1, s.agent)
    ensures Trace(NextState, s, plan) == {s.agent}
    ensures Replay(NextState, s, plan) == s
    decreases |plan|
  {
    if plan != [] {
      assert NextState(s, plan[0]) == s;
      SingleCellWalkStays(s, plan[1..]);
    }
  }

  /** Row-major order of cells, which is Python's ordering of (row, column) pairs. */
  predicate Before(x: Cell, y: Cell) {
    x.0 < y.0 || (x.0 == y.0 && x.1 < y.1)
  }

  /** The cells of a height x width grid that the walk did not visit. */
  ghost function Unvisited(height: int, width: int, visited: set<Cell>): set<Cell> {
    set r: int, c: int | 0 <= r < height && 0 <= c < width && (r, c) !in visited :: (r, c)
  }

  /** The unvisited grid cells in sorted order. */
  method SortedUnvisited(height: nat, width: nat, visited: set<Cell>) returns (cells: seq<Cell>)
    ensures forall x :: x in cells <==> InGrid(height, width, x) && x !in visited
    ensures forall i, j :: 0 <= i < j < |cells| ==> Before(cells[i], cells[j])
  {
    cells := [];
    for r := 0 to height
      invariant forall x :: x in cells <==> InGrid(height, width, x) && x !in visited && x.0 < r
      invariant forall i, j :: 0 <= i < j < |cells| ==> Before(cells[i], cells[j])
    {
      for c := 0 to width
        invariant forall x :: x in cells <==>
          InGrid(height, width, x) && x !in visited && (x.0 < r || (x.0 == r && x.1 < c))
        invariant forall i, j :: 0 <= i < j < |cells| ==> Before(cells[i], cells[j])
      {
        if (r, c) !in visited {
          assert forall x :: x in cells ==> Before(x, (r, c));
          cells := cells + [(r, c)];
        }
      }
    }
  }

  /** A list without repeats has as many elements as the set of its elements. */
  lemma {:induction false} DistinctCard<T>(xs: seq<T>)
    requires forall i, j :: 0 <= i < j < |xs| ==> xs[i] != xs[j]
    ensures |set x | x in xs| == |xs|
  {
    if xs != [] {
      var rest := xs[1..];
      DistinctCard(rest);
      assert (set x | x in xs) == {xs[0]} + (set x | x in rest);
      assert xs[0] !in (set x | x in rest);
    }
  }

  /** The state the walk starts from: the start cell on the empty grid. */
  function WalkStart(init: MazeState): MazeState {
    MazeState(init.agent, {}, init.height, init.width)
  }

  /**
   * The generated task is solvable: on the walk's grid with obstacles placed
   * only on cells the walk never entered, replaying the walk reaches the cell
   * the goal text names.
   */
  lemma WalkSolvesTask(walkStart: MazeState, walk: seq<Action>, obstacles: set<Cell>)
    requires walkStart.obstacles == {}
    requires obstacles !! Trace(NextState, walkStart, walk)
    ensures var task := Task(walkStart.(obstacles := obstacles),
                             GoalString(Replay(NextState, walkStart, walk).agent));
      ParseGoal(task.goal).Some? && Solves(MazeDomain(), task, walk)
  {
    var target := Replay(NextState, walkStart, walk).agent;
    var init := walkStart.(obstacles := obstacles);
    assert init == walkStart.(obstacles := walkStart.obstacles + obstacles);
    ExtraObstaclesOffTrace(walkStart, walk, obstacles);
    GoalRoundTrip(target, Replay(NextState, init, walk));
  }

  /** What a random walk does with the generator: its moves, the next unused draw, and whether it stopped. */
  datatype WalkRun = WalkRun(moves: seq<Action>, next: nat, stopped: bool)

  /**
   * The random walk as a function of the generator's draws: `made` are the
   * moves so far, the walk stands on `s`, the generator is at position `p`
   * and `fuel` moves are left. Each move consumes one draw for the action; a
   * move that ends off `start` consumes one more for the stop test, and the
   * walk stops when that test passes.
   */
  function Walk(next: (MazeState, Action) -> MazeState, draws: nat -> nat, coins: nat -> bool,
                start: Cell, made: seq<Action>, s: MazeState, p: nat, fuel: nat): WalkRun
    decreases fuel
  {
    if fuel == 0 then WalkRun(made, p, false)
    else
      var action := GetActions()[draws(p) % |GetActions()|];
      var t := next(s, action);
      if t.agent != start && coins(p + 1) then WalkRun(made + [action], p + 2, true)
      else Walk(next, draws, coins, start, made + [action], t, if t.agent != start then p + 2 else p + 1, fuel - 1)
  }

  /** One move of the walk: the action drawn at `p`, then either the stop or the rest of the walk. */
  lemma WalkStep(next: (MazeState, Action) -> MazeState, draws: nat -> nat, coins: nat -> bool,
                 start: Cell, made: seq<Action>, s: MazeState, p: nat, fuel: nat, action: Action, t: MazeState)
    requires fuel > 0 && action == GetActions()[draws(p) % |GetActions()|] && t == next(s, action)
    ensures Walk(next, draws, coins, start, made, s, p, fuel)
      == if t.agent != start && coins(p + 1) then WalkRun(made + [action], p + 2, true)
         else Walk(next, draws, coins, start, made + [action], t, if t.agent != start then p + 2 else p + 1, fuel - 1)
  {
  }

  /**
   * A walk extends the moves already made by at most `fuel` moves, exactly
   * `fuel` unless it stops, and consumes at least one draw per move.
   */
  lemma {:induction false} WalkBounds(next: (MazeState, Action) -> MazeState, draws: nat -> nat,
                                      coins: nat -> bool, start: Cell, made: seq<Action>,
                                      s: MazeState, p: nat, fuel: nat)
    ensures var run := Walk(next, draws, coins, start, made, s, p, fuel);
      && |made| <= |run.moves| <= |made| + fuel && run.moves[..|made|] == made
      && (!run.stopped ==> |run.moves| == |made| + fuel)
      && run.next >= p + |run.moves| - |made|
    decreases fuel
  {
    if fuel > 0 {
      var action := GetActions()[draws(p) % |GetActions()|];
      var t := next(s, action);
      if !(t.agent != start && coins(p + 1)) {
        var made' := made + [action];
        WalkBounds(next, draws, coins, start, made', t, if t.agent != start then p + 2 else p + 1, fuel - 1);
        var run := Walk(next, draws, coins, start, made', t, if t.agent != start then p + 2 else p + 1, fuel - 1);
        assert run.moves[..|made|] == run.moves[..|made'|][..|made|];
      }
    }
  }

  /** A walk that stops has also consumed the draw of its final stop test. */
  lemma {:induction false} StoppedWalkTakesTwo(next: (MazeState, Action) -> MazeState, draws: nat -> nat,
                                               coins: nat -> bool, start: Cell, made: seq<Action>,
                                               s: MazeState, p: nat, fuel: nat)
    ensures var run := Walk(next, draws, coins, start, made, s, p, fuel);
      run.stopped ==> run.next >= p + |run.moves| - |made| + 1
    decreases fuel
  {
    if fuel > 0 {
      var action := GetActions()[draws(p) % |GetActions()|];
      var t := next(s, action);
      if !(t.agent != start && coins(p + 1)) {
        StoppedWalkTakesTwo(next, draws, coins, start, made + [action], t,
                            if t.agent != start then p + 2 else p + 1, fuel - 1);
      }
    }
  }

  /** A walk that stops does so off its start cell. */
  lemma {:induction false} WalkStopsOffStart(next: (MazeState, Action) -> MazeState, draws: nat -> nat,
                                             coins: nat -> bool, start: Cell, made: seq<Action>,
                                             s: MazeState, p: nat, fuel: nat)
    ensures var run := Walk(next, draws, coins, start, made, s, p, fuel);
      run.stopped ==> |made| < |run.moves| && Replay(next, s, run.moves[|made|..]).agent != start
    decreases fuel
  {
    var run := Walk(next, draws, coins, start, made, s, p, fuel);
    if fuel > 0 && run.stopped {
      var action := GetActions()[draws(p) % |GetActions()|];
      var t := next(s, action);
      var made' := made + [action];
      var q := if t.agent != start then p + 2 else p + 1;
      WalkBounds(next, draws, coins, start, made', t, q, fuel - 1);
      assert run.moves[|made|..] == [action] + run.moves[|made'|..] by {
        assert run.moves[..|made'|] == made';
      }
      if !(t.agent != start && coins(p + 1)) {
        WalkStopsOffStart(next, draws, coins, start, made', t, if t.agent != start then p + 2 else p + 1, fuel - 1);
      }
    }
  }

  /**
   * The random walk: from the start, move by random actions under the
   * transition `step` until the agent is off the start and the stop draw says
   * stop. Gives the stopping cell, or `None` once `fuel` moves have been made
   * without stopping. The moves are the ones `Walk` reads off the generator's
   * draws, and the generator ends just past the draws the walk used.
   */
  method RandomWalk(rng: Rng, step: (MazeState, Action) -> MazeState, walkStart: MazeState, fuel: nat)
    returns (target: Option<Cell>, visited: set<Cell>, ghost walk: seq<Action>)
    modifies rng
    ensures Walk(step, rng.draws, rng.coins, walkStart.agent, [], walkStart, old(rng.pos), fuel)
      == WalkRun(walk, rng.pos, target.Some?)
    ensures visited == Trace(step, walkStart, walk)
    ensures target.None? ==> |walk| == fuel
    ensures target.Some? ==>
      target.value == Replay(step, walkStart, walk).agent && target.value != walkStart.agent
  {
    var start := walkStart.agent;
    ghost var whole := Walk(step, rng.draws, rng.coins, start, [], walkStart, rng.pos, fuel);
    visited := {start};
    var walkState := walkStart;
    walk := [];
    var fuelLeft := fuel;
    while true
      invariant walkState == Replay(step, walkStart, walk)
      invariant visited == Trace(step, walkStart, walk)
      invariant |walk| + fuelLeft == fuel
      invariant whole == Walk(step, rng.draws, rng.coins, start, walk, walkState, rng.pos, fuelLeft)
      decreases fuelLeft
    {
      if fuelLeft == 0 {
        return None, visited, walk;
      }
      ghost var drawnAt := rng.pos;
      var action := rng.Choice(GetActions());
      var next := step(walkState, action);
      WalkStep(step, rng.draws, rng.coins, start, walk, walkState, drawnAt, fuelLeft, action, next);
      ReplaySnoc(step, walkStart, walk, action);
      TraceSnoc(step, walkStart, walk, action);
      fuelLeft := fuelLeft - 1;
      walk := walk + [action];
      walkState := next;
      var current := walkState.agent;
      visited := visited + {current};
      if start != current {
        var stop := rng.Exceeds99();
        if stop {
          return Some(current), visited, walk;
        }
      }
    }
  }

  class MazeBenchmark {
    const minHeight: int
    const maxHeight: int
    const minWidth: int
    const maxWidth: int

    constructor (minHeight: int, maxHeight: int, minWidth: int, maxWidth: int)
      ensures this.minHeight == minHeight && this.maxHeight == maxHeight
      ensures this.minWidth == minWidth && this.maxWidth == maxWidth
    {
      this.minHeight := minHeight;
      this.maxHeight := maxHeight;
      this.minWidth := minWidth;
      this.maxWidth := maxWidth;
    }

    /**
     * What every generated task satisfies: the grid size lies in the
     * configured ranges, the start is a free cell, the goal names a cell
     * other than the start, and some plan solves the task.
     */
    ghost predicate Generated(task: Task<MazeState, string>) {
      var s := task.init;
      && minHeight <= s.height <= maxHeight
      && minWidth <= s.width <= maxWidth
      && Placed(s)
      && ParseGoal(task.goal).Some?
      && ParseGoal(task.goal).value != s.agent
      && !CheckGoal(s, task.goal)
      && exists plan: seq<Action> :: Solves(MazeDomain(), task, plan)
    }

    /**
     * The empty grid and start cell read off the first four draws from `p`:
     * height, width, start row, start column.
     */
    function DrawnStart(draws: nat -> nat, p: nat): (s: MazeState)
      requires 1 <= minHeight <= maxHeight && 1 <= minWidth <= maxWidth
      ensures minHeight <= s.height <= maxHeight && minWidth <= s.width <= maxWidth
      ensures s.obstacles == {} && Placed(s)
    {
      var height := Drawn(draws, p, minHeight, maxHeight + 1);
      var width := Drawn(draws, p + 1, minWidth, maxWidth + 1);
      MazeState((Drawn(draws, p + 2, 0, height), Drawn(draws, p + 3, 0, width)), {}, height, width)
    }

    /** The walk of the task whose draws start at `p`: it follows the four layout draws. */
    ghost function TaskWalk(draws: nat -> nat, coins: nat -> bool, fuel: nat, p: nat): WalkRun
      requires 1 <= minHeight <= maxHeight && 1 <= minWidth <= maxWidth
    {
      var walkStart := DrawnStart(draws, p);
      Walk(NextState, draws, coins, walkStart.agent, [], walkStart, p + 4, fuel)
    }

    /**
     * `task` is the task generated from the draws at `p` onwards and the
     * generator ends at `q`: the grid and start come from the first four
     * draws, the walk that follows stopped, the goal names where it stopped,
     * and obstacle selection used one draw per obstacle.
     */
    ghost predicate DrawnTask(draws: nat -> nat, coins: nat -> bool, fuel: nat,
                              p: nat, task: Task<MazeState, string>, q: nat)
      requires 1 <= minHeight <= maxHeight && 1 <= minWidth <= maxWidth
    {
      var walkStart := DrawnStart(draws, p);
      var run := TaskWalk(draws, coins, fuel, p);
      && run.stopped
      && task.init.agent == walkStart.agent
      && task.init.height == walkStart.height && task.init.width == walkStart.width
      && task.goal == GoalString(Replay(NextState, walkStart, run.moves).agent)
      && q == run.next + |task.init.obstacles|
    }

    /**
     * A generated task uses at least six draws: four for the layout, and at
     * least one move plus its stop test for the walk. So tasks generated one
     * after another read disjoint stretches of the generator.
     */
    lemma DrawnTaskAdvances(draws: nat -> nat, coins: nat -> bool, fuel: nat,
                            p: nat, task: Task<MazeState, string>, q: nat)
      requires 1 <= minHeight <= maxHeight && 1 <= minWidth <= maxWidth
      requires DrawnTask(draws, coins, fuel, p, task, q)
      ensures q >= p + 6
    {
      var walkStart := DrawnStart(draws, p);
      assert TaskWalk(draws, coins, fuel, p) == Walk(NextState, draws, coins, walkStart.agent, [], walkStart, p + 4, fuel);
      WalkBounds(NextState, draws, coins, walkStart.agent, [], walkStart, p + 4, fuel);
      WalkStopsOffStart(NextState, draws, coins, walkStart.agent, [], walkStart, p + 4, fuel);
      StoppedWalkTakesTwo(NextState, draws, coins, walkStart.agent, [], walkStart, p + 4, fuel);
    }

    /** Appending a task generated from the last mark extends a chain of generated tasks. */
    lemma DrawnChainSnoc(draws: nat -> nat, coins: nat -> bool, fuel: nat, marks: seq<nat>,
                         made: seq<Task<MazeState, string>>, task: Task<MazeState, string>, q: nat)
      requires 1 <= minHeight <= maxHeight && 1 <= minWidth <= maxWidth
      requires |marks| == |made| + 1
      requires forall k {:trigger made[k]} :: 0 <= k < |made| ==> DrawnTask(draws, coins, fuel, marks[k], made[k], marks[k + 1])
      requires DrawnTask(draws, coins, fuel, marks[|made|], task, q)
      ensures var made', marks' := made + [task], marks + [q];
        forall k {:trigger made'[k]} :: 0 <= k < |made'| ==> DrawnTask(draws, coins, fuel, marks'[k], made'[k], marks'[k + 1])
    {
      var made', marks' := made + [task], marks + [q];
      forall k | 0 <= k < |made'|
        ensures DrawnTask(draws, coins, fuel, marks'[k], made'[k], marks'[k + 1])
      {
        if k < |made| {
          assert made'[k] == made[k] && marks'[k] == marks[k] && marks'[k + 1] == marks[k + 1];
        }
      }
    }

    /**
     * One random task. The walk is allowed `fuel` moves; `None` means it had
     * not stopped by then. `walk` is the list of moves the walk made.
     */
    method GenerateTask(rng: Rng, fuel: nat) returns (task: Option<Task<MazeState, string>>, ghost walk: seq<Action>)
      requires 1 <= minHeight <= maxHeight && 1 <= minWidth <= maxWidth
      modifies rng
      ensures var run := TaskWalk(rng.draws, rng.coins, fuel, old(rng.pos));
        && walk == run.moves
        && (task.None? <==> !run.stopped)
        && (task.None? ==> rng.pos == run.next)
        && (task.Some? ==> DrawnTask(rng.draws, rng.coins, fuel, old(rng.pos), task.value, rng.pos))
      ensures task.None? ==> |walk| == fuel
      ensures task.Some? ==> Generated(task.value)
      ensures task.Some? ==>
        var s := task.value.init;
        var visited := Trace(NextState, WalkStart(s), walk);
        && ParseGoal(task.value.goal) == Some(Replay(NextState, WalkStart(s), walk).agent)
        && s.obstacles <= Unvisited(s.height, s.width, visited)
        && |s.obstacles| == |Unvisited(s.height, s.width, visited)| / 4
        && Solves(MazeDomain(), task.value, walk)
    {
      ghost var p := rng.pos;
      var height := rng.Integers(minHeight, maxHeight + 1);
      var width := rng.Integers(minWidth, maxWidth + 1);
      var startRow := rng.Integers(0, height);
      var startColumn := rng.Integers(0, width);
      var start := (startRow, startColumn);
      assert MazeState(start, {}, height, width) == DrawnStart(rng.draws, p);

      // The target is the cell the walk stops on.
      var walkStart := MazeState(start, {}, height, width);
      ghost var run := TaskWalk(rng.draws, rng.coins, fuel, p);
      var target, visited;
      target, visited, walk := RandomWalk(rng, NextState, walkStart, fuel);
      assert run == WalkRun(walk, rng.pos, target.Some?);
      if target.None? {
        return None, walk;
      }
      ghost var walked := rng.pos;

      // Obstacles on a quarter of the cells the walk never entered.
      var candidates := SortedUnvisited(height, width, visited);
      var numObstacles := |candidates| / 4;
      var obstacles := rng.ChooseDistinct(candidates, numObstacles);
      var init := MazeState(start, obstacles, height, width);
      task := Some(Task(init, GoalString(target.value)));
      WalkTask(walkStart, walk, candidates, obstacles);
      assert WalkStart(init) == walkStart && init == walkStart.(obstacles := obstacles);
      assert rng.pos == walked + |obstacles|;
      assert DrawnTask(rng.draws, rng.coins, fuel, p, task.value, rng.pos);
    }

    /**
     * The task built from a walk that left its start, with obstacles drawn
     * from the unvisited cells, meets the generated-task guarantees.
     */
    lemma WalkTask(walkStart: MazeState, walk: seq<Action>, candidates: seq<Cell>, obstacles: set<Cell>)
      requires walkStart.obstacles == {} && Placed(walkStart)
      requires minHeight <= walkStart.height <= maxHeight && minWidth <= walkStart.width <= maxWidth
      requires Replay(NextState, walkStart, walk).agent != walkStart.agent
      requires forall x :: x in candidates <==>
        InGrid(walkStart.height, walkStart.width, x) && x !in Trace(NextState, walkStart, walk)
      requires forall i, j :: 0 <= i < j < |candidates| ==> candidates[i] != candidates[j]
      requires forall x :: x in obstacles ==> x in candidates
      requires |obstacles| == |candidates| / 4
      ensures var init := walkStart.(obstacles := obstacles);
        var target := Replay(NextState, walkStart, walk).agent;
        var task := Task(init, GoalString(target));
        var unvisited := Unvisited(walkStart.height, walkStart.width, Trace(NextState, walkStart, walk));
        && Generated(task)
        && ParseGoal(task.goal) == Some(target)
        && obstacles <= unvisited && |obstacles| == |unvisited| / 4
        && Solves(MazeDomain(), task, walk)
    {
      var init := walkStart.(obstacles := obstacles);
      var target := Replay(NextState, walkStart, walk).agent;
      DistinctCard(candidates);
      assert (set x | x in candidates) == Unvisited(walkStart.height, walkStart.width, Trace(NextState, walkStart, walk));
      ReplayEndsOnTrace(NextState, walkStart, walk);
      WalkSolvesTask(walkStart, walk, obstacles);
      GoalRoundTrip(target, init);
    }

    /**
     * `numTasks` tasks drawn one after another from the same generator (none
     * for a negative count); `None` if some walk ran out of fuel. `marks` are
     * the generator's positions before the first task and after each task.
     */
    method GenerateTasks(numTasks: int, split: string, rng: Rng, fuel: nat)
      returns (tasks: Option<seq<Task<MazeState, string>>>, ghost marks: seq<nat>)
      requires split == "train" || split == "test"
      requires numTasks > 0 ==> 1 <= minHeight <= maxHeight && 1 <= minWidth <= maxWidth
      modifies rng
      ensures numTasks <= 0 ==> tasks == Some([])
      ensures tasks.Some? ==> |tasks.value| == (if numTasks < 0 then 0 else numTasks)
      ensures tasks.Some? ==> forall i :: 0 <= i < |tasks.value| ==> Generated(tasks.value[i])
      ensures tasks.Some? ==>
        && |marks| == |tasks.value| + 1 && marks[0] == old(rng.pos) && marks[|tasks.value|] == rng.pos
        && forall i {:trigger tasks.value[i]} :: 0 <= i < |tasks.value| ==>
             DrawnTask(rng.draws, rng.coins, fuel, marks[i], tasks.value[i], marks[i + 1])
    {
      var made: seq<Task<MazeState, string>> := [];
      marks := [rng.pos];
      var n := if numTasks < 0 then 0 else numTasks;
      for i := 0 to n
        invariant |made| == i && |marks| == i + 1
        invariant marks[0] == old(rng.pos) && marks[i] == rng.pos
        invariant forall k {:trigger made[k]} :: 0 <= k < i ==>
          Generated(made[k]) && DrawnTask(rng.draws, rng.coins, fuel, marks[k], made[k], marks[k + 1])
      {
        var task, _ := GenerateTask(rng, fuel);
        if task.None? {
          return None, marks;
        }
        DrawnChainSnoc(rng.draws, rng.coins, fuel, marks, made, task.value, rng.pos);
        made := made + [task.value];
        marks := marks + [rng.pos];
      }
      tasks := Some(made);
    }
  }
}
