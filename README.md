# Maze planning core, modelled in Dafny

This project models the planning core of `python-research-starter`:

- the 2D maze benchmark: the frozen maze state, the four actions, the transition in which a blocked move changes nothing, the constant step cost, the goal test that parses `"Go to (r, c)"`, and the random task generator;
- plan replay (`plan_is_valid`);
- the random planner (`RandomApproach`);
- the slice layout of the limb-repositioning state vector (`LR_State` in the playground).

Modules and files:

- `options.dfy` (`Options`): the `Option` datatype.
- `text.dfy` (`Text`): the string operations the goal format uses, as Python performs them. These are decimal printing of an integer, `int()` on space-free text, `str.replace(" ", "")` and `str.split(",")`.
- `planning.dfy` (`Planning`): `Task`, and `Domain`, which holds the four functions an approach receives (actions, transition, cost, goal test). It also has `Replay`, the left fold of the transition over a plan, `Solves`, and the loop `PlanIsValid`.
- `maze.dfy` (`Maze`): the maze domain.
- `rng.dfy` (`Random`): the seeded numpy generator, modelled as an oracle object (see below).
- `maze_tasks.dfy` (`MazeTasks`): the `MazeBenchmark` class with `GenerateTask` and `GenerateTasks`, the random walk, and the solvability argument.
- `random_approach.dfy` (`RandomPlanner`): the `RandomApproach` class and a maze client of it, wired like the repository's test.
- `limb_state.dfy` (`LimbState`): the `LR_State` layout.

Oracles that stand in for the outside world:

- **Random generator.** An `Rng` object holds two functions of the draw index, `draws: nat -> nat` and `coins: nat -> bool`, plus a position that each call advances by one per value it returns (`n` for a sample of `n` elements, one otherwise).
  - `rng.integers(lo, hi)` is `lo + draws(k) % (hi - lo)`.
  - `rng.choice(xs)` is `xs[draws(k) % |xs|]`.
  - `rng.uniform() > 0.99` is `coins(k)`.
  - `rng.choice(xs, size=n, replace=False)` takes `n` elements one at a time, each from the elements not yet taken.
  - Because the generator is one shared object, the order of the calls decides what each caller sees, as in the source.
- **Wall clock.** `clock: seq<bool>` gives the answer to each `time.perf_counter() - start_time < timeout` poll. Once the sequence runs out, time is up.
- **Action draws of the planner.** `picks: seq<A>` gives the action drawn in each round. This is a separate oracle, not the `Rng` object: in the repository's test one generator feeds both `generate_tasks` and the approach, so the planner's draws continue the task generator's sequence; the model leaves that coupling open by letting `picks` be any sequence of available actions.

Python `assert`s and numpy's refusals are preconditions (`requires`): the goal text must parse, `train_or_test` must be `"train"` or `"test"`, and integer ranges must be non-empty. A move code outside 0..3 would raise `KeyError` in the source; the type `Maze.Action` excludes it.

## Model

| member | source | states |
|---|---|---|
| `Maze.MazeState.CopyWith` | src/python_research_starter/benchmarks/maze_benchmark.py:22-24 | the copy has the new agent cell and the same obstacles, height and width |
| `Maze.GetActions` | src/python_research_starter/benchmarks/maze_benchmark.py:54-55 | exactly four actions, the i-th being code i (up, down, left, right), and every action code occurs |
| `Maze.Delta` | src/python_research_starter/benchmarks/maze_benchmark.py:109-114 | each action's offset is one cell along one axis |
| `Maze.NextState` | src/python_research_starter/benchmarks/maze_benchmark.py:106-120 | obstacles, height and width are unchanged; the agent moves to the neighbouring cell when that cell is in the grid and not an obstacle, otherwise the state is returned unchanged; the result is the input or a move to an adjacent free cell; an agent on a free cell stays on one |
| `Maze.GetCost` | src/python_research_starter/benchmarks/maze_benchmark.py:122-123 | every step costs 1.0, blocked moves included |
| `Maze.ReplayKeepsLayout` | src/python_research_starter/benchmarks/maze_benchmark.py:116-120 | after any plan the obstacles and the grid size are unchanged, and an agent that starts on a free cell ends on a free cell |
| `Maze.ParseGoal` | src/python_research_starter/benchmarks/maze_benchmark.py:127-128 | a goal that parses starts with "Go to (" and ends with ")"; the exact set of goals that parse is given by the next two rows |
| `Maze.ParseGoalAccepts` | src/python_research_starter/benchmarks/maze_benchmark.py:127-128 | every text "Go to (" + a + "," + b + ")", where a and b hold no comma and read as integers r and c once their spaces are removed, parses to (r, c) |
| `Maze.ParseGoalOnlyNamed` | src/python_research_starter/benchmarks/maze_benchmark.py:127-128 | conversely, a goal that parses to (r, c) is such a text: the two parts can be read off the goal itself |
| `Maze.CheckGoal` | src/python_research_starter/benchmarks/maze_benchmark.py:125-129 | for a well-formed goal, the test holds iff the agent is on the cell the goal names |
| `Maze.CoordinatesWithoutSpaces` | src/python_research_starter/benchmarks/maze_benchmark.py:128 | removing spaces from the printed pair "r, c" leaves "r,c" |
| `Maze.GoalString` | src/python_research_starter/benchmarks/maze_benchmark.py:102 | the goal written for a target has the "Go to (" prefix, the ")" suffix and the printed row and column, separated by ", ", between them |
| `Maze.GoalRoundTrip` | src/python_research_starter/benchmarks/maze_benchmark.py:102-129 | the goal text written for target (r, c) parses back to (r, c), so the goal test holds exactly when the agent is on (r, c); on (r+1, c), for example, it fails |
| `Maze.MazeDomain` | tests/approaches/test_random_approach.py:12-17 | the benchmark's four functions as an approach receives them; the goal test is defined exactly on well-formed goals |
| `Maze.OnlyFinalStateCounts` | src/python_research_starter/utils.py:9-12 | only the final state is checked: on a 1 x 2 grid with goal "Go to (0, 1)", [right] solves the task; [right, left] passes through the goal cell but does not solve it |
| `Text.ParseInt` | src/python_research_starter/benchmarks/maze_benchmark.py:128 | `int()` on space-free text accepts exactly a non-empty run of digits, optionally after one "+" or "-"; the value is the decimal value of the digits, negated after "-" |
| `Text.NatToString` | src/python_research_starter/benchmarks/maze_benchmark.py:102 | a natural number prints as a non-empty run of decimal digits, a single digit exactly for values below 10, with no leading zero (the first digit is "0" only for 0) |
| `Text.IntToString` | src/python_research_starter/benchmarks/maze_benchmark.py:102 | `str(n)`: for n >= 0 the digits of n, for n < 0 a "-" followed by the digits of -n, with no leading zero |
| `Text.NatToStringRoundTrip` | src/python_research_starter/benchmarks/maze_benchmark.py:102 | reading back the printed digits of n gives n |
| `Text.IntToStringRoundTrip` | src/python_research_starter/benchmarks/maze_benchmark.py:102 | `int(str(n)) == n` for every integer, negative ones included |
| `Text.IntToStringOmits` | src/python_research_starter/benchmarks/maze_benchmark.py:102 | a printed integer contains no spaces and no commas |
| `Text.RemoveSpaces` | src/python_research_starter/benchmarks/maze_benchmark.py:128 | the result has no space and is no longer than the input |
| `Text.RemoveSpacesMultiset` | src/python_research_starter/benchmarks/maze_benchmark.py:128 | the result holds every character other than a space exactly as often as the input does (the input's multiset with the spaces taken out) |
| `Text.RemoveSpacesKeeps` | src/python_research_starter/benchmarks/maze_benchmark.py:128 | a character other than a space occurs in the result iff it occurs in the input |
| `Text.RemoveSpacesCommaSpace` | src/python_research_starter/benchmarks/maze_benchmark.py:102-128 | removing the spaces from a + ", " + b, with no space in a or b, leaves a + "," + b |
| `Text.RemoveSpacesAt` | src/python_research_starter/benchmarks/maze_benchmark.py:128 | if the space-free text is u + "," + v with no comma in u, the original text is p + "," + q where p loses its spaces to u and q to v |
| `Text.RemoveSpacesNoop` | src/python_research_starter/benchmarks/maze_benchmark.py:128 | text without spaces is unchanged |
| `Text.RemoveSpacesConcat` | src/python_research_starter/benchmarks/maze_benchmark.py:128 | removing spaces distributes over concatenation |
| `Text.Split` | src/python_research_starter/benchmarks/maze_benchmark.py:128 | splitting always gives at least one piece |
| `Text.SplitNoSeparator` | src/python_research_starter/benchmarks/maze_benchmark.py:128 | text without the separator splits into itself alone |
| `Text.SplitAtFirst` | src/python_research_starter/benchmarks/maze_benchmark.py:128 | the first piece ends at the first separator |
| `Text.SplitSingle` | src/python_research_starter/benchmarks/maze_benchmark.py:128 | text that splits into one piece holds no separator and is that piece |
| `Text.SplitPair` | src/python_research_starter/benchmarks/maze_benchmark.py:128 | text that splits into two pieces is those pieces joined by a separator that neither piece contains |
| `Text.SplitTwo` | src/python_research_starter/benchmarks/maze_benchmark.py:128 | "a,b" with no comma in a or b splits into exactly [a, b] |
| `Planning.ReplaySnoc` | src/python_research_starter/utils.py:10-11 | appending an action applies one more transition to the replayed state |
| `Planning.ReplayConcat` | src/python_research_starter/utils.py:10-11 | replaying p + q equals replaying q from the state that replaying p reaches |
| `Planning.SolvesAfterPrefix` | src/python_research_starter/utils.py:9-12 | p + q solves a task iff q solves the same goal from where p ends, whatever states p passes |
| `Planning.PlanIsValid` | src/python_research_starter/utils.py:9-12 | the loop's answer is the goal test on the left fold of the transition over the plan, actions in list order; the empty plan is valid iff the initial state meets the goal |
| `MazeTasks.TraceSnoc` | src/python_research_starter/benchmarks/maze_benchmark.py:82-84 | for any transition, one more walk step adds exactly the cell it leads to to the visited set |
| `MazeTasks.ReplayEndsOnTrace` | src/python_research_starter/benchmarks/maze_benchmark.py:83-86 | the cell a walk stops on is one of the visited cells |
| `MazeTasks.ExtraObstaclesOffTrace` | src/python_research_starter/benchmarks/maze_benchmark.py:89-99 | adding obstacles only on cells a replay never enters leaves that replay's visited cells, end cell and grid unchanged |
| `MazeTasks.SingleCellWalkStays` | src/python_research_starter/benchmarks/maze_benchmark.py:78-87 | on a 1 x 1 grid every walk stays on its start, so the stop test never passes |
| `MazeTasks.SortedUnvisited` | src/python_research_starter/benchmarks/maze_benchmark.py:90-91 | the candidates are exactly the in-grid cells the walk never visited, in strictly increasing (row, column) order |
| `MazeTasks.DistinctCard` | src/python_research_starter/benchmarks/maze_benchmark.py:91-92 | a list without repeats has as many elements as its set, so the obstacle count is a quarter of the unvisited cells |
| `MazeTasks.WalkSolvesTask` | src/python_research_starter/benchmarks/maze_benchmark.py:76-102 | with obstacles only off the walk, replaying the walk from the start reaches the cell the goal names, so the task is solvable |
| `MazeTasks.WalkBounds` | src/python_research_starter/benchmarks/maze_benchmark.py:78-87 | a walk keeps the moves already made as a prefix, adds at most `fuel` moves (exactly `fuel` unless it stops) and consumes at least one draw per move |
| `MazeTasks.WalkStopsOffStart` | src/python_research_starter/benchmarks/maze_benchmark.py:83-87 | a walk that stops has made at least one move and stands on a cell other than the start |
| `MazeTasks.StoppedWalkTakesTwo` | src/python_research_starter/benchmarks/maze_benchmark.py:79-87 | a walk that stops has also consumed the draw of its final stop test |
| `MazeTasks.RandomWalk` | src/python_research_starter/benchmarks/maze_benchmark.py:75-87 | the moves, the stop and the generator's new position are exactly those the `Walk` reading of the draws gives from the old position, so the walk continues the generator where it was; the visited set is the walk's trace; a stop cell is where the walk ends and differs from the start |
| `MazeTasks.MazeBenchmark.constructor` | src/python_research_starter/benchmarks/maze_benchmark.py:39-52 | the four size bounds are stored |
| `MazeTasks.MazeBenchmark.DrawnStart` | src/python_research_starter/benchmarks/maze_benchmark.py:65-77 | the grid read off four draws has its height and width in range, no obstacles, and its start inside the grid |
| `MazeTasks.MazeBenchmark.DrawnTaskAdvances` | src/python_research_starter/benchmarks/maze_benchmark.py:64-98 | a generated task reads at least six draws (four for the layout, a move and its stop test), so successive tasks read disjoint stretches of the generator |
| `MazeTasks.MazeBenchmark.DrawnChainSnoc` | src/python_research_starter/benchmarks/maze_benchmark.py:62 | appending a task generated from the last position reached extends a chain of tasks generated one after another |
| `MazeTasks.MazeBenchmark.GenerateTask` | src/python_research_starter/benchmarks/maze_benchmark.py:64-104 | height, width, start row and start column are the next four draws, in that order; the walk is the one the following draws give, and the result is `None` exactly when it does not stop; a task's goal names where the walk stopped, and the generator ends one draw per obstacle past the walk; a generated task has height and width in range and a start on a free cell; its goal names a cell other than the start, so the goal test fails initially; the obstacles are a quarter (rounded down) of the unvisited in-grid cells; the walk's actions solve the task |
| `MazeTasks.MazeBenchmark.WalkTask` | src/python_research_starter/benchmarks/maze_benchmark.py:89-102 | a task built from a walk that left its start, with a quarter of the unvisited cells as obstacles and the goal text naming the end cell, meets every generated-task guarantee and is solved by the walk |
| `MazeTasks.MazeBenchmark.GenerateTasks` | src/python_research_starter/benchmarks/maze_benchmark.py:57-62 | only "train" or "test" is accepted; exactly `num_tasks` tasks are made; for `num_tasks <= 0` the result is the empty list whatever the size bounds, which are required only when a task is made; each task satisfies the generated-task guarantees; the tasks are generated one after another from the same generator: task i reads the draws from mark i on and leaves the generator at mark i + 1, mark 0 being where it stood and the last mark where it ends |
| `Random.Drawn` | src/python_research_starter/benchmarks/maze_benchmark.py:66-73 | the integer a draw gives lies in [lo, hi) |
| `Random.Rng.Integers` | src/python_research_starter/benchmarks/maze_benchmark.py:66-73 | the result is the integer in [lo, hi) that the next draw gives, and exactly that one draw is consumed |
| `Random.Rng.Choice` | src/python_research_starter/benchmarks/maze_benchmark.py:79 | the drawn element belongs to the list, is the one the next draw selects, and consumes one draw |
| `Random.Rng.Exceeds99` | src/python_research_starter/benchmarks/maze_benchmark.py:85 | the stop draw is the generator's next coin |
| `Random.Rng.ChooseDistinct` | src/python_research_starter/benchmarks/maze_benchmark.py:93-98 | exactly n distinct elements, all from the list |
| `RandomPlanner.Budget` | src/python_research_starter/approaches/random_approach.py:25 | the number of leading polls with time left: all polls before it have time left, and the one at it, if any, does not |
| `RandomPlanner.RandomApproach.constructor` | src/limb_repo/approaches/base_approach.py:19-30 | the approach keeps exactly the four functions it is given |
| `RandomPlanner.RandomApproach.Train` | src/python_research_starter/approaches/random_approach.py:14-15 | training changes nothing |
| `RandomPlanner.RandomApproach.GeneratePlan` | src/python_research_starter/approaches/random_approach.py:17-32 | the plan is the first draws, one per round that did not stop, all of them available actions. Before each appended action the goal failed on the replayed state. A plan returned before time ran out solves the task. No time means an empty plan; a goal met at the start with time left means an empty plan |
| `RandomPlanner.PlanMazeTask` | tests/approaches/test_random_approach.py:9-21 | on a maze task, the plan judged by `PlanIsValid` is valid exactly when it solves the task, which it does whenever the planner stopped before time ran out |
| `LimbState.NewLRState` | playground/np_subclassing.py:43-52 | construction needs length 3 * (active + passive dofs) and keeps the data and both counts |
| `LimbState.DefaultLength` | playground/np_subclassing.py:43-46 | with the default 6 and 6 joints the length must be 36 |
| `LimbState.LRState.ActiveKinematics` | playground/np_subclassing.py:60-62 | the first 3·na elements |
| `LimbState.LRState.ActivePos` | playground/np_subclassing.py:64-66 | na elements starting at 0 |
| `LimbState.LRState.ActiveVel` | playground/np_subclassing.py:68-70 | na elements starting at na |
| `LimbState.LRState.ActiveAcc` | playground/np_subclassing.py:72-74 | na elements starting at 2·na |
| `LimbState.LRState.PassiveKinematics` | playground/np_subclassing.py:76-80 | 3·np elements starting at 3·na |
| `LimbState.LRState.PassivePos` | playground/np_subclassing.py:82-86 | np elements starting at 3·na |
| `LimbState.LRState.PassiveVel` | playground/np_subclassing.py:88-94 | np elements starting at 3·na + np |
| `LimbState.LRState.PassiveAcc` | playground/np_subclassing.py:96-102 | np elements starting at 3·na + 2·np |
| `LimbState.LRState.PartAt` | playground/np_subclassing.py:60-102 | every index of the vector falls inside one of the six parts |
| `LimbState.LRState.Slice` | playground/np_subclassing.py:60-102 | a part's slice has its range's length |
| `LimbState.NamedSlices` | playground/np_subclassing.py:64-102 | the six named properties are the slices of the six parts |
| `LimbState.ActiveKinematicsSplit` | playground/np_subclassing.py:60-74 | active kinematics = active positions ++ velocities ++ accelerations |
| `LimbState.PassiveKinematicsSplit` | playground/np_subclassing.py:76-102 | passive kinematics = passive positions ++ velocities ++ accelerations |
| `LimbState.WholeVector` | playground/np_subclassing.py:60-80 | active kinematics ++ passive kinematics = the whole vector |
| `LimbState.PartsDisjoint` | playground/np_subclassing.py:60-102 | the index ranges of two different parts do not overlap |
| `LimbState.ArangeExample` | playground/np_subclassing.py:105-121 | for arange(36) with 6 and 6 joints the active kinematics are 0..17 and the active positions 0..5 |

## Left out

- The search approach (`search_approach.py`) calls `run_astar` from a library that is not part of this model. Neither its search nor its successor function is modelled.
- The physics environments, PyBullet helpers, config parsing, the experiment driver and `bugs.py` are outside this core.
- The `RealisticInfoArray*` classes and numpy's `__array_finalize__` propagation are not modelled. Only the `LR_State` index layout is. Element type is generic. The dof counts are naturals; the source does not rule out negative counts, which would make Python slices wrap.
- The printed goal text: it is modelled as `"Go to (" + r + ", " + c + ")"` with plain decimal digits. How numpy prints its integer scalars inside a tuple is not modelled; some numpy versions print them as `np.int64(3)`, which the goal test could not parse.
- `Text.ParseInt` accepts only an optional sign followed by ASCII digits. Python's `int()` also accepts `_` between digits, non-ASCII digits and surrounding whitespace other than spaces. Such goals are outside `CheckGoal`'s precondition here, although the source accepts them.
- `MazeTasks.MazeBenchmark.GenerateTask`: the random walk gets a `fuel` bound and gives `None` when it runs out. The source loops until the stop draw; on a 1 x 1 grid it never stops (`SingleCellWalkStays`).
- `MazeTasks.MazeBenchmark.GenerateTask` requires `1 <= min_height <= max_height` and `1 <= min_width <= max_width`. The source raises inside numpy only when it actually draws an empty range (a height or width of 0 or less), not for every range that contains such a value. `GenerateTasks` requires the bounds only when `num_tasks > 0`, as the source never draws otherwise.
- `Random.Rng`: the numpy distributions are not modelled. Draws come from oracle functions reduced into range with `%`. `int(n * 0.25)` is modelled as `n / 4` on naturals, and `uniform() > 0.99` as a boolean draw. That the same seed reproduces the same tasks is not stated as a property.
- `RandomPlanner.RandomApproach.GeneratePlan` requires every draw to be one of the approach's actions, so with an empty action list only the no-time case is modelled. The source would return `[]` if the goal held at the first poll, and otherwise numpy raises on the empty choice.
- Floating-point time and the timeout value are replaced by the clock oracle.
- `MazeTasks.MazeBenchmark.GenerateTasks` returns `None` when any walk runs out of fuel, since the walk is bounded as above.
- `Random.Rng.ChooseDistinct` states which list the obstacles come from, how many there are and that one draw is consumed per obstacle. Which elements each draw selects is in its body but not in its contract, so `GenerateTask` does not tie the obstacle cells to particular draws.
- `MazeTasks.RandomWalk` takes the transition as a parameter (`GenerateTask` passes `NextState`), where the source calls `self.get_next_state`.
