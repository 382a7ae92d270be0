/**
 * The planning interface shared by benchmarks and approaches: a task is an
 * initial state and a goal, a benchmark hands an approach four functions
 * (actions, transition, cost, goal test), and a plan is judged by replaying
 * it from the initial state and testing the goal on the state it ends in.
 */
module Planning {

  /** A problem instance: the state a plan starts from, paired with the goal it must reach. */
  datatype Task<S, G> = Task(init: S, goal: G)

  /**
   * The four functions an approach is given, in the order its constructor
   * takes them. The goal test may have a precondition on the goal (the maze
   * goal test asserts that the goal text is well formed).
   */
  datatype Domain<!S, !G, !A> = Domain(
    actions: seq<A>,
    transition: (S, A) -> S,
    cost: (S, A, S) -> real,
    goal: (S, G) --> bool)

  /** The state reached by applying the actions of `plan` to `s`, first action first. */
  function Replay<S, A>(step: (S, A) -> S, s: S, plan: seq<A>): S
    decreases |plan|
  {
    if plan == [] then s else Replay(step, step(s, plan[0]), plan[1..])
  }

  /** Appending one action applies one more transition to the replayed state. */
  lemma {:induction false} ReplaySnoc<S, A>(step: (S, A) -> S, s: S, plan: seq<A>, a: A)
    ensures Replay(step, s, plan + [a]) == step(Replay(step, s, plan), a)
    decreases |plan|
  {
    if plan == [] {
      assert plan + [a] == [a];
    } else {
      assert (plan + [a])[1..] == plan[1..] + [a];
      ReplaySnoc(step, step(s, plan[0]), plan[1..], a);
    }
  }

  /** Replaying `p + q` is replaying `q` from where replaying `p` ends. */
  lemma {:induction false} ReplayConcat<S, A>(step: (S, A) -> S, s: S, p: seq<A>, q: seq<A>)
    ensures Replay(step, s, p + q) == Replay(step, Replay(step, s, p), q)
    decreases |p|
  {
    if p == [] {
      assert p + q == q;
    } else {
      assert (p + q)[1..] == p[1..] + q;
      ReplayConcat(step, step(s, p[0]), p[1..], q);
    }
  }

  /** The plan solves the task: the goal holds in the state the plan ends in. */
  predicate Solves<S, G, A>(d: Domain<S, G, A>, task: Task<S, G>, plan: seq<A>)
    requires d.goal.requires(Replay(d.transition, task.init, plan), task.goal)
  {
    d.goal(Replay(d.transition, task.init, plan), task.goal)
  }

  /**
   * Only the end state is judged: `p + q` solves the task exactly when `q`
   * solves the task that starts where `p` ends, whatever states `p` passes.
   */
  lemma SolvesAfterPrefix<S, G, A>(d: Domain<S, G, A>, task: Task<S, G>, p: seq<A>, q: seq<A>)
    requires d.goal.requires(Replay(d.transition, task.init, p + q), task.goal)
    ensures d.goal.requires(Replay(d.transition, Replay(d.transition, task.init, p), q), task.goal)
    ensures Solves(d, task, p + q) == Solves(d, Task(Replay(d.transition, task.init, p), task.goal), q)
  {
    ReplayConcat(d.transition, task.init, p, q);
  }

  /**
   * Steps a state through the plan one action at a time, from the task's
   * start, and reports whether the goal test accepts the state reached.
   */
  method PlanIsValid<S, G, A>(plan: seq<A>, task: Task<S, G>, d: Domain<S, G, A>) returns (valid: bool)
    requires d.goal.requires(Replay(d.transition, task.init, plan), task.goal)
    ensures valid == Solves(d, task, plan)
    ensures plan == [] ==> (valid <==> d.goal(task.init, task.goal))
  {
    var state := task.init;
    for i := 0 to |plan|
      invariant state == Replay(d.transition, task.init, plan[..i])
    {
      ReplaySnoc(d.transition, task.init, plan[..i], plan[i]);
      assert plan[..i + 1] == plan[..i] + [plan[i]];
      state := d.transition(state, plan[i]);
    }
    assert plan[..|plan|] == plan;
    valid := d.goal(state, task.goal);
  }
}
