/**
 * The random planner: while time remains, stop with the current plan if the
 * goal holds, otherwise draw a random action, append it and advance the
 * simulated state. The wall clock is an oracle: `clock[k]` says whether time
 * remained at the k-th poll, and time is up once `clock` runs out. The random
 * draws are an oracle too: the k-th action drawn is `picks[k]`.
 */
module RandomPlanner {
  import opened Planning
  import opened Maze

  /** The number of polls that find time remaining before the first one that does not. */
  function Budget(clock: seq<bool>): (n: nat)
    ensures n <= |clock|
    ensures forall k :: 0 <= k < n ==> clock[k]
    ensures n < |clock| ==> !clock[n]
  {
    if clock == [] || !clock[0] then 0 else 1 + Budget(clock[1..])
  }

  class RandomApproach<S, G, A> {
    const actions: seq<A>
    const transition: (S, A) -> S
    const cost: (S, A, S) -> real
    const goal: (S, G) --> bool

    /** An approach sees only the four functions a benchmark hands it. */
    constructor (actions: seq<A>, transition: (S, A) -> S, cost: (S, A, S) -> real, goal: (S, G) --> bool)
      ensures this.actions == actions && this.transition == transition
      ensures this.cost == cost && this.goal == goal
    {
      this.actions := actions;
      this.transition := transition;
      this.cost := cost;
      this.goal := goal;
    }

    function Functions(): Domain<S, G, A> {
      Domain(actions, transition, cost, goal)
    }

    /** Training does nothing. */
    method Train(trainingTasks: seq<Task<S, G>>)
      ensures unchanged(this)
    {
    }

    method GeneratePlan(task: Task<S, G>, split: string, clock: seq<bool>, picks: seq<A>)
      returns (plan: seq<A>)
      requires forall s :: goal.requires(s, task.goal)
      requires |picks| >= Budget(clock)
      requires forall k :: 0 <= k < |picks| ==> picks[k] in actions
      // One action is drawn per round that does not stop; at most one round per poll with time left.
      ensures |plan| <= Budget(clock) && plan == picks[..|plan|]
      ensures forall k :: 0 <= k < |plan| ==> plan[k] in actions
      // The goal was tested before each action was drawn, and failed.
      ensures forall k :: 0 <= k < |plan| ==> !goal(Replay(transition, task.init, plan[..k]), task.goal)
      // Stopping before time ran out means the goal holds: the plan solves the task.
      ensures |plan| < Budget(clock) ==> Solves(Functions(), task, plan)
      ensures Budget(clock) == 0 ==> plan == []
      ensures Budget(clock) > 0 && goal(task.init, task.goal) ==> plan == []
    {
      plan := [];
      var state := task.init;
      var i := 0;
      while i < |clock| && clock[i]
        invariant i <= Budget(clock)
        invariant |plan| == i && plan == picks[..i]
        invariant state == Replay(transition, task.init, plan)
        invariant forall k :: 0 <= k < i ==> !goal(Replay(transition, task.init, plan[..k]), task.goal)
        invariant i > 0 ==> !goal(task.init, task.goal)
      {
        if goal(state, task.goal) {
          return plan;
        }
        var action := picks[i];
        ReplaySnoc(transition, task.init, plan, action);
        assert forall k :: 0 <= k <= i ==> (plan + [action])[..k] == plan[..k];
        assert plan[..0] == [] && plan[..i] == plan;
        plan := plan + [action];
        assert plan == picks[..i + 1];
        state := transition(state, action);
        i := i + 1;
      }
    }
  }

  /**
   * The random planner on a maze task, wired as a benchmark hands its
   * functions to an approach, with the plan then judged by replay.
   */
  method PlanMazeTask(task: Task<MazeState, string>, clock: seq<bool>, picks: seq<Action>)
    returns (plan: seq<Action>, valid: bool)
    requires ParseGoal(task.goal).Some?
    requires |picks| >= Budget(clock)
    ensures |plan| <= Budget(clock)
    ensures valid == Solves(MazeDomain(), task, plan)
    ensures |plan| < Budget(clock) ==> valid
  {
    var approach := new RandomApproach(GetActions(), NextState, GetCost, CheckGoal);
    plan := approach.GeneratePlan(task, "test", clock, picks);
    valid := PlanIsValid(plan, task, MazeDomain());
  }
}
