/** What the exact search optimises, on the plans themselves: how many tasks, then their weight, then
    the latest end. */
module SearchObjective {
  import opened Basics
  import opened OptimizerModel
  import opened ConstraintIndex
  import opened ExactSearch
  import opened PruningExact
  import opened SearchFeasible

  // ---- the objective ----------------------------------------------------------------------------------

  function WeightOf(m: Model, weight: int): Assignment -> int {
    (a: Assignment) => if a.task in Ids(m) then TaskOf(m, a.task).priority * weight else 0
  }

  /** The summed weight of the tasks in a plan. */
  function Worth(m: Model, weight: int, plan: seq<Assignment>): int {
    SumBy(plan, WeightOf(m, weight))
  }

  ghost predicate EndsBy(plan: seq<Assignment>, instant: int) {
    forall k :: 0 <= k < |plan| ==> plan[k].end <= instant
  }

  /** `b` is not preferable to `a`: it has no more tasks; with as many, no more weight; with as much, it
      does not end before `a`. */
  ghost predicate AtLeastAsGood(m: Model, weight: int, a: seq<Assignment>, b: seq<Assignment>) {
    && |b| <= |a|
    && (|b| == |a| ==> Worth(m, weight, b) <= Worth(m, weight, a))
    && (|b| == |a| && Worth(m, weight, b) == Worth(m, weight, a) ==>
          forall instant :: 0 <= instant && EndsBy(b, instant) ==> EndsBy(a, instant))
  }

  // ---- scores say the same ----------------------------------------------------------------------------

  /** Each entry carries the priority of its task. */
  ghost predicate Priced(m: Model, st: State) {
    forall k :: 0 <= k < |st.assignments| ==>
      var x := st.assignments[k];
      x.assignment.task in Ids(m) && x.priority == TaskOf(m, x.assignment.task).priority
  }

  lemma LeavesPriced(m: Model, index: Index, opts: Options)
    requires UniqueIds(m)
    ensures forall leaf :: leaf in Leaves(m, index, opts, Root(m)) ==> Priced(m, leaf)
  {
    var keeps := st => Priced(m, st);
    assert KeptBySearch(m, index, opts, keeps) by {
      forall st, t, c | keeps(st) && Branches(m, st, t) && c in Candidates(m, index, t, st)
        ensures keeps(Place(st, t, c)) {
        TaskOfId(m, t);
      }
    }
    LeavesKeep(m, index, opts, Root(m), keeps);
  }

  lemma {:induction false} PriorityIsWorth(m: Model, weight: int, xs: seq<SearchAssignment>)
    requires forall k :: 0 <= k < |xs| ==>
               xs[k].assignment.task in Ids(m) && xs[k].priority == TaskOf(m, xs[k].assignment.task).priority
    ensures TotalPriority(xs, weight) == Worth(m, weight, AssignmentsOf(xs))
  {
    if xs != [] {
      var n := |xs| - 1;
      PriorityIsWorth(m, weight, xs[..n]);
      assert AssignmentsOf(xs) == AssignmentsOf(xs[..n]) + [xs[n].assignment];
      SumByAppend(AssignmentsOf(xs[..n]), xs[n].assignment, WeightOf(m, weight));
    }
  }

  /** From time zero on, a plan ends by an instant exactly if its makespan does. */
  lemma {:induction false} MakespanIsLatestEnd(xs: seq<SearchAssignment>, instant: int)
    requires 0 <= instant
    ensures Makespan(xs) <= instant <==> EndsBy(AssignmentsOf(xs), instant)
  {
    if xs != [] {
      var n := |xs| - 1;
      MakespanIsLatestEnd(xs[..n], instant);
      assert AssignmentsOf(xs) == AssignmentsOf(xs[..n]) + [xs[n].assignment];
      assert EndsBy(AssignmentsOf(xs), instant) <==>
             EndsBy(AssignmentsOf(xs[..n]), instant) && xs[n].assignment.end <= instant;
    }
  }

  lemma {:induction false} MakespanNonNegative(xs: seq<SearchAssignment>)
    ensures 0 <= Makespan(xs)
  {
    if xs != [] {
      MakespanNonNegative(xs[..|xs| - 1]);
    }
  }

  /** One leaf scores better than another exactly when its plan is preferable. */
  lemma ScoreIsObjective(m: Model, opts: Options, a: State, b: State)
    requires Priced(m, a) && Priced(m, b)
    ensures Better(ScoreOf(opts, b), ScoreOf(opts, a)) <==> !AtLeastAsGood(m, opts.priorityWeight, PlanIn(a), PlanIn(b))
  {
    PriorityIsWorth(m, opts.priorityWeight, a.assignments);
    PriorityIsWorth(m, opts.priorityWeight, b.assignments);
    var ends := Makespan(b.assignments);
    MakespanNonNegative(b.assignments);
    forall instant | 0 <= instant
      ensures EndsBy(PlanIn(a), instant) <==> Makespan(a.assignments) <= instant
      ensures EndsBy(PlanIn(b), instant) <==> ends <= instant {
      MakespanIsLatestEnd(a.assignments, instant);
      MakespanIsLatestEnd(b.assignments, instant);
    }
    assert EndsBy(PlanIn(b), ends) && (EndsBy(PlanIn(a), ends) <==> Makespan(a.assignments) <= ends);
  }

  // ---- what the search returns ------------------------------------------------------------------------

  /** The search returns a plan of a leaf to which no other leaf of the tree is preferable, and of those the
      one that it reaches first; the bound changes nothing while no task weighs more than it assumes. */
  lemma SearchOptimisesObjective(m: Model, index: Index, opts: Options, prune: bool, plan: Plan) returns (k: nat)
    requires UniqueIds(m) && (prune ==> WeighsAtMost(m, opts, PRIORITY_BOUND))
    requires Explore(m, index, opts, prune, Root(m), None) == Some(plan)
    ensures var leaves := Leaves(m, index, opts, Root(m));
            && k < |leaves| && plan.assignments == PlanIn(leaves[k])
            && (forall i :: 0 <= i < |leaves| ==>
                  AtLeastAsGood(m, opts.priorityWeight, plan.assignments, PlanIn(leaves[i])))
            && (forall i :: 0 <= i < k ==>
                  !AtLeastAsGood(m, opts.priorityWeight, PlanIn(leaves[i]), plan.assignments))
  {
    var leaves := Leaves(m, index, opts, Root(m));
    FullIsFold(m, index, opts, Root(m), None);
    if prune {
      PruningIsExact(m, index, opts);
    }
    assert leaves != [];
    k := FoldIsFirstBest(m, opts, leaves);
    LeavesPriced(m, index, opts);
    forall i | 0 <= i < |leaves|
      ensures AtLeastAsGood(m, opts.priorityWeight, PlanIn(leaves[k]), PlanIn(leaves[i]))
      ensures i < k ==> !AtLeastAsGood(m, opts.priorityWeight, PlanIn(leaves[i]), PlanIn(leaves[k])) {
      assert leaves[i] in leaves && leaves[k] in leaves;
      ScoreIsObjective(m, opts, leaves[k], leaves[i]);
      ScoreIsObjective(m, opts, leaves[i], leaves[k]);
    }
  }
}
