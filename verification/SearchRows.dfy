/** The two halves of the optimizer meet: what the exact search returns is a choice of options that
    the linear rows of both solver backends admit. */
module SearchRows {
  import opened Basics
  import opened OptimizerModel
  import opened ConstraintIndex
  import opened ExactSearch
  import opened SearchFeasible
  import opened SearchCoverage
  import opened Formulation
  import opened LinearRows
  import opened RowsAndPlans

  ghost predicate HasOption(f: Formulation, a: Assignment) {
    exists k :: 0 <= k < |f.options| && AssignmentOf(f.options[k]) == a
  }

  /** The option that stands for an assignment; overlapping windows can offer several. */
  ghost function OptionNumber(f: Formulation, a: Assignment): (k: nat)
    requires HasOption(f, a)
    ensures k < |f.options| && AssignmentOf(f.options[k]) == a
  {
    var k :| 0 <= k < |f.options| && AssignmentOf(f.options[k]) == a; k
  }

  /** The window of the entry is not one that ends before one duration has passed. */
  ghost predicate Offered(m: Model, a: Assignment) {
    Placed(m, a) && IsOption(TaskOf(m, a.task), ActorOf(m, a.actor), a.start)
  }

  ghost predicate AllOffered(m: Model, plan: seq<Assignment>) {
    forall q :: 0 <= q < |plan| ==> Offered(m, plan[q])
  }

  /** From time zero on every window that holds the run is long enough. */
  lemma FromZeroIsOffered(m: Model, plan: seq<Assignment>)
    requires AllPlaced(m, plan) && StartsFromZero(plan)
    ensures AllOffered(m, plan)
  {
    forall q | 0 <= q < |plan| ensures Offered(m, plan[q]) {
      OptionIsPlacement(TaskOf(m, plan[q].task), ActorOf(m, plan[q].actor), plan[q].start);
    }
  }

  /** What the model offers is an option of its formulation. */
  lemma OfferedHasOption(m: Model, f: Formulation, a: Assignment)
    requires UniqueIds(m) && OptionsComplete(m, f.options, |m.tasks|) && Offered(m, a)
    ensures HasOption(f, a)
  {
    var t, actor := TaskOf(m, a.task), ActorOf(m, a.actor);
    var i :| 0 <= i < |m.tasks| && m.tasks[i] == t;
    var j :| 0 <= j < |m.actors| && m.actors[j] == actor;
    assert IsOption(m.tasks[i], m.actors[j], a.start);
    var o := MakeOption(m, i, j, a.start);
    assert o in f.options;
    assert AssignmentOf(o) == a;
  }

  ghost predicate Stands(f: Formulation, plan: seq<Assignment>, k: nat)
    requires forall q :: 0 <= q < |plan| ==> HasOption(f, plan[q])
  {
    exists q :: 0 <= q < |plan| && OptionNumber(f, plan[q]) == k
  }

  /** Choose exactly the options that stand for the plan. */
  ghost function ChoiceFor(f: Formulation, plan: seq<Assignment>): (x: Choice)
    requires forall q :: 0 <= q < |plan| ==> HasOption(f, plan[q])
    ensures |x| == |f.options|
    ensures forall k :: 0 <= k < |x| ==> (x[k] <==> Stands(f, plan, k))
  {
    seq(|f.options|, k requires 0 <= k < |f.options| => Stands(f, plan, k))
  }

  lemma ChoiceMembers(f: Formulation, plan: seq<Assignment>, a: Assignment)
    requires forall q :: 0 <= q < |plan| ==> HasOption(f, plan[q])
    ensures a in Decoded(f, ChoiceFor(f, plan)) <==> a in plan
  {
    var x := ChoiceFor(f, plan);
    if a in Decoded(f, x) {
      var p :| 0 <= p < |Decoded(f, x)| && Decoded(f, x)[p] == a;
      var k := OptionOf(f, x, |x|, p);
      assert Stands(f, plan, k);
    }
    if a in plan {
      var q :| 0 <= q < |plan| && plan[q] == a;
      var k := OptionNumber(f, a);
      assert Stands(f, plan, k);
      var p := EntryOf(f, x, |x|, k);
    }
  }

  lemma ChoiceDistinct(m: Model, f: Formulation, plan: seq<Assignment>)
    requires Linked(m, f) && DistinctTasks(plan)
    requires forall q :: 0 <= q < |plan| ==> HasOption(f, plan[q])
    ensures DistinctTasks(Decoded(f, ChoiceFor(f, plan)))
  {
    var x := ChoiceFor(f, plan);
    forall k, l | 0 <= k < l < |x| && x[k] && x[l] ensures f.options[k].taskIndex != f.options[l].taskIndex {
      assert Stands(f, plan, k) && Stands(f, plan, l);
      var q :| 0 <= q < |plan| && OptionNumber(f, plan[q]) == k;
      var r :| 0 <= r < |plan| && OptionNumber(f, plan[r]) == l;
      assert q < r || r < q;
      OptionFacts(m, f, k);
      OptionFacts(m, f, l);
    }
    OnePerTaskIsDistinct(m, f, x, |x|);
  }

  /** Two plans without repeated tasks and with the same entries are rearrangements of each other. */
  lemma SameEntriesSameMultiset(a: seq<Assignment>, b: seq<Assignment>)
    requires DistinctTasks(a) && DistinctTasks(b) && forall x :: x in a <==> x in b
    ensures multiset(a) == multiset(b)
  {
    var task := (x: Assignment) => x.task;
    forall x ensures multiset(a)[x] == multiset(b)[x] {
      DistinctByCount(task, a, x);
      DistinctByCount(task, b, x);
      MemberOfMultiset(a, x);
      MemberOfMultiset(b, x);
    }
  }

  /** And every option is offered. */
  lemma DecodedOffered(m: Model, f: Formulation, x: Choice)
    requires Linked(m, f) && |x| == |f.options|
    ensures AllOffered(m, Decoded(f, x))
  {
    forall q | 0 <= q < |Decoded(f, x)| ensures Offered(m, Decoded(f, x)[q]) {
      var k := OptionOf(f, x, |x|, q);
      OptionFacts(m, f, k);
    }
  }

  lemma OfferedOfPermutation(m: Model, a: seq<Assignment>, b: seq<Assignment>)
    requires multiset(a) == multiset(b) && AllOffered(m, a)
    ensures AllOffered(m, b)
  {
    PermutationMembers(a, b);
    forall q | 0 <= q < |b| ensures Offered(m, b[q]) {
      assert b[q] in a;
    }
  }

  /** Every schedule of offered entries without repeated tasks is the decoding of some choice of options. */
  lemma FeasiblePlanHasChoice(m: Model, opts: Options, f: Formulation, plan: seq<Assignment>) returns (x: Choice)
    requires UniqueIds(m) && Exact(m, opts, f) && AllOffered(m, plan) && DistinctTasks(plan)
    ensures |x| == |f.options| && multiset(Decoded(f, x)) == multiset(plan)
  {
    forall q | 0 <= q < |plan| ensures HasOption(f, plan[q]) {
      OfferedHasOption(m, f, plan[q]);
    }
    x := ChoiceFor(f, plan);
    ChoiceDistinct(m, f, plan);
    forall a ensures a in Decoded(f, x) <==> a in plan {
      ChoiceMembers(f, plan, a);
    }
    SameEntriesSameMultiset(Decoded(f, x), plan);
  }

  /** Exactly the feasible schedules that cover what is required, and whose every entry is offered, are
      decodings of admitted choices. */
  lemma RowsAdmitExactlyFeasiblePlans(m: Model, opts: Options, f: Formulation, rows: seq<Row>, plan: seq<Assignment>)
    requires UniqueIds(m) && NonNegativeDemands(m) && Exact(m, opts, f) && CpRows(f, rows)
    ensures Feasible(m, plan) && CoversRequired(m, opts, plan) && AllOffered(m, plan) <==>
            exists x :: |x| == |f.options| && AllHold(rows, x) && multiset(Decoded(f, x)) == multiset(plan)
  {
    if Feasible(m, plan) && CoversRequired(m, opts, plan) && AllOffered(m, plan) {
      var x := FeasiblePlanHasChoice(m, opts, f, plan);
      FeasibleOfPermutation(m, plan, Decoded(f, x));
      CoversOfPermutation(m, opts, plan, Decoded(f, x));
      RowsMeanFeasible(m, opts, f, rows, x);
    }
    if x :| |x| == |f.options| && AllHold(rows, x) && multiset(Decoded(f, x)) == multiset(plan) {
      RowsMeanFeasible(m, opts, f, rows, x);
      FeasibleOfPermutation(m, Decoded(f, x), plan);
      CoversOfPermutation(m, opts, Decoded(f, x), plan);
      DecodedOffered(m, f, x);
      OfferedOfPermutation(m, Decoded(f, x), plan);
    }
  }

  /** What the exact search returns, the rows of both solver backends admit. */
  lemma SearchReturnsAdmittedChoice(m: Model, index: Index, opts: Options, prune: bool, plan: Plan,
                                    f: Formulation, cp: seq<Row>, mip: seq<MipRow>)
    requires UniqueIds(m) && PositiveDurations(m) && NonNegativeDemands(m) && SymmetricMutex(m)
    requires Agrees(m, index) && Exact(m, opts, f) && CpRows(f, cp) && MipRows(f, mip)
    requires opts.allowPartial || (ClosedAcyclic(m) && MandatoryDependsOnMandatory(m))
    requires Explore(m, index, opts, prune, Root(m), None) == Some(plan)
    ensures exists x :: |x| == |f.options| && AllHold(cp, x) && AllHoldMip(mip, x) &&
                        multiset(Decoded(f, x)) == multiset(plan.assignments)
  {
    SearchIsFeasible(m, index, opts, prune, plan);
    SearchStartsFromZero(m, index, opts, prune, plan);
    FromZeroIsOffered(m, plan.assignments);
    if !opts.allowPartial {
      MandatoryTasksAreScheduled(m, index, opts, prune, plan);
    }
    RowsAdmitExactlyFeasiblePlans(m, opts, f, cp, plan.assignments);
    var x :| |x| == |f.options| && AllHold(cp, x) && multiset(Decoded(f, x)) == multiset(plan.assignments);
    BackendsAgree(m, opts, f, cp, mip, x);
  }
}
