/** What the leaves of the exact search cover: the fixpoint that drops blocked tasks, and the
    fate of every task at a leaf. */
module SearchCoverage {
  import opened Basics
  import opened OptimizerModel
  import opened ConstraintIndex
  import opened ExactSearch
  import opened PruningExact
  import opened SearchFeasible

  // ---- the drop fixpoint --------------------------------------------------------------------------

  /** Nothing outside `dropped` is blocked by it. */
  ghost predicate Closed(m: Model, scheduled: set<TaskId>, dropped: set<TaskId>) {
    forall t :: t in m.tasks ==> !NewlyBlocked(t, scheduled, dropped)
  }

  lemma {:induction false} StablePassIsClosed(tasks: seq<Task>, scheduled: set<TaskId>, dropped: set<TaskId>)
    requires DropPass(tasks, scheduled, dropped) == dropped
    ensures forall t :: t in tasks ==> !NewlyBlocked(t, scheduled, dropped)
  {
    if tasks != [] {
      assert !NewlyBlocked(tasks[0], scheduled, dropped) by {
        assert tasks[0].id in DropPass(tasks[1..], scheduled, dropped + {tasks[0].id});
      }
      StablePassIsClosed(tasks[1..], scheduled, dropped);
    }
  }

  lemma {:induction false} PassStaysInside(m: Model, tasks: seq<Task>, scheduled: set<TaskId>, dropped: set<TaskId>, upper: set<TaskId>)
    requires dropped <= upper && Closed(m, scheduled, upper)
    requires forall t :: t in tasks ==> t in m.tasks
    ensures DropPass(tasks, scheduled, dropped) <= upper
  {
    if tasks != [] {
      var t := tasks[0];
      if NewlyBlocked(t, scheduled, dropped) {
        var d :| d in t.deps && d in dropped;
        assert DependencyBlocked(t, upper);
        assert !NewlyBlocked(t, scheduled, upper);
        PassStaysInside(m, tasks[1..], scheduled, dropped + {t.id}, upper);
      } else {
        PassStaysInside(m, tasks[1..], scheduled, dropped, upper);
      }
    }
  }

  /** The loop computes the least closed set above what was dropped. */
  lemma {:induction false} DropFixIsLeastClosed(m: Model, scheduled: set<TaskId>, dropped: set<TaskId>)
    ensures Closed(m, scheduled, DropFix(m, scheduled, dropped))
    ensures dropped <= DropFix(m, scheduled, dropped)
    ensures forall upper :: dropped <= upper && Closed(m, scheduled, upper) ==> DropFix(m, scheduled, dropped) <= upper
    decreases |Ids(m) - dropped|
  {
    var next := DropPass(m.tasks, scheduled, dropped);
    if next == dropped {
      StablePassIsClosed(m.tasks, scheduled, dropped);
    } else {
      var x :| x in next && x !in dropped;
      assert x in Ids(m) - dropped && x !in Ids(m) - next;
      SubsetCard(Ids(m) - next, Ids(m) - dropped);
      DropFixIsLeastClosed(m, scheduled, next);
      forall upper | dropped <= upper && Closed(m, scheduled, upper)
        ensures DropFix(m, scheduled, dropped) <= upper {
        PassStaysInside(m, m.tasks, scheduled, dropped, upper);
      }
    }
  }

  // ---- every task is scheduled or dropped ---------------------------------------------------------

  /** A leaf is settled and nothing in it is ready. */
  ghost predicate IsLeaf(m: Model, st: State) {
    Closed(m, st.scheduled, st.dropped) && forall t :: t in m.tasks ==> !IsReady(t, st)
  }

  lemma NothingReadyIsLeaf(m: Model, st: State)
    requires ReadyTasks(m, Settle(m, st)) == []
    ensures IsLeaf(m, Settle(m, st))
  {
    var s := Settle(m, st);
    DropFixIsLeastClosed(m, st.scheduled, st.dropped);
    forall t | t in m.tasks ensures !IsReady(t, s) {
      assert t in ReadyTasks(m, s) <==> IsReady(t, s);
    }
  }

  lemma {:induction false} LeavesAreLeaves(m: Model, index: Index, opts: Options, st: State)
    ensures forall leaf :: leaf in Leaves(m, index, opts, st) ==> IsLeaf(m, leaf)
    decreases |Open(m, st)|, 1, 0
  {
    var s := Settle(m, st);
    SettleShrinks(m, st);
    if ReadyTasks(m, s) == [] {
      NothingReadyIsLeaf(m, st);
    } else {
      var t := ReadyTasks(m, s)[0];
      LeavesOfCandidatesAreLeaves(m, index, opts, s, t, Candidates(m, index, t, s));
      OpenAfterDrop(m, s, t);
      LeavesAreLeaves(m, index, opts, Drop(s, t));
      LeavesOfNode(m, index, opts, st);
    }
  }

  lemma {:induction false} LeavesOfCandidatesAreLeaves(m: Model, index: Index, opts: Options, st: State, t: Task, cs: seq<Candidate>)
    requires Branches(m, st, t)
    ensures forall leaf :: leaf in LeavesOfCandidates(m, index, opts, st, t, cs) ==> IsLeaf(m, leaf)
    decreases |Open(m, st)|, 0, |cs|
  {
    if cs != [] {
      var n := |cs| - 1;
      OpenAfterPlace(m, st, t, cs[n]);
      LeavesOfCandidatesAreLeaves(m, index, opts, st, t, cs[..n]);
      LeavesAreLeaves(m, index, opts, Place(st, t, cs[n]));
    }
  }

  /** `rank` witnesses that dependencies stay inside the model and have no cycle. */
  ghost predicate Ranked(m: Model, rank: TaskId -> nat) {
    forall t, d :: t in m.tasks && d in t.deps ==> d in Ids(m) && rank(d) < rank(t.id)
  }

  ghost predicate ClosedAcyclic(m: Model) {
    exists rank: TaskId -> nat :: Ranked(m, rank)
  }

  lemma {:induction false} LeafCoversTask(m: Model, st: State, rank: TaskId -> nat, t: Task)
    requires UniqueIds(m) && Ranked(m, rank) && Consistent(m, st) && IsLeaf(m, st) && t in m.tasks
    ensures t.id in st.scheduled || t.id in st.dropped
    decreases rank(t.id)
  {
    forall d | d in t.deps ensures d in st.scheduled || d in st.dropped {
      var td := TaskOf(m, d);
      assert rank(d) < rank(t.id);
      LeafCoversTask(m, st, rank, td);
    }
    assert !IsReady(t, st);
    assert !NewlyBlocked(t, st.scheduled, st.dropped);
  }

  lemma LeafDecidesAll(m: Model, leaf: State, rank: TaskId -> nat)
    requires UniqueIds(m) && Ranked(m, rank) && Consistent(m, leaf) && IsLeaf(m, leaf)
    ensures leaf.scheduled + leaf.dropped == Ids(m)
  {
    forall id | id in Ids(m) ensures id in leaf.scheduled + leaf.dropped {
      LeafCoversTask(m, leaf, rank, TaskOf(m, id));
    }
  }

  /** With closed acyclic dependencies every leaf has decided every task, one way only. */
  lemma LeafCoverage(m: Model, index: Index, opts: Options)
    requires UniqueIds(m) && ClosedAcyclic(m)
    ensures forall leaf :: leaf in Leaves(m, index, opts, Root(m)) ==>
              leaf.scheduled + leaf.dropped == Ids(m) && leaf.scheduled !! leaf.dropped
  {
    var rank: TaskId -> nat :| Ranked(m, rank);
    LeavesBooked(m, index, opts);
    LeavesAreLeaves(m, index, opts, Root(m));
    forall leaf | leaf in Leaves(m, index, opts, Root(m))
      ensures leaf.scheduled + leaf.dropped == Ids(m) && leaf.scheduled !! leaf.dropped {
      assert Booked(m, leaf) && IsLeaf(m, leaf);
      LeafDecidesAll(m, leaf, rank);
    }
  }

  // ---- mandatory tasks ---------------------------------------------------------------------------

  function OptionalIds(m: Model): set<TaskId> {
    set t | t in m.tasks && !t.mandatory :: t.id
  }

  ghost predicate MandatoryDependsOnMandatory(m: Model) {
    forall t, d :: t in m.tasks && t.mandatory && d in t.deps ==> d !in OptionalIds(m)
  }

  lemma OptionalIsClosed(m: Model, scheduled: set<TaskId>)
    requires MandatoryDependsOnMandatory(m)
    ensures Closed(m, scheduled, OptionalIds(m))
  {
  }

  lemma SettleDropsOptional(m: Model, st: State)
    requires MandatoryDependsOnMandatory(m) && st.dropped <= OptionalIds(m)
    ensures Settle(m, st).dropped <= OptionalIds(m)
  {
    OptionalIsClosed(m, st.scheduled);
    DropFixIsLeastClosed(m, st.scheduled, st.dropped);
  }

  lemma LeavesDropOptional(m: Model, index: Index, opts: Options)
    requires !opts.allowPartial && MandatoryDependsOnMandatory(m)
    ensures forall leaf :: leaf in Leaves(m, index, opts, Root(m)) ==> leaf.dropped <= OptionalIds(m)
  {
    var keeps := (st: State) => st.dropped <= OptionalIds(m);
    assert KeptBySearch(m, index, opts, keeps) by {
      forall st | keeps(st) ensures keeps(Settle(m, st)) {
        SettleDropsOptional(m, st);
      }
    }
    LeavesKeep(m, index, opts, Root(m), keeps);
  }

  /** With partial plans disallowed, every returned plan schedules every mandatory task. */
  lemma MandatoryTasksAreScheduled(m: Model, index: Index, opts: Options, prune: bool, plan: Plan)
    requires UniqueIds(m) && ClosedAcyclic(m) && MandatoryDependsOnMandatory(m)
    requires Explore(m, index, opts, prune, Root(m), None) == Some(plan)
    ensures CoversRequired(m, opts, plan.assignments)
  {
    if !opts.allowPartial {
      var leaf := ReturnedLeaf(m, index, opts, prune, plan);
      LeafCoverage(m, index, opts);
      LeavesDropOptional(m, index, opts);
      LeavesBooked(m, index, opts);
      forall t | t in m.tasks && t.mandatory ensures InPlan(plan.assignments, t.id) {
        assert t.id in Ids(m);
        OptionalIsNotMandatory(m, t);
        assert ScheduledIsPlanned(leaf);
      }
    }
  }

  lemma OptionalIsNotMandatory(m: Model, t: Task)
    requires UniqueIds(m) && t in m.tasks && t.mandatory
    ensures t.id !in OptionalIds(m)
  {
  }
}
