/** The optimistic bound: pruning returns what the unpruned search returns, exactly as long as no
    task weighs more than the bound assumes. */
module PruningExact {
  import opened Basics
  import opened OptimizerModel
  import opened ConstraintIndex
  import opened ExactSearch

  // ---- the search tree as a list of leaves ----------------------------------------------------

  /** Every leaf below `st`, in the order in which the search without bound reaches them. */
  function Leaves(m: Model, index: Index, opts: Options, st: State): seq<State>
    decreases |Open(m, st)|, 1, 0
  {
    var s := Settle(m, st);
    SettleShrinks(m, st);
    var ready := ReadyTasks(m, s);
    if ready == [] then [s]
    else
      OpenAfterDrop(m, s, ready[0]);
      LeavesOfCandidates(m, index, opts, s, ready[0], Candidates(m, index, ready[0], s)) +
      (if MayDrop(opts, ready[0]) then Leaves(m, index, opts, Drop(s, ready[0])) else [])
  }

  function LeavesOfCandidates(m: Model, index: Index, opts: Options, st: State, t: Task, cs: seq<Candidate>): seq<State>
    requires Branches(m, st, t)
    decreases |Open(m, st)|, 0, |cs|
  {
    if cs == [] then []
    else
      var n := |cs| - 1;
      OpenAfterPlace(m, st, t, cs[n]);
      LeavesOfCandidates(m, index, opts, st, t, cs[..n]) + Leaves(m, index, opts, Place(st, t, cs[n]))
  }

  /** Offering the leaves one after the other to an incumbent. */
  function Fold(m: Model, opts: Options, leaves: seq<State>, best: Option<Plan>): Option<Plan> {
    if leaves == [] then best
    else Record(m, opts, leaves[|leaves| - 1], Fold(m, opts, leaves[..|leaves| - 1], best))
  }

  lemma {:induction false} FoldConcat(m: Model, opts: Options, a: seq<State>, b: seq<State>, best: Option<Plan>)
    ensures Fold(m, opts, a + b, best) == Fold(m, opts, b, Fold(m, opts, a, best))
    decreases |b|
  {
    if b == [] {
      assert a + b == a;
    } else {
      var n := |b| - 1;
      assert (a + b)[..|a + b| - 1] == a + b[..n];
      FoldConcat(m, opts, a, b[..n], best);
    }
  }

  /** The leaves that come from placing the task a node branches on. */
  function PlacedLeaves(m: Model, index: Index, opts: Options, s: State): seq<State>
    requires ReadyTasks(m, s) != []
  {
    var t := ReadyTasks(m, s)[0];
    LeavesOfCandidates(m, index, opts, s, t, Candidates(m, index, t, s))
  }

  lemma LastCandidate(m: Model, index: Index, opts: Options, prune: bool, st: State, t: Task, cs: seq<Candidate>, best: Option<Plan>)
    requires Branches(m, st, t) && cs != []
    ensures var n := |cs| - 1;
            && LeavesOfCandidates(m, index, opts, st, t, cs)
               == LeavesOfCandidates(m, index, opts, st, t, cs[..n]) + Leaves(m, index, opts, Place(st, t, cs[n]))
            && ExploreAll(m, index, opts, prune, st, t, cs, best)
               == Explore(m, index, opts, prune, Place(st, t, cs[n]),
                          ExploreAll(m, index, opts, prune, st, t, cs[..n], best))
  {
  }

  lemma LeavesOfNode(m: Model, index: Index, opts: Options, st: State)
    requires ReadyTasks(m, Settle(m, st)) != []
    ensures Leaves(m, index, opts, st)
         == PlacedLeaves(m, index, opts, Settle(m, st)) +
            (if MayDrop(opts, ReadyTasks(m, Settle(m, st))[0])
             then Leaves(m, index, opts, Drop(Settle(m, st), ReadyTasks(m, Settle(m, st))[0]))
             else [])
  {
  }

  /** Folding the leaves of a node is folding those of its branches in turn. */
  lemma FoldOfNode(m: Model, index: Index, opts: Options, st: State, best: Option<Plan>)
    requires ReadyTasks(m, Settle(m, st)) != []
    ensures Fold(m, opts, Leaves(m, index, opts, st), best)
         == if MayDrop(opts, ReadyTasks(m, Settle(m, st))[0])
            then Fold(m, opts, Leaves(m, index, opts, Drop(Settle(m, st), ReadyTasks(m, Settle(m, st))[0])),
                      Fold(m, opts, PlacedLeaves(m, index, opts, Settle(m, st)), best))
            else Fold(m, opts, PlacedLeaves(m, index, opts, Settle(m, st)), best)
  {
    LeavesOfNode(m, index, opts, st);
    var left := PlacedLeaves(m, index, opts, Settle(m, st));
    assert left + [] == left;
    FoldConcat(m, opts, left, Leaves(m, index, opts, Drop(Settle(m, st), ReadyTasks(m, Settle(m, st))[0])), best);
  }

  lemma FoldOfLeaf(m: Model, index: Index, opts: Options, st: State, best: Option<Plan>)
    requires ReadyTasks(m, Settle(m, st)) == []
    ensures Fold(m, opts, Leaves(m, index, opts, st), best) == Record(m, opts, Settle(m, st), best)
  {
    assert [Settle(m, st)][..0] == [];
  }

  /** Without the bound the search is the fold over all leaves. */
  lemma {:induction false} FullIsFold(m: Model, index: Index, opts: Options, st: State, best: Option<Plan>)
    ensures Explore(m, index, opts, false, st, best) == Fold(m, opts, Leaves(m, index, opts, st), best)
    decreases |Open(m, st)|, 1, 0
  {
    var s := Settle(m, st);
    if ReadyTasks(m, s) == [] {
      FoldOfLeaf(m, index, opts, st, best);
    } else {
      var t := ReadyTasks(m, s)[0];
      var cs := Candidates(m, index, t, s);
      SettleShrinks(m, st);
      OpenAfterDrop(m, s, t);
      FullCandidatesIsFold(m, index, opts, s, t, cs, best);
      FullIsFold(m, index, opts, Drop(s, t), ExploreAll(m, index, opts, false, s, t, cs, best));
      FoldOfNode(m, index, opts, st, best);
    }
  }

  lemma {:induction false} FullCandidatesIsFold(m: Model, index: Index, opts: Options, st: State, t: Task,
                                                cs: seq<Candidate>, best: Option<Plan>)
    requires Branches(m, st, t)
    ensures ExploreAll(m, index, opts, false, st, t, cs, best)
         == Fold(m, opts, LeavesOfCandidates(m, index, opts, st, t, cs), best)
    decreases |Open(m, st)|, 0, |cs|
  {
    if cs != [] {
      var n := |cs| - 1;
      OpenAfterPlace(m, st, t, cs[n]);
      var left := LeavesOfCandidates(m, index, opts, st, t, cs[..n]);
      FullCandidatesIsFold(m, index, opts, st, t, cs[..n], best);
      FullIsFold(m, index, opts, Place(st, t, cs[n]), Fold(m, opts, left, best));
      FoldConcat(m, opts, left, Leaves(m, index, opts, Place(st, t, cs[n])), best);
    }
  }

  // ---- what a fold keeps ------------------------------------------------------------------------

  lemma BetterIsStrictWeak(a: Score, b: Score, c: Score)
    ensures !Better(a, a)
    ensures Better(a, b) ==> !Better(b, a)
    ensures Better(a, b) && Better(b, c) ==> Better(a, c)
    ensures !Better(a, b) && !Better(b, c) ==> !Better(a, c)
    ensures Better(a, b) && !Better(c, b) ==> Better(a, c)
  {
  }

  /** Leaf `k` is at least as good as every leaf and strictly better than every earlier one. */
  ghost predicate FirstBest(opts: Options, leaves: seq<State>, k: nat) {
    && k < |leaves|
    && (forall i :: 0 <= i < |leaves| ==> !Better(ScoreOf(opts, leaves[i]), ScoreOf(opts, leaves[k])))
    && (forall i :: 0 <= i < k ==> Better(ScoreOf(opts, leaves[k]), ScoreOf(opts, leaves[i])))
  }

  lemma {:induction false} FoldIsFirstBest(m: Model, opts: Options, leaves: seq<State>) returns (k: nat)
    requires leaves != []
    ensures FirstBest(opts, leaves, k)
    ensures Fold(m, opts, leaves, None) == Some(PlanOf(m, opts, leaves[k]))
    decreases |leaves|
  {
    var n := |leaves| - 1;
    if n == 0 {
      k := 0;
    } else {
      k := FoldIsFirstBest(m, opts, leaves[..n]);
      var old_, new_ := ScoreOf(opts, leaves[k]), ScoreOf(opts, leaves[n]);
      if Better(new_, old_) {
        forall i | 0 <= i < n ensures Better(new_, ScoreOf(opts, leaves[i])) {
          assert !Better(ScoreOf(opts, leaves[..n][i]), old_);
          BetterIsStrictWeak(new_, old_, ScoreOf(opts, leaves[i]));
        }
        forall i | 0 <= i < |leaves| ensures !Better(ScoreOf(opts, leaves[i]), new_) {
          BetterIsStrictWeak(new_, ScoreOf(opts, leaves[i]), new_);
        }
        k := n;
      } else {
        forall i | 0 <= i < |leaves| ensures !Better(ScoreOf(opts, leaves[i]), old_) {
          assert i < n ==> leaves[..n][i] == leaves[i];
        }
        forall i | 0 <= i < k ensures Better(old_, ScoreOf(opts, leaves[i])) {
          assert leaves[..n][i] == leaves[i];
        }
      }
    }
  }

  /** Leaves that do not beat the incumbent leave it alone. */
  lemma {:induction false} FoldKeeps(m: Model, opts: Options, leaves: seq<State>, best: Option<Plan>)
    requires best.Some?
    requires forall leaf :: leaf in leaves ==> !Better(ScoreOf(opts, leaf), best.value.score)
    ensures Fold(m, opts, leaves, best) == best
    decreases |leaves|
  {
    if leaves != [] {
      assert forall leaf :: leaf in leaves[..|leaves| - 1] ==> leaf in leaves;
      FoldKeeps(m, opts, leaves[..|leaves| - 1], best);
      assert leaves[|leaves| - 1] in leaves;
    }
  }

  // ---- the bound --------------------------------------------------------------------------------

  /** Scheduled and dropped tasks are different tasks of the model. */
  ghost predicate Consistent(m: Model, st: State) {
    st.scheduled <= Ids(m) && st.dropped <= Ids(m) && st.scheduled !! st.dropped
  }

  lemma {:induction false} DropPassAvoids(tasks: seq<Task>, scheduled: set<TaskId>, dropped: set<TaskId>)
    requires scheduled !! dropped
    ensures scheduled !! DropPass(tasks, scheduled, dropped)
  {
    if tasks != [] {
      DropPassAvoids(tasks[1..], scheduled,
                     if NewlyBlocked(tasks[0], scheduled, dropped) then dropped + {tasks[0].id} else dropped);
    }
  }

  lemma {:induction false} DropFixAvoids(m: Model, scheduled: set<TaskId>, dropped: set<TaskId>)
    requires scheduled !! dropped
    ensures scheduled !! DropFix(m, scheduled, dropped)
    decreases |Ids(m) - dropped|
  {
    var next := DropPass(m.tasks, scheduled, dropped);
    DropPassAvoids(m.tasks, scheduled, dropped);
    if next != dropped {
      var x :| x in next && x !in dropped;
      assert x in Ids(m) - dropped && x !in Ids(m) - next;
      SubsetCard(Ids(m) - next, Ids(m) - dropped);
      DropFixAvoids(m, scheduled, next);
    }
  }

  lemma SettleConsistent(m: Model, st: State)
    requires Consistent(m, st)
    ensures Consistent(m, Settle(m, st))
  {
    DropFixAvoids(m, st.scheduled, st.dropped);
  }

  lemma {:induction false} IdCount(tasks: seq<Task>)
    requires forall i, j :: 0 <= i < j < |tasks| ==> tasks[i].id != tasks[j].id
    ensures |set t | t in tasks :: t.id| == |tasks|
  {
    if tasks != [] {
      var n := |tasks| - 1;
      IdCount(tasks[..n]);
      var before := set t | t in tasks[..n] :: t.id;
      assert tasks == tasks[..n] + [tasks[n]];
      assert (set t | t in tasks :: t.id) == before + {tasks[n].id};
      assert tasks[n].id !in before;
    }
  }

  lemma RemainingIsOpen(m: Model, st: State)
    requires UniqueIds(m) && Consistent(m, st)
    ensures RemainingPossible(m, st) == |Open(m, st)|
  {
    IdCount(m.tasks);
    assert Open(m, st) == (Ids(m) - st.scheduled) - st.dropped;
    assert |Ids(m) - st.scheduled| == |Ids(m)| - |st.scheduled|;
    assert st.dropped <= Ids(m) - st.scheduled;
  }

  predicate Weighs(t: Task, opts: Options, limit: int) {
    t.priority * opts.priorityWeight <= limit
  }

  ghost predicate WeighsAtMost(m: Model, opts: Options, limit: int) {
    forall t :: t in m.tasks ==> Weighs(t, opts, limit)
  }

  lemma ScoreAfterPlace(opts: Options, st: State, t: Task, c: Candidate)
    ensures var a, b := ScoreOf(opts, st), ScoreOf(opts, Place(st, t, c));
            && b.fulfilled == a.fulfilled + 1
            && b.priority == a.priority + t.priority * opts.priorityWeight
            && b.makespan == Max(a.makespan, c.end)
  {
    assert Place(st, t, c).assignments[..|st.assignments|] == st.assignments;
  }

  /** Going down one step cannot raise what is hoped for. */
  lemma BoundShrinks(m: Model, opts: Options, st: State, child: State, fulfilled: int, gain: int)
    requires Consistent(m, st) && Consistent(m, child) && UniqueIds(m)
    requires gain <= fulfilled * PRIORITY_BOUND && fulfilled in {0, 1}
    requires |Open(m, child)| + fulfilled <= |Open(m, st)|
    requires ScoreOf(opts, child).fulfilled == ScoreOf(opts, st).fulfilled + fulfilled
    requires ScoreOf(opts, child).priority == ScoreOf(opts, st).priority + gain
    requires ScoreOf(opts, child).makespan >= ScoreOf(opts, st).makespan
    ensures !Better(Optimistic(m, opts, child), Optimistic(m, opts, st))
  {
    RemainingIsOpen(m, st);
    RemainingIsOpen(m, child);
  }

  lemma PlacedIsSmaller(m: Model, st: State, t: Task, c: Candidate, placed: State)
    requires Consistent(m, st) && Branches(m, st, t) && placed == Place(st, t, c)
    ensures Consistent(m, placed) && Consistent(m, Settle(m, placed))
    ensures |Open(m, Settle(m, placed))| + 1 <= |Open(m, st)|
  {
    OpenAfterPlace(m, st, t, c);
    SettleShrinks(m, placed);
    SettleConsistent(m, placed);
  }

  lemma ScoreIgnoresDrops(m: Model, opts: Options, st: State)
    ensures ScoreOf(opts, Settle(m, st)) == ScoreOf(opts, st)
  {
  }

  lemma BoundAfterPlace(m: Model, opts: Options, st: State, t: Task, c: Candidate)
    requires UniqueIds(m) && Consistent(m, st) && Branches(m, st, t) && Weighs(t, opts, PRIORITY_BOUND)
    ensures Consistent(m, Place(st, t, c))
    ensures !Better(Optimistic(m, opts, Settle(m, Place(st, t, c))), Optimistic(m, opts, st))
  {
    var placed := Place(st, t, c);
    PlacedIsSmaller(m, st, t, c, placed);
    ScoreIgnoresDrops(m, opts, placed);
    ScoreAfterPlace(opts, st, t, c);
    BoundShrinks(m, opts, st, Settle(m, placed), 1, t.priority * opts.priorityWeight);
  }

  lemma BoundAfterDrop(m: Model, opts: Options, st: State, t: Task)
    requires UniqueIds(m) && Consistent(m, st) && Branches(m, st, t)
    ensures Consistent(m, Drop(st, t))
    ensures !Better(Optimistic(m, opts, Settle(m, Drop(st, t))), Optimistic(m, opts, st))
  {
    var less := Drop(st, t);
    OpenAfterDrop(m, st, t);
    SettleShrinks(m, less);
    SettleConsistent(m, less);
    BoundShrinks(m, opts, st, Settle(m, less), 0, 0);
  }

  ghost predicate Below(opts: Options, leaves: seq<State>, bound: Score) {
    forall leaf :: leaf in leaves ==> !Better(ScoreOf(opts, leaf), bound)
  }

  lemma BelowWeaken(opts: Options, leaves: seq<State>, lower: Score, bound: Score)
    requires Below(opts, leaves, lower) && !Better(lower, bound)
    ensures Below(opts, leaves, bound)
  {
    forall leaf | leaf in leaves ensures !Better(ScoreOf(opts, leaf), bound) {
      BetterIsStrictWeak(ScoreOf(opts, leaf), lower, bound);
    }
  }

  /** No leaf below a node beats what the node hopes for. */
  lemma {:induction false} BoundHolds(m: Model, index: Index, opts: Options, st: State)
    requires UniqueIds(m) && Consistent(m, st) && WeighsAtMost(m, opts, PRIORITY_BOUND)
    ensures Below(opts, Leaves(m, index, opts, st), Optimistic(m, opts, Settle(m, st)))
    decreases |Open(m, st)|, 1, 0
  {
    var s := Settle(m, st);
    SettleShrinks(m, st);
    SettleConsistent(m, st);
    var ready := ReadyTasks(m, s);
    if ready == [] {
      RemainingIsOpen(m, s);
    } else {
      var t := ready[0];
      BoundHoldsCandidates(m, index, opts, s, t, Candidates(m, index, t, s));
      if MayDrop(opts, t) {
        OpenAfterDrop(m, s, t);
        BoundAfterDrop(m, opts, s, t);
        BoundHolds(m, index, opts, Drop(s, t));
        BelowWeaken(opts, Leaves(m, index, opts, Drop(s, t)),
                    Optimistic(m, opts, Settle(m, Drop(s, t))), Optimistic(m, opts, s));
      }
    }
  }

  lemma {:induction false} BoundHoldsCandidates(m: Model, index: Index, opts: Options, st: State, t: Task, cs: seq<Candidate>)
    requires UniqueIds(m) && Consistent(m, st) && Branches(m, st, t) && WeighsAtMost(m, opts, PRIORITY_BOUND)
    ensures Below(opts, LeavesOfCandidates(m, index, opts, st, t, cs), Optimistic(m, opts, st))
    decreases |Open(m, st)|, 0, |cs|
  {
    if cs != [] {
      var n := |cs| - 1;
      BoundHoldsCandidates(m, index, opts, st, t, cs[..n]);
      OpenAfterPlace(m, st, t, cs[n]);
      BoundAfterPlace(m, opts, st, t, cs[n]);
      BoundHolds(m, index, opts, Place(st, t, cs[n]));
      BelowWeaken(opts, Leaves(m, index, opts, Place(st, t, cs[n])),
                  Optimistic(m, opts, Settle(m, Place(st, t, cs[n]))), Optimistic(m, opts, st));
    }
  }

  /** Where the search gives up, the leaves below would not have changed the incumbent. */
  lemma HopelessIsFold(m: Model, index: Index, opts: Options, st: State, best: Option<Plan>)
    requires UniqueIds(m) && Consistent(m, st) && WeighsAtMost(m, opts, PRIORITY_BOUND)
    requires Hopeless(m, opts, Settle(m, st), best)
    ensures Fold(m, opts, Leaves(m, index, opts, st), best) == best
  {
    BoundHolds(m, index, opts, st);
    BelowWeaken(opts, Leaves(m, index, opts, st), Optimistic(m, opts, Settle(m, st)), best.value.score);
    FoldKeeps(m, opts, Leaves(m, index, opts, st), best);
  }

  /** With the bound valid, the pruned search is the fold over all leaves too. */
  lemma {:induction false} PrunedIsFold(m: Model, index: Index, opts: Options, st: State, best: Option<Plan>)
    requires UniqueIds(m) && Consistent(m, st) && WeighsAtMost(m, opts, PRIORITY_BOUND)
    ensures Explore(m, index, opts, true, st, best) == Fold(m, opts, Leaves(m, index, opts, st), best)
    decreases |Open(m, st)|, 1, 0
  {
    var s := Settle(m, st);
    if Hopeless(m, opts, s, best) {
      HopelessIsFold(m, index, opts, st, best);
    } else if ReadyTasks(m, s) == [] {
      FoldOfLeaf(m, index, opts, st, best);
    } else {
      var t := ReadyTasks(m, s)[0];
      var cs := Candidates(m, index, t, s);
      SettleShrinks(m, st);
      SettleConsistent(m, st);
      OpenAfterDrop(m, s, t);
      ExploreNode(m, index, opts, st, s, t, best);
      PrunedCandidatesIsFold(m, index, opts, s, t, cs, best);
      PrunedIsFold(m, index, opts, Drop(s, t), ExploreAll(m, index, opts, true, s, t, cs, best));
      FoldOfNode(m, index, opts, st, best);
    }
  }

  lemma {:induction false} PrunedCandidatesIsFold(m: Model, index: Index, opts: Options, st: State, t: Task,
                                                  cs: seq<Candidate>, best: Option<Plan>)
    requires UniqueIds(m) && Consistent(m, st) && Branches(m, st, t) && WeighsAtMost(m, opts, PRIORITY_BOUND)
    ensures ExploreAll(m, index, opts, true, st, t, cs, best)
         == Fold(m, opts, LeavesOfCandidates(m, index, opts, st, t, cs), best)
    decreases |Open(m, st)|, 0, |cs|
  {
    if cs != [] {
      var n := |cs| - 1;
      var left, placed := LeavesOfCandidates(m, index, opts, st, t, cs[..n]), Place(st, t, cs[n]);
      OpenAfterPlace(m, st, t, cs[n]);
      LastCandidate(m, index, opts, true, st, t, cs, best);
      PrunedCandidatesIsFold(m, index, opts, st, t, cs[..n], best);
      PrunedIsFold(m, index, opts, placed, Fold(m, opts, left, best));
      FoldConcat(m, opts, left, Leaves(m, index, opts, placed), best);
    }
  }

  /** Pruning changes nothing, and the answer is the first of the best leaves of the whole tree. */
  lemma PruningIsExact(m: Model, index: Index, opts: Options)
    requires UniqueIds(m) && WeighsAtMost(m, opts, PRIORITY_BOUND)
    ensures Explore(m, index, opts, true, Root(m), None) == Explore(m, index, opts, false, Root(m), None)
    ensures var leaves := Leaves(m, index, opts, Root(m));
            var r := Explore(m, index, opts, true, Root(m), None);
            if leaves == [] then r == None
            else exists k: nat :: FirstBest(opts, leaves, k) && r == Some(PlanOf(m, opts, leaves[k]))
  {
    PrunedIsFold(m, index, opts, Root(m), None);
    FullIsFold(m, index, opts, Root(m), None);
    var leaves := Leaves(m, index, opts, Root(m));
    if leaves != [] {
      var k := FoldIsFirstBest(m, opts, leaves);
    }
  }
}
