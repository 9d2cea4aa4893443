/** Every plan the exact search returns is feasible and accounts for every task. */
module SearchFeasible {
  import opened Basics
  import opened Reservations
  import opened OptimizerModel
  import opened ConstraintIndex
  import opened ExactSearch
  import opened PruningExact

  function PlanIn(st: State): seq<Assignment> {
    AssignmentsOf(st.assignments)
  }

  /** The reservations of an actor are those of the plan. */
  ghost predicate Reserved(m: Model, st: State, actor: ActorId) {
    forall t :: DemandAt(ReservedOn(st, actor), t) == Load(m, PlanIn(st), actor, t)
  }

  ghost predicate ScheduledIsPlanned(st: State) {
    forall id :: id in st.scheduled <==> InPlan(PlanIn(st), id)
  }

  ghost predicate CompletionIsEnd(st: State) {
    forall k :: 0 <= k < |PlanIn(st)| ==>
      PlanIn(st)[k].task in st.completion && st.completion[PlanIn(st)[k].task] == PlanIn(st)[k].end
  }

  /** The bookkeeping of a state describes its assignments. */
  ghost predicate Recorded(m: Model, st: State) {
    ScheduledIsPlanned(st) && CompletionIsEnd(st) && forall actor :: Reserved(m, st, actor)
  }

  /** Every dependency, known to the model or not, finishes first. */
  ghost predicate StrictlyOrdered(m: Model, plan: seq<Assignment>)
    requires AllPlaced(m, plan)
  {
    forall k, d :: 0 <= k < |plan| && d in TaskOf(m, plan[k].task).deps ==> FinishedBefore(plan, d, plan[k].start)
  }

  /** No task excludes one that was placed before it. */
  ghost predicate ExclusiveBackwards(m: Model, plan: seq<Assignment>)
    requires AllPlaced(m, plan)
  {
    forall j, k :: 0 <= j < k < |plan| ==> plan[j].task !in TaskOf(m, plan[k].task).mutex
  }

  /** The part of soundness that holds for every model: whatever the durations, and whatever actors the
      index offers. */
  ghost predicate Booked(m: Model, st: State) {
    && Consistent(m, st)
    && ScheduledIsPlanned(st)
    && StartsFromZero(PlanIn(st))
    && DistinctTasks(PlanIn(st))
  }

  ghost predicate Sound(m: Model, st: State) {
    && Booked(m, st)
    && Recorded(m, st)
    && AllPlaced(m, PlanIn(st))
    && WithinCapacity(m, PlanIn(st))
    && StrictlyOrdered(m, PlanIn(st))
    && ExclusiveBackwards(m, PlanIn(st))
  }

  lemma SoundIsFeasible(m: Model, st: State)
    requires UniqueIds(m) && SymmetricMutex(m) && Sound(m, st)
    ensures Feasible(m, PlanIn(st))
  {
    var plan := PlanIn(st);
    forall j, k | 0 <= j < |plan| && 0 <= k < |plan| && j != k
      ensures plan[j].task !in TaskOf(m, plan[k].task).mutex {
      var tj, tk := TaskOf(m, plan[j].task), TaskOf(m, plan[k].task);
      assert tj.id == plan[j].task && tk.id == plan[k].task;
      if k < j {
        assert plan[k].task !in TaskOf(m, plan[j].task).mutex;
      }
    }
  }

  /** What a candidate guarantees. */
  lemma CandidateSound(t: Task, a: Actor, st: State, c: Candidate)
    requires t.duration > 0 && Eligible(t, a) && CandidateFor(t, a, st) == Some(c)
    ensures c.actor == a.id && c.end == c.start + t.duration
    ensures Placement(t, a, c.start)
    ensures Room(a.capacity, ReservedOn(st, a.id), c.start, t.duration, t.demand)
    ensures DependencyReady(t.deps, st.completion) <= c.start
  {
    var release := Max(t.release, DependencyReady(t.deps, st.completion));
    FirstFitSoundComplete(a.windows, a.capacity, ReservedOn(st, a.id), release, t.duration, t.demand);
  }

  /** No candidate starts before time zero. */
  lemma CandidateFromZero(m: Model, index: Index, t: Task, st: State, c: Candidate)
    requires c in Candidates(m, index, t, st)
    ensures c.start >= 0 && !MutexBlocked(t, st)
  {
    var all := CollectCandidates(m, t, EligibleList(index, t), st);
    PermutationMembers(Candidates(m, index, t, st), all);
    assert c in all;
    var j :| j in EligibleList(index, t) && j < |m.actors| && CandidateFor(t, m.actors[j], st) == Some(c);
    var a := m.actors[j];
    FirstFitSoundComplete(a.windows, a.capacity, ReservedOn(st, a.id),
                          Max(t.release, DependencyReady(t.deps, st.completion)), t.duration, t.demand);
  }

  /** The index offers a task only actors the plain filter lets through. */
  ghost predicate OffersEligible(m: Model, index: Index, t: Task) {
    forall j :: j in EligibleList(index, t) && j < |m.actors| ==> Eligible(t, m.actors[j])
  }

  ghost predicate OnlyEligible(m: Model, index: Index) {
    forall t :: t in m.tasks ==> OffersEligible(m, index, t)
  }

  lemma AgreesOffersEligible(m: Model, index: Index)
    requires Agrees(m, index)
    ensures OnlyEligible(m, index)
  {
    forall t | t in m.tasks ensures OffersEligible(m, index, t) {
      assert Matches(m, t, index.eligible[t.id]);
    }
  }

  /** A candidate comes from an actor the plain filter lets through. */
  lemma CandidateActor(m: Model, index: Index, t: Task, st: State, c: Candidate) returns (a: Actor)
    requires OffersEligible(m, index, t) && c in Candidates(m, index, t, st)
    ensures a in m.actors && Eligible(t, a) && CandidateFor(t, a, st) == Some(c) && !MutexBlocked(t, st)
  {
    var all := CollectCandidates(m, t, EligibleList(index, t), st);
    PermutationMembers(Candidates(m, index, t, st), all);
    assert c in all;
    var j :| j in EligibleList(index, t) && j < |m.actors| && CandidateFor(t, m.actors[j], st) == Some(c);
    a := m.actors[j];
  }

  lemma PlanAfterPlace(st: State, t: Task, c: Candidate)
    ensures PlanIn(Place(st, t, c)) == PlanIn(st) + [Assignment(t.id, c.actor, c.start, c.end)]
  {
  }

  /** One more entry for a task that is not in the plan. */
  lemma AppendBooked(st: State, x: Assignment)
    requires ScheduledIsPlanned(st) && x.task !in st.scheduled && x.start >= 0
    requires StartsFromZero(PlanIn(st)) && DistinctTasks(PlanIn(st))
    ensures StartsFromZero(PlanIn(st) + [x]) && DistinctTasks(PlanIn(st) + [x])
    ensures forall id :: InPlan(PlanIn(st) + [x], id) <==> id in st.scheduled + {x.task}
  {
    var plan := PlanIn(st);
    forall k | 0 <= k < |plan| ensures plan[k].task in st.scheduled {
      assert InPlan(plan, plan[k].task);
    }
    forall id ensures InPlan(plan + [x], id) <==> id in st.scheduled + {x.task} {
      InPlanAppend(plan, x, id);
    }
  }

  lemma PlaceBooked(m: Model, index: Index, st: State, t: Task, c: Candidate)
    requires Booked(m, st) && Branches(m, st, t) && c in Candidates(m, index, t, st)
    ensures Booked(m, Place(st, t, c))
  {
    PlanAfterPlace(st, t, c);
    CandidateFromZero(m, index, t, st, c);
    AppendBooked(st, Assignment(t.id, c.actor, c.start, c.end));
  }

  lemma PlaceReserved(m: Model, st: State, t: Task, c: Candidate, actor: ActorId)
    requires UniqueIds(m) && t in m.tasks && Reserved(m, st, actor)
    ensures Reserved(m, Place(st, t, c), actor)
  {
    var x := Assignment(t.id, c.actor, c.start, c.end);
    var next := Place(st, t, c);
    PlanAfterPlace(st, t, c);
    TaskOfId(m, t);
    forall at ensures DemandAt(ReservedOn(next, actor), at) == Load(m, PlanIn(next), actor, at) {
      LoadAppend(m, PlanIn(st), x, actor, at);
      if actor == c.actor {
        DemandAtAppend(ReservedOn(st, actor), Interval(c.start, c.end, t.demand), at);
      } else {
        assert ReservedOn(next, actor) == ReservedOn(st, actor);
      }
    }
  }

  lemma PlaceRecorded(m: Model, st: State, t: Task, c: Candidate)
    requires UniqueIds(m) && Recorded(m, st) && t in m.tasks && t.id !in st.scheduled
    ensures Recorded(m, Place(st, t, c))
  {
    var next := Place(st, t, c);
    var x := Assignment(t.id, c.actor, c.start, c.end);
    var plan := PlanIn(st);
    PlanAfterPlace(st, t, c);
    forall id ensures id in next.scheduled <==> InPlan(PlanIn(next), id) {
      InPlanAppend(plan, x, id);
    }
    forall k | 0 <= k < |plan| ensures plan[k].task != t.id {
      assert InPlan(plan, plan[k].task);
    }
    forall actor ensures Reserved(m, next, actor) {
      PlaceReserved(m, st, t, c, actor);
    }
  }

  /** Appending a run for which there is room keeps every actor within capacity. */
  lemma AppendWithinCapacity(m: Model, plan: seq<Assignment>, x: Assignment, t: Task, a: Actor, rs: seq<Interval>)
    requires UniqueIds(m) && t in m.tasks && a in m.actors
    requires x.task == t.id && x.actor == a.id && x.end == x.start + t.duration
    requires AllPlaced(m, plan) && WithinCapacity(m, plan) && AllPlaced(m, plan + [x])
    requires forall at :: DemandAt(rs, at) == Load(m, plan, a.id, at)
    requires Room(a.capacity, rs, x.start, t.duration, t.demand)
    ensures WithinCapacity(m, plan + [x])
  {
    TaskOfId(m, t);
    ActorOfId(m, a);
    var more := plan + [x];
    forall k, at | 0 <= k < |more| && more[k].start <= at < more[k].end
      ensures Load(m, more, more[k].actor, at) <= ActorOf(m, more[k].actor).capacity {
      LoadAppend(m, plan, x, more[k].actor, at);
      if x.actor == more[k].actor && x.start <= at < x.end {
        assert DemandAt(rs, at) + t.demand <= a.capacity;
      } else {
        assert k < |plan| && more[k] == plan[k];
        assert Load(m, plan, plan[k].actor, at) <= ActorOf(m, plan[k].actor).capacity;
      }
    }
  }

  lemma FinishedStays(plan: seq<Assignment>, x: Assignment, d: TaskId, start: int)
    requires FinishedBefore(plan, d, start)
    ensures FinishedBefore(plan + [x], d, start)
  {
    var j :| 0 <= j < |plan| && plan[j].task == d && plan[j].end <= start;
    assert (plan + [x])[j] == plan[j];
  }

  /** A satisfied dependency has finished by the time the task becomes ready. */
  lemma DependencyFinished(st: State, t: Task, d: TaskId, start: int)
    requires ScheduledIsPlanned(st) && CompletionIsEnd(st) && d in t.deps
    requires DependenciesSatisfied(t, st.scheduled, st.dropped) && DependencyReady(t.deps, st.completion) <= start
    ensures FinishedBefore(PlanIn(st), d, start)
  {
    var plan := PlanIn(st);
    assert InPlan(plan, d);
    var j :| 0 <= j < |plan| && plan[j].task == d;
    assert st.completion[d] == plan[j].end;
  }

  lemma AppendOrdered(m: Model, st: State, x: Assignment, t: Task)
    requires UniqueIds(m) && t in m.tasks && x.task == t.id && ScheduledIsPlanned(st) && CompletionIsEnd(st)
    requires AllPlaced(m, PlanIn(st)) && AllPlaced(m, PlanIn(st) + [x]) && StrictlyOrdered(m, PlanIn(st))
    requires DependenciesSatisfied(t, st.scheduled, st.dropped)
    requires DependencyReady(t.deps, st.completion) <= x.start
    ensures StrictlyOrdered(m, PlanIn(st) + [x])
  {
    TaskOfId(m, t);
    var plan := PlanIn(st);
    var more := plan + [x];
    forall k, d | 0 <= k < |more| && d in TaskOf(m, more[k].task).deps ensures FinishedBefore(more, d, more[k].start) {
      if k < |plan| {
        FinishedStays(plan, x, d, plan[k].start);
      } else {
        DependencyFinished(st, t, d, x.start);
        FinishedStays(plan, x, d, x.start);
      }
    }
  }

  lemma AppendPlaced(m: Model, plan: seq<Assignment>, x: Assignment, t: Task, a: Actor)
    requires UniqueIds(m) && t in m.tasks && a in m.actors && AllPlaced(m, plan)
    requires x.task == t.id && x.actor == a.id && x.end == x.start + t.duration && Placement(t, a, x.start)
    ensures AllPlaced(m, plan + [x])
  {
    TaskOfId(m, t);
    ActorOfId(m, a);
    assert Placed(m, x);
  }

  lemma AppendExclusive(m: Model, st: State, x: Assignment, t: Task)
    requires UniqueIds(m) && t in m.tasks && x.task == t.id && ScheduledIsPlanned(st)
    requires !MutexBlocked(t, st)
    requires AllPlaced(m, PlanIn(st)) && AllPlaced(m, PlanIn(st) + [x])
    requires ExclusiveBackwards(m, PlanIn(st))
    ensures ExclusiveBackwards(m, PlanIn(st) + [x])
  {
    var plan := PlanIn(st);
    TaskOfId(m, t);
    forall k | 0 <= k < |plan| ensures plan[k].task in st.scheduled {
      assert InPlan(plan, plan[k].task);
    }
  }

  /** The schedule half of soundness, for a state whose plan has one more entry. */
  lemma PlanSound(m: Model, index: Index, st: State, t: Task, c: Candidate, x: Assignment)
    requires UniqueIds(m) && t.duration > 0 && OffersEligible(m, index, t)
    requires Sound(m, st) && t in m.tasks && IsReady(t, st) && c in Candidates(m, index, t, st)
    requires x == Assignment(t.id, c.actor, c.start, c.end)
    ensures var more := PlanIn(st) + [x];
            && AllPlaced(m, more) && WithinCapacity(m, more)
            && StrictlyOrdered(m, more) && ExclusiveBackwards(m, more)
  {
    var a := CandidateActor(m, index, t, st, c);
    CandidateSound(t, a, st, c);
    AppendPlaced(m, PlanIn(st), x, t, a);
    AppendExclusive(m, st, x, t);
    assert Reserved(m, st, a.id);
    AppendWithinCapacity(m, PlanIn(st), x, t, a, ReservedOn(st, a.id));
    AppendOrdered(m, st, x, t);
  }

  lemma PlaceSound(m: Model, index: Index, st: State, t: Task, c: Candidate)
    requires UniqueIds(m) && t.duration > 0 && OffersEligible(m, index, t)
    requires Sound(m, st) && t in m.tasks && IsReady(t, st) && c in Candidates(m, index, t, st)
    ensures Sound(m, Place(st, t, c))
  {
    PlanAfterPlace(st, t, c);
    PlanSound(m, index, st, t, c, Assignment(t.id, c.actor, c.start, c.end));
    PlaceBooked(m, index, st, t, c);
    PlaceRecorded(m, st, t, c);
  }

  lemma SettleBooked(m: Model, st: State)
    requires Booked(m, st)
    ensures Booked(m, Settle(m, st))
  {
    SettleConsistent(m, st);
  }

  lemma SettleSound(m: Model, st: State)
    requires Sound(m, st)
    ensures Sound(m, Settle(m, st))
  {
    SettleBooked(m, st);
    var s := Settle(m, st);
    forall actor ensures Reserved(m, s, actor) {
      assert Reserved(m, st, actor) && ReservedOn(s, actor) == ReservedOn(st, actor);
    }
  }

  lemma DropSound(m: Model, st: State, t: Task)
    requires Sound(m, st) && Branches(m, st, t)
    ensures Sound(m, Drop(st, t))
  {
    var s := Drop(st, t);
    forall actor ensures Reserved(m, s, actor) {
      assert Reserved(m, st, actor) && ReservedOn(s, actor) == ReservedOn(st, actor);
    }
  }

  lemma RootSound(m: Model)
    ensures Sound(m, Root(m))
  {
    assert PlanIn(Root(m)) == [];
    assert forall actor :: ReservedOn(Root(m), actor) == [];
  }

  // ---- along the tree ------------------------------------------------------------------------------

  /** What the three moves of the search keep. */
  ghost predicate KeptBySearch(m: Model, index: Index, opts: Options, keeps: State -> bool) {
    && (forall st :: keeps(st) ==> keeps(Settle(m, st)))
    && (forall st, t, c :: keeps(st) && Branches(m, st, t) && IsReady(t, st) && c in Candidates(m, index, t, st)
          ==> keeps(Place(st, t, c)))
    && (forall st, t :: keeps(st) && Branches(m, st, t) && MayDrop(opts, t) ==> keeps(Drop(st, t)))
  }

  /** It holds at every leaf below a state at which it holds. */
  lemma {:induction false} LeavesKeep(m: Model, index: Index, opts: Options, st: State, keeps: State -> bool)
    requires KeptBySearch(m, index, opts, keeps) && keeps(st)
    ensures forall leaf :: leaf in Leaves(m, index, opts, st) ==> keeps(leaf)
    decreases |Open(m, st)|, 1, 0
  {
    var s := Settle(m, st);
    SettleShrinks(m, st);
    if ReadyTasks(m, s) != [] {
      var t := ReadyTasks(m, s)[0];
      assert t in ReadyTasks(m, s);
      LeavesOfCandidatesKeep(m, index, opts, s, t, Candidates(m, index, t, s), keeps);
      LeavesOfNode(m, index, opts, st);
      if MayDrop(opts, t) {
        OpenAfterDrop(m, s, t);
        LeavesKeep(m, index, opts, Drop(s, t), keeps);
      }
    }
  }

  lemma {:induction false} LeavesOfCandidatesKeep(m: Model, index: Index, opts: Options, st: State, t: Task,
                                                  cs: seq<Candidate>, keeps: State -> bool)
    requires KeptBySearch(m, index, opts, keeps) && keeps(st) && Branches(m, st, t) && IsReady(t, st)
    requires forall c :: c in cs ==> c in Candidates(m, index, t, st)
    ensures forall leaf :: leaf in LeavesOfCandidates(m, index, opts, st, t, cs) ==> keeps(leaf)
    decreases |Open(m, st)|, 0, |cs|
  {
    if cs != [] {
      var n := |cs| - 1;
      assert forall c :: c in cs[..n] ==> c in cs;
      LeavesOfCandidatesKeep(m, index, opts, st, t, cs[..n], keeps);
      assert cs[n] in cs;
      OpenAfterPlace(m, st, t, cs[n]);
      LeavesKeep(m, index, opts, Place(st, t, cs[n]), keeps);
    }
  }

  /** The bookkeeping holds at every leaf, for every model and index. */
  lemma LeavesBooked(m: Model, index: Index, opts: Options)
    ensures forall leaf :: leaf in Leaves(m, index, opts, Root(m)) ==> Booked(m, leaf)
  {
    var keeps := st => Booked(m, st);
    assert KeptBySearch(m, index, opts, keeps) by {
      forall st | keeps(st) ensures keeps(Settle(m, st)) {
        SettleBooked(m, st);
      }
      forall st, t, c | keeps(st) && Branches(m, st, t) && c in Candidates(m, index, t, st)
        ensures keeps(Place(st, t, c)) {
        PlaceBooked(m, index, st, t, c);
      }
    }
    LeavesKeep(m, index, opts, Root(m), keeps);
  }

  /** Soundness holds at every leaf below a sound state. */
  lemma LeavesSound(m: Model, index: Index, opts: Options, st: State)
    requires UniqueIds(m) && PositiveDurations(m) && OnlyEligible(m, index) && Sound(m, st)
    ensures forall leaf :: leaf in Leaves(m, index, opts, st) ==> Sound(m, leaf)
  {
    var keeps := st => Sound(m, st);
    assert KeptBySearch(m, index, opts, keeps) by {
      forall st | keeps(st) ensures keeps(Settle(m, st)) {
        SettleSound(m, st);
      }
      forall st, t, c | keeps(st) && Branches(m, st, t) && IsReady(t, st) && c in Candidates(m, index, t, st)
        ensures keeps(Place(st, t, c)) {
        PlaceSound(m, index, st, t, c);
      }
      forall st, t | keeps(st) && Branches(m, st, t) && MayDrop(opts, t) ensures keeps(Drop(st, t)) {
        DropSound(m, st, t);
      }
    }
    LeavesKeep(m, index, opts, st, keeps);
  }

  // ---- what the search returns -------------------------------------------------------------------

  /** The result is the old incumbent or the plan of some leaf. */
  ghost predicate FromLeaf(m: Model, opts: Options, leaves: seq<State>, best: Option<Plan>, r: Option<Plan>) {
    r == best || exists leaf :: leaf in leaves && r == Some(PlanOf(m, opts, leaf))
  }

  lemma FromLeafChain(m: Model, opts: Options, a: seq<State>, b: seq<State>, best: Option<Plan>, mid: Option<Plan>, r: Option<Plan>)
    requires FromLeaf(m, opts, a, best, mid) && FromLeaf(m, opts, b, mid, r)
    ensures FromLeaf(m, opts, a + b, best, r)
  {
    if r == mid {
      if mid != best {
        var leaf :| leaf in a && mid == Some(PlanOf(m, opts, leaf));
        assert leaf in a + b;
      }
    } else {
      var leaf :| leaf in b && r == Some(PlanOf(m, opts, leaf));
      assert leaf in a + b;
    }
  }

  /** With or without the bound, the search returns a leaf, and it returns something exactly when
      there is a leaf to return. */
  lemma {:induction false} ReturnsLeaf(m: Model, index: Index, opts: Options, prune: bool, st: State, best: Option<Plan>)
    ensures var r := Explore(m, index, opts, prune, st, best);
            && FromLeaf(m, opts, Leaves(m, index, opts, st), best, r)
            && (r.Some? <==> best.Some? || Leaves(m, index, opts, st) != [])
    decreases |Open(m, st)|, 1, 0
  {
    var s := Settle(m, st);
    if prune && Hopeless(m, opts, s, best) {
    } else if ReadyTasks(m, s) == [] {
      assert s in Leaves(m, index, opts, st);
    } else {
      var t := ReadyTasks(m, s)[0];
      var cs := Candidates(m, index, t, s);
      SettleShrinks(m, st);
      OpenAfterDrop(m, s, t);
      ReturnsLeafOfCandidates(m, index, opts, prune, s, t, cs, best);
      LeavesOfNode(m, index, opts, st);
      var left := PlacedLeaves(m, index, opts, s);
      var after := ExploreAll(m, index, opts, prune, s, t, cs, best);
      if MayDrop(opts, t) {
        ReturnsLeaf(m, index, opts, prune, Drop(s, t), after);
        FromLeafChain(m, opts, left, Leaves(m, index, opts, Drop(s, t)), best, after,
                      Explore(m, index, opts, prune, Drop(s, t), after));
      } else {
        assert left + [] == left;
      }
    }
  }

  lemma {:induction false} ReturnsLeafOfCandidates(m: Model, index: Index, opts: Options, prune: bool, st: State, t: Task,
                                                   cs: seq<Candidate>, best: Option<Plan>)
    requires Branches(m, st, t)
    ensures var r := ExploreAll(m, index, opts, prune, st, t, cs, best);
            var leaves := LeavesOfCandidates(m, index, opts, st, t, cs);
            FromLeaf(m, opts, leaves, best, r) && (r.Some? <==> best.Some? || leaves != [])
    decreases |Open(m, st)|, 0, |cs|
  {
    if cs != [] {
      var n := |cs| - 1;
      OpenAfterPlace(m, st, t, cs[n]);
      var mid := ExploreAll(m, index, opts, prune, st, t, cs[..n], best);
      ReturnsLeafOfCandidates(m, index, opts, prune, st, t, cs[..n], best);
      ReturnsLeaf(m, index, opts, prune, Place(st, t, cs[n]), mid);
      FromLeafChain(m, opts, LeavesOfCandidates(m, index, opts, st, t, cs[..n]),
                    Leaves(m, index, opts, Place(st, t, cs[n])), best, mid,
                    Explore(m, index, opts, prune, Place(st, t, cs[n]), mid));
    }
  }

  /** The leaf a returned plan was taken from. */
  lemma ReturnedLeaf(m: Model, index: Index, opts: Options, prune: bool, plan: Plan) returns (leaf: State)
    requires Explore(m, index, opts, prune, Root(m), None) == Some(plan)
    ensures leaf in Leaves(m, index, opts, Root(m)) && plan == PlanOf(m, opts, leaf)
  {
    ReturnsLeaf(m, index, opts, prune, Root(m), None);
    leaf :| leaf in Leaves(m, index, opts, Root(m)) && Some(plan) == Some(PlanOf(m, opts, leaf));
  }

  /** A returned plan is feasible, whether or not the bound was valid. */
  lemma SearchIsFeasible(m: Model, index: Index, opts: Options, prune: bool, plan: Plan)
    requires UniqueIds(m) && PositiveDurations(m) && SymmetricMutex(m) && Agrees(m, index)
    requires Explore(m, index, opts, prune, Root(m), None) == Some(plan)
    ensures Feasible(m, plan.assignments)
  {
    var leaf := ReturnedLeaf(m, index, opts, prune, plan);
    RootSound(m);
    AgreesOffersEligible(m, index);
    LeavesSound(m, index, opts, Root(m));
    SoundIsFeasible(m, leaf);
  }

  /** No run starts before time zero, whatever the releases say. */
  lemma SearchStartsFromZero(m: Model, index: Index, opts: Options, prune: bool, plan: Plan)
    requires Explore(m, index, opts, prune, Root(m), None) == Some(plan)
    ensures StartsFromZero(plan.assignments)
  {
    var leaf := ReturnedLeaf(m, index, opts, prune, plan);
    LeavesBooked(m, index, opts);
  }

  /** The assigned and the unfulfilled ids partition the tasks, and neither list repeats one. */
  lemma SearchPartitionsTasks(m: Model, index: Index, opts: Options, prune: bool, plan: Plan)
    requires Explore(m, index, opts, prune, Root(m), None) == Some(plan)
    ensures forall id :: id in Ids(m) <==> InPlan(plan.assignments, id) || id in plan.unfulfilled
    ensures forall id :: !(InPlan(plan.assignments, id) && id in plan.unfulfilled)
    ensures DistinctTasks(plan.assignments) && (UniqueIds(m) ==> Distinct(plan.unfulfilled))
  {
    var leaf := ReturnedLeaf(m, index, opts, prune, plan);
    LeavesBooked(m, index, opts);
    assert plan.assignments == PlanIn(leaf);
    if UniqueIds(m) {
      UnscheduledDistinct(m.tasks, leaf.scheduled);
    }
    forall id ensures id in Ids(m) <==> InPlan(plan.assignments, id) || id in plan.unfulfilled {
      assert id in leaf.scheduled <==> InPlan(PlanIn(leaf), id);
    }
  }

  /** No task has to be in the plan. */
  predicate NothingRequired(m: Model, opts: Options) {
    opts.allowPartial || forall t :: t in m.tasks ==> !t.mandatory
  }

  /** With nothing required there always is a leaf. */
  lemma {:induction false} OptionalHasLeaf(m: Model, index: Index, opts: Options, st: State)
    requires NothingRequired(m, opts)
    ensures Leaves(m, index, opts, st) != []
    decreases |Open(m, st)|
  {
    var s := Settle(m, st);
    if ReadyTasks(m, s) != [] {
      var t := ReadyTasks(m, s)[0];
      SettleShrinks(m, st);
      OpenAfterDrop(m, s, t);
      OptionalHasLeaf(m, index, opts, Drop(s, t));
      LeavesOfNode(m, index, opts, st);
    }
  }

  /** `solve` succeeds exactly when the tree has a leaf, hence always when no task has to be planned. */
  lemma SolveSucceeds(m: Model, index: Index, opts: Options)
    ensures Explore(m, index, opts, true, Root(m), None).Some? <==> Leaves(m, index, opts, Root(m)) != []
    ensures opts.allowPartial || (forall t :: t in m.tasks ==> !t.mandatory) ==>
              Explore(m, index, opts, true, Root(m), None).Some?
  {
    ReturnsLeaf(m, index, opts, true, Root(m), None);
    if NothingRequired(m, opts) {
      OptionalHasLeaf(m, index, opts, Root(m));
    }
  }
}
