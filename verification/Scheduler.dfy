/** The greedy list scheduler: rounds of visits to ready tasks, safe and maximal in every order. */
module Scheduler {
  import opened Basics
  import opened Reservations
  import opened SchedulerModel
  import opened SchedulerPlan
  import opened SchedulerVisit

  // ---- one visit ----------------------------------------------------------------------------------------------

  predicate Conflicts(task: PendingTask, blocked: set<TaskId>) {
    exists x :: x in Mutex(task) && x in blocked
  }

  function Strike(ps: PlanState, id: TaskId): PlanState {
    ps.(remaining := ps.remaining - {id})
  }

  function Place(ps: PlanState, id: TaskId, demand: int, actor: ActorId, start: int, finish: int): PlanState {
    PlanState(ps.reservations[actor := ReservedOn(ps, actor) + [Interval(start, finish, demand)]],
              ps.completion[id := finish],
              ps.blocked + {id},
              ps.remaining - {id},
              ps.plan + [Planned(id, actor, start)])
  }

  /** Handling one task of the ready list. */
  ghost function Visit(ctx: Context, ps: PlanState, id: TaskId): PlanState {
    if id !in ps.remaining || id !in ctx.table then ps
    else if Conflicts(ctx.table[id], ps.blocked) then Strike(ps, id)
    else if c :| IsBest(ctx, ps, ctx.table[id], c) then
      Place(ps, id, ctx.table[id].info.demand, c.actor, c.start, c.finish)
    else Strike(ps, id)
  }

  ghost predicate PlanOk(ctx: Context, plan: seq<Planned>) {
    && DistinctBy(TaskName(), plan)
    && EntriesOk(ctx, plan)
    && WithinCapacity(ctx, plan)
    && ExclusiveBackwards(ctx, plan)
  }

  /** What holds between visits for every input: the plan is in order so far, the tables back it, and the
      tasks still to come are not in it. */
  ghost predicate SafeSoFar(ctx: Context, ps: PlanState) {
    && Backs(ctx, ps)
    && PlanOk(ctx, ps.plan)
    && (forall t :: t in ps.remaining ==> t in ctx.table && !IsPlanned(ps.plan, t))
  }

  /** A pending task is still to come, planned, or struck off for a reason that lasts. */
  ghost predicate Accounted(ctx: Context, ps: PlanState) {
    forall t :: t in ctx.table && t !in ps.remaining && !IsPlanned(ps.plan, t) ==> Erased(ctx, ps.plan, ctx.table[t])
  }

  /** What holds as well when no pending task is under way and no demand is negative. */
  ghost predicate Invariant(ctx: Context, ps: PlanState) {
    SafeSoFar(ctx, ps) && Tracks(ctx, ps) && Accounted(ctx, ps)
  }

  /** The tables after an entry was planned. */
  ghost predicate IsPlaced(ctx: Context, ps: PlanState, p: Planned, next: PlanState) {
    && p.task in ctx.table
    && next == Place(ps, p.task, ctx.table[p.task].info.demand, p.actor, p.start, p.start + ctx.table[p.task].info.duration)
  }

  lemma PlacedShape(ctx: Context, ps: PlanState, p: Planned, next: PlanState)
    requires IsPlaced(ctx, ps, p, next)
    ensures next.plan == ps.plan + [p] && next.remaining == ps.remaining - {p.task}
    ensures next.blocked == ps.blocked + {p.task}
    ensures next.completion == ps.completion[p.task := p.start + ctx.table[p.task].info.duration]
    ensures forall at :: ReservedOn(next, at) == if at != p.actor then ReservedOn(ps, at)
              else ReservedOn(ps, at)
                   + [Interval(p.start, p.start + ctx.table[p.task].info.duration, ctx.table[p.task].info.demand)]
  {
  }

  lemma PlaceTracksReservations(ctx: Context, ps: PlanState, p: Planned, next: PlanState, at: ActorId)
    requires IsPlaced(ctx, ps, p, next) && ReservesDemand(ctx, ps, at)
    ensures ReservesDemand(ctx, next, at)
  {
    PlacedShape(ctx, ps, p, next);
    var info := ctx.table[p.task].info;
    var r := Interval(p.start, p.start + info.duration, info.demand);
    assert ReservedOn(next, at) == if at != p.actor then ReservedOn(ps, at) else ReservedOn(ps, at) + [r];
    forall t ensures DemandAt(ReservedOn(next, at), t) == DemandOn(ctx, next.plan, at, t) {
      DemandAppend(ctx, ps.plan, p, at, t);
      assert DemandAt(ReservedOn(ps, at), t) == DemandOn(ctx, ps.plan, at, t);
      if at == p.actor {
        DemandAtAppend(ReservedOn(ps, at), r, t);
      }
    }
  }

  lemma PlaceBacksFinish(ctx: Context, ps: PlanState, p: Planned, next: PlanState, d: TaskId)
    requires IsPlaced(ctx, ps, p, next) && FinishIsDone(ctx, ps, d)
    ensures FinishIsDone(ctx, next, d)
  {
    PlacedShape(ctx, ps, p, next);
    assert p in next.plan;
    forall s ensures DoneBy(ctx, ps.plan, d, s) ==> DoneBy(ctx, next.plan, d, s) {
      DoneByAppend(ctx, ps.plan, p, d, s);
    }
  }

  lemma PlaceBacks(ctx: Context, ps: PlanState, p: Planned, next: PlanState)
    requires IsPlaced(ctx, ps, p, next) && Backs(ctx, ps)
    ensures Backs(ctx, next)
  {
    forall x ensures x in next.blocked <==> Busy(ctx, x) || IsPlanned(next.plan, x) {
      PlacedShape(ctx, ps, p, next);
      PlannedAppend(ps.plan, p, x);
    }
    forall d ensures FinishIsDone(ctx, next, d) {
      PlaceBacksFinish(ctx, ps, p, next, d);
    }
    forall at | at in ctx.registry ensures ReservesDemand(ctx, next, at) {
      PlaceTracksReservations(ctx, ps, p, next, at);
    }
  }

  lemma PlaceTracksFinish(ctx: Context, ps: PlanState, p: Planned, next: PlanState, d: TaskId)
    requires IsPlaced(ctx, ps, p, next) && Fresh(ctx, ps.plan, p) && RecordsFinish(ctx, ps, d)
    ensures RecordsFinish(ctx, next, d)
  {
    PlacedShape(ctx, ps, p, next);
    PlannedAppend(ps.plan, p, d);
    forall s ensures d != p.task ==> (DoneBy(ctx, ps.plan, d, s) <==> DoneBy(ctx, ps.plan + [p], d, s)) {
      DoneByAppend(ctx, ps.plan, p, d, s);
    }
    if d == p.task {
      assert p in ps.plan + [p];
      forall q | q in ps.plan + [p] && q.task == d ensures q == p {
      }
    }
  }

  lemma PlaceTracks(ctx: Context, ps: PlanState, p: Planned, next: PlanState)
    requires IsPlaced(ctx, ps, p, next) && Fresh(ctx, ps.plan, p) && Tracks(ctx, ps)
    ensures Tracks(ctx, next)
  {
    TracksBacks(ctx, ps);
    PlaceBacks(ctx, ps, p, next);
    forall d ensures RecordsFinish(ctx, next, d) {
      PlaceTracksFinish(ctx, ps, p, next, d);
    }
  }

  lemma ConflictIsMutex(ctx: Context, ps: PlanState, task: PendingTask)
    requires BlockedIsTaken(ctx, ps)
    ensures Conflicts(task, ps.blocked) <==> MutexConflict(ctx, ps.plan, task)
  {
  }

  lemma PlaceAccounted(ctx: Context, ps: PlanState, p: Planned, next: PlanState)
    requires WellFormed(ctx) && Fresh(ctx, ps.plan, p) && Accounted(ctx, ps)
    requires next.plan == ps.plan + [p] && next.remaining == ps.remaining - {p.task}
    ensures Accounted(ctx, next)
  {
    forall t ensures IsPlanned(next.plan, t) <==> IsPlanned(ps.plan, t) || t == p.task {
      PlannedAppend(ps.plan, p, t);
    }
    forall t | t in ctx.table && t !in next.remaining && !IsPlanned(next.plan, t)
      ensures Erased(ctx, next.plan, ctx.table[t]) {
      ErasedStays(ctx, ps.plan, p, ctx.table[t]);
    }
  }

  lemma DistinctPlan(plan: seq<Planned>, p: Planned)
    requires DistinctBy(TaskName(), plan) && !IsPlanned(plan, p.task)
    ensures DistinctBy(TaskName(), plan + [p])
  {
    forall i | 0 <= i < |plan| ensures TaskName()(plan[i]) != TaskName()(p) {
      assert plan[i] in plan;
    }
  }

  lemma PlanOkAppend(ctx: Context, plan: seq<Planned>, p: Planned)
    requires ValidRegistry(ctx.registry) && PlanOk(ctx, plan) && IsNew(ctx, plan, p) && p.actor in ctx.registry
    requires Usable(ctx.table[p.task], ctx.registry[p.actor], ctx.st) && !MutexConflict(ctx, plan, ctx.table[p.task])
    requires SlotFree(ctx, plan, ctx.table[p.task], ctx.registry[p.actor], p.start)
    ensures PlanOk(ctx, plan + [p])
  {
    DistinctPlan(plan, p);
    EntriesAppend(ctx, plan, p);
    CapacityAppend(ctx, plan, p);
    ExclusiveAppend(ctx, plan, p);
  }

  lemma BestIsFreeSlot(ctx: Context, ps: PlanState, task: PendingTask, c: Candidate)
    requires ValidRegistry(ctx.registry) && Backs(ctx, ps) && IsBest(ctx, ps, task, c)
    ensures c.actor in ctx.registry && Usable(task, ctx.registry[c.actor], ctx.st)
    ensures c.finish == c.start + task.info.duration
    ensures SlotFree(ctx, ps.plan, task, ctx.registry[c.actor], c.start)
  {
    var actor :| Offers(ctx, ps, task, actor, c);
    OfferIsFreeSlot(ctx, ps, task, actor, c);
  }

  lemma PlaceAtFreeSlotIsSafe(ctx: Context, ps: PlanState, p: Planned, next: PlanState)
    requires ValidRegistry(ctx.registry) && SafeSoFar(ctx, ps) && p.task in ps.remaining && IsPlaced(ctx, ps, p, next)
    requires p.actor in ctx.registry && Usable(ctx.table[p.task], ctx.registry[p.actor], ctx.st)
    requires !MutexConflict(ctx, ps.plan, ctx.table[p.task])
    requires SlotFree(ctx, ps.plan, ctx.table[p.task], ctx.registry[p.actor], p.start)
    ensures SafeSoFar(ctx, next)
  {
    PlacedShape(ctx, ps, p, next);
    PlaceBacks(ctx, ps, p, next);
    PlanOkAppend(ctx, ps.plan, p);
    forall t | t in next.remaining ensures t in ctx.table && !IsPlanned(next.plan, t) {
      PlannedAppend(ps.plan, p, t);
    }
  }

  lemma FinishIsPlaced(ctx: Context, ps: PlanState, id: TaskId, c: Candidate, p: Planned, next: PlanState)
    requires id in ctx.table && p == Planned(id, c.actor, c.start) && c.finish == c.start + ctx.table[id].info.duration
    requires next == Place(ps, id, ctx.table[id].info.demand, c.actor, c.start, c.finish)
    ensures IsPlaced(ctx, ps, p, next)
  {
  }

  /** Placing a task at its best offer. */
  lemma PlaceIsSafe(ctx: Context, ps: PlanState, id: TaskId, c: Candidate, p: Planned, next: PlanState)
    requires ValidRegistry(ctx.registry) && SafeSoFar(ctx, ps) && id in ps.remaining && p == Planned(id, c.actor, c.start)
    requires !Conflicts(ctx.table[id], ps.blocked) && IsBest(ctx, ps, ctx.table[id], c)
    requires next == Place(ps, id, ctx.table[id].info.demand, c.actor, c.start, c.finish)
    ensures SafeSoFar(ctx, next) && IsPlaced(ctx, ps, p, next)
  {
    BestIsFreeSlot(ctx, ps, ctx.table[id], c);
    ConflictIsMutex(ctx, ps, ctx.table[id]);
    FinishIsPlaced(ctx, ps, id, c, p, next);
    PlaceAtFreeSlotIsSafe(ctx, ps, p, next);
  }

  lemma PlaceKeeps(ctx: Context, ps: PlanState, id: TaskId, c: Candidate, next: PlanState)
    requires WellFormed(ctx) && Invariant(ctx, ps) && id in ps.remaining
    requires !Conflicts(ctx.table[id], ps.blocked) && IsBest(ctx, ps, ctx.table[id], c)
    requires next == Place(ps, id, ctx.table[id].info.demand, c.actor, c.start, c.finish)
    ensures Invariant(ctx, next)
  {
    var p := Planned(id, c.actor, c.start);
    PlaceIsSafe(ctx, ps, id, c, p, next);
    PlacedShape(ctx, ps, p, next);
    PlaceTracks(ctx, ps, p, next);
    PlaceAccounted(ctx, ps, p, next);
  }

  lemma StrikeIsSafe(ctx: Context, ps: PlanState, id: TaskId, next: PlanState)
    requires SafeSoFar(ctx, ps) && next == Strike(ps, id)
    ensures SafeSoFar(ctx, next)
  {
    forall d ensures FinishIsDone(ctx, next, d) {
      assert FinishIsDone(ctx, ps, d);
    }
    forall at | at in ctx.registry ensures ReservesDemand(ctx, next, at) {
      assert ReservesDemand(ctx, ps, at) && ReservedOn(next, at) == ReservedOn(ps, at);
    }
  }

  lemma StrikeKeeps(ctx: Context, ps: PlanState, id: TaskId, next: PlanState)
    requires Invariant(ctx, ps) && id in ctx.table && Erased(ctx, ps.plan, ctx.table[id]) && next == Strike(ps, id)
    ensures Invariant(ctx, next)
  {
    StrikeIsSafe(ctx, ps, id, next);
    forall d ensures RecordsFinish(ctx, next, d) {
      assert RecordsFinish(ctx, ps, d);
    }
  }

  /** Nothing is on offer exactly when nothing is best. */
  ghost predicate Decides(ctx: Context, ps: PlanState, task: PendingTask) {
    NoOffer(ctx, ps, task) || exists c :: IsBest(ctx, ps, task, c)
  }

  lemma VisitPlacesBest(ctx: Context, ps: PlanState, id: TaskId, c: Candidate)
    requires id in ps.remaining && id in ctx.table && !Conflicts(ctx.table[id], ps.blocked)
    requires IsBest(ctx, ps, ctx.table[id], c)
    ensures Visit(ctx, ps, id) == Place(ps, id, ctx.table[id].info.demand, c.actor, c.start, c.finish)
  {
    forall b | IsBest(ctx, ps, ctx.table[id], b) ensures b == c {
      BestIsUnique(ctx, ps, ctx.table[id], b, c);
    }
  }

  /** For every input a visit keeps the plan in order. */
  lemma VisitIsSafe(ctx: Context, ps: PlanState, id: TaskId, next: PlanState)
    requires ValidRegistry(ctx.registry) && SafeSoFar(ctx, ps) && next == Visit(ctx, ps, id)
    ensures SafeSoFar(ctx, next)
  {
    if id in ps.remaining {
      if !Conflicts(ctx.table[id], ps.blocked) && exists c :: IsBest(ctx, ps, ctx.table[id], c) {
        var c :| IsBest(ctx, ps, ctx.table[id], c);
        VisitPlacesBest(ctx, ps, id, c);
        PlaceIsSafe(ctx, ps, id, c, Planned(id, c.actor, c.start), next);
      } else {
        StrikeIsSafe(ctx, ps, id, next);
      }
    }
  }

  lemma VisitKeeps(ctx: Context, ps: PlanState, id: TaskId)
    requires WellFormed(ctx) && Invariant(ctx, ps) && id in ctx.table
    requires ReadyTime(Deps(ctx.table[id]), ps.completion).Some?
    requires id in ps.remaining && !Conflicts(ctx.table[id], ps.blocked) ==> Decides(ctx, ps, ctx.table[id])
    ensures Invariant(ctx, Visit(ctx, ps, id))
  {
    var task := ctx.table[id];
    if id in ps.remaining {
      ConflictIsMutex(ctx, ps, task);
      if Conflicts(task, ps.blocked) {
        StrikeKeeps(ctx, ps, id, Visit(ctx, ps, id));
      } else if exists c :: IsBest(ctx, ps, task, c) {
        var c :| IsBest(ctx, ps, task, c);
        VisitPlacesBest(ctx, ps, id, c);
        PlaceKeeps(ctx, ps, id, c, Visit(ctx, ps, id));
      } else {
        forall d | d in Deps(task) ensures IsKnown(ctx, ps.plan, d) {
          assert RecordsFinish(ctx, ps, d);
        }
        NoOfferIsNoSlot(ctx, ps, task);
        StrikeKeeps(ctx, ps, id, Visit(ctx, ps, id));
      }
    }
  }

  // ---- rounds -----------------------------------------------------------------------------------------------------

  predicate IsReady(ctx: Context, ps: PlanState, id: TaskId) {
    && id in ps.remaining && id in ctx.table
    && !Conflicts(ctx.table[id], ps.blocked)
    && ReadyTime(Deps(ctx.table[id]), ps.completion).Some?
  }

  ghost function ReadySet(ctx: Context, ps: PlanState): set<TaskId> {
    set id | id in ps.remaining && IsReady(ctx, ps, id)
  }

  function StrategyKey(strategy: Strategy, info: TaskInfo): Key {
    match strategy
    case EarliestDeadlineFirst =>
      [Num(-info.priority), Num(if info.deadline.Some? then 0 else 1), Num(if info.deadline.Some? then info.deadline.value else 0)]
    case FirstInFirstOut => [Text(info.phase), Text(info.id)]
    case ShortestJobFirst => [Num(info.duration), Num(-info.priority), Text(info.id)]
    case PriorityOnly => [Num(-info.priority), Text(info.id)]
  }

  function TaskKey(ctx: Context, strategy: Strategy): TaskId -> Key {
    (id: TaskId) => if id in ctx.table then StrategyKey(strategy, ctx.table[id].info) else []
  }

  /** An order the strategy allows: ties stay in whatever order the hash set and the sort leave them. */
  ghost predicate AllowedOrder(ctx: Context, strategy: Strategy, ready: set<TaskId>, ids: seq<TaskId>) {
    Distinct(ids) && (forall id :: id in ids <==> id in ready) && SortedBy(TaskKey(ctx, strategy), ids)
  }

  /** No two pending tasks have the same key. */
  ghost predicate TellsApart(ctx: Context, strategy: Strategy) {
    forall s, t :: s in ctx.table && t in ctx.table && TaskKey(ctx, strategy)(s) == TaskKey(ctx, strategy)(t) ==> s == t
  }

  lemma {:induction false} DistinctSameMembers(a: seq<TaskId>, b: seq<TaskId>)
    requires Distinct(a) && Distinct(b) && forall id :: id in a <==> id in b
    ensures multiset(a) == multiset(b)
  {
    var self := (id: TaskId) => id;
    forall id ensures multiset(a)[id] == multiset(b)[id] {
      DistinctByCount(self, a, id);
      DistinctByCount(self, b, id);
      MemberOfMultiset(a, id);
      MemberOfMultiset(b, id);
    }
  }

  /** Every strategy but earliest deadline first compares the task id last. */
  lemma TaskIdsTellApart(ctx: Context, strategy: Strategy)
    requires strategy != EarliestDeadlineFirst && forall t :: t in ctx.table ==> ctx.table[t].info.id == t
    ensures TellsApart(ctx, strategy)
  {
    forall s, t | s in ctx.table && t in ctx.table && TaskKey(ctx, strategy)(s) == TaskKey(ctx, strategy)(t) ensures s == t {
      var ks, kt := TaskKey(ctx, strategy)(s), TaskKey(ctx, strategy)(t);
      assert ks[|ks| - 1] == Text(s) && kt[|kt| - 1] == Text(t);
    }
  }

  /** Then the ready list does not depend on the iteration order of any hash set. */
  lemma OrderIsDetermined(ctx: Context, strategy: Strategy, ready: set<TaskId>, a: seq<TaskId>, b: seq<TaskId>)
    requires TellsApart(ctx, strategy) && forall id :: id in ready ==> id in ctx.table
    requires AllowedOrder(ctx, strategy, ready, a) && AllowedOrder(ctx, strategy, ready, b)
    ensures a == b
  {
    DistinctSameMembers(a, b);
    SortedUnique(TaskKey(ctx, strategy), a, b);
  }

  lemma TieAllowsBothOrders(ctx: Context, strategy: Strategy, s: TaskId, t: TaskId)
    requires s != t && TaskKey(ctx, strategy)(s) == TaskKey(ctx, strategy)(t)
    ensures AllowedOrder(ctx, strategy, {s, t}, [s, t]) && AllowedOrder(ctx, strategy, {s, t}, [t, s])
  {
    KeyTotal(TaskKey(ctx, strategy)(s), TaskKey(ctx, strategy)(t));
  }

  ghost predicate OneOrder(ctx: Context, strategy: Strategy, ready: set<TaskId>) {
    forall a, b :: AllowedOrder(ctx, strategy, ready, a) && AllowedOrder(ctx, strategy, ready, b) ==> a == b
  }

  /** Exactly when every set of pending tasks has one order: when their keys differ. */
  lemma OrderIsDeterminedIff(ctx: Context, strategy: Strategy)
    ensures (forall ready :: ready <= ctx.table.Keys ==> OneOrder(ctx, strategy, ready)) <==> TellsApart(ctx, strategy)
  {
    if TellsApart(ctx, strategy) {
      forall ready | ready <= ctx.table.Keys ensures OneOrder(ctx, strategy, ready) {
        forall a, b | AllowedOrder(ctx, strategy, ready, a) && AllowedOrder(ctx, strategy, ready, b) ensures a == b {
          OrderIsDetermined(ctx, strategy, ready, a, b);
        }
      }
    } else {
      var s, t :| s in ctx.table && t in ctx.table && TaskKey(ctx, strategy)(s) == TaskKey(ctx, strategy)(t) && s != t;
      TieAllowsBothOrders(ctx, strategy, s, t);
      assert [s, t][0] == s && [t, s][0] == t;
      assert !OneOrder(ctx, strategy, {s, t}) && {s, t} <= ctx.table.Keys;
    }
  }

  ghost function VisitAll(ctx: Context, ps: PlanState, ids: seq<TaskId>): PlanState {
    if ids == [] then ps else Visit(ctx, VisitAll(ctx, ps, ids[..|ids| - 1]), ids[|ids| - 1])
  }

  lemma VisitRemoves(ctx: Context, ps: PlanState, id: TaskId)
    requires id in ctx.table
    ensures Visit(ctx, ps, id).remaining == ps.remaining - {id}
    ensures ps.plan <= Visit(ctx, ps, id).plan
  {
  }

  /** A visited task leaves the remaining set, and nothing is added to it. */
  lemma {:induction false} VisitAllRemoves(ctx: Context, ps: PlanState, ids: seq<TaskId>)
    requires forall id :: id in ids ==> id in ctx.table
    ensures VisitAll(ctx, ps, ids).remaining == ps.remaining - set id | id in ids
    ensures ps.plan <= VisitAll(ctx, ps, ids).plan
  {
    if ids != [] {
      var n := |ids| - 1;
      var before := VisitAll(ctx, ps, ids[..n]);
      assert ids == ids[..n] + [ids[n]];
      assert ids[n] in ids && forall id :: id in ids[..n] ==> id in ids;
      assert (set id | id in ids) == (set id | id in ids[..n]) + {ids[n]};
      VisitAllRemoves(ctx, ps, ids[..n]);
      VisitRemoves(ctx, before, ids[n]);
    }
  }

  lemma {:induction false} ListOfSet(ready: set<TaskId>) returns (ids: seq<TaskId>)
    ensures Distinct(ids) && forall id :: id in ids <==> id in ready
  {
    if ready == {} {
      ids := [];
    } else {
      var id :| id in ready;
      var rest := ListOfSet(ready - {id});
      ids := rest + [id];
    }
  }

  lemma AllowedOrderExists(ctx: Context, strategy: Strategy, ready: set<TaskId>)
    ensures exists ids :: AllowedOrder(ctx, strategy, ready, ids)
  {
    var list := ListOfSet(ready);
    var ids := Sort(TaskKey(ctx, strategy), list);
    SortSorted(TaskKey(ctx, strategy), list);
    SortedStaysDistinct(list, ids);
    assert AllowedOrder(ctx, strategy, ready, ids);
  }

  lemma SortedStaysDistinct(list: seq<TaskId>, ids: seq<TaskId>)
    requires multiset(ids) == multiset(list) && Distinct(list)
    ensures Distinct(ids) && forall id :: id in ids <==> id in list
  {
    var self := (id: TaskId) => id;
    assert DistinctBy(self, list);
    DistinctByPermutation(self, list, ids);
    forall i, j | 0 <= i < j < |ids| ensures ids[i] != ids[j] {
      assert self(ids[i]) != self(ids[j]);
    }
    forall id ensures id in ids <==> id in list {
      MemberOfMultiset(ids, id);
      MemberOfMultiset(list, id);
    }
  }

  ghost function OrderOf(ctx: Context, strategy: Strategy, ready: set<TaskId>): (ids: seq<TaskId>)
    ensures AllowedOrder(ctx, strategy, ready, ids)
  {
    AllowedOrderExists(ctx, strategy, ready);
    var ids :| AllowedOrder(ctx, strategy, ready, ids);
    ids
  }

  lemma FewerRemaining(before: set<TaskId>, ready: set<TaskId>)
    requires ready <= before && ready != {}
    ensures |before - ready| < |before|
  {
    var id :| id in ready;
    assert before == (before - ready) + ready;
    assert |before| == |before - ready| + |ready|;
  }

  /** Rounds until nothing is ready or a round plans nothing. */
  ghost function Rounds(ctx: Context, strategy: Strategy, ps: PlanState): PlanState
    decreases |ps.remaining|
  {
    var ready := ReadySet(ctx, ps);
    if ready == {} then ps
    else
      var ids := OrderOf(ctx, strategy, ready);
      var next := VisitAll(ctx, ps, ids);
      VisitAllRemoves(ctx, ps, ids);
      assert (set id | id in ids) == ready;
      FewerRemaining(ps.remaining, ready);
      if next.plan == ps.plan then next else Rounds(ctx, strategy, next)
  }

  // ---- where the loop starts and ends -------------------------------------------------------------------------------

  /** The owners of the tasks that occupy someone, registered or not. */
  function OwnersOf(w: Workflow, st: WorkflowState, now: int, tasks: seq<TaskId>): set<ActorId> {
    if tasks == [] then {}
    else
      var t := tasks[|tasks| - 1];
      OwnersOf(w, st, now, tasks[..|tasks| - 1]) +
      (if t in st.taskActor && OccupiesActor(w, st, now, t, st.taskActor[t]) then {st.taskActor[t]} else {})
  }

  function InitialReservations(ctx: Context): map<ActorId, seq<Interval>> {
    map actor | actor in ctx.registry.Keys + OwnersOf(ctx.workflow, ctx.st, ctx.now, ctx.st.inFlight) ::
      if actor in ctx.registry then InitialOn(ctx, actor)
      else InFlightOn(ctx.workflow, ctx.st, ctx.now, ctx.st.inFlight, actor)
  }

  function InitialCompletion(ctx: Context): map<TaskId, int> {
    map t | t in (set x | x in ctx.st.completed) + (set x | x in ctx.st.inFlight) :: CompletionAt(ctx, t).value
  }

  function Initial(ctx: Context): PlanState {
    PlanState(InitialReservations(ctx), InitialCompletion(ctx),
              (set x | x in ctx.st.completed) + (set x | x in ctx.st.inFlight), ctx.table.Keys, [])
  }

  lemma InitialHolds(ctx: Context)
    ensures Invariant(ctx, Initial(ctx))
  {
    var ps := Initial(ctx);
    forall d ensures RecordsFinish(ctx, ps, d) {
    }
    forall actor | actor in ctx.registry ensures ReservesDemand(ctx, ps, actor) {
    }
    assert Tracks(ctx, ps);
    TracksBacks(ctx, ps);
  }

  /** When no remaining task is ready, each has a conflict or an unknown dependency, and the plan is maximal. */
  lemma NothingReadyIsMaximal(ctx: Context, ps: PlanState)
    requires Invariant(ctx, ps) && forall id :: id in ps.remaining ==> !IsReady(ctx, ps, id)
    ensures Maximal(ctx, ps.plan)
  {
    forall t | t in ctx.table && !IsPlanned(ps.plan, t) ensures LeftOutFor(ctx, ps.plan, ctx.table[t]) {
      var task := ctx.table[t];
      if t in ps.remaining {
        ConflictIsMutex(ctx, ps, task);
        assert !IsReady(ctx, ps, t);
        if ReadyTime(Deps(task), ps.completion).None? {
          var d :| d in Deps(task) && d !in ps.completion;
          assert RecordsFinish(ctx, ps, d);
        }
      } else {
        assert Erased(ctx, ps.plan, task);
      }
    }
  }

  /** Readiness looks only at what a round without progress leaves alone. */
  lemma NoProgressLeavesNothingReady(ctx: Context, before: PlanState, after: PlanState)
    requires after.completion == before.completion && after.blocked == before.blocked
    requires after.remaining == before.remaining - ReadySet(ctx, before)
    ensures forall id :: id in after.remaining ==> !IsReady(ctx, after, id)
  {
    forall id | id in after.remaining ensures !IsReady(ctx, after, id) {
      assert id !in ReadySet(ctx, before);
    }
  }

  lemma SafeSoFarIsSafe(ctx: Context, ps: PlanState)
    requires SafeSoFar(ctx, ps)
    ensures Safe(ctx, ps.plan)
  {
    if SymmetricMutex(ctx) {
      BackwardsIsExclusive(ctx, ps.plan);
    }
  }
}
