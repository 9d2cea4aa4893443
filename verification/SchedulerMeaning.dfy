/** What the planner's order, choice and plan come to, on the fields of tasks, processes and actors. */
module SchedulerMeaning {
  import opened Basics
  import opened Reservations
  import opened SchedulerModel
  import opened SchedulerPlan
  import opened SchedulerVisit
  import opened Scheduler

  // ---- the order of ready tasks ---------------------------------------------------------------------------

  lemma OrderedKeys(ctx: Context, strategy: Strategy, ready: set<TaskId>, ids: seq<TaskId>, i: nat, j: nat)
    requires AllowedOrder(ctx, strategy, ready, ids) && ready <= ctx.table.Keys && i < j < |ids|
    ensures ids[i] in ctx.table && ids[j] in ctx.table
    ensures var (a, b) := (StrategyKey(strategy, ctx.table[ids[i]].info), StrategyKey(strategy, ctx.table[ids[j]].info));
            |a| == |b| && forall k :: 0 <= k < |a| && a[..k] == b[..k] ==> a[k] == b[k] || PartLess(a[k], b[k])
  {
    assert ids[i] in ids && ids[j] in ids;
    assert KeyLeq(TaskKey(ctx, strategy)(ids[i]), TaskKey(ctx, strategy)(ids[j]));
    KeyLeqMeaning(StrategyKey(strategy, ctx.table[ids[i]].info), StrategyKey(strategy, ctx.table[ids[j]].info));
  }

  /** Higher priority first, then a deadline before none, then the earlier deadline. */
  lemma EarliestDeadlineOrder(ctx: Context, ready: set<TaskId>, ids: seq<TaskId>, i: nat, j: nat)
    requires AllowedOrder(ctx, EarliestDeadlineFirst, ready, ids) && ready <= ctx.table.Keys && i < j < |ids|
    ensures ids[i] in ctx.table && ids[j] in ctx.table
    ensures var (s, t) := (ctx.table[ids[i]].info, ctx.table[ids[j]].info);
            && s.priority >= t.priority
            && (s.priority == t.priority && t.deadline.Some? ==>
                  s.deadline.Some? && s.deadline.value <= t.deadline.value)
  {
    OrderedKeys(ctx, EarliestDeadlineFirst, ready, ids, i, j);
    var a := StrategyKey(EarliestDeadlineFirst, ctx.table[ids[i]].info);
    var b := StrategyKey(EarliestDeadlineFirst, ctx.table[ids[j]].info);
    assert a[..0] == b[..0];
    assert a[0] == b[0] ==> a[..1] == b[..1];
    assert a[0] == b[0] && a[1] == b[1] ==> a[..2] == b[..2];
  }

  /** By phase, then by id. */
  lemma FirstInFirstOutOrder(ctx: Context, ready: set<TaskId>, ids: seq<TaskId>, i: nat, j: nat)
    requires AllowedOrder(ctx, FirstInFirstOut, ready, ids) && ready <= ctx.table.Keys && i < j < |ids|
    ensures ids[i] in ctx.table && ids[j] in ctx.table
    ensures var (s, t) := (ctx.table[ids[i]].info, ctx.table[ids[j]].info);
            && (s.phase == t.phase || TextLess(s.phase, t.phase))
            && (s.phase == t.phase ==> s.id == t.id || TextLess(s.id, t.id))
  {
    OrderedKeys(ctx, FirstInFirstOut, ready, ids, i, j);
    var a := StrategyKey(FirstInFirstOut, ctx.table[ids[i]].info);
    var b := StrategyKey(FirstInFirstOut, ctx.table[ids[j]].info);
    assert a[..0] == b[..0];
    assert a[0] == b[0] ==> a[..1] == b[..1];
  }

  /** The shorter task first, then the higher priority, then the lesser id. */
  lemma ShortestJobOrder(ctx: Context, ready: set<TaskId>, ids: seq<TaskId>, i: nat, j: nat)
    requires AllowedOrder(ctx, ShortestJobFirst, ready, ids) && ready <= ctx.table.Keys && i < j < |ids|
    ensures ids[i] in ctx.table && ids[j] in ctx.table
    ensures var (s, t) := (ctx.table[ids[i]].info, ctx.table[ids[j]].info);
            && s.duration <= t.duration
            && (s.duration == t.duration ==> s.priority >= t.priority)
            && (s.duration == t.duration && s.priority == t.priority ==> s.id == t.id || TextLess(s.id, t.id))
  {
    OrderedKeys(ctx, ShortestJobFirst, ready, ids, i, j);
    var a := StrategyKey(ShortestJobFirst, ctx.table[ids[i]].info);
    var b := StrategyKey(ShortestJobFirst, ctx.table[ids[j]].info);
    assert a[..0] == b[..0];
    assert a[0] == b[0] ==> a[..1] == b[..1];
    assert a[0] == b[0] && a[1] == b[1] ==> a[..2] == b[..2];
  }

  /** Higher priority first, then the lesser id. */
  lemma PriorityOnlyOrder(ctx: Context, ready: set<TaskId>, ids: seq<TaskId>, i: nat, j: nat)
    requires AllowedOrder(ctx, PriorityOnly, ready, ids) && ready <= ctx.table.Keys && i < j < |ids|
    ensures ids[i] in ctx.table && ids[j] in ctx.table
    ensures var (s, t) := (ctx.table[ids[i]].info, ctx.table[ids[j]].info);
            && s.priority >= t.priority
            && (s.priority == t.priority ==> s.id == t.id || TextLess(s.id, t.id))
  {
    OrderedKeys(ctx, PriorityOnly, ready, ids, i, j);
    var a := StrategyKey(PriorityOnly, ctx.table[ids[i]].info);
    var b := StrategyKey(PriorityOnly, ctx.table[ids[j]].info);
    assert a[..0] == b[..0];
    assert a[0] == b[0] ==> a[..1] == b[..1];
  }

  /** Two pending tasks tie under earliest deadline first exactly if they agree on priority and deadline. */
  lemma TiesUnderEarliestDeadline(ctx: Context, s: TaskId, t: TaskId)
    requires s in ctx.table && t in ctx.table
    ensures TaskKey(ctx, EarliestDeadlineFirst)(s) == TaskKey(ctx, EarliestDeadlineFirst)(t) <==>
            && ctx.table[s].info.priority == ctx.table[t].info.priority
            && ctx.table[s].info.deadline == ctx.table[t].info.deadline
  {
    var a, b := TaskKey(ctx, EarliestDeadlineFirst)(s), TaskKey(ctx, EarliestDeadlineFirst)(t);
    if a == b {
      assert a[0] == b[0] && a[1] == b[1] && a[2] == b[2];
    }
  }

  // ---- who is served first ----------------------------------------------------------------------------------

  lemma {:induction false} LaterVisitsKeepEntries(ctx: Context, ps: PlanState, ids: seq<TaskId>, n: nat)
    requires n <= |ids|
    ensures VisitAll(ctx, ps, ids[..n]).plan <= VisitAll(ctx, ps, ids).plan
    decreases |ids| - n
  {
    if n == |ids| {
      assert ids[..n] == ids;
    } else {
      assert ids[..n + 1][..n] == ids[..n];
      LaterVisitsKeepEntries(ctx, ps, ids, n + 1);
    }
  }

  /** In a round each ready task gets the best offer that is left when its turn comes. */
  lemma TurnTakesBestOffer(ctx: Context, ps: PlanState, ids: seq<TaskId>, k: nat, c: Candidate)
    requires k < |ids| && ids[k] in ctx.table && ids[k] in VisitAll(ctx, ps, ids[..k]).remaining
    requires forall x :: x in Mutex(ctx.table[ids[k]]) ==> x !in VisitAll(ctx, ps, ids[..k]).blocked
    requires IsBest(ctx, VisitAll(ctx, ps, ids[..k]), ctx.table[ids[k]], c)
    ensures Planned(ids[k], c.actor, c.start) in VisitAll(ctx, ps, ids).plan
  {
    var before := VisitAll(ctx, ps, ids[..k]);
    assert ids[..k + 1][..k] == ids[..k];
    VisitPlacesBest(ctx, before, ids[k], c);
    var entry := Planned(ids[k], c.actor, c.start);
    var after := VisitAll(ctx, ps, ids[..k + 1]).plan;
    assert after[|after| - 1] == entry;
    LaterVisitsKeepEntries(ctx, ps, ids, k + 1);
    assert VisitAll(ctx, ps, ids).plan[|after| - 1] == entry;
  }

  /** `a` comes before `b` under earliest deadline first, whatever else there is. */
  predicate MoreUrgent(a: TaskInfo, b: TaskInfo) {
    || a.priority > b.priority
    || (a.priority == b.priority && a.deadline.Some? && (b.deadline.None? || a.deadline.value < b.deadline.value))
  }

  lemma MostUrgentStandsFirst(ctx: Context, ready: set<TaskId>, ids: seq<TaskId>, t: TaskId)
    requires AllowedOrder(ctx, EarliestDeadlineFirst, ready, ids) && ready <= ctx.table.Keys && t in ready
    requires forall u :: u in ready && u != t ==> MoreUrgent(ctx.table[t].info, ctx.table[u].info)
    ensures ids != [] && ids[0] == t
  {
    var k :| 0 <= k < |ids| && ids[k] == t;
    assert ids[0] in ids;
    if k > 0 {
      EarliestDeadlineOrder(ctx, ready, ids, 0, k);
    }
  }

  /** Under earliest deadline first, a ready task that is more urgent than every other takes its best offer
      against what was planned before the round. */
  lemma UrgentTaskIsServedFirst(ctx: Context, ps: PlanState, ids: seq<TaskId>, t: TaskId, c: Candidate)
    requires AllowedOrder(ctx, EarliestDeadlineFirst, ReadySet(ctx, ps), ids) && t in ReadySet(ctx, ps)
    requires forall u :: u in ReadySet(ctx, ps) && u != t ==> MoreUrgent(ctx.table[t].info, ctx.table[u].info)
    requires IsBest(ctx, ps, ctx.table[t], c)
    ensures Planned(t, c.actor, c.start) in VisitAll(ctx, ps, ids).plan
  {
    MostUrgentStandsFirst(ctx, ReadySet(ctx, ps), ids, t);
    assert ids[..0] == [];
    TurnTakesBestOffer(ctx, ps, ids, 0, c);
  }

  // ---- what an offer says -----------------------------------------------------------------------------------

  /** An offer starts at the first slot that is free next to all that is under way and planned. */
  lemma OfferInFields(ctx: Context, ps: PlanState, task: PendingTask, id: ActorId, c: Candidate)
    requires ValidRegistry(ctx.registry) && Tracks(ctx, ps) && Offers(ctx, ps, task, id, c)
    ensures id in ctx.registry && c.actor == id && c.finish == c.start + task.info.duration
    ensures SlotFree(ctx, ps.plan, task, ctx.registry[id], c.start)
    ensures forall s :: SlotFree(ctx, ps.plan, task, ctx.registry[id], s) ==> c.start <= s
  {
    assert ReservesDemand(ctx, ps, ctx.registry[id].id);
    StartIsFreeSlot(ctx, ps, task, ctx.registry[id]);
  }

  /** Its load is the demand on the actor at that start, its utilisation that load over the capacity, its cost the
      rate of the actor for the duration. */
  lemma OfferPrice(ctx: Context, ps: PlanState, task: PendingTask, id: ActorId, c: Candidate)
    requires ValidRegistry(ctx.registry) && ReservesDemand(ctx, ps, id) && Offers(ctx, ps, task, id, c)
    ensures c.load == DemandOn(ctx, ps.plan, id, c.start)
    ensures c.utilization == (c.load as real) / (if ctx.registry[id].capacity >= 1 then ctx.registry[id].capacity as real else 1.0)
    ensures c.cost == ctx.registry[id].costPerUnit * (task.info.duration as real)
  {
  }

  /** A distance listed for the task replaces the one its process lists; an actor that is not listed is one
      further than the farthest. */
  lemma OfferDistance(ctx: Context, ps: PlanState, task: PendingTask, id: ActorId, c: Candidate)
    requires ValidRegistry(ctx.registry) && Offers(ctx, ps, task, id, c)
    ensures task.info.id !in ctx.st.taskDistances && task.process.None? ==> c.distance == 0
    ensures task.info.id in ctx.st.taskDistances || task.process.Some? ==>
              var distances := if task.info.id in ctx.st.taskDistances then ctx.st.taskDistances[task.info.id]
                               else task.process.value.distances;
              if id in distances then c.distance == distances[id]
              else if distances.Keys == {} then c.distance == 0
              else (forall other :: other in distances ==> distances[other] < c.distance)
                   && exists other :: other in distances && distances[other] + 1 == c.distance
    ensures c.preferred <==>
              id in (if task.info.id in ctx.st.taskPreferred then ctx.st.taskPreferred[task.info.id]
                     else if task.process.Some? then task.process.value.preferredActors else [])
  {
    if (task.info.id in ctx.st.taskDistances || task.process.Some?) {
      var distances := if task.info.id in ctx.st.taskDistances then ctx.st.taskDistances[task.info.id]
                       else task.process.value.distances;
      if id !in distances && distances.Keys != {} {
        var other :| other in distances && distances[other] == c.distance - 1;
      }
    }
  }

  // ---- all demand on an actor ---------------------------------------------------------------------------------

  /** What an in-flight task takes from its owner at an instant: its demand, from its planned start to its
      planned end; without those, from now on for the duration of its process. */
  function InFlightShare(w: Workflow, st: WorkflowState, now: int, actor: ActorId, at: int): TaskId -> int {
    (t: TaskId) =>
      var start := if t in st.plannedStart then st.plannedStart[t] else now;
      var duration, demand := if t in w.processes then w.processes[t].duration else 1,
                              if t in w.processes then w.processes[t].demand else 1;
      var end := if t in st.plannedEnd then st.plannedEnd[t] else (if start >= now then start else now) + duration;
      if t in st.taskActor && st.taskActor[t] == actor && start <= at < end then demand else 0
  }

  /** `share` is what each task's reservation takes from the actor at the instant. */
  ghost predicate SharesReservations(w: Workflow, st: WorkflowState, now: int, actor: ActorId, at: int, share: TaskId -> int) {
    forall t :: share(t) == if OccupiesActor(w, st, now, t, actor) then DemandOf(InFlightInterval(w, st, now, t), at) else 0
  }

  lemma InFlightShareMeaning(w: Workflow, st: WorkflowState, now: int, actor: ActorId, at: int)
    ensures SharesReservations(w, st, now, actor, at, InFlightShare(w, st, now, actor, at))
  {
  }

  lemma {:induction false} InFlightDemand(w: Workflow, st: WorkflowState, now: int, tasks: seq<TaskId>, actor: ActorId, at: int,
                                          share: TaskId -> int)
    requires SharesReservations(w, st, now, actor, at, share)
    ensures DemandAt(InFlightOn(w, st, now, tasks, actor), at) == SumBy(tasks, share)
  {
    if tasks != [] {
      var t := tasks[|tasks| - 1];
      InFlightDemand(w, st, now, tasks[..|tasks| - 1], actor, at, share);
      var rest := InFlightOn(w, st, now, tasks[..|tasks| - 1], actor);
      if OccupiesActor(w, st, now, t, actor) {
        DemandAtAppend(rest, InFlightInterval(w, st, now, t), at);
      } else {
        assert rest + [] == rest;
      }
    }
  }

  /** Demand on an actor: in-flight tasks, plus from now on whatever of its reported load they do not explain,
      plus the plan. */
  lemma DemandInFields(ctx: Context, plan: seq<Planned>, actor: ActorId, at: int)
    ensures var share := InFlightShare(ctx.workflow, ctx.st, ctx.now, actor, ctx.now);
            var reported := if actor in ctx.st.actorLoad then ctx.st.actorLoad[actor]
                            else if actor in ctx.registry then ctx.registry[actor].currentLoad else 0;
            var missing := reported - SumBy(ctx.st.inFlight, share);
            DemandOn(ctx, plan, actor, at) ==
              SumBy(ctx.st.inFlight, InFlightShare(ctx.workflow, ctx.st, ctx.now, actor, at))
              + (if missing > 0 && ctx.now <= at < OPAQUE_END then missing else 0)
              + SumBy(plan, Share(ctx, actor, at))
  {
    var known := InFlightOn(ctx.workflow, ctx.st, ctx.now, ctx.st.inFlight, actor);
    InFlightShareMeaning(ctx.workflow, ctx.st, ctx.now, actor, at);
    InFlightShareMeaning(ctx.workflow, ctx.st, ctx.now, actor, ctx.now);
    InFlightDemand(ctx.workflow, ctx.st, ctx.now, ctx.st.inFlight, actor, at,
                   InFlightShare(ctx.workflow, ctx.st, ctx.now, actor, at));
    InFlightDemand(ctx.workflow, ctx.st, ctx.now, ctx.st.inFlight, actor, ctx.now,
                   InFlightShare(ctx.workflow, ctx.st, ctx.now, actor, ctx.now));
    var missing := BaselineLoad(ctx.st, ctx.registry, actor) - DemandAt(known, ctx.now);
    if missing > 0 {
      DemandAtAppend(known, Interval(ctx.now, OPAQUE_END, missing), at);
    } else {
      assert known + [] == known;
    }
  }
}
