/** The imperative form of the runtime scheduler. Iteration over hash containers is modelled by an
    arbitrary choice, so every contract holds for every iteration order. */
module SchedulerRun {
  import opened Basics
  import opened Reservations
  import opened SchedulerModel
  import opened SchedulerPlan
  import opened SchedulerVisit
  import opened Scheduler

  // ---- pending tasks ----------------------------------------------------------------------------------------

  predicate PhaseReady(w: Workflow, completed: seq<PhaseId>, p: PhaseId) {
    p in w.phases && p !in completed && forall d :: d in w.phases[p].deps ==> d in completed
  }

  /** A task may be planned unless it is done, blocked, or in flight and not resumable. */
  predicate MayPlan(st: WorkflowState, t: TaskId) {
    (t !in st.inFlight || t in st.resumable) && t !in st.completed && t !in st.unresumable
  }

  ghost predicate InReadyPhase(w: Workflow, st: WorkflowState, p: PhaseId, t: TaskId) {
    PhaseReady(w, st.completedPhases, p) && t in w.phases[p].taskIds
  }

  ghost predicate IsPending(w: Workflow, st: WorkflowState, t: TaskId) {
    MayPlan(st, t) && exists p :: InReadyPhase(w, st, p, t)
  }

  function PendingOf(w: Workflow, t: TaskId, phase: PhaseId): PendingTask {
    if t in w.processes then
      var q := w.processes[t];
      PendingTask(TaskInfo(t, phase, q.duration, q.priority, q.release, q.deadline, q.latestStart, q.demand), Some(q))
    else
      PendingTask(TaskInfo(t, phase, 1, 0, 0, None, None, 1), None)
  }

  /** The task is described as its process says, in a ready phase that lists it. */
  ghost predicate DescribesPending(w: Workflow, st: WorkflowState, t: TaskId, q: PendingTask) {
    MayPlan(st, t) && exists p :: InReadyPhase(w, st, p, t) && q == PendingOf(w, t, p)
  }

  ghost predicate IsTable(w: Workflow, st: WorkflowState, table: map<TaskId, PendingTask>) {
    && (forall t :: t in table <==> IsPending(w, st, t))
    && (forall t :: t in table ==> DescribesPending(w, st, t, table[t]))
  }

  method CollectPhase(w: Workflow, st: WorkflowState, p: PhaseId) returns (pending: seq<PendingTask>)
    requires PhaseReady(w, st.completedPhases, p)
    ensures forall q :: q in pending ==> DescribesPending(w, st, q.info.id, q)
    ensures forall t :: t in w.phases[p].taskIds && MayPlan(st, t) ==> PendingOf(w, t, p) in pending
  {
    pending := [];
    var ids := w.phases[p].taskIds;
    var i := 0;
    while i < |ids|
      invariant 0 <= i <= |ids|
      invariant forall q :: q in pending ==> DescribesPending(w, st, q.info.id, q)
      invariant forall k :: 0 <= k < i && MayPlan(st, ids[k]) ==> PendingOf(w, ids[k], p) in pending
    {
      if MayPlan(st, ids[i]) {
        assert InReadyPhase(w, st, p, ids[i]);
        pending := pending + [PendingOf(w, ids[i], p)];
      }
      i := i + 1;
    }
  }

  method CollectPendingTasks(w: Workflow, st: WorkflowState) returns (pending: seq<PendingTask>)
    ensures forall q :: q in pending ==> DescribesPending(w, st, q.info.id, q)
    ensures forall t :: IsPending(w, st, t) ==> exists q :: q in pending && q.info.id == t
  {
    pending := [];
    var todo := set p | p in w.phases.Keys && PhaseReady(w, st.completedPhases, p);
    ghost var all := todo;
    while todo != {}
      invariant todo <= all
      invariant forall q :: q in pending ==> DescribesPending(w, st, q.info.id, q)
      invariant forall p, t :: p in all && p !in todo && p in w.phases && t in w.phases[p].taskIds && MayPlan(st, t) ==>
                  PendingOf(w, t, p) in pending
      decreases todo
    {
      var p :| p in todo;
      var more := CollectPhase(w, st, p);
      pending := pending + more;
      todo := todo - {p};
    }
    forall t | IsPending(w, st, t) ensures exists q :: q in pending && q.info.id == t {
      var p :| InReadyPhase(w, st, p, t);
      assert p in all && PendingOf(w, t, p) in pending;
    }
  }

  /** `emplace`: the first description of a task is kept. */
  method BuildTable(w: Workflow, st: WorkflowState, pending: seq<PendingTask>) returns (table: map<TaskId, PendingTask>)
    requires forall q :: q in pending ==> DescribesPending(w, st, q.info.id, q)
    requires forall t :: IsPending(w, st, t) ==> exists q :: q in pending && q.info.id == t
    ensures IsTable(w, st, table)
  {
    table := map[];
    var i := 0;
    while i < |pending|
      invariant 0 <= i <= |pending|
      invariant forall t :: t in table ==> DescribesPending(w, st, t, table[t])
      invariant forall k :: 0 <= k < i ==> pending[k].info.id in table
    {
      var q := pending[i];
      assert q in pending;
      if q.info.id !in table {
        table := table[q.info.id := q];
      }
      i := i + 1;
    }
    forall t | IsPending(w, st, t) ensures t in table {
      var q :| q in pending && q.info.id == t;
      var k :| 0 <= k < |pending| && pending[k] == q;
    }
  }

  lemma TableFacts(w: Workflow, st: WorkflowState, table: map<TaskId, PendingTask>, t: TaskId)
    requires IsTable(w, st, table) && t in table
    ensures table[t].info.id == t
    ensures table[t].process == if t in w.processes then Some(w.processes[t]) else None
    ensures table[t].info.demand == ProcessDemand(w, t) && MayPlan(st, t)
  {
    var p :| InReadyPhase(w, st, p, t) && table[t] == PendingOf(w, t, p);
  }

  ghost predicate OnePhaseEach(w: Workflow) {
    forall p, q, t :: p in w.phases && q in w.phases && t in w.phases[p].taskIds && t in w.phases[q].taskIds ==> p == q
  }

  /** With each task in one phase, the table is determined by the inputs. */
  lemma TableIsDetermined(w: Workflow, st: WorkflowState, a: map<TaskId, PendingTask>, b: map<TaskId, PendingTask>)
    requires OnePhaseEach(w) && IsTable(w, st, a) && IsTable(w, st, b)
    ensures a == b
  {
    assert a.Keys == b.Keys;
    forall t | t in a ensures a[t] == b[t] {
      assert DescribesPending(w, st, t, a[t]) && DescribesPending(w, st, t, b[t]);
    }
  }

  /** A running task is pending again exactly when it is marked resumable on the way. */
  lemma RunningTaskIsPendingIff(w: Workflow, st: WorkflowState, table: map<TaskId, PendingTask>, t: TaskId)
    requires IsTable(w, st, table) && t in st.inFlight && t !in st.completed && t !in st.unresumable
    requires exists p :: InReadyPhase(w, st, p, t)
    ensures t in table <==> t in st.resumable
  {
    assert MayPlan(st, t) <==> t in st.resumable;
    assert t in table <==> IsPending(w, st, t);
  }

  // ---- initial tables ------------------------------------------------------------------------------------------

  lemma InFlightStep(w: Workflow, st: WorkflowState, now: int, tasks: seq<TaskId>, t: TaskId, a: ActorId)
    ensures InFlightOn(w, st, now, tasks + [t], a) ==
            InFlightOn(w, st, now, tasks, a) +
            (if OccupiesActor(w, st, now, t, a) then [InFlightInterval(w, st, now, t)] else [])
  {
    assert (tasks + [t])[..|tasks|] == tasks;
  }

  lemma OwnersStep(w: Workflow, st: WorkflowState, now: int, tasks: seq<TaskId>, t: TaskId)
    ensures OwnersOf(w, st, now, tasks + [t]) ==
            OwnersOf(w, st, now, tasks) +
            (if t in st.taskActor && OccupiesActor(w, st, now, t, st.taskActor[t]) then {st.taskActor[t]} else {})
  {
    assert (tasks + [t])[..|tasks|] == tasks;
  }

  lemma {:induction false} NoReservationWithoutOwner(w: Workflow, st: WorkflowState, now: int, tasks: seq<TaskId>, a: ActorId)
    requires a !in OwnersOf(w, st, now, tasks)
    ensures InFlightOn(w, st, now, tasks, a) == []
  {
    if tasks != [] {
      NoReservationWithoutOwner(w, st, now, tasks[..|tasks| - 1], a);
    }
  }

  /** The intervals of these in-flight tasks, for every registered actor and every owner. */
  ghost predicate HoldsInFlight(w: Workflow, st: WorkflowState, now: int, registry: Registry, tasks: seq<TaskId>,
                                reservations: map<ActorId, seq<Interval>>) {
    && reservations.Keys == registry.Keys + OwnersOf(w, st, now, tasks)
    && forall a :: a in reservations ==> reservations[a] == InFlightOn(w, st, now, tasks, a)
  }

  lemma ReservationsStep(w: Workflow, st: WorkflowState, now: int, registry: Registry, before: seq<TaskId>, t: TaskId,
                         reservations: map<ActorId, seq<Interval>>, next: map<ActorId, seq<Interval>>)
    requires HoldsInFlight(w, st, now, registry, before, reservations)
    requires var r := InFlightInterval(w, st, now, t);
             next == if t in st.taskActor && r.start < r.end
                     then var owner := st.taskActor[t];
                          reservations[owner := (if owner in reservations then reservations[owner] else []) + [r]]
                     else reservations
    ensures HoldsInFlight(w, st, now, registry, before + [t], next)
  {
    OwnersStep(w, st, now, before, t);
    forall a | a in next ensures next[a] == InFlightOn(w, st, now, before + [t], a) {
      InFlightStep(w, st, now, before, t, a);
      if a !in reservations { NoReservationWithoutOwner(w, st, now, before, a); }
    }
  }

  method InFlightReservations(w: Workflow, st: WorkflowState, now: int, registry: Registry)
    returns (reservations: map<ActorId, seq<Interval>>)
    ensures HoldsInFlight(w, st, now, registry, st.inFlight, reservations)
  {
    reservations := map id | id in registry.Keys :: [];
    var i := 0;
    while i < |st.inFlight|
      invariant 0 <= i <= |st.inFlight|
      invariant HoldsInFlight(w, st, now, registry, st.inFlight[..i], reservations)
    {
      var t := st.inFlight[i];
      ghost var known := reservations;
      var r := InFlightInterval(w, st, now, t);
      if t in st.taskActor && r.start < r.end {
        var owner := st.taskActor[t];
        reservations := reservations[owner := (if owner in reservations then reservations[owner] else []) + [r]];
      }
      ReservationsStep(w, st, now, registry, st.inFlight[..i], t, known, reservations);
      assert st.inFlight[..i + 1] == st.inFlight[..i] + [t];
      i := i + 1;
    }
    assert st.inFlight[..i] == st.inFlight;
  }

  method TopUp(ctx: Context, id: ActorId, known: seq<Interval>) returns (topped: seq<Interval>)
    requires id in ctx.registry && known == InFlightOn(ctx.workflow, ctx.st, ctx.now, ctx.st.inFlight, id)
    ensures topped == InitialOn(ctx, id)
  {
    var baseline := if id in ctx.st.actorLoad then ctx.st.actorLoad[id] else ctx.registry[id].currentLoad;
    var missing := Max(0, baseline - DemandAt(known, ctx.now));
    topped := known;
    if missing > 0 {
      topped := topped + [Interval(ctx.now, OPAQUE_END, missing)];
    } else {
      assert known + [] == known;
    }
  }

  /** In-flight intervals everywhere, topped up for the actors that are done. */
  ghost predicate ToppedUp(ctx: Context, todo: set<ActorId>, reservations: map<ActorId, seq<Interval>>) {
    && reservations.Keys == ctx.registry.Keys + OwnersOf(ctx.workflow, ctx.st, ctx.now, ctx.st.inFlight)
    && forall a :: a in reservations ==>
         reservations[a] == if a in ctx.registry && a !in todo then InitialOn(ctx, a)
                            else InFlightOn(ctx.workflow, ctx.st, ctx.now, ctx.st.inFlight, a)
  }

  lemma AllToppedUp(ctx: Context, reservations: map<ActorId, seq<Interval>>)
    requires ToppedUp(ctx, {}, reservations)
    ensures reservations == InitialReservations(ctx)
  {
  }

  method InitializeReservations(ctx: Context) returns (reservations: map<ActorId, seq<Interval>>)
    ensures reservations == InitialReservations(ctx)
  {
    reservations := InFlightReservations(ctx.workflow, ctx.st, ctx.now, ctx.registry);
    var todo := ctx.registry.Keys;
    while todo != {}
      invariant todo <= ctx.registry.Keys && ToppedUp(ctx, todo, reservations)
      decreases todo
    {
      var id :| id in todo;
      var topped := TopUp(ctx, id, reservations[id]);
      reservations := reservations[id := topped];
      todo := todo - {id};
    }
    AllToppedUp(ctx, reservations);
  }

  method InitializeCompletionTimes(ctx: Context) returns (completion: map<TaskId, int>)
    ensures completion == InitialCompletion(ctx)
  {
    var st := ctx.st;
    completion := map[];
    var i := 0;
    while i < |st.completed|
      invariant 0 <= i <= |st.completed|
      invariant completion.Keys == set t | t in st.completed[..i]
      invariant forall t :: t in completion && t !in st.inFlight ==> Some(completion[t]) == CompletionAt(ctx, t)
    {
      var t := st.completed[i];
      assert st.completed[..i + 1] == st.completed[..i] + [t];
      completion := completion[t := if t in st.actualCompletion then st.actualCompletion[t]
                                    else if t in st.plannedEnd then st.plannedEnd[t] else ctx.now];
      i := i + 1;
    }
    assert st.completed[..i] == st.completed;
    i := 0;
    while i < |st.inFlight|
      invariant 0 <= i <= |st.inFlight|
      invariant completion.Keys == (set t | t in st.completed) + (set t | t in st.inFlight[..i])
      invariant forall t :: t in completion && (t !in st.inFlight || t in st.inFlight[..i]) ==>
                  Some(completion[t]) == CompletionAt(ctx, t)
    {
      var t := st.inFlight[i];
      assert st.inFlight[..i + 1] == st.inFlight[..i] + [t];
      completion := completion[t := if t in st.plannedEnd then st.plannedEnd[t] else ctx.now + ProcessDuration(ctx.workflow, t)];
      i := i + 1;
    }
    assert st.inFlight[..i] == st.inFlight;
  }

  // ---- choosing an actor -----------------------------------------------------------------------------------------

  method DependencyReadyTime(deps: seq<TaskId>, completion: map<TaskId, int>) returns (r: Option<int>)
    ensures r == ReadyTime(deps, completion)
  {
    var ready := 0;
    var i := 0;
    while i < |deps|
      invariant 0 <= i <= |deps|
      invariant ReadyTime(deps[..i], completion) == Some(ready)
    {
      assert deps[..i + 1][..i] == deps[..i];
      if deps[i] !in completion {
        assert deps[i] in deps;
        return None;
      }
      ready := Max(ready, completion[deps[i]]);
      i := i + 1;
    }
    assert deps[..i] == deps;
    return Some(ready);
  }

  method PriceCandidate(ctx: Context, ps: PlanState, task: PendingTask, a: Actor, start: int) returns (c: Candidate)
    ensures c == CandidateFrom(ctx, ps, task, a, start)
  {
    var load := DemandAt(ReservedOn(ps, a.id), start);
    var distance := DistanceFor(task, a.id, ctx.st);
    return Candidate(a.id, start, start + task.info.duration, distance,
                     a.costPerUnit * (task.info.duration as real),
                     (load as real) / (Max(a.capacity, 1) as real), load,
                     a.id in EffectivePreferred(task, ctx.st));
  }

  method BuildCandidate(ctx: Context, ps: PlanState, task: PendingTask, a: Actor, ready: int) returns (c: Option<Candidate>)
    ensures c.Some? <==> StartOn(ctx, ps, task, a, ready).Some?
    ensures c.Some? ==> c.value == CandidateFrom(ctx, ps, task, a, StartOn(ctx, ps, task, a, ready).value)
  {
    var release := Max(ctx.now, Max(EffectiveRelease(task, ctx.st), ready));
    var rs := ReservedOn(ps, a.id);
    var start := EarliestStartSorted(a.windows, a.capacity, rs, release, task.info.duration, task.info.demand);
    if start.None? || (task.info.latestStart.Some? && start.value > task.info.latestStart.value) {
      return None;
    }
    if task.info.deadline.Some? && start.value + task.info.duration > task.info.deadline.value {
      return None;
    }
    var candidate := PriceCandidate(ctx, ps, task, a, start.value);
    return Some(candidate);
  }

  /** `best` is the minimum of the offers of the actors in `seen`. */
  ghost predicate BestSoFar(ctx: Context, ps: PlanState, task: PendingTask, seen: set<ActorId>, best: Option<Candidate>) {
    match best
    case None => forall id, c :: id in seen ==> !Offers(ctx, ps, task, id, c)
    case Some(b) =>
      && b.actor in seen && Offers(ctx, ps, task, b.actor, b)
      && forall id, c :: id in seen && Offers(ctx, ps, task, id, c) && c != b ==> Precedes(ctx.profile, b, c)
  }

  lemma OfferNamesActor(ctx: Context, ps: PlanState, task: PendingTask, id: ActorId, c: Candidate)
    requires ValidRegistry(ctx.registry) && Offers(ctx, ps, task, id, c)
    ensures c.actor == id
  {
  }

  lemma OneOfferEach(ctx: Context, ps: PlanState, task: PendingTask, id: ActorId, a: Candidate, b: Candidate)
    requires Offers(ctx, ps, task, id, a) && Offers(ctx, ps, task, id, b)
    ensures a == b
  {
  }

  lemma BestStep(ctx: Context, ps: PlanState, task: PendingTask, seen: set<ActorId>, best: Candidate, id: ActorId, c: Candidate)
    requires ValidRegistry(ctx.registry) && BestSoFar(ctx, ps, task, seen, Some(best)) && id !in seen && Offers(ctx, ps, task, id, c)
    ensures BestSoFar(ctx, ps, task, seen + {id}, if Precedes(ctx.profile, c, best) then Some(c) else Some(best))
  {
    OfferNamesActor(ctx, ps, task, id, c);
    forall other, o | other in seen + {id} && Offers(ctx, ps, task, other, o)
      ensures Precedes(ctx.profile, c, best) && o != c ==> Precedes(ctx.profile, c, o)
      ensures !Precedes(ctx.profile, c, best) && o != best ==> Precedes(ctx.profile, best, o) {
      if other == id {
        OneOfferEach(ctx, ps, task, id, o, c);
        RankingIsStrictTotalOrder(ctx.profile, best, c, best);
      } else {
        RankingIsStrictTotalOrder(ctx.profile, c, best, o);
      }
    }
  }

  /** The chosen actor is the minimum of all offers, whatever order the actors are scanned in: it wins
      against any other at the first criterion on which the two differ. */
  method SelectBestCandidate(ctx: Context, ps: PlanState, task: PendingTask) returns (best: Option<Candidate>)
    requires ValidRegistry(ctx.registry)
    ensures best.Some? ==> IsBest(ctx, ps, task, best.value)
    ensures best.Some? ==> forall id, c :: Offers(ctx, ps, task, id, c) && c != best.value ==>
              exists k: nat :: Wins(ctx.profile, best.value, c, k)
    ensures best.None? ==> NoOffer(ctx, ps, task)
  {
    best := None;
    var ready := DependencyReadyTime(Deps(task), ps.completion);
    if ready.None? {
      return;
    }
    var todo := ctx.registry.Keys;
    while todo != {}
      invariant todo <= ctx.registry.Keys
      invariant BestSoFar(ctx, ps, task, ctx.registry.Keys - todo, best)
      decreases todo
    {
      var id :| id in todo;
      ghost var seen := ctx.registry.Keys - todo;
      assert ctx.registry.Keys - (todo - {id}) == seen + {id};
      todo := todo - {id};
      var a := ctx.registry[id];
      if Usable(task, a, ctx.st) {
        var c := BuildCandidate(ctx, ps, task, a, ready.value);
        if c.Some? {
          assert Offers(ctx, ps, task, id, c.value);
          if best.None? {
            best := c;
          } else {
            var v := CompareCandidates(ctx.profile, c.value, best.value);
            BestStep(ctx, ps, task, seen, best.value, id, c.value);
            if v.order < 0 {
              best := c;
            }
          }
        }
      }
    }
    assert ctx.registry.Keys - {} == ctx.registry.Keys;
    if best.Some? {
      BestWins(ctx, ps, task, best.value);
    }
  }

  method VisitTask(ctx: Context, ps: PlanState, id: TaskId) returns (next: PlanState)
    requires ValidRegistry(ctx.registry) && id in ctx.table
    ensures next == Visit(ctx, ps, id)
    ensures id in ps.remaining && !Conflicts(ctx.table[id], ps.blocked) ==> Decides(ctx, ps, ctx.table[id])
  {
    if id !in ps.remaining {
      return ps;
    }
    if Conflicts(ctx.table[id], ps.blocked) {
      return Strike(ps, id);
    }
    var best := SelectBestCandidate(ctx, ps, ctx.table[id]);
    if best.None? {
      return Strike(ps, id);
    }
    VisitPlacesBest(ctx, ps, id, best.value);
    return Place(ps, id, ctx.table[id].info.demand, best.value.actor, best.value.start, best.value.finish);
  }

  // ---- the main loop -----------------------------------------------------------------------------------------------

  /** The ready tasks in some order the strategy allows. */
  method CollectReadyTasks(ctx: Context, strategy: Strategy, ps: PlanState) returns (ids: seq<TaskId>)
    ensures AllowedOrder(ctx, strategy, ReadySet(ctx, ps), ids)
  {
    var list: seq<TaskId> := [];
    var todo := ps.remaining;
    while todo != {}
      invariant todo <= ps.remaining && Distinct(list)
      invariant forall id :: id in list <==> id in ReadySet(ctx, ps) && id !in todo
      decreases todo
    {
      var id :| id in todo;
      if IsReady(ctx, ps, id) {
        list := list + [id];
      }
      todo := todo - {id};
    }
    ids := Sort(TaskKey(ctx, strategy), list);
    SortSorted(TaskKey(ctx, strategy), list);
    SortedStaysDistinct(list, ids);
  }

  /** Visiting another task leaves this one ready or struck by a later conflict. */
  ghost predicate StillVisitable(ctx: Context, ps: PlanState, id: TaskId) {
    id in ctx.table && ReadyTime(Deps(ctx.table[id]), ps.completion).Some?
  }

  lemma VisitKeepsOthersVisitable(ctx: Context, ps: PlanState, id: TaskId, other: TaskId)
    requires StillVisitable(ctx, ps, other)
    ensures StillVisitable(ctx, Visit(ctx, ps, id), other)
  {
    assert forall d :: d in ps.completion ==> d in Visit(ctx, ps, id).completion;
  }

  /** A visit that plans nothing leaves every table alone. */
  lemma VisitWithoutProgress(ctx: Context, ps: PlanState, id: TaskId)
    ensures ps.plan <= Visit(ctx, ps, id).plan
    ensures Visit(ctx, ps, id).plan == ps.plan ==>
              Visit(ctx, ps, id).completion == ps.completion && Visit(ctx, ps, id).blocked == ps.blocked
  {
  }

  lemma PrefixGrows<T>(a: seq<T>, b: seq<T>, c: seq<T>)
    requires a <= b <= c
    ensures a <= c && (c != a <==> b != a || |c| > |b|)
  {
  }

  method VisitReadyTasks(ctx: Context, ps: PlanState, ids: seq<TaskId>) returns (next: PlanState, progress: bool)
    requires ValidRegistry(ctx.registry) && forall id :: id in ids ==> StillVisitable(ctx, ps, id)
    ensures next == VisitAll(ctx, ps, ids)
    ensures progress <==> next.plan != ps.plan
    ensures !progress ==> next.completion == ps.completion && next.blocked == ps.blocked
    ensures SafeSoFar(ctx, ps) ==> SafeSoFar(ctx, next)
    ensures WellFormed(ctx) && Invariant(ctx, ps) ==> Invariant(ctx, next)
  {
    next := ps;
    progress := false;
    var i := 0;
    while i < |ids|
      invariant 0 <= i <= |ids|
      invariant next == VisitAll(ctx, ps, ids[..i])
      invariant ps.plan <= next.plan && (progress <==> next.plan != ps.plan)
      invariant !progress ==> next.completion == ps.completion && next.blocked == ps.blocked
      invariant forall id :: id in ids ==> StillVisitable(ctx, next, id)
      invariant SafeSoFar(ctx, ps) ==> SafeSoFar(ctx, next)
      invariant WellFormed(ctx) && Invariant(ctx, ps) ==> Invariant(ctx, next)
    {
      assert ids[i] in ids && ids[..i + 1][..i] == ids[..i];
      var after := VisitTask(ctx, next, ids[i]);
      VisitWithoutProgress(ctx, next, ids[i]);
      forall id | id in ids ensures StillVisitable(ctx, after, id) {
        VisitKeepsOthersVisitable(ctx, next, ids[i], id);
      }
      if WellFormed(ctx) && Invariant(ctx, ps) {
        VisitKeeps(ctx, next, ids[i]);
      }
      if SafeSoFar(ctx, ps) {
        VisitIsSafe(ctx, next, ids[i], after);
      }
      PrefixGrows(ps.plan, next.plan, after.plan);
      progress := progress || |after.plan| > |next.plan|;
      next := after;
      i := i + 1;
    }
    assert ids[..i] == ids;
  }

  ghost predicate IdsMatch(ctx: Context) {
    forall t :: t in ctx.table ==> ctx.table[t].info.id == t
  }

  /** One round, and whether the loop goes on. */
  method PlanRound(ctx: Context, strategy: Strategy, ps: PlanState) returns (next: PlanState, done: bool)
    requires ValidRegistry(ctx.registry) && IdsMatch(ctx) && ps.remaining <= ctx.table.Keys
    ensures next.remaining <= ps.remaining && |next.remaining| <= |ps.remaining|
    ensures !done ==> |next.remaining| < |ps.remaining|
    ensures SafeSoFar(ctx, ps) ==> SafeSoFar(ctx, next)
    ensures WellFormed(ctx) && Invariant(ctx, ps) ==> Invariant(ctx, next) && (done ==> Maximal(ctx, next.plan))
    ensures TellsApart(ctx, strategy) ==> Rounds(ctx, strategy, ps) == if done then next else Rounds(ctx, strategy, next)
  {
    var ids := CollectReadyTasks(ctx, strategy, ps);
    ghost var ready := ReadySet(ctx, ps);
    if ids == [] {
      assert ready == {} by {
        if id :| id in ready { assert id in ids; }
      }
      next, done := ps, true;
      if WellFormed(ctx) && Invariant(ctx, ps) {
        forall id | id in ps.remaining ensures !IsReady(ctx, ps, id) {
          assert id !in ready;
        }
        NothingReadyIsMaximal(ctx, ps);
      }
      return;
    }
    assert ids[0] in ready;
    var progress;
    next, progress := VisitReadyTasks(ctx, ps, ids);
    done := !progress;
    VisitAllRemoves(ctx, ps, ids);
    assert (set id | id in ids) == ready;
    FewerRemaining(ps.remaining, ready);
    if !progress {
      NoProgressLeavesNothingReady(ctx, ps, next);
      if WellFormed(ctx) && Invariant(ctx, ps) {
        NothingReadyIsMaximal(ctx, next);
      }
    }
    if TellsApart(ctx, strategy) {
      OrderIsDetermined(ctx, strategy, ready, ids, OrderOf(ctx, strategy, ready));
    }
  }

  method PlanLoop(ctx: Context, strategy: Strategy) returns (ps: PlanState)
    requires ValidRegistry(ctx.registry) && IdsMatch(ctx)
    ensures SafeSoFar(ctx, ps)
    ensures WellFormed(ctx) ==> Maximal(ctx, ps.plan)
    ensures TellsApart(ctx, strategy) ==> ps == Rounds(ctx, strategy, Initial(ctx))
  {
    var reservations := InitializeReservations(ctx);
    var completion := InitializeCompletionTimes(ctx);
    var blocked := (set x | x in ctx.st.completed) + (set x | x in ctx.st.inFlight);
    ps := PlanState(reservations, completion, blocked, ctx.table.Keys, []);
    assert ps == Initial(ctx);
    InitialHolds(ctx);
    var done := false;
    while !done
      invariant ps.remaining <= ctx.table.Keys && SafeSoFar(ctx, ps)
      invariant WellFormed(ctx) ==> Invariant(ctx, ps) && (done ==> Maximal(ctx, ps.plan))
      invariant TellsApart(ctx, strategy) ==>
        Rounds(ctx, strategy, Initial(ctx)) == if done then ps else Rounds(ctx, strategy, ps)
      decreases |ps.remaining|, !done
    {
      ps, done := PlanRound(ctx, strategy, ps);
    }
  }

  // ---- planning ------------------------------------------------------------------------------------------------------

  function PlannedKey(p: Planned): Key {
    [Num(p.start), Text(p.task), Text(p.actor)]
  }

  ghost predicate ResumableAreNotInFlight(st: WorkflowState) {
    forall t :: t in st.resumable ==> t !in st.inFlight
  }

  ghost predicate NonNegativeDemands(w: Workflow) {
    forall t :: t in w.processes ==> w.processes[t].demand >= 0
  }

  lemma TableIsWellFormed(ctx: Context)
    requires ValidRegistry(ctx.registry) && IsTable(ctx.workflow, ctx.st, ctx.table)
    ensures IdsMatch(ctx)
    ensures NonNegativeDemands(ctx.workflow) && ResumableAreNotInFlight(ctx.st) ==> WellFormed(ctx)
  {
    forall t | t in ctx.table
      ensures ctx.table[t].info.id == t && MayPlan(ctx.st, t) && ctx.table[t].info.demand == ProcessDemand(ctx.workflow, t) {
      TableFacts(ctx.workflow, ctx.st, ctx.table, t);
    }
  }

  ghost predicate HasPreemptible(table: map<TaskId, PendingTask>) {
    exists t :: t in table && table[t].process.Some? && table[t].process.value.preemptible
  }

  method FindPreemptible(table: map<TaskId, PendingTask>) returns (found: bool)
    ensures found <==> HasPreemptible(table)
  {
    var todo := table.Keys;
    while todo != {}
      invariant todo <= table.Keys
      invariant forall t :: t in table && t !in todo ==> table[t].process.None? || !table[t].process.value.preemptible
      decreases todo
    {
      var t :| t in todo;
      if table[t].process.Some? && table[t].process.value.preemptible {
        return true;
      }
      todo := todo - {t};
    }
    return false;
  }

  /** What a planning call returns, and the table it worked on. */
  ghost predicate IsPlan(ctx: Context, strategy: Strategy, ok: bool, plan: seq<Planned>) {
    && (ok <==> !HasPreemptible(ctx.table))
    && (!ok ==> plan == [])
    && SortedBy(PlannedKey, plan)
    && (ok ==> Safe(ctx, plan))
    && (ok && WellFormed(ctx) ==> Maximal(ctx, plan))
    && (ok && TellsApart(ctx, strategy) ==> plan == Sort(PlannedKey, Rounds(ctx, strategy, Initial(ctx)).plan))
  }

  /** Planning over a collected table. For every iteration order of the hash containers the plan is safe;
      when no pending task is under way and no demand is negative it is maximal as well; when the strategy
      tells the pending tasks apart it is the same plan. */
  method PlanPending(ctx: Context, strategy: Strategy) returns (ok: bool, plan: seq<Planned>)
    requires ValidRegistry(ctx.registry) && IsTable(ctx.workflow, ctx.st, ctx.table)
    ensures IsPlan(ctx, strategy, ok, plan)
  {
    TableIsWellFormed(ctx);
    var preemptible := FindPreemptible(ctx.table);
    if preemptible {
      return false, [];
    }
    var ps := PlanLoop(ctx, strategy);
    plan := Sort(PlannedKey, ps.plan);
    SortSorted(PlannedKey, ps.plan);
    ok := true;
    SafeSoFarIsSafe(ctx, ps);
    SafeOfPermutation(ctx, ps.plan, plan);
    if WellFormed(ctx) {
      MaximalOfPermutation(ctx, ps.plan, plan);
    }
  }

  /** The scheduler. */
  method Plan(w: Workflow, st: WorkflowState, registry: Registry, now: int, strategy: Strategy, profile: seq<Criterion>)
    returns (ok: bool, plan: seq<Planned>, ghost ctx: Context)
    requires ValidRegistry(registry)
    ensures ctx == Context(w, st, registry, now, profile, ctx.table) && IsTable(w, st, ctx.table)
    ensures IsPlan(ctx, strategy, ok, plan)
  {
    var pending := CollectPendingTasks(w, st);
    var table := BuildTable(w, st, pending);
    var input := Context(w, st, registry, now, profile, table);
    ctx := input;
    ok, plan := PlanPending(input, strategy);
  }

  /** With each task in one phase and no tie between pending tasks, any two runs on the same inputs return
      the same plan. */
  lemma PlanIsDetermined(a: Context, b: Context, strategy: Strategy, okA: bool, planA: seq<Planned>, okB: bool, planB: seq<Planned>)
    requires b == a.(table := b.table) && OnePhaseEach(a.workflow) && TellsApart(a, strategy)
    requires IsTable(a.workflow, a.st, a.table) && IsTable(b.workflow, b.st, b.table)
    requires IsPlan(a, strategy, okA, planA) && IsPlan(b, strategy, okB, planB)
    ensures okA == okB && planA == planB
  {
    TableIsDetermined(a.workflow, a.st, a.table, b.table);
  }
}
