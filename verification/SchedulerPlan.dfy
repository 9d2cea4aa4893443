/** What a runtime plan promises, stated over the plan itself, and the effect of handling one task. */
module SchedulerPlan {
  import opened Basics
  import opened Reservations
  import opened SchedulerModel

  /** A quarter of the largest 64-bit integer. */
  const OPAQUE_END := 2305843009213693951

  datatype Planned = Planned(task: TaskId, actor: ActorId, start: int)

  /** The inputs of one planning call, with the table of pending tasks. */
  datatype Context = Context(
    workflow: Workflow, st: WorkflowState, registry: Registry, now: int,
    profile: seq<Criterion>, table: map<TaskId, PendingTask>)

  // ---- what is already under way ------------------------------------------------------------------------

  function ProcessDuration(w: Workflow, t: TaskId): int {
    if t in w.processes then w.processes[t].duration else 1
  }

  function ProcessDemand(w: Workflow, t: TaskId): int {
    if t in w.processes then w.processes[t].demand else 1
  }

  function InFlightInterval(w: Workflow, st: WorkflowState, now: int, t: TaskId): Interval {
    var start := if t in st.plannedStart then st.plannedStart[t] else now;
    var end := if t in st.plannedEnd then st.plannedEnd[t] else Max(start, now) + ProcessDuration(w, t);
    Interval(start, end, ProcessDemand(w, t))
  }

  predicate OccupiesActor(w: Workflow, st: WorkflowState, now: int, t: TaskId, actor: ActorId) {
    var r := InFlightInterval(w, st, now, t);
    t in st.taskActor && st.taskActor[t] == actor && r.start < r.end
  }

  /** Reservations of the in-flight tasks an actor owns. */
  function InFlightOn(w: Workflow, st: WorkflowState, now: int, tasks: seq<TaskId>, actor: ActorId): seq<Interval> {
    if tasks == [] then []
    else
      var n := |tasks| - 1;
      InFlightOn(w, st, now, tasks[..n], actor) +
      (if OccupiesActor(w, st, now, tasks[n], actor) then [InFlightInterval(w, st, now, tasks[n])] else [])
  }

  function BaselineLoad(st: WorkflowState, registry: Registry, actor: ActorId): int {
    if actor in st.actorLoad then st.actorLoad[actor]
    else if actor in registry then registry[actor].currentLoad
    else 0
  }

  /** Load that no known reservation explains is reserved without an end in sight. */
  function Opaque(known: seq<Interval>, baseline: int, now: int): seq<Interval> {
    var missing := baseline - DemandAt(known, now);
    if missing > 0 then [Interval(now, OPAQUE_END, missing)] else []
  }

  function InitialOn(ctx: Context, actor: ActorId): seq<Interval> {
    var known := InFlightOn(ctx.workflow, ctx.st, ctx.now, ctx.st.inFlight, actor);
    known + Opaque(known, BaselineLoad(ctx.st, ctx.registry, actor), ctx.now)
  }

  /** At the planning instant the reservations account for at least the reported load. */
  lemma OpaqueCoversLoad(ctx: Context, actor: ActorId)
    requires ctx.now < OPAQUE_END
    ensures DemandAt(InitialOn(ctx, actor), ctx.now)
         == Max(DemandAt(InFlightOn(ctx.workflow, ctx.st, ctx.now, ctx.st.inFlight, actor), ctx.now),
                BaselineLoad(ctx.st, ctx.registry, actor))
  {
    var known := InFlightOn(ctx.workflow, ctx.st, ctx.now, ctx.st.inFlight, actor);
    var missing := BaselineLoad(ctx.st, ctx.registry, actor) - DemandAt(known, ctx.now);
    if missing > 0 {
      DemandAtAppend(known, Interval(ctx.now, OPAQUE_END, missing), ctx.now);
    } else {
      assert known + [] == known;
    }
  }

  /** Completion time of a task that is done or in flight. */
  function KnownCompletion(w: Workflow, st: WorkflowState, now: int, t: TaskId): Option<int> {
    if t in st.inFlight then
      Some(if t in st.plannedEnd then st.plannedEnd[t] else now + ProcessDuration(w, t))
    else if t in st.completed then
      Some(if t in st.actualCompletion then st.actualCompletion[t]
           else if t in st.plannedEnd then st.plannedEnd[t]
           else now)
    else None
  }

  function CompletionAt(ctx: Context, t: TaskId): Option<int> {
    KnownCompletion(ctx.workflow, ctx.st, ctx.now, t)
  }

  predicate Busy(ctx: Context, t: TaskId) {
    t in ctx.st.completed || t in ctx.st.inFlight
  }

  // ---- plans -----------------------------------------------------------------------------------------------

  function DurationIn(ctx: Context, t: TaskId): int {
    if t in ctx.table then ctx.table[t].info.duration else 0
  }

  /** What one plan entry adds to an actor's demand at an instant. */
  function Share(ctx: Context, actor: ActorId, t: int): Planned -> int {
    (p: Planned) =>
      if p.task in ctx.table && p.actor == actor && p.start <= t < p.start + DurationIn(ctx, p.task)
      then ctx.table[p.task].info.demand else 0
  }

  /** In-flight, opaque and planned demand on an actor at an instant. */
  function DemandOn(ctx: Context, plan: seq<Planned>, actor: ActorId, t: int): int {
    DemandAt(InitialOn(ctx, actor), t) + SumBy(plan, Share(ctx, actor, t))
  }

  function TaskName(): Planned -> TaskId {
    (p: Planned) => p.task
  }

  ghost predicate IsPlanned(plan: seq<Planned>, t: TaskId) {
    exists p :: p in plan && p.task == t
  }

  ghost predicate IsKnown(ctx: Context, plan: seq<Planned>, d: TaskId) {
    IsPlanned(plan, d) || CompletionAt(ctx, d).Some?
  }

  /** Task `d` is done by instant `s`, as recorded or as planned. */
  ghost predicate DoneBy(ctx: Context, plan: seq<Planned>, d: TaskId, s: int) {
    || (exists p :: p in plan && p.task == d && p.start + DurationIn(ctx, d) <= s)
    || (CompletionAt(ctx, d).Some? && CompletionAt(ctx, d).value <= s)
  }

  ghost predicate RoomFor(ctx: Context, plan: seq<Planned>, a: Actor, s: int, duration: int, demand: int) {
    forall t :: s <= t < s + duration ==> DemandOn(ctx, plan, a.id, t) + demand <= a.capacity
  }

  predicate HasWindow(a: Actor, s: int, duration: int) {
    duration <= 0 || exists w :: w in a.windows && InWindow(w, s, duration)
  }

  ghost predicate TimelyStart(ctx: Context, plan: seq<Planned>, task: PendingTask, s: int) {
    && 0 <= s && ctx.now <= s && EffectiveRelease(task, ctx.st) <= s
    && (task.info.latestStart.Some? ==> s <= task.info.latestStart.value)
    && (task.info.deadline.Some? ==> s + task.info.duration <= task.info.deadline.value)
    && (forall d :: d in Deps(task) ==> DoneBy(ctx, plan, d, s))
  }

  /** The actor could run the task from `s` next to everything that is under way or planned. */
  ghost predicate SlotFree(ctx: Context, plan: seq<Planned>, task: PendingTask, a: Actor, s: int) {
    && TimelyStart(ctx, plan, task, s)
    && HasWindow(a, s, task.info.duration)
    && RoomFor(ctx, plan, a, s, task.info.duration, task.info.demand)
  }

  ghost predicate NoSlot(ctx: Context, plan: seq<Planned>, task: PendingTask) {
    forall id, s :: id in ctx.registry && Usable(task, ctx.registry[id], ctx.st) ==>
      !SlotFree(ctx, plan, task, ctx.registry[id], s)
  }

  ghost predicate MutexConflict(ctx: Context, plan: seq<Planned>, task: PendingTask) {
    exists x :: x in Mutex(task) && (Busy(ctx, x) || IsPlanned(plan, x))
  }

  ghost predicate DepsKnown(ctx: Context, plan: seq<Planned>, task: PendingTask) {
    forall d :: d in Deps(task) ==> IsKnown(ctx, plan, d)
  }

  // ---- what a plan promises ------------------------------------------------------------------------------------

  /** The entry runs a pending task on an actor that may take it, in one window and in time. */
  ghost predicate EntryOk(ctx: Context, plan: seq<Planned>, p: Planned) {
    && p.task in ctx.table && p.actor in ctx.registry
    && Usable(ctx.table[p.task], ctx.registry[p.actor], ctx.st)
    && HasWindow(ctx.registry[p.actor], p.start, ctx.table[p.task].info.duration)
    && TimelyStart(ctx, plan, ctx.table[p.task], p.start)
  }

  ghost predicate EntriesOk(ctx: Context, plan: seq<Planned>) {
    forall p :: p in plan ==> EntryOk(ctx, plan, p)
  }

  ghost predicate WithinCapacity(ctx: Context, plan: seq<Planned>) {
    forall p, t :: p in plan && p.actor in ctx.registry && p.start <= t < p.start + DurationIn(ctx, p.task) ==>
      DemandOn(ctx, plan, p.actor, t) <= ctx.registry[p.actor].capacity
  }

  ghost predicate ExcludesNone(ctx: Context, p: Planned, earlier: seq<Planned>) {
    p.task in ctx.table ==>
      forall x :: x in Mutex(ctx.table[p.task]) ==> !Busy(ctx, x) && !IsPlanned(earlier, x)
  }

  /** No entry excludes a task that is done, in flight or planned before it. */
  ghost predicate ExclusiveBackwards(ctx: Context, plan: seq<Planned>) {
    forall k :: 0 <= k < |plan| ==> ExcludesNone(ctx, plan[k], plan[..k])
  }

  /** No entry excludes a task that is done, in flight or planned at all. */
  ghost predicate Exclusive(ctx: Context, plan: seq<Planned>) {
    forall p, x :: p in plan && p.task in ctx.table && x in Mutex(ctx.table[p.task]) && x != p.task ==>
      !Busy(ctx, x) && !IsPlanned(plan, x)
  }

  ghost predicate SymmetricMutex(ctx: Context) {
    forall s, t :: s in ctx.table && t in ctx.table && s in Mutex(ctx.table[t]) ==> t in Mutex(ctx.table[s])
  }

  ghost predicate Safe(ctx: Context, plan: seq<Planned>) {
    && DistinctBy(TaskName(), plan)
    && EntriesOk(ctx, plan)
    && WithinCapacity(ctx, plan)
    && (SymmetricMutex(ctx) ==> Exclusive(ctx, plan))
  }

  /** Why a pending task is not in the plan. */
  ghost predicate LeftOutFor(ctx: Context, plan: seq<Planned>, task: PendingTask) {
    MutexConflict(ctx, plan, task) || !DepsKnown(ctx, plan, task) || NoSlot(ctx, plan, task)
  }

  /** Nothing left out could still be added. */
  ghost predicate Maximal(ctx: Context, plan: seq<Planned>) {
    forall t :: t in ctx.table && !IsPlanned(plan, t) ==> LeftOutFor(ctx, plan, ctx.table[t])
  }

  /** Assumptions on the inputs of a planning call. */
  ghost predicate WellFormed(ctx: Context) {
    && ValidRegistry(ctx.registry)
    && (forall t :: t in ctx.table ==> ctx.table[t].info.id == t && ctx.table[t].info.demand >= 0)
    && (forall t :: t in ctx.table ==> !Busy(ctx, t))
  }

  // ---- both promises survive sorting the plan -----------------------------------------------------------------

  lemma DemandOnPermutation(ctx: Context, a: seq<Planned>, b: seq<Planned>, actor: ActorId, t: int)
    requires multiset(a) == multiset(b)
    ensures DemandOn(ctx, a, actor, t) == DemandOn(ctx, b, actor, t)
  {
    SumByPermutation(a, b, Share(ctx, actor, t));
  }

  lemma MembersOfPermutation(a: seq<Planned>, b: seq<Planned>)
    requires multiset(a) == multiset(b)
    ensures forall p :: p in a <==> p in b
  {
    forall p ensures p in a <==> p in b {
      MemberOfMultiset(a, p);
      MemberOfMultiset(b, p);
    }
  }

  lemma TimelyOfMembers(ctx: Context, a: seq<Planned>, b: seq<Planned>, task: PendingTask, s: int)
    requires forall p :: p in a <==> p in b
    ensures TimelyStart(ctx, a, task, s) <==> TimelyStart(ctx, b, task, s)
  {
    forall d ensures DoneBy(ctx, a, d, s) <==> DoneBy(ctx, b, d, s) {
    }
  }

  lemma SafeOfPermutation(ctx: Context, a: seq<Planned>, b: seq<Planned>)
    requires multiset(a) == multiset(b) && Safe(ctx, a)
    ensures Safe(ctx, b)
  {
    MembersOfPermutation(a, b);
    DistinctByPermutation(TaskName(), a, b);
    forall p | p in b ensures EntryOk(ctx, b, p) {
      assert EntryOk(ctx, a, p);
      TimelyOfMembers(ctx, a, b, ctx.table[p.task], p.start);
    }
    forall p, t | p in b && p.actor in ctx.registry && p.start <= t < p.start + DurationIn(ctx, p.task)
      ensures DemandOn(ctx, b, p.actor, t) <= ctx.registry[p.actor].capacity {
      DemandOnPermutation(ctx, a, b, p.actor, t);
    }
    forall x ensures IsPlanned(a, x) <==> IsPlanned(b, x) {
    }
  }

  lemma SlotFreeOfPermutation(ctx: Context, a: seq<Planned>, b: seq<Planned>, task: PendingTask, actor: Actor, s: int)
    requires multiset(a) == multiset(b) && SlotFree(ctx, a, task, actor, s)
    ensures SlotFree(ctx, b, task, actor, s)
  {
    MembersOfPermutation(a, b);
    TimelyOfMembers(ctx, a, b, task, s);
    forall t | s <= t < s + task.info.duration ensures DemandOn(ctx, b, actor.id, t) + task.info.demand <= actor.capacity {
      DemandOnPermutation(ctx, a, b, actor.id, t);
      assert DemandOn(ctx, a, actor.id, t) + task.info.demand <= actor.capacity;
    }
  }

  lemma MaximalOfPermutation(ctx: Context, a: seq<Planned>, b: seq<Planned>)
    requires multiset(a) == multiset(b) && Maximal(ctx, a)
    ensures Maximal(ctx, b)
  {
    MembersOfPermutation(a, b);
    forall x ensures IsPlanned(a, x) <==> IsPlanned(b, x) {
    }
    forall t | t in ctx.table && !IsPlanned(b, t) ensures LeftOutFor(ctx, b, ctx.table[t]) {
      var task := ctx.table[t];
      assert LeftOutFor(ctx, a, task);
      if NoSlot(ctx, a, task) {
        forall id, s | id in ctx.registry && Usable(task, ctx.registry[id], ctx.st)
          ensures !SlotFree(ctx, b, task, ctx.registry[id], s) {
          if SlotFree(ctx, b, task, ctx.registry[id], s) {
            SlotFreeOfPermutation(ctx, b, a, task, ctx.registry[id], s);
          }
        }
      }
    }
  }
}
