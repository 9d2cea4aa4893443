/** One visit of the list scheduler to a pending task, and what every visit keeps. */
module SchedulerVisit {
  import opened Basics
  import opened Reservations
  import opened SchedulerModel
  import opened SchedulerPlan

  datatype PlanState = PlanState(
    reservations: map<ActorId, seq<Interval>>,
    completion: map<TaskId, int>,
    blocked: set<TaskId>,
    remaining: set<TaskId>,
    plan: seq<Planned>)

  function ReservedOn(ps: PlanState, actor: ActorId): seq<Interval> {
    if actor in ps.reservations then ps.reservations[actor] else []
  }

  // ---- one task on one actor ---------------------------------------------------------------------------------

  predicate AllDoneBy(deps: seq<TaskId>, completion: map<TaskId, int>, s: int) {
    0 <= s && forall d :: d in deps ==> d in completion && completion[d] <= s
  }

  /** When all dependencies are done; none while one has no completion time. */
  function ReadyTime(deps: seq<TaskId>, completion: map<TaskId, int>): (r: Option<int>)
    ensures r.Some? <==> forall d :: d in deps ==> d in completion
    ensures r.Some? ==> forall s :: AllDoneBy(deps, completion, s) <==> r.value <= s
  {
    if deps == [] then Some(0)
    else
      var n := |deps| - 1;
      assert deps == deps[..n] + [deps[n]];
      var before := ReadyTime(deps[..n], completion);
      if deps[n] !in completion || before.None? then None
      else
        var r := Max(before.value, completion[deps[n]]);
        assert forall s :: AllDoneBy(deps, completion, s) <==> AllDoneBy(deps[..n], completion, s) && completion[deps[n]] <= s;
        Some(r)
  }

  /** The start the scheduler would give a task on an actor, if any. */
  function StartOn(ctx: Context, ps: PlanState, task: PendingTask, a: Actor, ready: int): Option<int> {
    var release := Max(ctx.now, Max(EffectiveRelease(task, ctx.st), ready));
    var start := EarliestFit(a.windows, a.capacity, ReservedOn(ps, a.id), release, task.info.duration, task.info.demand);
    if start.None? then None
    else if task.info.latestStart.Some? && start.value > task.info.latestStart.value then None
    else if task.info.deadline.Some? && start.value + task.info.duration > task.info.deadline.value then None
    else start
  }

  // ---- the tables describe the plan ----------------------------------------------------------------------------

  ghost predicate BlockedIsTaken(ctx: Context, ps: PlanState) {
    forall x :: x in ps.blocked <==> Busy(ctx, x) || IsPlanned(ps.plan, x)
  }

  ghost predicate RecordsFinish(ctx: Context, ps: PlanState, d: TaskId) {
    && (d in ps.completion <==> IsKnown(ctx, ps.plan, d))
    && (d in ps.completion ==> forall s :: DoneBy(ctx, ps.plan, d, s) <==> ps.completion[d] <= s)
  }

  ghost predicate ReservesDemand(ctx: Context, ps: PlanState, actor: ActorId) {
    forall t :: DemandAt(ReservedOn(ps, actor), t) == DemandOn(ctx, ps.plan, actor, t)
  }

  /** Half of that, which planning a running task again leaves intact: whatever has a completion time is
      done by then. */
  ghost predicate FinishIsDone(ctx: Context, ps: PlanState, d: TaskId) {
    d in ps.completion ==> forall s :: ps.completion[d] <= s ==> DoneBy(ctx, ps.plan, d, s)
  }

  /** What is enough for a start to be a free slot. */
  ghost predicate Backs(ctx: Context, ps: PlanState) {
    && BlockedIsTaken(ctx, ps)
    && (forall d :: FinishIsDone(ctx, ps, d))
    && (forall actor :: actor in ctx.registry ==> ReservesDemand(ctx, ps, actor))
  }

  ghost predicate Tracks(ctx: Context, ps: PlanState) {
    && BlockedIsTaken(ctx, ps)
    && (forall d :: RecordsFinish(ctx, ps, d))
    && (forall actor :: actor in ctx.registry ==> ReservesDemand(ctx, ps, actor))
  }

  lemma TracksBacks(ctx: Context, ps: PlanState)
    requires Tracks(ctx, ps)
    ensures Backs(ctx, ps)
  {
    forall d ensures FinishIsDone(ctx, ps, d) {
      assert RecordsFinish(ctx, ps, d);
    }
  }

  lemma FitsIsFree(ctx: Context, ps: PlanState, task: PendingTask, a: Actor, s: int)
    requires ReservesDemand(ctx, ps, a.id)
    ensures Fits(a.windows, a.capacity, ReservedOn(ps, a.id), s, task.info.duration, task.info.demand)
       <==> HasWindow(a, s, task.info.duration) && RoomFor(ctx, ps.plan, a, s, task.info.duration, task.info.demand)
  {
    var rs := ReservedOn(ps, a.id);
    forall t ensures DemandAt(rs, t) == DemandOn(ctx, ps.plan, a.id, t) {
    }
    if RoomFor(ctx, ps.plan, a, s, task.info.duration, task.info.demand) {
      forall t | s <= t < s + task.info.duration ensures DemandAt(rs, t) + task.info.demand <= a.capacity {
        assert DemandOn(ctx, ps.plan, a.id, t) + task.info.demand <= a.capacity;
      }
    }
    if Room(a.capacity, rs, s, task.info.duration, task.info.demand) {
      forall t | s <= t < s + task.info.duration ensures DemandOn(ctx, ps.plan, a.id, t) + task.info.demand <= a.capacity {
        assert DemandAt(rs, t) + task.info.demand <= a.capacity;
      }
    }
  }

  lemma ReadyIsDone(ctx: Context, ps: PlanState, task: PendingTask, s: int)
    requires forall d :: RecordsFinish(ctx, ps, d)
    requires ReadyTime(Deps(task), ps.completion).Some?
    ensures ReadyTime(Deps(task), ps.completion).value <= s <==>
            0 <= s && forall d :: d in Deps(task) ==> DoneBy(ctx, ps.plan, d, s)
  {
    assert AllDoneBy(Deps(task), ps.completion, s) <==> ReadyTime(Deps(task), ps.completion).value <= s;
    forall d | d in Deps(task) ensures DoneBy(ctx, ps.plan, d, s) <==> ps.completion[d] <= s {
      assert RecordsFinish(ctx, ps, d);
    }
  }

  lemma ReadyHasDone(ctx: Context, ps: PlanState, task: PendingTask, s: int)
    requires forall d :: FinishIsDone(ctx, ps, d)
    requires ReadyTime(Deps(task), ps.completion).Some? && ReadyTime(Deps(task), ps.completion).value <= s
    ensures 0 <= s && forall d :: d in Deps(task) ==> DoneBy(ctx, ps.plan, d, s)
  {
    assert AllDoneBy(Deps(task), ps.completion, s);
    forall d | d in Deps(task) ensures DoneBy(ctx, ps.plan, d, s) {
      assert FinishIsDone(ctx, ps, d);
    }
  }

  /** The start on an actor is a free slot. */
  lemma StartIsFree(ctx: Context, ps: PlanState, task: PendingTask, a: Actor)
    requires forall d :: FinishIsDone(ctx, ps, d)
    requires ReservesDemand(ctx, ps, a.id) && ReadyTime(Deps(task), ps.completion).Some?
    ensures var r := StartOn(ctx, ps, task, a, ReadyTime(Deps(task), ps.completion).value);
            r.Some? ==> SlotFree(ctx, ps.plan, task, a, r.value)
  {
    var ready := ReadyTime(Deps(task), ps.completion).value;
    var release := Max(ctx.now, Max(EffectiveRelease(task, ctx.st), ready));
    var rs := ReservedOn(ps, a.id);
    EarliestFitLeastAndComplete(a.windows, a.capacity, rs, release, task.info.duration, task.info.demand);
    var start := EarliestFit(a.windows, a.capacity, rs, release, task.info.duration, task.info.demand);
    if start.Some? {
      FitsIsFree(ctx, ps, task, a, start.value);
      ReadyHasDone(ctx, ps, task, start.value);
    }
  }

  /** The start on an actor is the first free slot, and there is one whenever there is a free slot. */
  lemma StartIsFreeSlot(ctx: Context, ps: PlanState, task: PendingTask, a: Actor)
    requires forall d :: RecordsFinish(ctx, ps, d)
    requires ReservesDemand(ctx, ps, a.id) && ReadyTime(Deps(task), ps.completion).Some?
    ensures var r := StartOn(ctx, ps, task, a, ReadyTime(Deps(task), ps.completion).value);
            && (r.Some? ==> SlotFree(ctx, ps.plan, task, a, r.value))
            && (r.None? ==> forall s :: !SlotFree(ctx, ps.plan, task, a, s))
            && (r.Some? ==> forall s :: SlotFree(ctx, ps.plan, task, a, s) ==> r.value <= s)
  {
    var ready := ReadyTime(Deps(task), ps.completion).value;
    var release := Max(ctx.now, Max(EffectiveRelease(task, ctx.st), ready));
    var rs := ReservedOn(ps, a.id);
    EarliestFitLeastAndComplete(a.windows, a.capacity, rs, release, task.info.duration, task.info.demand);
    var start := EarliestFit(a.windows, a.capacity, rs, release, task.info.duration, task.info.demand);
    forall s ensures SlotFree(ctx, ps.plan, task, a, s) ==>
      release <= s && Fits(a.windows, a.capacity, rs, s, task.info.duration, task.info.demand) {
      FitsIsFree(ctx, ps, task, a, s);
      ReadyIsDone(ctx, ps, task, s);
    }
    if start.Some? {
      FitsIsFree(ctx, ps, task, a, start.value);
      ReadyIsDone(ctx, ps, task, start.value);
    }
  }

  // ---- the best candidate ------------------------------------------------------------------------------------------

  ghost function CandidateFrom(ctx: Context, ps: PlanState, task: PendingTask, a: Actor, start: int): Candidate {
    var load := DemandAt(ReservedOn(ps, a.id), start);
    Candidate(a.id, start, start + task.info.duration, EffectiveDistance(task, a.id, ctx.st),
              a.costPerUnit * (task.info.duration as real),
              (load as real) / (Max(a.capacity, 1) as real), load,
              a.id in EffectivePreferred(task, ctx.st))
  }

  /** `c` is what some usable actor offers. */
  ghost predicate Offers(ctx: Context, ps: PlanState, task: PendingTask, id: ActorId, c: Candidate) {
    && id in ctx.registry && Usable(task, ctx.registry[id], ctx.st)
    && ReadyTime(Deps(task), ps.completion).Some?
    && var start := StartOn(ctx, ps, task, ctx.registry[id], ReadyTime(Deps(task), ps.completion).value);
       start.Some? && c == CandidateFrom(ctx, ps, task, ctx.registry[id], start.value)
  }

  /** The minimum of all offers in the ranking. */
  ghost predicate IsBest(ctx: Context, ps: PlanState, task: PendingTask, c: Candidate) {
    && (exists id :: Offers(ctx, ps, task, id, c))
    && (forall id, other :: Offers(ctx, ps, task, id, other) && other != c ==> Precedes(ctx.profile, c, other))
  }

  ghost predicate NoOffer(ctx: Context, ps: PlanState, task: PendingTask) {
    forall id, c :: !Offers(ctx, ps, task, id, c)
  }

  lemma BestIsUnique(ctx: Context, ps: PlanState, task: PendingTask, a: Candidate, b: Candidate)
    requires IsBest(ctx, ps, task, a) && IsBest(ctx, ps, task, b)
    ensures a == b
  {
    RankingIsStrictTotalOrder(ctx.profile, a, b, a);
  }

  /** The chosen offer wins against every other. */
  lemma BestWins(ctx: Context, ps: PlanState, task: PendingTask, best: Candidate)
    requires IsBest(ctx, ps, task, best)
    ensures forall id, c :: Offers(ctx, ps, task, id, c) && c != best ==> exists k: nat :: Wins(ctx.profile, best, c, k)
  {
    forall id, c | Offers(ctx, ps, task, id, c) && c != best ensures exists k: nat :: Wins(ctx.profile, best, c, k) {
      CompareFindsWinner(ctx.profile, best, c, 0);
      assert Wins(ctx.profile, best, c, Compare(ctx.profile, best, c, 0).criterion);
    }
  }

  /** No offer means no free slot on any usable actor. */
  lemma NoOfferIsNoSlot(ctx: Context, ps: PlanState, task: PendingTask)
    requires ValidRegistry(ctx.registry) && Tracks(ctx, ps) && NoOffer(ctx, ps, task)
    requires ReadyTime(Deps(task), ps.completion).Some?
    ensures NoSlot(ctx, ps.plan, task)
  {
    forall id, s | id in ctx.registry && Usable(task, ctx.registry[id], ctx.st)
      ensures !SlotFree(ctx, ps.plan, task, ctx.registry[id], s) {
      var a := ctx.registry[id];
      assert a.id == id && ReservesDemand(ctx, ps, id);
      StartIsFreeSlot(ctx, ps, task, a);
      var start := StartOn(ctx, ps, task, a, ReadyTime(Deps(task), ps.completion).value);
      if start.Some? {
        assert Offers(ctx, ps, task, id, CandidateFrom(ctx, ps, task, a, start.value));
      }
    }
  }

  lemma OfferIsFreeSlot(ctx: Context, ps: PlanState, task: PendingTask, id: ActorId, c: Candidate)
    requires ValidRegistry(ctx.registry) && Backs(ctx, ps) && Offers(ctx, ps, task, id, c)
    ensures c.actor == id && c.finish == c.start + task.info.duration
    ensures SlotFree(ctx, ps.plan, task, ctx.registry[id], c.start)
  {
    assert ReservesDemand(ctx, ps, ctx.registry[id].id);
    StartIsFree(ctx, ps, task, ctx.registry[id]);
  }

  // ---- adding an entry to a plan ------------------------------------------------------------------------------------

  /** The entry is of a pending task that the plan does not hold. */
  ghost predicate IsNew(ctx: Context, plan: seq<Planned>, p: Planned) {
    p.task in ctx.table && !IsPlanned(plan, p.task)
  }

  /** Nor is the task under way. */
  ghost predicate Fresh(ctx: Context, plan: seq<Planned>, p: Planned) {
    IsNew(ctx, plan, p) && !Busy(ctx, p.task)
  }

  lemma PlannedAppend(plan: seq<Planned>, p: Planned, x: TaskId)
    ensures IsPlanned(plan + [p], x) <==> IsPlanned(plan, x) || x == p.task
  {
    if IsPlanned(plan, x) {
      var q :| q in plan && q.task == x;
      assert q in plan + [p];
    }
    assert p in plan + [p];
  }

  lemma DoneByAppend(ctx: Context, plan: seq<Planned>, p: Planned, d: TaskId, s: int)
    ensures DoneBy(ctx, plan, d, s) ==> DoneBy(ctx, plan + [p], d, s)
    ensures d != p.task ==> (DoneBy(ctx, plan, d, s) <==> DoneBy(ctx, plan + [p], d, s))
  {
    if DoneBy(ctx, plan, d, s) && !(CompletionAt(ctx, d).Some? && CompletionAt(ctx, d).value <= s) {
      var q :| q in plan && q.task == d && q.start + DurationIn(ctx, d) <= s;
      assert q in plan + [p];
    }
  }

  lemma DemandAppend(ctx: Context, plan: seq<Planned>, p: Planned, actor: ActorId, t: int)
    ensures DemandOn(ctx, plan + [p], actor, t) == DemandOn(ctx, plan, actor, t) + Share(ctx, actor, t)(p)
  {
    SumByAppend(plan, p, Share(ctx, actor, t));
  }

  lemma TimelyAppend(ctx: Context, plan: seq<Planned>, p: Planned, task: PendingTask, s: int)
    ensures TimelyStart(ctx, plan, task, s) ==> TimelyStart(ctx, plan + [p], task, s)
    ensures p.task !in Deps(task) ==> (TimelyStart(ctx, plan, task, s) <==> TimelyStart(ctx, plan + [p], task, s))
  {
    forall d | d in Deps(task) ensures DoneBy(ctx, plan, d, s) ==> DoneBy(ctx, plan + [p], d, s) {
      DoneByAppend(ctx, plan, p, d, s);
    }
    if p.task !in Deps(task) {
      forall d | d in Deps(task) ensures DoneBy(ctx, plan, d, s) <==> DoneBy(ctx, plan + [p], d, s) {
        DoneByAppend(ctx, plan, p, d, s);
      }
    }
  }

  /** A new entry never opens a slot for another task whose dependencies are known. */
  lemma SlotFreeShrinks(ctx: Context, plan: seq<Planned>, p: Planned, task: PendingTask, a: Actor, s: int)
    requires WellFormed(ctx) && Fresh(ctx, plan, p) && DepsKnown(ctx, plan, task)
    requires SlotFree(ctx, plan + [p], task, a, s)
    ensures SlotFree(ctx, plan, task, a, s)
  {
    assert p.task !in Deps(task);
    TimelyAppend(ctx, plan, p, task, s);
    forall t | s <= t < s + task.info.duration ensures DemandOn(ctx, plan, a.id, t) + task.info.demand <= a.capacity {
      DemandAppend(ctx, plan, p, a.id, t);
      assert DemandOn(ctx, plan + [p], a.id, t) + task.info.demand <= a.capacity;
    }
  }

  /** Why a task was struck off: a conflict, or no slot although its dependencies were known. */
  ghost predicate Erased(ctx: Context, plan: seq<Planned>, task: PendingTask) {
    MutexConflict(ctx, plan, task) || (DepsKnown(ctx, plan, task) && NoSlot(ctx, plan, task))
  }

  lemma ErasedStays(ctx: Context, plan: seq<Planned>, p: Planned, task: PendingTask)
    requires WellFormed(ctx) && Fresh(ctx, plan, p) && Erased(ctx, plan, task)
    ensures Erased(ctx, plan + [p], task)
  {
    if MutexConflict(ctx, plan, task) {
      var x :| x in Mutex(task) && (Busy(ctx, x) || IsPlanned(plan, x));
      PlannedAppend(plan, p, x);
    } else {
      forall d | d in Deps(task) ensures IsKnown(ctx, plan + [p], d) {
        PlannedAppend(plan, p, d);
      }
      forall id, s | id in ctx.registry && Usable(task, ctx.registry[id], ctx.st)
        ensures !SlotFree(ctx, plan + [p], task, ctx.registry[id], s) {
        if SlotFree(ctx, plan + [p], task, ctx.registry[id], s) {
          SlotFreeShrinks(ctx, plan, p, task, ctx.registry[id], s);
        }
      }
    }
  }

  lemma EntriesAppend(ctx: Context, plan: seq<Planned>, p: Planned)
    requires IsNew(ctx, plan, p) && EntriesOk(ctx, plan)
    requires p.actor in ctx.registry && Usable(ctx.table[p.task], ctx.registry[p.actor], ctx.st)
    requires SlotFree(ctx, plan, ctx.table[p.task], ctx.registry[p.actor], p.start)
    ensures EntriesOk(ctx, plan + [p])
  {
    forall q | q in plan + [p] ensures EntryOk(ctx, plan + [p], q) {
      if q in plan {
        assert EntryOk(ctx, plan, q);
      }
      TimelyAppend(ctx, plan, p, ctx.table[q.task], q.start);
    }
  }

  lemma CapacityAppend(ctx: Context, plan: seq<Planned>, p: Planned)
    requires ValidRegistry(ctx.registry) && IsNew(ctx, plan, p) && WithinCapacity(ctx, plan)
    requires p.actor in ctx.registry
    requires SlotFree(ctx, plan, ctx.table[p.task], ctx.registry[p.actor], p.start)
    ensures WithinCapacity(ctx, plan + [p])
  {
    forall q, t | q in plan + [p] && q.actor in ctx.registry && q.start <= t < q.start + DurationIn(ctx, q.task)
      ensures DemandOn(ctx, plan + [p], q.actor, t) <= ctx.registry[q.actor].capacity {
      DemandAppend(ctx, plan, p, q.actor, t);
      if p.actor == q.actor && p.start <= t < p.start + DurationIn(ctx, p.task) {
        assert RoomFor(ctx, plan, ctx.registry[p.actor], p.start, DurationIn(ctx, p.task), ctx.table[p.task].info.demand);
        assert DemandOn(ctx, plan, ctx.registry[p.actor].id, t) + ctx.table[p.task].info.demand <= ctx.registry[p.actor].capacity;
      } else {
        assert q in plan;
      }
    }
  }

  lemma ExclusiveAppend(ctx: Context, plan: seq<Planned>, p: Planned)
    requires IsNew(ctx, plan, p) && ExclusiveBackwards(ctx, plan) && !MutexConflict(ctx, plan, ctx.table[p.task])
    ensures ExclusiveBackwards(ctx, plan + [p])
  {
    var more := plan + [p];
    forall k | 0 <= k < |more| ensures ExcludesNone(ctx, more[k], more[..k]) {
      if k < |plan| {
        assert more[..k] == plan[..k] && more[k] == plan[k];
        assert ExcludesNone(ctx, plan[k], plan[..k]);
      } else {
        assert more[..k] == plan;
      }
    }
  }

  /** Of two entries neither excludes the other. */
  lemma EntriesCompatible(ctx: Context, plan: seq<Planned>, j: nat, k: nat)
    requires ExclusiveBackwards(ctx, plan) && SymmetricMutex(ctx) && j < k < |plan|
    requires plan[j].task in ctx.table && plan[k].task in ctx.table
    ensures plan[j].task !in Mutex(ctx.table[plan[k].task]) && plan[k].task !in Mutex(ctx.table[plan[j].task])
  {
    assert plan[..k][j] == plan[j];
    assert plan[j] in plan[..k];
    assert IsPlanned(plan[..k], plan[j].task);
    assert ExcludesNone(ctx, plan[k], plan[..k]);
  }

  lemma BackwardsIsExclusive(ctx: Context, plan: seq<Planned>)
    requires EntriesOk(ctx, plan) && ExclusiveBackwards(ctx, plan) && SymmetricMutex(ctx)
    ensures Exclusive(ctx, plan)
  {
    forall p, x | p in plan && p.task in ctx.table && x in Mutex(ctx.table[p.task]) && x != p.task
      ensures !Busy(ctx, x) && !IsPlanned(plan, x) {
      var k :| 0 <= k < |plan| && plan[k] == p;
      assert ExcludesNone(ctx, plan[k], plan[..k]);
      forall q | q in plan ensures q.task != x {
        var j :| 0 <= j < |plan| && plan[j] == q;
        assert EntryOk(ctx, plan, q);
        if j < k {
          EntriesCompatible(ctx, plan, j, k);
        } else if k < j {
          EntriesCompatible(ctx, plan, k, j);
        }
      }
    }
  }
}
