/** A running task that was marked resumable is planned a second time. */
module SchedulerRerun {
  import opened Basics
  import opened Reservations
  import opened SchedulerModel
  import opened SchedulerPlan
  import opened SchedulerVisit
  import opened Scheduler
  import opened SchedulerRun
  import opened SchedulerTie

  /** One task, with no process of its own. */
  function OneTask(p: PhaseId, t: TaskId): Workflow {
    Workflow(map[p := Phase([t], [])], map[])
  }

  /** It is running on `a` from time zero to one, and was marked resumable meanwhile. */
  function Running(t: TaskId, a: ActorId): WorkflowState {
    WorkflowState([], [t], [], map[a := 1], [], [t], [], map[], map[], map[], map[], map[t := a], map[t := 0], map[t := 1], map[])
  }

  function Runner(a: ActorId): Actor {
    Actor(a, "", 1, [Window(0, 2)], [], 0.0, 1)
  }

  function RunningCall(p: PhaseId, t: TaskId, a: ActorId): Context {
    Context(OneTask(p, t), Running(t, a), map[a := Runner(a)], 0, [], map[t := PendingOf(OneTask(p, t), t, p)])
  }

  lemma RunningIsATable(p: PhaseId, t: TaskId, w: Workflow, st: WorkflowState, a: ActorId, table: map<TaskId, PendingTask>)
    requires w == OneTask(p, t) && st == Running(t, a) && table == map[t := PendingOf(w, t, p)]
    ensures IsTable(w, st, table)
  {
    assert PhaseReady(w, st.completedPhases, p) && w.phases[p].taskIds == [t] && [t][0] == t;
    assert [t][0] in st.resumable;
    forall x ensures x in table <==> IsPending(w, st, x) {
      if x == t {
        assert InReadyPhase(w, st, p, x);
      } else {
        forall q ensures !InReadyPhase(w, st, q, x) {}
      }
    }
    assert InReadyPhase(w, st, p, t);
  }

  /** What there is at the start: the running task's interval on its actor. */
  ghost predicate StartsRunning(ps: PlanState, t: TaskId, a: ActorId) {
    ps.plan == [] && ps.blocked == {t} && ps.remaining == {t} && ReservedOn(ps, a) == [Interval(0, 1, 1)]
  }

  lemma RunningStart(p: PhaseId, t: TaskId, a: ActorId, ctx: Context)
    requires ctx == RunningCall(p, t, a)
    ensures StartsRunning(Initial(ctx), t, a)
  {
    var st := ctx.st;
    assert st.inFlight == [t] && [t][..0] == [];
    assert InFlightOn(ctx.workflow, st, 0, [], a) == [];
    assert InFlightOn(ctx.workflow, st, 0, [t], a) == [] + [Interval(0, 1, 1)];
    assert [Interval(0, 1, 1)][..0] == [];
    assert DemandAt([Interval(0, 1, 1)], 0) == 1;
    assert InitialOn(ctx, a) == [Interval(0, 1, 1)] + [];
  }

  lemma RunningOffer(p: PhaseId, t: TaskId, a: ActorId, ctx: Context, ps: PlanState) returns (c: Candidate)
    requires ctx == RunningCall(p, t, a) && StartsRunning(ps, t, a)
    ensures IsBest(ctx, ps, ctx.table[t], c)
  {
    var task, worker, rs := ctx.table[t], ctx.registry[a], [Interval(0, 1, 1)];
    assert rs[..0] == [] && DemandAt(rs, 1) == 0;
    assert Room(1, rs, 1, 1, 1) && worker.windows[0] in worker.windows;
    assert Fits(worker.windows, 1, rs, 1, 1, 1);
    EarliestFitLeastAndComplete(worker.windows, 1, rs, 0, 1, 1);
    var start := StartOn(ctx, ps, task, worker, 0);
    c := CandidateFrom(ctx, ps, task, worker, start.value);
    assert Offers(ctx, ps, task, a, c);
    OnlyOfferIsBest(ctx, ps, task, a, c);
  }

  lemma VisitOnly(ctx: Context, ps: PlanState, t: TaskId, a: ActorId, c: Candidate, end: PlanState)
    requires ps.remaining == {t} && t in ctx.table && ps.plan == [] && Mutex(ctx.table[t]) == []
    requires ctx.registry.Keys == {a} && ValidRegistry(ctx.registry)
    requires IsBest(ctx, ps, ctx.table[t], c) && end == VisitAll(ctx, ps, [t])
    ensures ReadySet(ctx, ps) == {t}
    ensures end.plan == [Planned(t, a, c.start)] && end.remaining == {}
  {
    assert [t][..0] == [];
    var id :| Offers(ctx, ps, ctx.table[t], id, c);
    assert IsReady(ctx, ps, t);
    VisitPlacesBest(ctx, ps, t, c);
  }

  lemma RunningVisit(p: PhaseId, t: TaskId, a: ActorId, ctx: Context, ps: PlanState, end: PlanState)
    requires ctx == RunningCall(p, t, a) && StartsRunning(ps, t, a) && end == VisitAll(ctx, ps, [t])
    ensures ReadySet(ctx, ps) == {t}
    ensures |end.plan| == 1 && end.plan[0].task == t && end.plan[0].actor == a && end.remaining == {}
  {
    var c := RunningOffer(p, t, a, ctx, ps);
    VisitOnly(ctx, ps, t, a, c, end);
  }

  /** The only round there is has one order, and it plans the running task again. */
  lemma RunningTaskIsPlannedAgain(p: PhaseId, t: TaskId, a: ActorId, ctx: Context, end: PlanState)
    requires ctx == RunningCall(p, t, a) && end == VisitAll(ctx, Initial(ctx), [t])
    ensures IsTable(ctx.workflow, ctx.st, ctx.table) && ValidRegistry(ctx.registry) && t in ctx.st.inFlight
    ensures ReadySet(ctx, Initial(ctx)) == {t}
    ensures |end.plan| == 1 && end.plan[0].task == t && end.plan[0].actor == a && end.remaining == {}
  {
    RunningIsATable(p, t, ctx.workflow, ctx.st, a, ctx.table);
    RunningStart(p, t, a, ctx);
    RunningVisit(p, t, a, ctx, Initial(ctx), end);
  }
}
