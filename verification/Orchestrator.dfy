/** The orchestrator object: the fields its calls update, each proved to take the specified step. */
module Orchestrator {
  import opened Basics
  import opened SchedulerModel
  import opened SchedulerPlan
  import opened SchedulerRun
  import opened PlannerFsm
  import opened Orchestration

  class Orchestrator {
    const workflow: Workflow
    const strategy: Strategy
    const profile: seq<Criterion>
    const fsm: PlannerStateMachine
    var registry: Registry
    var ws: WorkflowState
    var latest: Schedule
    var started: bool
    var replan: bool

    ghost predicate Valid()
      reads this, fsm
    {
      fsm.Valid() && ValidRegistry(registry)
    }

    function View(): State
      reads this, fsm
    {
      State(registry, ws, latest, started, replan, fsm.lastKnown)
    }

    constructor (workflow: Workflow, registry: Registry, strategy: Strategy, profile: seq<Criterion>)
      requires ValidRegistry(registry)
      ensures Valid() && fresh(fsm) && View() == Orchestration.Fresh(registry)
      ensures this.workflow == workflow && this.strategy == strategy && this.profile == profile
    {
      this.workflow, this.strategy, this.profile := workflow, strategy, profile;
      this.registry, ws, latest := registry, EmptyState(), Schedule(false, []);
      started, replan := false, false;
      fsm := new PlannerStateMachine();
    }

    /** `result` is what the scheduler returns for the current state at time `now`. */
    ghost predicate IsPlanningResult(registry: Registry, ws: WorkflowState, now: int, ctx: Context, result: Schedule)
    {
      && ctx == Context(workflow, ws, registry, now, profile, ctx.table)
      && IsTable(workflow, ws, ctx.table)
      && IsPlan(ctx, strategy, result.ok, result.plan)
    }

    method RunPlan(now: int) returns (ghost ctx: Context)
      requires Valid()
      modifies this, fsm
      ensures Valid() && View() == Orchestration.RunPlanning(old(View()), latest)
      ensures IsPlanningResult(old(registry), old(ws), now, ctx, latest)
    {
      var ok, plan;
      ok, plan, ctx := SchedulerRun.Plan(workflow, ws, registry, now, strategy, profile);
      latest := Schedule(ok, plan);
      if latest.ok && latest.plan != [] {
        fsm.ProcessEvent(ScheduleReady);
      }
    }

    method StartUp() returns (ghost ctx: Context)
      requires Valid()
      modifies this, fsm
      ensures Valid() && View() == Step(workflow, old(View()), Start(latest))
      ensures IsPlanningResult(old(registry), old(ws), 0, ctx, latest)
    {
      started := true;
      fsm.ProcessEvent(StartPlanning);
      ctx := RunPlan(0);
    }

    method Dispatch(p: Planned, now: int)
      requires Valid()
      modifies this
      ensures Valid() && View() == DispatchOne(workflow, old(View()), p, now)
    {
      if p.start > now || !DependenciesCompleted(workflow, ws, p.task) || p.task in ws.completed
         || p.task in ws.inFlight || p.task in ws.unresumable {
        return;
      }
      ws := ws.(inFlight := ws.inFlight + [p.task],
                resumable := Erase(ws.resumable, p.task),
                unresumable := Erase(ws.unresumable, p.task),
                taskActor := ws.taskActor[p.task := p.actor]);
      if p.actor in registry {
        registry := registry[p.actor := registry[p.actor].(currentLoad :=
                               registry[p.actor].currentLoad + ProcessDemand(workflow, p.task))];
      }
      ws := ws.(actorLoad := ws.actorLoad[p.actor := if p.actor in registry then registry[p.actor].currentLoad else 0],
                plannedStart := ws.plannedStart[p.task := p.start],
                plannedEnd := ws.plannedEnd[p.task := p.start + ProcessDuration(workflow, p.task)]);
    }

    method ApplyDispatches(now: int)
      requires Valid()
      modifies this, fsm
      ensures Valid() && View() == ApplyDispatch(workflow, old(View()), now)
    {
      var plan := latest.plan;
      var i := 0;
      while i < |plan|
        invariant 0 <= i <= |plan| && Valid()
        invariant View() == DispatchAll(workflow, old(View()), plan[..i], now)
        invariant fsm.lastKnown == old(fsm.lastKnown) && fsm.machine == old(fsm.machine)
      {
        assert plan[..i + 1][..i] == plan[..i];
        Dispatch(plan[i], now);
        i := i + 1;
      }
      assert plan[..i] == plan;
      if fsm.lastKnown == Dispatching {
        fsm.ProcessEvent(DispatchComplete);
      }
    }

    method TickNow(now: int) returns (ghost ctx: Context)
      requires Valid()
      modifies this, fsm
      ensures Valid() && View() == Step(workflow, old(View()), TickAt(now, latest))
      ensures Plans(old(View()), TickAt(now, latest)) ==> IsPlanningResult(old(registry), old(ws), now, ctx, latest)
    {
      ctx := Context(workflow, ws, registry, now, profile, map[]);
      if !started {
        return;
      }
      var s := fsm.lastKnown;
      if replan && s != Planning {
        fsm.ProcessEvent(StartPlanning);
        replan := false;
        ctx := RunPlan(now);
        return;
      }
      if s == Idle {
        fsm.ProcessEvent(StartPlanning);
        replan := false;
        ctx := RunPlan(now);
      } else if s == Planning {
        replan := false;
        ctx := RunPlan(now);
      } else if s == Dispatching {
        ApplyDispatches(now);
      } else if s == Running {
        ApplyDispatches(now);
        fsm.ProcessEvent(Tick);
      }
    }

    method SetActorUnavailable(actor: ActorId, unavailable: bool)
      requires Valid()
      modifies this
      ensures Valid() && View() == Step(workflow, old(View()), SetUnavailable(actor, unavailable))
    {
      if unavailable {
        if actor !in ws.unavailable {
          ws := ws.(unavailable := ws.unavailable + [actor]);
          replan := true;
        }
      } else if actor in ws.unavailable {
        ws := ws.(unavailable := EraseFirst(ws.unavailable, actor));
        replan := true;
      }
    }

    /** Gives the task's demand back to its owner, with the code's clamp at zero. */
    method ReleaseOwner(t: TaskId)
      requires Valid()
      modifies this
      ensures Valid() && View() == Release(workflow, old(View()), t)
    {
      if t in ws.taskActor {
        var owner := ws.taskActor[t];
        if owner in registry && registry[owner].currentLoad > 0 {
          registry := registry[owner := registry[owner].(currentLoad :=
                                 Max(0, registry[owner].currentLoad - ProcessDemand(workflow, t)))];
          ws := ws.(actorLoad := ws.actorLoad[registry[owner].id := registry[owner].currentLoad]);
        }
        ws := ws.(taskActor := ws.taskActor - {t});
      }
    }

    method NotifyTaskFailed(t: TaskId, canResume: bool)
      requires Valid()
      modifies this
      ensures Valid() && View() == Step(workflow, old(View()), TaskFailed(t, canResume))
    {
      ws := ws.(inFlight := Erase(ws.inFlight, t), completed := Erase(ws.completed, t));
      ReleaseOwner(t);
      ws := ws.(unresumable := Erase(ws.unresumable, t), resumable := Erase(ws.resumable, t));
      if canResume {
        ws := ws.(resumable := ws.resumable + [t]);
        replan := true;
      } else {
        ws := ws.(unresumable := ws.unresumable + [t]);
      }
    }

    method NotifyTaskCompleted(t: TaskId, time: int)
      requires Valid()
      modifies this
      ensures Valid() && View() == Step(workflow, old(View()), TaskCompleted(t, time))
    {
      ws := ws.(inFlight := Erase(ws.inFlight, t));
      if t !in ws.completed {
        ws := ws.(completed := ws.completed + [t]);
      }
      ReleaseOwner(t);
      ws := ws.(actualCompletion := ws.actualCompletion[t := time]);
      replan := true;
    }

    method MarkTaskResumable(t: TaskId)
      requires Valid()
      modifies this
      ensures Valid() && View() == Step(workflow, old(View()), MarkResumable(t))
    {
      ws := ws.(unresumable := Erase(ws.unresumable, t));
      if t !in ws.resumable {
        ws := ws.(resumable := ws.resumable + [t]);
      }
      replan := true;
    }

    method MarkPhaseComplete(phase: PhaseId)
      requires Valid()
      modifies this, fsm
      ensures Valid() && View() == Step(workflow, old(View()), CompletePhase(phase))
    {
      if phase !in ws.completedPhases {
        ws := ws.(completedPhases := ws.completedPhases + [phase]);
      }
      fsm.ProcessEvent(PhaseComplete);
      if |ws.completedPhases| >= |workflow.phases| {
        fsm.ProcessEvent(AllPhasesComplete);
      }
    }
  }

  /** A planning call for the orchestrator's state, at some time. */
  ghost predicate PlansFor(w: Workflow, profile: seq<Criterion>, s: State, ctx: Context) {
    && ctx.workflow == w && ctx.st == s.ws && ctx.registry == s.registry && ctx.profile == profile
    && IsTable(w, s.ws, ctx.table)
  }

  ghost predicate IsScheduled(w: Workflow, strategy: Strategy, profile: seq<Criterion>, s: State, result: Schedule) {
    exists ctx :: PlansFor(w, profile, s, ctx) && IsPlan(ctx, strategy, result.ok, result.plan)
  }

  /** Every call that plans gets what the scheduler returns for the state it finds. */
  ghost predicate ScheduledRun(w: Workflow, strategy: Strategy, profile: seq<Criterion>, s: State, actions: seq<Action>) {
    actions == [] || (var head, last := actions[..|actions| - 1], actions[|actions| - 1];
                      && ScheduledRun(w, strategy, profile, s, head)
                      && (Plans(Run(w, s, head), last) ==>
                            IsScheduled(w, strategy, profile, Run(w, s, head), last.result)))
  }

  /** The schedule was made in some state of the run, and is safe for that state; with no negative demand it
      is maximal if no in-flight task was marked resumable before. */
  ghost predicate MadeSafely(w: Workflow, profile: seq<Criterion>, s: State, actions: seq<Action>, i: nat, plan: seq<Planned>) {
    i <= |actions| && exists ctx ::
      && PlansFor(w, profile, Run(w, s, actions[..i]), ctx)
      && Safe(ctx, plan)
      && (SchedulerRun.NonNegativeDemands(w) && MarksIdleOnly(w, s, actions[..i]) ==> Maximal(ctx, plan))
  }

  lemma ScheduledIsSafe(w: Workflow, strategy: Strategy, profile: seq<Criterion>, s: State, actions: seq<Action>, i: nat, result: Schedule)
    requires i <= |actions| && ResumableAreIdle(s) && ValidRegistry(Run(w, s, actions[..i]).registry)
    requires IsScheduled(w, strategy, profile, Run(w, s, actions[..i]), result) && result.ok
    ensures MadeSafely(w, profile, s, actions, i, result.plan)
  {
    var ctx :| PlansFor(w, profile, Run(w, s, actions[..i]), ctx) && IsPlan(ctx, strategy, result.ok, result.plan);
    if SchedulerRun.NonNegativeDemands(w) && MarksIdleOnly(w, s, actions[..i]) {
      RunKeepsResumableIdle(w, s, actions[..i]);
      assert ResumableAreNotInFlight(ctx.st);
      TableIsWellFormed(ctx);
    }
  }

  lemma {:induction false} DispatchKeepsRegistry(w: Workflow, s: State, plan: seq<Planned>, now: int)
    requires ValidRegistry(s.registry)
    ensures ValidRegistry(DispatchAll(w, s, plan, now).registry)
  {
    if plan != [] {
      DispatchKeepsRegistry(w, s, plan[..|plan| - 1], now);
    }
  }

  lemma ReleaseKeepsRegistry(w: Workflow, s: State, t: TaskId, next: State)
    requires ValidRegistry(s.registry) && next == Release(w, s, t)
    ensures ValidRegistry(next.registry)
  {
  }

  lemma StepKeepsRegistry(w: Workflow, s: State, a: Action, next: State)
    requires ValidRegistry(s.registry) && next == Step(w, s, a)
    ensures ValidRegistry(next.registry)
  {
    match a
    case TickAt(now, _) => DispatchKeepsRegistry(w, s, s.latest.plan, now);
    case TaskFailed(t, _) =>
      var erased := s.(ws := s.ws.(inFlight := Erase(s.ws.inFlight, t), completed := Erase(s.ws.completed, t)));
      ReleaseKeepsRegistry(w, erased, t, Release(w, erased, t));
    case TaskCompleted(t, _) =>
      var moved := s.(ws := s.ws.(inFlight := Erase(s.ws.inFlight, t),
                                  completed := if t in s.ws.completed then s.ws.completed else s.ws.completed + [t]));
      ReleaseKeepsRegistry(w, moved, t, Release(w, moved, t));
    case _ =>
  }

  lemma {:induction false} RunKeepsRegistry(w: Workflow, s: State, actions: seq<Action>)
    requires ValidRegistry(s.registry)
    ensures ValidRegistry(Run(w, s, actions).registry)
  {
    if actions != [] {
      var n := |actions| - 1;
      RunKeepsRegistry(w, s, actions[..n]);
      StepKeepsRegistry(w, Run(w, s, actions[..n]), actions[n], Run(w, s, actions));
    }
  }

  lemma OtherCallsKeepSchedule(w: Workflow, s: State, a: Action)
    requires !Plans(s, a)
    ensures Step(w, s, a).latest == s.latest
  {
    if a.TickAt? && s.started {
      DispatchKeepsSchedule(w, s, s.latest.plan, a.now);
    }
  }

  lemma {:induction false} DispatchKeepsSchedule(w: Workflow, s: State, plan: seq<Planned>, now: int)
    ensures DispatchAll(w, s, plan, now).latest == s.latest
  {
    if plan != [] {
      DispatchKeepsSchedule(w, s, plan[..|plan| - 1], now);
    }
  }

  /** The step that replaces the schedule takes over the result. */
  lemma PlanningTakesResult(w: Workflow, s: State, a: Action)
    requires Plans(s, a)
    ensures Step(w, s, a).latest == a.result
  {
  }

  lemma SafeInPrefix(w: Workflow, profile: seq<Criterion>, s: State, actions: seq<Action>, n: nat, i: nat, plan: seq<Planned>)
    requires n <= |actions| && MadeSafely(w, profile, s, actions[..n], i, plan)
    ensures MadeSafely(w, profile, s, actions, i, plan)
  {
    assert actions[..n][..i] == actions[..i];
  }

  /** At every point of every run, whatever tasks were marked resumable, an ok latest schedule is safe for
      the state it was made in. */
  lemma {:induction false} LatestScheduleIsSafe(w: Workflow, strategy: Strategy, profile: seq<Criterion>, registry: Registry,
                                                actions: seq<Action>) returns (i: nat)
    requires ValidRegistry(registry) && ScheduledRun(w, strategy, profile, Orchestration.Fresh(registry), actions)
    ensures var end := Run(w, Orchestration.Fresh(registry), actions);
            end.latest.ok ==> MadeSafely(w, profile, Orchestration.Fresh(registry), actions, i, end.latest.plan)
  {
    i := 0;
    if actions != [] {
      var s, n := Orchestration.Fresh(registry), |actions| - 1;
      var before := Run(w, s, actions[..n]);
      if Plans(before, actions[n]) {
        i := n;
        PlanningTakesResult(w, before, actions[n]);
        RunKeepsRegistry(w, s, actions[..n]);
        if actions[n].result.ok {
          ScheduledIsSafe(w, strategy, profile, s, actions, n, actions[n].result);
        }
      } else {
        OtherCallsKeepSchedule(w, before, actions[n]);
        i := LatestScheduleIsSafe(w, strategy, profile, registry, actions[..n]);
        if before.latest.ok {
          SafeInPrefix(w, profile, s, actions, n, i, before.latest.plan);
        }
      }
    }
  }
}
