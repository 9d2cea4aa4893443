/** What each call of the orchestrator does, on the fields of its state. */
module Dispatching {
  import opened Basics
  import opened SchedulerModel
  import opened SchedulerPlan
  import opened PlannerFsm
  import opened Orchestration

  // ---- the planner's state --------------------------------------------------------------------------------

  /** Where each event leads from each state the planner can be in. */
  lemma EventsMove(s: PlannerState)
    requires s != Completing
    ensures Next(s, StartPlanning) == Planning
    ensures Next(s, ScheduleReady) == if s == Planning then Dispatching else s
    ensures Next(s, DispatchComplete) == if s == Dispatching then Running else s
    ensures Next(s, PhaseComplete) == if s == Idle then Idle else Running
    ensures Next(s, AllPhasesComplete) == if s == Running then Idle else s
    ensures Next(s, Tick) == s
  {
  }

  // ---- dispatching ----------------------------------------------------------------------------------------

  /** The entry is due, and its task waits for nothing and is neither done nor given up. */
  ghost predicate Due(w: Workflow, ws: WorkflowState, p: Planned, now: int) {
    && p.start <= now
    && (p.task in w.processes ==> forall d :: d in w.processes[p.task].deps ==> d in ws.completed)
    && p.task !in ws.completed
    && p.task !in ws.unresumable
  }

  /** What is recorded when an entry is dispatched. */
  ghost predicate RecordsStart(w: Workflow, p: Planned, ws: WorkflowState) {
    && p.task in ws.taskActor && ws.taskActor[p.task] == p.actor
    && p.task in ws.plannedStart && ws.plannedStart[p.task] == p.start
    && p.task in ws.plannedEnd
    && ws.plannedEnd[p.task] == p.start + (if p.task in w.processes then w.processes[p.task].duration else 1)
  }

  /** Nothing is recorded anew about this task. */
  ghost predicate SameTask(before: WorkflowState, after: WorkflowState, t: TaskId) {
    && (t in after.taskActor <==> t in before.taskActor)
    && (t in after.taskActor ==> after.taskActor[t] == before.taskActor[t])
    && (t in after.plannedStart <==> t in before.plannedStart)
    && (t in after.plannedStart ==> after.plannedStart[t] == before.plannedStart[t])
    && (t in after.plannedEnd <==> t in before.plannedEnd)
    && (t in after.plannedEnd ==> after.plannedEnd[t] == before.plannedEnd[t])
  }

  /** In flight afterwards are the tasks that were, and exactly those with a due entry. */
  ghost predicate StartsDue(w: Workflow, before: WorkflowState, plan: seq<Planned>, now: int, after: WorkflowState) {
    forall t :: t in after.inFlight <==>
      t in before.inFlight || exists p :: p in plan && p.task == t && Due(w, before, p, now)
  }

  /** Each task that was started is recorded with a due entry, and nothing else is recorded. */
  ghost predicate RecordsDue(w: Workflow, before: WorkflowState, plan: seq<Planned>, now: int, after: WorkflowState) {
    forall t :: if t in after.inFlight && t !in before.inFlight
                then exists p :: p in plan && p.task == t && Due(w, before, p, now) && RecordsStart(w, p, after)
                else SameTask(before, after, t)
  }

  /** A started task is no longer marked resumable; the other lists stay. */
  ghost predicate KeepsLists(before: WorkflowState, after: WorkflowState) {
    && after.completed == before.completed && after.completedPhases == before.completedPhases
    && after.unavailable == before.unavailable && after.actualCompletion == before.actualCompletion
    && (forall t :: t in after.unresumable <==> t in before.unresumable)
    && (forall t :: t in after.resumable <==> t in before.resumable && (t in before.inFlight || t !in after.inFlight))
  }

  ghost predicate Dispatched(w: Workflow, before: State, plan: seq<Planned>, now: int, after: State) {
    && after == before.(registry := after.registry, ws := after.ws)
    && StartsDue(w, before.ws, plan, now, after.ws)
    && RecordsDue(w, before.ws, plan, now, after.ws)
    && KeepsLists(before.ws, after.ws)
  }

  lemma DispatchableIsDue(w: Workflow, before: WorkflowState, after: WorkflowState, p: Planned, now: int)
    requires KeepsLists(before, after)
    ensures Dispatchable(w, after, p, now) <==> Due(w, before, p, now) && p.task !in after.inFlight
  {
  }

  lemma MoreEntries(w: Workflow, ws: WorkflowState, plan: seq<Planned>, p: Planned, now: int, t: TaskId)
    ensures (exists q :: q in plan + [p] && q.task == t && Due(w, ws, q, now)) <==>
            (exists q :: q in plan && q.task == t && Due(w, ws, q, now)) || (p.task == t && Due(w, ws, p, now))
  {
    if q :| q in plan && q.task == t && Due(w, ws, q, now) {
      assert q in plan + [p];
    }
    assert p in plan + [p];
  }

  lemma StartsOneMore(w: Workflow, before: WorkflowState, plan: seq<Planned>, p: Planned, now: int,
                      after: WorkflowState, next: WorkflowState)
    requires StartsDue(w, before, plan, now, after)
    requires next.inFlight == if Due(w, before, p, now) && p.task !in after.inFlight then after.inFlight + [p.task] else after.inFlight
    ensures StartsDue(w, before, plan + [p], now, next)
  {
    forall t ensures t in next.inFlight <==>
      t in before.inFlight || exists q :: q in plan + [p] && q.task == t && Due(w, before, q, now) {
      MoreEntries(w, before, plan, p, now, t);
    }
  }

  lemma RecordsOneMore(w: Workflow, before: WorkflowState, plan: seq<Planned>, p: Planned, now: int,
                       after: WorkflowState, next: WorkflowState)
    requires RecordsDue(w, before, plan, now, after) && StartsDue(w, before, plan, now, after)
    requires if Due(w, before, p, now) && p.task !in after.inFlight
             then next.inFlight == after.inFlight + [p.task] && RecordsStart(w, p, next)
                  && forall t :: t != p.task ==> SameTask(after, next, t)
             else next == after
    ensures RecordsDue(w, before, plan + [p], now, next)
  {
    forall t: TaskId ensures if t in next.inFlight && t !in before.inFlight
                     then exists q :: q in plan + [p] && q.task == t && Due(w, before, q, now) && RecordsStart(w, q, next)
                     else SameTask(before, next, t) {
      assert t != p.task || next == after ==> SameTask(after, next, t);
      if t == p.task && Due(w, before, p, now) && p.task !in after.inFlight {
        assert p in plan + [p];
      } else if t in after.inFlight && t !in before.inFlight {
        var q :| q in plan && q.task == t && Due(w, before, q, now) && RecordsStart(w, q, after);
        assert q in plan + [p] && RecordsStart(w, q, next);
      }
    }
  }

  lemma DispatchesOneMore(w: Workflow, before: State, plan: seq<Planned>, p: Planned, now: int, after: State, next: State)
    requires Dispatched(w, before, plan, now, after) && next == DispatchOne(w, after, p, now)
    ensures Dispatched(w, before, plan + [p], now, next)
  {
    DispatchableIsDue(w, before.ws, after.ws, p, now);
    StartsOneMore(w, before.ws, plan, p, now, after.ws, next.ws);
    RecordsOneMore(w, before.ws, plan, p, now, after.ws, next.ws);
  }

  lemma {:induction false} AllDispatched(w: Workflow, s: State, plan: seq<Planned>, now: int, next: State)
    requires next == DispatchAll(w, s, plan, now)
    ensures Dispatched(w, s, plan, now, next)
  {
    if plan != [] {
      var n := |plan| - 1;
      assert plan == plan[..n] + [plan[n]];
      var before := DispatchAll(w, s, plan[..n], now);
      AllDispatched(w, s, plan[..n], now, before);
      DispatchesOneMore(w, s, plan[..n], plan[n], now, before, next);
    }
  }

  /** A task is started exactly if it was not running and the latest schedule has an entry for it that is due,
      with every dependency of its process completed and the task neither completed nor given up. */
  lemma DispatchInFields(w: Workflow, s: State, now: int, next: State, t: TaskId)
    requires next == ApplyDispatch(w, s, now) && s.fsm != Completing
    ensures t in next.ws.inFlight <==>
              || t in s.ws.inFlight
              || exists p :: && p in s.latest.plan && p.task == t && p.start <= now
                             && (t in w.processes ==> forall d :: d in w.processes[t].deps ==> d in s.ws.completed)
                             && t !in s.ws.completed && t !in s.ws.unresumable
    ensures next.ws.completed == s.ws.completed && next.latest == s.latest && next.replan == s.replan
    ensures next.started == s.started && next.fsm == if s.fsm == Dispatching then Running else s.fsm
  {
    var done := DispatchAll(w, s, s.latest.plan, now);
    AllDispatched(w, s, s.latest.plan, now, done);
    EventsMove(s.fsm);
    assert StartsDue(w, s.ws, s.latest.plan, now, done.ws);
    if t in next.ws.inFlight && t !in s.ws.inFlight {
      var p :| p in s.latest.plan && p.task == t && Due(w, s.ws, p, now);
    }
    if p :| p in s.latest.plan && p.task == t && p.start <= now
            && (t in w.processes ==> forall d :: d in w.processes[t].deps ==> d in s.ws.completed)
            && t !in s.ws.completed && t !in s.ws.unresumable {
      assert Due(w, s.ws, p, now);
    }
  }

  /** It goes to the actor, and is expected to run for the time, that one such entry says. */
  lemma DispatchRecords(w: Workflow, s: State, now: int, next: State, t: TaskId)
    requires next == ApplyDispatch(w, s, now) && t in next.ws.inFlight && t !in s.ws.inFlight
    ensures t !in next.ws.resumable && t in next.ws.taskActor && t in next.ws.plannedStart && t in next.ws.plannedEnd
    ensures next.ws.plannedEnd[t] == next.ws.plannedStart[t] + (if t in w.processes then w.processes[t].duration else 1)
    ensures Planned(t, next.ws.taskActor[t], next.ws.plannedStart[t]) in s.latest.plan && next.ws.plannedStart[t] <= now
  {
    var done := DispatchAll(w, s, s.latest.plan, now);
    AllDispatched(w, s, s.latest.plan, now, done);
    var p :| p in s.latest.plan && p.task == t && Due(w, s.ws, p, now) && RecordsStart(w, p, done.ws);
  }

  // ---- ticks ----------------------------------------------------------------------------------------------

  /** A tick plans when the planner waits for a plan, is idle, or was asked to plan again; otherwise it
      dispatches. Before the start it does nothing. */
  lemma TickInFields(w: Workflow, s: State, now: int, result: Schedule, next: State)
    requires next == Step(w, s, TickAt(now, result)) && s.fsm != Completing
    ensures !s.started ==> next == s
    ensures s.started && (s.fsm == Idle || s.fsm == Planning || s.replan) ==>
              && next.latest == result && !next.replan && next.ws == s.ws && next.registry == s.registry && next.started
              && next.fsm == (if result.ok && result.plan != [] then Dispatching else Planning)
    ensures s.started && !s.replan && (s.fsm == Dispatching || s.fsm == Running) ==>
              && next.fsm == Running
              && next.(fsm := s.fsm) == ApplyDispatch(w, s, now).(fsm := s.fsm)
  {
    EventsMove(s.fsm);
    EventsMove(Planning);
    EventsMove(Running);
    AllDispatched(w, s, s.latest.plan, now, DispatchAll(w, s, s.latest.plan, now));
  }

  /** The start plans at once. */
  lemma StartInFields(w: Workflow, s: State, result: Schedule, next: State)
    requires next == Step(w, s, Start(result)) && s.fsm != Completing
    ensures next.started && next.latest == result && next.replan == s.replan && next.ws == s.ws && next.registry == s.registry
    ensures next.fsm == if result.ok && result.plan != [] then Dispatching else Planning
  {
    EventsMove(s.fsm);
    EventsMove(Planning);
  }

  // ---- reports about tasks --------------------------------------------------------------------------------

  /** The lists say the same of every other task. */
  ghost predicate OthersStay(before: WorkflowState, after: WorkflowState, t: TaskId) {
    forall u :: u != t ==>
      && (u in after.inFlight <==> u in before.inFlight)
      && (u in after.completed <==> u in before.completed)
      && (u in after.resumable <==> u in before.resumable)
      && (u in after.unresumable <==> u in before.unresumable)
      && (u in after.taskActor <==> u in before.taskActor)
      && (u in after.taskActor ==> after.taskActor[u] == before.taskActor[u])
      && (u in after.actualCompletion <==> u in before.actualCompletion)
      && (u in after.actualCompletion ==> after.actualCompletion[u] == before.actualCompletion[u])
  }

  /** What both reports leave alone. */
  ghost predicate PlannerStays(before: State, after: State) {
    && after.latest == before.latest && after.started == before.started && after.fsm == before.fsm
    && after.ws.completedPhases == before.ws.completedPhases && after.ws.unavailable == before.ws.unavailable
    && after.ws.plannedStart == before.ws.plannedStart && after.ws.plannedEnd == before.ws.plannedEnd
  }

  /** Giving back a task's load takes away its owner and touches no list. */
  lemma ReleaseInFields(w: Workflow, s: State, t: TaskId, next: State)
    requires next == Release(w, s, t)
    ensures next == s.(registry := next.registry,
                       ws := s.ws.(taskActor := next.ws.taskActor, actorLoad := next.ws.actorLoad))
    ensures next.ws.taskActor == s.ws.taskActor - {t}
  {
  }

  /** A failed task is neither running nor done and has no owner; it may be planned again if and only if it can
      resume, and then a new plan is asked for. */
  lemma FailureInFields(w: Workflow, s: State, t: TaskId, canResume: bool, next: State)
    requires next == Step(w, s, TaskFailed(t, canResume))
    ensures t !in next.ws.inFlight && t !in next.ws.completed && t !in next.ws.taskActor
    ensures t in next.ws.resumable <==> canResume
    ensures t in next.ws.unresumable <==> !canResume
    ensures next.replan <==> s.replan || canResume
    ensures OthersStay(s.ws, next.ws, t) && PlannerStays(s, next)
  {
    var erased := s.(ws := s.ws.(inFlight := Erase(s.ws.inFlight, t), completed := Erase(s.ws.completed, t)));
    ReleaseInFields(w, erased, t, Release(w, erased, t));
  }

  /** A completed task is done at the reported time and has no owner, and a new plan is asked for. */
  lemma CompletionInFields(w: Workflow, s: State, t: TaskId, time: int, next: State)
    requires next == Step(w, s, TaskCompleted(t, time))
    ensures t !in next.ws.inFlight && t in next.ws.completed && t !in next.ws.taskActor
    ensures t in next.ws.actualCompletion && next.ws.actualCompletion[t] == time
    ensures t in next.ws.resumable <==> t in s.ws.resumable
    ensures t in next.ws.unresumable <==> t in s.ws.unresumable
    ensures next.replan && OthersStay(s.ws, next.ws, t) && PlannerStays(s, next)
  {
    var moved := s.(ws := s.ws.(inFlight := Erase(s.ws.inFlight, t),
                                completed := if t in s.ws.completed then s.ws.completed else s.ws.completed + [t]));
    ReleaseInFields(w, moved, t, Release(w, moved, t));
  }

  /** A mark makes a task resumable and asks for a new plan; a running task goes on running. */
  lemma MarkInFields(w: Workflow, s: State, t: TaskId, next: State)
    requires next == Step(w, s, MarkResumable(t))
    ensures t in next.ws.resumable && t !in next.ws.unresumable && next.replan && next.registry == s.registry
    ensures next.ws.inFlight == s.ws.inFlight && next.ws.completed == s.ws.completed && next.ws.taskActor == s.ws.taskActor
    ensures OthersStay(s.ws, next.ws, t) && PlannerStays(s, next)
  {
  }

  // ---- availability and phases ----------------------------------------------------------------------------

  lemma {:induction false} EraseFirstOfDistinct(s: seq<ActorId>, x: ActorId)
    requires Distinct(s)
    ensures Distinct(EraseFirst(s, x)) && forall y :: y in EraseFirst(s, x) <==> y in s && y != x
  {
    if s != [] {
      assert s == [s[0]] + s[1..];
      if s[0] == x {
        assert forall y :: y in s[1..] ==> y != x;
      } else {
        EraseFirstOfDistinct(s[1..], x);
        assert s[0] !in s[1..];
      }
    }
  }

  lemma AvailabilityList(before: seq<ActorId>, actor: ActorId, unavailable: bool, after: seq<ActorId>)
    requires Distinct(before)
    requires after == if unavailable && actor !in before then before + [actor]
                      else if !unavailable && actor in before then EraseFirst(before, actor) else before
    ensures Distinct(after) && forall a :: a in after <==> if a == actor then unavailable else a in before
  {
    EraseFirstOfDistinct(before, actor);
  }

  /** The list holds the actor exactly if it was reported unavailable last, and a change asks for a new plan. */
  lemma AvailabilityInFields(w: Workflow, s: State, actor: ActorId, unavailable: bool, next: State)
    requires next == Step(w, s, SetUnavailable(actor, unavailable)) && Distinct(s.ws.unavailable)
    ensures Distinct(next.ws.unavailable)
    ensures forall a :: a in next.ws.unavailable <==> if a == actor then unavailable else a in s.ws.unavailable
    ensures next.replan <==> s.replan || (actor in s.ws.unavailable) != unavailable
    ensures next == s.(replan := next.replan, ws := s.ws.(unavailable := next.ws.unavailable))
  {
    AvailabilityList(s.ws.unavailable, actor, unavailable, next.ws.unavailable);
  }

  /** A phase is completed once; the planner rests after the last phase and runs on before. */
  lemma PhaseInFields(w: Workflow, s: State, phase: PhaseId, next: State)
    requires next == Step(w, s, CompletePhase(phase)) && s.fsm != Completing
    ensures forall p :: p in next.ws.completedPhases <==> p in s.ws.completedPhases || p == phase
    ensures Distinct(s.ws.completedPhases) ==> Distinct(next.ws.completedPhases)
    ensures next.fsm == if s.fsm == Idle || |next.ws.completedPhases| >= |w.phases| then Idle else Running
    ensures next == s.(fsm := next.fsm, ws := s.ws.(completedPhases := next.ws.completedPhases))
  {
    EventsMove(s.fsm);
    EventsMove(Next(s.fsm, PhaseComplete));
  }
}
