/** The orchestrator's state as a value: what each notification and tick does to it, and what holds
    over every run. */
module Orchestration {
  import opened Basics
  import opened SchedulerModel
  import opened SchedulerPlan
  import opened PlannerFsm

  datatype Schedule = Schedule(ok: bool, plan: seq<Planned>)

  datatype State = State(
    registry: Registry, ws: WorkflowState, latest: Schedule, started: bool, replan: bool, fsm: PlannerState)

  /** A call from outside; where the call plans, `result` is what the scheduler returned. */
  datatype Action =
    | Start(result: Schedule)
    | TickAt(now: int, result: Schedule)
    | SetUnavailable(actor: ActorId, unavailable: bool)
    | TaskFailed(task: TaskId, canResume: bool)
    | TaskCompleted(task: TaskId, time: int)
    | MarkResumable(task: TaskId)
    | CompletePhase(phase: PhaseId)

  // ---- the steps ------------------------------------------------------------------------------------------------

  function Erase<T(==, !new)>(s: seq<T>, x: T): (r: seq<T>)
    ensures forall y :: y in r <==> y in s && y != x
  {
    if s == [] then []
    else
      var n := |s| - 1;
      assert s == s[..n] + [s[n]];
      if s[n] == x then Erase(s[..n], x) else Erase(s[..n], x) + [s[n]]
  }

  function RunPlanning(s: State, result: Schedule): State {
    var planned := s.(latest := result);
    if result.ok && result.plan != [] then planned.(fsm := Next(s.fsm, ScheduleReady)) else planned
  }

  predicate DependenciesCompleted(w: Workflow, ws: WorkflowState, t: TaskId) {
    t !in w.processes || forall d :: d in w.processes[t].deps ==> d in ws.completed
  }

  predicate Dispatchable(w: Workflow, ws: WorkflowState, p: Planned, now: int) {
    && p.start <= now
    && DependenciesCompleted(w, ws, p.task)
    && p.task !in ws.completed
    && p.task !in ws.inFlight
    && p.task !in ws.unresumable
  }

  function AddLoad(registry: Registry, actor: ActorId, demand: int): Registry {
    if actor in registry then registry[actor := registry[actor].(currentLoad := registry[actor].currentLoad + demand)]
    else registry
  }

  function DispatchOne(w: Workflow, s: State, p: Planned, now: int): State {
    if !Dispatchable(w, s.ws, p, now) then s
    else
      var registry := AddLoad(s.registry, p.actor, ProcessDemand(w, p.task));
      s.(registry := registry,
         ws := s.ws.(inFlight := s.ws.inFlight + [p.task],
                     resumable := Erase(s.ws.resumable, p.task),
                     unresumable := Erase(s.ws.unresumable, p.task),
                     taskActor := s.ws.taskActor[p.task := p.actor],
                     actorLoad := s.ws.actorLoad[p.actor := if p.actor in registry then registry[p.actor].currentLoad else 0],
                     plannedStart := s.ws.plannedStart[p.task := p.start],
                     plannedEnd := s.ws.plannedEnd[p.task := p.start + ProcessDuration(w, p.task)]))
  }

  function DispatchAll(w: Workflow, s: State, plan: seq<Planned>, now: int): State {
    if plan == [] then s else DispatchOne(w, DispatchAll(w, s, plan[..|plan| - 1], now), plan[|plan| - 1], now)
  }

  function ApplyDispatch(w: Workflow, s: State, now: int): State {
    var done := DispatchAll(w, s, s.latest.plan, now);
    if done.fsm == Dispatching then done.(fsm := Next(done.fsm, DispatchComplete)) else done
  }

  /** Gives back the load of a task whose owner is known; the clamp at zero is the code's. */
  function Release(w: Workflow, s: State, t: TaskId): State {
    if t !in s.ws.taskActor then s
    else
      var owner := s.ws.taskActor[t];
      var freed := s.(ws := s.ws.(taskActor := s.ws.taskActor - {t}));
      if owner in s.registry && s.registry[owner].currentLoad > 0 then
        var load := Max(0, s.registry[owner].currentLoad - ProcessDemand(w, t));
        freed.(registry := s.registry[owner := s.registry[owner].(currentLoad := load)],
               ws := freed.ws.(actorLoad := s.ws.actorLoad[s.registry[owner].id := load]))
      else freed
  }

  function Fail(w: Workflow, s: State, t: TaskId, canResume: bool): State {
    var erased := s.(ws := s.ws.(inFlight := Erase(s.ws.inFlight, t), completed := Erase(s.ws.completed, t)));
    var r := Release(w, erased, t);
    var resumable, unresumable := Erase(r.ws.resumable, t), Erase(r.ws.unresumable, t);
    if canResume then
      r.(ws := r.ws.(resumable := resumable + [t], unresumable := unresumable), replan := true)
    else
      r.(ws := r.ws.(resumable := resumable, unresumable := unresumable + [t]))
  }

  function Complete(w: Workflow, s: State, t: TaskId, time: int): State {
    var moved := s.(ws := s.ws.(inFlight := Erase(s.ws.inFlight, t),
                                completed := if t in s.ws.completed then s.ws.completed else s.ws.completed + [t]));
    var r := Release(w, moved, t);
    r.(ws := r.ws.(actualCompletion := r.ws.actualCompletion[t := time]), replan := true)
  }

  function Resume(s: State, t: TaskId): State {
    s.(ws := s.ws.(unresumable := Erase(s.ws.unresumable, t),
                   resumable := if t in s.ws.resumable then s.ws.resumable else s.ws.resumable + [t]),
       replan := true)
  }

  /** `erase(it)`: only the first occurrence goes. */
  function EraseFirst<T(==)>(s: seq<T>, x: T): seq<T> {
    if s == [] then [] else if s[0] == x then s[1..] else [s[0]] + EraseFirst(s[1..], x)
  }

  function Unavailable(s: State, actor: ActorId, unavailable: bool): State {
    if unavailable && actor !in s.ws.unavailable then
      s.(ws := s.ws.(unavailable := s.ws.unavailable + [actor]), replan := true)
    else if !unavailable && actor in s.ws.unavailable then
      s.(ws := s.ws.(unavailable := EraseFirst(s.ws.unavailable, actor)), replan := true)
    else s
  }

  function FinishPhase(w: Workflow, s: State, phase: PhaseId): State {
    var completed := if phase in s.ws.completedPhases then s.ws.completedPhases else s.ws.completedPhases + [phase];
    var after := Next(s.fsm, PhaseComplete);
    s.(ws := s.ws.(completedPhases := completed),
       fsm := if |completed| >= |w.phases| then Next(after, AllPhasesComplete) else after)
  }

  /** Whether a call reaches the scheduler. */
  predicate Plans(s: State, a: Action) {
    a.Start? || (a.TickAt? && s.started && ((s.replan && s.fsm != Planning) || s.fsm == Idle || s.fsm == Planning))
  }

  function Step(w: Workflow, s: State, a: Action): State {
    match a
    case Start(result) => RunPlanning(s.(started := true, fsm := Next(s.fsm, StartPlanning)), result)
    case TickAt(now, result) =>
      if !s.started then s
      else if (s.replan && s.fsm != Planning) || s.fsm == Idle then
        RunPlanning(s.(fsm := Next(s.fsm, StartPlanning), replan := false), result)
      else if s.fsm == Planning then RunPlanning(s.(replan := false), result)
      else if s.fsm == Dispatching then ApplyDispatch(w, s, now)
      else if s.fsm == Running then
        var done := ApplyDispatch(w, s, now);
        done.(fsm := Next(done.fsm, Tick))
      else s
    case SetUnavailable(actor, unavailable) => Unavailable(s, actor, unavailable)
    case TaskFailed(t, canResume) => Fail(w, s, t, canResume)
    case TaskCompleted(t, time) => Complete(w, s, t, time)
    case MarkResumable(t) => Resume(s, t)
    case CompletePhase(phase) => FinishPhase(w, s, phase)
  }

  function Run(w: Workflow, s: State, actions: seq<Action>): State {
    if actions == [] then s else Step(w, Run(w, s, actions[..|actions| - 1]), actions[|actions| - 1])
  }

  // ---- load conservation -----------------------------------------------------------------------------------------

  /** Demand of a task if the actor owns it. */
  function OwnedShare(w: Workflow, owners: map<TaskId, ActorId>, actor: ActorId): TaskId -> int {
    (t: TaskId) => if t in owners && owners[t] == actor then ProcessDemand(w, t) else 0
  }

  /** Demand of the tasks an actor owns. */
  function Owned(w: Workflow, ws: WorkflowState, actor: ActorId): int {
    SumBy(ws.inFlight, OwnedShare(w, ws.taskActor, actor))
  }

  /** In-flight tasks are listed once and are exactly the ones with an owner. */
  ghost predicate OwnersMatch(ws: WorkflowState) {
    Distinct(ws.inFlight) && forall t :: t in ws.inFlight <==> t in ws.taskActor
  }

  ghost predicate LoadsConserved(w: Workflow, initial: map<ActorId, int>, s: State) {
    && s.registry.Keys == initial.Keys
    && (forall a :: a in initial ==> s.registry[a].currentLoad == initial[a] + Owned(w, s.ws, a))
  }

  /** The load override of the scheduler shows the registry's load. */
  ghost predicate LoadsMirrored(s: State) {
    forall a :: a in s.ws.actorLoad ==>
      s.ws.actorLoad[a] == if a in s.registry then s.registry[a].currentLoad else 0
  }

  ghost predicate SetsApart(ws: WorkflowState) {
    && (forall t :: t in ws.inFlight ==> t !in ws.completed && t !in ws.unresumable)
    && (forall t :: t in ws.resumable ==> t !in ws.unresumable)
  }

  ghost predicate ScheduleMatchesState(s: State) {
    Reachable(s.fsm) && (s.fsm == Dispatching ==> s.latest.ok && s.latest.plan != [])
  }

  ghost predicate Invariant(w: Workflow, initial: map<ActorId, int>, s: State) {
    && ValidRegistry(s.registry)
    && OwnersMatch(s.ws)
    && LoadsConserved(w, initial, s)
    && LoadsMirrored(s)
    && SetsApart(s.ws)
    && ScheduleMatchesState(s)
  }

  ghost predicate NonNegative(w: Workflow, initial: map<ActorId, int>) {
    && (forall t :: t in w.processes ==> w.processes[t].demand >= 0)
    && (forall a :: a in initial ==> initial[a] >= 0)
  }

  lemma {:induction false} SumByExtensional<T(!new)>(s: seq<T>, v: T -> int, u: T -> int)
    requires forall x :: x in s ==> v(x) == u(x)
    ensures SumBy(s, v) == SumBy(s, u)
  {
    if s != [] {
      var n := |s| - 1;
      assert s == s[..n] + [s[n]] && forall x :: x in s[..n] ==> x in s;
      SumByExtensional(s[..n], v, u);
      assert s[n] in s;
    }
  }

  lemma {:induction false} SumByNonNegative<T(!new)>(s: seq<T>, v: T -> int)
    requires forall x :: x in s ==> v(x) >= 0
    ensures SumBy(s, v) >= 0
  {
    if s != [] {
      var n := |s| - 1;
      assert forall x :: x in s[..n] ==> x in s;
      SumByNonNegative(s[..n], v);
      assert s[n] in s;
    }
  }

  lemma {:induction false} EraseDistinct<T(!new)>(s: seq<T>, x: T)
    requires Distinct(s)
    ensures Distinct(Erase(s, x))
  {
    if s != [] {
      var n := |s| - 1;
      EraseDistinct(s[..n], x);
      if s[n] != x {
        assert s[n] !in s[..n];
        assert s[n] !in Erase(s[..n], x);
      }
    }
  }

  /** Erasing an entry of a duplicate-free list takes away exactly its share. */
  lemma {:induction false} EraseSum<T(!new)>(s: seq<T>, x: T, v: T -> int)
    requires Distinct(s)
    ensures SumBy(Erase(s, x), v) == SumBy(s, v) - (if x in s then v(x) else 0)
  {
    if s != [] {
      var n := |s| - 1;
      assert s == s[..n] + [s[n]];
      EraseSum(s[..n], x, v);
      if s[n] == x {
        assert x !in s[..n];
      } else {
        SumByAppend(Erase(s[..n], x), s[n], v);
      }
    }
  }

  /** Taking a task away from its owner. */
  lemma OwnedAfterErase(w: Workflow, before: WorkflowState, after: WorkflowState, t: TaskId, actor: ActorId)
    requires OwnersMatch(before) && after.inFlight == Erase(before.inFlight, t) && after.taskActor == before.taskActor - {t}
    ensures Owned(w, after, actor)
         == Owned(w, before, actor) - (if t in before.taskActor && before.taskActor[t] == actor then ProcessDemand(w, t) else 0)
  {
    var v, u := OwnedShare(w, before.taskActor, actor), OwnedShare(w, after.taskActor, actor);
    EraseSum(before.inFlight, t, v);
    SumByExtensional(after.inFlight, v, u);
  }

  lemma OwnedAfterDispatch(w: Workflow, before: WorkflowState, after: WorkflowState, p: Planned, actor: ActorId)
    requires OwnersMatch(before) && p.task !in before.inFlight
    requires after.inFlight == before.inFlight + [p.task] && after.taskActor == before.taskActor[p.task := p.actor]
    ensures Owned(w, after, actor) == Owned(w, before, actor) + (if p.actor == actor then ProcessDemand(w, p.task) else 0)
  {
    var v, u := OwnedShare(w, before.taskActor, actor), OwnedShare(w, after.taskActor, actor);
    SumByAppend(before.inFlight, p.task, u);
    SumByExtensional(before.inFlight, v, u);
  }

  lemma OwnedNonNegative(w: Workflow, initial: map<ActorId, int>, ws: WorkflowState, actor: ActorId)
    requires NonNegative(w, initial)
    ensures Owned(w, ws, actor) >= 0
  {
    SumByNonNegative(ws.inFlight, OwnedShare(w, ws.taskActor, actor));
  }

  // ---- every step keeps the invariant -----------------------------------------------------------------------------

  /** The fields a dispatch changes. */
  lemma DispatchShape(w: Workflow, s: State, p: Planned, now: int, next: State)
    requires next == DispatchOne(w, s, p, now) && Dispatchable(w, s.ws, p, now)
    ensures next.ws.inFlight == s.ws.inFlight + [p.task] && next.ws.taskActor == s.ws.taskActor[p.task := p.actor]
    ensures next.ws.completed == s.ws.completed
    ensures next.ws.resumable == Erase(s.ws.resumable, p.task) && next.ws.unresumable == Erase(s.ws.unresumable, p.task)
    ensures next.registry == AddLoad(s.registry, p.actor, ProcessDemand(w, p.task))
    ensures next.ws.actorLoad
         == s.ws.actorLoad[p.actor := if p.actor in next.registry then next.registry[p.actor].currentLoad else 0]
    ensures next.latest == s.latest && next.fsm == s.fsm
  {
  }

  lemma DispatchOwners(before: WorkflowState, after: WorkflowState, p: Planned)
    requires OwnersMatch(before) && p.task !in before.inFlight
    requires after.inFlight == before.inFlight + [p.task] && after.taskActor == before.taskActor[p.task := p.actor]
    ensures OwnersMatch(after)
  {
  }

  lemma DispatchSets(before: WorkflowState, after: WorkflowState, p: Planned)
    requires SetsApart(before) && p.task !in before.completed && p.task !in before.unresumable
    requires after.inFlight == before.inFlight + [p.task] && after.completed == before.completed
    requires after.resumable == Erase(before.resumable, p.task) && after.unresumable == Erase(before.unresumable, p.task)
    ensures SetsApart(after)
  {
  }

  lemma DispatchMirrors(s: State, p: Planned, demand: int, next: State)
    requires ValidRegistry(s.registry) && LoadsMirrored(s) && next.registry == AddLoad(s.registry, p.actor, demand)
    requires next.ws.actorLoad
          == s.ws.actorLoad[p.actor := if p.actor in next.registry then next.registry[p.actor].currentLoad else 0]
    ensures ValidRegistry(next.registry) && LoadsMirrored(next) && next.registry.Keys == s.registry.Keys
  {
  }

  lemma DispatchOneKeeps(w: Workflow, initial: map<ActorId, int>, s: State, p: Planned, now: int, next: State)
    requires Invariant(w, initial, s) && next == DispatchOne(w, s, p, now)
    ensures Invariant(w, initial, next) && next.latest == s.latest && next.fsm == s.fsm
  {
    if Dispatchable(w, s.ws, p, now) {
      DispatchShape(w, s, p, now, next);
      DispatchOwners(s.ws, next.ws, p);
      DispatchSets(s.ws, next.ws, p);
      DispatchMirrors(s, p, ProcessDemand(w, p.task), next);
      forall a | a in initial ensures next.registry[a].currentLoad == initial[a] + Owned(w, next.ws, a) {
        OwnedAfterDispatch(w, s.ws, next.ws, p, a);
      }
    }
  }

  lemma {:induction false} DispatchAllKeeps(w: Workflow, initial: map<ActorId, int>, s: State, plan: seq<Planned>, now: int)
    requires Invariant(w, initial, s)
    ensures Invariant(w, initial, DispatchAll(w, s, plan, now))
    ensures DispatchAll(w, s, plan, now).latest == s.latest && DispatchAll(w, s, plan, now).fsm == s.fsm
  {
    if plan != [] {
      var n := |plan| - 1;
      DispatchAllKeeps(w, initial, s, plan[..n], now);
      DispatchOneKeeps(w, initial, DispatchAll(w, s, plan[..n], now), plan[n], now, DispatchAll(w, s, plan, now));
    }
  }

  lemma DispatchKeeps(w: Workflow, initial: map<ActorId, int>, s: State, now: int, next: State)
    requires Invariant(w, initial, s) && next == ApplyDispatch(w, s, now)
    ensures Invariant(w, initial, next)
  {
    var done := DispatchAll(w, s, s.latest.plan, now);
    DispatchAllKeeps(w, initial, s, s.latest.plan, now);
    assert next == done.(fsm := next.fsm);
    assert next.ws == done.ws && next.registry == done.registry;
  }

  /** What is left of the invariant while a task is being taken out: only its owner entry is due. */
  ghost predicate Detached(w: Workflow, initial: map<ActorId, int>, before: State, s: State, t: TaskId) {
    && Invariant(w, initial, before)
    && s.registry == before.registry
    && s.ws.inFlight == Erase(before.ws.inFlight, t)
    && s.ws.taskActor == before.ws.taskActor
    && s.ws.actorLoad == before.ws.actorLoad
  }

  /** The clamp at zero never cuts anything off: what is given back was there. */
  lemma ClampNeverTruncates(w: Workflow, initial: map<ActorId, int>, s: State, t: TaskId)
    requires NonNegative(w, initial) && Invariant(w, initial, s) && t in s.ws.taskActor && s.ws.taskActor[t] in s.registry
    ensures s.registry[s.ws.taskActor[t]].currentLoad >= ProcessDemand(w, t) >= 0
  {
    var owner := s.ws.taskActor[t];
    var rest := s.ws.(inFlight := Erase(s.ws.inFlight, t), taskActor := s.ws.taskActor - {t});
    OwnedAfterErase(w, s.ws, rest, t, owner);
    OwnedNonNegative(w, initial, rest, owner);
  }

  lemma ReleaseShape(w: Workflow, s: State, t: TaskId, next: State)
    requires next == Release(w, s, t)
    ensures next.ws.inFlight == s.ws.inFlight && next.ws.taskActor == s.ws.taskActor - {t}
    ensures next == s.(registry := next.registry, ws := s.ws.(taskActor := next.ws.taskActor, actorLoad := next.ws.actorLoad))
  {
    if t !in s.ws.taskActor {
      assert s.ws.taskActor - {t} == s.ws.taskActor;
    }
  }

  /** What the registry shows for one actor after a release. */
  lemma ReleaseLoad(w: Workflow, initial: map<ActorId, int>, before: State, s: State, t: TaskId, next: State, a: ActorId)
    requires NonNegative(w, initial) && Detached(w, initial, before, s, t) && next == Release(w, s, t) && a in initial
    ensures a in next.registry && next.registry[a].id == a
    ensures next.registry[a].currentLoad == before.registry[a].currentLoad -
            (if t in before.ws.taskActor && before.ws.taskActor[t] == a then ProcessDemand(w, t) else 0)
  {
    if t in before.ws.taskActor && before.ws.taskActor[t] == a {
      ClampNeverTruncates(w, initial, before, t);
    }
  }

  lemma MirrorsAfterChange(s: State, owner: ActorId, load: int, next: State)
    requires LoadsMirrored(s) && owner in s.registry
    requires next.registry == s.registry[owner := s.registry[owner].(currentLoad := load)]
    requires next.ws.actorLoad == s.ws.actorLoad[owner := load]
    ensures LoadsMirrored(next)
  {
  }

  lemma MirrorsSame(s: State, next: State)
    requires LoadsMirrored(s) && next.registry == s.registry && next.ws.actorLoad == s.ws.actorLoad
    ensures LoadsMirrored(next)
  {
  }

  lemma ReleaseMirrors(w: Workflow, initial: map<ActorId, int>, before: State, s: State, t: TaskId, next: State)
    requires Detached(w, initial, before, s, t) && next == Release(w, s, t)
    ensures LoadsMirrored(next) && next.registry.Keys == before.registry.Keys
  {
    MirrorsSame(before, s);
    if t in s.ws.taskActor && s.ws.taskActor[t] in s.registry && s.registry[s.ws.taskActor[t]].currentLoad > 0 {
      var owner := s.ws.taskActor[t];
      MirrorsAfterChange(s, owner, next.registry[owner].currentLoad, next);
    } else {
      MirrorsSame(s, next);
    }
  }

  lemma ReleaseKeepsLoads(w: Workflow, initial: map<ActorId, int>, before: State, s: State, t: TaskId, next: State)
    requires NonNegative(w, initial) && Detached(w, initial, before, s, t) && next == Release(w, s, t)
    ensures ValidRegistry(next.registry) && LoadsConserved(w, initial, next) && LoadsMirrored(next)
  {
    ReleaseShape(w, s, t, next);
    ReleaseMirrors(w, initial, before, s, t, next);
    forall a | a in initial
      ensures next.registry[a].id == a && next.registry[a].currentLoad == initial[a] + Owned(w, next.ws, a) {
      ReleaseLoad(w, initial, before, s, t, next, a);
      OwnedAfterErase(w, before.ws, next.ws, t, a);
    }
  }

  lemma OwnersMatchAfterErase(before: WorkflowState, after: WorkflowState, t: TaskId)
    requires OwnersMatch(before) && after.inFlight == Erase(before.inFlight, t) && after.taskActor == before.taskActor - {t}
    ensures OwnersMatch(after)
  {
    EraseDistinct(before.inFlight, t);
  }

  lemma FailKeeps(w: Workflow, initial: map<ActorId, int>, s: State, t: TaskId, canResume: bool, next: State)
    requires NonNegative(w, initial) && Invariant(w, initial, s) && next == Fail(w, s, t, canResume)
    ensures Invariant(w, initial, next)
  {
    var erased := s.(ws := s.ws.(inFlight := Erase(s.ws.inFlight, t), completed := Erase(s.ws.completed, t)));
    var r := Release(w, erased, t);
    ReleaseShape(w, erased, t, r);
    ReleaseKeepsLoads(w, initial, s, erased, t, r);
    OwnersMatchAfterErase(s.ws, next.ws, t);
    assert next.registry == r.registry && next.ws.actorLoad == r.ws.actorLoad;
    assert next.ws.inFlight == r.ws.inFlight && next.ws.taskActor == r.ws.taskActor;
    forall a ensures Owned(w, next.ws, a) == Owned(w, r.ws, a) {
    }
  }

  lemma CompleteKeeps(w: Workflow, initial: map<ActorId, int>, s: State, t: TaskId, time: int, next: State)
    requires NonNegative(w, initial) && Invariant(w, initial, s) && next == Complete(w, s, t, time)
    ensures Invariant(w, initial, next)
  {
    var moved := s.(ws := s.ws.(inFlight := Erase(s.ws.inFlight, t),
                                completed := if t in s.ws.completed then s.ws.completed else s.ws.completed + [t]));
    var r := Release(w, moved, t);
    ReleaseShape(w, moved, t, r);
    ReleaseKeepsLoads(w, initial, s, moved, t, r);
    OwnersMatchAfterErase(s.ws, next.ws, t);
    assert next.registry == r.registry && next.ws.actorLoad == r.ws.actorLoad;
    forall a ensures Owned(w, next.ws, a) == Owned(w, r.ws, a) {
    }
  }

  /** What touches neither loads nor owners. */
  lemma SameLoadsKeep(w: Workflow, initial: map<ActorId, int>, s: State, next: State)
    requires Invariant(w, initial, s)
    requires next.registry == s.registry && next.ws.inFlight == s.ws.inFlight && next.ws.taskActor == s.ws.taskActor
    requires next.ws.actorLoad == s.ws.actorLoad && SetsApart(next.ws) && ScheduleMatchesState(next)
    ensures Invariant(w, initial, next)
  {
  }

  /** A call that plans: only the schedule, the flags and the planner state change. */
  lemma PlanningKeeps(w: Workflow, initial: map<ActorId, int>, s: State, planning: State, result: Schedule, next: State)
    requires Invariant(w, initial, s)
    requires planning.registry == s.registry && planning.ws == s.ws && planning.fsm == Planning
    requires next == RunPlanning(planning, result)
    ensures Invariant(w, initial, next)
  {
    assert next.registry == s.registry && next.ws == s.ws && next.latest == result;
    SameLoadsKeep(w, initial, s, next);
  }

  lemma TickDispatchKeeps(w: Workflow, initial: map<ActorId, int>, s: State, now: int, done: State, next: State)
    requires Invariant(w, initial, s) && done == ApplyDispatch(w, s, now) && next == done.(fsm := next.fsm)
    requires next.fsm == done.fsm || (next.fsm == Next(done.fsm, Tick) && next.fsm != Dispatching)
    ensures Invariant(w, initial, next)
  {
    DispatchKeeps(w, initial, s, now, done);
    assert next.registry == done.registry && next.ws == done.ws && next.latest == done.latest;
    SameLoadsKeep(w, initial, done, next);
  }

  lemma TickKeeps(w: Workflow, initial: map<ActorId, int>, s: State, now: int, result: Schedule, next: State)
    requires Invariant(w, initial, s) && next == Step(w, s, TickAt(now, result))
    ensures Invariant(w, initial, next)
  {
    if s.started {
      if (s.replan && s.fsm != Planning) || s.fsm == Idle {
        PlanningKeeps(w, initial, s, s.(fsm := Next(s.fsm, StartPlanning), replan := false), result, next);
      } else if s.fsm == Planning {
        PlanningKeeps(w, initial, s, s.(replan := false), result, next);
      } else {
        TickDispatchKeeps(w, initial, s, now, ApplyDispatch(w, s, now), next);
      }
    }
  }

  lemma UnavailableKeeps(w: Workflow, initial: map<ActorId, int>, s: State, actor: ActorId, unavailable: bool, next: State)
    requires Invariant(w, initial, s) && next == Unavailable(s, actor, unavailable)
    ensures Invariant(w, initial, next)
  {
    SameLoadsKeep(w, initial, s, next);
  }

  lemma ResumeKeeps(w: Workflow, initial: map<ActorId, int>, s: State, t: TaskId, next: State)
    requires Invariant(w, initial, s) && next == Resume(s, t)
    ensures Invariant(w, initial, next)
  {
    SameLoadsKeep(w, initial, s, next);
  }

  lemma FinishPhaseKeeps(w: Workflow, initial: map<ActorId, int>, s: State, phase: PhaseId, next: State)
    requires Invariant(w, initial, s) && next == FinishPhase(w, s, phase)
    ensures Invariant(w, initial, next)
  {
    SameLoadsKeep(w, initial, s, next);
  }

  /** Every call keeps the invariant, whatever the scheduler returned. */
  lemma StepKeeps(w: Workflow, initial: map<ActorId, int>, s: State, a: Action)
    requires NonNegative(w, initial) && Invariant(w, initial, s)
    ensures Invariant(w, initial, Step(w, s, a))
  {
    var next := Step(w, s, a);
    match a
    case Start(result) =>
      PlanningKeeps(w, initial, s, s.(started := true, fsm := Next(s.fsm, StartPlanning)), result, next);
    case TickAt(now, result) => TickKeeps(w, initial, s, now, result, next);
    case TaskFailed(t, canResume) => FailKeeps(w, initial, s, t, canResume, next);
    case TaskCompleted(t, time) => CompleteKeeps(w, initial, s, t, time, next);
    case SetUnavailable(actor, unavailable) => UnavailableKeeps(w, initial, s, actor, unavailable, next);
    case MarkResumable(t) => ResumeKeeps(w, initial, s, t, next);
    case CompletePhase(phase) => FinishPhaseKeeps(w, initial, s, phase, next);
  }

  /** Over every run from a fresh start: loads are conserved and mirrored, the task sets stay apart,
      and a dispatching planner has something to dispatch. */
  lemma {:induction false} RunKeeps(w: Workflow, initial: map<ActorId, int>, s: State, actions: seq<Action>)
    requires NonNegative(w, initial) && Invariant(w, initial, s)
    ensures Invariant(w, initial, Run(w, s, actions))
  {
    if actions != [] {
      var n := |actions| - 1;
      RunKeeps(w, initial, s, actions[..n]);
      StepKeeps(w, initial, Run(w, s, actions[..n]), actions[n]);
    }
  }

  function EmptyState(): WorkflowState {
    WorkflowState([], [], [], map[], [], [], [], map[], map[], map[], map[], map[], map[], map[], map[])
  }

  function Fresh(registry: Registry): State {
    State(registry, EmptyState(), Schedule(false, []), false, false, Idle)
  }

  lemma RunFromFreshKeeps(w: Workflow, registry: Registry, actions: seq<Action>)
    requires ValidRegistry(registry)
    requires forall a :: a in registry ==> registry[a].currentLoad >= 0
    requires forall t :: t in w.processes ==> w.processes[t].demand >= 0
    ensures Invariant(w, map a | a in registry :: registry[a].currentLoad, Run(w, Fresh(registry), actions))
  {
    var initial := map a | a in registry :: registry[a].currentLoad;
    RunKeeps(w, initial, Fresh(registry), actions);
  }

  // ---- when the scheduler's assumption on resumable tasks holds -----------------------------------------------------

  ghost predicate ResumableAreIdle(s: State) {
    forall t :: t in s.ws.resumable ==> t !in s.ws.inFlight
  }

  lemma {:induction false} DispatchKeepsResumable(w: Workflow, s: State, plan: seq<Planned>, now: int)
    requires ResumableAreIdle(s)
    ensures ResumableAreIdle(DispatchAll(w, s, plan, now))
  {
    if plan != [] {
      DispatchKeepsResumable(w, s, plan[..|plan| - 1], now);
    }
  }

  /** What a release leaves alone. */
  lemma ReleaseKeepsSets(w: Workflow, s: State, t: TaskId, next: State)
    requires next == Release(w, s, t)
    ensures next.ws.inFlight == s.ws.inFlight && next.ws.resumable == s.ws.resumable
  {
  }

  lemma ErasedStayApart(inFlight: seq<TaskId>, resumable: seq<TaskId>, t: TaskId, flying: seq<TaskId>, waiting: seq<TaskId>)
    requires forall x :: x in resumable ==> x !in inFlight
    requires flying == Erase(inFlight, t) && forall x :: x in waiting ==> x in resumable || x == t
    ensures forall x :: x in waiting ==> x !in flying
  {
  }

  lemma FailSets(w: Workflow, s: State, t: TaskId, canResume: bool, next: State)
    requires next == Fail(w, s, t, canResume)
    ensures next.ws.inFlight == Erase(s.ws.inFlight, t)
    ensures next.ws.resumable == if canResume then Erase(s.ws.resumable, t) + [t] else Erase(s.ws.resumable, t)
  {
    var erased := s.(ws := s.ws.(inFlight := Erase(s.ws.inFlight, t), completed := Erase(s.ws.completed, t)));
    ReleaseKeepsSets(w, erased, t, Release(w, erased, t));
  }

  lemma CompleteSets(w: Workflow, s: State, t: TaskId, time: int, next: State)
    requires next == Complete(w, s, t, time)
    ensures next.ws.inFlight == Erase(s.ws.inFlight, t) && next.ws.resumable == s.ws.resumable
  {
    var moved := s.(ws := s.ws.(inFlight := Erase(s.ws.inFlight, t),
                                completed := if t in s.ws.completed then s.ws.completed else s.ws.completed + [t]));
    ReleaseKeepsSets(w, moved, t, Release(w, moved, t));
  }

  /** Resumable tasks stay out of flight exactly as long as nobody marks an in-flight task resumable. */
  lemma ResumableStaysIdleIff(w: Workflow, s: State, a: Action)
    requires ResumableAreIdle(s)
    ensures ResumableAreIdle(Step(w, s, a)) <==> !(a.MarkResumable? && a.task in s.ws.inFlight)
  {
    var next := Step(w, s, a);
    match a
    case TickAt(now, _) =>
      DispatchKeepsResumable(w, s, s.latest.plan, now);
    case TaskFailed(t, canResume) =>
      FailSets(w, s, t, canResume, next);
      ErasedStayApart(s.ws.inFlight, s.ws.resumable, t, next.ws.inFlight, next.ws.resumable);
    case TaskCompleted(t, time) =>
      CompleteSets(w, s, t, time, next);
      ErasedStayApart(s.ws.inFlight, s.ws.resumable, t, next.ws.inFlight, next.ws.resumable);
    case MarkResumable(t) =>
      assert t in next.ws.resumable;
    case Start(_) =>
    case SetUnavailable(_, _) =>
    case CompletePhase(_) =>
  }

  /** No in-flight task is marked resumable anywhere in the run. */
  predicate MarksIdleOnly(w: Workflow, s: State, actions: seq<Action>) {
    actions == [] || (var head, last := actions[..|actions| - 1], actions[|actions| - 1];
                      MarksIdleOnly(w, s, head)
                      && !(last.MarkResumable? && last.task in Run(w, s, head).ws.inFlight))
  }

  /** Over every such run the scheduler is called with resumable and in-flight tasks apart. */
  lemma {:induction false} RunKeepsResumableIdle(w: Workflow, s: State, actions: seq<Action>)
    requires ResumableAreIdle(s) && MarksIdleOnly(w, s, actions)
    ensures ResumableAreIdle(Run(w, s, actions))
  {
    if actions != [] {
      var n := |actions| - 1;
      RunKeepsResumableIdle(w, s, actions[..n]);
      ResumableStaysIdleIff(w, Run(w, s, actions[..n]), actions[n]);
    }
  }
}
