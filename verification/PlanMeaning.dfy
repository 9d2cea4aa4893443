/** What a planning call takes in and returns, on the inputs alone: the workflow, its state, the actors and
    the time. */
module PlanMeaning {
  import opened Basics
  import opened SchedulerModel
  import opened SchedulerPlan
  import opened SchedulerRun

  // ---- which tasks are pending, and how they are described ------------------------------------------------

  /** Exactly the tasks that some ready phase lists and that are neither done nor unresumable, nor running
      without a mark that they may be run again. */
  lemma PendingInFields(w: Workflow, st: WorkflowState, table: map<TaskId, PendingTask>, t: TaskId)
    requires IsTable(w, st, table)
    ensures t in table <==>
            && t !in st.completed && t !in st.unresumable && (t in st.inFlight ==> t in st.resumable)
            && exists p :: p in w.phases && t in w.phases[p].taskIds && p !in st.completedPhases
                           && forall d :: d in w.phases[p].deps ==> d in st.completedPhases
  {
    assert t in table <==> IsPending(w, st, t);
    if t in table {
      var p :| InReadyPhase(w, st, p, t);
      assert t in w.phases[p].taskIds;
    }
    if p :| p in w.phases && t in w.phases[p].taskIds && p !in st.completedPhases
            && forall d :: d in w.phases[p].deps ==> d in st.completedPhases {
      assert InReadyPhase(w, st, p, t);
    }
  }

  /** A pending task is described as its process says; without one it takes one unit of time and of
      capacity, at any time. */
  lemma DescriptionInFields(w: Workflow, st: WorkflowState, table: map<TaskId, PendingTask>, t: TaskId)
    requires IsTable(w, st, table) && t in table
    ensures var (info, process) := (table[t].info, table[t].process);
            && info.id == t && info.phase in w.phases && t in w.phases[info.phase].taskIds
            && (t in w.processes ==>
                  var q := w.processes[t];
                  && process == Some(q) && info.duration == q.duration && info.priority == q.priority
                  && info.release == q.release && info.deadline == q.deadline
                  && info.latestStart == q.latestStart && info.demand == q.demand)
            && (t !in w.processes ==>
                  && process == None && info.duration == 1 && info.priority == 0 && info.release == 0
                  && info.deadline == None && info.latestStart == None && info.demand == 1)
  {
    var p :| InReadyPhase(w, st, p, t) && table[t] == PendingOf(w, t, p);
  }

  /** The scheduler takes no preemptible task; its answer lists entries by start, then by task, then by actor. */
  lemma AnswerInFields(ctx: Context, strategy: Strategy, ok: bool, plan: seq<Planned>)
    requires IsTable(ctx.workflow, ctx.st, ctx.table) && IsPlan(ctx, strategy, ok, plan)
    ensures ok <==> forall t :: t in ctx.table && t in ctx.workflow.processes ==> !ctx.workflow.processes[t].preemptible
    ensures !ok ==> plan == []
    ensures forall i, j :: 0 <= i < j < |plan| ==>
              && plan[i].start <= plan[j].start
              && (plan[i].start == plan[j].start ==>
                    && (plan[i].task == plan[j].task || TextLess(plan[i].task, plan[j].task))
                    && (plan[i].task == plan[j].task ==> plan[i].actor == plan[j].actor || TextLess(plan[i].actor, plan[j].actor)))
  {
    forall t | t in ctx.table
      ensures ctx.table[t].process == if t in ctx.workflow.processes then Some(ctx.workflow.processes[t]) else None {
      TableFacts(ctx.workflow, ctx.st, ctx.table, t);
    }
    forall i, j | 0 <= i < j < |plan|
      ensures plan[i].start <= plan[j].start
      ensures plan[i].start == plan[j].start ==> plan[i].task == plan[j].task || TextLess(plan[i].task, plan[j].task)
      ensures plan[i].start == plan[j].start && plan[i].task == plan[j].task ==>
                plan[i].actor == plan[j].actor || TextLess(plan[i].actor, plan[j].actor) {
      PlannedKeyOrder(plan[i], plan[j]);
    }
  }

  lemma PlannedKeyOrder(p: Planned, q: Planned)
    requires KeyLeq(PlannedKey(p), PlannedKey(q))
    ensures p.start <= q.start
    ensures p.start == q.start ==> p.task == q.task || TextLess(p.task, q.task)
    ensures p.start == q.start && p.task == q.task ==> p.actor == q.actor || TextLess(p.actor, q.actor)
  {
    var a, b := PlannedKey(p), PlannedKey(q);
    KeyLeqMeaning(a, b);
    assert a[..0] == b[..0];
    assert a[0] == b[0] ==> a[..1] == b[..1];
    assert a[0] == b[0] && a[1] == b[1] ==> a[..2] == b[..2];
  }

  // ---- what an entry needs, and what a task that is left out lacks ----------------------------------------

  /** An actor may take a task if it is available, on the allow-list of the task (the one given at run time
      before the one of the process), and has the kind, the capabilities and the capacity. */
  lemma ActorInFields(ctx: Context, t: TaskId, id: ActorId)
    requires ValidRegistry(ctx.registry) && IsTable(ctx.workflow, ctx.st, ctx.table) && t in ctx.table && id in ctx.registry
    ensures t in ctx.workflow.processes ==>
              var (q, a) := (ctx.workflow.processes[t], ctx.registry[id]);
              var allowed := if t in ctx.st.taskAllowed then ctx.st.taskAllowed[t] else q.allowedActors;
              Usable(ctx.table[t], a, ctx.st) <==>
                && id !in ctx.st.unavailable
                && (allowed == [] || id in allowed)
                && (q.allowedKinds == [] || a.kind in q.allowedKinds)
                && (forall c :: c in q.capabilities ==> c in a.capabilities)
                && q.demand <= a.capacity
    ensures t !in ctx.workflow.processes ==>
              (Usable(ctx.table[t], ctx.registry[id], ctx.st) <==>
                && id !in ctx.st.unavailable
                && (t in ctx.st.taskAllowed ==> ctx.st.taskAllowed[t] == [] || id in ctx.st.taskAllowed[t])
                && 1 <= ctx.registry[id].capacity)
  {
    DescriptionInFields(ctx.workflow, ctx.st, ctx.table, t);
  }

  /** A start is timely if it is neither in the past nor before the release (the one given at run time before
      the one of the process), no later than allowed, early enough for the deadline, and after every
      dependency. */
  lemma TimesInFields(ctx: Context, plan: seq<Planned>, t: TaskId, s: int)
    requires IsTable(ctx.workflow, ctx.st, ctx.table) && t in ctx.table
    ensures t in ctx.workflow.processes ==>
              var q := ctx.workflow.processes[t];
              TimelyStart(ctx, plan, ctx.table[t], s) <==>
                && 0 <= s && ctx.now <= s
                && (if t in ctx.st.taskRelease then ctx.st.taskRelease[t] else q.release) <= s
                && (q.latestStart.Some? ==> s <= q.latestStart.value)
                && (q.deadline.Some? ==> s + q.duration <= q.deadline.value)
                && (forall d :: d in q.deps ==> DoneBy(ctx, plan, d, s))
    ensures t !in ctx.workflow.processes ==>
              (TimelyStart(ctx, plan, ctx.table[t], s) <==>
                 0 <= s && ctx.now <= s && (t in ctx.st.taskRelease ==> ctx.st.taskRelease[t] <= s))
  {
    DescriptionInFields(ctx.workflow, ctx.st, ctx.table, t);
  }

  /** A task is done by an instant if it is planned to end by then, running and expected to end by then, or
      ended by then. */
  lemma DoneInFields(ctx: Context, plan: seq<Planned>, d: TaskId, s: int)
    requires IsTable(ctx.workflow, ctx.st, ctx.table) && forall r :: r in plan ==> r.task in ctx.table
    ensures var duration := if d in ctx.workflow.processes then ctx.workflow.processes[d].duration else 1;
            DoneBy(ctx, plan, d, s) <==>
              || (exists r :: r in plan && r.task == d && r.start + duration <= s)
              || (d in ctx.st.inFlight
                  && (if d in ctx.st.plannedEnd then ctx.st.plannedEnd[d] else ctx.now + duration) <= s)
              || (d !in ctx.st.inFlight && d in ctx.st.completed
                  && (if d in ctx.st.actualCompletion then ctx.st.actualCompletion[d]
                      else if d in ctx.st.plannedEnd then ctx.st.plannedEnd[d] else ctx.now) <= s)
  {
    if d in ctx.table {
      DescriptionInFields(ctx.workflow, ctx.st, ctx.table, d);
    }
  }

  /** Why a task is not in a maximal plan: its process excludes a task that is done, running or planned, or
      waits for one that is none of these, or no actor that may take it has a slot for it. */
  lemma LeftOutInFields(ctx: Context, plan: seq<Planned>, t: TaskId)
    requires IsTable(ctx.workflow, ctx.st, ctx.table) && Maximal(ctx, plan)
    requires t in ctx.table && forall p :: p in plan ==> p.task != t
    ensures || (t in ctx.workflow.processes &&
                (exists x :: x in ctx.workflow.processes[t].mutex &&
                   (x in ctx.st.completed || x in ctx.st.inFlight || exists p :: p in plan && p.task == x)))
            || (t in ctx.workflow.processes &&
                (exists d :: d in ctx.workflow.processes[t].deps && d !in ctx.st.completed && d !in ctx.st.inFlight &&
                   (forall p :: p in plan ==> p.task != d)))
            || (forall id, s :: id in ctx.registry && Usable(ctx.table[t], ctx.registry[id], ctx.st) ==>
                  !SlotFree(ctx, plan, ctx.table[t], ctx.registry[id], s))
  {
    DescriptionInFields(ctx.workflow, ctx.st, ctx.table, t);
    assert LeftOutFor(ctx, plan, ctx.table[t]);
    if MutexConflict(ctx, plan, ctx.table[t]) {
      var x :| x in Mutex(ctx.table[t]) && (Busy(ctx, x) || IsPlanned(plan, x));
    } else if !DepsKnown(ctx, plan, ctx.table[t]) {
      var d :| d in Deps(ctx.table[t]) && !IsKnown(ctx, plan, d);
    }
  }

  /** When pending tasks exclude each other both ways, no entry excludes a task that is done, running or
      planned. */
  lemma ExclusionInFields(ctx: Context, plan: seq<Planned>, p: Planned, x: TaskId)
    requires IsTable(ctx.workflow, ctx.st, ctx.table) && Safe(ctx, plan) && p in plan
    requires p.task in ctx.workflow.processes && x in ctx.workflow.processes[p.task].mutex && x != p.task
    requires forall s, t :: s in ctx.table && t in ctx.table && t in ctx.workflow.processes &&
                            s in ctx.workflow.processes[t].mutex ==>
                              s in ctx.workflow.processes && t in ctx.workflow.processes[s].mutex
    ensures x !in ctx.st.completed && x !in ctx.st.inFlight && forall r :: r in plan ==> r.task != x
  {
    forall t | t in ctx.table
      ensures ctx.table[t].process == if t in ctx.workflow.processes then Some(ctx.workflow.processes[t]) else None {
      TableFacts(ctx.workflow, ctx.st, ctx.table, t);
    }
    assert SymmetricMutex(ctx);
    assert EntryOk(ctx, plan, p) && x in Mutex(ctx.table[p.task]);
    assert !Busy(ctx, x) && !IsPlanned(plan, x);
  }
}
