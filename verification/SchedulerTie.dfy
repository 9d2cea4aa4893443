/** Earliest deadline first leaves ties to the iteration order of a hash set, and the plan with them. */
module SchedulerTie {
  import opened Basics
  import opened Reservations
  import opened SchedulerModel
  import opened SchedulerPlan
  import opened SchedulerVisit
  import opened Scheduler
  import opened SchedulerRun

  /** With one actor there is one offer at most, and it is the best. */
  lemma OnlyOfferIsBest(ctx: Context, ps: PlanState, task: PendingTask, id: ActorId, c: Candidate)
    requires ctx.registry.Keys == {id} && Offers(ctx, ps, task, id, c)
    ensures IsBest(ctx, ps, task, c)
  {
  }

  /** Visited first, a task with an offer is planned and the one it excludes is struck. */
  lemma FirstWins(ctx: Context, ps: PlanState, s: TaskId, t: TaskId, c: Candidate, end: PlanState)
    requires s != t && {s, t} <= ps.remaining <= ctx.table.Keys && ps.plan == []
    requires !Conflicts(ctx.table[s], ps.blocked) && s in Mutex(ctx.table[t]) && IsBest(ctx, ps, ctx.table[s], c)
    requires end == VisitAll(ctx, ps, [s, t])
    ensures end.remaining == ps.remaining - {s, t} && end.plan == [Planned(s, c.actor, c.start)]
  {
    assert [s, t][..1] == [s] && [s][..0] == [];
    var first := Visit(ctx, ps, s);
    forall d | IsBest(ctx, ps, ctx.table[s], d) ensures d == c {
      BestIsUnique(ctx, ps, ctx.table[s], c, d);
    }
    assert s in first.blocked && Conflicts(ctx.table[t], first.blocked);
    assert VisitAll(ctx, ps, [s]) == first;
  }

  /** Two tied tasks that exclude each other and are all that is left: both orders are allowed in the
      round, which is the last one, and each plans the task that comes first. */
  lemma TieDecidesThePlan(ctx: Context, strategy: Strategy, ps: PlanState, s: TaskId, t: TaskId,
                          cs: Candidate, ct: Candidate, x: PlanState, y: PlanState)
    requires s != t && ps.remaining == {s, t} <= ctx.table.Keys && ps.plan == []
    requires TaskKey(ctx, strategy)(s) == TaskKey(ctx, strategy)(t) && ReadySet(ctx, ps) == {s, t}
    requires t in Mutex(ctx.table[s]) && s in Mutex(ctx.table[t])
    requires IsBest(ctx, ps, ctx.table[s], cs) && IsBest(ctx, ps, ctx.table[t], ct)
    requires x == VisitAll(ctx, ps, [s, t]) && y == VisitAll(ctx, ps, [t, s])
    ensures AllowedOrder(ctx, strategy, ReadySet(ctx, ps), [s, t]) && AllowedOrder(ctx, strategy, ReadySet(ctx, ps), [t, s])
    ensures x.remaining == y.remaining == {}
    ensures x.plan == [Planned(s, cs.actor, cs.start)] && y.plan == [Planned(t, ct.actor, ct.start)] && x.plan != y.plan
  {
    TieAllowsBothOrders(ctx, strategy, s, t);
    assert s in ReadySet(ctx, ps) && t in ReadySet(ctx, ps);
    FirstWins(ctx, ps, s, t, cs, x);
    FirstWins(ctx, ps, t, s, ct, y);
  }

  // ----- a planning call with such a tie -----

  function Excluding(other: TaskId): Process {
    Process(1, 0, None, 0, None, 1, false, [], [], [], [], [], [other], map[])
  }

  /** Two tasks of one phase that exclude each other. */
  function Pair(p: PhaseId, l: TaskId, r: TaskId): Workflow {
    Workflow(map[p := Phase([l, r], [])], map[l := Excluding(r), r := Excluding(l)])
  }

  function Idle(): WorkflowState {
    WorkflowState([], [], [], map[], [], [], [], map[], map[], map[], map[], map[], map[], map[], map[])
  }

  /** An actor with room for one of them. */
  function Worker(a: ActorId): Actor {
    Actor(a, "", 1, [Window(0, 1)], [], 0.0, 0)
  }

  function Tied(p: PhaseId, l: TaskId, r: TaskId, a: ActorId): Context {
    Context(Pair(p, l, r), Idle(), map[a := Worker(a)], 0, [],
            map[l := PendingOf(Pair(p, l, r), l, p), r := PendingOf(Pair(p, l, r), r, p)])
  }

  lemma TiedIsATable(p: PhaseId, l: TaskId, r: TaskId, w: Workflow, st: WorkflowState, table: map<TaskId, PendingTask>)
    requires l != r && w == Pair(p, l, r) && st == Idle()
    requires table == map[l := PendingOf(w, l, p), r := PendingOf(w, r, p)]
    ensures IsTable(w, st, table)
  {
    assert PhaseReady(w, st.completedPhases, p) && w.phases[p].taskIds == [l, r];
    assert [l, r][0] == l && [l, r][1] == r;
    forall t ensures t in table <==> IsPending(w, st, t) {
      if t == l || t == r {
        assert InReadyPhase(w, st, p, t);
      } else {
        forall q ensures !InReadyPhase(w, st, q, t) {}
      }
    }
    forall t | t in table ensures DescribesPending(w, st, t, table[t]) {
      assert InReadyPhase(w, st, p, t);
    }
  }

  /** What there is at the start of the call. */
  ghost predicate StartsIdle(ctx: Context, ps: PlanState, l: TaskId, r: TaskId, a: ActorId) {
    && ps.plan == [] && ps.blocked == {} && ps.remaining == {l, r} && ps.completion == map[]
    && ReservedOn(ps, a) == []
  }

  lemma TiedStart(p: PhaseId, l: TaskId, r: TaskId, a: ActorId, ctx: Context)
    requires l != r && ctx == Tied(p, l, r, a)
    ensures StartsIdle(ctx, Initial(ctx), l, r, a)
  {
    assert ctx.st.inFlight == [];
    assert InFlightOn(ctx.workflow, ctx.st, ctx.now, ctx.st.inFlight, a) == [];
    assert InitialOn(ctx, a) == [] + [];
  }

  lemma TiedOffer(p: PhaseId, l: TaskId, r: TaskId, a: ActorId, ctx: Context, ps: PlanState, t: TaskId) returns (c: Candidate)
    requires l != r && ctx == Tied(p, l, r, a) && t in {l, r} && StartsIdle(ctx, ps, l, r, a)
    ensures IsBest(ctx, ps, ctx.table[t], c)
  {
    var task, worker := ctx.table[t], ctx.registry[a];
    assert Room(1, [], 0, 1, 1) && worker.windows[0] in worker.windows;
    assert Fits(worker.windows, 1, [], 0, 1, 1);
    EarliestFitLeastAndComplete(worker.windows, 1, [], 0, 1, 1);
    var start := StartOn(ctx, ps, task, worker, 0);
    c := CandidateFrom(ctx, ps, task, worker, start.value);
    assert Offers(ctx, ps, task, a, c);
    OnlyOfferIsBest(ctx, ps, task, a, c);
  }

  lemma TiedReady(p: PhaseId, l: TaskId, r: TaskId, a: ActorId, ctx: Context, ps: PlanState)
    requires l != r && ctx == Tied(p, l, r, a) && StartsIdle(ctx, ps, l, r, a)
    ensures ReadySet(ctx, ps) == {l, r}
    ensures TaskKey(ctx, EarliestDeadlineFirst)(l) == TaskKey(ctx, EarliestDeadlineFirst)(r)
    ensures r in Mutex(ctx.table[l]) && l in Mutex(ctx.table[r])
  {
    assert Mutex(ctx.table[l]) == [r] && Mutex(ctx.table[r]) == [l];
    assert [r][0] == r && [l][0] == l;
    assert IsReady(ctx, ps, l) && IsReady(ctx, ps, r);
  }

  /** What the first round of earliest deadline first can come to. */
  ghost predicate IsEndOfRound(ctx: Context, x: PlanState) {
    exists ids :: AllowedOrder(ctx, EarliestDeadlineFirst, ReadySet(ctx, Initial(ctx)), ids)
                  && x == VisitAll(ctx, Initial(ctx), ids)
  }

  lemma TwoEnds(ctx: Context, ps: PlanState, l: TaskId, r: TaskId, cl: Candidate, cr: Candidate)
    requires l != r && ps == Initial(ctx) && ps.remaining == {l, r} <= ctx.table.Keys && ps.plan == []
    requires TaskKey(ctx, EarliestDeadlineFirst)(l) == TaskKey(ctx, EarliestDeadlineFirst)(r)
    requires ReadySet(ctx, ps) == {l, r} && r in Mutex(ctx.table[l]) && l in Mutex(ctx.table[r])
    requires IsBest(ctx, ps, ctx.table[l], cl) && IsBest(ctx, ps, ctx.table[r], cr)
    ensures EndsDiffer(ctx)
  {
    var x, y := VisitAll(ctx, ps, [l, r]), VisitAll(ctx, ps, [r, l]);
    TieDecidesThePlan(ctx, EarliestDeadlineFirst, ps, l, r, cl, cr, x, y);
    assert IsEndOfRound(ctx, x) && IsEndOfRound(ctx, y);
  }

  /** The first round can end in two ways, both times with nothing left to visit. */
  ghost predicate EndsDiffer(ctx: Context) {
    exists x, y :: IsEndOfRound(ctx, x) && IsEndOfRound(ctx, y) && x.remaining == y.remaining == {} && x.plan != y.plan
  }

  lemma TiedIsPending(p: PhaseId, l: TaskId, r: TaskId, a: ActorId, ctx: Context)
    requires l != r && ctx == Tied(p, l, r, a)
    ensures IsTable(ctx.workflow, ctx.st, ctx.table) && ValidRegistry(ctx.registry)
  {
    TiedIsATable(p, l, r, ctx.workflow, ctx.st, ctx.table);
  }

  lemma TiedEnds(p: PhaseId, l: TaskId, r: TaskId, a: ActorId, ctx: Context, ps: PlanState)
    requires l != r && ctx == Tied(p, l, r, a) && ps == Initial(ctx) && StartsIdle(ctx, ps, l, r, a)
    ensures EndsDiffer(ctx)
  {
    TiedReady(p, l, r, a, ctx, ps);
    var cl := TiedOffer(p, l, r, a, ctx, ps, l);
    var cr := TiedOffer(p, l, r, a, ctx, ps, r);
    TwoEnds(ctx, ps, l, r, cl, cr);
  }

  /** So earliest deadline first can return different plans for one planning call: its only round ends
      with one task planned or with the other. */
  lemma EarliestDeadlineIsNotDetermined(p: PhaseId, l: TaskId, r: TaskId, a: ActorId, ctx: Context)
    requires l != r && ctx == Tied(p, l, r, a)
    ensures IsTable(ctx.workflow, ctx.st, ctx.table) && ValidRegistry(ctx.registry) && EndsDiffer(ctx)
  {
    TiedIsPending(p, l, r, a, ctx);
    TiedStart(p, l, r, a, ctx);
    TiedEnds(p, l, r, a, ctx, Initial(ctx));
  }
}
