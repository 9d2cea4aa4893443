/** The optimization model and, independently of any backend, what a feasible plan for it is. */
module OptimizerModel {
  import opened Basics
  import opened Reservations

  datatype Actor = Actor(
    id: ActorId,
    kind: string,
    capacity: int,
    windows: seq<Window>,
    capabilities: seq<string>)

  datatype Task = Task(
    id: TaskId,
    duration: int,
    release: int,
    latestStart: Option<int>,
    deadline: Option<int>,
    priority: int,
    demand: int,
    mandatory: bool,
    allowedKinds: seq<string>,
    allowedActors: seq<ActorId>,
    preferredActors: seq<ActorId>,
    capabilities: seq<string>,
    deps: seq<TaskId>,
    mutex: seq<TaskId>,
    distances: map<ActorId, int>)

  datatype Model = Model(actors: seq<Actor>, tasks: seq<Task>)

  datatype Options = Options(allowPartial: bool, priorityWeight: int)

  datatype Assignment = Assignment(task: TaskId, actor: ActorId, start: int, end: int)

  function Ids(m: Model): set<TaskId> {
    set t | t in m.tasks :: t.id
  }

  function ActorIds(m: Model): set<ActorId> {
    set a | a in m.actors :: a.id
  }

  ghost predicate UniqueIds(m: Model) {
    && (forall i, j :: 0 <= i < j < |m.tasks| ==> m.tasks[i].id != m.tasks[j].id)
    && (forall i, j :: 0 <= i < j < |m.actors| ==> m.actors[i].id != m.actors[j].id)
  }

  ghost predicate PositiveDurations(m: Model) {
    forall t :: t in m.tasks ==> t.duration > 0
  }

  ghost predicate NonNegativeDemands(m: Model) {
    forall t :: t in m.tasks ==> t.demand >= 0
  }

  ghost predicate SymmetricMutex(m: Model) {
    forall s, t :: s in m.tasks && t in m.tasks && s.id in t.mutex ==> t.id in s.mutex
  }

  function FindTask(ts: seq<Task>, id: TaskId): (t: Task)
    requires exists s :: s in ts && s.id == id
    ensures t in ts && t.id == id
  {
    if ts[0].id == id then ts[0] else FindTask(ts[1..], id)
  }

  function TaskOf(m: Model, id: TaskId): (t: Task)
    requires id in Ids(m)
    ensures t in m.tasks && t.id == id
  {
    FindTask(m.tasks, id)
  }

  function FindActor(xs: seq<Actor>, id: ActorId): (a: Actor)
    requires exists b :: b in xs && b.id == id
    ensures a in xs && a.id == id
  {
    if xs[0].id == id then xs[0] else FindActor(xs[1..], id)
  }

  function ActorOf(m: Model, id: ActorId): (a: Actor)
    requires id in ActorIds(m)
    ensures a in m.actors && a.id == id
  {
    FindActor(m.actors, id)
  }

  lemma TaskOfId(m: Model, t: Task)
    requires UniqueIds(m) && t in m.tasks
    ensures t.id in Ids(m) && TaskOf(m, t.id) == t
  {
  }

  lemma ActorOfId(m: Model, a: Actor)
    requires UniqueIds(m) && a in m.actors
    ensures a.id in ActorIds(m) && ActorOf(m, a.id) == a
  {
  }

  /** The plain identity and type filter. */
  predicate Eligible(t: Task, a: Actor) {
    && (t.allowedActors == [] || a.id in t.allowedActors)
    && (t.allowedKinds == [] || a.kind in t.allowedKinds)
  }

  /** The plain filter with capabilities and demand. */
  predicate Admissible(t: Task, a: Actor) {
    && Eligible(t, a)
    && t.demand <= a.capacity
    && (forall c :: c in t.capabilities ==> c in a.capabilities)
  }

  predicate InTime(t: Task, start: int) {
    && t.release <= start
    && (t.latestStart.Some? ==> start <= t.latestStart.value)
    && (t.deadline.Some? ==> start + t.duration <= t.deadline.value)
  }

  /** Task `t` may run on actor `a` from `start`, other tasks aside. */
  predicate Placement(t: Task, a: Actor, start: int) {
    && Admissible(t, a)
    && InTime(t, start)
    && (exists w :: w in a.windows && InWindow(w, start, t.duration))
  }

  function DemandFor(m: Model, id: TaskId): int {
    if id in Ids(m) then TaskOf(m, id).demand else 0
  }

  function LoadOf(m: Model, x: Assignment, actor: ActorId, t: int): int {
    if x.actor == actor && x.start <= t < x.end then DemandFor(m, x.task) else 0
  }

  /** Demand the plan puts on an actor at one instant. */
  function Load(m: Model, plan: seq<Assignment>, actor: ActorId, t: int): int {
    if plan == [] then 0
    else Load(m, plan[..|plan| - 1], actor, t) + LoadOf(m, plan[|plan| - 1], actor, t)
  }

  lemma LoadAppend(m: Model, plan: seq<Assignment>, x: Assignment, actor: ActorId, t: int)
    ensures Load(m, plan + [x], actor, t) == Load(m, plan, actor, t) + LoadOf(m, x, actor, t)
  {
    assert (plan + [x])[..|plan|] == plan;
  }

  lemma {:induction false} LoadIsSum(m: Model, plan: seq<Assignment>, actor: ActorId, t: int, share: Assignment -> int)
    requires forall x :: share(x) == LoadOf(m, x, actor, t)
    ensures Load(m, plan, actor, t) == SumBy(plan, share)
  {
    if plan != [] {
      LoadIsSum(m, plan[..|plan| - 1], actor, t, share);
    }
  }

  /** The load depends on which assignments there are, not on their order. */
  lemma LoadOfPermutation(m: Model, a: seq<Assignment>, b: seq<Assignment>, actor: ActorId, t: int)
    requires multiset(a) == multiset(b)
    ensures Load(m, a, actor, t) == Load(m, b, actor, t)
  {
    var share := x => LoadOf(m, x, actor, t);
    LoadIsSum(m, a, actor, t, share);
    LoadIsSum(m, b, actor, t, share);
    SumByPermutation(a, b, share);
  }

  ghost predicate Placed(m: Model, x: Assignment) {
    && x.task in Ids(m)
    && x.actor in ActorIds(m)
    && x.end == x.start + TaskOf(m, x.task).duration
    && Placement(TaskOf(m, x.task), ActorOf(m, x.actor), x.start)
  }

  ghost predicate AllPlaced(m: Model, plan: seq<Assignment>) {
    forall k :: 0 <= k < |plan| ==> Placed(m, plan[k])
  }

  ghost predicate DistinctTasks(plan: seq<Assignment>) {
    forall j, k :: 0 <= j < k < |plan| ==> plan[j].task != plan[k].task
  }

  /** No actor is over capacity at any instant at which the plan uses it. */
  ghost predicate WithinCapacity(m: Model, plan: seq<Assignment>)
    requires AllPlaced(m, plan)
  {
    forall k, t :: 0 <= k < |plan| && plan[k].start <= t < plan[k].end ==>
      Load(m, plan, plan[k].actor, t) <= ActorOf(m, plan[k].actor).capacity
  }

  ghost predicate FinishedBefore(plan: seq<Assignment>, dep: TaskId, start: int) {
    exists j :: 0 <= j < |plan| && plan[j].task == dep && plan[j].end <= start
  }

  /** Every predecessor that the model knows is in the plan and finishes first. */
  ghost predicate Ordered(m: Model, plan: seq<Assignment>)
    requires AllPlaced(m, plan)
  {
    forall k, d :: 0 <= k < |plan| && d in TaskOf(m, plan[k].task).deps && d in Ids(m) ==>
      FinishedBefore(plan, d, plan[k].start)
  }

  ghost predicate Exclusive(m: Model, plan: seq<Assignment>)
    requires AllPlaced(m, plan)
  {
    forall j, k :: 0 <= j < |plan| && 0 <= k < |plan| && j != k ==>
      plan[j].task !in TaskOf(m, plan[k].task).mutex
  }

  ghost predicate Feasible(m: Model, plan: seq<Assignment>) {
    && AllPlaced(m, plan)
    && DistinctTasks(plan)
    && WithinCapacity(m, plan)
    && Ordered(m, plan)
    && Exclusive(m, plan)
  }

  ghost predicate InPlan(plan: seq<Assignment>, id: TaskId) {
    exists k :: 0 <= k < |plan| && plan[k].task == id
  }

  ghost predicate StartsFromZero(plan: seq<Assignment>) {
    forall k :: 0 <= k < |plan| ==> plan[k].start >= 0
  }

  lemma InPlanAppend(plan: seq<Assignment>, a: Assignment, id: TaskId)
    ensures InPlan(plan + [a], id) <==> InPlan(plan, id) || id == a.task
  {
    assert (plan + [a])[|plan|] == a;
    if InPlan(plan, id) {
      var k :| 0 <= k < |plan| && plan[k].task == id;
      assert (plan + [a])[k].task == id;
    }
  }

  /** Unless partial plans are allowed, every mandatory task is in the plan. */
  ghost predicate CoversRequired(m: Model, opts: Options, plan: seq<Assignment>) {
    forall t :: t in m.tasks && !opts.allowPartial && t.mandatory ==> InPlan(plan, t.id)
  }

  lemma PermutationMembers<T>(a: seq<T>, b: seq<T>)
    requires multiset(a) == multiset(b)
    ensures forall x :: x in a <==> x in b
  {
    forall x ensures x in a <==> x in b {
      MemberOfMultiset(a, x);
      MemberOfMultiset(b, x);
    }
  }

  lemma DistinctOfPermutation(a: seq<Assignment>, b: seq<Assignment>)
    requires multiset(a) == multiset(b) && DistinctTasks(a)
    ensures DistinctTasks(b)
  {
    DistinctByPermutation((x: Assignment) => x.task, a, b);
  }

  /** Feasibility does not depend on the order in which a plan is listed. */
  lemma FeasibleOfPermutation(m: Model, a: seq<Assignment>, b: seq<Assignment>)
    requires multiset(a) == multiset(b) && Feasible(m, a)
    ensures Feasible(m, b)
  {
    PermutationMembers(a, b);
    DistinctOfPermutation(a, b);
    forall k | 0 <= k < |b| ensures Placed(m, b[k]) {
      assert b[k] in a;
    }
    forall k, t | 0 <= k < |b| && b[k].start <= t < b[k].end
      ensures Load(m, b, b[k].actor, t) <= ActorOf(m, b[k].actor).capacity {
      assert b[k] in a;
      var i :| 0 <= i < |a| && a[i] == b[k];
      LoadOfPermutation(m, a, b, b[k].actor, t);
    }
    forall k, d | 0 <= k < |b| && d in TaskOf(m, b[k].task).deps && d in Ids(m)
      ensures FinishedBefore(b, d, b[k].start) {
      assert b[k] in a;
      var i :| 0 <= i < |a| && a[i] == b[k];
      assert FinishedBefore(a, d, a[i].start);
      var j :| 0 <= j < |a| && a[j].task == d && a[j].end <= a[i].start;
      assert a[j] in b;
    }
    forall j, k | 0 <= j < |b| && 0 <= k < |b| && j != k
      ensures b[j].task !in TaskOf(m, b[k].task).mutex {
      assert b[j] in a && b[k] in a;
      var i :| 0 <= i < |a| && a[i] == b[j];
      var l :| 0 <= l < |a| && a[l] == b[k];
      assert b[j].task != b[k].task;
      assert i != l;
    }
  }

  lemma CoversOfPermutation(m: Model, opts: Options, a: seq<Assignment>, b: seq<Assignment>)
    requires multiset(a) == multiset(b) && CoversRequired(m, opts, a)
    ensures CoversRequired(m, opts, b)
  {
    PermutationMembers(a, b);
    forall t | t in m.tasks && !opts.allowPartial && t.mandatory ensures InPlan(b, t.id) {
      assert InPlan(a, t.id);
      var k :| 0 <= k < |a| && a[k].task == t.id;
      assert a[k] in b;
    }
  }

  // ---- tasks without an assignment ------------------------------------------------------------------

  /** The ids of the tasks outside `scheduled`, in the order of the list. */
  function Unscheduled(tasks: seq<Task>, scheduled: set<TaskId>): (r: seq<TaskId>)
    ensures forall id :: id in r <==> id !in scheduled && exists t :: t in tasks && t.id == id
  {
    if tasks == [] then []
    else
      var n := |tasks| - 1;
      assert tasks == tasks[..n] + [tasks[n]];
      Unscheduled(tasks[..n], scheduled) + (if tasks[n].id !in scheduled then [tasks[n].id] else [])
  }

  lemma UnscheduledOneMore(tasks: seq<Task>, scheduled: set<TaskId>, i: nat)
    requires i < |tasks|
    ensures Unscheduled(tasks[..i + 1], scheduled)
         == Unscheduled(tasks[..i], scheduled) + (if tasks[i].id !in scheduled then [tasks[i].id] else [])
  {
    assert tasks[..i + 1][..i] == tasks[..i];
  }

  lemma {:induction false} UnscheduledDistinct(tasks: seq<Task>, scheduled: set<TaskId>)
    requires forall i, j :: 0 <= i < j < |tasks| ==> tasks[i].id != tasks[j].id
    ensures Distinct(Unscheduled(tasks, scheduled))
  {
    if tasks != [] {
      var n := |tasks| - 1;
      UnscheduledDistinct(tasks[..n], scheduled);
      if tasks[n].id !in scheduled {
        assert tasks[n].id !in Unscheduled(tasks[..n], scheduled);
        DistinctAppend(Unscheduled(tasks[..n], scheduled), tasks[n].id);
      }
    }
  }
}
