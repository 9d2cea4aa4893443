/** The runtime scheduler's inputs, actor eligibility, and the ranking of actor candidates. */
module SchedulerModel {
  import opened Basics
  import opened Reservations

  type PhaseId = string

  datatype Process = Process(
    duration: int,
    priority: int,
    deadline: Option<int>,
    release: int,
    latestStart: Option<int>,
    demand: int,
    preemptible: bool,
    allowedKinds: seq<string>,
    allowedActors: seq<ActorId>,
    preferredActors: seq<ActorId>,
    capabilities: seq<string>,
    deps: seq<TaskId>,
    mutex: seq<TaskId>,
    distances: map<ActorId, int>)

  datatype Phase = Phase(taskIds: seq<TaskId>, deps: seq<PhaseId>)

  /** `processes` answers "which process owns this task". */
  datatype Workflow = Workflow(phases: map<PhaseId, Phase>, processes: map<TaskId, Process>)

  datatype Actor = Actor(
    id: ActorId,
    kind: string,
    capacity: int,
    windows: seq<Window>,
    capabilities: seq<string>,
    costPerUnit: real,
    currentLoad: int)

  type Registry = map<ActorId, Actor>

  ghost predicate ValidRegistry(registry: Registry) {
    forall id :: id in registry ==> registry[id].id == id
  }

  datatype WorkflowState = WorkflowState(
    completedPhases: seq<PhaseId>,
    inFlight: seq<TaskId>,
    completed: seq<TaskId>,
    actorLoad: map<ActorId, int>,
    unavailable: seq<ActorId>,
    resumable: seq<TaskId>,
    unresumable: seq<TaskId>,
    taskDistances: map<TaskId, map<ActorId, int>>,
    taskRelease: map<TaskId, int>,
    taskAllowed: map<TaskId, seq<ActorId>>,
    taskPreferred: map<TaskId, seq<ActorId>>,
    taskActor: map<TaskId, ActorId>,
    plannedStart: map<TaskId, int>,
    plannedEnd: map<TaskId, int>,
    actualCompletion: map<TaskId, int>)

  datatype TaskInfo = TaskInfo(
    id: TaskId,
    phase: PhaseId,
    duration: int,
    priority: int,
    release: int,
    deadline: Option<int>,
    latestStart: Option<int>,
    demand: int)

  datatype PendingTask = PendingTask(info: TaskInfo, process: Option<Process>)

  datatype Criterion =
    | EarliestFeasibleStart
    | EarliestFeasibleCompletion
    | DistanceToWork
    | ExecutionCost
    | UptimeUtilisation
    | LeastLoaded
    | PreferredActor

  datatype Strategy = EarliestDeadlineFirst | FirstInFirstOut | ShortestJobFirst | PriorityOnly

  // ---- effective values --------------------------------------------------------------------------------

  function Deps(task: PendingTask): seq<TaskId> {
    if task.process.Some? then task.process.value.deps else []
  }

  function Mutex(task: PendingTask): seq<TaskId> {
    if task.process.Some? then task.process.value.mutex else []
  }

  function EffectiveRelease(task: PendingTask, st: WorkflowState): int {
    if task.info.id in st.taskRelease then st.taskRelease[task.info.id] else task.info.release
  }

  function EffectiveAllowed(task: PendingTask, st: WorkflowState): seq<ActorId> {
    if task.info.id in st.taskAllowed then st.taskAllowed[task.info.id]
    else if task.process.Some? then task.process.value.allowedActors
    else []
  }

  function EffectivePreferred(task: PendingTask, st: WorkflowState): seq<ActorId> {
    if task.info.id in st.taskPreferred then st.taskPreferred[task.info.id]
    else if task.process.Some? then task.process.value.preferredActors
    else []
  }

  /** An empty allow-list allows everyone. */
  predicate ActorIsAllowed(task: PendingTask, a: Actor, st: WorkflowState) {
    && (EffectiveAllowed(task, st) == [] || a.id in EffectiveAllowed(task, st))
    && (task.process.None? || task.process.value.allowedKinds == [] || a.kind in task.process.value.allowedKinds)
    && (task.process.None? || forall c :: c in task.process.value.capabilities ==> c in a.capabilities)
    && task.info.demand <= a.capacity
  }

  predicate Usable(task: PendingTask, a: Actor, st: WorkflowState) {
    a.id !in st.unavailable && ActorIsAllowed(task, a, st)
  }

  /** The largest listed distance. */
  ghost predicate IsFarthest(distances: map<ActorId, int>, far: int) {
    && (exists id :: id in distances && distances[id] == far)
    && (forall id :: id in distances ==> distances[id] <= far)
  }

  /** One more than the farthest listed distance stands for an actor that is not listed. */
  ghost predicate IsFallback(distances: map<ActorId, int>, distance: int) {
    if distances.Keys == {} then distance == 0 else IsFarthest(distances, distance - 1)
  }

  method FallbackDistance(distances: map<ActorId, int>) returns (distance: int)
    ensures IsFallback(distances, distance)
  {
    if distances.Keys == {} {
      return 0;
    }
    var id :| id in distances.Keys;
    var far := distances[id];
    var todo := distances.Keys - {id};
    while todo != {}
      invariant todo <= distances.Keys
      invariant exists k :: k in distances && distances[k] == far
      invariant forall k :: k in distances && k !in todo ==> distances[k] <= far
      decreases todo
    {
      var k :| k in todo;
      if distances[k] > far { far := distances[k]; }
      todo := todo - {k};
    }
    return far + 1;
  }

  lemma {:induction false} FarthestExists(distances: map<ActorId, int>, keys: set<ActorId>) returns (id: ActorId)
    requires keys != {} && keys <= distances.Keys
    ensures id in keys && forall other :: other in keys ==> distances[other] <= distances[id]
    decreases keys
  {
    var first :| first in keys;
    id := first;
    var rest := keys - {first};
    if rest != {} {
      var best := FarthestExists(distances, rest);
      if distances[first] < distances[best] { id := best; }
    }
    forall other | other in keys ensures distances[other] <= distances[id] {
      assert other == first || other in rest;
    }
  }

  lemma FallbackExists(distances: map<ActorId, int>)
    ensures exists distance :: IsFallback(distances, distance)
  {
    if distances.Keys == {} {
      assert IsFallback(distances, 0);
    } else {
      var id := FarthestExists(distances, distances.Keys);
      assert IsFarthest(distances, distances[id]);
      assert IsFallback(distances, distances[id] + 1);
    }
  }

  ghost function Fallback(distances: map<ActorId, int>): (distance: int)
    ensures IsFallback(distances, distance)
  {
    FallbackExists(distances);
    var distance :| IsFallback(distances, distance);
    distance
  }

  ghost function ListedOrFallback(distances: map<ActorId, int>, actor: ActorId): int {
    if actor in distances then distances[actor] else Fallback(distances)
  }

  ghost function EffectiveDistance(task: PendingTask, actor: ActorId, st: WorkflowState): int {
    if task.info.id in st.taskDistances then ListedOrFallback(st.taskDistances[task.info.id], actor)
    else if task.process.None? then 0
    else ListedOrFallback(task.process.value.distances, actor)
  }

  method DistanceFor(task: PendingTask, actor: ActorId, st: WorkflowState) returns (distance: int)
    ensures distance == EffectiveDistance(task, actor, st)
  {
    if task.info.id !in st.taskDistances && task.process.None? {
      return 0;
    }
    var distances := if task.info.id in st.taskDistances then st.taskDistances[task.info.id] else task.process.value.distances;
    if actor in distances {
      return distances[actor];
    }
    distance := FallbackDistance(distances);
  }

  // ---- ranking ---------------------------------------------------------------------------------------------

  datatype Candidate = Candidate(
    actor: ActorId, start: int, finish: int, distance: int, cost: real, utilization: real, load: int, preferred: bool)

  /** What a criterion looks at; the smaller value is preferred. */
  function Measure(criterion: Criterion, c: Candidate): real {
    match criterion
    case EarliestFeasibleStart => c.start as real
    case EarliestFeasibleCompletion => c.finish as real
    case DistanceToWork => c.distance as real
    case ExecutionCost => c.cost
    case UptimeUtilisation => -c.utilization
    case LeastLoaded => c.load as real
    case PreferredActor => if c.preferred then 0.0 else 1.0
  }

  /** Sign of the comparison and the position of the criterion that decided it. */
  datatype Verdict = Verdict(order: int, criterion: nat)

  function Compare(profile: seq<Criterion>, a: Candidate, b: Candidate, from: nat): Verdict
    requires from <= |profile|
    decreases |profile| - from
  {
    if from == |profile| then
      Verdict(if TextLess(a.actor, b.actor) then -1 else if a.actor == b.actor then 0 else 1, |profile|)
    else if Measure(profile[from], a) < Measure(profile[from], b) then Verdict(-1, from)
    else if Measure(profile[from], a) > Measure(profile[from], b) then Verdict(1, from)
    else Compare(profile, a, b, from + 1)
  }

  predicate Precedes(profile: seq<Criterion>, a: Candidate, b: Candidate) {
    Compare(profile, a, b, 0).order < 0
  }

  /** The criterion sees no difference. */
  predicate SameOn(criterion: Criterion, a: Candidate, b: Candidate) {
    match criterion
    case EarliestFeasibleStart => a.start == b.start
    case EarliestFeasibleCompletion => a.finish == b.finish
    case DistanceToWork => a.distance == b.distance
    case ExecutionCost => a.cost == b.cost
    case UptimeUtilisation => a.utilization == b.utilization
    case LeastLoaded => a.load == b.load
    case PreferredActor => a.preferred == b.preferred
  }

  /** `a` starts or ends earlier, is nearer, cheaper, better used, less loaded, or the preferred one. */
  predicate BeatsOn(criterion: Criterion, a: Candidate, b: Candidate) {
    match criterion
    case EarliestFeasibleStart => a.start < b.start
    case EarliestFeasibleCompletion => a.finish < b.finish
    case DistanceToWork => a.distance < b.distance
    case ExecutionCost => a.cost < b.cost
    case UptimeUtilisation => a.utilization > b.utilization
    case LeastLoaded => a.load < b.load
    case PreferredActor => a.preferred && !b.preferred
  }

  /** Criterion `k` is the first that sees a difference, and `a` beats `b` on it; past the last criterion the
      lesser actor id wins. */
  ghost predicate Wins(profile: seq<Criterion>, a: Candidate, b: Candidate, k: nat) {
    && k <= |profile|
    && (forall i :: 0 <= i < k ==> SameOn(profile[i], a, b))
    && (if k == |profile| then TextLess(a.actor, b.actor) else BeatsOn(profile[k], a, b))
  }

  lemma {:induction false} CompareFindsWinner(profile: seq<Criterion>, a: Candidate, b: Candidate, from: nat)
    requires from <= |profile| && forall i :: 0 <= i < from ==> SameOn(profile[i], a, b)
    ensures var v := Compare(profile, a, b, from);
            && (v.order < 0 ==> Wins(profile, a, b, v.criterion))
            && (v.order > 0 ==> Wins(profile, b, a, v.criterion))
            && (v.order == 0 ==> a.actor == b.actor && forall i :: 0 <= i < |profile| ==> SameOn(profile[i], a, b))
    decreases |profile| - from
  {
    if from == |profile| {
      TextTotal(a.actor, b.actor);
    } else if SameOn(profile[from], a, b) {
      CompareFindsWinner(profile, a, b, from + 1);
    }
  }

  /** One criterion, with the comparisons written out as in the source. */
  method CompareOn(criterion: Criterion, a: Candidate, b: Candidate) returns (order: int)
    ensures order < 0 <==> BeatsOn(criterion, a, b)
    ensures order > 0 <==> BeatsOn(criterion, b, a)
    ensures order == 0 <==> SameOn(criterion, a, b)
    ensures order == if Measure(criterion, a) < Measure(criterion, b) then -1
                     else if Measure(criterion, a) > Measure(criterion, b) then 1 else 0
  {
    match criterion {
      case EarliestFeasibleStart =>
        if a.start != b.start { return if a.start < b.start then -1 else 1; }
      case EarliestFeasibleCompletion =>
        if a.finish != b.finish { return if a.finish < b.finish then -1 else 1; }
      case DistanceToWork =>
        if a.distance != b.distance { return if a.distance < b.distance then -1 else 1; }
      case ExecutionCost =>
        if a.cost != b.cost { return if a.cost < b.cost then -1 else 1; }
      case UptimeUtilisation =>
        if a.utilization != b.utilization { return if a.utilization > b.utilization then -1 else 1; }
      case LeastLoaded =>
        if a.load != b.load { return if a.load < b.load then -1 else 1; }
      case PreferredActor =>
        if a.preferred != b.preferred { return if a.preferred then -1 else 1; }
    }
    return 0;
  }

  /** The loop over the criteria: the first one that sees a difference decides, then the actor id. */
  method CompareCandidates(profile: seq<Criterion>, a: Candidate, b: Candidate) returns (v: Verdict)
    ensures v == Compare(profile, a, b, 0)
    ensures v.order < 0 ==> Wins(profile, a, b, v.criterion)
    ensures v.order > 0 ==> Wins(profile, b, a, v.criterion)
    ensures v.order == 0 ==> a.actor == b.actor && forall k :: 0 <= k < |profile| ==> SameOn(profile[k], a, b)
  {
    CompareFindsWinner(profile, a, b, 0);
    var i := 0;
    while i < |profile|
      invariant 0 <= i <= |profile|
      invariant Compare(profile, a, b, 0) == Compare(profile, a, b, i)
    {
      var order := CompareOn(profile[i], a, b);
      if order != 0 {
        return Verdict(order, i);
      }
      i := i + 1;
    }
    TextTotal(a.actor, b.actor);
    if a.actor != b.actor {
      return Verdict(if TextLess(a.actor, b.actor) then -1 else 1, |profile|);
    }
    return Verdict(0, |profile|);
  }

  /** The reported criterion is the first on which the two candidates differ. */
  lemma {:induction false} VerdictNamesFirstDifference(profile: seq<Criterion>, a: Candidate, b: Candidate, from: nat)
    requires from <= |profile|
    ensures var v := Compare(profile, a, b, from);
            && from <= v.criterion <= |profile|
            && (forall i :: from <= i < v.criterion ==> Measure(profile[i], a) == Measure(profile[i], b))
            && (v.criterion < |profile| ==> Measure(profile[v.criterion], a) != Measure(profile[v.criterion], b))
    decreases |profile| - from
  {
    if from < |profile| && Measure(profile[from], a) == Measure(profile[from], b) {
      VerdictNamesFirstDifference(profile, a, b, from + 1);
    }
  }

  lemma {:induction false} CompareTotal(profile: seq<Criterion>, a: Candidate, b: Candidate, from: nat)
    requires from <= |profile|
    ensures Compare(profile, a, b, from).order == -Compare(profile, b, a, from).order
    ensures Compare(profile, a, b, from).order == 0 ==> a.actor == b.actor
    ensures Compare(profile, a, a, from).order == 0
    decreases |profile| - from
  {
    if from == |profile| {
      TextTotal(a.actor, b.actor);
      TextTotal(a.actor, a.actor);
    } else {
      CompareTotal(profile, a, b, from + 1);
    }
  }

  lemma {:induction false} CompareTransitive(profile: seq<Criterion>, a: Candidate, b: Candidate, c: Candidate, from: nat)
    requires from <= |profile|
    requires Compare(profile, a, b, from).order < 0 && Compare(profile, b, c, from).order < 0
    ensures Compare(profile, a, c, from).order < 0
    decreases |profile| - from
  {
    if from == |profile| {
      TextTransitive(a.actor, b.actor, c.actor);
    } else if Measure(profile[from], a) == Measure(profile[from], b) == Measure(profile[from], c) {
      CompareTransitive(profile, a, b, c, from + 1);
    }
  }

  /** For every list of criteria the ranking is a strict order, total over different actors. */
  lemma RankingIsStrictTotalOrder(profile: seq<Criterion>, a: Candidate, b: Candidate, c: Candidate)
    ensures !Precedes(profile, a, a)
    ensures Precedes(profile, a, b) ==> !Precedes(profile, b, a)
    ensures Precedes(profile, a, b) && Precedes(profile, b, c) ==> Precedes(profile, a, c)
    ensures a.actor != b.actor ==> Precedes(profile, a, b) || Precedes(profile, b, a)
  {
    CompareTotal(profile, a, b, 0);
    if Precedes(profile, a, b) && Precedes(profile, b, c) {
      CompareTransitive(profile, a, b, c, 0);
    }
  }
}
