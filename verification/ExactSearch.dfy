/** The indexed branch-and-bound backend: search states, the depth-first exploration with its
    optimistic bound, and the imperative form that keeps an incumbent by reference. */
module ExactSearch {
  import opened Basics
  import opened Reservations
  import opened OptimizerModel
  import opened ConstraintIndex

  /** A quarter of the largest 64-bit integer. */
  const LARGE_TIME := 2305843009213693951
  const PRIORITY_BOUND := 1_000_000

  datatype SearchAssignment = SearchAssignment(assignment: Assignment, priority: int)

  datatype State = State(
    reservations: map<ActorId, seq<Interval>>,
    completion: map<TaskId, int>,
    scheduled: set<TaskId>,
    dropped: set<TaskId>,
    assignments: seq<SearchAssignment>)

  datatype Score = Score(fulfilled: int, priority: int, makespan: int)

  datatype Candidate = Candidate(actor: ActorId, start: int, end: int, distance: int, preferred: bool, load: int)

  datatype Plan = Plan(score: Score, assignments: seq<Assignment>, unfulfilled: seq<TaskId>)

  // ---- scores -------------------------------------------------------------------------------

  function TotalPriority(xs: seq<SearchAssignment>, weight: int): int {
    if xs == [] then 0 else TotalPriority(xs[..|xs| - 1], weight) + xs[|xs| - 1].priority * weight
  }

  function Makespan(xs: seq<SearchAssignment>): int {
    if xs == [] then 0 else Max(Makespan(xs[..|xs| - 1]), xs[|xs| - 1].assignment.end)
  }

  function ScoreOf(opts: Options, st: State): Score {
    Score(|st.assignments|, TotalPriority(st.assignments, opts.priorityWeight), Makespan(st.assignments))
  }

  predicate Better(a: Score, b: Score) {
    || a.fulfilled > b.fulfilled
    || (a.fulfilled == b.fulfilled && a.priority > b.priority)
    || (a.fulfilled == b.fulfilled && a.priority == b.priority && a.makespan < b.makespan)
  }

  function RemainingPossible(m: Model, st: State): int {
    |m.tasks| - |st.scheduled| - |st.dropped|
  }

  /** What the search hopes for below a node. */
  function Optimistic(m: Model, opts: Options, st: State): Score {
    var s := ScoreOf(opts, st);
    Score(s.fulfilled + RemainingPossible(m, st),
          s.priority + RemainingPossible(m, st) * PRIORITY_BOUND,
          s.makespan)
  }

  // ---- dropping what a dropped task blocks -----------------------------------------------------

  predicate DependencyBlocked(t: Task, dropped: set<TaskId>) {
    exists d :: d in t.deps && d in dropped
  }

  predicate DependenciesSatisfied(t: Task, scheduled: set<TaskId>, dropped: set<TaskId>) {
    forall d :: d in t.deps ==> d in scheduled && d !in dropped
  }

  predicate NewlyBlocked(t: Task, scheduled: set<TaskId>, dropped: set<TaskId>) {
    t.id !in scheduled && t.id !in dropped && DependencyBlocked(t, dropped)
  }

  /** One sweep over the tasks, each seeing what earlier ones dropped. */
  function DropPass(tasks: seq<Task>, scheduled: set<TaskId>, dropped: set<TaskId>): (r: set<TaskId>)
    ensures dropped <= r <= dropped + (set t | t in tasks :: t.id)
  {
    if tasks == [] then dropped
    else DropPass(tasks[1..], scheduled,
                  if NewlyBlocked(tasks[0], scheduled, dropped) then dropped + {tasks[0].id} else dropped)
  }

  /** Sweeps until nothing changes. */
  function DropFix(m: Model, scheduled: set<TaskId>, dropped: set<TaskId>): (r: set<TaskId>)
    ensures dropped <= r <= dropped + Ids(m)
    decreases |Ids(m) - dropped|
  {
    var next := DropPass(m.tasks, scheduled, dropped);
    if next == dropped then dropped
    else
      assert Ids(m) - next < Ids(m) - dropped by {
        var x :| x in next && x !in dropped;
        assert x in Ids(m) - dropped && x !in Ids(m) - next;
      }
      SubsetCard(Ids(m) - next, Ids(m) - dropped);
      DropFix(m, scheduled, next)
  }

  lemma {:induction false} SubsetCard<T>(a: set<T>, b: set<T>)
    requires a <= b
    ensures |a| <= |b|
    ensures a < b ==> |a| < |b|
  {
    assert b == a + (b - a);
    if a < b {
      var x :| x in b - a;
      assert |b - a| > 0;
    }
  }

  function Settle(m: Model, st: State): (r: State)
    ensures r == st.(dropped := r.dropped)
  {
    st.(dropped := DropFix(m, st.scheduled, st.dropped))
  }

  // ---- ready tasks and candidates ---------------------------------------------------------------

  predicate IsReady(t: Task, st: State) {
    && t.id !in st.scheduled
    && t.id !in st.dropped
    && !DependencyBlocked(t, st.dropped)
    && DependenciesSatisfied(t, st.scheduled, st.dropped)
  }

  function ReadyFilter(tasks: seq<Task>, st: State): (r: seq<Task>)
    ensures forall t :: t in r <==> t in tasks && IsReady(t, st)
  {
    if tasks == [] then []
    else
      var n := |tasks| - 1;
      assert tasks == tasks[..n] + [tasks[n]];
      ReadyFilter(tasks[..n], st) + (if IsReady(tasks[n], st) then [tasks[n]] else [])
  }

  function TaskKey(t: Task): Key {
    [Num(-t.priority), Num(if t.deadline.Some? then t.deadline.value else LARGE_TIME),
     Num(t.release), Num(t.duration), Text(t.id)]
  }

  /** A task on which a node can branch. */
  predicate Branches(m: Model, st: State, t: Task) {
    t in m.tasks && t.id !in st.scheduled && t.id !in st.dropped
  }

  function ReadyTasks(m: Model, st: State): (r: seq<Task>)
    ensures forall t :: t in r <==> t in m.tasks && IsReady(t, st)
    ensures r != [] ==> Branches(m, st, r[0])
  {
    var ready := Sort(TaskKey, ReadyFilter(m.tasks, st));
    PermutationMembers(ready, ReadyFilter(m.tasks, st));
    assert ready != [] ==> ready[0] in ready;
    ready
  }

  predicate MutexBlocked(t: Task, st: State) {
    exists x :: x in t.mutex && x in st.scheduled
  }

  function ReservedOn(st: State, actor: ActorId): seq<Interval> {
    if actor in st.reservations then st.reservations[actor] else []
  }

  /** The time by which every dependency with a known completion has finished. */
  function DependencyReady(deps: seq<TaskId>, completion: map<TaskId, int>): (r: int)
    ensures r >= 0
    ensures forall d :: d in deps && d in completion ==> completion[d] <= r
  {
    if deps == [] then 0
    else
      var n := |deps| - 1;
      var r := DependencyReady(deps[..n], completion);
      assert deps == deps[..n] + [deps[n]];
      if deps[n] in completion then Max(r, completion[deps[n]]) else r
  }

  function CandidateFor(t: Task, a: Actor, st: State): Option<Candidate> {
    if t.demand > a.capacity || !(forall c :: c in t.capabilities ==> c in a.capabilities) then None
    else
      var rs := ReservedOn(st, a.id);
      var release := Max(t.release, DependencyReady(t.deps, st.completion));
      var start := FirstFit(a.windows, a.capacity, rs, release, t.duration, t.demand);
      if start.None? then None
      else if t.latestStart.Some? && start.value > t.latestStart.value then None
      else if t.deadline.Some? && start.value + t.duration > t.deadline.value then None
      else Some(Candidate(a.id, start.value, start.value + t.duration,
                          if a.id in t.distances then t.distances[a.id] else LARGE_TIME,
                          a.id in t.preferredActors,
                          DemandAt(rs, start.value)))
  }

  /** Candidates in the order of the eligible list; a null actor is skipped. */
  function CollectCandidates(m: Model, t: Task, list: seq<nat>, st: State): (r: seq<Candidate>)
    ensures forall c :: c in r <==>
              exists j :: j in list && j < |m.actors| && CandidateFor(t, m.actors[j], st) == Some(c)
  {
    if list == [] then []
    else
      var n := |list| - 1;
      assert list == list[..n] + [list[n]];
      var here := if list[n] < |m.actors| then CandidateFor(t, m.actors[list[n]], st) else None;
      CollectCandidates(m, t, list[..n], st) + (if here.Some? then [here.value] else [])
  }

  function CandidateKey(c: Candidate): Key {
    [Num(if c.preferred then 0 else 1), Num(c.end), Num(c.start), Num(c.distance), Num(c.load), Text(c.actor)]
  }

  function EligibleList(index: Index, t: Task): seq<nat> {
    if t.id in index.eligible then index.eligible[t.id] else []
  }

  function Candidates(m: Model, index: Index, t: Task, st: State): seq<Candidate> {
    if MutexBlocked(t, st) then [] else Sort(CandidateKey, CollectCandidates(m, t, EligibleList(index, t), st))
  }

  // ---- exploration ------------------------------------------------------------------------------

  function Place(st: State, t: Task, c: Candidate): State {
    State(st.reservations[c.actor := ReservedOn(st, c.actor) + [Interval(c.start, c.end, t.demand)]],
          st.completion[t.id := c.end],
          st.scheduled + {t.id},
          st.dropped,
          st.assignments + [SearchAssignment(Assignment(t.id, c.actor, c.start, c.end), t.priority)])
  }

  function Drop(st: State, t: Task): State {
    st.(dropped := st.dropped + {t.id})
  }

  function AssignmentsOf(xs: seq<SearchAssignment>): (r: seq<Assignment>)
    ensures |r| == |xs|
    ensures forall k :: 0 <= k < |xs| ==> r[k] == xs[k].assignment
  {
    seq(|xs|, k requires 0 <= k < |xs| => xs[k].assignment)
  }

  function PlanOf(m: Model, opts: Options, st: State): Plan {
    Plan(ScoreOf(opts, st), AssignmentsOf(st.assignments), Unscheduled(m.tasks, st.scheduled))
  }

  /** Keep the incumbent unless the new leaf is strictly better. */
  function Record(m: Model, opts: Options, st: State, best: Option<Plan>): Option<Plan> {
    if best.None? || Better(ScoreOf(opts, st), best.value.score) then Some(PlanOf(m, opts, st)) else best
  }

  function Open(m: Model, st: State): set<TaskId> {
    Ids(m) - st.scheduled - st.dropped
  }

  lemma SettleShrinks(m: Model, st: State)
    ensures Open(m, Settle(m, st)) <= Open(m, st)
    ensures |Open(m, Settle(m, st))| <= |Open(m, st)|
  {
    SubsetCard(Open(m, Settle(m, st)), Open(m, st));
  }

  lemma OpenAfterPlace(m: Model, st: State, t: Task, c: Candidate)
    requires Branches(m, st, t)
    ensures |Open(m, Place(st, t, c))| < |Open(m, st)|
  {
    assert t.id in Open(m, st);
    SubsetCard(Open(m, Place(st, t, c)), Open(m, st));
  }

  lemma OpenAfterDrop(m: Model, st: State, t: Task)
    requires Branches(m, st, t)
    ensures |Open(m, Drop(st, t))| < |Open(m, st)|
  {
    assert t.id in Open(m, st);
    SubsetCard(Open(m, Drop(st, t)), Open(m, st));
  }

  predicate MayDrop(opts: Options, t: Task) {
    opts.allowPartial || !t.mandatory
  }

  predicate Hopeless(m: Model, opts: Options, st: State, best: Option<Plan>) {
    best.Some? && !Better(Optimistic(m, opts, st), best.value.score)
  }

  /** Depth-first exploration below `st`; `prune` switches the bound on. */
  function Explore(m: Model, index: Index, opts: Options, prune: bool, st: State, best: Option<Plan>): Option<Plan>
    decreases |Open(m, st)|, 1, 0
  {
    var s := Settle(m, st);
    SettleShrinks(m, st);
    if prune && Hopeless(m, opts, s, best) then best
    else
      var ready := ReadyTasks(m, s);
      if ready == [] then Record(m, opts, s, best)
      else
        var t := ready[0];
        var after := ExploreAll(m, index, opts, prune, s, t, Candidates(m, index, t, s), best);
        OpenAfterDrop(m, s, t);
        if MayDrop(opts, t) then Explore(m, index, opts, prune, Drop(s, t), after) else after
  }

  function ExploreAll(m: Model, index: Index, opts: Options, prune: bool, st: State, t: Task,
                      cs: seq<Candidate>, best: Option<Plan>): Option<Plan>
    requires Branches(m, st, t)
    decreases |Open(m, st)|, 0, |cs|
  {
    if cs == [] then best
    else
      var n := |cs| - 1;
      OpenAfterPlace(m, st, t, cs[n]);
      Explore(m, index, opts, prune, Place(st, t, cs[n]),
              ExploreAll(m, index, opts, prune, st, t, cs[..n], best))
  }

  function Root(m: Model): State {
    State(map id | id in ActorIds(m) :: [], map[], {}, {}, [])
  }

  // ---- imperative form ----------------------------------------------------------------------------

  method DropDescendantsIfBlocked(m: Model, st: State) returns (r: State)
    ensures r == Settle(m, st)
  {
    var dropped := st.dropped;
    var changed := true;
    while changed
      invariant DropFix(m, st.scheduled, st.dropped) == DropFix(m, st.scheduled, dropped)
      invariant !changed ==> DropPass(m.tasks, st.scheduled, dropped) == dropped
      decreases |Ids(m) - dropped|, changed
    {
      changed := false;
      ghost var before := dropped;
      var i := 0;
      while i < |m.tasks|
        invariant 0 <= i <= |m.tasks|
        invariant DropPass(m.tasks, st.scheduled, before) == DropPass(m.tasks[i..], st.scheduled, dropped)
        invariant before <= dropped <= before + Ids(m)
        invariant changed <==> dropped != before
      {
        assert m.tasks[i..][0] == m.tasks[i] && m.tasks[i..][1..] == m.tasks[i + 1..];
        if NewlyBlocked(m.tasks[i], st.scheduled, dropped) {
          dropped := dropped + {m.tasks[i].id};
          changed := true;
        }
        i := i + 1;
      }
      assert DropPass(m.tasks, st.scheduled, before) == dropped;
      SubsetCard(Ids(m) - dropped, Ids(m) - before);
      if changed {
        ghost var x :| x in dropped && x !in before;
        assert x in Ids(m) - before && x !in Ids(m) - dropped;
      }
    }
    r := st.(dropped := dropped);
  }

  method CollectReady(m: Model, st: State) returns (ready: seq<Task>)
    ensures ready == ReadyTasks(m, st)
  {
    ready := [];
    var i := 0;
    while i < |m.tasks|
      invariant 0 <= i <= |m.tasks|
      invariant ready == ReadyFilter(m.tasks[..i], st)
    {
      assert m.tasks[..i + 1][..i] == m.tasks[..i];
      if m.tasks[i].id in st.scheduled || m.tasks[i].id in st.dropped {
      } else if DependencyBlocked(m.tasks[i], st.dropped) {
      } else if DependenciesSatisfied(m.tasks[i], st.scheduled, st.dropped) {
        ready := ready + [m.tasks[i]];
      }
      i := i + 1;
    }
    assert m.tasks[..i] == m.tasks;
    ready := Sort(TaskKey, ready);
  }

  method DependencyReadyTime(deps: seq<TaskId>, completion: map<TaskId, int>) returns (r: int)
    ensures r == DependencyReady(deps, completion)
  {
    r := 0;
    var i := 0;
    while i < |deps|
      invariant 0 <= i <= |deps|
      invariant r == DependencyReady(deps[..i], completion)
    {
      assert deps[..i + 1][..i] == deps[..i];
      if deps[i] in completion {
        r := Max(r, completion[deps[i]]);
      }
      i := i + 1;
    }
    assert deps[..i] == deps;
  }

  method CandidateForActor(t: Task, a: Actor, st: State) returns (c: Option<Candidate>)
    ensures c == CandidateFor(t, a, st)
  {
    if t.demand > a.capacity || !(forall x :: x in t.capabilities ==> x in a.capabilities) {
      return None;
    }
    var rs := ReservedOn(st, a.id);
    var ready := DependencyReadyTime(t.deps, st.completion);
    var start := EarliestStart(a.windows, a.capacity, rs, Max(t.release, ready), t.duration, t.demand);
    if start.None? || (t.latestStart.Some? && start.value > t.latestStart.value) {
      return None;
    }
    var end := start.value + t.duration;
    if t.deadline.Some? && end > t.deadline.value {
      return None;
    }
    return Some(Candidate(a.id, start.value, end,
                          if a.id in t.distances then t.distances[a.id] else LARGE_TIME,
                          a.id in t.preferredActors,
                          DemandAt(rs, start.value)));
  }

  method CandidatesForTask(m: Model, index: Index, t: Task, st: State) returns (cs: seq<Candidate>)
    ensures cs == Candidates(m, index, t, st)
  {
    cs := [];
    if MutexBlocked(t, st) {
      return;
    }
    var list := EligibleList(index, t);
    var i := 0;
    while i < |list|
      invariant 0 <= i <= |list|
      invariant cs == CollectCandidates(m, t, list[..i], st)
    {
      assert list[..i + 1][..i] == list[..i];
      if list[i] < |m.actors| {
        var c := CandidateForActor(t, m.actors[list[i]], st);
        if c.Some? {
          cs := cs + [c.value];
        }
      }
      i := i + 1;
    }
    assert list[..i] == list;
    cs := Sort(CandidateKey, cs);
  }

  /** The best solution so far, updated in place by the search. */
  class Incumbent {
    var haveBest: bool
    var score: Score
    var assignments: seq<Assignment>
    var unfulfilled: seq<TaskId>

    constructor ()
      ensures View() == None && assignments == [] && unfulfilled == []
    {
      haveBest, score := false, Score(0, 0, LARGE_TIME);
      assignments, unfulfilled := [], [];
    }

    function View(): Option<Plan>
      reads this
    {
      if haveBest then Some(Plan(score, assignments, unfulfilled)) else None
    }

    /** A leaf replaces the incumbent only when strictly better. */
    method Offer(m: Model, opts: Options, st: State)
      modifies this
      ensures View() == Record(m, opts, st, old(View()))
    {
      if !haveBest || Better(ScoreOf(opts, st), score) {
        Replace(m, opts, st);
      }
    }

    method Replace(m: Model, opts: Options, st: State)
      modifies this
      ensures View() == Some(PlanOf(m, opts, st))
    {
      CopyAssignments(st.assignments);
      CollectUnfulfilled(m.tasks, st.scheduled);
      score := ScoreOf(opts, st);
      haveBest := true;
    }

    method CopyAssignments(xs: seq<SearchAssignment>)
      modifies this`assignments
      ensures assignments == AssignmentsOf(xs)
    {
      assignments := [];
      var i := 0;
      while i < |xs|
        invariant 0 <= i <= |xs|
        invariant assignments == AssignmentsOf(xs)[..i]
      {
        assignments := assignments + [xs[i].assignment];
        i := i + 1;
      }
    }

    method CollectUnfulfilled(tasks: seq<Task>, scheduled: set<TaskId>)
      modifies this`unfulfilled
      ensures unfulfilled == Unscheduled(tasks, scheduled)
    {
      unfulfilled := [];
      var i := 0;
      while i < |tasks|
        invariant 0 <= i <= |tasks|
        invariant unfulfilled == Unscheduled(tasks[..i], scheduled)
      {
        UnscheduledOneMore(tasks, scheduled, i);
        if tasks[i].id !in scheduled {
          unfulfilled := unfulfilled + [tasks[i].id];
        }
        i := i + 1;
      }
      assert tasks[..i] == tasks;
    }
  }

  /** What exploring a node with something ready comes to. */
  lemma ExploreNode(m: Model, index: Index, opts: Options, st: State, s: State, t: Task, best: Option<Plan>)
    requires s == Settle(m, st) && !Hopeless(m, opts, s, best)
    requires ReadyTasks(m, s) != [] && t == ReadyTasks(m, s)[0]
    ensures Explore(m, index, opts, true, st, best)
         == var after := ExploreAll(m, index, opts, true, s, t, Candidates(m, index, t, s), best);
            if MayDrop(opts, t) then Explore(m, index, opts, true, Drop(s, t), after) else after
  {
  }

  lemma ExploreEnd(m: Model, index: Index, opts: Options, st: State, s: State, best: Option<Plan>)
    requires s == Settle(m, st)
    ensures Hopeless(m, opts, s, best) ==> Explore(m, index, opts, true, st, best) == best
    ensures !Hopeless(m, opts, s, best) && ReadyTasks(m, s) == [] ==>
              Explore(m, index, opts, true, st, best) == Record(m, opts, s, best)
  {
  }

  method Dfs(m: Model, index: Index, opts: Options, st: State, best: Incumbent)
    modifies best
    ensures best.View() == Explore(m, index, opts, true, st, old(best.View()))
    decreases |Open(m, st)|, 2
  {
    var s := DropDescendantsIfBlocked(m, st);
    ExploreEnd(m, index, opts, st, s, best.View());
    if best.haveBest && !Better(Optimistic(m, opts, s), best.score) {
      return;
    }
    var ready := CollectReady(m, s);
    if ready == [] {
      best.Offer(m, opts, s);
      return;
    }
    SettleShrinks(m, st);
    ExploreNode(m, index, opts, st, s, ready[0], best.View());
    Branch(m, index, opts, s, ready[0], best);
  }

  /** Places the task every way there is, then leaves it out if that is allowed. */
  method Branch(m: Model, index: Index, opts: Options, s: State, t: Task, best: Incumbent)
    requires Branches(m, s, t)
    modifies best
    ensures best.View() == var after := ExploreAll(m, index, opts, true, s, t, Candidates(m, index, t, s), old(best.View()));
                           if MayDrop(opts, t) then Explore(m, index, opts, true, Drop(s, t), after) else after
    decreases |Open(m, s)|, 1
  {
    var cs := CandidatesForTask(m, index, t, s);
    TryCandidates(m, index, opts, s, t, cs, best);
    if opts.allowPartial || !t.mandatory {
      OpenAfterDrop(m, s, t);
      Dfs(m, index, opts, Drop(s, t), best);
    }
  }

  lemma ExploreOneMore(m: Model, index: Index, opts: Options, prune: bool, st: State, t: Task, cs: seq<Candidate>,
                       i: nat, best: Option<Plan>)
    requires Branches(m, st, t) && i < |cs|
    ensures ExploreAll(m, index, opts, prune, st, t, cs[..i + 1], best)
         == Explore(m, index, opts, prune, Place(st, t, cs[i]), ExploreAll(m, index, opts, prune, st, t, cs[..i], best))
  {
    assert cs[..i + 1][..i] == cs[..i];
  }

  /** The branch loop of one node. */
  method TryCandidates(m: Model, index: Index, opts: Options, st: State, t: Task, cs: seq<Candidate>, best: Incumbent)
    requires Branches(m, st, t)
    modifies best
    ensures best.View() == ExploreAll(m, index, opts, true, st, t, cs, old(best.View()))
    decreases |Open(m, st)|, 0
  {
    var i := 0;
    while i < |cs|
      invariant 0 <= i <= |cs|
      invariant best.View() == ExploreAll(m, index, opts, true, st, t, cs[..i], old(best.View()))
    {
      ExploreOneMore(m, index, opts, true, st, t, cs, i, old(best.View()));
      OpenAfterPlace(m, st, t, cs[i]);
      Dfs(m, index, opts, Place(st, t, cs[i]), best);
      i := i + 1;
    }
    assert cs[..i] == cs;
  }

  datatype Solution = Solution(ok: bool, assignments: seq<Assignment>, unfulfilled: seq<TaskId>)

  /** The backend's entry point: what the pruned exploration from the root finds, or a failure without entries. */
  method Solve(m: Model, index: Index, opts: Options) returns (r: Solution)
    ensures var best := Explore(m, index, opts, true, Root(m), None);
            && (r.ok <==> best.Some?)
            && (best.Some? ==> r.assignments == best.value.assignments && r.unfulfilled == best.value.unfulfilled)
            && (best.None? ==> r.assignments == [] && r.unfulfilled == [])
  {
    var best := new Incumbent();
    Dfs(m, index, opts, Root(m), best);
    if best.haveBest {
      r := Solution(true, best.assignments, best.unfulfilled);
    } else {
      r := Solution(false, [], []);
    }
  }
}
