/** What the search offers and in which order, on the fields of tasks, actors and the plan so far. */
module SearchOrder {
  import opened Basics
  import opened Reservations
  import opened OptimizerModel
  import opened ConstraintIndex
  import opened ExactSearch
  import opened PruningExact
  import opened SearchFeasible

  // ---- the order of ready tasks and of candidates -----------------------------------------------------

  /** A task without a deadline counts as due at the end of time. */
  function Due(t: Task): int {
    if t.deadline.Some? then t.deadline.value else LARGE_TIME
  }

  lemma TaskKeyOrder(s: Task, t: Task)
    requires KeyLeq(TaskKey(s), TaskKey(t))
    ensures s.priority >= t.priority
    ensures s.priority == t.priority ==> Due(s) <= Due(t)
    ensures s.priority == t.priority && Due(s) == Due(t) ==> s.release <= t.release
    ensures s.priority == t.priority && Due(s) == Due(t) && s.release == t.release ==> s.duration <= t.duration
    ensures s.priority == t.priority && Due(s) == Due(t) && s.release == t.release && s.duration == t.duration ==>
              s.id == t.id || TextLess(s.id, t.id)
  {
    var a, b := TaskKey(s), TaskKey(t);
    KeyLeqMeaning(a, b);
    assert a[..0] == b[..0];
    assert a[0] == b[0] ==> a[..1] == b[..1];
    assert a[0] == b[0] && a[1] == b[1] ==> a[..2] == b[..2];
    assert a[0] == b[0] && a[1] == b[1] && a[2] == b[2] ==> a[..3] == b[..3];
    assert a[0] == b[0] && a[1] == b[1] && a[2] == b[2] && a[3] == b[3] ==> a[..4] == b[..4];
  }

  lemma SortedAt<T>(key: T -> Key, s: seq<T>, list: seq<T>, i: nat, j: nat)
    requires s == Sort(key, list) && i < j < |s|
    ensures KeyLeq(key(s[i]), key(s[j]))
  {
    SortSorted(key, list);
  }

  /** The ready task that a node branches on has the highest priority; then the earliest deadline, the
      earliest release, the shortest duration and the least id decide. */
  lemma ReadyTasksOrder(m: Model, st: State, i: nat, j: nat)
    requires i < j < |ReadyTasks(m, st)|
    ensures var s, t := ReadyTasks(m, st)[i], ReadyTasks(m, st)[j];
            && s.priority >= t.priority
            && (s.priority == t.priority ==>
                  && Due(s) <= Due(t)
                  && (Due(s) == Due(t) ==>
                        && s.release <= t.release
                        && (s.release == t.release ==>
                              && s.duration <= t.duration
                              && (s.duration == t.duration ==> s.id == t.id || TextLess(s.id, t.id)))))
  {
    SortedAt(TaskKey, ReadyTasks(m, st), ReadyFilter(m.tasks, st), i, j);
    TaskKeyOrder(ReadyTasks(m, st)[i], ReadyTasks(m, st)[j]);
  }

  lemma CandidateKeyOrder(c: Candidate, d: Candidate)
    requires KeyLeq(CandidateKey(c), CandidateKey(d))
    ensures d.preferred ==> c.preferred
    ensures c.preferred == d.preferred ==> c.end <= d.end
    ensures c.preferred == d.preferred && c.end == d.end ==> c.start <= d.start
    ensures c.preferred == d.preferred && c.end == d.end && c.start == d.start ==> c.distance <= d.distance
    ensures c.preferred == d.preferred && c.end == d.end && c.start == d.start && c.distance == d.distance ==>
              c.load <= d.load && (c.load == d.load ==> c.actor == d.actor || TextLess(c.actor, d.actor))
  {
    var a, b := CandidateKey(c), CandidateKey(d);
    KeyLeqMeaning(a, b);
    assert a[..0] == b[..0];
    assert a[0] == b[0] ==> a[..1] == b[..1];
    assert a[0] == b[0] && a[1] == b[1] ==> a[..2] == b[..2];
    assert a[0] == b[0] && a[1] == b[1] && a[2] == b[2] ==> a[..3] == b[..3];
    assert a[0] == b[0] && a[1] == b[1] && a[2] == b[2] && a[3] == b[3] ==> a[..4] == b[..4];
    assert a[0] == b[0] && a[1] == b[1] && a[2] == b[2] && a[3] == b[3] && a[4] == b[4] ==> a[..5] == b[..5];
  }

  /** A preferred actor is tried before one that is not; then the earlier end, the earlier start, the shorter
      distance, the smaller load and the lesser id decide. */
  lemma CandidatesOrder(m: Model, index: Index, t: Task, st: State, i: nat, j: nat)
    requires i < j < |Candidates(m, index, t, st)|
    ensures var c, d := Candidates(m, index, t, st)[i], Candidates(m, index, t, st)[j];
            && (d.preferred ==> c.preferred)
            && (c.preferred == d.preferred ==>
                  && c.end <= d.end
                  && (c.end == d.end ==>
                        && c.start <= d.start
                        && (c.start == d.start ==>
                              && c.distance <= d.distance
                              && (c.distance == d.distance ==>
                                    && c.load <= d.load
                                    && (c.load == d.load ==> c.actor == d.actor || TextLess(c.actor, d.actor))))))
  {
    SortedAt(CandidateKey, Candidates(m, index, t, st), CollectCandidates(m, t, EligibleList(index, t), st), i, j);
    CandidateKeyOrder(Candidates(m, index, t, st)[i], Candidates(m, index, t, st)[j]);
  }

  // ---- which candidates there are ------------------------------------------------------------------------

  /** The plan so far leaves room for the task on the actor from `s`. */
  ghost predicate Admits(m: Model, plan: seq<Assignment>, t: Task, a: Actor, s: int) {
    && Placement(t, a, s) && 0 <= s
    && (forall d :: d in t.deps ==> FinishedBefore(plan, d, s))
    && (forall at :: s <= at < s + t.duration ==> Load(m, plan, a.id, at) + t.demand <= a.capacity)
  }

  /** All dependencies of a ready task have finished by `s` exactly when the search thinks so. */
  lemma {:induction false} ReadyByFinish(st: State, deps: seq<TaskId>, s: int)
    requires ScheduledIsPlanned(st) && CompletionIsEnd(st) && DistinctTasks(PlanIn(st)) && 0 <= s
    requires forall d :: d in deps ==> d in st.scheduled
    ensures DependencyReady(deps, st.completion) <= s <==> forall d :: d in deps ==> FinishedBefore(PlanIn(st), d, s)
  {
    if deps != [] {
      var n := |deps| - 1;
      assert deps == deps[..n] + [deps[n]];
      ReadyByFinish(st, deps[..n], s);
      assert InPlan(PlanIn(st), deps[n]);
      var k :| 0 <= k < |PlanIn(st)| && PlanIn(st)[k].task == deps[n];
      assert deps[n] in st.completion && st.completion[deps[n]] == PlanIn(st)[k].end;
      assert FinishedBefore(PlanIn(st), deps[n], s) <==> PlanIn(st)[k].end <= s;
    }
  }

  /** Admission is what the search asks of a start: late enough, in time, and with room in one window. */
  lemma AdmitsMeaning(m: Model, st: State, t: Task, a: Actor, s: int)
    requires Recorded(m, st) && DistinctTasks(PlanIn(st)) && IsReady(t, st) && t.duration > 0 && Eligible(t, a)
    ensures Admits(m, PlanIn(st), t, a, s) <==>
            && Admissible(t, a) && InTime(t, s)
            && Max(t.release, DependencyReady(t.deps, st.completion)) <= s
            && Fits(a.windows, a.capacity, ReservedOn(st, a.id), s, t.duration, t.demand)
  {
    assert Reserved(m, st, a.id);
    if 0 <= s {
      ReadyByFinish(st, t.deps, s);
    }
    var rs := ReservedOn(st, a.id);
    forall at ensures Load(m, PlanIn(st), a.id, at) + t.demand <= a.capacity <==> DemandAt(rs, at) + t.demand <= a.capacity {
    }
  }

  /** An actor's candidate starts where the plan so far admits the task and, over windows in a useful order,
      nowhere earlier; there is none only if no start is admitted. */
  lemma CandidateIsLeastAdmitted(m: Model, st: State, t: Task, a: Actor)
    requires Recorded(m, st) && DistinctTasks(PlanIn(st)) && IsReady(t, st) && t.duration > 0 && Eligible(t, a)
    ensures var c := CandidateFor(t, a, st);
            && (c.Some? ==> Admits(m, PlanIn(st), t, a, c.value.start))
            && (InUsefulOrder(a.windows) ==>
                  && (c.None? ==> forall s :: !Admits(m, PlanIn(st), t, a, s))
                  && (c.Some? ==> forall s :: Admits(m, PlanIn(st), t, a, s) ==> c.value.start <= s))
  {
    var rs, release := ReservedOn(st, a.id), Max(t.release, DependencyReady(t.deps, st.completion));
    var r := FirstFit(a.windows, a.capacity, rs, release, t.duration, t.demand);
    FirstFitSoundComplete(a.windows, a.capacity, rs, release, t.duration, t.demand);
    forall s ensures Admits(m, PlanIn(st), t, a, s) <==>
                     Admissible(t, a) && InTime(t, s) && release <= s && Fits(a.windows, a.capacity, rs, s, t.duration, t.demand) {
      AdmitsMeaning(m, st, t, a, s);
    }
    if InUsefulOrder(a.windows) {
      UsefulOrderIsLeast(a.windows, a.capacity, rs, release, t.duration, t.demand);
    }
  }

  /** What else a candidate says. */
  lemma CandidateInFields(m: Model, st: State, t: Task, a: Actor, c: Candidate)
    requires Recorded(m, st) && CandidateFor(t, a, st) == Some(c)
    ensures c.actor == a.id && c.end == c.start + t.duration && c.load == Load(m, PlanIn(st), a.id, c.start)
    ensures c.preferred <==> a.id in t.preferredActors
    ensures c.distance == if a.id in t.distances then t.distances[a.id] else LARGE_TIME
  {
    assert Reserved(m, st, a.id);
  }

  lemma CandidateIsAdmitted(m: Model, index: Index, st: State, t: Task, a: Actor, c: Candidate)
    requires UniqueIds(m) && Agrees(m, index) && Sound(m, st) && t in m.tasks && IsReady(t, st) && t.duration > 0
    requires a in m.actors && c in Candidates(m, index, t, st) && c.actor == a.id
    ensures Eligible(t, a) && !MutexBlocked(t, st) && CandidateFor(t, a, st) == Some(c)
    ensures Admits(m, PlanIn(st), t, a, c.start)
  {
    AgreesOffersEligible(m, index);
    assert OffersEligible(m, index, t);
    var b := CandidateActor(m, index, t, st, c);
    CandidateInFields(m, st, t, b, c);
    ActorOfId(m, a);
    ActorOfId(m, b);
    CandidateIsLeastAdmitted(m, st, t, a);
  }

  lemma IndexOffersEligible(m: Model, index: Index, t: Task, a: Actor) returns (j: nat)
    requires Agrees(m, index) && t in m.tasks && a in m.actors && Eligible(t, a)
    ensures j < |m.actors| && m.actors[j] == a && j in EligibleList(index, t)
  {
    j :| 0 <= j < |m.actors| && m.actors[j] == a;
    assert Matches(m, t, index.eligible[t.id]);
  }

  lemma AdmittedIsCandidate(m: Model, index: Index, st: State, t: Task, a: Actor, j: nat, s: int) returns (c: Candidate)
    requires Recorded(m, st) && DistinctTasks(PlanIn(st)) && IsReady(t, st) && t.duration > 0
    requires j < |m.actors| && m.actors[j] == a && j in EligibleList(index, t)
    requires InUsefulOrder(a.windows) && Eligible(t, a) && !MutexBlocked(t, st) && Admits(m, PlanIn(st), t, a, s)
    ensures c in Candidates(m, index, t, st) && c.actor == a.id && c.start <= s
  {
    CandidateIsLeastAdmitted(m, st, t, a);
    c := CandidateFor(t, a, st).value;
    CandidateInFields(m, st, t, a, c);
    PermutationMembers(Candidates(m, index, t, st), CollectCandidates(m, t, EligibleList(index, t), st));
  }

  /** A ready task has a candidate on an actor exactly when the actor is eligible, no task it excludes is
      planned, and the plan so far admits it there at some time. */
  lemma CandidatesAreComplete(m: Model, index: Index, st: State, t: Task, a: Actor)
    requires UniqueIds(m) && Agrees(m, index) && Sound(m, st) && t in m.tasks && IsReady(t, st) && t.duration > 0
    requires a in m.actors && InUsefulOrder(a.windows)
    ensures (exists c :: c in Candidates(m, index, t, st) && c.actor == a.id) <==>
            && Eligible(t, a) && (forall x :: x in t.mutex ==> !InPlan(PlanIn(st), x))
            && exists s :: Admits(m, PlanIn(st), t, a, s)
  {
    if c :| c in Candidates(m, index, t, st) && c.actor == a.id {
      CandidateIsAdmitted(m, index, st, t, a, c);
    }
    if Eligible(t, a) && !MutexBlocked(t, st) {
      if s :| Admits(m, PlanIn(st), t, a, s) {
        var j := IndexOffersEligible(m, index, t, a);
        var c := AdmittedIsCandidate(m, index, st, t, a, j, s);
      }
    }
    assert ScheduledIsPlanned(st);
  }

  // ---- why a leaf leaves tasks out -----------------------------------------------------------------------

  /** Every dropped task may be left out or waits for one that is dropped. */
  ghost predicate DropsExplained(m: Model, opts: Options, st: State) {
    forall t :: t in m.tasks && t.id in st.dropped ==>
      opts.allowPartial || !t.mandatory || exists d :: d in t.deps && d in st.dropped
  }

  lemma {:induction false} DropPassExplained(tasks: seq<Task>, scheduled: set<TaskId>, dropped: set<TaskId>, id: TaskId)
    requires id in DropPass(tasks, scheduled, dropped) && id !in dropped
    ensures exists t :: t in tasks && t.id == id && exists d :: d in t.deps && d in DropPass(tasks, scheduled, dropped)
  {
    var t := tasks[0];
    var next := if NewlyBlocked(t, scheduled, dropped) then dropped + {t.id} else dropped;
    if id in next {
      var d :| d in t.deps && d in dropped;
      assert t in tasks && d in DropPass(tasks, scheduled, dropped);
    } else {
      DropPassExplained(tasks[1..], scheduled, next, id);
      var u :| u in tasks[1..] && u.id == id && exists d :: d in u.deps && d in DropPass(tasks, scheduled, dropped);
      assert u in tasks;
    }
  }

  lemma {:induction false} DropFixExplained(m: Model, scheduled: set<TaskId>, dropped: set<TaskId>, id: TaskId)
    requires id in DropFix(m, scheduled, dropped) && id !in dropped
    ensures exists t :: t in m.tasks && t.id == id && exists d :: d in t.deps && d in DropFix(m, scheduled, dropped)
    decreases |Ids(m) - dropped|
  {
    var next := DropPass(m.tasks, scheduled, dropped);
    var x :| x in next && x !in dropped;
    assert x in Ids(m) - dropped && x !in Ids(m) - next;
    SubsetCard(Ids(m) - next, Ids(m) - dropped);
    if id in next {
      DropPassExplained(m.tasks, scheduled, dropped, id);
      var t :| t in m.tasks && t.id == id && exists d :: d in t.deps && d in next;
      var d :| d in t.deps && d in next;
      assert d in DropFix(m, scheduled, next);
    } else {
      DropFixExplained(m, scheduled, next, id);
    }
  }

  lemma SettleExplained(m: Model, opts: Options, st: State)
    requires UniqueIds(m) && DropsExplained(m, opts, st)
    ensures DropsExplained(m, opts, Settle(m, st))
  {
    var s := Settle(m, st);
    forall t | t in m.tasks && t.id in s.dropped && !opts.allowPartial && t.mandatory
      ensures exists d :: d in t.deps && d in s.dropped {
      if t.id in st.dropped {
        var d :| d in t.deps && d in st.dropped;
        assert d in s.dropped;
      } else {
        DropFixExplained(m, st.scheduled, st.dropped, t.id);
        var u :| u in m.tasks && u.id == t.id && exists d :: d in u.deps && d in s.dropped;
        TaskOfId(m, t);
        TaskOfId(m, u);
      }
    }
  }

  /** At every leaf a mandatory task is dropped only behind another dropped task, unless partial plans are
      allowed. */
  lemma LeavesExplainDrops(m: Model, index: Index, opts: Options)
    requires UniqueIds(m)
    ensures forall leaf, t :: leaf in Leaves(m, index, opts, Root(m)) && t in m.tasks && t.id in leaf.dropped ==>
              opts.allowPartial || !t.mandatory || exists d :: d in t.deps && d in leaf.dropped
  {
    var keeps := st => DropsExplained(m, opts, st);
    assert KeptBySearch(m, index, opts, keeps) by {
      forall st | keeps(st) ensures keeps(Settle(m, st)) {
        SettleExplained(m, opts, st);
      }
      forall st, t | keeps(st) && Branches(m, st, t) && MayDrop(opts, t) ensures keeps(Drop(st, t)) {
        DropExplained(m, opts, st, t);
      }
    }
    LeavesKeep(m, index, opts, Root(m), keeps);
    forall leaf, t | leaf in Leaves(m, index, opts, Root(m)) && t in m.tasks && t.id in leaf.dropped
      ensures opts.allowPartial || !t.mandatory || exists d :: d in t.deps && d in leaf.dropped {
      assert keeps(leaf);
    }
  }

  lemma DropExplained(m: Model, opts: Options, st: State, dropped: Task)
    requires UniqueIds(m) && DropsExplained(m, opts, st) && dropped in m.tasks && MayDrop(opts, dropped)
    ensures DropsExplained(m, opts, Drop(st, dropped))
  {
    TaskOfId(m, dropped);
    forall t | t in m.tasks && t.id in Drop(st, dropped).dropped && !opts.allowPartial && t.mandatory
      ensures exists d :: d in t.deps && d in Drop(st, dropped).dropped {
      TaskOfId(m, t);
      assert t.id in st.dropped;
      var d :| d in t.deps && d in st.dropped;
      assert d in Drop(st, dropped).dropped;
    }
  }
}
