/** One unit above the bound, pruning loses a better plan: two mutually exclusive tasks of equal
    weight, of which the search tries the longer one first. */
module PruningTight {
  import opened Basics
  import opened Reservations
  import opened OptimizerModel
  import opened ConstraintIndex
  import opened ExactSearch
  import opened PruningExact

  const HEAVY := 1_000_001

  const LONG := Task("x", 2, 0, None, Some(10), HEAVY, 1, true, [], [], [], [], [], ["y"], map[])
  const SHORT := Task("y", 1, 0, None, None, HEAVY, 1, true, [], [], [], [], [], ["x"], map[])
  const WORKER := Actor("a", "robot", 1, [Window(0, 10)], [])
  const TWO := Model([WORKER], [LONG, SHORT])
  const PLAIN := Options(true, 1)
  const TABLES := Index(map["x" := 0, "y" := 1], map["a" := 0], map["robot" := [0]], map["x" := [0], "y" := [0]])

  lemma Distinctness()
    ensures "x" != "y"
  {
    assert "x"[0] != "y"[0];
  }

  lemma TwoIsWellFormed()
    ensures UniqueIds(TWO) && Agrees(TWO, TABLES) && WeighsAtMost(TWO, PLAIN, HEAVY)
  {
    assert TWO.tasks[0].id == "x" && TWO.tasks[1].id == "y";
    Distinctness();
    forall t | t in TWO.tasks ensures t.id in TABLES.eligible && Matches(TWO, t, TABLES.eligible[t.id]) {
      assert t == LONG || t == SHORT;
      assert [0 as nat][0] == 0;
      assert Eligible(t, WORKER);
    }
    assert Ids(TWO) == {"x", "y"} by {
      assert LONG in TWO.tasks && SHORT in TWO.tasks;
    }
    assert OfKind(TWO, "robot", [0]);
  }

  lemma NothingBlocked(scheduled: set<TaskId>, dropped: set<TaskId>)
    ensures DropFix(TWO, scheduled, dropped) == dropped
  {
    assert !NewlyBlocked(LONG, scheduled, dropped) && !NewlyBlocked(SHORT, scheduled, dropped);
    assert TWO.tasks[1..] == [SHORT] && TWO.tasks[1..][1..] == [];
    assert DropPass([SHORT], scheduled, dropped) == dropped;
    assert DropPass(TWO.tasks, scheduled, dropped) == dropped;
  }

  lemma ReadyOf(st: State)
    ensures ReadyFilter(TWO.tasks, st) ==
            (if IsReady(LONG, st) then [LONG] else []) + (if IsReady(SHORT, st) then [SHORT] else [])
  {
    assert TWO.tasks[..1] == [LONG] && [LONG][..0] == [];
    assert ReadyFilter([LONG], st) == ReadyFilter([], st) + (if IsReady(LONG, st) then [LONG] else []);
  }

  const START := Root(TWO)
  const LONG_RUN := Candidate("a", 0, 2, LARGE_TIME, false, 0)
  const SHORT_RUN := Candidate("a", 0, 1, LARGE_TIME, false, 0)

  /** The longer task comes first, because it has a deadline. */
  lemma ReadyAtStart()
    ensures ReadyTasks(TWO, START) == [LONG, SHORT]
  {
    ReadyOf(START);
    assert IsReady(LONG, START) && IsReady(SHORT, START);
    var both := [LONG] + [SHORT];
    assert both[1..] == [SHORT] && [SHORT][1..] == [];
    assert Sort(TaskKey, [SHORT]) == [SHORT];
    KeyHeads();
    assert Insert(TaskKey, LONG, [SHORT]) == [LONG] + [SHORT];
  }

  lemma KeyHeads()
    ensures KeyLess(TaskKey(LONG), TaskKey(SHORT))
  {
    assert TaskKey(LONG)[1..][0] == Num(10) && TaskKey(SHORT)[1..][0] == Num(LARGE_TIME);
    assert KeyLess(TaskKey(LONG)[1..], TaskKey(SHORT)[1..]);
  }

  lemma SortSingle<T>(key: T -> Key, x: T)
    ensures Sort(key, [x]) == [x]
  {
    assert [x][1..] == [];
    assert Sort(key, []) == [];
  }

  lemma SingleReady(st: State, t: Task)
    requires t in {LONG, SHORT} && IsReady(t, st)
    requires forall s :: s in {LONG, SHORT} && s != t ==> !IsReady(s, st)
    ensures ReadyTasks(TWO, st) == [t]
  {
    ReadyOf(st);
    assert ReadyFilter(TWO.tasks, st) == [t];
    SortSingle(TaskKey, t);
  }

  lemma NoneReady(st: State)
    requires !IsReady(LONG, st) && !IsReady(SHORT, st)
    ensures ReadyTasks(TWO, st) == []
  {
    ReadyOf(st);
  }

  /** On an idle worker a task has one candidate, at time zero. */
  lemma IdleCandidates(st: State, t: Task)
    requires t in {LONG, SHORT} && !MutexBlocked(t, st) && ReservedOn(st, "a") == []
    ensures Candidates(TWO, TABLES, t, st) == [if t == LONG then LONG_RUN else SHORT_RUN]
  {
    var run := if t == LONG then LONG_RUN else SHORT_RUN;
    Distinctness();
    assert EligibleList(TABLES, t) == [0];
    assert Room(1, [], 0, t.duration, 1);
    assert FirstInRange(1, [], 0, 10 - t.duration, t.duration, 1) == Some(0);
    assert FirstFit([Window(0, 10)], 1, [], 0, t.duration, 1) == Some(0);
    assert CandidateFor(t, WORKER, st) == Some(run);
    assert [0 as nat][..0] == [];
    assert CollectCandidates(TWO, t, [0], st) == [] + [run];
    assert [run][1..] == [];
    assert Sort(CandidateKey, []) == [];
  }

  const AFTER_LONG := Place(START, LONG, LONG_RUN)
  const LEAF_LONG := Drop(AFTER_LONG, SHORT)
  const WITHOUT_LONG := Drop(START, LONG)
  const AFTER_SHORT := Place(WITHOUT_LONG, SHORT, SHORT_RUN)

  lemma Settled(st: State)
    ensures Settle(TWO, st) == st
  {
    NothingBlocked(st.scheduled, st.dropped);
  }

  lemma Scores()
    ensures ScoreOf(PLAIN, LEAF_LONG) == Score(1, HEAVY, 2)
    ensures ScoreOf(PLAIN, AFTER_SHORT) == Score(1, HEAVY, 1)
    ensures Optimistic(TWO, PLAIN, WITHOUT_LONG) == Score(1, PRIORITY_BOUND, 0)
  {
    ScoreAfterPlace(PLAIN, START, LONG, LONG_RUN);
    ScoreAfterPlace(PLAIN, WITHOUT_LONG, SHORT, SHORT_RUN);
  }

  /** With the long task placed, the short one is excluded and this branch ends in one leaf. */
  lemma ExploreAfterLong()
    ensures Explore(TWO, TABLES, PLAIN, true, AFTER_LONG, None) == Some(PlanOf(TWO, PLAIN, LEAF_LONG))
  {
    Distinctness();
    Settled(AFTER_LONG);
    Settled(LEAF_LONG);
    SingleReady(AFTER_LONG, SHORT);
    assert "x" in SHORT.mutex && "x" in AFTER_LONG.scheduled;
    assert MutexBlocked(SHORT, AFTER_LONG);
    NoneReady(LEAF_LONG);
    assert Explore(TWO, TABLES, PLAIN, true, LEAF_LONG, None) == Record(TWO, PLAIN, LEAF_LONG, None);
  }

  lemma LongIsFound(found: Option<Plan>)
    requires found == Some(PlanOf(TWO, PLAIN, LEAF_LONG))
    ensures Branches(TWO, START, LONG)
    ensures ExploreAll(TWO, TABLES, PLAIN, true, START, LONG, [LONG_RUN], None) == found
  {
    ExploreAfterLong();
    LastCandidate(TWO, TABLES, PLAIN, true, START, LONG, [LONG_RUN], None);
  }

  lemma ShortIsGivenUp(found: Option<Plan>)
    requires found == Some(PlanOf(TWO, PLAIN, LEAF_LONG))
    ensures Explore(TWO, TABLES, PLAIN, true, WITHOUT_LONG, found) == found
  {
    Settled(WITHOUT_LONG);
    Scores();
    assert Hopeless(TWO, PLAIN, WITHOUT_LONG, found);
    ExploreEnd(TWO, TABLES, PLAIN, WITHOUT_LONG, WITHOUT_LONG, found);
  }

  lemma PrunedAnswer()
    ensures Explore(TWO, TABLES, PLAIN, true, START, None) == Some(PlanOf(TWO, PLAIN, LEAF_LONG))
  {
    Settled(START);
    ReadyAtStart();
    IdleCandidates(START, LONG);
    ExploreNode(TWO, TABLES, PLAIN, START, START, LONG, None);
    LongIsFound(Some(PlanOf(TWO, PLAIN, LEAF_LONG)));
    ShortIsGivenUp(Some(PlanOf(TWO, PLAIN, LEAF_LONG)));
  }

  /** Without the long task, placing the short one ends in a leaf. */
  lemma ShortLeafBelow()
    ensures AFTER_SHORT in Leaves(TWO, TABLES, PLAIN, WITHOUT_LONG)
  {
    Distinctness();
    Settled(WITHOUT_LONG);
    Settled(AFTER_SHORT);
    SingleReady(WITHOUT_LONG, SHORT);
    IdleCandidates(WITHOUT_LONG, SHORT);
    NoneReady(AFTER_SHORT);
    assert Leaves(TWO, TABLES, PLAIN, AFTER_SHORT) == [AFTER_SHORT];
    LastCandidate(TWO, TABLES, PLAIN, false, WITHOUT_LONG, SHORT, [SHORT_RUN], None);
    LeavesOfNode(TWO, TABLES, PLAIN, WITHOUT_LONG);
  }

  /** The unpruned tree has a leaf with the short task placed. */
  lemma ShortLeafExists()
    ensures AFTER_SHORT in Leaves(TWO, TABLES, PLAIN, START)
  {
    Settled(START);
    ReadyAtStart();
    ShortLeafBelow();
    LeavesOfNode(TWO, TABLES, PLAIN, START);
  }

  lemma PrunedDiffersFromFull()
    ensures Explore(TWO, TABLES, PLAIN, true, Root(TWO), None) != Explore(TWO, TABLES, PLAIN, false, Root(TWO), None)
  {
    PrunedAnswer();
    ShortLeafExists();
    FullIsFold(TWO, TABLES, PLAIN, START, None);
    var leaves := Leaves(TWO, TABLES, PLAIN, START);
    var k := FoldIsFirstBest(TWO, PLAIN, leaves);
    Scores();
    var i :| 0 <= i < |leaves| && leaves[i] == AFTER_SHORT;
    assert !Better(ScoreOf(PLAIN, AFTER_SHORT), ScoreOf(PLAIN, leaves[k]));
  }

  ghost predicate SameAnswer(m: Model, index: Index, opts: Options) {
    Explore(m, index, opts, true, Root(m), None) == Explore(m, index, opts, false, Root(m), None)
  }

  /** Pruning is exact for every model whose tasks weigh at most `limit`. */
  ghost predicate ExactUpTo(limit: int) {
    forall m, index, opts ::
      UniqueIds(m) && Agrees(m, index) && WeighsAtMost(m, opts, limit) ==> SameAnswer(m, index, opts)
  }

  /** The weight the bound assumes is exactly the weight up to which pruning is exact. */
  lemma ExactIffWithinBound(limit: int)
    ensures ExactUpTo(limit) <==> limit <= PRIORITY_BOUND
  {
    if limit <= PRIORITY_BOUND {
      forall m, index, opts | UniqueIds(m) && Agrees(m, index) && WeighsAtMost(m, opts, limit)
        ensures SameAnswer(m, index, opts) {
        forall t | t in m.tasks ensures Weighs(t, opts, PRIORITY_BOUND) {
          assert Weighs(t, opts, limit);
        }
        PruningIsExact(m, index, opts);
      }
    } else {
      TwoIsWellFormed();
      forall t | t in TWO.tasks ensures Weighs(t, PLAIN, limit) {
        assert Weighs(t, PLAIN, HEAVY);
      }
      PrunedDiffersFromFull();
      assert !SameAnswer(TWO, TABLES, PLAIN);
    }
  }
}
