/** A choice of options satisfies the rows exactly when the plan it decodes to is feasible. */
module RowsAndPlans {
  import opened Basics
  import opened Reservations
  import opened OptimizerModel
  import opened Formulation
  import opened LinearRows
  import opened RowsMeaning

  // ---- rows and choices ----------------------------------------------------------------------------------

  ghost predicate CpRows(f: Formulation, rows: seq<Row>) {
    (forall r :: r in rows ==> IsCpRow(f, r)) && CpRowsComplete(f, rows)
  }

  ghost predicate MipRows(f: Formulation, rows: seq<MipRow>) {
    (forall r :: r in rows ==> IsMipRow(f, r)) && MipRowsComplete(f, rows)
  }

  lemma SelectionIndex(f: Formulation, d: Decision) returns (i: nat)
    requires d in f.decisions
    ensures i < |f.decisions| && f.decisions[i] == d
  {
    i :| 0 <= i < |f.decisions| && f.decisions[i] == d;
  }

  lemma AtMostOneOf(f: Formulation, x: Choice, i: nat)
    requires SelectionsOk(f, x) && i < |f.decisions|
    ensures AtMostOne(x, f.decisions[i].options) && SelectionOk(f.decisions[i], x)
  {
    assert f.decisions[i] in f.decisions;
  }

  lemma ChoiceSatisfiesCpRows(f: Formulation, rows: seq<Row>, x: Choice)
    requires Shaped(f) && |x| == |f.options| && CpRows(f, rows) && ChoiceOk(f, x)
    ensures AllHold(rows, x)
  {
    forall r | r in rows ensures Holds(r, x) {
      assert IsCpRow(f, r);
      if d :| d in f.decisions && r == SelectionRow(d) {
        var i := SelectionIndex(f, d);
        SelectionRowMeaning(f, x, i);
      } else if s :| s in f.slots && r == CapacityRow(f, s) {
        CapacityRowMeaning(f, x, s);
      } else if d :| d in f.dependencies && InRange(f, d) && (r == PresenceRow(f, d) || r == TimingRow(f, d)) {
        AtMostOneOf(f, x, d.pred);
        AtMostOneOf(f, x, d.succ);
        CpDependencyMeaning(f, x, d);
      } else {
        var p :| p in f.mutexes && PairInRange(f, p) && r == MutexRow(f, p);
        AtMostOneOf(f, x, p.first);
        AtMostOneOf(f, x, p.second);
        MutexRowMeaning(f, x, p);
      }
    }
  }

  lemma CpRowsGiveSelections(f: Formulation, rows: seq<Row>, x: Choice)
    requires Shaped(f) && |x| == |f.options| && CpRowsComplete(f, rows) && AllHold(rows, x)
    ensures SelectionsOk(f, x) && CapacitiesOk(f, x)
  {
    forall d | d in f.decisions ensures SelectionOk(d, x) {
      var i := SelectionIndex(f, d);
      SelectionRowMeaning(f, x, i);
    }
    forall s | s in f.slots ensures CapacityOk(f, s, x) {
      CapacityRowMeaning(f, x, s);
    }
  }

  /** CP-SAT: the rows hold exactly for the feasible choices. */
  lemma CpRowsMeanChoice(f: Formulation, rows: seq<Row>, x: Choice)
    requires Shaped(f) && |x| == |f.options| && CpRows(f, rows)
    ensures AllHold(rows, x) <==> ChoiceOk(f, x)
  {
    if AllHold(rows, x) {
      CpRowsGiveSelections(f, rows, x);
      forall d | d in f.dependencies ensures PrecedenceOk(f, d, x) {
        AtMostOneOf(f, x, d.pred);
        AtMostOneOf(f, x, d.succ);
        CpDependencyMeaning(f, x, d);
      }
      forall p | p in f.mutexes ensures MutexOk(f, p, x) {
        AtMostOneOf(f, x, p.first);
        AtMostOneOf(f, x, p.second);
        MutexRowMeaning(f, x, p);
      }
    }
    if ChoiceOk(f, x) {
      ChoiceSatisfiesCpRows(f, rows, x);
    }
  }

  /** What the MIP rows ask: everything but the precedence of a task before itself. */
  ghost predicate MipChoiceOk(f: Formulation, x: Choice)
    requires IndexesInRange(f)
  {
    && SelectionsOk(f, x)
    && CapacitiesOk(f, x)
    && MutexesOk(f, x)
    && (forall d :: d in f.dependencies && d.pred != d.succ ==> PrecedenceOk(f, d, x))
  }

  lemma ChoiceSatisfiesMipBounds(f: Formulation, x: Choice)
    requires Shaped(f) && |x| == |f.options| && SelectionsOk(f, x) && CapacitiesOk(f, x)
    ensures forall d :: d in f.decisions ==> HoldsMip(MipSelection(d), x)
    ensures forall s :: s in f.slots ==> HoldsMip(MipCapacity(f, s), x)
  {
    forall d | d in f.decisions ensures HoldsMip(MipSelection(d), x) {
      var i := SelectionIndex(f, d);
      SelectionRowMeaning(f, x, i);
    }
    forall s | s in f.slots ensures HoldsMip(MipCapacity(f, s), x) {
      CapacityRowMeaning(f, x, s);
    }
  }

  lemma ChoiceSatisfiesMipPair(f: Formulation, x: Choice, d: Dependency)
    requires Shaped(f) && |x| == |f.options| && MipChoiceOk(f, x) && d in f.dependencies
    ensures HoldsMip(MipPresence(f, d), x) && HoldsMip(MipTiming(f, d), x)
  {
    AtMostOneOf(f, x, d.pred);
    AtMostOneOf(f, x, d.succ);
    if d.pred == d.succ {
      MipSelfDependencyIsVoid(f, x, d);
    } else {
      MipDependencyMeaning(f, x, d);
    }
  }

  lemma ChoiceSatisfiesMipMutex(f: Formulation, x: Choice, p: MutexPair)
    requires Shaped(f) && |x| == |f.options| && MipChoiceOk(f, x) && p in f.mutexes
    ensures HoldsMip(MipMutex(f, p), x)
  {
    AtMostOneOf(f, x, p.first);
    AtMostOneOf(f, x, p.second);
    MutexRowMeaning(f, x, p);
  }

  lemma ChoiceSatisfiesMipRows(f: Formulation, rows: seq<MipRow>, x: Choice)
    requires Shaped(f) && |x| == |f.options| && MipRows(f, rows) && MipChoiceOk(f, x)
    ensures AllHoldMip(rows, x)
  {
    ChoiceSatisfiesMipBounds(f, x);
    forall r | r in rows ensures HoldsMip(r, x) {
      assert IsMipRow(f, r);
      if (exists d :: d in f.decisions && r == MipSelection(d)) || (exists s :: s in f.slots && r == MipCapacity(f, s)) {
      } else if d :| d in f.dependencies && InRange(f, d) && (r == MipPresence(f, d) || r == MipTiming(f, d)) {
        ChoiceSatisfiesMipPair(f, x, d);
      } else {
        var p :| p in f.mutexes && PairInRange(f, p) && r == MipMutex(f, p);
        ChoiceSatisfiesMipMutex(f, x, p);
      }
    }
  }

  lemma MipRowsMeanChoice(f: Formulation, rows: seq<MipRow>, x: Choice)
    requires Shaped(f) && |x| == |f.options| && MipRows(f, rows)
    ensures AllHoldMip(rows, x) <==> MipChoiceOk(f, x)
  {
    if AllHoldMip(rows, x) {
      forall d | d in f.decisions ensures SelectionOk(d, x) {
        var i := SelectionIndex(f, d);
        SelectionRowMeaning(f, x, i);
      }
      forall s | s in f.slots ensures CapacityOk(f, s, x) {
        CapacityRowMeaning(f, x, s);
      }
      forall d | d in f.dependencies && d.pred != d.succ ensures PrecedenceOk(f, d, x) {
        AtMostOneOf(f, x, d.pred);
        AtMostOneOf(f, x, d.succ);
        MipDependencyMeaning(f, x, d);
      }
      forall p | p in f.mutexes ensures MutexOk(f, p, x) {
        AtMostOneOf(f, x, p.first);
        AtMostOneOf(f, x, p.second);
        MutexRowMeaning(f, x, p);
      }
    }
    if MipChoiceOk(f, x) {
      ChoiceSatisfiesMipRows(f, rows, x);
    }
  }

  /** No chosen option belongs to a task that depends on itself. */
  ghost predicate NoSelfDependentChosen(f: Formulation, x: Choice)
    requires IndexesInRange(f)
  {
    forall d :: d in f.dependencies && d.pred == d.succ ==> !SomePicked(x, f.decisions[d.succ].options)
  }

  ghost predicate OptionsTakeTime(f: Formulation) {
    forall k :: 0 <= k < |f.options| ==> f.options[k].start < f.options[k].end
  }

  lemma SelfPrecedence(f: Formulation, x: Choice, d: Dependency, list: seq<nat>)
    requires InRange(f, d) && d.pred == d.succ && list == f.decisions[d.succ].options
    requires |x| == |f.options| && OptionsTakeTime(f) && AtMostOne(x, list)
    ensures PrecedenceOk(f, d, x) <==> !SomePicked(x, list)
  {
    if SomePicked(x, list) {
      var k: nat :| Picked(x, list, k);
      assert f.options[k].start < f.options[k].end;
      assert forall l: nat :: Picked(x, list, l) ==> l == k;
    }
  }

  /** The two backends admit the same choices, except that the MIP rows let through a task that
      depends on itself. */
  lemma CpVersusMip(f: Formulation, cp: seq<Row>, mip: seq<MipRow>, x: Choice)
    requires Shaped(f) && |x| == |f.options| && CpRows(f, cp) && MipRows(f, mip) && OptionsTakeTime(f)
    ensures AllHold(cp, x) <==> AllHoldMip(mip, x) && NoSelfDependentChosen(f, x)
  {
    CpRowsMeanChoice(f, cp, x);
    MipRowsMeanChoice(f, mip, x);
    if SelectionsOk(f, x) {
      forall d | d in f.dependencies && d.pred == d.succ
        ensures PrecedenceOk(f, d, x) <==> !SomePicked(x, f.decisions[d.succ].options) {
        AtMostOneOf(f, x, d.succ);
        SelfPrecedence(f, x, d, f.decisions[d.succ].options);
      }
    }
  }

  lemma SelfDependentIsChosen(f: Formulation, x: Choice)
    requires f == SelfDependent() && x == [true]
    ensures MipChoiceOk(f, x) && !NoSelfDependentChosen(f, x)
  {
    assert Picked(x, f.decisions[0].options, 0);
    assert f.dependencies[0] in f.dependencies;
    forall s | s in f.slots ensures CapacityOk(f, s, x) {
      assert s == f.slots[0] && PickSum(x, s.options, DemandIn(f), 0) == 0;
    }
    forall d | d in f.decisions ensures SelectionOk(d, x) { assert d == f.decisions[0]; }
  }

  const LOOP := Task("t", 1, 0, None, None, 0, 1, false, [], [], [], [], ["t"], [], map[])
  const RUNNER := Actor("a", "", 1, [Window(0, 1)], [])
  const LOOPED := Model([RUNNER], [LOOP])

  /** It is what compiling a model with one self-dependent task gives. */
  lemma SelfDependentIsCompiled(opts: Options, f: Formulation)
    requires f == SelfDependent()
    ensures UniqueIds(LOOPED) && PositiveDurations(LOOPED) && Exact(LOOPED, opts, f)
  {
    assert RUNNER.windows[0] in RUNNER.windows && IsOption(LOOP, RUNNER, 0);
    assert f.options[0] == MakeOption(LOOPED, 0, 0, 0) && f.options[0] in f.options;
    forall start | IsOption(LOOP, RUNNER, start) ensures start == 0 {}
    assert HasSlot(f.slots, 0, 0) by { assert f.slots[0].actorIndex == 0; }
    assert SlotExact(LOOPED, f.options, f.slots[0]);
    assert f.dependencies[0] in f.dependencies;
  }

  /** One task with one option that depends on itself: the MIP rows take it, the CP-SAT rows do not. */
  lemma BackendsDiffer(f: Formulation, cp: seq<Row>, mip: seq<MipRow>)
    requires f == SelfDependent() && CpRows(f, cp) && MipRows(f, mip)
    ensures forall opts :: Exact(LOOPED, opts, f)
    ensures AllHoldMip(mip, [true]) && !AllHold(cp, [true])
  {
    forall opts ensures Exact(LOOPED, opts, f) { SelfDependentIsCompiled(opts, f); }
    SelfDependentIsChosen(f, [true]);
    MipRowsMeanChoice(f, mip, [true]);
    CpVersusMip(f, cp, mip, [true]);
  }

  function SelfDependent(): (f: Formulation)
    ensures Shaped(f) && OptionsTakeTime(f)
  {
    Formulation([DiscreteOption(0, 0, "t", "a", 0, 1, 1)], [Decision(0, false, [0])], [SlotRow(0, 0, 1, [0])],
                [Dependency(0, 0)], [], 1)
  }

  // ---- choices and plans -----------------------------------------------------------------------------------

  function AssignmentOf(o: DiscreteOption): Assignment {
    Assignment(o.task, o.actor, o.start, o.end)
  }

  /** The schedule decoded from the chosen options among the first `n`. */
  function Chosen(f: Formulation, x: Choice, n: nat): seq<Assignment>
    requires n <= |x| <= |f.options|
  {
    if n == 0 then []
    else Chosen(f, x, n - 1) + (if x[n - 1] then [AssignmentOf(f.options[n - 1])] else [])
  }

  function Decoded(f: Formulation, x: Choice): seq<Assignment>
    requires |x| == |f.options|
  {
    Chosen(f, x, |x|)
  }

  /** A chosen option has an entry in the schedule. */
  lemma {:induction false} EntryOf(f: Formulation, x: Choice, n: nat, k: nat) returns (q: nat)
    requires n <= |x| == |f.options| && k < n && x[k]
    ensures q < |Chosen(f, x, n)| && Chosen(f, x, n)[q] == AssignmentOf(f.options[k])
  {
    if k == n - 1 {
      q := |Chosen(f, x, n - 1)|;
    } else {
      q := EntryOf(f, x, n - 1, k);
    }
  }

  /** An entry of the schedule comes from a chosen option. */
  lemma {:induction false} OptionOf(f: Formulation, x: Choice, n: nat, q: nat) returns (k: nat)
    requires n <= |x| == |f.options| && q < |Chosen(f, x, n)|
    ensures k < n && x[k] && Chosen(f, x, n)[q] == AssignmentOf(f.options[k])
  {
    if q < |Chosen(f, x, n - 1)| {
      k := OptionOf(f, x, n - 1, q);
    } else {
      k := n - 1;
    }
  }

  /** What the options and decisions of a compiled model have in common with it. */
  ghost predicate Linked(m: Model, f: Formulation) {
    && UniqueIds(m)
    && OptionsSound(m, f.options, |m.tasks|)
    && |f.decisions| == |m.tasks|
    && (forall i :: 0 <= i < |f.decisions| ==> Lists(f.options, f.decisions[i].options, OfTask(i)))
  }

  lemma OptionFacts(m: Model, f: Formulation, k: nat)
    requires Linked(m, f) && k < |f.options|
    ensures var o := f.options[k];
            && o.taskIndex < |m.tasks| && o.actorIndex < |m.actors|
            && o.task == m.tasks[o.taskIndex].id && o.actor == m.actors[o.actorIndex].id
            && o.task in Ids(m) && TaskOf(m, o.task) == m.tasks[o.taskIndex]
            && o.actor in ActorIds(m) && ActorOf(m, o.actor) == m.actors[o.actorIndex]
            && Placed(m, AssignmentOf(o)) && DemandFor(m, o.task) == o.demand
            && o.demand <= m.actors[o.actorIndex].capacity
  {
    var o := f.options[k];
    TaskOfId(m, m.tasks[o.taskIndex]);
    ActorOfId(m, m.actors[o.actorIndex]);
  }

  lemma PickedIsChosen(m: Model, f: Formulation, x: Choice, i: nat, k: nat)
    requires Linked(m, f) && |x| == |f.options| && i < |m.tasks|
    ensures Picked(x, f.decisions[i].options, k) <==> k < |x| && x[k] && f.options[k].taskIndex == i
  {
    assert Lists(f.options, f.decisions[i].options, OfTask(i));
    assert k in f.decisions[i].options <==> 0 <= k < |f.options| && OfTask(i)(f.options[k]);
  }

  lemma SameTaskSameIndex(m: Model, i: nat, j: nat)
    requires UniqueIds(m) && i < |m.tasks| && j < |m.tasks|
    ensures m.tasks[i].id == m.tasks[j].id <==> i == j
  {
    if i < j { assert m.tasks[i].id != m.tasks[j].id; }
    if j < i { assert m.tasks[j].id != m.tasks[i].id; }
  }

  lemma SameActorSameIndex(m: Model, i: nat, j: nat)
    requires UniqueIds(m) && i < |m.actors| && j < |m.actors|
    ensures m.actors[i].id == m.actors[j].id <==> i == j
  {
    if i < j { assert m.actors[i].id != m.actors[j].id; }
    if j < i { assert m.actors[j].id != m.actors[i].id; }
  }

  /** The entry of a task in the schedule, from its chosen option. */
  lemma PickedEntry(m: Model, f: Formulation, x: Choice, i: nat, k: nat) returns (q: nat)
    requires Linked(m, f) && |x| == |f.options| && i < |m.tasks| && Picked(x, f.decisions[i].options, k)
    ensures q < |Decoded(f, x)| && Decoded(f, x)[q] == AssignmentOf(f.options[k])
    ensures Decoded(f, x)[q].task == m.tasks[i].id
    ensures EndOf(f)(k) == Decoded(f, x)[q].end && StartOf(f)(k) == Decoded(f, x)[q].start
  {
    PickedIsChosen(m, f, x, i, k);
    OptionFacts(m, f, k);
    q := EntryOf(f, x, |x|, k);
  }

  /** The chosen option of a task, from its entry in the schedule. */
  lemma EntryPicked(m: Model, f: Formulation, x: Choice, i: nat, q: nat) returns (k: nat)
    requires Linked(m, f) && |x| == |f.options| && i < |m.tasks|
    requires q < |Decoded(f, x)| && Decoded(f, x)[q].task == m.tasks[i].id
    ensures Picked(x, f.decisions[i].options, k) && AssignmentOf(f.options[k]) == Decoded(f, x)[q]
    ensures EndOf(f)(k) == Decoded(f, x)[q].end && StartOf(f)(k) == Decoded(f, x)[q].start
  {
    k := OptionOf(f, x, |x|, q);
    OptionFacts(m, f, k);
    SameTaskSameIndex(m, i, f.options[k].taskIndex);
    PickedIsChosen(m, f, x, i, k);
  }

  /** The task position behind an entry. */
  lemma EntryIndex(m: Model, f: Formulation, x: Choice, q: nat) returns (i: nat)
    requires Linked(m, f) && |x| == |f.options| && q < |Decoded(f, x)|
    ensures i < |m.tasks| && Placed(m, Decoded(f, x)[q])
    ensures Decoded(f, x)[q].task == m.tasks[i].id && TaskOf(m, Decoded(f, x)[q].task) == m.tasks[i]
  {
    var k := OptionOf(f, x, |x|, q);
    OptionFacts(m, f, k);
    i := f.options[k].taskIndex;
  }

  lemma DecodedPlaced(m: Model, f: Formulation, x: Choice)
    requires Linked(m, f) && |x| == |f.options|
    ensures AllPlaced(m, Decoded(f, x))
  {
    forall q | 0 <= q < |Decoded(f, x)| ensures Placed(m, Decoded(f, x)[q]) {
      var i := EntryIndex(m, f, x, q);
    }
  }

  // ---- each task at most once, required tasks once -----------------------------------------------------------

  /** Two chosen options never belong to the same task. */
  ghost predicate OnePerTask(f: Formulation, x: Choice, n: nat)
    requires n <= |x| == |f.options|
  {
    forall k, l :: 0 <= k < l < n && x[k] && x[l] ==> f.options[k].taskIndex != f.options[l].taskIndex
  }

  lemma OnePerTaskGivesDistinct(m: Model, f: Formulation, x: Choice, n: nat, before: seq<Assignment>)
    requires Linked(m, f) && 0 < n <= |x| == |f.options| && OnePerTask(f, x, n) && x[n - 1]
    requires before == Chosen(f, x, n - 1)
    ensures forall j :: 0 <= j < |before| ==> before[j].task != f.options[n - 1].task
  {
    forall j | 0 <= j < |before| ensures before[j].task != f.options[n - 1].task {
      var k := OptionOf(f, x, n - 1, j);
      OptionFacts(m, f, k);
      OptionFacts(m, f, n - 1);
      SameTaskSameIndex(m, f.options[k].taskIndex, f.options[n - 1].taskIndex);
    }
  }

  lemma DistinctGivesOnePerTask(m: Model, f: Formulation, x: Choice)
    requires Linked(m, f) && |x| == |f.options| && DistinctTasks(Decoded(f, x))
    ensures OnePerTask(f, x, |x|)
  {
    forall k, l | 0 <= k < l < |x| && x[k] && x[l] ensures f.options[k].taskIndex != f.options[l].taskIndex {
      var p, q := EntriesOf(f, x, |x|, k, l);
      OptionFacts(m, f, k);
      OptionFacts(m, f, l);
      assert Decoded(f, x)[p].task != Decoded(f, x)[q].task;
    }
  }

  /** Entries appear in the order of their options. */
  lemma {:induction false} EntriesOf(f: Formulation, x: Choice, n: nat, k: nat, l: nat) returns (p: nat, q: nat)
    requires n <= |x| == |f.options| && k < l < n && x[k] && x[l]
    ensures p < q < |Chosen(f, x, n)|
    ensures Chosen(f, x, n)[p] == AssignmentOf(f.options[k]) && Chosen(f, x, n)[q] == AssignmentOf(f.options[l])
  {
    if l == n - 1 {
      p := EntryOf(f, x, n - 1, k);
      q := |Chosen(f, x, n - 1)|;
    } else {
      p, q := EntriesOf(f, x, n - 1, k, l);
    }
  }

  lemma {:induction false} OnePerTaskIsDistinct(m: Model, f: Formulation, x: Choice, n: nat)
    requires Linked(m, f) && n <= |x| == |f.options| && OnePerTask(f, x, n)
    ensures DistinctTasks(Chosen(f, x, n))
  {
    if n > 0 {
      OnePerTaskIsDistinct(m, f, x, n - 1);
      if x[n - 1] {
        OnePerTaskGivesDistinct(m, f, x, n, Chosen(f, x, n - 1));
      }
    }
  }

  lemma SelectionsMeanDistinct(m: Model, f: Formulation, x: Choice)
    requires Linked(m, f) && |x| == |f.options|
    ensures (forall i :: 0 <= i < |f.decisions| ==> AtMostOne(x, f.decisions[i].options)) <==> DistinctTasks(Decoded(f, x))
  {
    if forall i :: 0 <= i < |f.decisions| ==> AtMostOne(x, f.decisions[i].options) {
      forall k, l | 0 <= k < l < |x| && x[k] && x[l] ensures f.options[k].taskIndex != f.options[l].taskIndex {
        OptionFacts(m, f, k);
        var i := f.options[k].taskIndex;
        PickedIsChosen(m, f, x, i, k);
        PickedIsChosen(m, f, x, i, l);
        assert AtMostOne(x, f.decisions[i].options);
      }
      OnePerTaskIsDistinct(m, f, x, |x|);
    }
    if DistinctTasks(Decoded(f, x)) {
      DistinctGivesOnePerTask(m, f, x);
      forall i | 0 <= i < |f.decisions| ensures AtMostOne(x, f.decisions[i].options) {
        forall k: nat, l: nat | Picked(x, f.decisions[i].options, k) && Picked(x, f.decisions[i].options, l) ensures k == l {
          PickedIsChosen(m, f, x, i, k);
          PickedIsChosen(m, f, x, i, l);
          assert k < l || l < k || k == l;
        }
      }
    }
  }

  lemma PickedMeansInPlan(m: Model, f: Formulation, x: Choice, i: nat)
    requires Linked(m, f) && |x| == |f.options| && i < |m.tasks|
    ensures SomePicked(x, f.decisions[i].options) <==> InPlan(Decoded(f, x), m.tasks[i].id)
  {
    if SomePicked(x, f.decisions[i].options) {
      var k: nat :| Picked(x, f.decisions[i].options, k);
      var q := PickedEntry(m, f, x, i, k);
    }
    if InPlan(Decoded(f, x), m.tasks[i].id) {
      var q :| 0 <= q < |Decoded(f, x)| && Decoded(f, x)[q].task == m.tasks[i].id;
      var k := EntryPicked(m, f, x, i, q);
    }
  }

  lemma RequiredMeansCovered(m: Model, opts: Options, f: Formulation, x: Choice)
    requires Linked(m, f) && DecisionsExact(m, opts, f.options, f.decisions) && |x| == |f.options|
    ensures (forall i :: 0 <= i < |f.decisions| && f.decisions[i].required ==> SomePicked(x, f.decisions[i].options))
       <==> CoversRequired(m, opts, Decoded(f, x))
  {
    var plan := Decoded(f, x);
    forall i | 0 <= i < |m.tasks|
      ensures SomePicked(x, f.decisions[i].options) <==> InPlan(plan, m.tasks[i].id) {
      PickedMeansInPlan(m, f, x, i);
    }
    if forall i :: 0 <= i < |f.decisions| && f.decisions[i].required ==> SomePicked(x, f.decisions[i].options) {
      forall t | t in m.tasks && !opts.allowPartial && t.mandatory ensures InPlan(plan, t.id) {
        var i :| 0 <= i < |m.tasks| && m.tasks[i] == t;
        assert f.decisions[i].required;
      }
    }
  }

  // ---- capacity ------------------------------------------------------------------------------------------------

  /** One option's share of a slot row is its share of the load. */
  lemma SlotShare(m: Model, f: Formulation, s: SlotRow, k: nat)
    requires Linked(m, f) && k < |f.options| && SlotExact(m, f.options, s)
    ensures LoadOf(m, AssignmentOf(f.options[k]), m.actors[s.actorIndex].id, s.time)
         == if k in s.options then DemandIn(f)(k) else 0
  {
    OptionFacts(m, f, k);
    SameActorSameIndex(m, f.options[k].actorIndex, s.actorIndex);
    assert k in s.options <==> At(s.actorIndex, s.time)(f.options[k]);
  }

  /** The left side of a capacity row is the load of the decoded schedule at that instant. */
  lemma {:induction false} SlotSumIsLoad(m: Model, f: Formulation, x: Choice, s: SlotRow, n: nat)
    requires Linked(m, f) && n <= |x| == |f.options| && SlotExact(m, f.options, s)
    ensures PickSum(x, s.options, DemandIn(f), n) == Load(m, Chosen(f, x, n), m.actors[s.actorIndex].id, s.time)
  {
    if n > 0 {
      SlotSumIsLoad(m, f, x, s, n - 1);
      SlotShare(m, f, s, n - 1);
      var before := Chosen(f, x, n - 1);
      if x[n - 1] {
        LoadAppend(m, before, AssignmentOf(f.options[n - 1]), m.actors[s.actorIndex].id, s.time);
      } else {
        assert before + [] == before;
      }
    }
  }

  lemma SlotFor(m: Model, f: Formulation, actorIndex: nat, time: int) returns (s: SlotRow)
    requires SlotsExact(m, f.options, f.slots) && HasSlot(f.slots, actorIndex, time)
    ensures s in f.slots && SlotExact(m, f.options, s) && s.actorIndex == actorIndex && s.time == time
  {
    var r :| 0 <= r < |f.slots| && f.slots[r].actorIndex == actorIndex && f.slots[r].time == time;
    s := f.slots[r];
  }

  /** The rows for covered instants are enough: nobody is over capacity at any instant. */
  lemma CapacityRowsGiveCapacity(m: Model, f: Formulation, x: Choice)
    requires Linked(m, f) && SlotsExact(m, f.options, f.slots) && |x| == |f.options| && CapacitiesOk(f, x)
    ensures AllPlaced(m, Decoded(f, x)) && WithinCapacity(m, Decoded(f, x))
  {
    var plan := Decoded(f, x);
    DecodedPlaced(m, f, x);
    forall q, t | 0 <= q < |plan| && plan[q].start <= t < plan[q].end
      ensures Load(m, plan, plan[q].actor, t) <= ActorOf(m, plan[q].actor).capacity {
      var k := OptionOf(f, x, |x|, q);
      OptionFacts(m, f, k);
      assert Covers(f.options[k], f.options[k].actorIndex, t);
      var s := SlotFor(m, f, f.options[k].actorIndex, t);
      assert CapacityOk(f, s, x);
      SlotSumIsLoad(m, f, x, s, |x|);
    }
  }

  lemma SlotWithinCapacity(m: Model, f: Formulation, x: Choice, s: SlotRow)
    requires Linked(m, f) && NonNegativeDemands(m) && |x| == |f.options| && SlotExact(m, f.options, s)
    requires AllPlaced(m, Decoded(f, x)) && WithinCapacity(m, Decoded(f, x))
    ensures CapacityOk(f, s, x)
  {
    var plan := Decoded(f, x);
    SlotSumIsLoad(m, f, x, s, |x|);
    if k: nat :| Picked(x, s.options, k) {
      OptionFacts(m, f, k);
      assert At(s.actorIndex, s.time)(f.options[k]);
      var q := EntryOf(f, x, |x|, k);
      assert Load(m, plan, plan[q].actor, s.time) <= ActorOf(m, plan[q].actor).capacity;
    } else {
      SumOfNone(x, s.options, DemandIn(f), |x|);
      var k := s.options[0];
      assert k in s.options;
      assert At(s.actorIndex, s.time)(f.options[k]);
      OptionFacts(m, f, k);
    }
  }

  lemma CapacityGivesCapacityRows(m: Model, f: Formulation, x: Choice)
    requires Linked(m, f) && NonNegativeDemands(m) && SlotsExact(m, f.options, f.slots) && |x| == |f.options|
    requires AllPlaced(m, Decoded(f, x)) && WithinCapacity(m, Decoded(f, x))
    ensures CapacitiesOk(f, x)
  {
    forall s | s in f.slots ensures CapacityOk(f, s, x) {
      var r :| 0 <= r < |f.slots| && f.slots[r] == s;
      assert SlotExact(m, f.options, f.slots[r]);
      SlotWithinCapacity(m, f, x, s);
    }
  }

  // ---- precedence ------------------------------------------------------------------------------------------------

  lemma EntryFinishedBefore(m: Model, f: Formulation, x: Choice, q: nat, d: TaskId)
    requires Linked(m, f) && Shaped(f) && DependenciesExact(m, f.dependencies, |m.tasks|)
    requires |x| == |f.options| && PrecedencesOk(f, x)
    requires q < |Decoded(f, x)| && Placed(m, Decoded(f, x)[q])
    requires d in TaskOf(m, Decoded(f, x)[q].task).deps && d in Ids(m)
    ensures FinishedBefore(Decoded(f, x), d, Decoded(f, x)[q].start)
  {
    var i := EntryIndex(m, f, x, q);
    var k := EntryPicked(m, f, x, i, q);
    assert d in m.tasks[i].deps;
    var known := TaskOf(m, d);
    var p :| 0 <= p < |m.tasks| && m.tasks[p] == known;
    assert m.tasks[p].id == d;
    assert Dependency(p, i) in f.dependencies;
    assert PrecedenceOk(f, Dependency(p, i), x);
    var l: nat :| Picked(x, f.decisions[p].options, l) && EndOf(f)(l) <= StartOf(f)(k);
    var j := PickedEntry(m, f, x, p, l);
    assert Decoded(f, x)[j].task == d && Decoded(f, x)[j].end <= Decoded(f, x)[q].start;
  }

  lemma PrecedencesGiveOrder(m: Model, f: Formulation, x: Choice)
    requires Linked(m, f) && Shaped(f) && DependenciesExact(m, f.dependencies, |m.tasks|)
    requires |x| == |f.options| && PrecedencesOk(f, x)
    ensures AllPlaced(m, Decoded(f, x)) && Ordered(m, Decoded(f, x))
  {
    var plan := Decoded(f, x);
    DecodedPlaced(m, f, x);
    forall q, d | 0 <= q < |plan| && d in TaskOf(m, plan[q].task).deps && d in Ids(m)
      ensures FinishedBefore(plan, d, plan[q].start) {
      EntryFinishedBefore(m, f, x, q, d);
    }
  }

  lemma OrderGivesPrecedence(m: Model, f: Formulation, x: Choice, d: Dependency)
    requires Linked(m, f) && |x| == |f.options| && AllPlaced(m, Decoded(f, x)) && Ordered(m, Decoded(f, x))
    requires d.pred < |m.tasks| && d.succ < |m.tasks| && m.tasks[d.pred].id in m.tasks[d.succ].deps
    ensures PrecedenceOk(f, d, x)
  {
    var plan := Decoded(f, x);
    forall k: nat | Picked(x, f.decisions[d.succ].options, k)
      ensures exists l :: Picked(x, f.decisions[d.pred].options, l) && EndOf(f)(l) <= StartOf(f)(k) {
      var q := PickedEntry(m, f, x, d.succ, k);
      var id := m.tasks[d.pred].id;
      TaskOfId(m, m.tasks[d.pred]);
      TaskOfId(m, m.tasks[d.succ]);
      assert FinishedBefore(plan, id, plan[q].start);
      var j :| 0 <= j < |plan| && plan[j].task == id && plan[j].end <= plan[q].start;
      var l := EntryPicked(m, f, x, d.pred, j);
    }
  }

  // ---- mutual exclusion ----------------------------------------------------------------------------------------------

  lemma EntriesNotExclusive(m: Model, f: Formulation, x: Choice, j: nat, k: nat)
    requires Linked(m, f) && Shaped(f) && MutexesExact(m, f.mutexes, |m.tasks|) && |x| == |f.options| && MutexesOk(f, x)
    requires j < |Decoded(f, x)| && k < |Decoded(f, x)| && Decoded(f, x)[j].task != Decoded(f, x)[k].task
    requires Placed(m, Decoded(f, x)[k])
    ensures Decoded(f, x)[j].task !in TaskOf(m, Decoded(f, x)[k].task).mutex
  {
    var a := EntryIndex(m, f, x, j);
    var b := EntryIndex(m, f, x, k);
    if Decoded(f, x)[j].task in TaskOf(m, Decoded(f, x)[k].task).mutex {
      assert Excludes(m, |m.tasks|, b, a);
      var p := if a < b then MutexPair(a, b) else MutexPair(b, a);
      assert p in f.mutexes;
      assert MutexOk(f, p, x);
      PickedMeansInPlan(m, f, x, a);
      PickedMeansInPlan(m, f, x, b);
    }
  }

  lemma MutexesGiveExclusion(m: Model, f: Formulation, x: Choice)
    requires Linked(m, f) && Shaped(f) && MutexesExact(m, f.mutexes, |m.tasks|) && |x| == |f.options|
    requires DistinctTasks(Decoded(f, x)) && MutexesOk(f, x)
    ensures AllPlaced(m, Decoded(f, x)) && Exclusive(m, Decoded(f, x))
  {
    var plan := Decoded(f, x);
    DecodedPlaced(m, f, x);
    forall j, k | 0 <= j < |plan| && 0 <= k < |plan| && j != k
      ensures plan[j].task !in TaskOf(m, plan[k].task).mutex {
      assert j < k || k < j;
      EntriesNotExclusive(m, f, x, j, k);
    }
  }

  lemma ExclusionGivesMutex(m: Model, f: Formulation, x: Choice, p: MutexPair)
    requires Linked(m, f) && |x| == |f.options| && AllPlaced(m, Decoded(f, x)) && Exclusive(m, Decoded(f, x))
    requires p.first < p.second < |m.tasks|
    requires m.tasks[p.first].id in m.tasks[p.second].mutex || m.tasks[p.second].id in m.tasks[p.first].mutex
    ensures MutexOk(f, p, x)
  {
    var plan := Decoded(f, x);
    PickedMeansInPlan(m, f, x, p.first);
    PickedMeansInPlan(m, f, x, p.second);
    TaskOfId(m, m.tasks[p.first]);
    TaskOfId(m, m.tasks[p.second]);
    if InPlan(plan, m.tasks[p.first].id) {
      var j :| 0 <= j < |plan| && plan[j].task == m.tasks[p.first].id;
      forall k | 0 <= k < |plan| ensures plan[k].task != m.tasks[p.second].id {
        assert j != k ==> plan[j].task !in TaskOf(m, plan[k].task).mutex
                          && plan[k].task !in TaskOf(m, plan[j].task).mutex;
      }
    }
  }

  lemma OrderAndExclusionGiveRows(m: Model, f: Formulation, x: Choice)
    requires Linked(m, f) && Shaped(f) && |x| == |f.options|
    requires DependenciesExact(m, f.dependencies, |m.tasks|) && MutexesExact(m, f.mutexes, |m.tasks|)
    requires AllPlaced(m, Decoded(f, x)) && Ordered(m, Decoded(f, x)) && Exclusive(m, Decoded(f, x))
    ensures PrecedencesOk(f, x) && MutexesOk(f, x)
  {
    forall d | d in f.dependencies ensures PrecedenceOk(f, d, x) {
      OrderGivesPrecedence(m, f, x, d);
    }
    forall p | p in f.mutexes ensures MutexOk(f, p, x) {
      assert Excludes(m, |m.tasks|, p.first, p.second) || Excludes(m, |m.tasks|, p.second, p.first);
      ExclusionGivesMutex(m, f, x, p);
    }
  }

  /** A choice is feasible exactly when the schedule it decodes to is. */
  lemma ChoiceMeansPlan(m: Model, opts: Options, f: Formulation, x: Choice)
    requires UniqueIds(m) && NonNegativeDemands(m) && Exact(m, opts, f) && Shaped(f) && |x| == |f.options|
    ensures ChoiceOk(f, x) <==> Feasible(m, Decoded(f, x)) && CoversRequired(m, opts, Decoded(f, x))
  {
    SelectionsMeanDistinct(m, f, x);
    RequiredMeansCovered(m, opts, f, x);
    if ChoiceOk(f, x) {
      forall i | 0 <= i < |f.decisions| ensures SelectionOk(f.decisions[i], x) {
        AtMostOneOf(f, x, i);
      }
      CapacityRowsGiveCapacity(m, f, x);
      PrecedencesGiveOrder(m, f, x);
      MutexesGiveExclusion(m, f, x);
    }
    if Feasible(m, Decoded(f, x)) && CoversRequired(m, opts, Decoded(f, x)) {
      CapacityGivesCapacityRows(m, f, x);
      OrderAndExclusionGiveRows(m, f, x);
      forall d | d in f.decisions ensures SelectionOk(d, x) {
        var i := SelectionIndex(f, d);
      }
    }
  }

  /** The linear rows mean feasibility of the decoded schedule. */
  lemma RowsMeanFeasible(m: Model, opts: Options, f: Formulation, rows: seq<Row>, x: Choice)
    requires UniqueIds(m) && NonNegativeDemands(m) && Exact(m, opts, f) && CpRows(f, rows) && |x| == |f.options|
    ensures AllHold(rows, x) <==> Feasible(m, Decoded(f, x)) && CoversRequired(m, opts, Decoded(f, x))
  {
    ExactIsShaped(m, opts, f);
    CpRowsMeanChoice(f, rows, x);
    ChoiceMeansPlan(m, opts, f, x);
  }

  /** With positive durations the MIP rows admit a choice exactly when the CP-SAT rows do, once no
      self-dependent task is chosen. */
  lemma BackendsAgree(m: Model, opts: Options, f: Formulation, cp: seq<Row>, mip: seq<MipRow>, x: Choice)
    requires PositiveDurations(m) && Exact(m, opts, f) && CpRows(f, cp) && MipRows(f, mip) && |x| == |f.options|
    ensures Shaped(f)
    ensures AllHold(cp, x) <==> AllHoldMip(mip, x) && NoSelfDependentChosen(f, x)
    ensures (forall t :: t in m.tasks ==> t.id !in t.deps) ==> (AllHold(cp, x) <==> AllHoldMip(mip, x))
  {
    ExactIsShaped(m, opts, f);
    CpVersusMip(f, cp, mip, x);
    if forall t :: t in m.tasks ==> t.id !in t.deps {
      forall d | d in f.dependencies ensures d.pred != d.succ {
        assert m.tasks[d.succ] in m.tasks;
      }
    }
  }

  // ---- decoding ----------------------------------------------------------------------------------------------

  function AssignmentKey(a: Assignment): Key {
    [Num(a.start), Num(a.end), Text(a.task), Text(a.actor)]
  }

  lemma AssignmentKeyOrder(a: Assignment, b: Assignment)
    requires KeyLeq(AssignmentKey(a), AssignmentKey(b))
    ensures a.start <= b.start
    ensures a.start == b.start ==> a.end <= b.end
    ensures a.start == b.start && a.end == b.end ==> a.task == b.task || TextLess(a.task, b.task)
    ensures a.start == b.start && a.end == b.end && a.task == b.task ==> a.actor == b.actor || TextLess(a.actor, b.actor)
  {
    var k, l := AssignmentKey(a), AssignmentKey(b);
    KeyLeqMeaning(k, l);
    assert k[..0] == l[..0];
    assert k[0] == l[0] ==> k[..1] == l[..1];
    assert k[0] == l[0] && k[1] == l[1] ==> k[..2] == l[..2];
    assert k[0] == l[0] && k[1] == l[1] && k[2] == l[2] ==> k[..3] == l[..3];
  }

  /** By start, end, task and actor. */
  ghost predicate InTimeOrder(plan: seq<Assignment>) {
    forall i, j :: 0 <= i < j < |plan| ==>
      var (a, b) := (plan[i], plan[j]);
      && a.start <= b.start
      && (a.start == b.start ==> a.end <= b.end)
      && (a.start == b.start && a.end == b.end ==> a.task == b.task || TextLess(a.task, b.task))
      && (a.start == b.start && a.end == b.end && a.task == b.task ==> a.actor == b.actor || TextLess(a.actor, b.actor))
  }

  lemma SortedInTimeOrder(plan: seq<Assignment>)
    requires SortedBy(AssignmentKey, plan)
    ensures InTimeOrder(plan)
  {
    forall i, j | 0 <= i < j < |plan| ensures KeyLeq(AssignmentKey(plan[i]), AssignmentKey(plan[j])) {
    }
    forall i, j | 0 <= i < j < |plan|
      ensures plan[i].start <= plan[j].start
      ensures plan[i].start == plan[j].start ==> plan[i].end <= plan[j].end
      ensures plan[i].start == plan[j].start && plan[i].end == plan[j].end ==>
                plan[i].task == plan[j].task || TextLess(plan[i].task, plan[j].task)
      ensures plan[i].start == plan[j].start && plan[i].end == plan[j].end && plan[i].task == plan[j].task ==>
                plan[i].actor == plan[j].actor || TextLess(plan[i].actor, plan[j].actor) {
      AssignmentKeyOrder(plan[i], plan[j]);
    }
  }

  function TaskIds(plan: seq<Assignment>): set<TaskId> {
    set a | a in plan :: a.task
  }

  lemma TaskIdsAppend(plan: seq<Assignment>, a: Assignment)
    ensures TaskIds(plan + [a]) == TaskIds(plan) + {a.task}
  {
  }

  lemma TaskIdsOfPermutation(a: seq<Assignment>, b: seq<Assignment>)
    requires multiset(a) == multiset(b)
    ensures TaskIds(a) == TaskIds(b)
  {
    PermutationMembers(a, b);
  }

  /** The decoded solution lists the chosen schedule in time order, and the ids it leaves out in the order
      of the model. */
  method DecodeSelectedOptions(m: Model, f: Formulation, x: Choice)
    returns (assignments: seq<Assignment>, unfulfilled: seq<TaskId>)
    requires |x| == |f.options|
    ensures multiset(assignments) == multiset(Decoded(f, x)) && InTimeOrder(assignments)
    ensures unfulfilled == Unscheduled(m.tasks, TaskIds(assignments))
    ensures UniqueIds(m) ==> Distinct(unfulfilled)
  {
    var chosen: seq<Assignment> := [];
    var selected: set<TaskId> := {};
    var k := 0;
    while k < |x|
      invariant 0 <= k <= |x|
      invariant chosen == Chosen(f, x, k) && selected == TaskIds(chosen)
    {
      if x[k] {
        TaskIdsAppend(chosen, AssignmentOf(f.options[k]));
        chosen := chosen + [AssignmentOf(f.options[k])];
        selected := selected + {f.options[k].task};
      }
      k := k + 1;
    }
    assignments := Sort(AssignmentKey, chosen);
    SortSorted(AssignmentKey, chosen);
    SortedInTimeOrder(assignments);
    TaskIdsOfPermutation(assignments, chosen);
    unfulfilled := CollectUnselected(m, selected);
    if UniqueIds(m) {
      UnscheduledDistinct(m.tasks, selected);
    }
  }

  method CollectUnselected(m: Model, selected: set<TaskId>) returns (unfulfilled: seq<TaskId>)
    ensures unfulfilled == Unscheduled(m.tasks, selected)
  {
    unfulfilled := [];
    var i := 0;
    while i < |m.tasks|
      invariant 0 <= i <= |m.tasks|
      invariant unfulfilled == Unscheduled(m.tasks[..i], selected)
    {
      UnscheduledOneMore(m.tasks, selected, i);
      if m.tasks[i].id !in selected {
        unfulfilled := unfulfilled + [m.tasks[i].id];
      }
      i := i + 1;
    }
    assert m.tasks[..i] == m.tasks;
  }
}
