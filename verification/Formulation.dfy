/** Compiling a model into discrete placement options and constraint data. */
module Formulation {
  import opened Basics
  import opened Reservations
  import opened OptimizerModel
  import opened ConstraintIndex

  datatype DiscreteOption = DiscreteOption(
    taskIndex: nat, actorIndex: nat, task: TaskId, actor: ActorId, start: int, end: int, demand: int)

  datatype Decision = Decision(taskIndex: nat, required: bool, options: seq<nat>)

  datatype SlotRow = SlotRow(actorIndex: nat, time: int, capacity: int, options: seq<nat>)

  datatype Dependency = Dependency(pred: nat, succ: nat)

  datatype MutexPair = MutexPair(first: nat, second: nat)

  datatype Formulation = Formulation(
    options: seq<DiscreteOption>,
    decisions: seq<Decision>,
    slots: seq<SlotRow>,
    dependencies: seq<Dependency>,
    mutexes: seq<MutexPair>,
    horizon: int)

  // ---- what the options should be -------------------------------------------------------------------

  /** The code also asks that the window ends no earlier than the task's duration; for starts from
      zero on this follows from the rest. */
  predicate InUsableWindow(t: Task, w: Window, start: int) {
    InWindow(w, start, t.duration) && t.duration <= w.end
  }

  /** The plain meaning of an option. */
  predicate IsOption(t: Task, a: Actor, start: int) {
    && Admissible(t, a)
    && InTime(t, start)
    && (exists w :: w in a.windows && InUsableWindow(t, w, start))
  }

  lemma OptionIsPlacement(t: Task, a: Actor, start: int)
    requires start >= 0
    ensures IsOption(t, a, start) <==> Placement(t, a, start)
  {
    if Placement(t, a, start) {
      var w :| w in a.windows && InWindow(w, start, t.duration);
      assert InUsableWindow(t, w, start);
    }
  }

  function MakeOption(m: Model, i: nat, j: nat, start: int): DiscreteOption
    requires i < |m.tasks| && j < |m.actors|
  {
    DiscreteOption(i, j, m.tasks[i].id, m.actors[j].id, start, start + m.tasks[i].duration, m.tasks[i].demand)
  }

  predicate Covers(o: DiscreteOption, actorIndex: nat, time: int) {
    o.actorIndex == actorIndex && o.start <= time < o.end
  }

  ghost predicate Increasing(s: seq<nat>) {
    forall i, j :: 0 <= i < j < |s| ==> s[i] < s[j]
  }

  /** A list of option numbers that holds exactly the options satisfying `p`, in order. */
  ghost predicate Lists(options: seq<DiscreteOption>, list: seq<nat>, p: DiscreteOption -> bool) {
    && Increasing(list)
    && (forall k :: k in list <==> 0 <= k < |options| && p(options[k]))
  }

  function OfTask(i: nat): DiscreteOption -> bool {
    (o: DiscreteOption) => o.taskIndex == i
  }

  function At(actorIndex: nat, time: int): DiscreteOption -> bool {
    (o: DiscreteOption) => Covers(o, actorIndex, time)
  }

  /** Every option is a placement of a task on an actor ... */
  ghost predicate OptionsSound(m: Model, options: seq<DiscreteOption>, n: nat) {
    forall k :: 0 <= k < |options| ==>
      && options[k].taskIndex < n <= |m.tasks|
      && options[k].actorIndex < |m.actors|
      && options[k] == MakeOption(m, options[k].taskIndex, options[k].actorIndex, options[k].start)
      && IsOption(m.tasks[options[k].taskIndex], m.actors[options[k].actorIndex], options[k].start)
  }

  /** ... and every placement is an option. */
  ghost predicate OptionsComplete(m: Model, options: seq<DiscreteOption>, n: nat) {
    forall i, j, start ::
      0 <= i < n && i < |m.tasks| && 0 <= j < |m.actors| && IsOption(m.tasks[i], m.actors[j], start) ==>
        MakeOption(m, i, j, start) in options
  }

  ghost predicate DecisionsExact(m: Model, opts: Options, options: seq<DiscreteOption>, decisions: seq<Decision>) {
    forall i :: 0 <= i < |decisions| && i < |m.tasks| ==>
      && decisions[i].taskIndex == i
      && decisions[i].required == (!opts.allowPartial && m.tasks[i].mandatory)
      && Lists(options, decisions[i].options, OfTask(i))
  }

  ghost predicate HasSlot(slots: seq<SlotRow>, actorIndex: nat, time: int) {
    exists r :: 0 <= r < |slots| && slots[r].actorIndex == actorIndex && slots[r].time == time
  }

  ghost predicate SlotExact(m: Model, options: seq<DiscreteOption>, row: SlotRow) {
    && row.actorIndex < |m.actors|
    && row.capacity == m.actors[row.actorIndex].capacity
    && row.options != []
    && Lists(options, row.options, At(row.actorIndex, row.time))
  }

  /** Each actor and instant that some option covers has one row, listing exactly those options. */
  ghost predicate SlotsExact(m: Model, options: seq<DiscreteOption>, slots: seq<SlotRow>) {
    && (forall r :: 0 <= r < |slots| ==> SlotExact(m, options, slots[r]))
    && (forall k, time :: 0 <= k < |options| && Covers(options[k], options[k].actorIndex, time) ==>
          HasSlot(slots, options[k].actorIndex, time))
    && (forall q, r :: 0 <= q < r < |slots| ==> slots[q].actorIndex != slots[r].actorIndex || slots[q].time != slots[r].time)
  }

  ghost predicate DependenciesExact(m: Model, deps: seq<Dependency>, n: nat) {
    forall d :: d in deps <==>
      d.succ < n && d.succ < |m.tasks| && d.pred < |m.tasks| && m.tasks[d.pred].id in m.tasks[d.succ].deps
  }

  /** Task `i` names task `other` in its mutex list. */
  ghost predicate Excludes(m: Model, n: nat, i: nat, other: nat) {
    i < n && i < |m.tasks| && other < |m.tasks| && m.tasks[other].id in m.tasks[i].mutex
  }

  ghost predicate MutexesExact(m: Model, pairs: seq<MutexPair>, n: nat) {
    && (forall p :: p in pairs <==>
          p.first < p.second && (Excludes(m, n, p.first, p.second) || Excludes(m, n, p.second, p.first)))
    && Distinct(pairs)
  }

  ghost predicate HorizonExact(options: seq<DiscreteOption>, horizon: int) {
    && horizon >= 0
    && (forall k :: 0 <= k < |options| ==> options[k].end <= horizon)
    && (horizon > 0 ==> exists k :: 0 <= k < |options| && options[k].end == horizon)
  }

  /** The compiled data says what the model says. */
  ghost predicate Exact(m: Model, opts: Options, f: Formulation) {
    && OptionsSound(m, f.options, |m.tasks|)
    && OptionsComplete(m, f.options, |m.tasks|)
    && |f.decisions| == |m.tasks|
    && DecisionsExact(m, opts, f.options, f.decisions)
    && SlotsExact(m, f.options, f.slots)
    && DependenciesExact(m, f.dependencies, |m.tasks|)
    && MutexesExact(m, f.mutexes, |m.tasks|)
    && HorizonExact(f.options, f.horizon)
  }

  // ---- building the options -----------------------------------------------------------------------

  predicate StartsInTime(t: Task, w: Window, start: int) {
    && start + t.duration <= w.end
    && (t.latestStart.Some? ==> start <= t.latestStart.value)
    && (t.deadline.Some? ==> start + t.duration <= t.deadline.value)
  }

  function LatestFeasibleStart(t: Task, w: Window): (r: Option<int>)
    ensures r.None? <==> w.end < t.duration
    ensures r.Some? ==>
      forall start :: StartsInTime(t, w, start) <==> start <= r.value
  {
    if w.end < t.duration then None
    else
      var latest := w.end - t.duration;
      var latest' := if t.latestStart.Some? && t.latestStart.value < latest then t.latestStart.value else latest;
      var latest'' := if t.deadline.Some? && t.deadline.value - t.duration < latest' then t.deadline.value - t.duration else latest';
      Some(latest'')
  }

  /** Slots under construction: for each actor and instant the options seen so far that cover it. */
  type SlotMap = map<(nat, int), seq<nat>>

  ghost predicate SlotMapExact(options: seq<DiscreteOption>, slots: SlotMap) {
    && (forall key :: key in slots ==> slots[key] != [] && Lists(options, slots[key], At(key.0, key.1)))
    && (forall k, time :: 0 <= k < |options| && Covers(options[k], options[k].actorIndex, time) ==>
          (options[k].actorIndex, time) in slots)
  }

  ghost predicate SlotStep(before: SlotMap, after: SlotMap, o: DiscreteOption, n: nat, upTo: int) {
    forall key :: 
      && (key in after <==> key in before || (key.0 == o.actorIndex && o.start <= key.1 < upTo))
      && (key in after ==>
            after[key] == (if key in before then before[key] else []) +
                          (if key.0 == o.actorIndex && o.start <= key.1 < upTo then [n] else []))
  }

  lemma ListsAppend(options: seq<DiscreteOption>, o: DiscreteOption, list: seq<nat>, p: DiscreteOption -> bool)
    requires Lists(options, list, p)
    ensures Lists(options + [o], list + (if p(o) then [|options|] else []), p)
  {
    var more := list + (if p(o) then [|options|] else []);
    forall k ensures k in more <==> 0 <= k < |options| + 1 && p((options + [o])[k]) {
      assert k in list <==> 0 <= k < |options| && p(options[k]);
    }
    forall i, j | 0 <= i < j < |more| ensures more[i] < more[j] {
      assert i < |list| ==> list[i] in list;
    }
  }

  lemma SlotStepExact(options: seq<DiscreteOption>, o: DiscreteOption, before: SlotMap, after: SlotMap)
    requires SlotMapExact(options, before) && SlotStep(before, after, o, |options|, o.end)
    ensures SlotMapExact(options + [o], after)
  {
    forall key | key in after ensures after[key] != [] && Lists(options + [o], after[key], At(key.0, key.1)) {
      if key in before {
        ListsAppend(options, o, before[key], At(key.0, key.1));
      } else {
        assert forall k :: 0 <= k < |options| ==> !At(key.0, key.1)(options[k]);
        assert Lists(options, [], At(key.0, key.1));
        ListsAppend(options, o, [], At(key.0, key.1));
      }
    }
  }

  /** Registers the newest option at every instant it covers. */
  method RegisterSlots(o: DiscreteOption, n: nat, before: SlotMap) returns (slots: SlotMap)
    ensures SlotStep(before, slots, o, n, o.end)
  {
    slots := before;
    var time := o.start;
    while time < o.end
      invariant o.start <= time && (time == o.start || time <= o.end)
      invariant SlotStep(before, slots, o, n, time)
    {
      var key := (o.actorIndex, time);
      slots := slots[key := (if key in slots then slots[key] else []) + [n]];
      time := time + 1;
    }
    assert time == o.end || (time == o.start && o.end <= o.start);
  }

  /** What has been built from the first tasks. */
  ghost predicate Built(m: Model, options: seq<DiscreteOption>, slots: SlotMap, horizon: int, n: nat) {
    && OptionsSound(m, options, n)
    && SlotMapExact(options, slots)
    && HorizonExact(options, horizon)
  }

  /** Only options of task `i` have been added. */
  ghost predicate Extends(before: seq<DiscreteOption>, after: seq<DiscreteOption>, i: nat) {
    before <= after && forall k :: |before| <= k < |after| ==> after[k].taskIndex == i
  }

  lemma HorizonStep(options: seq<DiscreteOption>, horizon: int, o: DiscreteOption)
    requires HorizonExact(options, horizon)
    ensures HorizonExact(options + [o], Max(horizon, o.end))
  {
    var more := options + [o];
    assert more[|options|] == o;
    if horizon > 0 && horizon >= o.end {
      var k :| 0 <= k < |options| && options[k].end == horizon;
      assert more[k] == options[k];
    }
  }

  /** All starts of one task on one actor in one window. */
  method AddWindow(m: Model, i: nat, j: nat, w: Window, options0: seq<DiscreteOption>, slots0: SlotMap, horizon0: int, mine0: seq<nat>)
    returns (options: seq<DiscreteOption>, slots: SlotMap, horizon: int, mine: seq<nat>)
    requires i < |m.tasks| && j < |m.actors| && w in m.actors[j].windows && Admissible(m.tasks[i], m.actors[j])
    requires Built(m, options0, slots0, horizon0, i + 1) && Lists(options0, mine0, OfTask(i))
    ensures Extends(options0, options, i)
    ensures Built(m, options, slots, horizon, i + 1) && Lists(options, mine, OfTask(i))
    ensures forall start :: InTime(m.tasks[i], start) && InUsableWindow(m.tasks[i], w, start) ==>
              MakeOption(m, i, j, start) in options
  {
    options, slots, horizon, mine := options0, slots0, horizon0, mine0;
    var t := m.tasks[i];
    var first := Max(w.start, t.release);
    var last := LatestFeasibleStart(t, w);
    if last.None? || first > last.value {
      return;
    }
    var start := first;
    while start <= last.value
      invariant first <= start <= last.value + 1
      invariant Extends(options0, options, i)
      invariant Built(m, options, slots, horizon, i + 1) && Lists(options, mine, OfTask(i))
      invariant forall s :: first <= s < start ==> MakeOption(m, i, j, s) in options
    {
      var o := MakeOption(m, i, j, start);
      assert InUsableWindow(t, w, start);
      var slots' := RegisterSlots(o, |options|, slots);
      SlotStepExact(options, o, slots, slots');
      HorizonStep(options, horizon, o);
      ListsAppend(options, o, mine, OfTask(i));
      mine := mine + [|options|];
      options, slots, horizon := options + [o], slots', Max(horizon, o.end);
      start := start + 1;
    }
  }

  method AddActor(m: Model, i: nat, j: nat, options0: seq<DiscreteOption>, slots0: SlotMap, horizon0: int, mine0: seq<nat>)
    returns (options: seq<DiscreteOption>, slots: SlotMap, horizon: int, mine: seq<nat>)
    requires i < |m.tasks| && j < |m.actors| && Admissible(m.tasks[i], m.actors[j])
    requires Built(m, options0, slots0, horizon0, i + 1) && Lists(options0, mine0, OfTask(i))
    ensures Extends(options0, options, i)
    ensures Built(m, options, slots, horizon, i + 1) && Lists(options, mine, OfTask(i))
    ensures forall start :: IsOption(m.tasks[i], m.actors[j], start) ==> MakeOption(m, i, j, start) in options
  {
    options, slots, horizon, mine := options0, slots0, horizon0, mine0;
    var windows := m.actors[j].windows;
    var k := 0;
    while k < |windows|
      invariant 0 <= k <= |windows|
      invariant Extends(options0, options, i)
      invariant Built(m, options, slots, horizon, i + 1) && Lists(options, mine, OfTask(i))
      invariant forall w, start :: w in windows[..k] && InTime(m.tasks[i], start) && InUsableWindow(m.tasks[i], w, start) ==>
                  MakeOption(m, i, j, start) in options
    {
      assert windows[..k + 1] == windows[..k] + [windows[k]];
      options, slots, horizon, mine := AddWindow(m, i, j, windows[k], options, slots, horizon, mine);
      k := k + 1;
    }
    assert windows[..k] == windows;
  }

  method AddTask(m: Model, index: Index, i: nat, options0: seq<DiscreteOption>, slots0: SlotMap, horizon0: int)
    returns (options: seq<DiscreteOption>, slots: SlotMap, horizon: int, mine: seq<nat>)
    requires i < |m.tasks| && m.tasks[i].id in index.eligible && Matches(m, m.tasks[i], index.eligible[m.tasks[i].id])
    requires Built(m, options0, slots0, horizon0, i)
    ensures Extends(options0, options, i)
    ensures Built(m, options, slots, horizon, i + 1) && Lists(options, mine, OfTask(i))
    ensures forall j, start :: 0 <= j < |m.actors| && IsOption(m.tasks[i], m.actors[j], start) ==>
              MakeOption(m, i, j, start) in options
  {
    options, slots, horizon, mine := options0, slots0, horizon0, [];
    var list := index.eligible[m.tasks[i].id];
    var k := 0;
    while k < |list|
      invariant 0 <= k <= |list|
      invariant Extends(options0, options, i)
      invariant Built(m, options, slots, horizon, i + 1) && Lists(options, mine, OfTask(i))
      invariant forall j, start :: j in list[..k] && j < |m.actors| && IsOption(m.tasks[i], m.actors[j], start) ==>
                  MakeOption(m, i, j, start) in options
    {
      assert list[k] in list && list[..k + 1] == list[..k] + [list[k]];
      var a := m.actors[list[k]];
      if m.tasks[i].demand <= a.capacity && (forall c :: c in m.tasks[i].capabilities ==> c in a.capabilities) {
        options, slots, horizon, mine := AddActor(m, i, list[k], options, slots, horizon, mine);
      }
      k := k + 1;
    }
    assert list[..k] == list;
  }

  // ---- dependency and mutex pairs ------------------------------------------------------------------

  method AddDependencies(m: Model, byId: map<TaskId, nat>, i: nat, deps0: seq<Dependency>) returns (deps: seq<Dependency>)
    requires i < |m.tasks| && TaskTable(m, byId) && DependenciesExact(m, deps0, i)
    ensures DependenciesExact(m, deps, i + 1)
  {
    deps := deps0;
    var ids := m.tasks[i].deps;
    var k := 0;
    while k < |ids|
      invariant 0 <= k <= |ids|
      invariant forall d :: d in deps <==>
        d in deps0 || (d.succ == i && d.pred < |m.tasks| && m.tasks[d.pred].id in ids[..k])
    {
      assert ids[..k + 1] == ids[..k] + [ids[k]];
      if ids[k] in byId {
        deps := deps + [Dependency(byId[ids[k]], i)];
      }
      k := k + 1;
    }
    assert ids[..k] == ids;
  }

  method AddMutexes(m: Model, byId: map<TaskId, nat>, i: nat, pairs0: seq<MutexPair>) returns (pairs: seq<MutexPair>)
    requires i < |m.tasks| && TaskTable(m, byId) && MutexesExact(m, pairs0, i)
    ensures MutexesExact(m, pairs, i + 1)
  {
    pairs := pairs0;
    var ids := m.tasks[i].mutex;
    var k := 0;
    while k < |ids|
      invariant 0 <= k <= |ids|
      invariant Distinct(pairs)
      invariant forall p :: p in pairs <==>
        || p in pairs0
        || (p.first < p.second < |m.tasks| && ((p.first == i && m.tasks[p.second].id in ids[..k]) ||
                                               (p.second == i && m.tasks[p.first].id in ids[..k])))
    {
      assert ids[..k + 1] == ids[..k] + [ids[k]];
      if ids[k] in byId {
        var other := byId[ids[k]];
        var p := if i < other then MutexPair(i, other) else MutexPair(other, i);
        if other != i && p !in pairs {
          DistinctAppend(pairs, p);
          pairs := pairs + [p];
        }
      }
      k := k + 1;
    }
    assert ids[..k] == ids;
  }

  // ---- slot rows -------------------------------------------------------------------------------------

  /** The rows collected so far, for the keys already taken out of the map. */
  ghost predicate RowsFor(m: Model, slots: SlotMap, rows: seq<SlotRow>, done: set<(nat, int)>) {
    && (forall key :: key in done ==> HasSlot(rows, key.0, key.1))
    && (forall r :: 0 <= r < |rows| ==>
          && (rows[r].actorIndex, rows[r].time) in done
          && (rows[r].actorIndex, rows[r].time) in slots
          && rows[r].actorIndex < |m.actors|
          && rows[r] == SlotRow(rows[r].actorIndex, rows[r].time, m.actors[rows[r].actorIndex].capacity,
                                slots[(rows[r].actorIndex, rows[r].time)]))
    && (forall q, r :: 0 <= q < r < |rows| ==> rows[q].actorIndex != rows[r].actorIndex || rows[q].time != rows[r].time)
  }

  lemma RowsForStep(m: Model, slots: SlotMap, rows: seq<SlotRow>, done: set<(nat, int)>, key: (nat, int))
    requires RowsFor(m, slots, rows, done) && key in slots && key !in done && key.0 < |m.actors|
    ensures RowsFor(m, slots, rows + [SlotRow(key.0, key.1, m.actors[key.0].capacity, slots[key])], done + {key})
  {
    var row := SlotRow(key.0, key.1, m.actors[key.0].capacity, slots[key]);
    var more := rows + [row];
    assert more[|rows|] == row;
    forall k | k in done + {key} ensures HasSlot(more, k.0, k.1) {
      if k != key {
        assert HasSlot(rows, k.0, k.1);
        var r :| 0 <= r < |rows| && rows[r].actorIndex == k.0 && rows[r].time == k.1;
        assert more[r] == rows[r];
      }
    }
  }

  lemma RowsForAll(m: Model, options: seq<DiscreteOption>, slots: SlotMap, rows: seq<SlotRow>)
    requires SlotMapExact(options, slots) && RowsFor(m, slots, rows, slots.Keys)
    ensures SlotsExact(m, options, rows)
  {
    forall r | 0 <= r < |rows| ensures SlotExact(m, options, rows[r]) {
      var key := (rows[r].actorIndex, rows[r].time);
      assert key in slots && Lists(options, slots[key], At(key.0, key.1));
    }
    forall k, time | 0 <= k < |options| && Covers(options[k], options[k].actorIndex, time)
      ensures HasSlot(rows, options[k].actorIndex, time) {
      assert (options[k].actorIndex, time) in slots.Keys;
    }
  }

  method CollectSlots(m: Model, options: seq<DiscreteOption>, slots: SlotMap) returns (rows: seq<SlotRow>)
    requires OptionsSound(m, options, |m.tasks|) && SlotMapExact(options, slots)
    ensures SlotsExact(m, options, rows)
  {
    rows := [];
    var keys := slots.Keys;
    while keys != {}
      invariant keys <= slots.Keys
      invariant RowsFor(m, slots, rows, slots.Keys - keys)
      decreases keys
    {
      var key :| key in keys;
      assert Lists(options, slots[key], At(key.0, key.1));
      assert slots[key][0] in slots[key];
      RowsForStep(m, slots, rows, slots.Keys - keys, key);
      assert slots.Keys - (keys - {key}) == (slots.Keys - keys) + {key};
      rows := rows + [SlotRow(key.0, key.1, m.actors[key.0].capacity, slots[key])];
      keys := keys - {key};
    }
    assert slots.Keys - {} == slots.Keys;
    RowsForAll(m, options, slots, rows);
  }

  /** What the formulation holds once the first `n` tasks have been compiled. */
  ghost predicate Compiled(m: Model, opts: Options, options: seq<DiscreteOption>, slots: SlotMap, horizon: int,
                           decisions: seq<Decision>, n: nat) {
    && |decisions| == n <= |m.tasks|
    && Built(m, options, slots, horizon, n)
    && OptionsComplete(m, options, n)
    && DecisionsExact(m, opts, options, decisions)
  }

  lemma CompiledStep(m: Model, opts: Options, before: seq<DiscreteOption>, slots0: SlotMap, horizon0: int, decisions: seq<Decision>,
                     options: seq<DiscreteOption>, slots: SlotMap, horizon: int, mine: seq<nat>)
    requires Compiled(m, opts, before, slots0, horizon0, decisions, |decisions|) && |decisions| < |m.tasks|
    requires Extends(before, options, |decisions|)
    requires Built(m, options, slots, horizon, |decisions| + 1) && Lists(options, mine, OfTask(|decisions|))
    requires forall j, start :: 0 <= j < |m.actors| && IsOption(m.tasks[|decisions|], m.actors[j], start) ==>
              MakeOption(m, |decisions|, j, start) in options
    ensures Compiled(m, opts, options, slots, horizon,
                     decisions + [Decision(|decisions|, !opts.allowPartial && m.tasks[|decisions|].mandatory, mine)],
                     |decisions| + 1)
  {
    OlderDecisionsStay(m, opts, before, options, decisions, mine);
    forall i, j, start |
      0 <= i < |decisions| + 1 && i < |m.tasks| && 0 <= j < |m.actors| && IsOption(m.tasks[i], m.actors[j], start)
      ensures MakeOption(m, i, j, start) in options {
      if i < |decisions| {
        assert MakeOption(m, i, j, start) in before;
      }
    }
  }

  method BuildFormulation(m: Model, index: Index, opts: Options) returns (f: Formulation)
    requires UniqueIds(m) && Agrees(m, index)
    ensures Exact(m, opts, f)
  {
    var byId := BuildTaskTable(m);
    var options: seq<DiscreteOption> := [];
    var slots: SlotMap := map[];
    var horizon := 0;
    var decisions: seq<Decision> := [];
    var deps: seq<Dependency> := [];
    var pairs: seq<MutexPair> := [];
    var i := 0;
    while i < |m.tasks|
      invariant 0 <= i <= |m.tasks|
      invariant Compiled(m, opts, options, slots, horizon, decisions, i)
      invariant DependenciesExact(m, deps, i)
      invariant MutexesExact(m, pairs, i)
    {
      assert m.tasks[i] in m.tasks;
      var options', slots', horizon', mine := AddTask(m, index, i, options, slots, horizon);
      CompiledStep(m, opts, options, slots, horizon, decisions, options', slots', horizon', mine);
      options, slots, horizon := options', slots', horizon';
      decisions := decisions + [Decision(i, !opts.allowPartial && m.tasks[i].mandatory, mine)];
      deps := AddDependencies(m, byId, i, deps);
      pairs := AddMutexes(m, byId, i, pairs);
      i := i + 1;
    }
    var rows := CollectSlots(m, options, slots);
    f := Formulation(options, decisions, rows, deps, pairs, horizon);
  }

  lemma OlderDecisionsStay(m: Model, opts: Options, before: seq<DiscreteOption>, after: seq<DiscreteOption>,
                           decisions: seq<Decision>, mine: seq<nat>)
    requires Extends(before, after, |decisions|) && |decisions| < |m.tasks|
    requires DecisionsExact(m, opts, before, decisions) && Lists(after, mine, OfTask(|decisions|))
    ensures DecisionsExact(m, opts, after, decisions)
  {
    forall i | 0 <= i < |decisions| ensures Lists(after, decisions[i].options, OfTask(i)) {
      var list := decisions[i].options;
      assert Lists(before, list, OfTask(i));
      forall k ensures k in list <==> 0 <= k < |after| && OfTask(i)(after[k]) {
        assert k in list <==> 0 <= k < |before| && OfTask(i)(before[k]);
      }
    }
  }
}
