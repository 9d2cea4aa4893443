/** The lookup tables built once per model, and their agreement with a plain filter. Pointers to
    actors and tasks are modelled by their positions in the model. */
module ConstraintIndex {
  import opened Basics
  import opened OptimizerModel

  datatype Index = Index(
    tasksById: map<TaskId, nat>,
    actorsById: map<ActorId, nat>,
    actorsByKind: map<string, seq<nat>>,
    eligible: map<TaskId, seq<nat>>)

  /** The list names exactly the actors that pass the plain filter, each once unless the task
      itself repeats an allowed actor. */
  ghost predicate Matches(m: Model, t: Task, list: seq<nat>) {
    && (forall j :: j in list <==> 0 <= j < |m.actors| && Eligible(t, m.actors[j]))
    && (Distinct(t.allowedActors) ==> Distinct(list))
  }

  ghost predicate OfKind(m: Model, kind: string, list: seq<nat>) {
    forall j :: j in list ==> j < |m.actors| && m.actors[j].kind == kind
  }

  ghost predicate KindTable(m: Model, byKind: map<string, seq<nat>>) {
    && (forall k :: k in byKind ==> OfKind(m, k, byKind[k]))
    && (forall j :: 0 <= j < |m.actors| ==> m.actors[j].kind in byKind && j in byKind[m.actors[j].kind])
  }

  ghost predicate ActorTables(m: Model, byId: map<ActorId, nat>, byKind: map<string, seq<nat>>) {
    && (forall id :: id in byId ==> byId[id] < |m.actors| && m.actors[byId[id]].id == id)
    && (forall j :: 0 <= j < |m.actors| ==> m.actors[j].id in byId && byId[m.actors[j].id] == j)
    && KindTable(m, byKind)
  }

  ghost predicate TaskTable(m: Model, byId: map<TaskId, nat>) {
    && (forall id :: id in byId ==> byId[id] < |m.tasks| && m.tasks[byId[id]].id == id)
    && (forall i :: 0 <= i < |m.tasks| ==> m.tasks[i].id in byId && byId[m.tasks[i].id] == i)
  }

  ghost predicate Agrees(m: Model, index: Index) {
    && TaskTable(m, index.tasksById)
    && ActorTables(m, index.actorsById, index.actorsByKind)
    && (forall id :: id in index.eligible <==> id in Ids(m))
    && (forall t :: t in m.tasks ==> t.id in index.eligible && Matches(m, t, index.eligible[t.id]))
  }

  /** Position of an actor in the id order. */
  function IdKey(m: Model): nat -> Key {
    (j: nat) => if j < |m.actors| then [Text(m.actors[j].id)] else []
  }

  /** `std::ranges::unique`: keeps the first of every run of equal neighbours. */
  function Unique(s: seq<nat>): (r: seq<nat>)
    ensures forall j :: j in r <==> j in s
    ensures s != [] ==> r != [] && r[0] == s[0]
  {
    if |s| <= 1 then s
    else if s[0] == s[1] then Unique(s[1..])
    else [s[0]] + Unique(s[1..])
  }

  lemma {:induction false} UniqueOfSorted(m: Model, s: seq<nat>)
    requires UniqueIds(m)
    requires forall j :: j in s ==> j < |m.actors|
    requires SortedBy(IdKey(m), s)
    ensures Distinct(Unique(s))
  {
    if |s| > 1 {
      assert forall j :: j in s[1..] ==> j in s;
      UniqueOfSorted(m, s[1..]);
      if s[0] != s[1] {
        forall j | j in s[1..] ensures j != s[0] {
          var i :| 0 <= i < |s[1..]| && s[1..][i] == j;
          KeyTotal(IdKey(m)(s[0]), IdKey(m)(s[1]));
          assert s[0] in s && s[1] in s;
          assert IdKey(m)(s[0])[0] != IdKey(m)(s[1])[0];
          assert KeyLess(IdKey(m)(s[0]), IdKey(m)(s[1]));
          assert i == 0 || KeyLeq(IdKey(m)(s[1]), IdKey(m)(s[i + 1]));
        }
        assert s[0] !in Unique(s[1..]);
      }
    }
  }

  method EligibleByIds(m: Model, byId: map<ActorId, nat>, t: Task) returns (list: seq<nat>)
    requires forall id :: id in byId ==> byId[id] < |m.actors| && m.actors[byId[id]].id == id
    requires forall j :: 0 <= j < |m.actors| ==> m.actors[j].id in byId && byId[m.actors[j].id] == j
    requires t.allowedActors != []
    ensures Matches(m, t, list)
  {
    list := [];
    var i := 0;
    while i < |t.allowedActors|
      invariant 0 <= i <= |t.allowedActors|
      invariant forall j :: j in list <==>
        0 <= j < |m.actors| && m.actors[j].id in t.allowedActors[..i] &&
        (t.allowedKinds == [] || m.actors[j].kind in t.allowedKinds)
      invariant Distinct(t.allowedActors) ==> Distinct(list)
    {
      var id := t.allowedActors[i];
      assert t.allowedActors[..i + 1] == t.allowedActors[..i] + [id];
      if id in byId && (t.allowedKinds == [] || m.actors[byId[id]].kind in t.allowedKinds) {
        if Distinct(t.allowedActors) {
          assert byId[id] !in list;
          DistinctAppend(list, byId[id]);
        }
        list := list + [byId[id]];
      }
      i := i + 1;
    }
    assert t.allowedActors[..i] == t.allowedActors;
  }

  method EligibleByKinds(m: Model, byKind: map<string, seq<nat>>, t: Task) returns (list: seq<nat>)
    requires UniqueIds(m)
    requires KindTable(m, byKind)
    requires t.allowedActors == [] && t.allowedKinds != []
    ensures Matches(m, t, list)
  {
    var all: seq<nat> := [];
    var i := 0;
    while i < |t.allowedKinds|
      invariant 0 <= i <= |t.allowedKinds|
      invariant forall j :: j in all <==> 0 <= j < |m.actors| && m.actors[j].kind in t.allowedKinds[..i]
    {
      var kind := t.allowedKinds[i];
      assert t.allowedKinds[..i + 1] == t.allowedKinds[..i] + [kind];
      if kind in byKind {
        all := all + byKind[kind];
      }
      i := i + 1;
    }
    assert t.allowedKinds[..i] == t.allowedKinds;
    var sorted := Sort(IdKey(m), all);
    SortSorted(IdKey(m), all);
    PermutationMembers(sorted, all);
    list := Unique(sorted);
    UniqueOfSorted(m, sorted);
  }

  method EligibleActors(m: Model, byId: map<ActorId, nat>, byKind: map<string, seq<nat>>, t: Task)
    returns (list: seq<nat>)
    requires UniqueIds(m) && ActorTables(m, byId, byKind)
    ensures Matches(m, t, list)
  {
    if t.allowedActors != [] {
      list := EligibleByIds(m, byId, t);
    } else if t.allowedKinds != [] {
      list := EligibleByKinds(m, byKind, t);
    } else {
      list := seq(|m.actors|, (j: nat) => j);
      forall j | 0 <= j < |m.actors| ensures j in list {
        assert list[j] == j;
      }
    }
  }

  method BuildTaskTable(m: Model) returns (byId: map<TaskId, nat>)
    requires UniqueIds(m)
    ensures TaskTable(m, byId)
  {
    byId := map[];
    var i := 0;
    while i < |m.tasks|
      invariant 0 <= i <= |m.tasks|
      invariant forall id :: id in byId ==> byId[id] < i && m.tasks[byId[id]].id == id
      invariant forall k :: 0 <= k < i ==> m.tasks[k].id in byId && byId[m.tasks[k].id] == k
    {
      byId := byId[m.tasks[i].id := i];
      i := i + 1;
    }
  }

  lemma KindTableStep(m: Model, i: nat, byKind: map<string, seq<nat>>, sameKind: seq<nat>)
    requires i < |m.actors| && KindTable(Model(m.actors[..i], m.tasks), byKind)
    requires var kind := m.actors[i].kind;
             sameKind == (if kind in byKind then byKind[kind] else []) + [i]
    ensures KindTable(Model(m.actors[..i + 1], m.tasks), byKind[m.actors[i].kind := sameKind])
  {
    var before, after := Model(m.actors[..i], m.tasks), Model(m.actors[..i + 1], m.tasks);
    var next := byKind[m.actors[i].kind := sameKind];
    assert forall j :: 0 <= j < i ==> after.actors[j] == before.actors[j];
    forall kind | kind in next ensures OfKind(after, kind, next[kind]) {
      if kind in byKind { assert OfKind(before, kind, byKind[kind]); }
    }
  }

  method BuildActorTables(m: Model) returns (byId: map<ActorId, nat>, byKind: map<string, seq<nat>>)
    requires UniqueIds(m)
    ensures ActorTables(m, byId, byKind)
  {
    byId, byKind := map[], map[];
    var i := 0;
    while i < |m.actors|
      invariant 0 <= i <= |m.actors|
      invariant ActorTables(Model(m.actors[..i], m.tasks), byId, byKind)
    {
      var a := m.actors[i];
      byId := byId[a.id := i];
      var sameKind := (if a.kind in byKind then byKind[a.kind] else []) + [i];
      KindTableStep(m, i, byKind, sameKind);
      byKind := byKind[a.kind := sameKind];
      i := i + 1;
    }
    assert m.actors[..i] == m.actors;
  }

  method BuildIndex(m: Model) returns (index: Index)
    requires UniqueIds(m)
    ensures Agrees(m, index)
  {
    var tasksById := BuildTaskTable(m);
    var byId, byKind := BuildActorTables(m);
    var eligible: map<TaskId, seq<nat>> := map[];
    var i := 0;
    while i < |m.tasks|
      invariant 0 <= i <= |m.tasks|
      invariant forall id :: id in eligible ==> id in Ids(m)
      invariant forall k :: 0 <= k < i ==> m.tasks[k].id in eligible && Matches(m, m.tasks[k], eligible[m.tasks[k].id])
    {
      var list := EligibleActors(m, byId, byKind, m.tasks[i]);
      eligible := eligible[m.tasks[i].id := list];
      i := i + 1;
    }
    index := Index(tasksById, byId, byKind, eligible);
  }
}
