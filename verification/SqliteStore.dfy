/** The store object: every write replaces one row, a prune deletes rows, reads list them in order. */
module SqliteStore {
  import opened Protocol
  import opened HistoryLog
  import opened WorkflowStore

  /** `r` lists, in increasing order, the `limit` highest numbers (all when 0). */
  ghost predicate IsListing(numbers: set<nat>, limit: nat, r: seq<nat>) {
    && |r| == (if limit == 0 || |numbers| <= limit then |numbers| else limit)
    && (forall k :: k in r ==> k in numbers)
    && (forall i, j :: 0 <= i < j < |r| ==> r[i] < r[j])
    && (forall k, i :: k in numbers && 0 <= i < |r| && r[i] <= k ==> k in r)
  }

  method HighestNumber(numbers: set<nat>) returns (top: nat)
    requires numbers != {}
    ensures top in numbers && forall k :: k in numbers ==> k <= top
  {
    var left := numbers;
    top :| top in left;
    left := left - {top};
    while left != {}
      invariant top in numbers && left <= numbers
      invariant forall k :: k in numbers && k !in left ==> k <= top
    {
      var k :| k in left;
      left := left - {k};
      if k > top { top := k; }
    }
  }

  /** The tail of a listing: the numbers above every one that is left. */
  ghost predicate Taken(numbers: set<nat>, left: set<nat>, r: seq<nat>) {
    && |r| + |left| == |numbers|
    && (forall k :: k in numbers <==> k in left || k in r)
    && (forall i, j :: 0 <= i < j < |r| ==> r[i] < r[j])
    && (forall k, i :: k in left && 0 <= i < |r| ==> k < r[i])
  }

  method ListNumbers(numbers: set<nat>, limit: nat) returns (r: seq<nat>)
    ensures IsListing(numbers, limit, r)
  {
    r := [];
    var left := numbers;
    while left != {} && (limit == 0 || |r| < limit)
      invariant Taken(numbers, left, r)
      invariant limit == 0 || |r| <= limit
      decreases |left|
    {
      var top := HighestNumber(left);
      r, left := [top] + r, left - {top};
    }
  }

  /** Read from a contiguous history, a listing is the last numbers up to the counter. */
  lemma {:induction false} ListingOfSuffix<T>(rows: Rows<T>, count: nat, limit: nat, r: seq<nat>, i: nat)
    requires IsSuffix(rows, count) && IsListing(rows.Keys, limit, r) && i < |r|
    ensures r[i] == count + 1 - |r| + i
    decreases |r| - i
  {
    var k := r[i];
    assert k in rows;
    if i == |r| - 1 {
      assert count in rows.Keys;
      var j :| 0 <= j < |r| && r[j] == count;
    } else {
      ListingOfSuffix(rows, count, limit, r, i + 1);
      assert r[i + 1] in rows;
      assert k + 1 in rows.Keys;
      var j :| 0 <= j < |r| && r[j] == k + 1;
    }
  }

  class SqliteWorkflowStore {
    const boot: string
    var records: map<WorkflowId, Record>
    var events: Table<Event>
    var plans: Table<Response>
    var audits: Table<Audit>
    var idempotency: map<string, Idempotency>

    function View(): Store
      reads this
    {
      Store(boot, records, events, plans, audits, idempotency)
    }

    constructor (boot: string)
      ensures View() == EmptyStore(boot)
    {
      this.boot := boot;
      records, events, plans, audits, idempotency := map[], map[], map[], map[], map[];
    }

    method UpsertWorkflow(w: WorkflowId, r: Record)
      modifies this
      ensures View() == Touch(old(View()), w, r)
    {
      records := records[w := r];
    }

    method InsertEvent(w: WorkflowId, sequence: nat, at: int, e: Event)
      modifies this
      ensures View() == old(View()).(events := Put(old(events), w, sequence, Row(at, boot, e)))
    {
      events := events[w := Of(events, w)[sequence := Row(at, boot, e)]];
    }

    method InsertPlanVersion(w: WorkflowId, version: nat, at: int, response: Response)
      modifies this
      ensures View() == old(View()).(plans := Put(old(plans), w, version, Row(at, boot, response)))
    {
      plans := plans[w := Of(plans, w)[version := Row(at, boot, response)]];
    }

    method InsertAuditEntry(w: WorkflowId, sequence: nat, at: int, audit: Audit)
      modifies this
      ensures View() == old(View()).(audits := Put(old(audits), w, sequence, Row(at, boot, audit)))
    {
      audits := audits[w := Of(audits, w)[sequence := Row(at, boot, audit)]];
    }

    method PutIdempotencyRecord(key: string, w: WorkflowId, fingerprint: string, at: int, response: Response)
      modifies this
      ensures View() == old(View()).(idempotency := old(idempotency)[key := Idempotency(w, fingerprint, at, boot, response)])
    {
      idempotency := idempotency[key := Idempotency(w, fingerprint, at, boot, response)];
    }

    /** Deletes stale rows table by table. */
    method PruneStaleBootData(before: int)
      modifies this
      ensures View() == Prune(old(View()), before)
      ensures forall w :: old(HeadsKeptFor(View(), w)) ==> HeadsKeptFor(View(), w)
    {
      ghost var was := View();
      events := PruneTable(events, records, (r: Record) => r.events, boot, before);
      plans := PruneTable(plans, records, (r: Record) => r.plans, boot, before);
      audits := PruneTable(audits, records, (r: Record) => r.audits, boot, before);
      idempotency := map k | k in idempotency && !(idempotency[k].boot != boot && idempotency[k].recordedAt < before)
                       :: idempotency[k];
      PruneKeepsAll(was, before, View());
    }

    /** The ids of all workflows. */
    method ListAllWorkflows() returns (ids: seq<WorkflowId>)
      ensures forall w :: w in ids <==> w in records
      ensures forall i, j :: 0 <= i < j < |ids| ==> ids[i] != ids[j]
    {
      ids := [];
      var left := records.Keys;
      while left != {}
        invariant left <= records.Keys
        invariant forall w :: w in records <==> w in ids || w in left
        invariant forall i :: 0 <= i < |ids| ==> ids[i] !in left
        invariant forall i, j :: 0 <= i < j < |ids| ==> ids[i] != ids[j]
      {
        var w :| w in left;
        ids, left := ids + [w], left - {w};
      }
    }

    /** The stored events with their numbers, oldest first. */
    method ListEvents(w: WorkflowId, limit: nat) returns (numbers: seq<nat>, rows: seq<Row<Event>>)
      ensures IsListing(Of(events, w).Keys, limit, numbers) && |rows| == |numbers|
      ensures forall i :: 0 <= i < |rows| ==> numbers[i] in Of(events, w) && rows[i] == Of(events, w)[numbers[i]]
      ensures IsSuffix(Of(events, w), EventCount(View(), w)) ==>
                forall i :: 0 <= i < |numbers| ==> numbers[i] == EventCount(View(), w) + 1 - |numbers| + i
    {
      var all := Of(events, w);
      numbers := ListNumbers(all.Keys, limit);
      assert forall i :: 0 <= i < |numbers| ==> numbers[i] in all;
      rows := seq(|numbers|, i requires 0 <= i < |numbers| => all[numbers[i]]);
      if IsSuffix(all, EventCount(View(), w)) {
        forall i: nat | i < |numbers| ensures numbers[i] == EventCount(View(), w) + 1 - |numbers| + i {
          ListingOfSuffix(all, EventCount(View(), w), limit, numbers, i);
        }
      }
    }
  }
}
