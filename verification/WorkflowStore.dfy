/** The durable store: one record per workflow, three history tables keyed by workflow and number,
    and the idempotency table. */
module WorkflowStore {
  import opened Basics
  import opened Protocol
  import opened HistoryLog

  datatype Record = Record(state: Lifecycle, createdAt: int, updatedAt: int, plans: nat, events: nat, audits: nat,
                           lastError: string, config: Config, latest: Option<Response>)

  datatype Audit = Audit(actor: string, action: string, detail: string)

  datatype Idempotency = Idempotency(workflow: WorkflowId, fingerprint: string, recordedAt: int, boot: string,
                                     response: Response)

  type Table<T> = map<WorkflowId, Rows<T>>

  datatype Store = Store(boot: string,
                         records: map<WorkflowId, Record>,
                         events: Table<Event>,
                         plans: Table<Response>,
                         audits: Table<Audit>,
                         idempotency: map<string, Idempotency>)

  function EmptyStore(boot: string): Store {
    Store(boot, map[], map[], map[], map[], map[])
  }

  function Of<T>(table: Table<T>, w: WorkflowId): Rows<T> {
    if w in table then table[w] else map[]
  }

  /** Insert or replace the row with this key. */
  function Put<T>(table: Table<T>, w: WorkflowId, k: nat, row: Row<T>): Table<T> {
    table[w := Of(table, w)[k := row]]
  }

  function EventCount(s: Store, w: WorkflowId): nat { if w in s.records then s.records[w].events else 0 }
  function PlanCount(s: Store, w: WorkflowId): nat { if w in s.records then s.records[w].plans else 0 }
  function AuditCount(s: Store, w: WorkflowId): nat { if w in s.records then s.records[w].audits else 0 }

  // ----- What the service writes -----

  function Touch(s: Store, w: WorkflowId, r: Record): Store {
    s.(records := s.records[w := r])
  }

  /** An audit row under the record's new audit number, then the record. */
  function WriteAudit(s: Store, w: WorkflowId, r: Record, at: int, audit: Audit): Store {
    Touch(s.(audits := Put(s.audits, w, r.audits, Row(at, s.boot, audit))), w, r)
  }

  /** An event row under the record's new event number, with it a plan row for a fully ok response and
      an idempotency row for any response to a request with a key, then the record. */
  function WriteEvent(s: Store, w: WorkflowId, r: Record, at: int, e: Event, key: string, fingerprint: string): Store {
    Touch(s.(events := Put(s.events, w, r.events, Row(at, s.boot, e)),
             plans := if FullyOk(e) then Put(s.plans, w, r.plans, Row(at, s.boot, e.response.value)) else s.plans,
             idempotency := if e.response.Some? && key != ""
                            then s.idempotency[key := Idempotency(w, fingerprint, at, s.boot, e.response.value)]
                            else s.idempotency), w, r)
  }

  /** Rows of workflows with no record stay. */
  function PruneTable<T>(table: Table<T>, records: map<WorkflowId, Record>, count: Record -> nat, boot: string, before: int)
    : (r: Table<T>)
    ensures forall w :: w in records ==> Of(r, w) == PruneRows(Of(table, w), count(records[w]), boot, before)
    ensures forall w :: w !in records ==> Of(r, w) == Of(table, w)
  {
    map w | w in table :: if w in records then PruneRows(table[w], count(records[w]), boot, before) else table[w]
  }

  function Prune(s: Store, before: int): Store {
    s.(events := PruneTable(s.events, s.records, (r: Record) => r.events, s.boot, before),
       plans := PruneTable(s.plans, s.records, (r: Record) => r.plans, s.boot, before),
       audits := PruneTable(s.audits, s.records, (r: Record) => r.audits, s.boot, before),
       idempotency := map k | k in s.idempotency
                              && !(s.idempotency[k].boot != s.boot && s.idempotency[k].recordedAt < before)
                        :: s.idempotency[k])
  }

  // ----- What the writes keep -----

  /** The newest row of each history is there, under the number that the record counts to. */
  ghost predicate HeadsKeptFor(s: Store, w: WorkflowId) {
    && HeadKept(Of(s.events, w), EventCount(s, w))
    && HeadKept(Of(s.plans, w), PlanCount(s, w))
    && HeadKept(Of(s.audits, w), AuditCount(s, w))
  }

  /** Each history is exactly `1..counter`. */
  ghost predicate CompleteFor(s: Store, w: WorkflowId) {
    && Gapless(Of(s.events, w), EventCount(s, w))
    && Gapless(Of(s.plans, w), PlanCount(s, w))
    && Gapless(Of(s.audits, w), AuditCount(s, w))
  }

  /** One history: a stretch that ends at the counter, in chronological order. */
  ghost predicate Stretch<T>(rows: Rows<T>, count: nat, boot: string, clock: int) {
    IsSuffix(rows, count) && Chronological(rows, boot, clock)
  }

  /** Each history is a stretch that ends at the counter, in chronological order. */
  ghost predicate ContiguousFor(s: Store, w: WorkflowId, clock: int) {
    && Stretch(Of(s.events, w), EventCount(s, w), s.boot, clock)
    && Stretch(Of(s.plans, w), PlanCount(s, w), s.boot, clock)
    && Stretch(Of(s.audits, w), AuditCount(s, w), s.boot, clock)
  }

  /** Each history is a stretch that ends at the counter. */
  ghost predicate SuffixFor(s: Store, w: WorkflowId) {
    && IsSuffix(Of(s.events, w), EventCount(s, w))
    && IsSuffix(Of(s.plans, w), PlanCount(s, w))
    && IsSuffix(Of(s.audits, w), AuditCount(s, w))
  }

  ghost predicate OldestFirstFor(s: Store, w: WorkflowId) {
    && OldestFirst(Of(s.events, w), EventCount(s, w), s.boot)
    && OldestFirst(Of(s.plans, w), PlanCount(s, w), s.boot)
    && OldestFirst(Of(s.audits, w), AuditCount(s, w), s.boot)
  }

  /** The responses of the fully ok events up to number `n`, in order, as plan rows. */
  function OkResponses(rows: Rows<Event>, n: nat): (r: seq<Row<Response>>) {
    if n == 0 then []
    else if n in rows && FullyOk(rows[n].payload)
    then OkResponses(rows, n - 1) + [Row(rows[n].recordedAt, rows[n].boot, rows[n].payload.response.value)]
    else OkResponses(rows, n - 1)
  }

  ghost predicate PlansMatch(events: Rows<Event>, count: nat, plans: Rows<Response>, versions: nat) {
    var ok := OkResponses(events, count);
    && |ok| == versions
    && forall i :: 1 <= i <= versions ==> i in plans && plans[i] == ok[i - 1]
  }

  /** Plan version `i` is the `i`-th fully ok response in the event history. */
  ghost predicate PlansAreOkResponsesFor(s: Store, w: WorkflowId) {
    PlansMatch(Of(s.events, w), EventCount(s, w), Of(s.plans, w), PlanCount(s, w))
  }

  /** All that the histories of `w` promise between prunes. */
  ghost predicate ExactFor(s: Store, w: WorkflowId) {
    HeadsKeptFor(s, w) && CompleteFor(s, w) && PlansAreOkResponsesFor(s, w)
  }

  ghost predicate RowsStay<T(!new)>(before: Rows<T>, after: Rows<T>) {
    forall k :: k in before ==> k in after && after[k] == before[k]
  }

  /** Nothing written for `v` is changed or lost. */
  ghost predicate HistoryStaysFor(s: Store, v: WorkflowId, next: Store) {
    && RowsStay(Of(s.events, v), Of(next.events, v))
    && RowsStay(Of(s.plans, v), Of(next.plans, v))
    && RowsStay(Of(s.audits, v), Of(next.audits, v))
  }

  /** The record `r` counts one more event (and plan, or audit) than what is stored. */
  predicate SameCounts(s: Store, w: WorkflowId, r: Record) {
    r.events == EventCount(s, w) && r.plans == PlanCount(s, w) && r.audits == AuditCount(s, w)
  }

  predicate CountsAudit(s: Store, w: WorkflowId, r: Record) {
    r.events == EventCount(s, w) && r.plans == PlanCount(s, w) && r.audits == AuditCount(s, w) + 1
  }

  predicate CountsEvent(s: Store, w: WorkflowId, r: Record, e: Event) {
    && r.events == EventCount(s, w) + 1
    && r.plans == PlanCount(s, w) + (if FullyOk(e) then 1 else 0)
    && r.audits == AuditCount(s, w)
  }

  // ----- One workflow at a time -----

  /** Nothing about `v` changed. */
  ghost predicate SameFor(s: Store, v: WorkflowId, next: Store) {
    && Of(next.events, v) == Of(s.events, v) && EventCount(next, v) == EventCount(s, v)
    && Of(next.plans, v) == Of(s.plans, v) && PlanCount(next, v) == PlanCount(s, v)
    && Of(next.audits, v) == Of(s.audits, v) && AuditCount(next, v) == AuditCount(s, v)
    && next.boot == s.boot
  }

  /** One audit row was appended for `w`. */
  ghost predicate AppendsAudit(s: Store, w: WorkflowId, at: int, audit: Audit, next: Store) {
    && Of(next.events, w) == Of(s.events, w) && EventCount(next, w) == EventCount(s, w)
    && Of(next.plans, w) == Of(s.plans, w) && PlanCount(next, w) == PlanCount(s, w)
    && Of(next.audits, w) == Append(Of(s.audits, w), AuditCount(s, w), Row(at, s.boot, audit))
    && AuditCount(next, w) == AuditCount(s, w) + 1
    && next.boot == s.boot
  }

  /** One event row, and a plan row if the event calls for it, was appended for `w`. */
  ghost predicate AppendsEvent(s: Store, w: WorkflowId, at: int, e: Event, next: Store) {
    && Of(next.events, w) == Append(Of(s.events, w), EventCount(s, w), Row(at, s.boot, e))
    && EventCount(next, w) == EventCount(s, w) + 1
    && Of(next.plans, w) == (if FullyOk(e)
                             then Append(Of(s.plans, w), PlanCount(s, w), Row(at, s.boot, e.response.value))
                             else Of(s.plans, w))
    && PlanCount(next, w) == PlanCount(s, w) + (if FullyOk(e) then 1 else 0)
    && Of(next.audits, w) == Of(s.audits, w) && AuditCount(next, w) == AuditCount(s, w)
    && next.boot == s.boot
  }

  /** `next` is `s` with nothing, an audit, or an event appended for `v` at time `at`. */
  ghost predicate Extends(s: Store, v: WorkflowId, at: int, next: Store) {
    || SameFor(s, v, next)
    || (exists audit :: AppendsAudit(s, v, at, audit, next))
    || (exists e :: AppendsEvent(s, v, at, e, next))
  }

  lemma AuditKeepsHeads(s: Store, v: WorkflowId, at: int, audit: Audit, next: Store)
    requires HeadsKeptFor(s, v) && AppendsAudit(s, v, at, audit, next)
    ensures HeadsKeptFor(next, v) && HistoryStaysFor(s, v, next)
    ensures CompleteFor(s, v) ==> CompleteFor(next, v)
    ensures SuffixFor(s, v) ==> SuffixFor(next, v)
  {
    AppendKeeps(Of(s.audits, v), AuditCount(s, v), Row(at, s.boot, audit));
  }

  lemma EventKeepsHeads(s: Store, v: WorkflowId, at: int, e: Event, next: Store)
    requires HeadsKeptFor(s, v) && AppendsEvent(s, v, at, e, next)
    ensures HeadsKeptFor(next, v) && HistoryStaysFor(s, v, next)
    ensures CompleteFor(s, v) ==> CompleteFor(next, v)
    ensures SuffixFor(s, v) ==> SuffixFor(next, v)
  {
    AppendKeeps(Of(s.events, v), EventCount(s, v), Row(at, s.boot, e));
    if FullyOk(e) {
      AppendKeeps(Of(s.plans, v), PlanCount(s, v), Row(at, s.boot, e.response.value));
    }
  }

  lemma ExtendsKeepsHeads(s: Store, v: WorkflowId, at: int, next: Store)
    requires HeadsKeptFor(s, v) && Extends(s, v, at, next)
    ensures HeadsKeptFor(next, v) && HistoryStaysFor(s, v, next)
    ensures CompleteFor(s, v) ==> CompleteFor(next, v)
    ensures SuffixFor(s, v) ==> SuffixFor(next, v)
  {
    if audit :| AppendsAudit(s, v, at, audit, next) {
      AuditKeepsHeads(s, v, at, audit, next);
    } else if e :| AppendsEvent(s, v, at, e, next) {
      EventKeepsHeads(s, v, at, e, next);
    }
  }

  lemma StretchLater<T>(rows: Rows<T>, count: nat, boot: string, clock: int, at: int)
    requires Stretch(rows, count, boot, clock) && clock <= at
    ensures Stretch(rows, count, boot, at)
  {
  }

  lemma StretchAppend<T>(rows: Rows<T>, count: nat, row: Row<T>, clock: int)
    requires Stretch(rows, count, row.boot, clock) && clock <= row.recordedAt
    ensures Stretch(Append(rows, count, row), count + 1, row.boot, row.recordedAt)
  {
    AppendKeeps(rows, count, row);
    AppendChronological(rows, count, row, clock);
  }

  lemma StretchPrune<T>(rows: Rows<T>, count: nat, boot: string, before: int, clock: int)
    requires Stretch(rows, count, boot, clock)
    ensures Stretch(PruneRows(rows, count, boot, before), count, boot, clock)
  {
    PruneSuffix(rows, count, boot, before, clock);
  }

  lemma LaterContiguous(s: Store, v: WorkflowId, clock: int, at: int)
    requires ContiguousFor(s, v, clock) && clock <= at
    ensures ContiguousFor(s, v, at)
  {
    StretchLater(Of(s.events, v), EventCount(s, v), s.boot, clock, at);
    StretchLater(Of(s.plans, v), PlanCount(s, v), s.boot, clock, at);
    StretchLater(Of(s.audits, v), AuditCount(s, v), s.boot, clock, at);
  }

  lemma AuditContiguous(s: Store, v: WorkflowId, at: int, audit: Audit, next: Store)
    requires ContiguousFor(s, v, at) && AppendsAudit(s, v, at, audit, next)
    ensures ContiguousFor(next, v, at)
  {
    StretchAppend(Of(s.audits, v), AuditCount(s, v), Row(at, s.boot, audit), at);
  }

  lemma EventContiguous(s: Store, v: WorkflowId, at: int, e: Event, next: Store)
    requires ContiguousFor(s, v, at) && AppendsEvent(s, v, at, e, next)
    ensures ContiguousFor(next, v, at)
  {
    StretchAppend(Of(s.events, v), EventCount(s, v), Row(at, s.boot, e), at);
    if FullyOk(e) {
      StretchAppend(Of(s.plans, v), PlanCount(s, v), Row(at, s.boot, e.response.value), at);
    }
  }

  lemma ExtendsContiguous(s: Store, v: WorkflowId, at: int, next: Store, clock: int)
    requires ContiguousFor(s, v, clock) && clock <= at && Extends(s, v, at, next)
    ensures ContiguousFor(next, v, at)
  {
    LaterContiguous(s, v, clock, at);
    if audit :| AppendsAudit(s, v, at, audit, next) {
      AuditContiguous(s, v, at, audit, next);
    } else if e :| AppendsEvent(s, v, at, e, next) {
      EventContiguous(s, v, at, e, next);
    }
  }

  lemma {:induction false} OkResponsesLocal(rows: Rows<Event>, more: Rows<Event>, n: nat)
    requires forall k :: 1 <= k <= n ==> (k in rows <==> k in more) && (k in rows ==> rows[k] == more[k])
    ensures OkResponses(rows, n) == OkResponses(more, n)
  {
    if n > 0 {
      OkResponsesLocal(rows, more, n - 1);
    }
  }

  lemma AppendsPlan(events: Rows<Event>, count: nat, plans: Rows<Response>, versions: nat, at: int, boot: string, e: Event)
    requires HeadKept(plans, versions) && PlansMatch(events, count, plans, versions)
    ensures !FullyOk(e) ==> PlansMatch(Append(events, count, Row(at, boot, e)), count + 1, plans, versions)
    ensures FullyOk(e) ==>
              PlansMatch(Append(events, count, Row(at, boot, e)), count + 1,
                         Append(plans, versions, Row(at, boot, e.response.value)), versions + 1)
  {
    var more := Append(events, count, Row(at, boot, e));
    OkResponsesLocal(events, more, count);
    assert count + 1 in more && more[count + 1] == Row(at, boot, e);
    assert OkResponses(more, count + 1) == OkResponses(events, count)
                                           + (if FullyOk(e) then [Row(at, boot, e.response.value)] else []);
  }

  lemma ExtendsPlans(s: Store, v: WorkflowId, at: int, next: Store)
    requires HeadsKeptFor(s, v) && PlansAreOkResponsesFor(s, v) && Extends(s, v, at, next)
    ensures PlansAreOkResponsesFor(next, v)
  {
    if e :| AppendsEvent(s, v, at, e, next) {
      AppendsPlan(Of(s.events, v), EventCount(s, v), Of(s.plans, v), PlanCount(s, v), at, s.boot, e);
    } else {
      assert Of(s.events, v) == Of(next.events, v) && Of(s.plans, v) == Of(next.plans, v);
    }
  }

  /** What any number of appends for `w` at time `at` keeps. */
  ghost predicate Progress(s: Store, w: WorkflowId, at: int, next: Store) {
    && HeadsKeptFor(next, w) && HistoryStaysFor(s, w, next)
    && (ExactFor(s, w) ==> ExactFor(next, w))
    && (SuffixFor(s, w) ==> SuffixFor(next, w))
    && (forall clock :: clock <= at && ContiguousFor(s, w, clock) ==> ContiguousFor(next, w, at))
  }

  /** Appending under new numbers overwrites nothing and keeps every promise on the histories of `w`. */
  lemma GrowthKeeps(s: Store, w: WorkflowId, at: int, next: Store)
    requires HeadsKeptFor(s, w) && Extends(s, w, at, next)
    ensures Progress(s, w, at, next)
  {
    ExtendsKeepsHeads(s, w, at, next);
    if PlansAreOkResponsesFor(s, w) { ExtendsPlans(s, w, at, next); }
    forall clock | clock <= at && ContiguousFor(s, w, clock) ensures ContiguousFor(next, w, at) {
      ExtendsContiguous(s, w, at, next, clock);
    }
  }

  lemma RowsStayTransitive<T(!new)>(a: Rows<T>, b: Rows<T>, c: Rows<T>)
    requires RowsStay(a, b) && RowsStay(b, c)
    ensures RowsStay(a, c)
  {
  }

  lemma HistoryStaysTransitive(a: Store, w: WorkflowId, b: Store, c: Store)
    requires HistoryStaysFor(a, w, b) && HistoryStaysFor(b, w, c)
    ensures HistoryStaysFor(a, w, c)
  {
    RowsStayTransitive(Of(a.events, w), Of(b.events, w), Of(c.events, w));
    RowsStayTransitive(Of(a.plans, w), Of(b.plans, w), Of(c.plans, w));
    RowsStayTransitive(Of(a.audits, w), Of(b.audits, w), Of(c.audits, w));
  }

  lemma ProgressTransitive(a: Store, w: WorkflowId, at: int, b: Store, c: Store)
    requires Progress(a, w, at, b) && Progress(b, w, at, c)
    ensures Progress(a, w, at, c)
  {
    HistoryStaysTransitive(a, w, b, c);
    forall clock | clock <= at && ContiguousFor(a, w, clock) ensures ContiguousFor(c, w, at) {
      assert ContiguousFor(b, w, at);
    }
  }

  lemma AuditGrows(s: Store, w: WorkflowId, r: Record, at: int, audit: Audit, next: Store)
    requires HeadsKeptFor(s, w) && CountsAudit(s, w, r) && next == WriteAudit(s, w, r, at, audit)
    ensures AppendsAudit(s, w, at, audit, next) && Progress(s, w, at, next)
  {
    assert AppendsAudit(s, w, at, audit, next);
    GrowthKeeps(s, w, at, next);
  }

  lemma EventGrows(s: Store, w: WorkflowId, r: Record, at: int, e: Event, key: string, fp: string, next: Store)
    requires HeadsKeptFor(s, w) && CountsEvent(s, w, r, e) && next == WriteEvent(s, w, r, at, e, key, fp)
    ensures AppendsEvent(s, w, at, e, next) && Progress(s, w, at, next)
  {
    assert AppendsEvent(s, w, at, e, next);
    GrowthKeeps(s, w, at, next);
  }

  lemma PruneKeeps(s: Store, w: WorkflowId, before: int)
    requires HeadsKeptFor(s, w)
    ensures HeadsKeptFor(Prune(s, before), w)
  {
    HistoryLog.PruneKeeps(Of(s.events, w), EventCount(s, w), s.boot, before);
    HistoryLog.PruneKeeps(Of(s.plans, w), PlanCount(s, w), s.boot, before);
    HistoryLog.PruneKeeps(Of(s.audits, w), AuditCount(s, w), s.boot, before);
  }

  /** `after` is `table` without the rows of other boots that were recorded before `before`, except the newest
      row of each history and every row of a workflow without a record. */
  ghost predicate WithoutOldRows<T(!new)>(table: Table<T>, records: map<WorkflowId, Record>, count: Record -> nat, boot: string,
                                          before: int, after: Table<T>) {
    && (forall w, k :: k in Of(after, w) <==>
          k in Of(table, w) && !(var row := Of(table, w)[k];
                                 row.boot != boot && row.recordedAt < before && w in records && k < count(records[w])))
    && (forall w, k :: k in Of(after, w) ==> Of(after, w)[k] == Of(table, w)[k])
  }

  lemma PruneTableInFields<T(!new)>(table: Table<T>, records: map<WorkflowId, Record>, count: Record -> nat, boot: string,
                                    before: int)
    ensures WithoutOldRows(table, records, count, boot, before, PruneTable(table, records, count, boot, before))
  {
  }

  /** A prune deletes exactly those rows, and the rows of old keys. */
  lemma PruneInFields(s: Store, before: int, next: Store)
    requires next == Prune(s, before)
    ensures next.records == s.records && next.boot == s.boot
    ensures WithoutOldRows(s.events, s.records, (r: Record) => r.events, s.boot, before, next.events)
    ensures WithoutOldRows(s.plans, s.records, (r: Record) => r.plans, s.boot, before, next.plans)
    ensures WithoutOldRows(s.audits, s.records, (r: Record) => r.audits, s.boot, before, next.audits)
    ensures forall key :: key in next.idempotency <==>
              key in s.idempotency && !(s.idempotency[key].boot != s.boot && s.idempotency[key].recordedAt < before)
    ensures forall key :: key in next.idempotency ==> next.idempotency[key] == s.idempotency[key]
  {
    PruneTableInFields(s.events, s.records, (r: Record) => r.events, s.boot, before);
    PruneTableInFields(s.plans, s.records, (r: Record) => r.plans, s.boot, before);
    PruneTableInFields(s.audits, s.records, (r: Record) => r.audits, s.boot, before);
  }

  lemma PruneKeepsAll(s: Store, before: int, next: Store)
    requires next == Prune(s, before)
    ensures forall w :: HeadsKeptFor(s, w) ==> HeadsKeptFor(next, w)
  {
    forall w | HeadsKeptFor(s, w) ensures HeadsKeptFor(next, w) {
      PruneKeeps(s, w, before);
    }
  }

  lemma PruneContiguous(s: Store, w: WorkflowId, before: int, clock: int)
    requires ContiguousFor(s, w, clock)
    ensures ContiguousFor(Prune(s, before), w, clock)
  {
    StretchPrune(Of(s.events, w), EventCount(s, w), s.boot, before, clock);
    StretchPrune(Of(s.plans, w), PlanCount(s, w), s.boot, before, clock);
    StretchPrune(Of(s.audits, w), AuditCount(s, w), s.boot, before, clock);
  }

  /** Exactly when no prune can open a gap in a history of `w`: when in each of them old rows come
      first. */
  lemma PruneSuffixForIff(s: Store, w: WorkflowId)
    requires SuffixFor(s, w)
    ensures (forall before :: SuffixFor(Prune(s, before), w)) <==> OldestFirstFor(s, w)
  {
    PruneSuffixIff(Of(s.events, w), EventCount(s, w), s.boot);
    PruneSuffixIff(Of(s.plans, w), PlanCount(s, w), s.boot);
    PruneSuffixIff(Of(s.audits, w), AuditCount(s, w), s.boot);
    PrunesForEach(s, w);
    if forall before :: PrunedFor(s, w, before) {
      forall before ensures SuffixFor(Prune(s, before), w) {
        PruneForRows(s, w, before);
        assert PrunedFor(s, w, before);
      }
    } else {
      var before :| !PrunedFor(s, w, before);
      PruneForRows(s, w, before);
    }
  }

  lemma PrunesForEach(s: Store, w: WorkflowId)
    ensures (forall before :: PrunedFor(s, w, before)) <==>
            && PrunesToSuffix(Of(s.events, w), EventCount(s, w), s.boot)
            && PrunesToSuffix(Of(s.plans, w), PlanCount(s, w), s.boot)
            && PrunesToSuffix(Of(s.audits, w), AuditCount(s, w), s.boot)
  {
    if forall before :: PrunedFor(s, w, before) {
      forall before ensures IsSuffix(PruneRows(Of(s.events, w), EventCount(s, w), s.boot, before), EventCount(s, w)) {
        assert PrunedFor(s, w, before);
      }
      forall before ensures IsSuffix(PruneRows(Of(s.plans, w), PlanCount(s, w), s.boot, before), PlanCount(s, w)) {
        assert PrunedFor(s, w, before);
      }
      forall before ensures IsSuffix(PruneRows(Of(s.audits, w), AuditCount(s, w), s.boot, before), AuditCount(s, w)) {
        assert PrunedFor(s, w, before);
      }
    }
  }

  ghost predicate PrunedFor(s: Store, w: WorkflowId, before: int) {
    && IsSuffix(PruneRows(Of(s.events, w), EventCount(s, w), s.boot, before), EventCount(s, w))
    && IsSuffix(PruneRows(Of(s.plans, w), PlanCount(s, w), s.boot, before), PlanCount(s, w))
    && IsSuffix(PruneRows(Of(s.audits, w), AuditCount(s, w), s.boot, before), AuditCount(s, w))
  }

  /** A prune acts on each history of a workflow by itself. */
  lemma PruneForRows(s: Store, w: WorkflowId, before: int)
    requires SuffixFor(s, w)
    ensures SuffixFor(Prune(s, before), w) <==> PrunedFor(s, w, before)
  {
  }
}
