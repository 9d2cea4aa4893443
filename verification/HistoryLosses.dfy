/** How histories are lost, each with the exact condition and the shortest run: calls under an open stream,
    a second stream, resubmission without the flag, and prunes after the clock went back. */
module HistoryLosses {
  import opened Basics
  import opened Protocol
  import opened HistoryLog
  import opened WorkflowStore
  import opened RuntimeService
  import opened ControlPlane
  import opened ControlPlaneHistory

  /** The state after the first event of an accepted submission to a new store. */
  lemma FirstSubmission(engine: Engine, boot: string, retained: nat, req: SubmitRequest, at: int, first: Service)
    requires engine.authorize(req.auth).None? && req.key == ""
    requires first == Step(engine, Fresh(EmptyStore(boot), retained), Submitting(req, at, at))
    ensures Sound(first, req.config.id) && ExactFor(first.store, req.config.id) && first.store.boot == boot
    ensures var w := req.config.id;
            && w in first.store.records && EventCount(first.store, w) == 1
            && 1 in Of(first.store.events, w) && Of(first.store.events, w)[1].recordedAt == at
            && 0 in first.streams && first.streams.Keys == {0} && first.handles == 1
            && first.streams[0].workflow == w && |first.streams[0].pending| >= 2
  {
    var empty := Fresh(EmptyStore(boot), retained);
    EmptyStoreIsExact(boot, retained, req.config.id, 0);
    SubmitEndsWithResponse(engine, empty.sessions, req);
    StepKeeps(engine, empty, Submitting(req, at, at), req.config.id, at, first);
  }

  /** A run whose clock goes back once ends in a gap: three events, a restart under another boot id, and
      a prune that takes the middle one. */
  lemma PruneOpensGap(engine: Engine, retained: nat, req: SubmitRequest, w: WorkflowId,
                      first: Service, second: Service, third: Service, restarted: Service, pruned: Service)
    requires engine.authorize(req.auth).None? && req.key == "" && w == req.config.id
    requires first == Step(engine, Fresh(EmptyStore("a"), retained), Submitting(req, 9, 9))
    requires second == Step(engine, first, Pulling(0, 1)) && third == Step(engine, second, Pulling(0, 9))
    requires restarted == Step(engine, third, Restarting("b")) && pruned == Step(engine, restarted, Pruning(5))
    ensures CompleteFor(third.store, w) && !SuffixFor(pruned.store, w)
  {
    FirstSubmission(engine, "a", retained, req, 9, first);
    TwoMoreEvents(engine, first, w, second, third);
    RestartThenPrune(engine, third, restarted, pruned);
    GapAppears(third.store, w, pruned.store);
  }

  lemma RestartThenPrune(engine: Engine, s: Service, restarted: Service, pruned: Service)
    requires restarted == Step(engine, s, Restarting("b")) && pruned == Step(engine, restarted, Pruning(5))
    ensures pruned.store == Prune(s.store.(boot := "b"), 5)
  {
  }

  lemma TwoMoreEvents(engine: Engine, first: Service, w: WorkflowId, second: Service, third: Service)
    requires Sound(first, w) && ExactFor(first.store, w) && first.store.boot == "a" && EventCount(first.store, w) == 1
    requires 1 in Of(first.store.events, w) && Of(first.store.events, w)[1].recordedAt == 9
    requires 0 in first.streams && first.streams[0].workflow == w && |first.streams[0].pending| >= 2
    requires second == Step(engine, first, Pulling(0, 1)) && third == Step(engine, second, Pulling(0, 9))
    ensures ExactFor(third.store, w) && EventCount(third.store, w) == 3
    ensures 1 in Of(third.store.events, w) && Of(third.store.events, w)[1].recordedAt == 9
    ensures 2 in Of(third.store.events, w) && Of(third.store.events, w)[2] == Row(1, "a", first.streams[0].pending[0])
  {
    assert UnderWay(first, 0, w);
    PullKeeps(first, 0, first.streams[0], 1, w, second);
    assert UnderWay(second, 0, w);
    PullKeeps(second, 0, second.streams[0], 9, w, third);
  }

  lemma GapAppears(s: Store, w: WorkflowId, pruned: Store)
    requires ExactFor(s, w) && EventCount(s, w) == 3 && 1 in Of(s.events, w) && 2 in Of(s.events, w)
    requires Of(s.events, w)[1].recordedAt == 9 && Of(s.events, w)[2].recordedAt == 1 && Of(s.events, w)[2].boot == "a"
    requires pruned == Prune(s.(boot := "b"), 5)
    ensures CompleteFor(s, w) && !SuffixFor(pruned, w)
  {
    assert "a" != "b" by { assert "a"[0] != "b"[0]; }
    assert w in s.records;
    assert 1 in Of(pruned.events, w) && 2 !in Of(pruned.events, w);
  }

  // ----- A call while a stream of the workflow is under way -----

  /** A call that rewrites a record counts one more row in it. */
  lemma RewritingAdvances(engine: Engine, s: Service, a: Action, w: WorkflowId, next: Service)
    requires Rewrites(engine, s, a, w) && Replacing(engine, s, a, w) && w in s.store.records && next == Step(engine, s, a)
    ensures EventCount(next.store, w) + AuditCount(next.store, w) == EventCount(s.store, w) + AuditCount(s.store, w) + 1
  {
    match a
    case Submitting(req, _, _) => SubmitEndsWithResponse(engine, s.sessions, req);
    case Reorchestrating(req, at) => ReorchestrateGoesOn(engine, s, req, at, Hydrate(engine, s, w, req.auth));
    case Controlling(_, _, _, _, _, _) =>
    case Noting(_, _, _, _) =>
    case Rehydrating(_, _, _) =>
  }

  /** It leaves every stream that was open as it was. */
  lemma RewritingKeepsStreams(engine: Engine, s: Service, a: Action, w: WorkflowId, next: Service)
    requires Rewrites(engine, s, a, w) && HandlesUsed(s) && next == Step(engine, s, a)
    ensures forall h :: h in s.streams ==> h in next.streams && next.streams[h] == s.streams[h]
  {
    match a
    case Submitting(req, _, _) => SubmitEndsWithResponse(engine, s.sessions, req);
    case Reorchestrating(req, at) => ReorchestrateGoesOn(engine, s, req, at, Hydrate(engine, s, w, req.auth));
    case Controlling(_, _, _, _, _, _) =>
    case Noting(_, _, _, _) =>
    case Rehydrating(_, _, _) =>
  }

  /** Exactly when a call that rewrites a record keeps streams and records in step: when no stream of
      that workflow is under way. */
  lemma RewritingSoundIff(engine: Engine, s: Service, a: Action, w: WorkflowId, next: Service)
    requires Sound(s, w) && HandlesUsed(s)
    requires Rewrites(engine, s, a, w) && Replacing(engine, s, a, w) && next == Step(engine, s, a)
    ensures Sound(next, w) <==> Alone(s, w)
  {
    if Alone(s, w) {
      StepKeeps(engine, s, a, w, TimeOf(a, 0), next);
    } else {
      var h :| UnderWay(s, h, w);
      RewritingAdvances(engine, s, a, w, next);
      RewritingKeepsStreams(engine, s, a, w, next);
      assert UnderWay(next, h, w) && next.streams[h].record == s.store.records[w];
    }
  }

  predicate Audits(a: Action) {
    a.Controlling? || a.Noting? || a.Rehydrating?
  }

  /** Exactly when the histories stay complete across an audited call and the next pull on a stream of
      the same workflow: when the stream is over. Otherwise its own copy of the record takes the audit
      counter back, below the audit that was just written. */
  lemma AuditThenPullCompleteIff(engine: Engine, s: Service, a: Action, w: WorkflowId, h: nat, at: int,
                                 next: Service, after: Service)
    requires Sound(s, w) && ExactFor(s.store, w) && Audits(a) && Rewrites(engine, s, a, w)
    requires h in s.streams && s.streams[h].workflow == w
    requires next == Step(engine, s, a) && after == Step(engine, next, Pulling(h, at))
    ensures CompleteFor(after.store, w) <==> s.streams[h].pending == []
  {
    assert CompleteFor(s.store, w) && next.streams == s.streams;
    AuditedStore(engine, s, a, w, next);
    if s.streams[h].pending == [] {
      assert after.store == next.store;
    } else {
      assert UnderWay(s, h, w);
      assert AuditCount(after.store, w) == AuditCount(s.store, w);
      assert AuditCount(s.store, w) + 1 in Of(after.store.audits, w);
    }
  }

  lemma AuditAppends(s: Store, w: WorkflowId, r: Record, at: int, audit: Audit, next: Store)
    requires HeadsKeptFor(s, w) && CountsAudit(s, w, r) && next == WriteAudit(s, w, r, at, audit)
    ensures AppendsAudit(s, w, at, audit, next)
    ensures CompleteFor(s, w) ==> CompleteFor(next, w)
  {
    AuditGrows(s, w, r, at, audit, next);
    AuditKeepsHeads(s, w, at, audit, next);
  }

  /** The touch before the audit is overwritten by it. */
  lemma ControlledStore(s: Service, w: WorkflowId, c: Control, actor: string, reason: string, now: int, at: int,
                        next: Service, r: Record)
    requires w in s.store.records && next == Controlled(s, w, c, actor, reason, now, at)
    requires w in next.store.records && r == next.store.records[w]
    ensures next.store == WriteAudit(s.store, w, r, at, ControlAudit(c, actor, reason)) && CountsAudit(s.store, w, r)
  {
  }

  /** The audited call itself appends one audit and leaves every stream alone. */
  lemma AuditedStore(engine: Engine, s: Service, a: Action, w: WorkflowId, next: Service)
    requires HeadsKeptFor(s.store, w) && Audits(a) && Rewrites(engine, s, a, w) && next == Step(engine, s, a)
    ensures next.streams == s.streams
    ensures exists audit, at :: AppendsAudit(s.store, w, at, audit, next.store)
    ensures CompleteFor(s.store, w) ==> CompleteFor(next.store, w)
  {
    var r := next.store.records[w];
    match a
    case Controlling(_, c, actor, reason, now, at) =>
      ControlledStore(s, w, c, actor, reason, now, at, next, r);
      AuditAppends(s.store, w, r, at, ControlAudit(c, actor, reason), next.store);
    case Noting(_, actor, note, at) =>
      AuditAppends(s.store, w, r, at, NoteAudit(actor, note), next.store);
    case Rehydrating(_, auth, at) =>
      AuditAppends(s.store, w, r, at, RECOVERY_AUDIT, next.store);
  }

  /** The rows a pull writes, numbered by the stream's own copy of the record. */
  lemma PullRows(s: Service, h: nat, stream: Stream, at: int, w: WorkflowId, next: Service)
    requires stream.pending != [] && stream.workflow == w && next == Pull(s, h, stream, at)
    ensures var (r, e) := (stream.record, stream.pending[0]);
            && EventCount(next.store, w) == r.events + 1 && next.store.boot == s.store.boot
            && Of(next.store.events, w) == Of(s.store.events, w)[r.events + 1 := Row(at, s.store.boot, e)]
            && Of(next.store.plans, w) == (if FullyOk(e)
                 then Of(s.store.plans, w)[r.plans + 1 := Row(at, s.store.boot, e.response.value)]
                 else Of(s.store.plans, w))
            && Of(next.store.audits, w) == Of(s.store.audits, w)
  {
  }

  /** Event `n` is there, and plan `v` exactly if the event is fully ok, with its response and time. */
  ghost predicate NewestMatches(s: Store, w: WorkflowId, n: nat, v: nat) {
    n in Of(s.events, w)
    && var row := Of(s.events, w)[n];
       && (v in Of(s.plans, w) <==> FullyOk(row.payload))
       && (FullyOk(row.payload) ==> Of(s.plans, w)[v] == Row(row.recordedAt, row.boot, row.payload.response.value))
  }

  /** A row written under a plan number not yet in use matches its event. */
  lemma WrittenMatches(s: Store, w: WorkflowId, n: nat, v: nat, row: Row<Event>, plans: Rows<Response>)
    requires v !in plans && n in Of(s.events, w) && Of(s.events, w)[n] == row
    requires Of(s.plans, w) == (if FullyOk(row.payload)
               then plans[v := Row(row.recordedAt, row.boot, row.payload.response.value)] else plans)
    ensures NewestMatches(s, w, n, v)
  {
  }

  lemma NextPlanIsNew(s: Store, w: WorkflowId)
    requires ExactFor(s, w)
    ensures PlanCount(s, w) + 1 !in Of(s.plans, w)
  {
  }

  /** An event was recorded under the next number, and a plan with it if it is fully ok. */
  ghost predicate NextEventOf(s: Store, w: WorkflowId, next: Store) {
    && next.boot == s.boot
    && EventCount(next, w) == EventCount(s, w) + 1
    && NewestMatches(next, w, EventCount(s, w) + 1, PlanCount(s, w) + 1)
  }

  /** The first pull of a stream that goes on from the stored counters. */
  lemma FirstPullRows(s: Store, header: Service, h: nat, stream: Stream, at: int, w: WorkflowId, next: Service)
    requires ExactFor(s, w) && stream.pending != [] && stream.workflow == w && next == Pull(header, h, stream, at)
    requires stream.record.events == EventCount(s, w) && stream.record.plans == PlanCount(s, w)
    requires header.store.boot == s.boot && Of(header.store.plans, w) == Of(s.plans, w)
    ensures NextEventOf(s, w, next.store)
  {
    PullRows(header, h, stream, at, w, next);
    NextPlanIsNew(s, w);
    WrittenMatches(next.store, w, EventCount(s, w) + 1, PlanCount(s, w) + 1,
                   Row(at, header.store.boot, stream.pending[0]), Of(s.plans, w));
  }

  /** The rows that opening a stream on a stored workflow writes. */
  lemma OpeningRows(engine: Engine, s: Service, a: Action, w: WorkflowId, next: Service)
    requires ExactFor(s.store, w) && w in s.store.records && (a.Submitting? || a.Reorchestrating?)
    requires Rewrites(engine, s, a, w) && Replacing(engine, s, a, w) && next == Step(engine, s, a)
    ensures NextEventOf(s.store, w, next.store)
  {
    match a
    case Submitting(req, now, at) =>
      SubmitEndsWithResponse(engine, s.sessions, req);
      FirstPullRows(s.store, OpenSubmit(engine, s, req, now), s.handles, SubmitStream(engine, s, req, now), at, w, next);
    case Reorchestrating(req, at) =>
      var ready := Hydrate(engine, s, w, req.auth);
      ReorchestrateGoesOn(engine, s, req, at, ready);
      FirstPullRows(s.store, OpenReorchestrate(engine, ready, req), s.handles, ReorchestrateStream(engine, ready, req),
                    at, w, next);
  }

  /** Event `n` was written anew, and plan `v` with it if the event is fully ok. */
  ghost predicate NewestReplaced(s: Store, w: WorkflowId, n: nat, v: nat, row: Row<Event>, after: Store) {
    && EventCount(after, w) == n
    && Of(after.events, w) == Of(s.events, w)[n := row]
    && Of(after.plans, w) == (if FullyOk(row.payload)
         then Of(s.plans, w)[v := Row(row.recordedAt, row.boot, row.payload.response.value)] else Of(s.plans, w))
    && Of(after.audits, w) == Of(s.audits, w)
  }

  /** Stream `h` still counts as the store did before the newest event. */
  ghost predicate LeftBehind(s: Store, next: Service, h: nat, w: WorkflowId) {
    && UnderWay(next, h, w)
    && NextEventOf(s, w, next.store)
    && next.streams[h].record.events == EventCount(s, w)
    && next.streams[h].record.plans == PlanCount(s, w)
  }

  /** Such a stream writes its next event over the newest one, and the counter stands still. */
  lemma LatePullRows(engine: Engine, s: Store, next: Service, h: nat, w: WorkflowId, at: int, after: Service)
    requires LeftBehind(s, next, h, w) && after == Step(engine, next, Pulling(h, at))
    ensures NewestReplaced(next.store, w, EventCount(next.store, w), PlanCount(s, w) + 1,
                           Row(at, s.boot, next.streams[h].pending[0]), after.store)
  {
    PullRows(next, h, next.streams[h], at, w, after);
  }

  /** Writing over the newest row loses a row exactly when they differ: a plan row goes with its event. */
  lemma NewestReplacedLoss(s: Store, w: WorkflowId, v: nat, row: Row<Event>, after: Store)
    requires NewestMatches(s, w, EventCount(s, w), v) && NewestReplaced(s, w, EventCount(s, w), v, row, after)
    ensures HistoryStaysFor(s, w, after) <==> Of(s.events, w)[EventCount(s, w)] == row
  {
  }

  lemma LatePullLoss(engine: Engine, s: Store, next: Service, h: nat, w: WorkflowId, at: int, after: Service)
    requires LeftBehind(s, next, h, w) && after == Step(engine, next, Pulling(h, at))
    ensures EventCount(after.store, w) == EventCount(next.store, w) && EventCount(next.store, w) in Of(next.store.events, w)
    ensures HistoryStaysFor(next.store, w, after.store) <==>
            Of(next.store.events, w)[EventCount(next.store, w)] == Row(at, s.boot, next.streams[h].pending[0])
  {
    LatePullRows(engine, s, next, h, w, at, after);
    NewestReplacedLoss(next.store, w, PlanCount(s, w) + 1, Row(at, s.boot, next.streams[h].pending[0]), after.store);
  }

  /** Opening another stream leaves the first one behind. */
  lemma OpeningLeavesBehind(engine: Engine, s: Service, a: Action, w: WorkflowId, h: nat, next: Service)
    requires Sound(s, w) && ExactFor(s.store, w) && HandlesUsed(s) && UnderWay(s, h, w)
    requires (a.Submitting? || a.Reorchestrating?) && Rewrites(engine, s, a, w) && Replacing(engine, s, a, w)
    requires next == Step(engine, s, a)
    ensures LeftBehind(s.store, next, h, w) && next.streams[h] == s.streams[h]
  {
    RewritingKeepsStreams(engine, s, a, w, next);
    OpeningRows(engine, s, a, w, next);
  }

  /** Exactly when a pull on a stream of the workflow loses no row after a second one was opened: when the
      stream is over, or its next row equals the newest one. The counter stands still either way. */
  lemma StaleStreamOverwritesIff(engine: Engine, s: Service, a: Action, w: WorkflowId, h: nat, at: int,
                                 next: Service, after: Service)
    requires Sound(s, w) && ExactFor(s.store, w) && HandlesUsed(s) && w in s.store.records
    requires h in s.streams && s.streams[h].workflow == w && (a.Submitting? || a.Reorchestrating?)
    requires Rewrites(engine, s, a, w) && Replacing(engine, s, a, w)
    requires next == Step(engine, s, a) && after == Step(engine, next, Pulling(h, at))
    ensures EventCount(after.store, w) == EventCount(next.store, w) && EventCount(next.store, w) in Of(next.store.events, w)
    ensures HistoryStaysFor(next.store, w, after.store) <==>
            || s.streams[h].pending == []
            || Of(next.store.events, w)[EventCount(next.store, w)] == Row(at, s.store.boot, s.streams[h].pending[0])
  {
    if s.streams[h].pending == [] {
      OpeningRows(engine, s, a, w, next);
      RewritingKeepsStreams(engine, s, a, w, next);
      assert after.store == next.store;
    } else {
      OpeningLeavesBehind(engine, s, a, w, h, next);
      LatePullLoss(engine, s.store, next, h, w, at, after);
    }
  }

  /** The shortest such run from a new store: submit, submit again with `replace_existing`, and pull on the
      first stream. */
  lemma SecondStreamLosesEvent(engine: Engine, boot: string, retained: nat, req: SubmitRequest, w: WorkflowId,
                               first: Service, second: Service, pulled: Service)
    requires engine.authorize(req.auth).None? && req.key == "" && req.replaceExisting == Some(true) && w == req.config.id
    requires first == Step(engine, Fresh(EmptyStore(boot), retained), Submitting(req, 0, 0))
    requires second == Step(engine, first, Submitting(req, 1, 1)) && pulled == Step(engine, second, Pulling(0, 2))
    ensures !HistoryStaysFor(second.store, w, pulled.store)
    ensures EventCount(second.store, w) == EventCount(pulled.store, w) == 2
  {
    FirstSubmission(engine, boot, retained, req, 0, first);
    SecondSubmission(engine, first, req, w, second);
    assert UnderWay(first, 0, w) && HandlesUsed(first) && Rewrites(engine, first, Submitting(req, 1, 1), w);
    StaleStreamOverwritesIff(engine, first, Submitting(req, 1, 1), w, 0, 2, second, pulled);
  }

  lemma SecondSubmission(engine: Engine, first: Service, req: SubmitRequest, w: WorkflowId, second: Service)
    requires w in first.store.records && w == req.config.id && req.replaceExisting == Some(true) && req.key == ""
    requires EventCount(first.store, w) == 1 && second == Step(engine, first, Submitting(req, 1, 1))
    ensures EventCount(second.store, w) == 2
    ensures 2 in Of(second.store.events, w) && Of(second.store.events, w)[2].recordedAt == 1
  {
    SubmitEndsWithResponse(engine, first.sessions, req);
  }

  /** The shortest such run from an empty store: submit, pause, take the second event; the next audit
      then overwrites the one of the pause. */
  lemma PauseUnderWayLosesAudit(engine: Engine, boot: string, retained: nat, req: SubmitRequest)
    requires engine.authorize(req.auth).None? && req.key == ""
    ensures var w := req.config.id;
            var submitted := Step(engine, Fresh(EmptyStore(boot), retained), Submitting(req, 0, 0));
            var paused := Step(engine, submitted, Controlling(w, Pause, "", "", 1, 1));
            var pulled := Step(engine, paused, Pulling(0, 2));
            var resumed := Step(engine, pulled, Controlling(w, Resume, "", "", 3, 3));
            !CompleteFor(pulled.store, w) && !HistoryStaysFor(pulled.store, w, resumed.store)
  {
    var w := req.config.id;
    var submitted := Step(engine, Fresh(EmptyStore(boot), retained), Submitting(req, 0, 0));
    FirstSubmission(engine, boot, retained, req, 0, submitted);
    var pause := Controlling(w, Pause, "", "", 1, 1);
    var paused := Step(engine, submitted, pause);
    var pulled := Step(engine, paused, Pulling(0, 2));
    AuditThenPullCompleteIff(engine, submitted, pause, w, 0, 2, paused, pulled);
    assert Of(pulled.store.audits, w)[1].recordedAt == 1;
    var resumed := Step(engine, pulled, Controlling(w, Resume, "", "", 3, 3));
    assert Of(resumed.store.audits, w)[1].recordedAt == 3;
  }

  // ----- Submitting a stored workflow again -----

  /** What a submission that does not continue the record leaves in the store. */
  lemma ResubmitStore(engine: Engine, s: Service, req: SubmitRequest, now: int, at: int, next: Service, e: Event)
    requires req.replaceExisting != Some(true) && next == Submit(engine, s, req, now, at).0
    requires Replayed(s.store, req.key, req.fingerprint, req.config.id, SUBMIT_KEY_REUSED).None?
    requires SubmitEvents(engine, s.sessions, req) != [] && e == SubmitEvents(engine, s.sessions, req)[0]
    ensures var w := req.config.id;
            && !FullyOk(e)
            && Of(next.store.events, w) == Of(s.store.events, w)[1 := Row(at, s.store.boot, e)]
            && Of(next.store.plans, w) == Of(s.store.plans, w)
            && Of(next.store.audits, w) == Of(s.store.audits, w)
            && EventCount(next.store, w) == 1 && PlanCount(next.store, w) == 0 && AuditCount(next.store, w) == 0
  {
    SubmitEndsWithResponse(engine, s.sessions, req);
  }

  /** Exactly when a resubmission leaves a complete history: with `replace_existing`, or when there is
      no more than one event to lose. Otherwise the counters restart below the rows in the tables. */
  lemma ResubmitCompleteIff(engine: Engine, s: Service, req: SubmitRequest, now: int, at: int, next: Service)
    requires ExactFor(s.store, req.config.id) && req.config.id in s.store.records
    requires Replayed(s.store, req.key, req.fingerprint, req.config.id, SUBMIT_KEY_REUSED).None?
    requires next == Submit(engine, s, req, now, at).0
    ensures var w := req.config.id;
            CompleteFor(next.store, w) <==>
            req.replaceExisting == Some(true)
            || (EventCount(s.store, w) <= 1 && PlanCount(s.store, w) == 0 && AuditCount(s.store, w) == 0)
    ensures var w := req.config.id;
            EventCount(next.store, w) == if req.replaceExisting == Some(true) then EventCount(s.store, w) + 1 else 1
  {
    var w := req.config.id;
    SubmitEndsWithResponse(engine, s.sessions, req);
    assert CompleteFor(s.store, w);
    if req.replaceExisting == Some(true) {
      SubmitAppends(engine, s, req, now, at, w, OpenSubmit(engine, s, req, now), next);
      assert CompleteFor(next.store, w);
    } else {
      ResubmitStore(engine, s, req, now, at, next, SubmitEvents(engine, s.sessions, req)[0]);
      if CompleteFor(next.store, w) {
        assert EventCount(s.store, w) > 1 ==> 2 in Of(next.store.events, w);
        assert PlanCount(s.store, w) > 0 ==> 1 in Of(next.store.plans, w);
        assert AuditCount(s.store, w) > 0 ==> 1 in Of(next.store.audits, w);
      }
    }
  }

  /** Exactly when a resubmission overwrites nothing: with `replace_existing`, or when there is no event
      yet, or the new first row happens to be the stored one. */
  lemma ResubmitKeepsRowsIff(engine: Engine, s: Service, req: SubmitRequest, now: int, at: int, next: Service, e: Event)
    requires ExactFor(s.store, req.config.id) && req.config.id in s.store.records
    requires Replayed(s.store, req.key, req.fingerprint, req.config.id, SUBMIT_KEY_REUSED).None?
    requires next == Submit(engine, s, req, now, at).0
    requires SubmitEvents(engine, s.sessions, req) != [] && e == SubmitEvents(engine, s.sessions, req)[0]
    ensures var w := req.config.id;
            HistoryStaysFor(s.store, w, next.store) <==>
            || req.replaceExisting == Some(true)
            || EventCount(s.store, w) == 0
            || (1 in Of(s.store.events, w) && Of(s.store.events, w)[1] == Row(at, s.store.boot, e))
  {
    var w := req.config.id;
    assert CompleteFor(s.store, w);
    if req.replaceExisting == Some(true) {
      SubmitAppends(engine, s, req, now, at, w, OpenSubmit(engine, s, req, now), next);
      assert HistoryStaysFor(s.store, w, next.store);
    } else {
      ResubmitStore(engine, s, req, now, at, next, e);
    }
  }

  /** The shortest such loss: submit without the flag, let go of the stream after a second event, submit
      again. */
  lemma ResubmitLosesHistory(engine: Engine, boot: string, retained: nat, req: SubmitRequest, w: WorkflowId,
                             first: Service, second: Service, dropped: Service, again: Service)
    requires engine.authorize(req.auth).None? && req.key == "" && req.replaceExisting == None && w == req.config.id
    requires first == Step(engine, Fresh(EmptyStore(boot), retained), Submitting(req, 0, 0))
    requires second == Step(engine, first, Pulling(0, 1)) && dropped == Step(engine, second, Dropping(0))
    requires again == Step(engine, dropped, Submitting(req, 2, 2))
    ensures !CompleteFor(again.store, w) && !HistoryStaysFor(dropped.store, w, again.store)
  {
    FirstSubmission(engine, boot, retained, req, 0, first);
    SecondEvent(engine, first, w, second);
    assert dropped.store == second.store;
    SubmitEndsWithResponse(engine, dropped.sessions, req);
    ResubmitCompleteIff(engine, dropped, req, 2, 2, again);
    ResubmitKeepsRowsIff(engine, dropped, req, 2, 2, again, SubmitEvents(engine, dropped.sessions, req)[0]);
  }

  lemma SecondEvent(engine: Engine, first: Service, w: WorkflowId, second: Service)
    requires Sound(first, w) && ExactFor(first.store, w) && UnderWay(first, 0, w) && EventCount(first.store, w) == 1
    requires 1 in Of(first.store.events, w) && second == Step(engine, first, Pulling(0, 1))
    ensures ExactFor(second.store, w) && EventCount(second.store, w) == 2 && w in second.store.records
    ensures 1 in Of(second.store.events, w) && Of(second.store.events, w)[1] == Of(first.store.events, w)[1]
  {
    PullKeeps(first, 0, first.streams[0], 1, w, second);
  }
}
