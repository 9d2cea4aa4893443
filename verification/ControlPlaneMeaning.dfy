/** What each step of the control plane leaves in the record of a workflow, on its fields. */
module ControlPlaneMeaning {
  import opened Basics
  import opened Protocol
  import opened HistoryLog
  import opened WorkflowStore
  import opened RuntimeService
  import opened RuntimeAnswers
  import opened ControlPlane

  // ---- recording an event -----------------------------------------------------------------------------------

  /** `r` is the record `before` with event `e` recorded: the kind of the event and the success of its response
      decide the state, the response and its error are kept. */
  ghost predicate Reflects(before: Record, e: Event, at: int, r: Record) {
    && (e.kind == WorkflowAccepted ==> r.state == Submitted)
    && (e.kind == ReplanningStarted ==> r.state == Planning)
    && (e.kind == TaskPlanned ==> r.state == Planned)
    && (e.kind == RequestRejected ==> r.state == Failed)
    && (e.kind == OverrideApplied || e.kind == TaskCompleted ==> r.state == before.state)
    && (e.kind == RunFinished && e.response.None? ==> r.state == before.state)
    && (e.kind == RunFinished && e.response.Some? ==>
          if e.response.value.ok && e.response.value.result.ok then r.state == Planned else r.state == Failed)
    && (e.response.None? ==> r.latest == before.latest && r.lastError == before.lastError)
    && (e.response.Some? ==>
          && r.latest == e.response
          && r.lastError == (if !e.response.value.ok then e.response.value.error
                             else if !e.response.value.result.ok then e.response.value.result.error else ""))
    && r.updatedAt == at && r.createdAt == before.createdAt && r.config == before.config
    && r.events == before.events + 1 && r.audits == before.audits
    && r.plans == before.plans + (if e.response.Some? && e.response.value.ok && e.response.value.result.ok then 1 else 0)
  }

  /** `r` is some record with event `e` recorded. */
  ghost predicate Recorded(e: Event, at: int, r: Record) {
    exists before :: Reflects(before, e, at, r)
  }

  lemma AdvanceReflects(before: Record, e: Event, at: int)
    ensures Reflects(before, e, at, Advance(before, e, at))
  {
  }

  /** A pull records its event in the stream's copy of the record, and that copy is the stored record; a response to
      a request with a key is recorded under the key. */
  lemma PullInFields(engine: Engine, s: Service, h: nat, at: int, next: Service)
    requires h in s.streams && s.streams[h].pending != [] && next == Step(engine, s, Pulling(h, at))
    ensures var (stream, w) := (s.streams[h], s.streams[h].workflow);
            && w in next.store.records && h in next.streams
            && Reflects(stream.record, stream.pending[0], at, next.store.records[w])
            && next.streams[h] == stream.(record := next.store.records[w], pending := stream.pending[1..])
            && next.store.records == s.store.records[w := next.store.records[w]]
            && next.store.idempotency ==
                 (if stream.key != "" && stream.pending[0].response.Some?
                  then s.store.idempotency[stream.key := Idempotency(w, stream.fingerprint, at, s.store.boot,
                                                                     stream.pending[0].response.value)]
                  else s.store.idempotency)
  {
    AdvanceReflects(s.streams[h].record, s.streams[h].pending[0], at);
  }

  // ---- submissions ------------------------------------------------------------------------------------------

  /** The record that a submission starts from: that of the stored workflow if it is to be replaced, with the
      new configuration and no error; otherwise an empty one. */
  ghost predicate StartsFrom(store: Store, req: SubmitRequest, now: int, r: Record) {
    && r.state == Submitted && r.updatedAt == now && r.lastError == "" && r.config == req.config
    && if req.replaceExisting == Some(true) && req.config.id in store.records
       then var old_ := store.records[req.config.id];
            && r.events == old_.events && r.plans == old_.plans && r.audits == old_.audits && r.latest == old_.latest
            && r.createdAt == (if req.config.id == "" then now else old_.createdAt)
       else r.events == r.plans == r.audits == 0 && r.latest == None && r.createdAt == now
  }

  /** A submission that is not answered from the table records the runtime's first event in such a record,
      keeps the others for its stream and hands the configuration to the runtime. */
  lemma SubmitInFields(engine: Engine, s: Service, req: SubmitRequest, now: int, at: int, next: Service)
    requires next == Step(engine, s, Submitting(req, now, at)) && (req.key == "" || req.key !in s.store.idempotency)
    ensures var (w, events) := (req.config.id, SubmitEvents(engine, s.sessions, req));
            && events != [] && w in next.store.records && next.handles == s.handles + 1 && s.handles in next.streams
            && (exists r :: StartsFrom(s.store, req, now, r) && Reflects(r, events[0], at, next.store.records[w]))
            && next.streams[s.handles] == Stream(w, req.key, req.fingerprint, next.store.records[w], events[1..])
            && next.hydrated == s.hydrated + {w} && next.sessions == SubmitSessions(engine, s.sessions, req)
  {
    SubmitEndsWithResponse(engine, s.sessions, req);
    var r := SubmittedRecord(s.store, req, now);
    assert StartsFrom(s.store, req, now, r);
    AdvanceReflects(r, SubmitEvents(engine, s.sessions, req)[0], at);
  }

  /** After some pulls a stream is left with the rest of its events, and the store with its record. */
  lemma {:induction false} AfterPulls(engine: Engine, s: Service, h: nat, pulls: seq<Action>, end: Service)
    requires h in s.streams && |pulls| <= |s.streams[h].pending|
    requires s.streams[h].workflow in s.store.records && s.streams[h].record == s.store.records[s.streams[h].workflow]
    requires (forall i :: 0 <= i < |pulls| ==> pulls[i].Pulling? && pulls[i].handle == h) && end == Run(engine, s, pulls)
    ensures var w := s.streams[h].workflow;
            && h in end.streams && end.streams[h].workflow == w && end.streams[h].pending == s.streams[h].pending[|pulls|..]
            && w in end.store.records && end.streams[h].record == end.store.records[w]
            && end.store.records[w].config == s.store.records[w].config
    ensures |pulls| > 0 ==>
              Recorded(s.streams[h].pending[|pulls| - 1], pulls[|pulls| - 1].at, end.store.records[s.streams[h].workflow])
  {
    if pulls != [] {
      var n := |pulls| - 1;
      var before := Run(engine, s, pulls[..n]);
      AfterPulls(engine, s, h, pulls[..n], before);
      assert before.streams[h].pending[0] == s.streams[h].pending[n];
      PullInFields(engine, before, h, pulls[n].at, end);
    }
  }

  /** Whether the runtime takes the submission and plans it without an error. */
  predicate Succeeds(engine: Engine, sessions: Sessions, req: SubmitRequest) {
    && engine.authorize(req.auth).None?
    && (req.config.id !in sessions || req.replaceExisting != Some(false))
    && engine.optimize(req.config).ok
  }

  lemma LastSubmitEvent(engine: Engine, sessions: Sessions, req: SubmitRequest, last: Event)
    requires SubmitEvents(engine, sessions, req) != []
    requires last == SubmitEvents(engine, sessions, req)[|SubmitEvents(engine, sessions, req)| - 1]
    ensures last.kind == RunFinished || last.kind == RequestRejected
    ensures last.response.Some?
    ensures last.kind == RunFinished && last.response.value.ok && last.response.value.result.ok <==>
            Succeeds(engine, sessions, req)
  {
    SubmitAnswers(engine, sessions, req, SubmitSessions(engine, sessions, req), SubmitEvents(engine, sessions, req));
  }

  /** A submission whose stream is pulled to its end leaves the workflow planned if the runtime took and planned
      it, and failed otherwise. */
  lemma DrainedSubmission(engine: Engine, s: Service, req: SubmitRequest, now: int, at: int, next: Service,
                          pulls: seq<Action>, end: Service)
    requires next == Step(engine, s, Submitting(req, now, at)) && (req.key == "" || req.key !in s.store.idempotency)
    requires forall i :: 0 <= i < |pulls| ==> pulls[i].Pulling? && pulls[i].handle == s.handles
    requires |pulls| + 1 == |SubmitEvents(engine, s.sessions, req)| && end == Run(engine, next, pulls)
    ensures req.config.id in end.store.records
    ensures var r := end.store.records[req.config.id];
            r.config == req.config && r.state == if Succeeds(engine, s.sessions, req) then Planned else Failed
  {
    var events := SubmitEvents(engine, s.sessions, req);
    SubmitInFields(engine, s, req, now, at, next);
    LastSubmitEvent(engine, s.sessions, req, events[|events| - 1]);
    AfterPulls(engine, next, s.handles, pulls, end);
  }

  // ---- recovery ---------------------------------------------------------------------------------------------

  /** Recovery takes up every stored workflow that is neither cancelled nor failed nor without a state: it is
      audited, and its configuration is in the runtime again if the caller may submit it. */
  lemma RecoverInFields(engine: Engine, s: Service, w: WorkflowId, auth: string, at: int, next: Service)
    requires next == Step(engine, s, Rehydrating(w, auth, at))
    ensures w !in s.store.records || s.store.records[w].state in {Cancelled, Failed, Unspecified} ==> next == s
    ensures w in s.store.records && s.store.records[w].state !in {Cancelled, Failed, Unspecified} ==>
              var r := s.store.records[w];
              && w in next.hydrated && next.streams == s.streams
              && next.store.records == s.store.records[w := r.(updatedAt := at, audits := r.audits + 1)]
              && r.audits + 1 in Of(next.store.audits, w)
              && Of(next.store.audits, w)[r.audits + 1]
                 == Row(at, s.store.boot, Audit("control_plane/recovery", "recover", "Rehydrating workflow state into runtime memory."))
              && next.sessions == if engine.authorize(auth).None? then s.sessions[r.config.id := r.config] else s.sessions
  {
  }

  /** A restart keeps the tables and forgets the rest. */
  lemma RestartInFields(engine: Engine, s: Service, boot: string, next: Service)
    requires next == Step(engine, s, Restarting(boot))
    ensures next.store == s.store.(boot := boot) && next.sessions == map[] && next.hydrated == {} && next.streams == map[]
  {
  }

  /** A submission that succeeded is taken up by the recovery after any restart; one that failed is not. */
  lemma DrainedSubmissionRecovers(engine: Engine, s: Service, req: SubmitRequest, now: int, at: int, next: Service,
                                  pulls: seq<Action>, end: Service, boot: string, restarted: Service,
                                  auth: string, later: int, recovered: Service)
    requires next == Step(engine, s, Submitting(req, now, at)) && (req.key == "" || req.key !in s.store.idempotency)
    requires forall i :: 0 <= i < |pulls| ==> pulls[i].Pulling? && pulls[i].handle == s.handles
    requires |pulls| + 1 == |SubmitEvents(engine, s.sessions, req)| && end == Run(engine, next, pulls)
    requires restarted == Step(engine, end, Restarting(boot))
    requires recovered == Step(engine, restarted, Rehydrating(req.config.id, auth, later))
    ensures req.config.id in recovered.hydrated <==> Succeeds(engine, s.sessions, req)
    ensures Succeeds(engine, s.sessions, req) && engine.authorize(auth).None? ==>
              req.config.id in recovered.sessions && recovered.sessions[req.config.id] == req.config
  {
    DrainedSubmission(engine, s, req, now, at, next, pulls, end);
    RestartInFields(engine, end, boot, restarted);
    RecoverInFields(engine, restarted, req.config.id, auth, later, recovered);
  }

  // ---- controls and notes -----------------------------------------------------------------------------------

  /** One audit row was added under the next number, and the record of `w` is `r` with that count. */
  ghost predicate AuditedAs(s: Service, w: WorkflowId, r: Record, at: int, audit: Audit, next: Service) {
    && w in s.store.records && r.audits == s.store.records[w].audits
    && next.store.records == s.store.records[w := r.(audits := r.audits + 1)]
    && r.audits + 1 in Of(next.store.audits, w) && Of(next.store.audits, w)[r.audits + 1] == Row(at, s.store.boot, audit)
    && (forall k :: k in Of(s.store.audits, w) && k != r.audits + 1 ==>
          k in Of(next.store.audits, w) && Of(next.store.audits, w)[k] == Of(s.store.audits, w)[k])
    && next.store.events == s.store.events && next.store.plans == s.store.plans
    && next.store.idempotency == s.store.idempotency && next.store.boot == s.store.boot
    && next.streams == s.streams && next.sessions == s.sessions && next.hydrated == s.hydrated
  }

  lemma AuditInFields(s: Service, w: WorkflowId, r: Record, at: int, audit: Audit, header: Service, next: Service)
    requires w in s.store.records && r.audits == s.store.records[w].audits
    requires header == s || header == s.(store := Touch(s.store, w, r))
    requires next == Audited(header, w, r, at, audit)
    ensures AuditedAs(s, w, r, at, audit, next)
  {
    assert Of(next.store.audits, w) == Of(s.store.audits, w)[r.audits + 1 := Row(at, s.store.boot, audit)];
  }

  /** A pause, a cancellation and a resumption set the state, the last to planned if the latest response was ok,
      and are audited with the given or the standard actor and reason. */
  lemma ControlInFields(engine: Engine, s: Service, w: WorkflowId, c: Control, actor: string, reason: string,
                        now: int, at: int, next: Service)
    requires next == Step(engine, s, Controlling(w, c, actor, reason, now, at))
    ensures w !in s.store.records ==> next == s
    ensures w in s.store.records ==>
              var r := s.store.records[w];
              var who := if actor == "" then "control_plane" else actor;
              && (c == Pause ==>
                    AuditedAs(s, w, r.(state := Paused, updatedAt := now), at,
                              Audit(who, "pause", if reason == "" then "Workflow paused from the control plane." else reason), next))
              && (c == Cancel ==>
                    AuditedAs(s, w, r.(state := Cancelled, updatedAt := now), at,
                              Audit(who, "cancel", if reason == "" then "Workflow cancelled from the control plane." else reason), next))
              && (c == Resume ==>
                    AuditedAs(s, w, r.(state := if r.latest.Some? && r.latest.value.ok then Planned else Submitted, updatedAt := now),
                              at, Audit(who, "resume", if reason == "" then "Workflow resumed from the control plane." else reason),
                              next))
  {
    if w in s.store.records {
      var r := s.store.records[w].(state := ControlledState(c, s.store.records[w]), updatedAt := now);
      AuditInFields(s, w, r, at, ControlAudit(c, actor, reason), s.(store := Touch(s.store, w, r)), next);
    }
  }

  /** A note on a stored workflow is audited and changes nothing else. */
  lemma NoteInFields(engine: Engine, s: Service, w: WorkflowId, actor: string, note: string, at: int, next: Service)
    requires next == Step(engine, s, Noting(w, actor, note, at))
    ensures w !in s.store.records ==> next == s
    ensures w in s.store.records ==>
              AuditedAs(s, w, s.store.records[w], at,
                        Audit(if actor == "" then "control_plane" else actor, "manual_intervention",
                              if note == "" then "Manual intervention applied." else note), next)
  {
    if w in s.store.records {
      AuditInFields(s, w, s.store.records[w], at, NoteAudit(actor, note), s, next);
    }
  }

  // ---- re-orchestrations ------------------------------------------------------------------------------------

  /** The only thing that happens is an answer that refuses. */
  ghost predicate RefusedWith(s: Service, w: WorkflowId, message: string, next: Service, e: Event) {
    next == s && Refuses(w, [e], message)
  }

  /** Without a record, paused, cancelled, or at another plan version than the caller expects, a re-orchestration
      is refused, in this order, before the runtime or the table of keys is asked. */
  lemma RefusalInFields(engine: Engine, s: Service, req: ReorchestrateRequest, at: int, next: Service, e: Event)
    requires (next, e) == Reorchestrate(engine, s, req, at)
    ensures var w := req.workflow;
            if w !in s.store.records then RefusedWith(s, w, "Workflow record was not found in the control plane.", next, e)
            else if s.store.records[w].state == Paused
            then RefusedWith(s, w, "Workflow is paused. Resume it before re-orchestrating.", next, e)
            else if s.store.records[w].state == Cancelled
            then RefusedWith(s, w, "Workflow is cancelled and cannot be re-orchestrated.", next, e)
            else if req.expectedPlan.Some? && req.expectedPlan.value != s.store.records[w].plans
            then RefusedWith(s, w, "Expected plan version does not match the durable control-plane record.", next, e)
            else true
  {
  }

  /** Submitting the stored configuration again puts it into the runtime if the caller may; the workflow counts
      as being there if it was, or if it could also be planned. */
  lemma HydrationInFields(engine: Engine, s: Service, w: WorkflowId, auth: string)
    requires w in s.store.records
    ensures var (next, r) := (Hydrate(engine, s, w, auth), s.store.records[w]);
            && (w in s.hydrated ==> next == s)
            && (w !in s.hydrated && engine.authorize(auth).Some? ==>
                  next == s && !HydrationResponse(engine, s, w, auth).ok)
            && (w !in s.hydrated && engine.authorize(auth).None? ==>
                  && HydrationResponse(engine, s, w, auth).ok == engine.optimize(r.config).ok
                  && next == s.(sessions := s.sessions[r.config.id := r.config],
                                hydrated := if engine.optimize(r.config).ok then s.hydrated + {w} else s.hydrated))
  {
    var req := ReplayRequest(s.store.records[w].config, auth);
    var events := SubmitEvents(engine, s.sessions, req);
    SubmitEndsWithResponse(engine, s.sessions, req);
    FinalResponseIsLast(events);
    SubmitAnswers(engine, s.sessions, req, SubmitSessions(engine, s.sessions, req), events);
  }

  /** Nothing in the record bars the request. */
  predicate Admits(store: Store, req: ReorchestrateRequest) {
    && req.workflow in store.records
    && store.records[req.workflow].state != Paused && store.records[req.workflow].state != Cancelled
    && (req.expectedPlan.None? || req.expectedPlan.value == store.records[req.workflow].plans)
  }

  /** The runtime has the workflow, or takes and plans its stored configuration. */
  predicate Takes(engine: Engine, s: Service, req: ReorchestrateRequest)
    requires req.workflow in s.store.records
  {
    || req.workflow in s.hydrated
    || (engine.authorize(req.auth).None? && engine.optimize(s.store.records[req.workflow].config).ok)
  }

  /** The sessions once the stored configuration was submitted again, if it had to be. */
  function SessionsFor(engine: Engine, s: Service, req: ReorchestrateRequest): Sessions
    requires req.workflow in s.store.records
  {
    var config := s.store.records[req.workflow].config;
    if req.workflow in s.hydrated || engine.authorize(req.auth).Some? then s.sessions else s.sessions[config.id := config]
  }

  lemma NotTakenIsNotHydrated(engine: Engine, s: Service, req: ReorchestrateRequest, ready: Service)
    requires Admits(s.store, req) && !Takes(engine, s, req) && ready == Hydrate(engine, s, req.workflow, req.auth)
    ensures Barred(s.store, req).None? && req.workflow !in ready.hydrated
    ensures ready == s.(sessions := SessionsFor(engine, s, req))
    ensures !HydrationResponse(engine, s, req.workflow, req.auth).ok
  {
    HydrationInFields(engine, s, req.workflow, req.auth);
  }

  /** What the runtime does not take is refused, and nothing stored changes. */
  lemma NotTakenInFields(engine: Engine, s: Service, req: ReorchestrateRequest, at: int, next: Service, e: Event)
    requires Admits(s.store, req) && !Takes(engine, s, req) && (next, e) == Reorchestrate(engine, s, req, at)
    ensures next == s.(sessions := SessionsFor(engine, s, req))
    ensures e.kind == RequestRejected && e.workflow == req.workflow && e.response.Some? && !e.response.value.ok
  {
    NotTakenIsNotHydrated(engine, s, req, Hydrate(engine, s, req.workflow, req.auth));
  }

  /** What is left to do once nothing bars the request: the stored configuration is submitted again, then the
      key is looked up. */
  lemma TakenIsHydrated(engine: Engine, s: Service, req: ReorchestrateRequest, ready: Service)
    requires Admits(s.store, req) && Takes(engine, s, req) && ready == Hydrate(engine, s, req.workflow, req.auth)
    ensures Barred(s.store, req).None?
    ensures ready == s.(sessions := SessionsFor(engine, s, req), hydrated := s.hydrated + {req.workflow})
  {
    HydrationInFields(engine, s, req.workflow, req.auth);
  }

  /** What it takes is answered from the table if the key has a row: with the recorded response, or with a refusal
      if the request differs. */
  lemma ReplayInFields(engine: Engine, s: Service, req: ReorchestrateRequest, at: int, next: Service, e: Event)
    requires Admits(s.store, req) && Takes(engine, s, req) && req.key != "" && req.key in s.store.idempotency
    requires (next, e) == Reorchestrate(engine, s, req, at)
    ensures next == s.(sessions := SessionsFor(engine, s, req), hydrated := s.hydrated + {req.workflow})
    ensures if s.store.idempotency[req.key].fingerprint == req.fingerprint
            then e.kind == RunFinished && e.response == Some(s.store.idempotency[req.key].response)
            else Refuses(req.workflow, [e], "Idempotency key was reused for a different re-orchestration payload.")
  {
    TakenIsHydrated(engine, s, req, Hydrate(engine, s, req.workflow, req.auth));
  }

  /** Otherwise the first event of the runtime is recorded in the stored record and the others are kept for the
      stream. */
  lemma ReorchestrationInFields(engine: Engine, s: Service, req: ReorchestrateRequest, at: int, next: Service, e: Event)
    requires Admits(s.store, req) && Takes(engine, s, req) && (req.key == "" || req.key !in s.store.idempotency)
    requires (next, e) == Reorchestrate(engine, s, req, at)
    ensures var (w, sessions) := (req.workflow, SessionsFor(engine, s, req));
            var events := ReorchestrateEvents(engine, sessions, req);
            && events != [] && e == events[0] && w in next.store.records && s.handles in next.streams
            && Reflects(s.store.records[w], e, at, next.store.records[w]) && next.handles == s.handles + 1
            && next.streams[s.handles] == Stream(w, req.key, req.fingerprint, next.store.records[w], events[1..])
            && next.sessions == ReorchestrateSessions(engine, sessions, req) && next.hydrated == s.hydrated + {w}
  {
    var ready := Hydrate(engine, s, req.workflow, req.auth);
    TakenIsHydrated(engine, s, req, ready);
    ReorchestrateGoesOn(engine, s, req, at, ready);
    AdvanceReflects(s.store.records[req.workflow], ReorchestrateEvents(engine, ready.sessions, req)[0], at);
  }
}
