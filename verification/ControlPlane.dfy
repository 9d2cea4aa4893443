/** The durable control plane as a state machine: each step is one call, or one pull on an open
    event stream. */
module ControlPlane {
  import opened Basics
  import opened Protocol
  import opened WorkflowStore
  import opened RuntimeService
  import opened UpdateFeed

  /** A suspended stream: its workflow, the request's key, its own copy of the record, and the events
      to come. */
  datatype Stream = Stream(workflow: WorkflowId, key: string, fingerprint: string, record: Record, pending: seq<Event>)

  /** Any number of streams is open, each under a handle; `handles` is the next one. */
  datatype Service = Service(store: Store, sessions: Sessions, hydrated: set<WorkflowId>,
                             handles: nat, streams: map<nat, Stream>, feed: Feed)

  function StateForEvent(e: Event, current: Lifecycle): Lifecycle {
    match e.kind
    case WorkflowAccepted => Submitted
    case ReplanningStarted => Planning
    case TaskPlanned => Planned
    case RunFinished => if e.response.None? then current else if FullyOk(e) then Planned else Failed
    case RequestRejected => Failed
    case OverrideApplied => current
    case TaskCompleted => current
  }

  function ErrorAfter(e: Event, current: string): string {
    if e.response.None? then current
    else if !e.response.value.ok then e.response.value.error
    else if !e.response.value.result.ok then e.response.value.result.error
    else ""
  }

  function Advance(r: Record, e: Event, at: int): Record {
    r.(updatedAt := at,
       events := r.events + 1,
       state := StateForEvent(e, r.state),
       latest := if e.response.Some? then e.response else r.latest,
       lastError := ErrorAfter(e, r.lastError),
       plans := r.plans + (if FullyOk(e) then 1 else 0))
  }

  function Announce(f: Feed, w: WorkflowId): Feed {
    if w == "" then f else Publish(f, w)
  }

  /** The stream records its next event, from its own copy of the record, and hands it out. */
  function Pull(s: Service, h: nat, stream: Stream, at: int): Service
    requires stream.pending != []
  {
    var e := stream.pending[0];
    var r := Advance(stream.record, e, at);
    s.(store := WriteEvent(s.store, stream.workflow, r, at, e, stream.key, stream.fingerprint),
       streams := s.streams[h := stream.(record := r, pending := stream.pending[1..])],
       feed := Announce(s.feed, stream.workflow))
  }

  /** A stream of `w` that still has events to record. */
  predicate UnderWay(s: Service, h: nat, w: WorkflowId) {
    h in s.streams && s.streams[h].workflow == w && s.streams[h].pending != []
  }

  /** Handles are never given out twice. */
  ghost predicate HandlesUsed(s: Service) {
    forall h :: h in s.streams ==> h < s.handles
  }

  /** The answer from the idempotency table, if the key has one. */
  function Replayed(store: Store, key: string, fingerprint: string, w: WorkflowId, reused: string): Option<Event> {
    if key == "" || key !in store.idempotency then None
    else if store.idempotency[key].fingerprint != fingerprint
    then Some(ResponseEvent(RequestRejected, w, ErrorResponse(reused), reused))
    else Some(ResponseEvent(RunFinished, w, store.idempotency[key].response,
                            "Idempotent replay served from durable control plane."))
  }

  const SUBMIT_KEY_REUSED := "Idempotency key was reused for a different request payload."
  const REORCHESTRATE_KEY_REUSED := "Idempotency key was reused for a different re-orchestration payload."

  /** The control plane, unlike the runtime, replaces only when told to. */
  predicate Continues(store: Store, req: SubmitRequest) {
    req.replaceExisting == Some(true) && req.config.id in store.records
  }

  function SubmittedRecord(store: Store, req: SubmitRequest, now: int): Record {
    var w := req.config.id;
    var base := if Continues(store, req) then store.records[w]
                else Record(Unspecified, 0, 0, 0, 0, 0, "", req.config, None);
    base.(createdAt := if Continues(store, req) && w != "" then base.createdAt else now,
          state := Submitted, updatedAt := now, lastError := "", config := req.config)
  }

  function OpenSubmit(engine: Engine, s: Service, req: SubmitRequest, now: int): Service {
    var w := req.config.id;
    s.(store := Touch(s.store, w, SubmittedRecord(s.store, req, now)),
       feed := Announce(s.feed, w),
       hydrated := s.hydrated + {w},
       sessions := SubmitSessions(engine, s.sessions, req),
       handles := s.handles + 1)
  }

  function SubmitStream(engine: Engine, s: Service, req: SubmitRequest, now: int): Stream {
    Stream(req.config.id, req.key, req.fingerprint, SubmittedRecord(s.store, req, now), SubmitEvents(engine, s.sessions, req))
  }

  /** The first pull on a submit stream: answer from the table, or open the workflow and go on to the
      runtime's first event. */
  function Submit(engine: Engine, s: Service, req: SubmitRequest, now: int, at: int): (Service, Event) {
    var w := req.config.id;
    match Replayed(s.store, req.key, req.fingerprint, w, SUBMIT_KEY_REUSED)
    case Some(e) => (s, e)
    case None =>
      SubmitEndsWithResponse(engine, s.sessions, req);
      var stream := SubmitStream(engine, s, req, now);
      (Pull(OpenSubmit(engine, s, req, now), s.handles, stream, at), stream.pending[0])
  }

  function ReplayRequest(config: Config, auth: string): SubmitRequest {
    SubmitRequest(config, auth, Some(true), "", "")
  }

  /** What submitting the stored configuration again to the runtime answers. */
  function HydrationResponse(engine: Engine, s: Service, w: WorkflowId, auth: string): Response
    requires w in s.store.records
  {
    FinalResponse(SubmitEvents(engine, s.sessions, ReplayRequest(s.store.records[w].config, auth)))
  }

  /** The stored configuration is in the runtime: it was, or submitting it again puts it there. */
  function Hydrate(engine: Engine, s: Service, w: WorkflowId, auth: string): Service
    requires w in s.store.records
  {
    if w in s.hydrated then s
    else s.(sessions := SubmitSessions(engine, s.sessions, ReplayRequest(s.store.records[w].config, auth)),
            hydrated := if HydrationResponse(engine, s, w, auth).ok then s.hydrated + {w} else s.hydrated)
  }

  function Refusal(w: WorkflowId, message: string): Event {
    ResponseEvent(RequestRejected, w, ErrorResponse(message), message)
  }

  /** Why the record does not admit a re-orchestration. */
  function Barred(store: Store, req: ReorchestrateRequest): Option<string> {
    var w := req.workflow;
    if w !in store.records then Some("Workflow record was not found in the control plane.")
    else if store.records[w].state == Paused then Some("Workflow is paused. Resume it before re-orchestrating.")
    else if store.records[w].state == Cancelled then Some("Workflow is cancelled and cannot be re-orchestrated.")
    else if req.expectedPlan.Some? && req.expectedPlan.value != store.records[w].plans
    then Some("Expected plan version does not match the durable control-plane record.")
    else None
  }

  function ReorchestrateStream(engine: Engine, s: Service, req: ReorchestrateRequest): Stream
    requires req.workflow in s.store.records
  {
    Stream(req.workflow, req.key, req.fingerprint, s.store.records[req.workflow], ReorchestrateEvents(engine, s.sessions, req))
  }

  function OpenReorchestrate(engine: Engine, s: Service, req: ReorchestrateRequest): Service {
    s.(sessions := ReorchestrateSessions(engine, s.sessions, req), handles := s.handles + 1)
  }

  /** The first pull on a re-orchestration stream. */
  function Reorchestrate(engine: Engine, s: Service, req: ReorchestrateRequest, at: int): (Service, Event) {
    var w := req.workflow;
    if Barred(s.store, req).Some? then (s, Refusal(w, Barred(s.store, req).value))
    else
      var ready := Hydrate(engine, s, w, req.auth);
      if w !in ready.hydrated then
        var failure := HydrationResponse(engine, s, w, req.auth);
        (ready, ResponseEvent(RequestRejected, w, failure, failure.error))
      else
        match Replayed(ready.store, req.key, req.fingerprint, w, REORCHESTRATE_KEY_REUSED)
        case Some(e) => (ready, e)
        case None =>
          ReorchestrateEndsWithResponse(engine, ready.sessions, req);
          var stream := ReorchestrateStream(engine, ready, req);
          (Pull(OpenReorchestrate(engine, ready, req), ready.handles, stream, at), stream.pending[0])
  }

  /** The request passes every check and reaches the runtime. */
  predicate GoesOn(engine: Engine, s: Service, req: ReorchestrateRequest) {
    && Barred(s.store, req).None?
    && req.workflow in Hydrate(engine, s, req.workflow, req.auth).hydrated
    && Replayed(s.store, req.key, req.fingerprint, req.workflow, REORCHESTRATE_KEY_REUSED).None?
  }

  /** Where a re-orchestration goes on to the runtime, its first event is pulled. */
  lemma ReorchestrateGoesOn(engine: Engine, s: Service, req: ReorchestrateRequest, at: int, ready: Service)
    requires Barred(s.store, req).None? && ready == Hydrate(engine, s, req.workflow, req.auth)
    ensures ready.store == s.store && ready.streams == s.streams && ready.feed == s.feed && ready.handles == s.handles
    ensures GoesOn(engine, s, req) ==>
              var stream := ReorchestrateStream(engine, ready, req);
              && EndsWithResponse(stream.pending)
              && Reorchestrate(engine, s, req, at)
                 == (Pull(OpenReorchestrate(engine, ready, req), s.handles, stream, at), stream.pending[0])
  {
    ReorchestrateEndsWithResponse(engine, ready.sessions, req);
  }

  datatype Control = Pause | Resume | Cancel

  function ControlledState(c: Control, r: Record): Lifecycle {
    match c
    case Pause => Paused
    case Cancel => Cancelled
    case Resume => if r.latest.Some? && r.latest.value.ok then Planned else Submitted
  }

  function ControlAudit(c: Control, actor: string, reason: string): Audit {
    var (action, standard) :=
      match c
      case Pause => ("pause", "Workflow paused from the control plane.")
      case Resume => ("resume", "Workflow resumed from the control plane.")
      case Cancel => ("cancel", "Workflow cancelled from the control plane.");
    Audit(if actor == "" then "control_plane" else actor, action, if reason == "" then standard else reason)
  }

  function NoteAudit(actor: string, note: string): Audit {
    Audit(if actor == "" then "control_plane" else actor, "manual_intervention",
          if note == "" then "Manual intervention applied." else note)
  }

  const RECOVERY_AUDIT := Audit("control_plane/recovery", "recover", "Rehydrating workflow state into runtime memory.")

  function Audited(s: Service, w: WorkflowId, r: Record, at: int, audit: Audit): Service {
    s.(store := WriteAudit(s.store, w, r.(audits := r.audits + 1), at, audit),
       feed := Announce(s.feed, w))
  }

  function Controlled(s: Service, w: WorkflowId, c: Control, actor: string, reason: string, now: int, at: int): Service {
    if w !in s.store.records then s
    else
      var r := s.store.records[w].(state := ControlledState(c, s.store.records[w]), updatedAt := now);
      Audited(s.(store := Touch(s.store, w, r)), w, r, at, ControlAudit(c, actor, reason))
  }

  /** The audit that precedes the re-orchestration of a manual intervention. */
  function Noted(s: Service, w: WorkflowId, actor: string, note: string, at: int): Service {
    if w !in s.store.records then s
    else Audited(s, w, s.store.records[w], at, NoteAudit(actor, note))
  }

  predicate Recoverable(s: Service, w: WorkflowId) {
    w in s.store.records && s.store.records[w].state !in {Cancelled, Failed, Unspecified}
  }

  function Recovered(engine: Engine, s: Service, w: WorkflowId, auth: string, at: int): Service {
    if !Recoverable(s, w) then s
    else
      var r := s.store.records[w].(updatedAt := at);
      Audited(s, w, r, at, RECOVERY_AUDIT)
        .(sessions := SubmitSessions(engine, s.sessions, ReplayRequest(r.config, auth)),
          hydrated := s.hydrated + {w})
  }

  datatype Action =
    | Submitting(request: SubmitRequest, now: int, at: int)
    | Reorchestrating(update: ReorchestrateRequest, at: int)
    | Pulling(handle: nat, at: int)
    | Dropping(handle: nat)
    | Controlling(w: WorkflowId, control: Control, actor: string, reason: string, now: int, at: int)
    | Noting(w: WorkflowId, actor: string, note: string, at: int)
    | Rehydrating(w: WorkflowId, auth: string, at: int)
    | Pruning(before: int)
    | Restarting(boot: string)

  function Step(engine: Engine, s: Service, a: Action): Service {
    match a
    case Submitting(req, now, at) => Submit(engine, s, req, now, at).0
    case Reorchestrating(req, at) => Reorchestrate(engine, s, req, at).0
    case Pulling(h, at) =>
      if h !in s.streams then s
      else if s.streams[h].pending == [] then s.(streams := s.streams - {h})
      else Pull(s, h, s.streams[h], at)
    case Dropping(h) => s.(streams := s.streams - {h})
    case Controlling(w, c, actor, reason, now, at) => Controlled(s, w, c, actor, reason, now, at)
    case Noting(w, actor, note, at) => Noted(s, w, actor, note, at)
    case Rehydrating(w, auth, at) => Recovered(engine, s, w, auth, at)
    case Pruning(before) => s.(store := Prune(s.store, before))
    case Restarting(boot) => Fresh(s.store.(boot := boot), s.feed.limit)
  }

  /** A process that has just opened the store. */
  function Fresh(store: Store, retained: nat): Service {
    Service(store, map[], {}, 0, map[], EmptyFeed(retained))
  }

  function Run(engine: Engine, s: Service, actions: seq<Action>): Service {
    if actions == [] then s
    else Step(engine, Run(engine, s, actions[..|actions| - 1]), actions[|actions| - 1])
  }

  lemma RunOneMore(engine: Engine, s: Service, actions: seq<Action>, a: Action)
    ensures Run(engine, s, actions + [a]) == Step(engine, Run(engine, s, actions), a)
  {
    assert (actions + [a])[..|actions|] == actions;
  }

  lemma RunTwo(engine: Engine, s: Service, a: Action, b: Action)
    ensures Run(engine, s, [a, b]) == Step(engine, Step(engine, s, a), b)
  {
    RunOneMore(engine, s, [], a);
    RunOneMore(engine, s, [a], b);
    assert [] + [a] == [a] && [a] + [b] == [a, b];
  }

  lemma {:induction false} RunAppend(engine: Engine, s: Service, before: seq<Action>, after: seq<Action>)
    ensures Run(engine, s, before + after) == Run(engine, Run(engine, s, before), after)
    decreases |after|
  {
    if after == [] {
      assert before + after == before;
    } else {
      var head := after[..|after| - 1];
      RunAppend(engine, s, before, head);
      RunOneMore(engine, s, before + head, after[|after| - 1]);
      assert before + head + [after[|after| - 1]] == before + after;
    }
  }
}
