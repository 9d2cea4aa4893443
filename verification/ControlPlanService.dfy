/** The control-plane object: each of its calls is proved to take the specified steps. */
module ControlPlanService {
  import opened Basics
  import opened Protocol
  import opened WorkflowStore
  import opened RuntimeService
  import opened SqliteStore
  import opened ControlPlane
  import UpdateFeed

  class ControlPlanService {
    const store: SqliteWorkflowStore
    const runtime: InMemoryWorkflowRuntime
    const feed: UpdateFeed.WorkflowUpdateFeed
    var hydrated: set<WorkflowId>
    var handles: nat
    var streams: map<nat, Stream>

    function View(): Service
      reads this, store, runtime, feed
    {
      Service(store.View(), runtime.sessions, hydrated, handles, streams, feed.View())
    }

    /** Every open stream has a handle that was given out. */
    ghost predicate Valid()
      reads this, store, runtime, feed
    {
      HandlesUsed(View())
    }

    constructor (store: SqliteWorkflowStore, runtime: InMemoryWorkflowRuntime, feed: UpdateFeed.WorkflowUpdateFeed)
      ensures this.store == store && this.runtime == runtime && this.feed == feed
      ensures hydrated == {} && handles == 0 && streams == map[] && Valid()
    {
      this.store, this.runtime, this.feed := store, runtime, feed;
      hydrated, handles, streams := {}, 0, map[];
    }

    method PublishUpdate(w: WorkflowId)
      modifies feed
      ensures feed.View() == Announce(old(feed.View()), w)
    {
      if w == "" {
        return;
      }
      var _ := feed.Append(w);
    }

    /** Records the next event of a stream field by field and table by table, then suspends the stream. */
    method RecordEvent(h: nat, stream: Stream, at: int) returns (event: Event)
      requires stream.pending != [] && h < handles && Valid()
      modifies this, store, feed
      ensures Valid()
      ensures View() == Pull(old(View()), h, stream, at) && event == stream.pending[0]
    {
      event := stream.pending[0];
      var w, record := stream.workflow, stream.record;
      record := record.(updatedAt := at);
      record := record.(events := record.events + 1);
      record := record.(state := StateForEvent(event, record.state));
      if event.response.Some? {
        var response := event.response.value;
        record := record.(latest := Some(response));
        if !response.ok {
          record := record.(lastError := response.error);
        } else if !response.result.ok {
          record := record.(lastError := response.result.error);
        } else {
          record := record.(lastError := "");
          store.InsertPlanVersion(w, record.plans + 1, at, response);
          record := record.(plans := record.plans + 1);
        }
        if stream.key != "" {
          store.PutIdempotencyRecord(stream.key, w, stream.fingerprint, at, response);
        }
      }
      store.InsertEvent(w, record.events, at, event);
      store.UpsertWorkflow(w, record);
      PublishUpdate(w);
      streams := streams[h := stream.(record := record, pending := stream.pending[1..])];
    }

    /** The record a submission starts from, with the new configuration. */
    method PrepareRecord(req: SubmitRequest, now: int) returns (record: Record)
      ensures record == SubmittedRecord(store.View(), req, now)
    {
      var w := req.config.id;
      record := Record(Unspecified, 0, 0, 0, 0, 0, "", req.config, None);
      var found := false;
      if req.replaceExisting == Some(true) && w in store.records {
        record, found := store.records[w], w != "";
      }
      if !found {
        record := record.(createdAt := now);
      }
      record := record.(state := Submitted, updatedAt := now, lastError := "", config := req.config);
    }

    /** Stores and announces the record and hands the request to the runtime. */
    method OpenWorkflow(req: SubmitRequest, now: int) returns (stream: Stream)
      requires Valid()
      modifies this, store, runtime, feed
      ensures Valid() && handles == old(handles) + 1
      ensures View() == OpenSubmit(runtime.engine, old(View()), req, now)
      ensures stream == SubmitStream(runtime.engine, old(View()), req, now) && EndsWithResponse(stream.pending)
    {
      var w := req.config.id;
      var record := PrepareRecord(req, now);
      store.UpsertWorkflow(w, record);
      PublishUpdate(w);
      hydrated := hydrated + {w};
      var events := runtime.StreamSubmit(req);
      handles := handles + 1;
      stream := Stream(w, req.key, req.fingerprint, record, events);
    }

    /** The first pull on the stream that a submission returns. */
    method StreamSubmitWorkflow(req: SubmitRequest, now: int, at: int) returns (event: Event)
      requires Valid()
      modifies this, store, runtime, feed
      ensures Valid()
      ensures (View(), event) == Submit(runtime.engine, old(View()), req, now, at)
    {
      var replay := Replayed(store.View(), req.key, req.fingerprint, req.config.id, SUBMIT_KEY_REUSED);
      if replay.Some? {
        return replay.value;
      }
      var stream := OpenWorkflow(req, now);
      event := RecordEvent(handles - 1, stream, at);
    }

    /** Submits the stored configuration to the runtime if this process has not done so. */
    method EnsureHydrated(w: WorkflowId, auth: string) returns (failure: Option<Response>)
      requires w in store.records
      requires Valid()
      modifies this, runtime
      ensures Valid()
      ensures View() == Hydrate(runtime.engine, old(View()), w, auth)
      ensures failure == if w in hydrated then None else Some(HydrationResponse(runtime.engine, old(View()), w, auth))
    {
      if w !in hydrated {
        var response := runtime.Submit(ReplayRequest(store.records[w].config, auth));
        if !response.ok {
          return Some(response);
        }
        hydrated := hydrated + {w};
      }
      return None;
    }

    /** The checks on the record, in order. */
    method CheckRecord(req: ReorchestrateRequest) returns (refusal: Option<string>)
      ensures refusal == Barred(store.View(), req)
    {
      if req.workflow !in store.records {
        return Some("Workflow record was not found in the control plane.");
      }
      var record := store.records[req.workflow];
      if record.state == Paused {
        return Some("Workflow is paused. Resume it before re-orchestrating.");
      }
      if record.state == Cancelled {
        return Some("Workflow is cancelled and cannot be re-orchestrated.");
      }
      if req.expectedPlan.Some? && req.expectedPlan.value != record.plans {
        return Some("Expected plan version does not match the durable control-plane record.");
      }
      return None;
    }

    /** Hands the request to the runtime. */
    method OpenUpdate(req: ReorchestrateRequest) returns (stream: Stream)
      requires Valid() && req.workflow in store.records
      modifies this, runtime
      ensures Valid() && handles == old(handles) + 1
      ensures View() == OpenReorchestrate(runtime.engine, old(View()), req)
      ensures stream == ReorchestrateStream(runtime.engine, old(View()), req) && EndsWithResponse(stream.pending)
    {
      var events := runtime.StreamReorchestrate(req);
      handles := handles + 1;
      stream := Stream(req.workflow, req.key, req.fingerprint, store.records[req.workflow], events);
    }

    /** The first pull on the stream that a re-orchestration returns. */
    method StreamReorchestrate(req: ReorchestrateRequest, at: int) returns (event: Event)
      requires Valid()
      modifies this, store, runtime, feed
      ensures Valid()
      ensures (View(), event) == Reorchestrate(runtime.engine, old(View()), req, at)
    {
      var w := req.workflow;
      var refusal := CheckRecord(req);
      if refusal.Some? {
        return Refusal(w, refusal.value);
      }
      var failure := EnsureHydrated(w, req.auth);
      if failure.Some? {
        return ResponseEvent(RequestRejected, w, failure.value, failure.value.error);
      }
      var replay := Replayed(store.View(), req.key, req.fingerprint, w, REORCHESTRATE_KEY_REUSED);
      if replay.Some? {
        return replay.value;
      }
      var stream := OpenUpdate(req);
      event := RecordEvent(handles - 1, stream, at);
    }

    /** A further pull: the next event, or nothing once the stream is over. */
    method PullStream(h: nat, at: int) returns (event: Option<Event>)
      requires Valid()
      modifies this, store, feed
      ensures Valid()
      ensures View() == Step(runtime.engine, old(View()), Pulling(h, at))
      ensures event == if h in old(streams) && old(streams[h].pending) != [] then Some(old(streams[h].pending[0])) else None
    {
      if h !in streams {
        return None;
      }
      if streams[h].pending == [] {
        streams := streams - {h};
        return None;
      }
      var e := RecordEvent(h, streams[h], at);
      return Some(e);
    }

    /** The consumer lets go of the stream. */
    method DropStream(h: nat)
      requires Valid()
      modifies this
      ensures Valid()
      ensures View() == Step(runtime.engine, old(View()), Dropping(h))
    {
      streams := streams - {h};
    }

    method AppendAudit(w: WorkflowId, record: Record, at: int, audit: Audit)
      requires Valid()
      modifies this, store, feed
      ensures Valid()
      ensures View() == Audited(old(View()), w, record, at, audit)
    {
      store.InsertAuditEntry(w, record.audits + 1, at, audit);
      store.UpsertWorkflow(w, record.(audits := record.audits + 1));
      PublishUpdate(w);
    }

    /** Pause, resume and cancel: an upsert of the new state, then the audit. */
    method ControlWorkflow(w: WorkflowId, c: Control, actor: string, reason: string, now: int, at: int) returns (ok: bool)
      requires Valid()
      modifies this, store, feed
      ensures Valid()
      ensures View() == Step(runtime.engine, old(View()), Controlling(w, c, actor, reason, now, at))
      ensures ok <==> w in old(store.records)
    {
      if w !in store.records {
        return false;
      }
      var record := store.records[w];
      record := record.(state := ControlledState(c, record), updatedAt := now);
      store.UpsertWorkflow(w, record);
      AppendAudit(w, record, at, ControlAudit(c, actor, reason));
      return true;
    }

    /** Pulls until the stream is over and keeps the last response. */
    method Drain(h: nat, first: Event, clock: nat -> int)
      returns (response: Option<Response>, ghost pulls: seq<Action>)
      requires Answers(h, first, streams)
      requires Valid()
      modifies this, store, feed
      ensures Valid()
      ensures View() == Run(runtime.engine, old(View()), pulls) && h !in streams && response.Some?
      ensures pulls == Pulls(h, clock, |pulls|)
    {
      response, pulls := first.response, [];
      var n := 0;
      while h in streams
        invariant Valid()
        invariant pulls == Pulls(h, clock, n) && View() == Run(runtime.engine, old(View()), pulls)
        invariant response.Some? || (h in streams && EndsWithResponse(streams[h].pending))
        decreases if h in streams then 1 + |streams[h].pending| else 0
      {
        ghost var left := streams[h].pending;
        var event := PullStream(h, clock(n));
        if event.Some? && event.value.response.Some? {
          response := event.value.response;
        }
        RunOneMore(runtime.engine, old(View()), pulls, Pulling(h, clock(n)));
        PullsOneMore(h, clock, n);
        pulls, n := pulls + [Pulling(h, clock(n))], n + 1;
      }
    }

    /** A manual intervention: the audit, then a re-orchestration consumed to its end. */
    method ApplyManualIntervention(actor: string, note: string, update: ReorchestrateRequest,
                                   notedAt: int, startedAt: int, clock: nat -> int)
      returns (response: Option<Response>, ghost pulls: seq<Action>)
      requires Valid()
      modifies this, store, runtime, feed
      ensures Valid()
      ensures response.Some? <==> update.workflow in old(store.records)
      ensures update.workflow !in old(store.records) ==> View() == old(View())
      ensures update.workflow in old(store.records) ==>
                && View() == Run(runtime.engine, old(View()),
                                 [Noting(update.workflow, actor, note, notedAt), Reorchestrating(update, startedAt)] + pulls)
                && old(handles) !in streams
                && pulls == Pulls(old(handles), clock, |pulls|)
    {
      var w, h := update.workflow, handles;
      ghost var s0 := View();
      if w !in store.records {
        return None, [];
      }
      AppendAudit(w, store.records[w], notedAt, NoteAudit(actor, note));
      ghost var s1 := View();
      assert s1 == Step(runtime.engine, s0, Noting(w, actor, note, notedAt));
      var event := StreamReorchestrate(update, startedAt);
      ReorchestrateAnswers(runtime.engine, s1, update, startedAt, (View(), event));
      RunTwo(runtime.engine, s0, Noting(w, actor, note, notedAt), Reorchestrating(update, startedAt));
      response, pulls := Drain(h, event, clock);
      RunAppend(runtime.engine, s0, [Noting(w, actor, note, notedAt), Reorchestrating(update, startedAt)], pulls);
    }

    /** Submits a configuration to the runtime whatever it answers. */
    method SubmitAgain(w: WorkflowId, config: Config, auth: string)
      requires Valid()
      modifies this, runtime
      ensures Valid()
      ensures View() == old(View()).(sessions := SubmitSessions(runtime.engine, old(runtime.sessions), ReplayRequest(config, auth)),
                                     hydrated := old(hydrated) + {w})
    {
      var _ := runtime.Submit(ReplayRequest(config, auth));
      hydrated := hydrated + {w};
    }

    /** One workflow of the recovery loop. */
    method RecoverWorkflow(w: WorkflowId, auth: string, at: int)
      requires w in store.records
      requires Valid()
      modifies this, store, runtime, feed
      ensures Valid()
      ensures View() == Step(runtime.engine, old(View()), Rehydrating(w, auth, at))
      ensures old(store.records).Keys == store.records.Keys
    {
      if store.records[w].state !in {Cancelled, Failed, Unspecified} {
        var record := store.records[w].(updatedAt := at);
        AppendAudit(w, record, at, RECOVERY_AUDIT);
        SubmitAgain(w, record.config, auth);
      }
    }

    /** Recovery after a restart: each active workflow is audited and submitted to the runtime again. */
    method RecoverActiveWorkflows(auth: string, clock: nat -> int) returns (ids: seq<WorkflowId>)
      requires Valid()
      modifies this, store, runtime, feed
      ensures Valid()
      ensures forall w :: w in ids <==> w in old(store.records)
      ensures View() == Run(runtime.engine, old(View()), Recoveries(ids, auth, clock))
    {
      ids := store.ListAllWorkflows();
      for i := 0 to |ids|
        invariant View() == Run(runtime.engine, old(View()), Recoveries(ids[..i], auth, clock))
        invariant Valid() && store.records.Keys == old(store.records).Keys
      {
        RecoverWorkflow(ids[i], auth, clock(i));
        RunOneMore(runtime.engine, old(View()), Recoveries(ids[..i], auth, clock), Rehydrating(ids[i], auth, clock(i)));
        RecoveriesOneMore(ids, auth, clock, i);
      }
      assert ids[..|ids|] == ids;
    }
  }

  /** One recovery step per workflow. */
  function Recoveries(ids: seq<WorkflowId>, auth: string, clock: nat -> int): seq<Action> {
    seq(|ids|, i requires 0 <= i < |ids| => Rehydrating(ids[i], auth, clock(i)))
  }

  function Pulls(h: nat, clock: nat -> int, n: nat): (r: seq<Action>)
    ensures |r| == n
  {
    seq(n, i requires 0 <= i < n => Pulling(h, clock(i)))
  }

  lemma PullsOneMore(h: nat, clock: nat -> int, n: nat)
    ensures Pulls(h, clock, n + 1) == Pulls(h, clock, n) + [Pulling(h, clock(n))]
  {
  }

  lemma RecoveriesOneMore(ids: seq<WorkflowId>, auth: string, clock: nat -> int, i: nat)
    requires i < |ids|
    ensures Recoveries(ids[..i + 1], auth, clock)
         == Recoveries(ids[..i], auth, clock) + [Rehydrating(ids[i], auth, clock(i))]
  {
  }

  /** The event answers the request, or the stream that is still open will. */
  ghost predicate Answers(h: nat, event: Event, streams: map<nat, Stream>) {
    event.response.Some? || (h in streams && EndsWithResponse(streams[h].pending))
  }

  lemma PullAnswers(s: Service, h: nat, stream: Stream, at: int)
    requires EndsWithResponse(stream.pending)
    ensures Answers(h, stream.pending[0], Pull(s, h, stream, at).streams)
  {
    var events := stream.pending;
    if events[0].response.None? {
      assert EndsWithResponse(events[1..]);
    }
  }

  lemma ReorchestrateAnswers(engine: Engine, s: Service, req: ReorchestrateRequest, at: int, out: (Service, Event))
    requires out == Reorchestrate(engine, s, req, at)
    ensures Answers(s.handles, out.1, out.0.streams)
  {
    if Barred(s.store, req).None? {
      var ready := Hydrate(engine, s, req.workflow, req.auth);
      ReorchestrateGoesOn(engine, s, req, at, ready);
      if GoesOn(engine, s, req) {
        PullAnswers(OpenReorchestrate(engine, ready, req), s.handles, ReorchestrateStream(engine, ready, req), at);
      }
    }
  }
}
