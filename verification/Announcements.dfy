/** Whoever follows the feed learns of every change to a workflow. */
module Announcements {
  import opened Protocol
  import opened WorkflowStore
  import opened RuntimeService
  import opened ControlPlane
  import UpdateFeed

  /** Nothing durable about `w` differs. */
  ghost predicate Unchanged(s: Store, w: WorkflowId, next: Store) {
    && (w in s.records <==> w in next.records) && (w in s.records ==> s.records[w] == next.records[w])
    && Of(s.events, w) == Of(next.events, w)
    && Of(s.plans, w) == Of(next.plans, w)
    && Of(s.audits, w) == Of(next.audits, w)
  }

  /** The newest update in the feed is about `w` and newer than anything before. */
  ghost predicate Announced(s: Service, w: WorkflowId, next: Service) {
    && s.feed.latest < next.feed.latest
    && next.feed.events != []
    && next.feed.events[|next.feed.events| - 1] == UpdateFeed.Update(next.feed.latest, w)
  }

  ghost predicate Tells(s: Service, next: Service) {
    && UpdateFeed.Retains(next.feed)
    && forall w :: w == "" || Unchanged(s.store, w, next.store) || Announced(s, w, next)
  }

  lemma PullTells(s: Service, h: nat, w: WorkflowId, stream: Stream, at: int, next: Service)
    requires UpdateFeed.Retains(s.feed) && stream.pending != [] && stream.workflow == w && next == Pull(s, h, stream, at)
    ensures Tells(s, next)
    ensures forall v :: v != w ==> Unchanged(s.store, v, next.store)
    ensures w != "" ==> Announced(s, w, next)
  {
    if w != "" { UpdateFeed.PublishRetains(s.feed, w); }
  }

  lemma AuditedTells(s: Service, w: WorkflowId, r: Record, at: int, audit: Audit, next: Service)
    requires UpdateFeed.Retains(s.feed) && next == Audited(s, w, r, at, audit)
    ensures Tells(s, next)
  {
    if w != "" { UpdateFeed.PublishRetains(s.feed, w); }
  }

  lemma OpenTells(engine: Engine, s: Service, req: SubmitRequest, now: int, header: Service)
    requires UpdateFeed.Retains(s.feed) && header == OpenSubmit(engine, s, req, now)
    ensures UpdateFeed.Retains(header.feed) && s.feed.latest <= header.feed.latest
    ensures forall v :: v != req.config.id ==> Unchanged(s.store, v, header.store)
  {
    if req.config.id != "" { UpdateFeed.PublishRetains(s.feed, req.config.id); }
  }

  lemma SubmitTells(engine: Engine, s: Service, req: SubmitRequest, now: int, at: int, next: Service)
    requires UpdateFeed.Retains(s.feed) && next == Submit(engine, s, req, now, at).0
    ensures Tells(s, next)
  {
    var w := req.config.id;
    if Replayed(s.store, req.key, req.fingerprint, w, SUBMIT_KEY_REUSED).None? {
      SubmitEndsWithResponse(engine, s.sessions, req);
      var header := OpenSubmit(engine, s, req, now);
      OpenTells(engine, s, req, now, header);
      PullTells(header, s.handles, w, SubmitStream(engine, s, req, now), at, next);
      forall v | v != w ensures Unchanged(s.store, v, next.store) {
        assert Unchanged(s.store, v, header.store) && Unchanged(header.store, v, next.store);
      }
    }
  }

  lemma ReorchestrateTells(engine: Engine, s: Service, req: ReorchestrateRequest, at: int, next: Service)
    requires UpdateFeed.Retains(s.feed) && next == Reorchestrate(engine, s, req, at).0
    ensures Tells(s, next)
  {
    var w := req.workflow;
    if Barred(s.store, req).None? {
      var ready := Hydrate(engine, s, w, req.auth);
      ReorchestrateGoesOn(engine, s, req, at, ready);
      if GoesOn(engine, s, req) {
        PullTells(OpenReorchestrate(engine, ready, req), s.handles, w, ReorchestrateStream(engine, ready, req), at, next);
      }
    }
  }

  lemma ControlledTells(s: Service, w: WorkflowId, c: Control, actor: string, reason: string, now: int, at: int, next: Service)
    requires UpdateFeed.Retains(s.feed) && next == Controlled(s, w, c, actor, reason, now, at)
    ensures Tells(s, next)
  {
    if w in s.store.records {
      var r := s.store.records[w].(state := ControlledState(c, s.store.records[w]), updatedAt := now);
      AuditedTells(s.(store := Touch(s.store, w, r)), w, r, at, ControlAudit(c, actor, reason), next);
    }
  }

  lemma RecoveredTells(engine: Engine, s: Service, w: WorkflowId, auth: string, at: int, next: Service)
    requires UpdateFeed.Retains(s.feed) && next == Recovered(engine, s, w, auth, at)
    ensures Tells(s, next)
  {
    if Recoverable(s, w) {
      var r := s.store.records[w].(updatedAt := at);
      AuditedTells(s, w, r, at, RECOVERY_AUDIT, Audited(s, w, r, at, RECOVERY_AUDIT));
    }
  }

  /** No step but a prune or a restart changes a workflow's record or history silently. */
  lemma StepTells(engine: Engine, s: Service, a: Action, next: Service)
    requires UpdateFeed.Retains(s.feed) && !a.Pruning? && !a.Restarting? && next == Step(engine, s, a)
    ensures Tells(s, next)
  {
    match a
    case Submitting(req, now, at) => SubmitTells(engine, s, req, now, at, next);
    case Reorchestrating(req, at) => ReorchestrateTells(engine, s, req, at, next);
    case Pulling(h, at) =>
      if h in s.streams && s.streams[h].pending != [] {
        PullTells(s, h, s.streams[h].workflow, s.streams[h], at, next);
      }
    case Dropping(h) =>
    case Controlling(w, c, actor, reason, now, at) => ControlledTells(s, w, c, actor, reason, now, at, next);
    case Noting(w, actor, note, at) =>
      if w in s.store.records {
        AuditedTells(s, w, s.store.records[w], at, NoteAudit(actor, note), next);
      }
    case Rehydrating(w, auth, at) => RecoveredTells(engine, s, w, auth, at, next);
  }
}
