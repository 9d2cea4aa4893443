/** What every run of the control plane keeps of a workflow's durable histories, whatever happens to
    other workflows. */
module ControlPlaneHistory {
  import opened Basics
  import opened Protocol
  import opened HistoryLog
  import opened WorkflowStore
  import opened RuntimeService
  import opened ControlPlane

  /** At most one stream of `w` is under way, and it works on the record as it is stored. */
  ghost predicate Linked(s: Service, w: WorkflowId) {
    && (forall h :: UnderWay(s, h, w) ==> w in s.store.records && s.streams[h].record == s.store.records[w])
    && (forall g, h :: UnderWay(s, g, w) && UnderWay(s, h, w) ==> g == h)
  }

  ghost predicate Sound(s: Service, w: WorkflowId) {
    HeadsKeptFor(s.store, w) && Linked(s, w)
  }

  /** No stream of `w` is under way. */
  ghost predicate Alone(s: Service, w: WorkflowId) {
    forall h :: !UnderWay(s, h, w)
  }

  /** The call (not a pull) rewrites the record of `w`. */
  predicate Rewrites(engine: Engine, s: Service, a: Action, w: WorkflowId) {
    match a
    case Submitting(req, _, _) => w == req.config.id && Replayed(s.store, req.key, req.fingerprint, w, SUBMIT_KEY_REUSED).None?
    case Reorchestrating(req, _) => w == req.workflow && GoesOn(engine, s, req)
    case Controlling(v, _, _, _, _, _) => w == v && v in s.store.records
    case Noting(v, _, _, _) => w == v && v in s.store.records
    case Rehydrating(v, _, _) => w == v && Recoverable(s, v)
    case _ => false
  }

  /** The call or pull writes rows or the record of `w`. */
  predicate Writes(engine: Engine, s: Service, a: Action, w: WorkflowId) {
    Rewrites(engine, s, a, w) || (a.Pulling? && UnderWay(s, a.handle, w))
  }

  /** If `w` is stored, it is submitted again only with `replace_existing` set. */
  predicate Replacing(engine: Engine, s: Service, a: Action, w: WorkflowId) {
    a.Submitting? && Rewrites(engine, s, a, w) && w in s.store.records ==> a.request.replaceExisting == Some(true)
  }

  /** In addition, a call rewrites the record of `w` only while no stream of `w` is under way. */
  ghost predicate Careful(engine: Engine, s: Service, a: Action, w: WorkflowId) {
    Replacing(engine, s, a, w) && (Rewrites(engine, s, a, w) ==> Alone(s, w))
  }

  /** The run is careful with `w`; what it does to other workflows does not matter. */
  ghost predicate CarefulRun(engine: Engine, s: Service, actions: seq<Action>, w: WorkflowId) {
    actions == [] || (var head := actions[..|actions| - 1];
                      CarefulRun(engine, s, head, w) && Careful(engine, Run(engine, s, head), actions[|actions| - 1], w))
  }

  /** The time under which a step writes its rows; `clock` for a step that writes none. */
  function TimeOf(a: Action, clock: int): int {
    match a
    case Submitting(_, _, at) => at
    case Reorchestrating(_, at) => at
    case Pulling(_, at) => at
    case Controlling(_, _, _, _, _, at) => at
    case Noting(_, _, _, at) => at
    case Rehydrating(_, _, at) => at
    case _ => clock
  }

  // ----- Steps that leave `w` alone -----

  ghost predicate Untouched(s: Service, w: WorkflowId, next: Service) {
    && SameFor(s.store, w, next.store)
    && (w in s.store.records <==> w in next.store.records)
    && (w in s.store.records ==> s.store.records[w] == next.store.records[w])
    && (forall h :: UnderWay(next, h, w) ==> UnderWay(s, h, w) && next.streams[h] == s.streams[h])
  }

  lemma UntouchedKeeps(s: Service, w: WorkflowId, at: int, next: Service)
    requires Sound(s, w) && Untouched(s, w, next)
    ensures Sound(next, w) && Progress(s.store, w, at, next.store)
  {
    GrowthKeeps(s.store, w, at, next.store);
  }

  lemma PullElsewhere(s: Service, h: nat, stream: Stream, at: int, w: WorkflowId, next: Service)
    requires stream.pending != [] && stream.workflow != w && next == Pull(s, h, stream, at)
    ensures Untouched(s, w, next)
  {
  }

  lemma SubmitElsewhere(engine: Engine, s: Service, req: SubmitRequest, now: int, at: int, w: WorkflowId, next: Service)
    requires !Rewrites(engine, s, Submitting(req, now, at), w) && next == Submit(engine, s, req, now, at).0
    ensures Untouched(s, w, next)
  {
    if Replayed(s.store, req.key, req.fingerprint, req.config.id, SUBMIT_KEY_REUSED).None? {
      SubmitEndsWithResponse(engine, s.sessions, req);
      var header := OpenSubmit(engine, s, req, now);
      assert Untouched(s, w, header);
      PullElsewhere(header, s.handles, SubmitStream(engine, s, req, now), at, w, next);
    }
  }

  lemma RefusedChangesLittle(engine: Engine, s: Service, req: ReorchestrateRequest, at: int, next: Service)
    requires !GoesOn(engine, s, req) && next == Reorchestrate(engine, s, req, at).0
    ensures next.store == s.store && next.streams == s.streams
  {
  }

  lemma ReorchestrateElsewhere(engine: Engine, s: Service, req: ReorchestrateRequest, at: int, w: WorkflowId, next: Service)
    requires !Rewrites(engine, s, Reorchestrating(req, at), w) && next == Reorchestrate(engine, s, req, at).0
    ensures Untouched(s, w, next)
  {
    if GoesOn(engine, s, req) {
      var ready := Hydrate(engine, s, req.workflow, req.auth);
      ReorchestrateGoesOn(engine, s, req, at, ready);
      var header := OpenReorchestrate(engine, ready, req);
      assert Untouched(s, w, header);
      PullElsewhere(header, s.handles, ReorchestrateStream(engine, ready, req), at, w, next);
    } else {
      RefusedChangesLittle(engine, s, req, at, next);
    }
  }

  lemma AuditedElsewhere(s: Service, v: WorkflowId, r: Record, at: int, audit: Audit, w: WorkflowId, next: Service)
    requires v != w && next == Audited(s, v, r, at, audit)
    ensures Untouched(s, w, next)
  {
  }

  lemma ControlledElsewhere(s: Service, v: WorkflowId, c: Control, actor: string, reason: string, now: int, at: int,
                            w: WorkflowId, next: Service)
    requires (v != w || v !in s.store.records) && next == Controlled(s, v, c, actor, reason, now, at)
    ensures Untouched(s, w, next)
  {
    if v in s.store.records {
      var r := s.store.records[v].(state := ControlledState(c, s.store.records[v]), updatedAt := now);
      AuditedElsewhere(s.(store := Touch(s.store, v, r)), v, r, at, ControlAudit(c, actor, reason), w, next);
    }
  }

  lemma RecoveredElsewhere(engine: Engine, s: Service, v: WorkflowId, auth: string, at: int, w: WorkflowId, next: Service)
    requires (v != w || !Recoverable(s, v)) && next == Recovered(engine, s, v, auth, at)
    ensures Untouched(s, w, next)
  {
    if Recoverable(s, v) {
      var r := s.store.records[v].(updatedAt := at);
      AuditedElsewhere(s, v, r, at, RECOVERY_AUDIT, w, Audited(s, v, r, at, RECOVERY_AUDIT));
    }
  }

  lemma ElsewhereIsUntouched(engine: Engine, s: Service, a: Action, w: WorkflowId, next: Service)
    requires !Writes(engine, s, a, w) && !a.Pruning? && !a.Restarting? && next == Step(engine, s, a)
    ensures Untouched(s, w, next)
  {
    match a
    case Submitting(req, now, at) => SubmitElsewhere(engine, s, req, now, at, w, next);
    case Reorchestrating(req, at) => ReorchestrateElsewhere(engine, s, req, at, w, next);
    case Pulling(h, at) =>
      if h in s.streams && s.streams[h].pending != [] {
        PullElsewhere(s, h, s.streams[h], at, w, next);
      }
    case Dropping(_) =>
    case Controlling(v, c, actor, reason, now, at) => ControlledElsewhere(s, v, c, actor, reason, now, at, w, next);
    case Noting(v, actor, note, at) =>
      if v in s.store.records {
        AuditedElsewhere(s, v, s.store.records[v], at, NoteAudit(actor, note), w, next);
      }
    case Rehydrating(v, auth, at) => RecoveredElsewhere(engine, s, v, auth, at, w, next);
  }

  // ----- Steps that write for `w` -----

  lemma PullKeeps(s: Service, h: nat, stream: Stream, at: int, w: WorkflowId, next: Service)
    requires Sound(s, w) && stream.workflow == w && stream.pending != [] && SameCounts(s.store, w, stream.record)
    requires forall g :: UnderWay(s, g, w) ==> g == h
    requires next == Pull(s, h, stream, at)
    ensures Sound(next, w) && Progress(s.store, w, at, next.store)
    ensures AppendsEvent(s.store, w, at, stream.pending[0], next.store)
  {
    var e := stream.pending[0];
    EventGrows(s.store, w, Advance(stream.record, e, at), at, e, stream.key, stream.fingerprint, next.store);
    assert forall g :: g != h ==> (UnderWay(next, g, w) <==> UnderWay(s, g, w));
  }

  /** A submission of `w` that does not restart its counters only appends to the store. */
  lemma SubmitAppends(engine: Engine, s: Service, req: SubmitRequest, now: int, at: int, w: WorkflowId,
                      header: Service, next: Service)
    requires w == req.config.id && HeadsKeptFor(s.store, w)
    requires w !in s.store.records || req.replaceExisting == Some(true)
    requires Replayed(s.store, req.key, req.fingerprint, w, SUBMIT_KEY_REUSED).None?
    requires header == OpenSubmit(engine, s, req, now) && next == Submit(engine, s, req, now, at).0
    ensures Progress(s.store, w, at, header.store) && Progress(s.store, w, at, next.store)
  {
    var stream := SubmitStream(engine, s, req, now);
    SubmitEndsWithResponse(engine, s.sessions, req);
    assert SameFor(s.store, w, header.store);
    GrowthKeeps(s.store, w, at, header.store);
    var e := stream.pending[0];
    EventGrows(header.store, w, Advance(stream.record, e, at), at, e, stream.key, stream.fingerprint, next.store);
    ProgressTransitive(s.store, w, at, header.store, next.store);
  }

  lemma SubmitKeeps(engine: Engine, s: Service, req: SubmitRequest, now: int, at: int, w: WorkflowId, next: Service)
    requires Sound(s, w) && Rewrites(engine, s, Submitting(req, now, at), w) && Careful(engine, s, Submitting(req, now, at), w)
    requires next == Submit(engine, s, req, now, at).0
    ensures Sound(next, w) && Progress(s.store, w, at, next.store)
  {
    SubmitEndsWithResponse(engine, s.sessions, req);
    var stream, header := SubmitStream(engine, s, req, now), OpenSubmit(engine, s, req, now);
    SubmitAppends(engine, s, req, now, at, w, header, next);
    assert forall h :: UnderWay(header, h, w) <==> UnderWay(s, h, w);
    PullKeeps(header, s.handles, stream, at, w, next);
  }

  lemma ReorchestrateKeeps(engine: Engine, s: Service, req: ReorchestrateRequest, at: int, w: WorkflowId, next: Service)
    requires Sound(s, w) && w == req.workflow && GoesOn(engine, s, req) && Alone(s, w)
    requires next == Reorchestrate(engine, s, req, at).0
    ensures Sound(next, w) && Progress(s.store, w, at, next.store)
  {
    var ready := Hydrate(engine, s, w, req.auth);
    ReorchestrateGoesOn(engine, s, req, at, ready);
    var header := OpenReorchestrate(engine, ready, req);
    assert forall h :: UnderWay(header, h, w) <==> UnderWay(s, h, w);
    PullKeeps(header, s.handles, ReorchestrateStream(engine, ready, req), at, w, next);
  }

  lemma AuditedKeeps(s: Service, w: WorkflowId, r: Record, at: int, audit: Audit, next: Service)
    requires Sound(s, w) && Alone(s, w) && SameCounts(s.store, w, r) && next == Audited(s, w, r, at, audit)
    ensures Sound(next, w) && Progress(s.store, w, at, next.store)
  {
    AuditGrows(s.store, w, r.(audits := r.audits + 1), at, audit, next.store);
    assert forall h :: UnderWay(next, h, w) <==> UnderWay(s, h, w);
  }

  lemma ControlledKeeps(s: Service, w: WorkflowId, c: Control, actor: string, reason: string, now: int, at: int, next: Service)
    requires Sound(s, w) && w in s.store.records && Alone(s, w) && next == Controlled(s, w, c, actor, reason, now, at)
    ensures Sound(next, w) && Progress(s.store, w, at, next.store)
  {
    var r := s.store.records[w].(state := ControlledState(c, s.store.records[w]), updatedAt := now);
    var touched := s.(store := Touch(s.store, w, r));
    assert SameFor(s.store, w, touched.store);
    GrowthKeeps(s.store, w, at, touched.store);
    assert forall h :: UnderWay(touched, h, w) <==> UnderWay(s, h, w);
    AuditedKeeps(touched, w, r, at, ControlAudit(c, actor, reason), next);
    ProgressTransitive(s.store, w, at, touched.store, next.store);
  }

  lemma RecoveredKeeps(engine: Engine, s: Service, w: WorkflowId, auth: string, at: int, next: Service)
    requires Sound(s, w) && Recoverable(s, w) && Alone(s, w) && next == Recovered(engine, s, w, auth, at)
    ensures Sound(next, w) && Progress(s.store, w, at, next.store)
  {
    var r := s.store.records[w].(updatedAt := at);
    var audited := Audited(s, w, r, at, RECOVERY_AUDIT);
    AuditedKeeps(s, w, r, at, RECOVERY_AUDIT, audited);
    assert forall h :: UnderWay(next, h, w) <==> UnderWay(audited, h, w);
  }

  lemma WritingKeeps(engine: Engine, s: Service, a: Action, w: WorkflowId, at: int, next: Service)
    requires Sound(s, w) && Writes(engine, s, a, w) && Careful(engine, s, a, w) && TimeOf(a, at) == at
    requires next == Step(engine, s, a)
    ensures Sound(next, w) && Progress(s.store, w, at, next.store)
  {
    match a
    case Submitting(req, now, _) => SubmitKeeps(engine, s, req, now, at, w, next);
    case Reorchestrating(req, _) => ReorchestrateKeeps(engine, s, req, at, w, next);
    case Pulling(h, _) => PullKeeps(s, h, s.streams[h], at, w, next);
    case Controlling(_, c, actor, reason, now, _) => ControlledKeeps(s, w, c, actor, reason, now, at, next);
    case Noting(_, actor, note, _) => AuditedKeeps(s, w, s.store.records[w], at, NoteAudit(actor, note), next);
    case Rehydrating(_, auth, _) => RecoveredKeeps(engine, s, w, auth, at, next);
  }

  /** Every step but pruning and restarting that is careful with `w` only appends to its histories, at its
      own time if it writes for `w`. */
  lemma StepKeeps(engine: Engine, s: Service, a: Action, w: WorkflowId, at: int, next: Service)
    requires Sound(s, w) && Careful(engine, s, a, w) && next == Step(engine, s, a) && !a.Pruning? && !a.Restarting?
    requires Writes(engine, s, a, w) ==> TimeOf(a, at) == at
    ensures Sound(next, w) && Progress(s.store, w, at, next.store)
  {
    if Writes(engine, s, a, w) {
      WritingKeeps(engine, s, a, w, at, next);
    } else {
      ElsewhereIsUntouched(engine, s, a, w, next);
      UntouchedKeeps(s, w, at, next);
    }
  }

  // ----- Prunes and restarts -----

  lemma PruneIsSound(s: Service, w: WorkflowId, before: int, next: Service)
    requires Sound(s, w) && next == s.(store := Prune(s.store, before))
    ensures Sound(next, w)
  {
    WorkflowStore.PruneKeeps(s.store, w, before);
    assert forall h :: UnderWay(next, h, w) <==> UnderWay(s, h, w);
  }

  lemma RestartIsSound(s: Service, w: WorkflowId, boot: string, next: Service)
    requires HeadsKeptFor(s.store, w) && next == Fresh(s.store.(boot := boot), s.feed.limit)
    ensures Sound(next, w) && HistoryStaysFor(s.store, w, next.store)
    ensures ExactFor(s.store, w) ==> ExactFor(next.store, w)
    ensures SuffixFor(s.store, w) ==> SuffixFor(next.store, w)
  {
    assert Of(next.store.events, w) == Of(s.store.events, w) && Of(next.store.plans, w) == Of(s.store.plans, w);
  }

  ghost predicate NoRowOf<T(!new)>(rows: Rows<T>, boot: string) {
    forall k :: k in rows ==> rows[k].boot != boot
  }

  /** No history row of `w` was written under this boot id. */
  ghost predicate BootIsNew(s: Store, w: WorkflowId, boot: string) {
    && NoRowOf(Of(s.events, w), boot)
    && NoRowOf(Of(s.plans, w), boot)
    && NoRowOf(Of(s.audits, w), boot)
  }

  lemma StretchReboots<T(!new)>(rows: Rows<T>, count: nat, boot: string, next: string, clock: int)
    requires Stretch(rows, count, boot, clock) && NoRowOf(rows, next)
    ensures Stretch(rows, count, next, clock)
  {
    RebootChronological(rows, boot, next, clock);
  }

  lemma RestartIsContiguous(s: Store, w: WorkflowId, boot: string, clock: int, next: Store)
    requires ContiguousFor(s, w, clock) && (boot == s.boot || BootIsNew(s, w, boot)) && next == s.(boot := boot)
    ensures ContiguousFor(next, w, clock)
  {
    if boot != s.boot {
      StretchReboots(Of(s.events, w), EventCount(s, w), s.boot, boot, clock);
      StretchReboots(Of(s.plans, w), PlanCount(s, w), s.boot, boot, clock);
      StretchReboots(Of(s.audits, w), AuditCount(s, w), s.boot, boot, clock);
    }
  }

  lemma AnyStepIsSound(engine: Engine, s: Service, a: Action, w: WorkflowId, next: Service)
    requires Sound(s, w) && Careful(engine, s, a, w) && next == Step(engine, s, a)
    ensures Sound(next, w)
  {
    if a.Pruning? {
      PruneIsSound(s, w, a.before, next);
    } else if a.Restarting? {
      RestartIsSound(s, w, a.boot, next);
    } else {
      StepKeeps(engine, s, a, w, TimeOf(a, 0), next);
    }
  }

  // ----- Runs -----

  /** Whatever is interleaved, the newest event, plan and audit of the workflow is in the store. */
  lemma {:induction false} RunKeepsHeads(engine: Engine, s: Service, actions: seq<Action>, w: WorkflowId)
    requires Sound(s, w) && CarefulRun(engine, s, actions, w)
    ensures Sound(Run(engine, s, actions), w)
  {
    if actions != [] {
      var head, last := actions[..|actions| - 1], actions[|actions| - 1];
      RunKeepsHeads(engine, s, head, w);
      AnyStepIsSound(engine, Run(engine, s, head), last, w, Run(engine, s, actions));
    }
  }

  lemma UnprunedStepIsExact(engine: Engine, s: Service, a: Action, w: WorkflowId, next: Service)
    requires Sound(s, w) && ExactFor(s.store, w) && Careful(engine, s, a, w) && !a.Pruning? && next == Step(engine, s, a)
    ensures ExactFor(next.store, w) && HistoryStaysFor(s.store, w, next.store)
  {
    if a.Restarting? {
      RestartIsSound(s, w, a.boot, next);
    } else {
      StepKeeps(engine, s, a, w, TimeOf(a, 0), next);
    }
  }

  /** Without a prune, the histories are exactly `1..counter`, plan versions are the fully ok responses
      in order, and nothing that was written is ever changed. */
  lemma {:induction false} RunIsExact(engine: Engine, s: Service, actions: seq<Action>, w: WorkflowId)
    requires Sound(s, w) && ExactFor(s.store, w) && CarefulRun(engine, s, actions, w)
    requires forall i :: 0 <= i < |actions| ==> !actions[i].Pruning?
    ensures ExactFor(Run(engine, s, actions).store, w)
    ensures HistoryStaysFor(s.store, w, Run(engine, s, actions).store)
  {
    if actions != [] {
      var head, last := actions[..|actions| - 1], actions[|actions| - 1];
      RunIsExact(engine, s, head, w);
      RunKeepsHeads(engine, s, head, w);
      var before, after := Run(engine, s, head), Run(engine, s, actions);
      UnprunedStepIsExact(engine, before, last, w, after);
      HistoryStaysTransitive(s.store, w, before.store, after.store);
    }
  }

  /** The time of the last write for `w`. */
  function ClockAfter(engine: Engine, s: Service, actions: seq<Action>, w: WorkflowId, clock: int): int {
    if actions == [] then clock
    else
      var head, last := actions[..|actions| - 1], actions[|actions| - 1];
      if Writes(engine, Run(engine, s, head), last, w) then TimeOf(last, clock) else ClockAfter(engine, s, head, w, clock)
  }

  /** The clock does not go back between writes for `w`, and a restart is under the current boot id or one
      under which no row of `w` was written. */
  ghost predicate TidyRun(engine: Engine, s: Service, actions: seq<Action>, w: WorkflowId, clock: int) {
    actions == [] || (var head, last := actions[..|actions| - 1], actions[|actions| - 1];
                      && TidyRun(engine, s, head, w, clock)
                      && ClockAfter(engine, s, head, w, clock) <= ClockAfter(engine, s, actions, w, clock)
                      && (last.Restarting? ==>
                            var store := Run(engine, s, head).store;
                            last.boot == store.boot || BootIsNew(store, w, last.boot)))
  }

  lemma StepIsContiguous(engine: Engine, s: Service, a: Action, w: WorkflowId, clock: int, at: int, next: Service)
    requires Sound(s, w) && ContiguousFor(s.store, w, clock) && Careful(engine, s, a, w) && next == Step(engine, s, a)
    requires clock <= at && at == if Writes(engine, s, a, w) then TimeOf(a, clock) else clock
    requires a.Restarting? ==> a.boot == s.store.boot || BootIsNew(s.store, w, a.boot)
    ensures ContiguousFor(next.store, w, at)
  {
    if a.Pruning? {
      PruneContiguous(s.store, w, a.before, clock);
    } else if a.Restarting? {
      RestartIsContiguous(s.store, w, a.boot, clock, next.store);
    } else {
      StepKeeps(engine, s, a, w, at, next);
    }
  }

  /** With prunes anywhere in the run, what is retained is a contiguous stretch that ends at the counter. */
  lemma {:induction false} RunIsContiguous(engine: Engine, s: Service, actions: seq<Action>, w: WorkflowId, clock: int)
    requires Sound(s, w) && ContiguousFor(s.store, w, clock)
    requires CarefulRun(engine, s, actions, w) && TidyRun(engine, s, actions, w, clock)
    ensures ContiguousFor(Run(engine, s, actions).store, w, ClockAfter(engine, s, actions, w, clock))
  {
    if actions != [] {
      var head, last := actions[..|actions| - 1], actions[|actions| - 1];
      RunIsContiguous(engine, s, head, w, clock);
      RunKeepsHeads(engine, s, head, w);
      var time, at := ClockAfter(engine, s, head, w, clock), ClockAfter(engine, s, actions, w, clock);
      TimeOfWrite(engine, Run(engine, s, head), last, w, time, clock);
      StepIsContiguous(engine, Run(engine, s, head), last, w, time, at, Run(engine, s, actions));
    }
  }

  /** A step that writes has a time of its own. */
  lemma TimeOfWrite(engine: Engine, s: Service, a: Action, w: WorkflowId, time: int, clock: int)
    ensures Writes(engine, s, a, w) ==> TimeOf(a, time) == TimeOf(a, clock)
  {
  }

  /** Prunes happen only where in every history of `w` old rows come first. */
  ghost predicate OldestFirstRun(engine: Engine, s: Service, actions: seq<Action>, w: WorkflowId) {
    actions == [] || (var head, last := actions[..|actions| - 1], actions[|actions| - 1];
                      && OldestFirstRun(engine, s, head, w)
                      && (last.Pruning? ==> OldestFirstFor(Run(engine, s, head).store, w)))
  }

  lemma StepKeepsSuffix(engine: Engine, s: Service, a: Action, w: WorkflowId, next: Service)
    requires Sound(s, w) && SuffixFor(s.store, w) && Careful(engine, s, a, w) && next == Step(engine, s, a)
    requires a.Pruning? ==> OldestFirstFor(s.store, w)
    ensures SuffixFor(next.store, w)
  {
    if a.Pruning? {
      PruneSuffixForIff(s.store, w);
    } else if a.Restarting? {
      RestartIsSound(s, w, a.boot, next);
    } else {
      StepKeeps(engine, s, a, w, TimeOf(a, 0), next);
    }
  }

  /** Whatever the clock does, gaps come only from a prune of a history that is not in that order. */
  lemma {:induction false} RunKeepsSuffixes(engine: Engine, s: Service, actions: seq<Action>, w: WorkflowId)
    requires Sound(s, w) && SuffixFor(s.store, w)
    requires CarefulRun(engine, s, actions, w) && OldestFirstRun(engine, s, actions, w)
    ensures SuffixFor(Run(engine, s, actions).store, w)
  {
    if actions != [] {
      var head, last := actions[..|actions| - 1], actions[|actions| - 1];
      RunKeepsSuffixes(engine, s, head, w);
      RunKeepsHeads(engine, s, head, w);
      StepKeepsSuffix(engine, Run(engine, s, head), last, w, Run(engine, s, actions));
    }
  }

  /** A process on a new store meets every hypothesis above. */
  lemma EmptyStoreIsExact(boot: string, retained: nat, w: WorkflowId, clock: int)
    ensures var s := Fresh(EmptyStore(boot), retained);
            Sound(s, w) && ExactFor(s.store, w) && SuffixFor(s.store, w) && ContiguousFor(s.store, w, clock)
  {
  }

  /** So from a new store every careful run without a prune leaves every history of every workflow it is
      careful with complete. */
  lemma NewStoreStaysExact(engine: Engine, boot: string, retained: nat, actions: seq<Action>)
    requires forall i :: 0 <= i < |actions| ==> !actions[i].Pruning?
    ensures forall w :: CarefulRun(engine, Fresh(EmptyStore(boot), retained), actions, w) ==>
              ExactFor(Run(engine, Fresh(EmptyStore(boot), retained), actions).store, w)
  {
    var s := Fresh(EmptyStore(boot), retained);
    forall w | CarefulRun(engine, s, actions, w) ensures ExactFor(Run(engine, s, actions).store, w) {
      EmptyStoreIsExact(boot, retained, w, 0);
      RunIsExact(engine, s, actions, w);
    }
  }
}
