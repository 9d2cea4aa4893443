/** What the idempotency table promises over runs of the control plane. */
module Idempotency {
  import opened Basics
  import opened Protocol
  import opened WorkflowStore
  import opened RuntimeService
  import opened ControlPlane

  /** A stream that will still record a response under `key`. */
  predicate Holds(s: Service, h: nat, key: string) {
    key != "" && h in s.streams && s.streams[h].key == key && s.streams[h].pending != []
  }

  /** The rest of an open stream ends with its only response. */
  ghost predicate StreamsEnd(s: Service) {
    forall h :: h in s.streams && s.streams[h].pending != [] ==> EndsWithResponse(s.streams[h].pending)
  }

  lemma PullKeepsStreams(s: Service, h: nat, stream: Stream, at: int, next: Service)
    requires StreamsEnd(s) && HandlesUsed(s) && h < s.handles && EndsWithResponse(stream.pending) && next == Pull(s, h, stream, at)
    ensures StreamsEnd(next) && HandlesUsed(next)
  {
    var rest := stream.pending[1..];
    assert rest != [] ==> EndsWithResponse(rest);
  }

  lemma SubmitKeepsStreams(engine: Engine, s: Service, req: SubmitRequest, now: int, at: int, next: Service)
    requires StreamsEnd(s) && HandlesUsed(s) && next == Submit(engine, s, req, now, at).0
    ensures StreamsEnd(next) && HandlesUsed(next)
  {
    if Replayed(s.store, req.key, req.fingerprint, req.config.id, SUBMIT_KEY_REUSED).None? {
      SubmitEndsWithResponse(engine, s.sessions, req);
      PullKeepsStreams(OpenSubmit(engine, s, req, now), s.handles, SubmitStream(engine, s, req, now), at, next);
    }
  }

  lemma ReorchestrateKeepsStreams(engine: Engine, s: Service, req: ReorchestrateRequest, at: int, next: Service)
    requires StreamsEnd(s) && HandlesUsed(s) && next == Reorchestrate(engine, s, req, at).0
    ensures StreamsEnd(next) && HandlesUsed(next)
  {
    if GoesOn(engine, s, req) {
      var ready := Hydrate(engine, s, req.workflow, req.auth);
      ReorchestrateGoesOn(engine, s, req, at, ready);
      PullKeepsStreams(OpenReorchestrate(engine, ready, req), s.handles, ReorchestrateStream(engine, ready, req), at, next);
    }
  }

  lemma StepKeepsStreams(engine: Engine, s: Service, a: Action, next: Service)
    requires StreamsEnd(s) && HandlesUsed(s) && next == Step(engine, s, a)
    ensures StreamsEnd(next) && HandlesUsed(next)
  {
    match a
    case Submitting(req, now, at) => SubmitKeepsStreams(engine, s, req, now, at, next);
    case Reorchestrating(req, at) => ReorchestrateKeepsStreams(engine, s, req, at, next);
    case Pulling(h, at) =>
      if h in s.streams && s.streams[h].pending != [] {
        PullKeepsStreams(s, h, s.streams[h], at, next);
      }
    case _ =>
  }

  /** Over every run, whatever the keys, each open stream has its own handle and ends with its only response. */
  lemma {:induction false} RunKeepsStreams(engine: Engine, s: Service, actions: seq<Action>)
    requires StreamsEnd(s) && HandlesUsed(s)
    ensures StreamsEnd(Run(engine, s, actions)) && HandlesUsed(Run(engine, s, actions))
  {
    if actions != [] {
      var n := |actions| - 1;
      RunKeepsStreams(engine, s, actions[..n]);
      StepKeepsStreams(engine, Run(engine, s, actions[..n]), actions[n], Run(engine, s, actions));
    }
  }

  /** A key is recorded or held by one open stream, not both. */
  ghost predicate KeysApart(s: Service) {
    && (forall h, key :: Holds(s, h, key) ==> key !in s.store.idempotency)
    && (forall g, h, key :: Holds(s, g, key) && Holds(s, h, key) ==> g == h)
  }

  ghost predicate Orderly(s: Service) {
    StreamsEnd(s) && KeysApart(s) && HandlesUsed(s)
  }

  /** The key of a request that reaches the runtime. */
  function KeyOf(engine: Engine, s: Service, a: Action): string {
    match a
    case Submitting(req, _, _) =>
      if Replayed(s.store, req.key, req.fingerprint, req.config.id, SUBMIT_KEY_REUSED).None? then req.key else ""
    case Reorchestrating(req, _) => if GoesOn(engine, s, req) then req.key else ""
    case _ => ""
  }

  /** No stream is under way with this key. */
  ghost predicate KeyIsFree(s: Service, key: string) {
    forall h :: !Holds(s, h, key)
  }

  /** The step does not prune the row of this key. */
  predicate Spares(s: Service, a: Action, key: string) {
    a.Pruning? && key in s.store.idempotency ==>
      s.store.idempotency[key].boot == s.store.boot || a.before <= s.store.idempotency[key].recordedAt
  }

  /** Whatever was recorded under a key is there, unchanged. */
  ghost predicate KeyStays(s: Service, next: Service, key: string) {
    key in s.store.idempotency ==>
      key in next.store.idempotency && next.store.idempotency[key] == s.store.idempotency[key]
  }

  /** A response that is handed out under a new key is the one recorded under it. */
  lemma PullKeepsKeys(s: Service, h: nat, stream: Stream, at: int, next: Service)
    requires Orderly(s) && EndsWithResponse(stream.pending) && h < s.handles
    requires stream.key != "" ==> stream.key !in s.store.idempotency
                                  && forall g :: Holds(s, g, stream.key) ==> g == h
    requires next == Pull(s, h, stream, at)
    ensures Orderly(next) && forall key :: KeyStays(s, next, key)
    ensures stream.key != "" && stream.pending[0].response.Some? ==>
              stream.key in next.store.idempotency
              && next.store.idempotency[stream.key].response == stream.pending[0].response.value
              && next.store.idempotency[stream.key].fingerprint == stream.fingerprint
  {
    var rest := stream.pending[1..];
    assert rest != [] ==> EndsWithResponse(rest);
    forall g, key | Holds(next, g, key) ensures key !in next.store.idempotency && (g != h ==> Holds(s, g, key)) {
      if g != h { assert Holds(s, g, key); }
    }
  }

  /** Ending streams and pruning rows leaves the keys apart. */
  lemma FewerKeepsKeys(s: Service, next: Service)
    requires Orderly(s) && s.handles <= next.handles
    requires forall h :: h in next.streams ==> h in s.streams && next.streams[h] == s.streams[h]
    requires forall k :: k in next.store.idempotency ==> k in s.store.idempotency
    ensures Orderly(next)
  {
    assert forall h, key :: Holds(next, h, key) ==> Holds(s, h, key);
  }

  /** The first pull on a new stream keeps the keys apart exactly when no stream under way has its key. */
  lemma OpeningKeepsKeysIff(s: Service, header: Service, stream: Stream, at: int, next: Service)
    requires Orderly(s) && EndsWithResponse(stream.pending)
    requires stream.key != "" ==> stream.key !in s.store.idempotency
    requires header.streams == s.streams && header.handles == s.handles + 1
    requires header.store.idempotency == s.store.idempotency && next == Pull(header, s.handles, stream, at)
    ensures Orderly(next) <==> KeyIsFree(s, stream.key)
    ensures KeyIsFree(s, stream.key) ==> forall key :: KeyStays(s, next, key)
  {
    if KeyIsFree(s, stream.key) {
      FewerKeepsKeys(s, header);
      assert forall g, key :: Holds(header, g, key) <==> Holds(s, g, key);
      PullKeepsKeys(header, s.handles, stream, at, next);
    } else {
      var g :| Holds(s, g, stream.key);
      assert Holds(next, g, stream.key);
      assert stream.pending[0].response.None? ==> Holds(next, s.handles, stream.key);
    }
  }

  /** The same for a submission, and for a re-orchestration that reaches the runtime. */
  lemma SubmitKeepsKeysIff(engine: Engine, s: Service, req: SubmitRequest, now: int, at: int, next: Service)
    requires Orderly(s) && next == Submit(engine, s, req, now, at).0
    requires Replayed(s.store, req.key, req.fingerprint, req.config.id, SUBMIT_KEY_REUSED).None?
    ensures Orderly(next) <==> KeyIsFree(s, req.key)
    ensures KeyIsFree(s, req.key) ==> forall key :: KeyStays(s, next, key)
  {
    SubmitEndsWithResponse(engine, s.sessions, req);
    OpeningKeepsKeysIff(s, OpenSubmit(engine, s, req, now), SubmitStream(engine, s, req, now), at, next);
  }

  lemma ReorchestrateKeepsKeysIff(engine: Engine, s: Service, req: ReorchestrateRequest, at: int, next: Service)
    requires Orderly(s) && GoesOn(engine, s, req) && next == Reorchestrate(engine, s, req, at).0
    ensures Orderly(next) <==> KeyIsFree(s, req.key)
    ensures KeyIsFree(s, req.key) ==> forall key :: KeyStays(s, next, key)
  {
    var ready := Hydrate(engine, s, req.workflow, req.auth);
    ReorchestrateGoesOn(engine, s, req, at, ready);
    OpeningKeepsKeysIff(s, OpenReorchestrate(engine, ready, req), ReorchestrateStream(engine, ready, req), at, next);
  }

  lemma PullingKeepsKeys(s: Service, h: nat, at: int, next: Service)
    requires Orderly(s) && h in s.streams && s.streams[h].pending != [] && next == Pull(s, h, s.streams[h], at)
    ensures Orderly(next) && forall key :: KeyStays(s, next, key)
  {
    var stream := s.streams[h];
    assert stream.key != "" ==> Holds(s, h, stream.key);
    PullKeepsKeys(s, h, stream, at, next);
  }

  /** A step that opens no stream. */
  lemma OtherStepKeepsKeys(engine: Engine, s: Service, a: Action, next: Service)
    requires Orderly(s) && !a.Submitting? && !a.Reorchestrating? && next == Step(engine, s, a)
    ensures Orderly(next) && forall key :: Spares(s, a, key) ==> KeyStays(s, next, key)
  {
    if a.Pulling? && a.handle in s.streams && s.streams[a.handle].pending != [] {
      PullingKeepsKeys(s, a.handle, a.at, next);
    } else if !a.Restarting? {
      FewerKeepsKeys(s, next);
    }
  }

  /** Exactly when a step keeps the keys apart: when the key of a request that reaches the runtime is
      held by no stream under way. Then no recorded row changes unless a prune takes it. */
  lemma StepKeepsKeysIff(engine: Engine, s: Service, a: Action, next: Service)
    requires Orderly(s) && next == Step(engine, s, a)
    ensures Orderly(next) <==> KeyIsFree(s, KeyOf(engine, s, a))
    ensures Orderly(next) ==> forall key :: Spares(s, a, key) ==> KeyStays(s, next, key)
  {
    match a
    case Submitting(req, now, at) =>
      if Replayed(s.store, req.key, req.fingerprint, req.config.id, SUBMIT_KEY_REUSED).None? {
        SubmitKeepsKeysIff(engine, s, req, now, at, next);
      }
    case Reorchestrating(req, at) =>
      if GoesOn(engine, s, req) {
        ReorchestrateKeepsKeysIff(engine, s, req, at, next);
      } else {
        RefusedKeepsKeys(engine, s, req, at, next);
      }
    case _ => OtherStepKeepsKeys(engine, s, a, next);
  }

  lemma RefusedKeepsKeys(engine: Engine, s: Service, req: ReorchestrateRequest, at: int, next: Service)
    requires Orderly(s) && !GoesOn(engine, s, req) && next == Reorchestrate(engine, s, req, at).0
    ensures Orderly(next) && forall key :: KeyStays(s, next, key)
  {
    FewerKeepsKeys(s, next);
  }

  ghost predicate OrderlyRun(engine: Engine, s: Service, actions: seq<Action>) {
    actions == [] || (var head := actions[..|actions| - 1];
                      OrderlyRun(engine, s, head)
                      && KeyIsFree(Run(engine, s, head), KeyOf(engine, Run(engine, s, head), actions[|actions| - 1])))
  }

  lemma {:induction false} RunKeepsKeys(engine: Engine, s: Service, actions: seq<Action>)
    requires Orderly(s) && OrderlyRun(engine, s, actions)
    ensures Orderly(Run(engine, s, actions))
  {
    if actions != [] {
      var head, last := actions[..|actions| - 1], actions[|actions| - 1];
      RunKeepsKeys(engine, s, head);
      StepKeepsKeysIff(engine, Run(engine, s, head), last, Run(engine, s, actions));
    }
  }

  // ----- one key over a run -----

  /** No step of the run prunes the row of this key. */
  predicate SparingRun(engine: Engine, s: Service, actions: seq<Action>, key: string) {
    actions == [] || (var head := actions[..|actions| - 1];
                      SparingRun(engine, s, head, key) && Spares(Run(engine, s, head), actions[|actions| - 1], key))
  }

  /** The key is recorded, and no stream that is under way will record it again. */
  ghost predicate Settled(s: Service, key: string) {
    key != "" && key in s.store.idempotency && KeyIsFree(s, key)
  }

  /** A pull on a stream with another key, or with none. */
  lemma PullKeepsSettled(s: Service, h: nat, stream: Stream, at: int, key: string, next: Service)
    requires Settled(s, key) && stream.pending != [] && stream.key != key && next == Pull(s, h, stream, at)
    ensures Settled(next, key) && KeyStays(s, next, key)
  {
    forall g ensures !Holds(next, g, key) {
      assert !Holds(s, g, key);
    }
  }

  lemma SubmitKeepsSettled(engine: Engine, s: Service, req: SubmitRequest, now: int, at: int, key: string, next: Service)
    requires Settled(s, key) && next == Submit(engine, s, req, now, at).0
    ensures Settled(next, key) && KeyStays(s, next, key)
  {
    if Replayed(s.store, req.key, req.fingerprint, req.config.id, SUBMIT_KEY_REUSED).None? {
      SubmitEndsWithResponse(engine, s.sessions, req);
      var header := OpenSubmit(engine, s, req, now);
      assert forall g :: Holds(header, g, key) <==> Holds(s, g, key);
      PullKeepsSettled(header, s.handles, SubmitStream(engine, s, req, now), at, key, next);
    }
  }

  lemma ReorchestrateKeepsSettled(engine: Engine, s: Service, req: ReorchestrateRequest, at: int, key: string, next: Service)
    requires Settled(s, key) && next == Reorchestrate(engine, s, req, at).0
    ensures Settled(next, key) && KeyStays(s, next, key)
  {
    if GoesOn(engine, s, req) {
      var ready := Hydrate(engine, s, req.workflow, req.auth);
      ReorchestrateGoesOn(engine, s, req, at, ready);
      var header := OpenReorchestrate(engine, ready, req);
      assert forall g :: Holds(header, g, key) <==> Holds(s, g, key);
      PullKeepsSettled(header, s.handles, ReorchestrateStream(engine, ready, req), at, key, next);
    } else {
      assert next.store == s.store && next.streams == s.streams;
      assert forall g :: Holds(next, g, key) <==> Holds(s, g, key);
    }
  }

  /** Whatever the step is, and whatever other keys it mixes up. */
  lemma StepKeepsSettled(engine: Engine, s: Service, a: Action, key: string, next: Service)
    requires Settled(s, key) && Spares(s, a, key) && next == Step(engine, s, a)
    ensures Settled(next, key) && KeyStays(s, next, key)
  {
    match a
    case Submitting(req, now, at) => SubmitKeepsSettled(engine, s, req, now, at, key, next);
    case Reorchestrating(req, at) => ReorchestrateKeepsSettled(engine, s, req, at, key, next);
    case Pulling(h, at) =>
      if h in s.streams && s.streams[h].pending != [] {
        assert !Holds(s, h, key);
        PullKeepsSettled(s, h, s.streams[h], at, key, next);
      } else {
        assert forall g :: Holds(next, g, key) ==> Holds(s, g, key);
      }
    case _ =>
      assert forall g :: Holds(next, g, key) ==> Holds(s, g, key);
  }

  /** The row of a settled key is never rewritten: until it is pruned it is the same after any run. */
  lemma {:induction false} RecordedKeyStays(engine: Engine, s: Service, actions: seq<Action>, key: string)
    requires Settled(s, key) && SparingRun(engine, s, actions, key)
    ensures Settled(Run(engine, s, actions), key) && KeyStays(s, Run(engine, s, actions), key)
  {
    if actions != [] {
      var head, last := actions[..|actions| - 1], actions[|actions| - 1];
      RecordedKeyStays(engine, s, head, key);
      StepKeepsSettled(engine, Run(engine, s, head), last, key, Run(engine, s, actions));
    }
  }

  /** Pulling a stream to its end records its response at the time of the last pull. */
  lemma {:induction false} PullsRecord(engine: Engine, s: Service, h: nat, key: string, at: int, n: nat) returns (actions: seq<Action>)
    requires Holds(s, h, key) && EndsWithResponse(s.streams[h].pending) && n == |s.streams[h].pending|
    ensures |actions| == n && forall i :: 0 <= i < n ==> actions[i] == Pulling(h, at)
    ensures var end := Run(engine, s, actions);
            key in end.store.idempotency && end.store.idempotency[key].recordedAt == at
    decreases n
  {
    var next := Step(engine, s, Pulling(h, at));
    if n == 1 {
      actions := [Pulling(h, at)];
      RunOneMore(engine, s, [], Pulling(h, at));
      assert [] + actions == actions;
    } else {
      assert EndsWithResponse(next.streams[h].pending);
      var rest := PullsRecord(engine, next, h, key, at, n - 1);
      actions := [Pulling(h, at)] + rest;
      RunOneMore(engine, s, [], Pulling(h, at));
      assert [] + [Pulling(h, at)] == [Pulling(h, at)];
      RunAppend(engine, s, [Pulling(h, at)], rest);
    }
  }

  lemma {:induction false} PullsAreSparing(engine: Engine, s: Service, actions: seq<Action>, key: string)
    requires forall i :: 0 <= i < |actions| ==> actions[i].Pulling?
    ensures SparingRun(engine, s, actions, key)
  {
    if actions != [] {
      PullsAreSparing(engine, s, actions[..|actions| - 1], key);
    }
  }

  /** The row outlasts every run that does not prune it. */
  ghost predicate AlwaysStays(engine: Engine, s: Service, key: string) {
    forall actions :: SparingRun(engine, s, actions, key) ==> KeyStays(s, Run(engine, s, actions), key)
  }

  /** Exactly when a recorded row outlasts every run that does not prune it: when no stream under way holds
      its key at the start. */
  lemma RecordedKeyStaysIff(engine: Engine, s: Service, key: string)
    requires key != "" && key in s.store.idempotency && StreamsEnd(s)
    ensures AlwaysStays(engine, s, key) <==> KeyIsFree(s, key)
  {
    if KeyIsFree(s, key) {
      forall actions | SparingRun(engine, s, actions, key) ensures KeyStays(s, Run(engine, s, actions), key) {
        RecordedKeyStays(engine, s, actions, key);
      }
    } else {
      var h :| Holds(s, h, key);
      var at := s.store.idempotency[key].recordedAt + 1;
      var actions := PullsRecord(engine, s, h, key, at, |s.streams[h].pending|);
      PullsAreSparing(engine, s, actions, key);
      assert !KeyStays(s, Run(engine, s, actions), key);
    }
  }

  /** Once a key holds a response that no stream under way will replace, a submit with it changes nothing at
      all, however much later and whatever happens to other keys: the same payload gets that response again
      and any other payload is rejected. */
  lemma SubmitIsIdempotent(engine: Engine, s: Service, actions: seq<Action>, req: SubmitRequest, now: int, at: int)
    requires Settled(s, req.key) && SparingRun(engine, s, actions, req.key)
    ensures var end := Run(engine, s, actions);
            var recorded := s.store.idempotency[req.key];
            var (after, event) := Submit(engine, end, req, now, at);
            && after == end
            && (recorded.fingerprint == req.fingerprint ==>
                  event.kind == RunFinished && event.response == Some(recorded.response))
            && (recorded.fingerprint != req.fingerprint ==>
                  event.kind == RequestRejected && event.response == Some(ErrorResponse(SUBMIT_KEY_REUSED)))
  {
    RecordedKeyStays(engine, s, actions, req.key);
  }

  /** The pull that records a key settles it, in a state that keeps keys apart. */
  lemma RecordingSettles(s: Service, h: nat, stream: Stream, at: int, next: Service)
    requires Orderly(s) && EndsWithResponse(stream.pending) && stream.pending[0].response.Some? && h < s.handles
    requires stream.key != "" && stream.key !in s.store.idempotency && forall g :: Holds(s, g, stream.key) ==> g == h
    requires next == Pull(s, h, stream, at)
    ensures Settled(next, stream.key)
    ensures next.store.idempotency[stream.key].response == stream.pending[0].response.value
  {
    PullKeepsKeys(s, h, stream, at, next);
    assert next.streams[h].pending == [];
  }

  /** Of two streams under way with one key, the later response replaces the earlier one. */
  lemma OverlappingStreamsRewrite(engine: Engine, s: Service, g: nat, h: nat, key: string, at: int, first: Service, second: Service)
    requires g != h && Holds(s, g, key) && Holds(s, h, key)
    requires s.streams[g].pending[0].response.Some? && s.streams[h].pending[0].response.Some?
    requires first == Step(engine, s, Pulling(g, at)) && second == Step(engine, first, Pulling(h, at))
    ensures key in first.store.idempotency && first.store.idempotency[key].workflow == s.streams[g].workflow
    ensures key in second.store.idempotency && second.store.idempotency[key].workflow == s.streams[h].workflow
  {
  }

  /** An accepted submission whose plan is empty has three events, of which the first is recorded. */
  lemma ThreeEvents(engine: Engine, s: Service, req: SubmitRequest, at: int, next: Service)
    requires engine.authorize(req.auth).None? && engine.optimize(req.config).assignments == []
    requires Replaces(req) && req.key != "" && req.key !in s.store.idempotency
    requires next == Step(engine, s, Submitting(req, at, at))
    ensures next.store.idempotency == s.store.idempotency && next.handles == s.handles + 1
    ensures var pending := SubmitEvents(engine, s.sessions, req)[1..];
            && next.streams.Keys == s.streams.Keys + {s.handles}
            && (forall h :: h in s.streams && h != s.handles ==> next.streams[h] == s.streams[h])
            && next.streams[s.handles].key == req.key && next.streams[s.handles].workflow == req.config.id
            && next.streams[s.handles].pending == pending
            && |pending| == 2 && pending[0].response.None? && pending[1].response.Some?
  {
    SubmitEndsWithResponse(engine, s.sessions, req);
  }

  /** A pull on an event without a response leaves the table and the other streams alone. */
  lemma QuietPull(engine: Engine, s: Service, h: nat, at: int, next: Service)
    requires h in s.streams && s.streams[h].pending != [] && s.streams[h].pending[0].response.None?
    requires next == Step(engine, s, Pulling(h, at))
    ensures next.store.idempotency == s.store.idempotency && next.streams.Keys == s.streams.Keys
    ensures forall g :: g in s.streams && g != h ==> next.streams[g] == s.streams[g]
    ensures next.streams[h].key == s.streams[h].key && next.streams[h].workflow == s.streams[h].workflow
    ensures next.streams[h].pending == s.streams[h].pending[1..]
  {
  }

  /** The run that ends in the rewrite: two submissions of different workflows with one key to a new
      store, then both streams in turn. */
  lemma TwoSubmissionsRewrite(engine: Engine, boot: string, retained: nat, u: SubmitRequest, v: SubmitRequest,
                              states: seq<Service>)
    requires engine.authorize(u.auth).None? && engine.optimize(u.config).assignments == [] && Replaces(u)
    requires engine.authorize(v.auth).None? && engine.optimize(v.config).assignments == [] && Replaces(v)
    requires u.config.id != v.config.id && u.key == v.key != "" && |states| == 7
    requires states[0] == Fresh(EmptyStore(boot), retained)
    requires states[1] == Step(engine, states[0], Submitting(u, 0, 0))
    requires states[2] == Step(engine, states[1], Submitting(v, 0, 0))
    requires states[3] == Step(engine, states[2], Pulling(0, 0)) && states[4] == Step(engine, states[3], Pulling(1, 0))
    requires states[5] == Step(engine, states[4], Pulling(0, 0)) && states[6] == Step(engine, states[5], Pulling(1, 0))
    ensures u.key in states[5].store.idempotency && states[5].store.idempotency[u.key].workflow == u.config.id
    ensures u.key in states[6].store.idempotency && states[6].store.idempotency[u.key].workflow == v.config.id
  {
    ThreeEvents(engine, states[0], u, 0, states[1]);
    ThreeEvents(engine, states[1], v, 0, states[2]);
    QuietPull(engine, states[2], 0, 0, states[3]);
    QuietPull(engine, states[3], 1, 0, states[4]);
    OverlappingStreamsRewrite(engine, states[4], 0, 1, u.key, 0, states[5], states[6]);
  }
}
