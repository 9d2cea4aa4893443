/** What the runtime answers, on the requests, the sessions and the events themselves. */
module RuntimeAnswers {
  import opened Basics
  import opened Protocol
  import opened RuntimeService

  /** From event `from` on the stream tells the plan of `config`, entry by entry, and ends with the response
      that the optimizer gave for it. */
  ghost predicate TellsPlanOf(engine: Engine, config: Config, w: WorkflowId, events: seq<Event>, from: nat) {
    var result := engine.optimize(config);
    && |events| == from + |result.assignments| + 1
    && (forall i :: 0 <= i < |result.assignments| ==>
          var (e, p) := (events[from + i], result.assignments[i]);
          && e.kind == TaskPlanned && e.workflow == w && e.response == None
          && e.task == p.task && e.actor == p.actor && e.start == p.start
          && e.end == p.start + (if p.task in config.tasks then config.tasks[p.task] else 0))
    && var last := events[|events| - 1];
       && last.kind == RunFinished && last.workflow == w
       && last.response.Some? && last.response.value.result == result
       && last.response.value.ok == result.ok && last.response.value.error == result.error
  }

  /** The only event says why the request is refused. */
  ghost predicate Refuses(w: WorkflowId, events: seq<Event>, message: string) {
    && |events| == 1 && events[0].kind == RequestRejected && events[0].workflow == w && events[0].detail == message
    && events[0].response.Some? && !events[0].response.value.ok && events[0].response.value.error == message
    && !events[0].response.value.result.ok && events[0].response.value.result.assignments == []
  }

  lemma PlanningTells(engine: Engine, config: Config, w: WorkflowId, detail: string, before: seq<Event>, events: seq<Event>)
    requires events == before + PlanningEvents(engine, config, w, detail)
    ensures TellsPlanOf(engine, config, w, events, |before|)
  {
    var result := engine.optimize(config);
    forall i | 0 <= i < |result.assignments|
      ensures events[|before| + i] == PlannedEvent(config, w, result.assignments[i]) {
      assert events[|before| + i] == PlanningEvents(engine, config, w, detail)[i];
    }
  }

  /** A submission is refused when its caller is, or when the workflow is known and must not be replaced.
      Otherwise its configuration is stored, announced, planned and answered. */
  lemma SubmitAnswers(engine: Engine, sessions: Sessions, req: SubmitRequest, after: Sessions, events: seq<Event>)
    requires after == SubmitSessions(engine, sessions, req) && events == SubmitEvents(engine, sessions, req)
    ensures var (w, refused) := (req.config.id, engine.authorize(req.auth));
            if refused.Some? then after == sessions && Refuses(w, events, refused.value)
            else if w in sessions && req.replaceExisting == Some(false) then
              after == sessions && Refuses(w, events, "Workflow already exists and replace_existing is false.")
            else
              && after == sessions[w := req.config]
              && TellsPlanOf(engine, req.config, w, events, 2)
              && events[0].kind == WorkflowAccepted && events[1].kind == ReplanningStarted
              && events[0].workflow == events[1].workflow == w && events[0].response == events[1].response == None
  {
    var w := req.config.id;
    if SubmitAccepted(engine, sessions, req) {
      PlanningTells(engine, req.config, w, "Initial optimization finished.",
                    [PlainEvent(WorkflowAccepted, w, "Workflow accepted and stored."),
                     PlainEvent(ReplanningStarted, w, "Initial optimization started.")], events);
    }
  }

  // ---- overrides --------------------------------------------------------------------------------------------

  /** The configurations on the way, from the one stored to the one left behind: first every task override in
      order, then every actor override in order. */
  ghost predicate EditsInOrder(engine: Engine, stored: Config, req: ReorchestrateRequest, steps: seq<Config>) {
    && |steps| == |req.tasks| + |req.actors| + 1 && steps[0] == stored
    && (forall i :: 0 <= i < |req.tasks| ==> steps[i + 1] == engine.overrideTask(steps[i], req.tasks[i]))
    && (forall i :: 0 <= i < |req.actors| ==>
          steps[|req.tasks| + i + 1] == engine.overrideActor(steps[|req.tasks| + i], req.actors[i]))
  }

  lemma OverridesEditInOrder(engine: Engine, stored: Config, req: ReorchestrateRequest) returns (steps: seq<Config>)
    ensures EditsInOrder(engine, stored, req, steps) && steps[|steps| - 1] == Overridden(engine, stored, req)
  {
    var n := |req.tasks|;
    var edited := OverrideTasks(engine, stored, req.tasks);
    var first := seq(n + 1, i requires 0 <= i <= n => OverrideTasks(engine, stored, req.tasks[..i]));
    var second := seq(|req.actors|, i requires 0 <= i < |req.actors| => OverrideActors(engine, edited, req.actors[..i + 1]));
    steps := first + second;
    assert req.tasks[..n] == req.tasks && first[n] == edited && OverrideActors(engine, edited, req.actors[..0]) == edited;
    forall i | 0 <= i < n ensures steps[i + 1] == engine.overrideTask(steps[i], req.tasks[i]) {
      assert req.tasks[..i + 1][..i] == req.tasks[..i];
    }
    forall i | 0 <= i < |req.actors| ensures steps[n + i + 1] == engine.overrideActor(steps[n + i], req.actors[i]) {
      assert req.actors[..i + 1][..i] == req.actors[..i];
      assert steps[n + i] == OverrideActors(engine, edited, req.actors[..i]);
    }
    assert req.actors[..|req.actors|] == req.actors;
  }

  /** One event for each override, in the same order. */
  ghost predicate TellsOverrides(req: ReorchestrateRequest, events: seq<Event>) {
    && |req.tasks| + |req.actors| <= |events|
    && (forall i :: 0 <= i < |req.tasks| ==>
          var (e, o) := (events[i], req.tasks[i]);
          && e.kind == (if o.completed then TaskCompleted else OverrideApplied)
          && e.workflow == req.workflow && e.task == o.task && e.response == None)
    && (forall i :: 0 <= i < |req.actors| ==>
          var (e, o) := (events[|req.tasks| + i], req.actors[i]);
          && e.kind == OverrideApplied && e.workflow == req.workflow && e.actor == o.actor && e.response == None)
  }

  lemma OverridesTell(req: ReorchestrateRequest, rest: seq<Event>)
    ensures TellsOverrides(req, OverrideEvents(req) + rest)
  {
    var events := OverrideEvents(req) + rest;
    forall i | 0 <= i < |req.tasks| ensures events[i] == TaskEvent(req.workflow, req.tasks[i]) {
      assert events[i] == OverrideEvents(req)[i];
    }
    forall i | 0 <= i < |req.actors| ensures events[|req.tasks| + i] == ActorEvent(req.workflow, req.actors[i]) {
      assert events[|req.tasks| + i] == OverrideEvents(req)[|req.tasks| + i];
    }
  }

  /** The answer to a request that does not plan. */
  ghost predicate AnswersEmpty(w: WorkflowId, e: Event) {
    && e.kind == RunFinished && e.workflow == w
    && e.response == Some(Response(true, RunResult(true, "", []), ""))
  }

  lemma StoredTells(req: ReorchestrateRequest, events: seq<Event>)
    requires events == OverrideEvents(req) + [ResponseEvent(RunFinished, req.workflow, Response(true, RunResult(true, "", []), ""),
                                                            "Overrides stored without replanning.")]
    ensures TellsOverrides(req, events) && |events| == |req.tasks| + |req.actors| + 1
    ensures AnswersEmpty(req.workflow, events[|req.tasks| + |req.actors|])
  {
    OverridesTell(req, events[|OverrideEvents(req)|..]);
    assert events == OverrideEvents(req) + events[|OverrideEvents(req)|..];
  }

  lemma ReplannedTells(engine: Engine, config: Config, req: ReorchestrateRequest, events: seq<Event>)
    requires events == OverrideEvents(req) + [PlainEvent(ReplanningStarted, req.workflow, "Replanning started.")]
                       + PlanningEvents(engine, config, req.workflow, "Replanning finished.")
    ensures TellsOverrides(req, events) && |events| > |req.tasks| + |req.actors|
    ensures events[|req.tasks| + |req.actors|].kind == ReplanningStarted && events[|req.tasks| + |req.actors|].response == None
    ensures TellsPlanOf(engine, config, req.workflow, events, |req.tasks| + |req.actors| + 1)
  {
    var before := OverrideEvents(req) + [PlainEvent(ReplanningStarted, req.workflow, "Replanning started.")];
    OverridesTell(req, events[|OverrideEvents(req)|..]);
    assert events == OverrideEvents(req) + events[|OverrideEvents(req)|..];
    PlanningTells(engine, config, req.workflow, "Replanning finished.", before, events);
    assert events[|OverrideEvents(req)|] == before[|OverrideEvents(req)|];
  }

  /** The overrides are announced, and the answer is empty if the request says not to plan; otherwise it is the plan
      of `config`. */
  ghost predicate TellsEdit(engine: Engine, config: Config, req: ReorchestrateRequest, events: seq<Event>) {
    var n := |req.tasks| + |req.actors|;
    && TellsOverrides(req, events)
    && |events| > n
    && if req.trigger == Some(false)
       then |events| == n + 1 && AnswersEmpty(req.workflow, events[n])
       else events[n].kind == ReplanningStarted && events[n].response == None
            && TellsPlanOf(engine, config, req.workflow, events, n + 1)
  }

  lemma AcceptedTells(engine: Engine, sessions: Sessions, req: ReorchestrateRequest, after: Sessions, events: seq<Event>)
    requires ReorchestrateAccepted(engine, sessions, req) && events == ReorchestrateEvents(engine, sessions, req)
    requires after == ReorchestrateSessions(engine, sessions, req)
    ensures req.workflow in after && TellsEdit(engine, after[req.workflow], req, events)
  {
    if req.trigger == Some(false) {
      StoredTells(req, events);
    } else {
      ReplannedTells(engine, after[req.workflow], req, events);
    }
  }

  /** A re-orchestration is refused when its caller is or the workflow is unknown. Otherwise the overrides edit
      the stored configuration in order and are announced; unless told not to, the runtime plans the edited
      configuration, the one the session holds afterwards, and answers with that plan. */
  lemma ReorchestrateAnswers(engine: Engine, sessions: Sessions, req: ReorchestrateRequest, after: Sessions, events: seq<Event>)
    requires after == ReorchestrateSessions(engine, sessions, req) && events == ReorchestrateEvents(engine, sessions, req)
    ensures var (w, refused) := (req.workflow, engine.authorize(req.auth));
            if refused.Some? then after == sessions && Refuses(w, events, refused.value)
            else if w !in sessions then after == sessions && Refuses(w, events, "Workflow session not found.")
            else
              && w in after && after == sessions[w := after[w]]
              && (exists steps :: EditsInOrder(engine, sessions[w], req, steps) && steps[|steps| - 1] == after[w])
              && TellsEdit(engine, after[w], req, events)
  {
    if ReorchestrateAccepted(engine, sessions, req) {
      var steps := OverridesEditInOrder(engine, sessions[req.workflow], req);
      AcceptedTells(engine, sessions, req, after, events);
    }
  }
}
