/** The in-memory runtime service: sessions by workflow, and the event streams of its two requests. */
module RuntimeService {
  import opened Basics
  import opened Protocol

  type Sessions = map<WorkflowId, Config>

  /** The code behind the service: who may call, how a configuration is planned and how overrides edit it. */
  datatype Engine = Engine(
    authorize: string -> Option<string>,
    optimize: Config -> RunResult,
    overrideTask: (Config, TaskOverride) -> Config,
    overrideActor: (Config, ActorOverride) -> Config)

  function PlannedEvent(config: Config, w: WorkflowId, p: PlannedTask): Event {
    var duration := if p.task in config.tasks then config.tasks[p.task] else 0;
    PlainEvent(TaskPlanned, w, "Task assignment planned.")
      .(task := p.task, actor := p.actor, start := p.start, end := p.start + duration)
  }

  function PlannedEvents(config: Config, w: WorkflowId, plan: seq<PlannedTask>): (r: seq<Event>)
    ensures |r| == |plan|
    ensures forall i :: 0 <= i < |r| ==> r[i] == PlannedEvent(config, w, plan[i])
  {
    seq(|plan|, i requires 0 <= i < |plan| => PlannedEvent(config, w, plan[i]))
  }

  /** The planning part of both streams. */
  function PlanningEvents(engine: Engine, config: Config, w: WorkflowId, detail: string): (r: seq<Event>) {
    var result := engine.optimize(config);
    PlannedEvents(config, w, result.assignments)
    + [ResponseEvent(RunFinished, w, Response(result.ok, result, result.error), detail)]
  }

  function Rejection(w: WorkflowId, message: string): seq<Event> {
    [ResponseEvent(RequestRejected, w, ErrorResponse(message), message)]
  }

  /** The runtime replaces unless told otherwise. */
  predicate Replaces(req: SubmitRequest) {
    req.replaceExisting.None? || req.replaceExisting.value
  }

  predicate SubmitAccepted(engine: Engine, sessions: Sessions, req: SubmitRequest) {
    engine.authorize(req.auth).None? && (Replaces(req) || req.config.id !in sessions)
  }

  function SubmitSessions(engine: Engine, sessions: Sessions, req: SubmitRequest): Sessions {
    if SubmitAccepted(engine, sessions, req) then sessions[req.config.id := req.config] else sessions
  }

  function SubmitEvents(engine: Engine, sessions: Sessions, req: SubmitRequest): (r: seq<Event>) {
    var w := req.config.id;
    if engine.authorize(req.auth).Some? then Rejection(w, engine.authorize(req.auth).value)
    else if !SubmitAccepted(engine, sessions, req)
    then Rejection(w, "Workflow already exists and replace_existing is false.")
    else [PlainEvent(WorkflowAccepted, w, "Workflow accepted and stored."),
          PlainEvent(ReplanningStarted, w, "Initial optimization started.")]
         + PlanningEvents(engine, req.config, w, "Initial optimization finished.")
  }

  function OverrideTasks(engine: Engine, config: Config, tasks: seq<TaskOverride>): Config {
    if tasks == [] then config
    else engine.overrideTask(OverrideTasks(engine, config, tasks[..|tasks| - 1]), tasks[|tasks| - 1])
  }

  function OverrideActors(engine: Engine, config: Config, actors: seq<ActorOverride>): Config {
    if actors == [] then config
    else engine.overrideActor(OverrideActors(engine, config, actors[..|actors| - 1]), actors[|actors| - 1])
  }

  function Overridden(engine: Engine, config: Config, req: ReorchestrateRequest): Config {
    OverrideActors(engine, OverrideTasks(engine, config, req.tasks), req.actors)
  }

  function TaskEvent(w: WorkflowId, o: TaskOverride): Event {
    (if o.completed then PlainEvent(TaskCompleted, w, "Task marked completed.")
     else PlainEvent(OverrideApplied, w, "Task override applied.")).(task := o.task)
  }

  function ActorEvent(w: WorkflowId, o: ActorOverride): Event {
    PlainEvent(OverrideApplied, w, "Actor override applied.").(actor := o.actor)
  }

  function OverrideEvents(req: ReorchestrateRequest): (r: seq<Event>)
    ensures |r| == |req.tasks| + |req.actors|
    ensures forall i :: 0 <= i < |r| ==> r[i].response == None
  {
    seq(|req.tasks|, i requires 0 <= i < |req.tasks| => TaskEvent(req.workflow, req.tasks[i]))
    + seq(|req.actors|, i requires 0 <= i < |req.actors| => ActorEvent(req.workflow, req.actors[i]))
  }

  predicate ReorchestrateAccepted(engine: Engine, sessions: Sessions, req: ReorchestrateRequest) {
    engine.authorize(req.auth).None? && req.workflow in sessions
  }

  function ReorchestrateSessions(engine: Engine, sessions: Sessions, req: ReorchestrateRequest): Sessions {
    if ReorchestrateAccepted(engine, sessions, req)
    then sessions[req.workflow := Overridden(engine, sessions[req.workflow], req)]
    else sessions
  }

  function ReorchestrateEvents(engine: Engine, sessions: Sessions, req: ReorchestrateRequest): (r: seq<Event>) {
    var w := req.workflow;
    if engine.authorize(req.auth).Some? then Rejection(w, engine.authorize(req.auth).value)
    else if w !in sessions then Rejection(w, "Workflow session not found.")
    else if req.trigger == Some(false)
    then OverrideEvents(req) + [ResponseEvent(RunFinished, w, Response(true, RunResult(true, "", []), ""),
                                              "Overrides stored without replanning.")]
    else OverrideEvents(req) + [PlainEvent(ReplanningStarted, w, "Replanning started.")]
         + PlanningEvents(engine, Overridden(engine, sessions[w], req), w, "Replanning finished.")
  }

  /** Exactly one event carries a response, and it is the last. */
  ghost predicate EndsWithResponse(events: seq<Event>) {
    && events != []
    && forall i :: 0 <= i < |events| ==> (events[i].response.Some? <==> i == |events| - 1)
  }

  lemma SubmitEndsWithResponse(engine: Engine, sessions: Sessions, req: SubmitRequest)
    ensures EndsWithResponse(SubmitEvents(engine, sessions, req))
    ensures !FullyOk(SubmitEvents(engine, sessions, req)[0])
  {
  }

  lemma ReorchestrateEndsWithResponse(engine: Engine, sessions: Sessions, req: ReorchestrateRequest)
    ensures EndsWithResponse(ReorchestrateEvents(engine, sessions, req))
  {
    var overrides := OverrideEvents(req);
    var start := PlainEvent(ReplanningStarted, req.workflow, "Replanning started.");
    forall i | 0 <= i < |overrides| + 1 ensures (overrides + [start])[i].response == None {
      if i < |overrides| { assert (overrides + [start])[i] == overrides[i]; }
    }
  }

  /** The last response in the stream, or an error when there is none. */
  function FinalResponse(events: seq<Event>): Response {
    if events == [] then ErrorResponse("Workflow execution did not produce a final response.")
    else if events[|events| - 1].response.Some? then events[|events| - 1].response.value
    else FinalResponse(events[..|events| - 1])
  }

  lemma FinalResponseIsLast(events: seq<Event>)
    requires EndsWithResponse(events)
    ensures events[|events| - 1].response == Some(FinalResponse(events))
  {
  }

  class InMemoryWorkflowRuntime {
    const engine: Engine
    var sessions: Sessions

    constructor (engine: Engine)
      ensures this.engine == engine && sessions == map[]
    {
      this.engine, sessions := engine, map[];
    }

    method PlannedStream(config: Config, w: WorkflowId, detail: string) returns (events: seq<Event>)
      ensures events == PlanningEvents(engine, config, w, detail)
      ensures EndsWithResponse(events)
    {
      var result := engine.optimize(config);
      events := [];
      for i := 0 to |result.assignments|
        invariant |events| == i
        invariant forall k :: 0 <= k < i ==> events[k] == PlannedEvent(config, w, result.assignments[k])
      {
        events := events + [PlannedEvent(config, w, result.assignments[i])];
      }
      assert events == PlannedEvents(config, w, result.assignments);
      events := events + [ResponseEvent(RunFinished, w, Response(result.ok, result, result.error), detail)];
    }

    method StreamSubmit(req: SubmitRequest) returns (events: seq<Event>)
      modifies this
      ensures sessions == SubmitSessions(engine, old(sessions), req)
      ensures events == SubmitEvents(engine, old(sessions), req) && EndsWithResponse(events)
    {
      var w := req.config.id;
      SubmitEndsWithResponse(engine, sessions, req);
      var refused := engine.authorize(req.auth);
      if refused.Some? {
        return Rejection(w, refused.value);
      }
      if !Replaces(req) && w in sessions {
        return Rejection(w, "Workflow already exists and replace_existing is false.");
      }
      sessions := sessions[w := req.config];
      var rest := PlannedStream(req.config, w, "Initial optimization finished.");
      events := [PlainEvent(WorkflowAccepted, w, "Workflow accepted and stored."),
                 PlainEvent(ReplanningStarted, w, "Initial optimization started.")] + rest;
    }

    method ApplyOverrides(config: Config, req: ReorchestrateRequest) returns (r: Config)
      ensures r == Overridden(engine, config, req)
    {
      r := config;
      for i := 0 to |req.tasks|
        invariant r == OverrideTasks(engine, config, req.tasks[..i])
      {
        assert req.tasks[..i + 1][..i] == req.tasks[..i];
        r := engine.overrideTask(r, req.tasks[i]);
      }
      assert req.tasks[..|req.tasks|] == req.tasks;
      ghost var edited := r;
      for i := 0 to |req.actors|
        invariant r == OverrideActors(engine, edited, req.actors[..i])
      {
        assert req.actors[..i + 1][..i] == req.actors[..i];
        r := engine.overrideActor(r, req.actors[i]);
      }
      assert req.actors[..|req.actors|] == req.actors;
    }

    method OverrideStream(req: ReorchestrateRequest) returns (events: seq<Event>)
      ensures events == OverrideEvents(req)
    {
      events := [];
      for i := 0 to |req.tasks|
        invariant |events| == i
        invariant forall k :: 0 <= k < i ==> events[k] == TaskEvent(req.workflow, req.tasks[k])
      {
        events := events + [TaskEvent(req.workflow, req.tasks[i])];
      }
      for i := 0 to |req.actors|
        invariant |events| == |req.tasks| + i
        invariant forall k :: 0 <= k < |req.tasks| ==> events[k] == TaskEvent(req.workflow, req.tasks[k])
        invariant forall k :: 0 <= k < i ==> events[|req.tasks| + k] == ActorEvent(req.workflow, req.actors[k])
      {
        events := events + [ActorEvent(req.workflow, req.actors[i])];
      }
    }

    method StreamReorchestrate(req: ReorchestrateRequest) returns (events: seq<Event>)
      modifies this
      ensures sessions == ReorchestrateSessions(engine, old(sessions), req)
      ensures events == ReorchestrateEvents(engine, old(sessions), req) && EndsWithResponse(events)
    {
      var w := req.workflow;
      ReorchestrateEndsWithResponse(engine, sessions, req);
      var refused := engine.authorize(req.auth);
      if refused.Some? {
        return Rejection(w, refused.value);
      }
      if w !in sessions {
        return Rejection(w, "Workflow session not found.");
      }
      var config := ApplyOverrides(sessions[w], req);
      sessions := sessions[w := config];
      var overrides := OverrideStream(req);
      if req.trigger == Some(false) {
        return overrides + [ResponseEvent(RunFinished, w, Response(true, RunResult(true, "", []), ""),
                                          "Overrides stored without replanning.")];
      }
      var rest := PlannedStream(config, w, "Replanning finished.");
      events := overrides + [PlainEvent(ReplanningStarted, w, "Replanning started.")] + rest;
    }

    /** The unary form: the stream's response. */
    method Submit(req: SubmitRequest) returns (response: Response)
      modifies this
      ensures sessions == SubmitSessions(engine, old(sessions), req)
      ensures response == FinalResponse(SubmitEvents(engine, old(sessions), req))
    {
      var events := StreamSubmit(req);
      response := ErrorResponse("Workflow execution did not produce a final response.");
      for i := 0 to |events|
        invariant response == FinalResponse(events[..i])
      {
        assert events[..i + 1][..i] == events[..i];
        if events[i].response.Some? {
          response := events[i].response.value;
        }
      }
      assert events[..|events|] == events;
    }
  }
}
