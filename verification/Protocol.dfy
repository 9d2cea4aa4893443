/** The messages that clients, control plane and runtime exchange. */
module Protocol {
  import opened Basics

  type WorkflowId = string

  datatype Config = Config(id: WorkflowId, tasks: map<TaskId, int>, content: string)

  datatype PlannedTask = PlannedTask(task: TaskId, actor: ActorId, start: int)

  datatype RunResult = RunResult(ok: bool, error: string, assignments: seq<PlannedTask>)

  datatype Response = Response(ok: bool, result: RunResult, error: string)

  datatype EventKind =
    | RequestRejected | WorkflowAccepted | OverrideApplied | TaskCompleted
    | ReplanningStarted | TaskPlanned | RunFinished

  datatype Event = Event(kind: EventKind, workflow: WorkflowId, task: TaskId, actor: ActorId,
                         start: int, end: int, detail: string, response: Option<Response>)

  datatype Lifecycle = Unspecified | Submitted | Planning | Planned | Paused | Cancelled | Failed | Recovering

  datatype TaskOverride = TaskOverride(task: TaskId, completed: bool, change: string)
  datatype ActorOverride = ActorOverride(actor: ActorId, change: string)

  datatype SubmitRequest = SubmitRequest(config: Config, auth: string, replaceExisting: Option<bool>,
                                         key: string, fingerprint: string)

  datatype ReorchestrateRequest = ReorchestrateRequest(
    workflow: WorkflowId, tasks: seq<TaskOverride>, actors: seq<ActorOverride>, auth: string,
    trigger: Option<bool>, key: string, fingerprint: string, expectedPlan: Option<nat>)

  function ErrorResponse(message: string): Response {
    Response(false, RunResult(false, message, []), message)
  }

  function PlainEvent(kind: EventKind, w: WorkflowId, detail: string): Event {
    Event(kind, w, "", "", 0, 0, detail, None)
  }

  function ResponseEvent(kind: EventKind, w: WorkflowId, response: Response, detail: string): Event {
    PlainEvent(kind, w, detail).(response := Some(response))
  }

  /** The response of a request that both reached the planner and was planned. */
  predicate FullyOk(e: Event) {
    e.response.Some? && e.response.value.ok && e.response.value.result.ok
  }
}
