/** The planner's state machine: the transition table, and the wrapper that guards each event and
    mirrors the current state. */
module PlannerFsm {
  import opened Basics

  datatype PlannerState = Idle | Planning | Dispatching | Running | Completing

  datatype Event = StartPlanning | ScheduleReady | DispatchComplete | PhaseComplete | AllPhasesComplete | Tick

  /** The rows of the transition table. */
  function Row(s: PlannerState, e: Event): Option<PlannerState> {
    match (s, e)
    case (Idle, StartPlanning) => Some(Planning)
    case (Running, StartPlanning) => Some(Planning)
    case (Dispatching, StartPlanning) => Some(Planning)
    case (Planning, StartPlanning) => Some(Planning)
    case (Planning, ScheduleReady) => Some(Dispatching)
    case (Dispatching, DispatchComplete) => Some(Running)
    case (Running, PhaseComplete) => Some(Running)
    case (Running, AllPhasesComplete) => Some(Idle)
    case (Planning, PhaseComplete) => Some(Running)
    case (Dispatching, PhaseComplete) => Some(Running)
    case (Planning, Tick) => Some(Planning)
    case (Idle, Tick) => Some(Idle)
    case (Running, Tick) => Some(Running)
    case (_, _) => None
  }

  /** The state after an event; an event without a row is ignored. */
  function Next(s: PlannerState, e: Event): PlannerState {
    if Row(s, e).Some? then Row(s, e).value else s
  }

  ghost predicate Reachable(s: PlannerState) {
    s != Completing
  }

  class PlannerStateMachine {
    var machine: PlannerState
    var lastKnown: PlannerState

    /** The mirror shows the state of the machine. */
    ghost predicate Valid()
      reads this
    {
      lastKnown == machine && Reachable(machine)
    }

    constructor ()
      ensures Valid() && lastKnown == Idle
    {
      machine, lastKnown := Idle, Idle;
    }

    /** The table-driven machine; handing it an event without a row is an error. */
    method Fire(e: Event)
      requires Row(machine, e).Some?
      modifies this`machine
      ensures machine == Row(old(machine), e).value
    {
      machine := Row(machine, e).value;
    }

    /** The guards let an event through exactly when the table has a row for it, and the mirror
        follows the table. */
    method ProcessEvent(e: Event)
      requires Valid()
      modifies this
      ensures Valid()
      ensures lastKnown == Next(old(lastKnown), e)
    {
      match e {
        case StartPlanning =>
          if lastKnown != Idle && lastKnown != Planning && lastKnown != Dispatching && lastKnown != Running { return; }
          Fire(StartPlanning);
          lastKnown := Planning;
        case ScheduleReady =>
          if lastKnown != Planning { return; }
          Fire(ScheduleReady);
          lastKnown := Dispatching;
        case DispatchComplete =>
          if lastKnown != Dispatching { return; }
          Fire(DispatchComplete);
          lastKnown := Running;
        case PhaseComplete =>
          if lastKnown != Planning && lastKnown != Dispatching && lastKnown != Running { return; }
          Fire(PhaseComplete);
          lastKnown := Running;
        case AllPhasesComplete =>
          if lastKnown != Running { return; }
          Fire(AllPhasesComplete);
          lastKnown := Idle;
        case Tick =>
          if lastKnown != Idle && lastKnown != Planning && lastKnown != Running { return; }
          Fire(Tick);
      }
    }
  }
}
