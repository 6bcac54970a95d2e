/** The debounced monitor state machine (packages/monitoring/src/state-machine.ts). */
module StateMachine {

  /** The persisted `MonitorHealth` enum. */
  datatype Health = Up | Down | Degraded | Pending | Paused | Maintenance | Recovering

  /** The five canonical states: DEGRADED and PAUSED are display nuances. */
  predicate Canonical(h: Health) {
    h != Degraded && h != Paused
  }

  type MonitorState = h: Health | Canonical(h) witness Pending

  /** Confirmation thresholds are at least 1 (apps/api/src/routes/monitors.ts:79-80). */
  type Threshold = n: int | 1 <= n witness 1

  datatype IncidentAction = Open | Resolve | NoAction

  datatype TransitionInput = TransitionInput(
    current: Health,
    success: bool,
    priorFailures: nat,
    priorSuccesses: nat,
    failureThreshold: Threshold,
    successThreshold: Threshold,
    inMaintenance: bool)

  datatype TransitionResult = TransitionResult(
    state: MonitorState,
    failures: nat,
    successes: nat,
    incident: IncidentAction,
    changed: bool)

  function Normalize(current: Health): MonitorState {
    if Canonical(current) then current else Up
  }

  function IncidentActionFor(prev: MonitorState, next: MonitorState): IncidentAction {
    if next == Down && prev != Down && prev != Recovering then Open
    else if next == Up && (prev == Down || prev == Recovering || prev == Maintenance) then Resolve
    else NoAction
  }

  function Transition(input: TransitionInput): TransitionResult {
    var prev := Normalize(input.current);
    var failures := if input.success then 0 else input.priorFailures + 1;
    var successes := if input.success then input.priorSuccesses + 1 else 0;
    var failureConfirmed := failures >= input.failureThreshold;
    var successConfirmed := successes >= input.successThreshold;
    var next: MonitorState :=
      if input.inMaintenance then Maintenance
      else match prev
           case Pending => if input.success then Up else if failureConfirmed then Down else Pending
           case Down => if !input.success then Down else if successConfirmed then Up else Recovering
           case Recovering => if !input.success then Down else if successConfirmed then Up else Recovering
           case Maintenance => if input.success then Up else if failureConfirmed then Down else Up
           case Up => if input.success then Up else if failureConfirmed then Down else Up;
    TransitionResult(next, failures, successes, IncidentActionFor(prev, next), next != prev)
  }
}
