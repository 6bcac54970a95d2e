/**
 * The tables behind the monitor and incident lifecycle and the meaning of every
 * serialized operation on them. Class `Engine.Engine` performs these operations step
 * by step; the theorems in the modules that follow are about the functions here.
 */
module Lifecycle {
  import opened Wrappers
  import opened StateMachine

  type Millis = int

  datatype CheckStatus = CheckUp | CheckDown | CheckDegraded | CheckTimeout | CheckError

  datatype MonitorMode = Active | PausedMode | Disabled

  datatype MonitorRow = MonitorRow(
    organizationId: string,
    heartbeat: bool,
    mode: MonitorMode,
    health: Health,
    failures: nat,
    successes: nat,
    failureThreshold: Threshold,
    successThreshold: Threshold,
    lastCheckedAt: Option<Millis>)

  datatype Window = Window(suppressAlerts: bool, startsAt: Millis, endsAt: Millis, monitors: set<string>)

  datatype IncidentStatus = OpenStatus | Acknowledged | Resolved

  datatype Incident = Incident(
    organizationId: string,
    monitorId: string,
    status: IncidentStatus,
    fingerprint: Option<string>,
    startedAt: Millis,
    acknowledgedAt: Option<Millis>,
    resolvedAt: Option<Millis>,
    durationSec: Option<nat>)

  datatype EventKind = DetectedEvent | AcknowledgedEvent | StatusChangedEvent | ResolvedEvent

  datatype Event = Event(incident: nat, kind: EventKind, at: Millis)

  datatype AlertKind = OpenedAlert | ResolvedAlert

  datatype Alert = Alert(incident: nat, monitorId: string, kind: AlertKind, at: Millis)

  datatype CheckResult = CheckResult(monitorId: string, status: CheckStatus, checkedAt: Millis)

  /** An incident's id is its position: incident rows are never deleted. */
  datatype World = World(
    monitors: map<string, MonitorRow>,
    windows: seq<Window>,
    checks: seq<CheckResult>,
    incidents: seq<Incident>,
    events: seq<Event>,
    alerts: seq<Alert>)

  // ---- Queries ----

  predicate IsSuccess(s: CheckStatus) {
    s == CheckUp || s == CheckDegraded
  }

  predicate InMaintenance(windows: seq<Window>, m: string, now: Millis) {
    exists i :: 0 <= i < |windows| && windows[i].suppressAlerts
      && windows[i].startsAt <= now <= windows[i].endsAt && m in windows[i].monitors
  }

  const FLAP_WINDOW_MS: Millis := 30 * 60 * 1000
  const FLAP_THRESHOLD: nat := 3

  /** Incidents of the monitor that started at `since` or later. */
  function StartedSince(rows: seq<Incident>, m: string, since: Millis): nat {
    if rows == [] then 0
    else
      var last := rows[|rows| - 1];
      StartedSince(rows[..|rows| - 1], m, since) + if last.monitorId == m && last.startedAt >= since then 1 else 0
  }

  predicate Flapping(rows: seq<Incident>, m: string, now: Millis) {
    StartedSince(rows, m, now - FLAP_WINDOW_MS) >= FLAP_THRESHOLD
  }

  /** The dedupe key: one active "down" incident per monitor. */
  function DownKey(m: string): string {
    m + ":down"
  }

  predicate Live(row: Incident, m: string) {
    row.monitorId == m && row.status != Resolved
  }

  predicate HoldsKey(row: Incident, m: string) {
    row.monitorId == m && row.fingerprint == Some(DownKey(m))
  }

  predicate HasLive(rows: seq<Incident>, m: string) {
    exists i :: 0 <= i < |rows| && Live(rows[i], m)
  }

  predicate KeyTaken(rows: seq<Incident>, m: string) {
    exists i :: 0 <= i < |rows| && HoldsKey(rows[i], m)
  }

  /** The monitor's unresolved incident with the latest start. */
  function FindUnresolved(rows: seq<Incident>, m: string): (found: Option<nat>)
    ensures found.None? <==> !HasLive(rows, m)
    ensures found.Some? ==>
      && found.value < |rows| && Live(rows[found.value], m)
      && forall i :: 0 <= i < |rows| && Live(rows[i], m) ==> rows[i].startedAt <= rows[found.value].startedAt
  {
    if rows == [] then None
    else
      var n := |rows| - 1;
      var earlier := FindUnresolved(rows[..n], m);
      if Live(rows[n], m) && (earlier.None? || rows[earlier.value].startedAt <= rows[n].startedAt) then Some(n)
      else earlier
  }

  /** `Math.max(0, Math.round(ms / 1000))`; `Math.round` rounds halves up. */
  function DurationSec(ms: int): nat {
    var rounded := (ms + 500) / 1000;
    if rounded < 0 then 0 else rounded
  }

  // ---- Row updates shared by the pipeline and the incident service ----

  function DetectedRow(org: string, m: string, now: Millis): Incident {
    Incident(org, m, OpenStatus, Some(DownKey(m)), now, None, None, None)
  }

  function ResolvedRow(row: Incident, now: Millis): Incident {
    row.(status := Resolved, resolvedAt := Some(now), durationSec := Some(DurationSec(now - row.startedAt)),
         fingerprint := None)
  }

  function AcknowledgedRow(row: Incident, now: Millis): Incident {
    row.(status := Acknowledged, acknowledgedAt := Some(now))
  }

  /** Insert under the unique key (monitorId, fingerprint); a collision inserts nothing. */
  function OpenIncident(w: World, org: string, m: string, now: Millis): (r: (World, Option<nat>)) {
    if KeyTaken(w.incidents, m) then (w, None)
    else (w.(incidents := w.incidents + [DetectedRow(org, m, now)],
             events := w.events + [Event(|w.incidents|, DetectedEvent, now)]),
          Some(|w.incidents|))
  }

  function CloseIncident(w: World, id: nat, now: Millis): World
    requires id < |w.incidents|
  {
    w.(incidents := w.incidents[id := ResolvedRow(w.incidents[id], now)],
       events := w.events + [Event(id, ResolvedEvent, now)])
  }

  function AddEvent(w: World, id: nat, kind: EventKind, now: Millis): World {
    w.(events := w.events + [Event(id, kind, now)])
  }

  function Dispatch(w: World, id: nat, m: string, kind: AlertKind, now: Millis): World {
    w.(alerts := w.alerts + [Alert(id, m, kind, now)])
  }

  // ---- One processed check ----

  datatype Outcome = WentDown | Recovered | NoChange

  datatype ProcessResult = ProcessResult(
    previousHealth: Health,
    newHealth: MonitorState,
    transition: Outcome,
    inMaintenance: bool,
    flapping: bool,
    incidentId: Option<nat>)

  /** Whether the result is a heartbeat ping, and whether there is a dispatcher for alerts. */
  datatype ProcessOptions = ProcessOptions(ping: bool, alerts: bool)

  /** A scheduled check has an alert dispatcher (packages/monitoring/src/processor.ts:62-68). */
  const JOB := ProcessOptions(false, true)

  /** The ingest route records a ping without one (apps/api/src/routes/heartbeats.ts:29). */
  const PING := ProcessOptions(true, false)

  function DecisionFor(snapshot: MonitorRow, status: CheckStatus, maintenance: bool): TransitionResult {
    Transition(TransitionInput(snapshot.health, IsSuccess(status), snapshot.failures, snapshot.successes,
                               snapshot.failureThreshold, snapshot.successThreshold, maintenance))
  }

  /** The raw result and the monitor's denormalized state. */
  function RecordCheck(w: World, m: string, snapshot: MonitorRow, status: CheckStatus, d: TransitionResult,
                       now: Millis, ping: bool): World
    requires m in w.monitors
  {
    var row := w.monitors[m].(health := d.state, failures := d.failures, successes := d.successes);
    var stamped := if !snapshot.heartbeat || ping then row.(lastCheckedAt := Some(now)) else row;
    w.(checks := w.checks + [CheckResult(m, status, now)], monitors := w.monitors[m := stamped])
  }

  /** The incident side effect of a decision, with its alerts if there is a dispatcher for them. */
  function OpenAndAlert(w: World, org: string, m: string, now: Millis, alerts: bool): (World, Option<nat>) {
    var flapping := Flapping(w.incidents, m, now);
    var (w1, id) := OpenIncident(w, org, m, now);
    if id.None? then (w1, None)
    else if flapping then (AddEvent(w1, id.value, StatusChangedEvent, now), id)
    else (if alerts then Dispatch(w1, id.value, m, OpenedAlert, now) else w1, id)
  }

  function ResolveAndAlert(w: World, m: string, now: Millis, alerts: bool): (World, Option<nat>) {
    var id := FindUnresolved(w.incidents, m);
    if id.None? then (w, None)
    else
      var closed := CloseIncident(w, id.value, now);
      (if alerts then Dispatch(closed, id.value, m, ResolvedAlert, now) else closed, id)
  }

  function NoteRelapse(w: World, m: string, now: Millis): (World, Option<nat>) {
    var id := FindUnresolved(w.incidents, m);
    if id.None? then (w, None) else (AddEvent(w, id.value, StatusChangedEvent, now), id)
  }

  function ActOn(w: World, d: TransitionResult, org: string, m: string, now: Millis, alerts: bool)
    : (World, Option<nat>)
  {
    if d.incident == Open then OpenAndAlert(w, org, m, now, alerts)
    else if d.incident == Resolve then ResolveAndAlert(w, m, now, alerts)
    else if d.changed && d.state == Down then NoteRelapse(w, m, now)
    else (w, None)
  }

  function Process(w: World, m: string, snapshot: MonitorRow, status: CheckStatus, now: Millis, opts: ProcessOptions)
    : (r: (World, ProcessResult))
    requires m in w.monitors
  {
    var maintenance := InMaintenance(w.windows, m, now);
    var d := DecisionFor(snapshot, status, maintenance);
    var recorded := RecordCheck(w, m, snapshot, status, d, now, opts.ping);
    var (acted, id) := ActOn(recorded, d, snapshot.organizationId, m, now, opts.alerts);
    var transition := if id.None? then NoChange
                      else if d.incident == Open then WentDown
                      else if d.incident == Resolve then Recovered
                      else NoChange;
    (acted, ProcessResult(snapshot.health, d.state, transition, maintenance,
                          d.incident == Open && Flapping(w.incidents, m, now), id))
  }

  // ---- Every serialized operation ----

  datatype Op =
    | CheckJob(m: string, status: CheckStatus, now: Millis)
    | Heartbeat(m: string, now: Millis)
    | EditWindows(windows: seq<Window>)
    | Pause(m: string, org: string)
    | Resume(m: string, org: string)
    | Acknowledge(id: nat, org: string, now: Millis)
    | ManualResolve(id: nat, org: string, now: Millis)

  /** An incident of this organization. */
  predicate Owns(w: World, id: nat, org: string) {
    id < |w.incidents| && w.incidents[id].organizationId == org
  }

  function Apply(w: World, op: Op): World {
    match op
    case CheckJob(m, status, now) =>
      if m in w.monitors && w.monitors[m].mode == Active
      then Process(w, m, w.monitors[m], status, now, JOB).0 else w
    case Heartbeat(m, now) =>
      if m in w.monitors && w.monitors[m].heartbeat
      then Process(w, m, w.monitors[m], CheckUp, now, PING).0 else w
    case EditWindows(windows) => w.(windows := windows)
    case Pause(m, org) =>
      if m in w.monitors && w.monitors[m].organizationId == org && w.monitors[m].mode != PausedMode
      then w.(monitors := w.monitors[m := w.monitors[m].(mode := PausedMode, health := Paused)]) else w
    case Resume(m, org) =>
      if m in w.monitors && w.monitors[m].organizationId == org && w.monitors[m].mode != Active
      then w.(monitors := w.monitors[m := w.monitors[m].(mode := Active, health := Pending, failures := 0, successes := 0)])
      else w
    case Acknowledge(id, org, now) =>
      if Owns(w, id, org) && w.incidents[id].status == OpenStatus
      then AddEvent(w.(incidents := w.incidents[id := AcknowledgedRow(w.incidents[id], now)]), id, AcknowledgedEvent, now)
      else w
    case ManualResolve(id, org, now) =>
      if Owns(w, id, org) && w.incidents[id].status != Resolved then CloseIncident(w, id, now) else w
  }

  function Run(w: World, ops: seq<Op>): World
    decreases |ops|
  {
    if ops == [] then w else Run(Apply(w, ops[0]), ops[1..])
  }

  /** A single new heartbeat monitor that opens and recovers with one check. */
  const PINGED := World(map["m" := MonitorRow("org", true, Active, Pending, 0, 0, 1, 1, None)], [], [], [], [], [])

  /** The tables after the first k operations. */
  function After(w: World, ops: seq<Op>, k: nat): World
    requires k <= |ops|
  {
    Run(w, ops[..k])
  }

  lemma {:induction false} RunLast(w: World, ops: seq<Op>, op: Op)
    ensures Run(w, ops + [op]) == Apply(Run(w, ops), op)
    decreases |ops|
  {
    if ops == [] {
      assert ([op])[1..] == [];
    } else {
      assert (ops + [op])[1..] == ops[1..] + [op];
      RunLast(Apply(w, ops[0]), ops[1..], op);
    }
  }

  lemma AfterNext(w: World, ops: seq<Op>, k: nat)
    requires k < |ops|
    ensures After(w, ops, k + 1) == Apply(After(w, ops, k), ops[k])
  {
    RunLast(w, ops[..k], ops[k]);
    assert ops[..k + 1] == ops[..k] + [ops[k]];
  }

  lemma AfterAll(w: World, ops: seq<Op>)
    ensures After(w, ops, 0) == w && After(w, ops, |ops|) == Run(w, ops)
  {
    assert ops[..|ops|] == ops;
  }
}
