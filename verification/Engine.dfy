/**
 * The result-processing pipeline, the incident service and the pause switch as they
 * run: statements that update the rows of one database. Each method is tied to the
 * function of the same meaning in module Lifecycle.
 */
module Engine {
  import opened Wrappers
  import opened StateMachine
  import L = Lifecycle
  import opened Lifecycle

  class Engine {
    var monitors: map<string, MonitorRow>
    var windows: seq<Window>
    var checks: seq<CheckResult>
    var incidents: seq<Incident>
    var events: seq<Event>
    var alerts: seq<Alert>

    ghost function Tables(): World
      reads this
    {
      World(monitors, windows, checks, incidents, events, alerts)
    }

    constructor (monitors: map<string, MonitorRow>)
      ensures Tables() == World(monitors, [], [], [], [], [])
    {
      this.monitors := monitors;
      windows, checks, incidents, events, alerts := [], [], [], [], [];
    }

    // ---- packages/monitoring/src/pipeline.ts ----

    method AddEvent(id: nat, kind: EventKind, now: Millis)
      modifies this`events
      ensures Tables() == L.AddEvent(old(Tables()), id, kind, now)
    {
      events := events + [Event(id, kind, now)];
    }

    method OpenIncident(org: string, m: string, now: Millis) returns (id: Option<nat>)
      modifies this`incidents, this`events
      ensures (Tables(), id) == L.OpenIncident(old(Tables()), org, m, now)
    {
      if KeyTaken(incidents, m) {
        return None;
      }
      id := Some(|incidents|);
      incidents := incidents + [DetectedRow(org, m, now)];
      AddEvent(id.value, DetectedEvent, now);
    }

    method ResolveIncident(m: string, now: Millis) returns (id: Option<nat>)
      modifies this`incidents, this`events
      ensures id == FindUnresolved(old(incidents), m)
      ensures Tables() == if id.None? then old(Tables()) else CloseIncident(old(Tables()), id.value, now)
    {
      id := FindUnresolved(incidents, m);
      if id.None? {
        return;
      }
      var row := incidents[id.value];
      var durationSec := DurationSec(now - row.startedAt);
      incidents := incidents[id.value :=
        row.(status := Resolved, resolvedAt := Some(now), durationSec := Some(durationSec), fingerprint := None)];
      AddEvent(id.value, ResolvedEvent, now);
    }

    method Dispatch(id: nat, m: string, kind: AlertKind, now: Millis)
      modifies this`alerts
      ensures Tables() == L.Dispatch(old(Tables()), id, m, kind, now)
    {
      alerts := alerts + [Alert(id, m, kind, now)];
    }

    /** Steps 1 and 2: the raw result and the monitor's denormalized state. */
    method RecordCheck(m: string, snapshot: MonitorRow, status: CheckStatus, decision: TransitionResult,
                       now: Millis, ping: bool)
      requires m in monitors
      modifies this`checks, this`monitors
      ensures Tables() == L.RecordCheck(old(Tables()), m, snapshot, status, decision, now, ping)
    {
      checks := checks + [CheckResult(m, status, now)];
      var touchLastChecked := !snapshot.heartbeat || ping;
      var row := monitors[m].(health := decision.state, failures := decision.failures, successes := decision.successes);
      if touchLastChecked {
        row := row.(lastCheckedAt := Some(now));
      }
      monitors := monitors[m := row];
    }

    /** Step 3, entering DOWN: record the incident, and announce it unless the monitor is flapping or there is no dispatcher. */
    method OpenAndAlert(org: string, m: string, now: Millis, notify: bool) returns (incidentId: Option<nat>, flapping: bool)
      modifies this`incidents, this`events, this`alerts
      ensures (Tables(), incidentId) == L.OpenAndAlert(old(Tables()), org, m, now, notify)
      ensures flapping == Flapping(old(incidents), m, now)
    {
      flapping := Flapping(incidents, m, now);
      incidentId := OpenIncident(org, m, now);
      if incidentId.Some? {
        if flapping {
          AddEvent(incidentId.value, StatusChangedEvent, now);
        } else if notify {
          Dispatch(incidentId.value, m, OpenedAlert, now);
        }
      }
    }

    method ResolveAndAlert(m: string, now: Millis, notify: bool) returns (incidentId: Option<nat>)
      modifies this`incidents, this`events, this`alerts
      ensures (Tables(), incidentId) == L.ResolveAndAlert(old(Tables()), m, now, notify)
    {
      incidentId := ResolveIncident(m, now);
      if incidentId.Some? && notify {
        Dispatch(incidentId.value, m, ResolvedAlert, now);
      }
    }

    method ProcessCheckResult(m: string, snapshot: MonitorRow, status: CheckStatus, now: Millis, opts: ProcessOptions)
      returns (result: ProcessResult)
      requires m in monitors
      modifies this
      ensures (Tables(), result) == Process(old(Tables()), m, snapshot, status, now, opts)
    {
      var maintenance := InMaintenance(windows, m, now);
      var decision := Transition(TransitionInput(
        snapshot.health, IsSuccess(status), snapshot.failures, snapshot.successes,
        snapshot.failureThreshold, snapshot.successThreshold, maintenance));
      RecordCheck(m, snapshot, status, decision, now, opts.ping);

      var incidentId: Option<nat> := None;
      var outcome := NoChange;
      var flapping := false;
      if decision.incident.Open? {
        incidentId, flapping := OpenAndAlert(snapshot.organizationId, m, now, opts.alerts);
        if incidentId.Some? {
          outcome := WentDown;
        }
      } else if decision.incident.Resolve? {
        incidentId := ResolveAndAlert(m, now, opts.alerts);
        if incidentId.Some? {
          outcome := Recovered;
        }
      } else if decision.changed && decision.state == Down {
        incidentId := FindUnresolved(incidents, m);
        if incidentId.Some? {
          AddEvent(incidentId.value, StatusChangedEvent, now);
        }
      }
      result := ProcessResult(snapshot.health, decision.state, outcome, maintenance, flapping, incidentId);
    }

    /** A scheduled check: paused, disabled and unknown monitors are skipped. */
    method CheckJob(m: string, status: CheckStatus, now: Millis) returns (result: Option<ProcessResult>)
      modifies this
      ensures Tables() == Apply(old(Tables()), L.CheckJob(m, status, now))
      ensures result.None? <==> m !in old(monitors) || old(monitors)[m].mode != Active
    {
      if m !in monitors || monitors[m].mode != Active {
        return None;
      }
      var r := ProcessCheckResult(m, monitors[m], status, now, JOB);
      return Some(r);
    }

    /** A heartbeat ping: only the monitor's type is looked at, not whether it is paused, and nobody is alerted. */
    method RecordHeartbeat(m: string, now: Millis) returns (result: Option<ProcessResult>)
      modifies this
      ensures Tables() == Apply(old(Tables()), Heartbeat(m, now))
      ensures result.None? <==> m !in old(monitors) || !old(monitors)[m].heartbeat
    {
      if m !in monitors || !monitors[m].heartbeat {
        return None;
      }
      var r := ProcessCheckResult(m, monitors[m], CheckUp, now, PING);
      return Some(r);
    }

    // ---- apps/api/src/services/incident.service.ts ----

    /** Returns whether the incident exists in the organization. */
    method Acknowledge(org: string, id: nat, now: Millis) returns (found: bool)
      modifies this`incidents, this`events
      ensures Tables() == Apply(old(Tables()), L.Acknowledge(id, org, now))
      ensures found == Owns(old(Tables()), id, org)
    {
      found := id < |incidents| && incidents[id].organizationId == org;
      if found && incidents[id].status == OpenStatus {
        incidents := incidents[id := incidents[id].(status := Acknowledged, acknowledgedAt := Some(now))];
        AddEvent(id, AcknowledgedEvent, now);
      }
    }

    method Resolve(org: string, id: nat, now: Millis) returns (found: bool)
      modifies this`incidents, this`events
      ensures Tables() == Apply(old(Tables()), ManualResolve(id, org, now))
      ensures found == Owns(old(Tables()), id, org)
    {
      found := id < |incidents| && incidents[id].organizationId == org;
      if found && incidents[id].status != Resolved {
        var row := incidents[id];
        var durationSec := DurationSec(now - row.startedAt);
        incidents := incidents[id :=
          row.(status := Resolved, resolvedAt := Some(now), durationSec := Some(durationSec), fingerprint := None)];
        AddEvent(id, ResolvedEvent, now);
      }
    }

    // ---- apps/api/src/services/monitor.service.ts ----

    method Pause(org: string, m: string) returns (found: bool)
      modifies this`monitors
      ensures Tables() == Apply(old(Tables()), L.Pause(m, org))
      ensures found <==> m in old(monitors) && old(monitors)[m].organizationId == org
    {
      found := m in monitors && monitors[m].organizationId == org;
      if found && monitors[m].mode != PausedMode {
        monitors := monitors[m := monitors[m].(mode := PausedMode, health := Paused)];
      }
    }

    method Resume(org: string, m: string) returns (found: bool)
      modifies this`monitors
      ensures Tables() == Apply(old(Tables()), L.Resume(m, org))
      ensures found <==> m in old(monitors) && old(monitors)[m].organizationId == org
    {
      found := m in monitors && monitors[m].organizationId == org;
      if found && monitors[m].mode != Active {
        monitors := monitors[m := monitors[m].(mode := Active, health := Pending, failures := 0, successes := 0)];
      }
    }
  }
}
