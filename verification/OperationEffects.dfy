/**
 * What one operation changes, and that it changes nothing else: the result of a processed
 * check, the events it adds, the rows an API request touches, and whose rows they are.
 */
module OperationEffects {
  import opened Wrappers
  import opened StateMachine
  import opened Lifecycle
  import opened IncidentAgreement

  // ---- A processed check ----

  /** The events that a processed check adds. */
  function Added(w: World, r: World): seq<Event>
    requires |w.events| <= |r.events|
  {
    r.events[|w.events|..]
  }

  /** It opened an incident: a row and its DETECTED event at the end, and a note if the alert is held back. */
  predicate Opened(w: World, r: World, res: ProcessResult, m: string, now: Millis)
    requires |w.events| <= |r.events|
  {
    var id := |w.incidents|;
    && |r.incidents| == id + 1 && r.incidents[..id] == w.incidents
    && r.incidents[id].monitorId == m && r.incidents[id].startedAt == now && r.incidents[id].status == OpenStatus
    && res.incidentId == Some(id)
    && Added(w, r) == [Event(id, DetectedEvent, now)] + Note(id, res.flapping, now)
  }

  /** It resolved one: that row alone is closed, with its RESOLVED event. */
  predicate Closed(w: World, r: World, res: ProcessResult, m: string, now: Millis)
    requires |w.events| <= |r.events|
  {
    && res.incidentId.Some? && res.incidentId.value < |w.incidents| == |r.incidents|
    && var id := res.incidentId.value;
       && w.incidents[id].monitorId == m && w.incidents[id].status != Resolved
       && r.incidents[id].status == Resolved && r.incidents[id].resolvedAt == Some(now)
       && (forall i :: 0 <= i < |w.incidents| && i != id ==> r.incidents[i] == w.incidents[i])
       && Added(w, r) == [Event(id, ResolvedEvent, now)]
  }

  /** It did neither; a relapse is noted on the incident if there is one. */
  predicate LeftAlone(w: World, r: World, res: ProcessResult, relapsed: bool, now: Millis)
    requires |w.events| <= |r.events|
  {
    && r.incidents == w.incidents && r.alerts == w.alerts
    && Added(w, r) == if relapsed && res.incidentId.Some? then [Event(res.incidentId.value, StatusChangedEvent, now)] else []
  }

  /**
   * The result of a processed check tells what it did: "down" if and only if it opened an
   * incident, "recovered" if and only if it resolved one. A failing check of a recovering
   * monitor is noted as a relapse; no other check adds an event.
   */
  lemma ResultTellsEffect(w: World, m: string, status: CheckStatus, now: Millis, opts: ProcessOptions)
    requires m in w.monitors
    ensures var (r, res) := Process(w, m, w.monitors[m], status, now, opts);
      var relapsed := Normalize(w.monitors[m].health) == Recovering && res.newHealth == Down;
      && w.events <= r.events && m in r.monitors
      && res.previousHealth == w.monitors[m].health && res.newHealth == r.monitors[m].health
      && (match res.transition
          case WentDown => Opened(w, r, res, m, now)
          case Recovered => Closed(w, r, res, m, now)
          case NoChange => LeftAlone(w, r, res, relapsed, now))
      && (relapsed ==> (res.incidentId.Some? <==> HasLive(w.incidents, m)))
  {
    var row := w.monitors[m];
    var d := DecisionFor(row, status, InMaintenance(w.windows, m, now));
    var recorded := RecordCheck(w, m, row, status, d, now, opts.ping);
    if d.incident == Open {
      OpenEffect(recorded, row.organizationId, m, now, opts.alerts);
    } else if d.incident == Resolve {
      CloseEffect(recorded, m, now, opts.alerts);
    } else if d.changed && d.state == Down {
      NoteEffect(recorded, m, now);
    }
  }

  lemma NewEvents(before: seq<Event>, more: seq<Event>)
    ensures before <= before + more && (before + more)[|before|..] == more
  {
  }

  /** The note on a new incident when its alert is held back. */
  function Note(id: nat, flapping: bool, now: Millis): seq<Event> {
    if flapping then [Event(id, StatusChangedEvent, now)] else []
  }

  lemma OpenEffect(w: World, org: string, m: string, now: Millis, alerts: bool)
    ensures var (r, id) := OpenAndAlert(w, org, m, now, alerts);
      && w.events <= r.events && r.monitors == w.monitors
      && if id.None? then r == w
         else
           && id == Some(|w.incidents|) && r.incidents == w.incidents + [DetectedRow(org, m, now)]
           && r.incidents[..|w.incidents|] == w.incidents
           && Added(w, r) == [Event(|w.incidents|, DetectedEvent, now)] + Note(|w.incidents|, Flapping(w.incidents, m, now), now)
  {
    var r, n := OpenAndAlert(w, org, m, now, alerts).0, |w.incidents|;
    if !KeyTaken(w.incidents, m) {
      var more := [Event(n, DetectedEvent, now)] + Note(n, Flapping(w.incidents, m, now), now);
      assert r.events == w.events + more;
      NewEvents(w.events, more);
    }
  }

  lemma CloseEffect(w: World, m: string, now: Millis, alerts: bool)
    ensures var (r, id) := ResolveAndAlert(w, m, now, alerts);
      && w.events <= r.events && r.monitors == w.monitors
      && if id.None? then r == w
         else
           && id.value < |w.incidents| && Live(w.incidents[id.value], m)
           && r.incidents == w.incidents[id.value := ResolvedRow(w.incidents[id.value], now)]
           && Added(w, r) == [Event(id.value, ResolvedEvent, now)]
  {
    var id := FindUnresolved(w.incidents, m);
    if id.Some? {
      NewEvents(w.events, [Event(id.value, ResolvedEvent, now)]);
    }
  }

  lemma NoteEffect(w: World, m: string, now: Millis)
    ensures var (r, id) := NoteRelapse(w, m, now);
      && w.events <= r.events && r == w.(events := r.events)
      && (id.Some? <==> HasLive(w.incidents, m))
      && Added(w, r) == if id.Some? then [Event(id.value, StatusChangedEvent, now)] else []
  {
    var id := FindUnresolved(w.incidents, m);
    if id.Some? {
      NewEvents(w.events, [Event(id.value, StatusChangedEvent, now)]);
    }
  }

  // ---- Requests ----

  /** An acknowledge changes an OPEN incident of the organization, and only its status and time; anything else is left alone. */
  lemma AcknowledgeEffect(w: World, id: nat, org: string, now: Millis)
    ensures var r := Apply(w, Acknowledge(id, org, now));
      if id < |w.incidents| && w.incidents[id].organizationId == org && w.incidents[id].status == OpenStatus then
        && r.incidents == w.incidents[id := w.incidents[id].(status := Acknowledged, acknowledgedAt := Some(now))]
        && r == w.(incidents := r.incidents, events := w.events + [Event(id, AcknowledgedEvent, now)])
      else r == w
  {
  }

  /** A manual resolve closes an unresolved incident of the organization and frees its key; anything else is left alone. */
  lemma ManualResolveEffect(w: World, id: nat, org: string, now: Millis)
    ensures var r := Apply(w, ManualResolve(id, org, now));
      if id < |w.incidents| && w.incidents[id].organizationId == org && w.incidents[id].status != Resolved then
        && |r.incidents| == |w.incidents|
        && r.incidents == w.incidents[id := w.incidents[id].(status := Resolved, fingerprint := None, resolvedAt := Some(now),
                                                             durationSec := r.incidents[id].durationSec)]
        && r == w.(incidents := r.incidents, events := w.events + [Event(id, ResolvedEvent, now)])
      else r == w
  {
  }

  // ---- Tenants ----

  /** The organization on whose behalf a request is made. */
  function Requester(op: Op): Option<string> {
    match op
    case Pause(_, org) => Some(org)
    case Resume(_, org) => Some(org)
    case Acknowledge(_, org, _) => Some(org)
    case ManualResolve(_, org, _) => Some(org)
    case _ => None
  }

  /** Nothing of any other organization is changed, and nothing is added to the incidents, checks or alerts. */
  lemma RequestsStayInTenant(w: World, op: Op, org: string)
    requires Requester(op) == Some(org)
    ensures var r := Apply(w, op);
      && r.monitors.Keys == w.monitors.Keys && |r.incidents| == |w.incidents|
      && r.checks == w.checks && r.alerts == w.alerts && r.windows == w.windows
      && (forall m :: m in w.monitors && w.monitors[m].organizationId != org ==> r.monitors[m] == w.monitors[m])
      && (forall i :: 0 <= i < |w.incidents| && w.incidents[i].organizationId != org ==> r.incidents[i] == w.incidents[i])
  {
  }

  /** The incidents of a monitor belong to its organization. */
  ghost predicate TenantsMatch(w: World) {
    forall i :: 0 <= i < |w.incidents| ==>
      w.incidents[i].monitorId in w.monitors
      && w.incidents[i].organizationId == w.monitors[w.incidents[i].monitorId].organizationId
  }

  lemma ProcessKeepsTenants(w: World, m: string, status: CheckStatus, now: Millis, opts: ProcessOptions)
    requires TenantsMatch(w) && m in w.monitors
    ensures TenantsMatch(Process(w, m, w.monitors[m], status, now, opts).0)
  {
    var row := w.monitors[m];
    var d := DecisionFor(row, status, InMaintenance(w.windows, m, now));
    var recorded := RecordCheck(w, m, row, status, d, now, opts.ping);
    assert TenantsMatch(recorded);
    if d.incident == Open {
      OpenEffect(recorded, row.organizationId, m, now, opts.alerts);
    } else if d.incident == Resolve {
      CloseEffect(recorded, m, now, opts.alerts);
    }
  }

  lemma ApplyKeepsTenants(w: World, op: Op)
    requires TenantsMatch(w)
    ensures TenantsMatch(Apply(w, op))
  {
    match op
    case CheckJob(m, status, now) => if m in w.monitors { ProcessKeepsTenants(w, m, status, now, JOB); }
    case Heartbeat(m, now) => if m in w.monitors { ProcessKeepsTenants(w, m, CheckUp, now, PING); }
    case _ =>
  }

  /** In every serialized run an incident belongs to the organization of its monitor. */
  lemma {:induction false} IncidentsBelongToTenant(w: World, ops: seq<Op>)
    requires TenantsMatch(w)
    ensures TenantsMatch(Run(w, ops))
    decreases |ops|
  {
    if ops != [] {
      ApplyKeepsTenants(w, ops[0]);
      IncidentsBelongToTenant(Apply(w, ops[0]), ops[1..]);
    }
  }
}
