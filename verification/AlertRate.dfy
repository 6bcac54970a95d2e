/**
 * Flapping suppression as a rate bound: however a monitor oscillates, its channels are
 * told "opened" at most FLAP_THRESHOLD times in any closed window of FLAP_WINDOW_MS.
 */
module AlertRate {
  import opened StateMachine
  import opened Lifecycle
  import opened AlertLog

  predicate AnnouncesOpen(a: Alert, m: string) {
    a.monitorId == m && a.kind == OpenedAlert
  }

  /** Unsuppressed "opened" dispatches of the monitor in the closed window that starts at `from`. */
  function OpenedInWindow(alerts: seq<Alert>, m: string, from: Millis): nat {
    if alerts == [] then 0
    else
      var last := alerts[|alerts| - 1];
      OpenedInWindow(alerts[..|alerts| - 1], m, from)
        + if AnnouncesOpen(last, m) && from <= last.at <= from + FLAP_WINDOW_MS then 1 else 0
  }

  function OpenedSince(alerts: seq<Alert>, m: string, since: Millis): nat {
    if alerts == [] then 0
    else
      var last := alerts[|alerts| - 1];
      OpenedSince(alerts[..|alerts| - 1], m, since) + if AnnouncesOpen(last, m) && since <= last.at then 1 else 0
  }

  lemma {:induction false} WindowIsWithinSince(alerts: seq<Alert>, m: string, from: Millis, since: Millis)
    requires since <= from
    ensures OpenedInWindow(alerts, m, from) <= OpenedSince(alerts, m, since)
  {
    if alerts != [] {
      WindowIsWithinSince(alerts[..|alerts| - 1], m, from, since);
    }
  }

  /** Every announcement is backed by an incident that started at the same time. */
  ghost predicate Backed(w: World) {
    forall m, since :: OpenedSince(w.alerts, m, since) <= StartedSince(w.incidents, m, since)
  }

  ghost predicate RateBounded(w: World) {
    forall m, from :: OpenedInWindow(w.alerts, m, from) <= FLAP_THRESHOLD
  }

  lemma StartedAppend(rows: seq<Incident>, row: Incident, m: string, since: Millis)
    ensures StartedSince(rows + [row], m, since)
         == StartedSince(rows, m, since) + if row.monitorId == m && row.startedAt >= since then 1 else 0
  {
    assert (rows + [row])[..|rows|] == rows;
  }

  lemma AlertAppend(alerts: seq<Alert>, a: Alert, m: string, from: Millis)
    ensures OpenedInWindow(alerts + [a], m, from)
         == OpenedInWindow(alerts, m, from) + if AnnouncesOpen(a, m) && from <= a.at <= from + FLAP_WINDOW_MS then 1 else 0
    ensures OpenedSince(alerts + [a], m, from)
         == OpenedSince(alerts, m, from) + if AnnouncesOpen(a, m) && from <= a.at then 1 else 0
  {
    assert (alerts + [a])[..|alerts|] == alerts;
  }

  /** The step that matters: an incident is opened, and announced unless flapping. */
  lemma OpenKeepsRate(w: World, org: string, m: string, now: Millis, alerts: bool)
    requires Backed(w) && RateBounded(w)
    ensures Backed(OpenAndAlert(w, org, m, now, alerts).0) && RateBounded(OpenAndAlert(w, org, m, now, alerts).0)
  {
    if !KeyTaken(w.incidents, m) {
      var row, a := DetectedRow(org, m, now), Alert(|w.incidents|, m, OpenedAlert, now);
      var r := OpenAndAlert(w, org, m, now, alerts).0;
      forall x, since ensures OpenedSince(r.alerts, x, since) <= StartedSince(r.incidents, x, since) {
        StartedAppend(w.incidents, row, x, since);
        AlertAppend(w.alerts, a, x, since);
        assert OpenedSince(w.alerts, x, since) <= StartedSince(w.incidents, x, since);
      }
      forall x, from ensures OpenedInWindow(r.alerts, x, from) <= FLAP_THRESHOLD {
        AlertAppend(w.alerts, a, x, from);
        assert OpenedInWindow(w.alerts, x, from) <= FLAP_THRESHOLD;
        if x == m && from <= now <= from + FLAP_WINDOW_MS && !Flapping(w.incidents, m, now) {
          WindowIsWithinSince(w.alerts, m, from, now - FLAP_WINDOW_MS);
          assert OpenedSince(w.alerts, m, now - FLAP_WINDOW_MS) <= StartedSince(w.incidents, m, now - FLAP_WINDOW_MS);
        }
      }
    }
  }

  lemma CloseKeepsRate(w: World, id: nat, row: Incident)
    requires Backed(w) && RateBounded(w) && id < |w.incidents|
    requires row.monitorId == w.incidents[id].monitorId && row.startedAt == w.incidents[id].startedAt
    ensures forall x, since :: OpenedSince(w.alerts, x, since) <= StartedSince(w.incidents[id := row], x, since)
  {
    forall x, since ensures OpenedSince(w.alerts, x, since) <= StartedSince(w.incidents[id := row], x, since) {
      StartedUpdate(w.incidents, id, row, x, since);
      assert OpenedSince(w.alerts, x, since) <= StartedSince(w.incidents, x, since);
    }
  }

  lemma ResolveKeepsRate(w: World, m: string, now: Millis, alerts: bool)
    requires Backed(w) && RateBounded(w)
    ensures Backed(ResolveAndAlert(w, m, now, alerts).0) && RateBounded(ResolveAndAlert(w, m, now, alerts).0)
  {
    var found := FindUnresolved(w.incidents, m);
    if found.Some? {
      var id := found.value;
      CloseKeepsRate(w, id, ResolvedRow(w.incidents[id], now));
      var a := Alert(id, m, ResolvedAlert, now);
      forall x, from {
        AlertAppend(w.alerts, a, x, from);
      }
      assert forall x, from :: OpenedInWindow(w.alerts + [a], x, from)
                            == OpenedInWindow(w.alerts, x, from);
    }
  }

  lemma ProcessKeepsRate(w: World, m: string, snapshot: MonitorRow, status: CheckStatus, now: Millis, opts: ProcessOptions)
    requires m in w.monitors && Backed(w) && RateBounded(w)
    ensures var r := Process(w, m, snapshot, status, now, opts).0; Backed(r) && RateBounded(r)
  {
    var d := DecisionFor(snapshot, status, InMaintenance(w.windows, m, now));
    var recorded := RecordCheck(w, m, snapshot, status, d, now, opts.ping);
    assert Backed(recorded) && RateBounded(recorded) by {
      assert recorded.alerts == w.alerts && recorded.incidents == w.incidents;
    }
    if d.incident == Open {
      OpenKeepsRate(recorded, snapshot.organizationId, m, now, opts.alerts);
    } else if d.incident == Resolve {
      ResolveKeepsRate(recorded, m, now, opts.alerts);
    }
  }

  lemma ApplyKeepsRate(w: World, op: Op)
    requires Backed(w) && RateBounded(w)
    ensures Backed(Apply(w, op)) && RateBounded(Apply(w, op))
  {
    match op
    case CheckJob(m, status, now) =>
      if m in w.monitors { ProcessKeepsRate(w, m, w.monitors[m], status, now, JOB); }
    case Heartbeat(m, now) =>
      if m in w.monitors { ProcessKeepsRate(w, m, w.monitors[m], CheckUp, now, PING); }
    case Acknowledge(id, org, now) =>
      if Owns(w, id, org) { CloseKeepsRate(w, id, AcknowledgedRow(w.incidents[id], now)); }
    case ManualResolve(id, org, now) =>
      if Owns(w, id, org) { CloseKeepsRate(w, id, ResolvedRow(w.incidents[id], now)); }
    case _ =>
  }

  lemma {:induction false} RunKeepsRate(w: World, ops: seq<Op>)
    requires Backed(w) && RateBounded(w)
    ensures Backed(Run(w, ops)) && RateBounded(Run(w, ops))
    decreases |ops|
  {
    if ops != [] {
      ApplyKeepsRate(w, ops[0]);
      RunKeepsRate(Apply(w, ops[0]), ops[1..]);
    }
  }

  /**
   * The bound holds for every serialized run, with manual resolves, pauses and
   * maintenance in any order, and even when the clocks of the workers run backwards:
   * the incident count has a lower time bound only.
   */
  lemma AlertRateBound(w: World, ops: seq<Op>, m: string, from: Millis)
    requires w.alerts == []
    ensures OpenedInWindow(Run(w, ops).alerts, m, from) <= FLAP_THRESHOLD
  {
    RunKeepsRate(w, ops);
  }
}
