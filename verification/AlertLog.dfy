/**
 * The alert log is determined by the incident table: which incidents were announced,
 * and which were suppressed as flapping, can be read off their start times.
 */
module AlertLog {
  import opened Wrappers
  import opened StateMachine
  import opened Lifecycle

  function AlertCount(alerts: seq<Alert>, id: nat, kind: AlertKind): nat {
    if alerts == [] then 0
    else
      var last := alerts[|alerts| - 1];
      AlertCount(alerts[..|alerts| - 1], id, kind) + if last.incident == id && last.kind == kind then 1 else 0
  }

  /** Enough incidents of the monitor had started in the window before this one did. */
  predicate StartedFlapping(rows: seq<Incident>, id: nat)
    requires id < |rows|
  {
    Flapping(rows[..id], rows[id].monitorId, rows[id].startedAt)
  }

  /** An incident of the monitor that started in the 30 minutes before `at`, or later. */
  predicate IsRecent(row: Incident, m: string, at: Millis) {
    row.monitorId == m && at - row.startedAt <= 1800000
  }

  function Recent(rows: seq<Incident>, m: string, at: Millis): set<nat> {
    set i: nat | i < |rows| && IsRecent(rows[i], m, at)
  }

  lemma RecentNext(rows: seq<Incident>, row: Incident, m: string, at: Millis)
    ensures |Recent(rows + [row], m, at)| == |Recent(rows, m, at)| + if IsRecent(row, m, at) then 1 else 0
  {
    var all, before, n := Recent(rows + [row], m, at), Recent(rows, m, at), |rows|;
    assert forall i: nat :: i < n ==> (rows + [row])[i] == rows[i];
    assert (rows + [row])[n] == row;
    if IsRecent(row, m, at) {
      assert all == before + {n};
    } else {
      assert all == before;
    }
  }

  lemma {:induction false} StartedIsRecent(rows: seq<Incident>, m: string, at: Millis)
    ensures StartedSince(rows, m, at - FLAP_WINDOW_MS) == |Recent(rows, m, at)|
  {
    if rows == [] {
      assert Recent(rows, m, at) == {};
    } else {
      StartedIsRecent(rows[..|rows| - 1], m, at);
      RecentNext(rows[..|rows| - 1], rows[|rows| - 1], m, at);
      assert rows[..|rows| - 1] + [rows[|rows| - 1]] == rows;
    }
  }

  lemma FlappingIsRecent(rows: seq<Incident>, m: string, at: Millis)
    ensures Flapping(rows, m, at) <==> |Recent(rows, m, at)| >= 3
  {
    StartedIsRecent(rows, m, at);
  }

  // ---- Who resolved an incident ----

  /** A check of the monitor, a ping, or a person. */
  datatype Closer = ByCheck | ByPing | ByHand

  /** The check is decided as a recovery, and this is the incident it finds. */
  predicate Recovers(w: World, m: string, status: CheckStatus, now: Millis, id: nat)
    requires m in w.monitors
  {
    && DecisionFor(w.monitors[m], status, InMaintenance(w.windows, m, now)).incident == Resolve
    && FindUnresolved(w.incidents, m) == Some(id)
  }

  /** Who resolves the incident in this operation, if anybody does. */
  function ClosedNow(w: World, op: Op, id: nat): Option<Closer> {
    match op
    case CheckJob(m, status, now) =>
      if m in w.monitors && w.monitors[m].mode == Active && Recovers(w, m, status, now, id) then Some(ByCheck) else None
    case Heartbeat(m, now) =>
      if m in w.monitors && w.monitors[m].heartbeat && Recovers(w, m, CheckUp, now, id) then Some(ByPing) else None
    case ManualResolve(at, org, _) =>
      if at == id && Owns(w, id, org) && w.incidents[id].status != Resolved then Some(ByHand) else None
    case _ => None
  }

  /** Who resolved the incident during the run, if anybody did. */
  function ClosedBy(w: World, ops: seq<Op>, id: nat): Option<Closer> {
    if ops == [] then None
    else
      var before := ops[..|ops| - 1];
      var closer := ClosedBy(w, before, id);
      if closer.Some? then closer else ClosedNow(Run(w, before), ops[|ops| - 1], id)
  }

  // ---- The alert log ----

  /** Announced once unless it started flapping; its recovery is announced once, by the check that resolves it. */
  predicate Accounted(w: World, id: nat, closer: Option<Closer>) {
    if id < |w.incidents| then
      && (w.incidents[id].status == Resolved <==> closer.Some?)
      && AlertCount(w.alerts, id, OpenedAlert) == (if StartedFlapping(w.incidents, id) then 0 else 1)
      && AlertCount(w.alerts, id, ResolvedAlert) == (if closer == Some(ByCheck) then 1 else 0)
    else
      closer.None? && AlertCount(w.alerts, id, OpenedAlert) == AlertCount(w.alerts, id, ResolvedAlert) == 0
  }

  lemma CountAppend(alerts: seq<Alert>, a: Alert, id: nat, kind: AlertKind)
    ensures AlertCount(alerts + [a], id, kind)
         == AlertCount(alerts, id, kind) + if a.incident == id && a.kind == kind then 1 else 0
  {
    assert (alerts + [a])[..|alerts|] == alerts;
  }

  /** Later updates of a row keep its monitor and its start. */
  lemma {:induction false} StartedUpdate(rows: seq<Incident>, id: nat, row: Incident, m: string, since: Millis)
    requires id < |rows| && row.monitorId == rows[id].monitorId && row.startedAt == rows[id].startedAt
    ensures StartedSince(rows[id := row], m, since) == StartedSince(rows, m, since)
  {
    var n := |rows| - 1;
    if id < n {
      StartedUpdate(rows[..n], id, row, m, since);
      assert rows[id := row][..n] == rows[..n][id := row];
    } else {
      assert rows[id := row][..n] == rows[..n];
    }
  }

  /** Later updates of a row do not change which incidents started flapping. */
  lemma FlappingAfterUpdate(rows: seq<Incident>, at: nat, row: Incident, id: nat)
    requires at < |rows| && id < |rows| && row.monitorId == rows[at].monitorId && row.startedAt == rows[at].startedAt
    ensures StartedFlapping(rows[at := row], id) == StartedFlapping(rows, id)
  {
    if at < id {
      assert rows[at := row][..id] == rows[..id][at := row];
      StartedUpdate(rows[..id], at, row, rows[id].monitorId, rows[id].startedAt - FLAP_WINDOW_MS);
    } else {
      assert rows[at := row][..id] == rows[..id];
    }
  }

  lemma OpenAccounted(w: World, org: string, m: string, now: Millis, id: nat, closer: Option<Closer>)
    requires Accounted(w, id, closer)
    ensures Accounted(OpenAndAlert(w, org, m, now, true).0, id, closer)
  {
    if !KeyTaken(w.incidents, m) {
      var next := |w.incidents|;
      OpenWrites(w, org, m, now);
      FlappingAfterOpen(w.incidents, DetectedRow(org, m, now), id);
      CountAppend(w.alerts, Alert(next, m, OpenedAlert, now), id, OpenedAlert);
      CountAppend(w.alerts, Alert(next, m, OpenedAlert, now), id, ResolvedAlert);
    }
  }

  lemma OpenWrites(w: World, org: string, m: string, now: Millis)
    requires !KeyTaken(w.incidents, m)
    ensures var r := OpenAndAlert(w, org, m, now, true).0;
      && r.incidents == w.incidents + [DetectedRow(org, m, now)]
      && r.alerts == w.alerts + if Flapping(w.incidents, m, now) then [] else [Alert(|w.incidents|, m, OpenedAlert, now)]
  {
    assert w.alerts + [] == w.alerts;
  }

  /** A new row changes nothing for the earlier ones, and started flapping if the monitor flaps now. */
  lemma FlappingAfterOpen(rows: seq<Incident>, row: Incident, id: nat)
    ensures id < |rows| ==> StartedFlapping(rows + [row], id) == StartedFlapping(rows, id)
    ensures StartedFlapping(rows + [row], |rows|) == Flapping(rows, row.monitorId, row.startedAt)
  {
    var all := rows + [row];
    assert all[..|rows|] == rows && all[|rows|] == row;
    if id < |rows| {
      assert all[..id] == rows[..id];
    }
  }

  /** An update of a row that sends nothing. */
  lemma SilentUpdateAccounted(w: World, r: World, at: nat, row: Incident, id: nat, before: Option<Closer>, after: Option<Closer>)
    requires Accounted(w, id, before) && at < |w.incidents| && w.incidents[at].status != Resolved
    requires row.monitorId == w.incidents[at].monitorId && row.startedAt == w.incidents[at].startedAt
    requires r.incidents == w.incidents[at := row] && r.alerts == w.alerts
    requires if at == id && row.status == Resolved then after.Some? && after != Some(ByCheck) else after == before
    ensures Accounted(r, id, after)
  {
    if id < |w.incidents| {
      FlappingAfterUpdate(w.incidents, at, row, id);
    }
  }

  lemma ResolveAccounted(w: World, m: string, now: Millis, alerts: bool, id: nat, closer: Option<Closer>)
    requires Accounted(w, id, closer)
    ensures Accounted(ResolveAndAlert(w, m, now, alerts).0, id,
                      if FindUnresolved(w.incidents, m) == Some(id) then Some(if alerts then ByCheck else ByPing) else closer)
  {
    var found := FindUnresolved(w.incidents, m);
    if found.Some? {
      var at := found.value;
      if id < |w.incidents| {
        FlappingAfterUpdate(w.incidents, at, ResolvedRow(w.incidents[at], now), id);
      }
      CountAppend(w.alerts, Alert(at, m, ResolvedAlert, now), id, OpenedAlert);
      CountAppend(w.alerts, Alert(at, m, ResolvedAlert, now), id, ResolvedAlert);
    }
  }

  function Later(first: Option<Closer>, second: Option<Closer>): Option<Closer> {
    if first.Some? then first else second
  }

  /** One processed check: a ping is a success, and so never opens an incident. */
  lemma ProcessAccounted(w: World, m: string, status: CheckStatus, now: Millis, opts: ProcessOptions, id: nat, closer: Option<Closer>)
    requires m in w.monitors && Accounted(w, id, closer) && (opts.alerts || IsSuccess(status))
    ensures Accounted(Process(w, m, w.monitors[m], status, now, opts).0, id,
                      Later(closer, if Recovers(w, m, status, now, id) then Some(if opts.alerts then ByCheck else ByPing) else None))
  {
    var row := w.monitors[m];
    var d := DecisionFor(row, status, InMaintenance(w.windows, m, now));
    var recorded := RecordCheck(w, m, row, status, d, now, opts.ping);
    assert Accounted(recorded, id, closer);
    if d.incident == Open {
      OpenAccounted(recorded, row.organizationId, m, now, id, closer);
    } else if d.incident == Resolve {
      ResolveAccounted(recorded, m, now, opts.alerts, id, closer);
    }
  }

  lemma ApplyAccounted(w: World, op: Op, id: nat, closer: Option<Closer>)
    requires Accounted(w, id, closer)
    ensures Accounted(Apply(w, op), id, Later(closer, ClosedNow(w, op, id)))
  {
    match op
    case CheckJob(m, status, now) =>
      if m in w.monitors { ProcessAccounted(w, m, status, now, JOB, id, closer); }
    case Heartbeat(m, now) =>
      if m in w.monitors { ProcessAccounted(w, m, CheckUp, now, PING, id, closer); }
    case Acknowledge(at, org, now) =>
      if Owns(w, at, org) && w.incidents[at].status == OpenStatus {
        SilentUpdateAccounted(w, Apply(w, op), at, AcknowledgedRow(w.incidents[at], now), id, closer, closer);
      }
    case ManualResolve(at, org, now) =>
      if Owns(w, at, org) && w.incidents[at].status != Resolved {
        SilentUpdateAccounted(w, Apply(w, op), at, ResolvedRow(w.incidents[at], now), id, closer,
                              if at == id then Some(ByHand) else closer);
      }
    case _ =>
  }

  lemma {:induction false} RunAccounted(w: World, ops: seq<Op>, id: nat)
    requires Accounted(w, id, None)
    ensures Accounted(Run(w, ops), id, ClosedBy(w, ops, id))
    decreases |ops|
  {
    if ops != [] {
      var before, op := ops[..|ops| - 1], ops[|ops| - 1];
      RunAccounted(w, before, id);
      ApplyAccounted(Run(w, before), op, id, ClosedBy(w, before, id));
      RunLast(w, before, op);
      assert before + [op] == ops;
    }
  }

  /**
   * Over every serialized run: an incident was announced as opened exactly once if it
   * did not start flapping, with three incidents of its monitor in the 30 minutes before
   * it, and never if it did; its recovery was announced exactly once
   * if a scheduled check resolved it, and never if it is unresolved or was resolved by a
   * ping or a person. So people hear of the recovery of an outage they were not told
   * about exactly when it started flapping and a check resolved it, and they never hear
   * of the recovery of one they were told about exactly when a ping or a person did.
   */
  lemma AlertsFollowIncidents(w: World, ops: seq<Op>, id: nat)
    requires w.incidents == [] && w.alerts == []
    ensures var r, closer := Run(w, ops), ClosedBy(w, ops, id);
      id < |r.incidents| ==>
        var openings, recoveries := AlertCount(r.alerts, id, OpenedAlert), AlertCount(r.alerts, id, ResolvedAlert);
        && openings == (if StartedFlapping(r.incidents, id) then 0 else 1)
        && (StartedFlapping(r.incidents, id)
            <==> |Recent(r.incidents[..id], r.incidents[id].monitorId, r.incidents[id].startedAt)| >= 3)
        && recoveries == (if closer == Some(ByCheck) then 1 else 0)
        && (r.incidents[id].status == Resolved <==> closer.Some?)
        && (openings == 0 && recoveries == 1 <==> StartedFlapping(r.incidents, id) && closer == Some(ByCheck))
        && (openings == 1 && recoveries == 0 && closer.Some?
            <==> !StartedFlapping(r.incidents, id) && (closer == Some(ByPing) || closer == Some(ByHand)))
  {
    RunAccounted(w, ops, id);
    var rows := Run(w, ops).incidents;
    if id < |rows| {
      FlappingIsRecent(rows[..id], rows[id].monitorId, rows[id].startedAt);
    }
    match ClosedBy(w, ops, id)
    case None =>
    case Some(ByCheck) =>
    case Some(ByPing) =>
    case Some(ByHand) =>
  }

  // ---- A ping that ends an outage ----

  /** An overdue heartbeat monitor is announced as down; the ping that brings it back tells nobody. */
  lemma SilentRecovery()
    ensures var r := Run(PINGED, [CheckJob("m", CheckDown, 0), Heartbeat("m", 60000)]);
      && "m" in r.monitors && r.monitors["m"].health == Up
      && |r.incidents| == 1 && r.incidents[0].status == Resolved
      && r.alerts == [Alert(0, "m", OpenedAlert, 0)]
  {
    var fails, ping := CheckJob("m", CheckDown, 0), Heartbeat("m", 60000);
    RunLast(PINGED, [], fails);
    RunLast(PINGED, [fails], ping);
    assert [] + [fails] == [fails] && [fails] + [ping] == [fails, ping];
    var down := Apply(PINGED, fails);
    OverdueOpens(fails);
    PingResolves(down, ping);
  }

  lemma OverdueOpens(op: Op)
    requires op == CheckJob("m", CheckDown, 0)
    ensures var r := Apply(PINGED, op);
      && r.windows == [] && "m" in r.monitors && r.monitors["m"].heartbeat && r.monitors["m"].successThreshold == 1
      && r.monitors["m"].health == Down
      && r.incidents == [DetectedRow("org", "m", 0)] && r.alerts == [Alert(0, "m", OpenedAlert, 0)]
  {
  }

  lemma PingResolves(w: World, op: Op)
    requires w.windows == [] && "m" in w.monitors && w.monitors["m"].heartbeat && w.monitors["m"].successThreshold == 1
    requires w.monitors["m"].health == Down && w.incidents == [DetectedRow("org", "m", 0)]
    requires op == Heartbeat("m", 60000)
    ensures var r := Apply(w, op);
      && "m" in r.monitors && r.monitors["m"].health == Up && r.alerts == w.alerts
      && r.incidents == [ResolvedRow(w.incidents[0], 60000)]
  {
    assert Live(w.incidents[0], "m");
  }

  // ---- A monitor that keeps oscillating ----

  /** A single ordinary monitor that opens and resolves with one check each. */
  const OSCILLATOR := World(map["m" := MonitorRow("org", false, Active, Pending, 0, 0, 1, 1, None)], [], [], [], [], [])

  function Minute(k: nat): Millis {
    60000 * k
  }

  /** It fails and passes in turn, once a minute. */
  function CheckAt(k: nat): Op {
    CheckJob("m", if k % 2 == 0 then CheckDown else CheckUp, Minute(k))
  }

  /** The first n checks. */
  function Oscillation(n: nat): seq<Op> {
    if n == 0 then [] else Oscillation(n - 1) + [CheckAt(n - 1)]
  }

  /** The one monitor is active, needs a single check to change, and is down or is up or new. */
  predicate Quick(w: World, down: bool) {
    && w.windows == [] && "m" in w.monitors
    && var row := w.monitors["m"];
       && row.mode == Active && row.failureThreshold == row.successThreshold == 1
       && if down then row.health == Down else row.health == Up || row.health == Pending
  }

  /** The incidents so far began every other minute and are resolved. */
  predicate EveryOtherMinute(rows: seq<Incident>) {
    forall i :: 0 <= i < |rows| ==>
      && rows[i].monitorId == "m" && rows[i].status == Resolved && rows[i].fingerprint == None
      && rows[i].startedAt == Minute(2 * i)
  }

  /** The state after n outages. */
  predicate OscillatedFor(w: World, n: nat) {
    Quick(w, false) && EveryOtherMinute(w.incidents) && |w.incidents| == n
  }

  /** The state in the next one. */
  predicate DownAfter(w: World, n: nat) {
    && Quick(w, true) && |w.incidents| == n + 1 && EveryOtherMinute(w.incidents[..n])
    && w.incidents[n] == DetectedRow(w.incidents[n].organizationId, "m", Minute(2 * n))
  }

  lemma FailingMinute(w: World, n: nat, op: Op)
    requires OscillatedFor(w, n) && op == CheckJob("m", CheckDown, Minute(2 * n))
    ensures DownAfter(Apply(w, op), n)
  {
    var r := Apply(w, op);
    assert r.incidents == w.incidents + [DetectedRow(w.monitors["m"].organizationId, "m", Minute(2 * n))];
    assert r.incidents[..n] == w.incidents;
  }

  lemma PassingMinute(w: World, n: nat, op: Op)
    requires DownAfter(w, n) && op == CheckJob("m", CheckUp, Minute(2 * n + 1))
    ensures OscillatedFor(Apply(w, op), n + 1)
  {
    var now, rows := Minute(2 * n + 1), w.incidents[..n];
    assert w.incidents == rows + [w.incidents[n]] && Live(w.incidents[n], "m");
    assert FindUnresolved(w.incidents, "m") == Some(n) by {
      assert forall i :: 0 <= i < n ==> rows[i] == w.incidents[i] && rows[i].status == Resolved;
    }
    assert Apply(w, op).incidents == rows + [ResolvedRow(w.incidents[n], now)];
  }

  /** The state after n checks. */
  predicate Oscillated(w: World, n: nat) {
    if n % 2 == 0 then OscillatedFor(w, n / 2) else DownAfter(w, n / 2)
  }

  lemma OscillationStep(w: World, n: nat, op: Op)
    requires Oscillated(w, n) && op == CheckAt(n)
    ensures Oscillated(Apply(w, op), n + 1)
  {
    if n % 2 == 0 {
      FailingMinute(w, n / 2, op);
    } else {
      PassingMinute(w, n / 2, op);
    }
  }

  lemma {:induction false} OscillationRuns(n: nat)
    ensures Oscillated(Run(OSCILLATOR, Oscillation(n)), n)
  {
    if n > 0 {
      OscillationRuns(n - 1);
      var op := CheckAt(n - 1);
      OscillationStep(Run(OSCILLATOR, Oscillation(n - 1)), n - 1, op);
      RunLast(OSCILLATOR, Oscillation(n - 1), op);
    }
  }

  /** Whatever a run of scheduled checks resolves is resolved by a check. */
  lemma {:induction false} ChecksClose(w: World, ops: seq<Op>, id: nat)
    requires forall k :: 0 <= k < |ops| ==> ops[k].CheckJob?
    ensures ClosedBy(w, ops, id) == None || ClosedBy(w, ops, id) == Some(ByCheck)
    decreases |ops|
  {
    if ops != [] {
      ChecksClose(w, ops[..|ops| - 1], id);
      assert ops[|ops| - 1].CheckJob?;
    }
  }

  lemma {:induction false} OscillationChecks(n: nat)
    ensures forall k :: 0 <= k < |Oscillation(n)| ==> Oscillation(n)[k].CheckJob?
  {
    if n > 0 {
      OscillationChecks(n - 1);
    }
  }

  lemma {:induction false} OscillationFlaps(rows: seq<Incident>, now: Millis)
    requires forall i :: 0 <= i < |rows| ==> rows[i].monitorId == "m" && rows[i].startedAt == Minute(2 * i)
    requires now == Minute(2 * |rows|)
    ensures Flapping(rows, "m", now) <==> |rows| >= 3
  {
    var since := now - FLAP_WINDOW_MS;
    if |rows| >= 3 {
      var n := |rows|;
      assert StartedSince(rows, "m", since) == StartedSince(rows[..n - 1], "m", since) + 1;
      assert StartedSince(rows[..n - 1], "m", since) == StartedSince(rows[..n - 1][..n - 2], "m", since) + 1;
    } else {
      StartedAtMostAll(rows, "m", since);
    }
  }

  lemma {:induction false} StartedAtMostAll(rows: seq<Incident>, m: string, since: Millis)
    ensures StartedSince(rows, m, since) <= |rows|
  {
    if rows != [] {
      StartedAtMostAll(rows[..|rows| - 1], m, since);
    }
  }

  /** From the fourth outage on, a monitor that oscillates every minute is announced as recovered only. */
  lemma UnannouncedRecoveries(n: nat, id: nat)
    requires id < n
    ensures var r := Run(OSCILLATOR, Oscillation(2 * n));
      && |r.incidents| == n
      && AlertCount(r.alerts, id, ResolvedAlert) == 1
      && AlertCount(r.alerts, id, OpenedAlert) == (if id < 3 then 1 else 0)
  {
    var ops := Oscillation(2 * n);
    var rows := Run(OSCILLATOR, ops).incidents;
    OscillationRuns(2 * n);
    OscillationFlaps(rows[..id], rows[id].startedAt);
    AlertsFollowIncidents(OSCILLATOR, ops, id);
    OscillationChecks(2 * n);
    ChecksClose(OSCILLATOR, ops, id);
  }

  // ---- Heartbeats ----

  /** The time of the monitor's last ping, or what it was before. */
  function LastPing(ops: seq<Op>, m: string, before: Option<Millis>): Option<Millis> {
    if ops == [] then before
    else LastPing(ops[1..], m, if ops[0].Heartbeat? && ops[0].m == m then Some(ops[0].now) else before)
  }

  /** A heartbeat monitor's `lastCheckedAt` is its last ping, whatever freshness checks ran in between. */
  lemma {:induction false} StampIsLastPing(w: World, ops: seq<Op>, m: string)
    requires m in w.monitors && w.monitors[m].heartbeat
    ensures m in Run(w, ops).monitors
    ensures Run(w, ops).monitors[m].lastCheckedAt == LastPing(ops, m, w.monitors[m].lastCheckedAt)
    decreases |ops|
  {
    if ops != [] {
      ApplyStamps(w, ops[0], m);
      StampIsLastPing(Apply(w, ops[0]), ops[1..], m);
    }
  }

  lemma ApplyStamps(w: World, op: Op, m: string)
    requires m in w.monitors && w.monitors[m].heartbeat
    ensures m in Apply(w, op).monitors && Apply(w, op).monitors[m].heartbeat
    ensures Apply(w, op).monitors[m].lastCheckedAt
         == if op.Heartbeat? && op.m == m then Some(op.now) else w.monitors[m].lastCheckedAt
  {
    if op.CheckJob? && op.m in w.monitors {
      ProcessStamps(w, op.m, op.status, op.now, JOB, m);
    } else if op.Heartbeat? && op.m in w.monitors {
      ProcessStamps(w, op.m, CheckUp, op.now, PING, m);
    }
  }

  lemma ProcessStamps(w: World, x: string, status: CheckStatus, now: Millis, opts: ProcessOptions, m: string)
    requires x in w.monitors && m in w.monitors
    ensures var r := Process(w, x, w.monitors[x], status, now, opts).0;
      && m in r.monitors && r.monitors[m].heartbeat == w.monitors[m].heartbeat
      && r.monitors[m].lastCheckedAt
         == if x == m && (opts.ping || !w.monitors[m].heartbeat) then Some(now) else w.monitors[m].lastCheckedAt
  {
    var row := w.monitors[x];
    var d := DecisionFor(row, status, InMaintenance(w.windows, x, now));
    ActOnKeepsMonitors(RecordCheck(w, x, row, status, d, now, opts.ping), d, row.organizationId, x, now, opts.alerts);
  }

  lemma ActOnKeepsMonitors(w: World, d: TransitionResult, org: string, m: string, now: Millis, alerts: bool)
    ensures ActOn(w, d, org, m, now, alerts).0.monitors == w.monitors
  {
  }
}
