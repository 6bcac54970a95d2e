/**
 * The pipeline follows the history specification: without maintenance and pauses, the
 * row of a monitor is what its check history says, and it has had exactly as many
 * incidents as the history reports outages, manual resolves notwithstanding.
 */
module DebouncedIncidents {
  import opened Sequences
  import opened StateMachine
  import H = HealthHistory
  import opened Lifecycle
  import opened IncidentAgreement

  function IncidentCount(rows: seq<Incident>, m: string): nat {
    if rows == [] then 0
    else IncidentCount(rows[..|rows| - 1], m) + if rows[|rows| - 1].monitorId == m then 1 else 0
  }

  /** The monitor in question, with the settings that the run does not change. */
  datatype Subject = Subject(m: string, heartbeat: bool, f: Threshold, s: Threshold)

  /** The outcome of the operation if it is a check of the monitor, or a ping if that is what it awaits. */
  function OutcomeOf(op: Op, who: Subject): seq<bool> {
    match op
    case CheckJob(x, status, _) => if x == who.m then [IsSuccess(status)] else []
    case Heartbeat(x, _) => if x == who.m && who.heartbeat then [true] else []
    case _ => []
  }

  function Outcomes(ops: seq<Op>, who: Subject): seq<bool> {
    if ops == [] then [] else OutcomeOf(ops[0], who) + Outcomes(ops[1..], who)
  }

  /** No maintenance, and nobody pauses or resumes this monitor. */
  predicate Undisturbed(op: Op, who: Subject) {
    !op.EditWindows? && (op.Pause? || op.Resume? ==> op.m != who.m)
  }

  predicate HasSettings(row: MonitorRow, who: Subject) {
    row.mode == Active && row.heartbeat == who.heartbeat && row.failureThreshold == who.f && row.successThreshold == who.s
  }

  /** The monitor's row and incidents after the checks `h`. */
  ghost predicate Follows(w: World, who: Subject, h: seq<bool>) {
    && who.m in w.monitors && w.windows == []
    && var row := w.monitors[who.m];
       && HasSettings(row, who) && Canonical(row.health)
       && H.Machine(row.health, row.failures, row.successes) == H.Run(h, who.f, who.s)
       && IncidentCount(w.incidents, who.m) == H.Opens(h, who.f, who.s)
  }

  lemma CountAppend(rows: seq<Incident>, row: Incident, m: string)
    ensures IncidentCount(rows + [row], m) == IncidentCount(rows, m) + if row.monitorId == m then 1 else 0
  {
    assert (rows + [row])[..|rows|] == rows;
  }

  lemma {:induction false} CountUpdate(rows: seq<Incident>, id: nat, row: Incident, m: string)
    requires id < |rows| && row.monitorId == rows[id].monitorId
    ensures IncidentCount(rows[id := row], m) == IncidentCount(rows, m)
  {
    var n := |rows| - 1;
    if id < n {
      CountUpdate(rows[..n], id, row, m);
      assert rows[id := row][..n] == rows[..n][id := row];
    } else {
      assert rows[id := row][..n] == rows[..n];
    }
  }

  /** An open decision outside maintenance always creates an incident; nothing else does. */
  lemma ActOnCounts(w: World, d: TransitionResult, org: string, x: string, now: Millis, alerts: bool, m: string)
    requires d.incident == Open && x == m ==> !KeyTaken(w.incidents, x)
    ensures IncidentCount(ActOn(w, d, org, x, now, alerts).0.incidents, m)
         == IncidentCount(w.incidents, m) + if d.incident == Open && x == m then 1 else 0
  {
    if d.incident == Open {
      CountAppend(w.incidents, DetectedRow(org, x, now), m);
    } else if d.incident == Resolve && HasLive(w.incidents, x) {
      var id := FindUnresolved(w.incidents, x).value;
      CountUpdate(w.incidents, id, ResolvedRow(w.incidents[id], now), m);
    }
  }

  /** The pipeline decides what the history machine decides. */
  lemma DecisionFollows(w: World, who: Subject, status: CheckStatus, h: seq<bool>)
    requires Follows(w, who, h)
    ensures var d, next := DecisionFor(w.monitors[who.m], status, false), h + [IsSuccess(status)];
      && H.Machine(d.state, d.failures, d.successes) == H.Run(next, who.f, who.s)
      && H.Opens(next, who.f, who.s) == H.Opens(h, who.f, who.s) + if d.incident == Open then 1 else 0
  {
    H.HealthIsHistory(h, who.f, who.s);
    H.RunAppend(h, IsSuccess(status), who.f, who.s);
    assert DecisionFor(w.monitors[who.m], status, false) == H.Decide(H.Run(h, who.f, who.s), IsSuccess(status), who.f, who.s);
  }

  lemma OwnCheckFollows(w: World, who: Subject, status: CheckStatus, now: Millis, opts: ProcessOptions, h: seq<bool>)
    requires Follows(w, who, h) && Keyed(w.incidents) && Clean(w, who.m)
    ensures Follows(Process(w, who.m, w.monitors[who.m], status, now, opts).0, who, h + [IsSuccess(status)])
  {
    var row := w.monitors[who.m];
    var d := DecisionFor(row, status, false);
    assert !InMaintenance(w.windows, who.m, now);
    KeyTakenIsLive(w.incidents, who.m);
    DecisionFollows(w, who, status, h);
    var recorded := RecordCheck(w, who.m, row, status, d, now, opts.ping);
    ActOnCounts(recorded, d, row.organizationId, who.m, now, opts.alerts, who.m);
    ActOnIncidents(recorded, d, row.organizationId, who.m, now, opts.alerts);
  }

  lemma OtherCheckFollows(w: World, x: string, status: CheckStatus, now: Millis, opts: ProcessOptions, who: Subject, h: seq<bool>)
    requires Follows(w, who, h) && Keyed(w.incidents) && Clean(w, who.m) && x in w.monitors && x != who.m
    ensures Follows(Process(w, x, w.monitors[x], status, now, opts).0, who, h)
  {
    var row := w.monitors[x];
    var d := DecisionFor(row, status, InMaintenance(w.windows, x, now));
    var recorded := RecordCheck(w, x, row, status, d, now, opts.ping);
    ActOnCounts(recorded, d, row.organizationId, x, now, opts.alerts, who.m);
    ActOnIncidents(recorded, d, row.organizationId, x, now, opts.alerts);
  }

  lemma CheckFollows(w: World, x: string, status: CheckStatus, now: Millis, opts: ProcessOptions, who: Subject, h: seq<bool>)
    requires Follows(w, who, h) && Keyed(w.incidents) && Clean(w, who.m) && x in w.monitors
    ensures Follows(Process(w, x, w.monitors[x], status, now, opts).0, who, h + if x == who.m then [IsSuccess(status)] else [])
  {
    if x == who.m {
      OwnCheckFollows(w, who, status, now, opts, h);
    } else {
      OtherCheckFollows(w, x, status, now, opts, who, h);
      assert h + [] == h;
    }
  }

  lemma ApplyFollows(w: World, op: Op, who: Subject, h: seq<bool>)
    requires Follows(w, who, h) && Keyed(w.incidents) && Clean(w, who.m) && Undisturbed(op, who)
    ensures Follows(Apply(w, op), who, h + OutcomeOf(op, who))
  {
    assert h + [] == h;
    match op
    case CheckJob(x, status, now) =>
      if x in w.monitors { CheckFollows(w, x, status, now, JOB, who, h); }
    case Heartbeat(x, now) =>
      if x in w.monitors { CheckFollows(w, x, CheckUp, now, PING, who, h); }
    case Acknowledge(id, org, now) =>
      if Owns(w, id, org) { CountUpdate(w.incidents, id, AcknowledgedRow(w.incidents[id], now), who.m); }
    case ManualResolve(id, org, now) =>
      if Owns(w, id, org) { CountUpdate(w.incidents, id, ResolvedRow(w.incidents[id], now), who.m); }
    case _ =>
  }

  lemma {:induction false} RunFollows(w: World, ops: seq<Op>, who: Subject, h: seq<bool>)
    requires Follows(w, who, h) && Keyed(w.incidents) && Clean(w, who.m) && forall op :: op in ops ==> Undisturbed(op, who)
    ensures Follows(Run(w, ops), who, h + Outcomes(ops, who))
    decreases |ops|
  {
    if ops == [] {
      assert h + [] == h;
    } else {
      ApplyFollows(w, ops[0], who, h);
      ApplyKeyed(w, ops[0]);
      CleanStepIff(w, ops[0], who.m);
      RunFollows(Apply(w, ops[0]), ops[1..], who, h + OutcomeOf(ops[0], who));
      JoinInOrder(h, OutcomeOf(ops[0], who), Outcomes(ops[1..], who));
    }
  }

  lemma HistoryDecides(w: World, who: Subject, h: seq<bool>)
    requires Follows(w, who, h)
    ensures w.monitors[who.m].health in {Down, Recovering} <==> H.Outage(h, who.f, who.s)
    ensures IncidentCount(w.incidents, who.m) * (who.f + who.s) <= |h| + who.s
  {
    H.HealthIsHistory(h, who.f, who.s);
    H.DebounceBound(h, who.f, who.s);
  }

  /**
   * Over every serialized run of checks, pings, acknowledges, manual resolves, and
   * pauses of other monitors: a monitor is DOWN or RECOVERING exactly in a standing
   * outage of its check history, it has had as many incidents as its history reports
   * outages, and so n checks have opened k incidents only if k * (f + s) <= n + s.
   */
  lemma IncidentsAreDebounced(w: World, ops: seq<Op>, who: Subject)
    requires Fresh(w) && w.windows == [] && forall op :: op in ops ==> Undisturbed(op, who)
    requires who.m in w.monitors && HasSettings(w.monitors[who.m], who)
    requires w.monitors[who.m].failures == w.monitors[who.m].successes == 0
    ensures var h, r := Outcomes(ops, who), Run(w, ops);
      && who.m in r.monitors
      && (r.monitors[who.m].health in {Down, Recovering} <==> H.Outage(h, who.f, who.s))
      && IncidentCount(r.incidents, who.m) == H.Opens(h, who.f, who.s)
      && IncidentCount(r.incidents, who.m) * (who.f + who.s) <= |h| + who.s
  {
    assert Follows(w, who, []);
    RunFollows(w, ops, who, []);
    assert [] + Outcomes(ops, who) == Outcomes(ops, who);
    HistoryDecides(Run(w, ops), who, Outcomes(ops, who));
  }
}
