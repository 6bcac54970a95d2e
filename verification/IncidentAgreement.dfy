/**
 * Over every serialized run, the incident table agrees with the health of the
 * monitors, and the dedupe key marks exactly the unresolved incidents.
 */
module IncidentAgreement {
  import opened Wrappers
  import opened StateMachine
  import opened Lifecycle

  /** The unresolved rows are exactly the key holders, and a monitor has at most one. */
  ghost predicate Keyed(rows: seq<Incident>) {
    && (forall i :: 0 <= i < |rows| ==> KeyedRow(rows[i]))
    && (forall i, j :: 0 <= i < j < |rows| && rows[i].status != Resolved && rows[j].status != Resolved
          ==> rows[i].monitorId != rows[j].monitorId)
  }

  predicate KeyedRow(row: Incident) {
    row.fingerprint == if row.status == Resolved then None else Some(DownKey(row.monitorId))
  }

  function Unresolved(rows: seq<Incident>, m: string): set<nat> {
    set i: nat | i < |rows| && Live(rows[i], m)
  }

  lemma LiveAppend(rows: seq<Incident>, row: Incident, m: string)
    ensures HasLive(rows + [row], m) <==> HasLive(rows, m) || Live(row, m)
    ensures KeyTaken(rows + [row], m) <==> KeyTaken(rows, m) || HoldsKey(row, m)
  {
    var all := rows + [row];
    assert all[|rows|] == row;
    assert forall i :: 0 <= i < |rows| ==> all[i] == rows[i];
  }

  lemma KeyTakenIsLive(rows: seq<Incident>, m: string)
    requires Keyed(rows)
    ensures KeyTaken(rows, m) <==> HasLive(rows, m)
  {
    if KeyTaken(rows, m) {
      var i :| 0 <= i < |rows| && HoldsKey(rows[i], m);
      assert KeyedRow(rows[i]) && Live(rows[i], m);
    }
    if HasLive(rows, m) {
      var i :| 0 <= i < |rows| && Live(rows[i], m);
      assert KeyedRow(rows[i]) && HoldsKey(rows[i], m);
    }
  }

  lemma AppendKeyed(rows: seq<Incident>, org: string, m: string, now: Millis)
    requires Keyed(rows) && !KeyTaken(rows, m)
    ensures Keyed(rows + [DetectedRow(org, m, now)])
  {
    KeyTakenIsLive(rows, m);
    assert forall i :: 0 <= i < |rows| && rows[i].status != Resolved ==> !Live(rows[i], m);
  }

  lemma CloseKeyed(rows: seq<Incident>, id: nat, now: Millis)
    requires Keyed(rows) && id < |rows| && rows[id].status != Resolved
    ensures var closed := rows[id := ResolvedRow(rows[id], now)];
      && Keyed(closed)
      && forall m :: HasLive(closed, m) <==> HasLive(rows, m) && m != rows[id].monitorId
  {
    var closed := rows[id := ResolvedRow(rows[id], now)];
    forall m ensures HasLive(closed, m) <==> HasLive(rows, m) && m != rows[id].monitorId {
      if HasLive(closed, m) {
        var i :| 0 <= i < |closed| && Live(closed[i], m);
        assert Live(rows[i], m);
      }
      if HasLive(rows, m) && m != rows[id].monitorId {
        var i :| 0 <= i < |rows| && Live(rows[i], m);
        assert Live(closed[i], m);
      }
    }
  }

  lemma AcknowledgeKeyed(rows: seq<Incident>, id: nat, now: Millis)
    requires Keyed(rows) && id < |rows| && rows[id].status == OpenStatus
    ensures var acked := rows[id := AcknowledgedRow(rows[id], now)];
      && Keyed(acked)
      && forall m :: HasLive(acked, m) <==> HasLive(rows, m)
  {
    var acked := rows[id := AcknowledgedRow(rows[id], now)];
    assert forall i, m :: 0 <= i < |rows| ==> (Live(acked[i], m) <==> Live(rows[i], m));
  }

  // ---- One step ----

  lemma ActOnIncidents(w: World, d: TransitionResult, org: string, m: string, now: Millis, alerts: bool)
    requires Keyed(w.incidents)
    ensures var r := ActOn(w, d, org, m, now, alerts).0;
      && Keyed(r.incidents) && r.monitors == w.monitors
      && (forall x :: x != m ==> (HasLive(r.incidents, x) <==> HasLive(w.incidents, x)))
      && (HasLive(r.incidents, m) <==> d.incident == Open || (d.incident == NoAction && HasLive(w.incidents, m)))
  {
    KeyTakenIsLive(w.incidents, m);
    if d.incident == Open && !KeyTaken(w.incidents, m) {
      AppendKeyed(w.incidents, org, m, now);
      forall x { LiveAppend(w.incidents, DetectedRow(org, m, now), x); }
    } else if d.incident == Resolve && HasLive(w.incidents, m) {
      CloseKeyed(w.incidents, FindUnresolved(w.incidents, m).value, now);
    }
  }

  /** The operation processes a check of `m`: a scheduled one if it is active, a ping whatever its mode. */
  predicate Checks(w: World, op: Op, m: string) {
    && (op.CheckJob? || op.Heartbeat?) && op.m == m && m in w.monitors
    && if op.CheckJob? then w.monitors[m].mode == Active else w.monitors[m].heartbeat
  }

  predicate Passes(op: Op)
    requires op.CheckJob? || op.Heartbeat?
  {
    op.Heartbeat? || IsSuccess(op.status)
  }

  /** A pause or resume of `m` that takes effect. */
  predicate Toggles(w: World, op: Op, m: string) {
    && (op.Pause? || op.Resume?) && op.m == m
    && m in w.monitors && w.monitors[m].organizationId == op.org
    && w.monitors[m].mode != if op.Pause? then PausedMode else Active
  }

  /** A manual resolve of an unresolved incident of `m` that takes effect. */
  predicate ResolvesByHand(w: World, op: Op, m: string) {
    op.ManualResolve? && Owns(w, op.id, op.org) && Live(w.incidents[op.id], m)
  }

  /** What the operation leaves of the table, for `m` and its checks. */
  lemma CheckStep(w: World, op: Op, m: string)
    requires Keyed(w.incidents) && Checks(w, op, m)
    ensures var d := DecisionFor(w.monitors[m], if op.Heartbeat? then CheckUp else op.status, InMaintenance(w.windows, m, op.now));
      var r := Apply(w, op);
      && Keyed(r.incidents) && m in r.monitors && r.monitors[m].health == d.state
      && (HasLive(r.incidents, m) <==> d.incident == Open || (d.incident == NoAction && HasLive(w.incidents, m)))
  {
    var row, status := w.monitors[m], if op.Heartbeat? then CheckUp else op.status;
    var d := DecisionFor(row, status, InMaintenance(w.windows, m, op.now));
    ActOnIncidents(RecordCheck(w, m, row, status, d, op.now, op.Heartbeat?), d, row.organizationId, m, op.now, op.CheckJob?);
  }

  /** Only its own checks and toggles and manual resolves change anything for `m`. */
  lemma OtherStep(w: World, op: Op, m: string)
    requires Keyed(w.incidents) && !Checks(w, op, m)
    ensures var r := Apply(w, op);
      && Keyed(r.incidents) && (m in r.monitors <==> m in w.monitors)
      && (m in w.monitors && !Toggles(w, op, m) ==> r.monitors[m] == w.monitors[m])
      && (HasLive(r.incidents, m) <==> HasLive(w.incidents, m) && !ResolvesByHand(w, op, m))
  {
    match op
    case CheckJob(x, status, now) =>
      if x in w.monitors {
        var row := w.monitors[x];
        var d := DecisionFor(row, status, InMaintenance(w.windows, x, now));
        ActOnIncidents(RecordCheck(w, x, row, status, d, now, false), d, row.organizationId, x, now, true);
      }
    case Heartbeat(x, now) =>
      if x in w.monitors {
        var row := w.monitors[x];
        var d := DecisionFor(row, CheckUp, InMaintenance(w.windows, x, now));
        ActOnIncidents(RecordCheck(w, x, row, CheckUp, d, now, true), d, row.organizationId, x, now, false);
      }
    case Acknowledge(id, org, now) =>
      if Owns(w, id, org) && w.incidents[id].status == OpenStatus { AcknowledgeKeyed(w.incidents, id, now); }
    case ManualResolve(id, org, now) =>
      if Owns(w, id, org) && w.incidents[id].status != Resolved {
        CloseKeyed(w.incidents, id, now);
        if Live(w.incidents[id], m) { assert HasLive(w.incidents, m); }
      }
    case _ =>
  }

  lemma ApplyKeyed(w: World, op: Op)
    requires Keyed(w.incidents)
    ensures Keyed(Apply(w, op).incidents)
  {
    if (op.CheckJob? || op.Heartbeat?) && Checks(w, op, op.m) {
      CheckStep(w, op, op.m);
    } else if op.CheckJob? || op.Heartbeat? {
      OtherStep(w, op, op.m);
    } else {
      OtherStep(w, op, "");
    }
  }

  // ---- Up or new means none ----

  /** A monitor that is up or new has no unresolved incident. A paused row counts as up. */
  predicate Clean(w: World, m: string) {
    m in w.monitors && Normalize(w.monitors[m].health) in {Up, Pending} ==> !HasLive(w.incidents, m)
  }

  /** The monitor is paused or resumed during an outage. */
  predicate Strands(w: World, op: Op, m: string) {
    Toggles(w, op, m) && HasLive(w.incidents, m)
  }

  /** Someone resolves the stranded incident, or the monitor goes down again or into maintenance. */
  predicate Mends(w: World, op: Op, m: string) {
    || ResolvesByHand(w, op, m)
    || (Checks(w, op, m)
        && (InMaintenance(w.windows, m, op.now)
            || (!Passes(op) && w.monitors[m].failures + 1 >= w.monitors[m].failureThreshold)))
  }

  /** One operation breaks the agreement exactly if it strands, and restores it exactly if it mends. */
  lemma CleanStepIff(w: World, op: Op, m: string)
    requires Keyed(w.incidents)
    ensures Clean(Apply(w, op), m) <==> !Strands(w, op, m) && (Clean(w, m) || Mends(w, op, m))
  {
    if Checks(w, op, m) {
      CheckStep(w, op, m);
    } else {
      OtherStep(w, op, m);
    }
  }

  // ---- Down means one ----

  /** A monitor that is down or recovering has an unresolved incident. */
  predicate Covered(w: World, m: string) {
    m in w.monitors && Normalize(w.monitors[m].health) in {Down, Recovering} ==> HasLive(w.incidents, m)
  }

  /** The incident is resolved by hand during the outage. */
  predicate Uncovers(w: World, op: Op, m: string) {
    ResolvesByHand(w, op, m) && m in w.monitors && Normalize(w.monitors[m].health) in {Down, Recovering}
  }

  /** The outage ends: by recovery, by maintenance, or by a pause or resume. */
  predicate Settles(w: World, op: Op, m: string) {
    || Toggles(w, op, m)
    || (Checks(w, op, m)
        && (InMaintenance(w.windows, m, op.now)
            || (Passes(op) && w.monitors[m].successes + 1 >= w.monitors[m].successThreshold)))
  }

  lemma CoveredStepIff(w: World, op: Op, m: string)
    requires Keyed(w.incidents)
    ensures Covered(Apply(w, op), m) <==> !Uncovers(w, op, m) && (Covered(w, m) || Settles(w, op, m))
  {
    if Checks(w, op, m) {
      CheckStep(w, op, m);
    } else {
      OtherStep(w, op, m);
      if ResolvesByHand(w, op, m) { assert HasLive(w.incidents, m); }
    }
  }

  // ---- Every run ----

  /** No incidents yet, and every monitor still waiting for its first check. */
  predicate Fresh(w: World) {
    w.incidents == [] && forall m :: m in w.monitors ==> w.monitors[m].health == Pending
  }

  lemma UnresolvedCount(rows: seq<Incident>, m: string)
    requires Keyed(rows)
    ensures |Unresolved(rows, m)| == if HasLive(rows, m) then 1 else 0
  {
    if HasLive(rows, m) {
      var i: nat :| i < |rows| && Live(rows[i], m);
      assert Unresolved(rows, m) == {i};
    } else {
      assert Unresolved(rows, m) == {};
    }
  }

  /** Each of the first n operations that stranded an incident of `m` was followed by one that mends. */
  ghost predicate AllMended(w: World, ops: seq<Op>, n: nat, m: string)
    requires n <= |ops|
  {
    forall k :: 0 <= k < n && Strands(After(w, ops, k), ops[k], m) ==>
      exists j :: k < j < n && Mends(After(w, ops, j), ops[j], m)
  }

  /** Each of the first n operations that uncovered an outage of `m` was followed by its end. */
  ghost predicate AllSettled(w: World, ops: seq<Op>, n: nat, m: string)
    requires n <= |ops|
  {
    forall k :: 0 <= k < n && Uncovers(After(w, ops, k), ops[k], m) ==>
      exists j :: k < j < n && Settles(After(w, ops, j), ops[j], m)
  }

  lemma AllMendedNext(w: World, ops: seq<Op>, n: nat, m: string)
    requires n < |ops|
    ensures AllMended(w, ops, n + 1, m)
       <==> !Strands(After(w, ops, n), ops[n], m) && (AllMended(w, ops, n, m) || Mends(After(w, ops, n), ops[n], m))
  {
    if AllMended(w, ops, n + 1, m) && !Mends(After(w, ops, n), ops[n], m) {
      forall k | 0 <= k < n && Strands(After(w, ops, k), ops[k], m)
        ensures exists j :: k < j < n && Mends(After(w, ops, j), ops[j], m)
      {
        var j :| k < j < n + 1 && Mends(After(w, ops, j), ops[j], m);
        assert j < n;
      }
    }
  }

  lemma AllSettledNext(w: World, ops: seq<Op>, n: nat, m: string)
    requires n < |ops|
    ensures AllSettled(w, ops, n + 1, m)
       <==> !Uncovers(After(w, ops, n), ops[n], m) && (AllSettled(w, ops, n, m) || Settles(After(w, ops, n), ops[n], m))
  {
    if AllSettled(w, ops, n + 1, m) && !Settles(After(w, ops, n), ops[n], m) {
      forall k | 0 <= k < n && Uncovers(After(w, ops, k), ops[k], m)
        ensures exists j :: k < j < n && Settles(After(w, ops, j), ops[j], m)
      {
        var j :| k < j < n + 1 && Settles(After(w, ops, j), ops[j], m);
        assert j < n;
      }
    }
  }

  lemma {:induction false} AgreementAfter(w: World, ops: seq<Op>, n: nat, m: string)
    requires Keyed(w.incidents) && Clean(w, m) && Covered(w, m) && n <= |ops|
    ensures Keyed(After(w, ops, n).incidents)
    ensures Clean(After(w, ops, n), m) <==> AllMended(w, ops, n, m)
    ensures Covered(After(w, ops, n), m) <==> AllSettled(w, ops, n, m)
  {
    if n == 0 {
      AfterAll(w, ops);
    } else {
      var before, op := After(w, ops, n - 1), ops[n - 1];
      AgreementAfter(w, ops, n - 1, m);
      AfterNext(w, ops, n - 1);
      ApplyKeyed(before, op);
      CleanStepIff(before, op, m);
      CoveredStepIff(before, op, m);
      AllMendedNext(w, ops, n - 1, m);
      AllSettledNext(w, ops, n - 1, m);
    }
  }

  /**
   * Checks, heartbeats, maintenance edits, acknowledges, manual resolves, pauses and
   * resumes in any order: never more than one unresolved incident per monitor, and the
   * unresolved ones are those that hold the key. A monitor that is down has one, exactly
   * unless its incident was resolved by hand in the outage that is still going on. One
   * that is up or new has none, exactly unless it was paused or resumed during an
   * outage, and nothing has mended that since.
   */
  lemma RunAgreement(w: World, ops: seq<Op>, m: string)
    requires Fresh(w)
    ensures var r := Run(w, ops);
      && |Unresolved(r.incidents, m)| <= 1
      && (forall i :: 0 <= i < |r.incidents| ==>
            (r.incidents[i].status != Resolved <==> r.incidents[i].fingerprint == Some(DownKey(r.incidents[i].monitorId))))
      && (m in r.monitors && r.monitors[m].health in {Down, Recovering} ==>
            (|Unresolved(r.incidents, m)| == 1 <==> AllSettled(w, ops, |ops|, m)))
      && (m in r.monitors && r.monitors[m].health in {Up, Pending} ==>
            (|Unresolved(r.incidents, m)| == 0 <==> AllMended(w, ops, |ops|, m)))
  {
    var r := Run(w, ops);
    AgreementAfter(w, ops, |ops|, m);
    AfterAll(w, ops);
    UnresolvedCount(r.incidents, m);
    assert forall i :: 0 <= i < |r.incidents| ==> KeyedRow(r.incidents[i]);
  }

  /** In particular for a monitor nobody pauses or resumes, and one whose incidents nobody resolves. */
  lemma UndisturbedAgreement(w: World, ops: seq<Op>, m: string)
    requires Fresh(w)
    ensures var r := Run(w, ops);
      && ((forall op :: op in ops ==> !op.ManualResolve?) && m in r.monitors && r.monitors[m].health in {Down, Recovering} ==>
            |Unresolved(r.incidents, m)| == 1)
      && ((forall op :: op in ops && (op.Pause? || op.Resume?) ==> op.m != m)
          && m in r.monitors && r.monitors[m].health in {Up, Pending} ==>
            |Unresolved(r.incidents, m)| == 0)
  {
    RunAgreement(w, ops, m);
  }

  // ---- Why pausing is an exception ----

  function PauseResumeCheck(w: World, m: string, org: string, now: Millis): World {
    Apply(Apply(Apply(w, Pause(m, org)), Resume(m, org)), CheckJob(m, CheckUp, now))
  }

  /**
   * Pausing and resuming a monitor and then seeing it pass leaves its incident open:
   * PENDING to UP emits no resolve. None is left exactly when none was open before.
   */
  lemma PauseStrandsIncident(w: World, m: string, now: Millis)
    requires Keyed(w.incidents) && m in w.monitors && w.monitors[m].mode == Active
    requires !InMaintenance(w.windows, m, now)
    ensures var r := PauseResumeCheck(w, m, w.monitors[m].organizationId, now);
      && m in r.monitors && r.monitors[m].health == Up
      && (Unresolved(r.incidents, m) == {} <==> Unresolved(w.incidents, m) == {})
  {
    var org := w.monitors[m].organizationId;
    var w2 := Apply(Apply(w, Pause(m, org)), Resume(m, org));
    assert m in w2.monitors && w2.monitors[m].health == Pending && w2.monitors[m].mode == Active;
    assert w2.incidents == w.incidents && w2.windows == w.windows;
    var d := DecisionFor(w2.monitors[m], CheckUp, false);
    assert d.state == Up && d.incident == NoAction;
  }

  lemma RunThree(w: World, a: Op, b: Op, c: Op)
    ensures Run(w, [a, b, c]) == Apply(Apply(Apply(w, a), b), c)
  {
    RunLast(w, [a, b], c);
    RunLast(w, [a], b);
    RunLast(w, [], a);
    assert [a, b, c] == [a, b] + [c] && [a, b] == [a] + [b] && [a] == [] + [a];
  }

  /** A ping to a paused heartbeat monitor makes it up, and leaves its incident alone. */
  lemma PausedPing(w: World, m: string, org: string, now: Millis)
    requires Keyed(w.incidents) && w.windows == [] && HasLive(w.incidents, m)
    requires m in w.monitors && w.monitors[m].heartbeat && w.monitors[m].organizationId == org
    requires w.monitors[m].mode == Active
    ensures var r := Apply(Apply(w, Pause(m, org)), Heartbeat(m, now));
      && m in r.monitors && r.monitors[m].health == Up && HasLive(r.incidents, m) && Keyed(r.incidents)
  {
    var paused := Apply(w, Pause(m, org));
    OtherStep(w, Pause(m, org), m);
    assert paused.monitors[m] == w.monitors[m].(mode := PausedMode, health := Paused) && paused.windows == [];
    CheckStep(paused, Heartbeat(m, now), m);
  }

  /** Such a run without any resume, from a single new monitor. */
  lemma PausedOutageTrace()
    ensures Fresh(PINGED)
    ensures var r := Run(PINGED, [CheckJob("m", CheckDown, 0), Pause("m", "org"), Heartbeat("m", 60000)]);
      "m" in r.monitors && r.monitors["m"].health == Up && |Unresolved(r.incidents, "m")| == 1
  {
    var down := Apply(PINGED, CheckJob("m", CheckDown, 0));
    CheckStep(PINGED, CheckJob("m", CheckDown, 0), "m");
    var row := down.monitors["m"];
    assert row.heartbeat && row.organizationId == "org" && row.mode == Active && down.windows == [];
    PausedPing(down, "m", "org", 60000);
    RunThree(PINGED, CheckJob("m", CheckDown, 0), Pause("m", "org"), Heartbeat("m", 60000));
    UnresolvedCount(Apply(Apply(down, Pause("m", "org")), Heartbeat("m", 60000)).incidents, "m");
  }
}
