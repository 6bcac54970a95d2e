/**
 * A monitor's row as a property of everything that has happened to it: checks and pings,
 * with their maintenance windows, pauses and resumes. Nothing here looks at the state
 * machine; the theorems say that the pipeline agrees.
 */
module MonitorHistory {
  import opened Wrappers
  import opened StateMachine
  import H = HealthHistory
  import opened Lifecycle
  import opened IncidentAgreement

  /** What happens to a monitor. A check is suppressed while a maintenance window is in force. */
  datatype Entry = CheckEntry(passed: bool, suppressed: bool) | PauseEntry | ResumeEntry

  datatype Anchor = StartedAnew | LeftMaintenance | Halted

  /**
   * The outcomes since the monitor started anew (was created or resumed). The first
   * `settled` of them came before the last thing that reset the monitor's state.
   */
  datatype Past = Past(outcomes: seq<bool>, settled: nat, anchor: Anchor)

  function PastOf(h: seq<Entry>): (p: Past)
    ensures p.settled <= |p.outcomes| && (p.anchor == StartedAnew ==> p.settled == 0)
  {
    if h == [] then Past([], 0, StartedAnew)
    else
      var p := PastOf(h[..|h| - 1]);
      match h[|h| - 1]
      case CheckEntry(passed, suppressed) =>
        if suppressed then Past(p.outcomes + [passed], |p.outcomes| + 1, LeftMaintenance)
        else p.(outcomes := p.outcomes + [passed])
      case PauseEntry => Past(p.outcomes, |p.outcomes|, Halted)
      case ResumeEntry => Past([], 0, StartedAnew)
  }

  /**
   * The health that the past calls for. An outage needs f failures in a row of which the
   * last comes after the reset; those during maintenance and before a pause count too. A
   * monitor that starts anew is PENDING until its first success or f-th failure; one that
   * leaves maintenance or is pinged while paused is UP until then.
   */
  ghost predicate Warranted(health: Health, p: Past, f: Threshold, s: Threshold)
    requires p.settled <= |p.outcomes|
  {
    var n, outage := |p.outcomes|, H.OutageSince(p.outcomes, p.settled, f, s);
    && (health == Down <==> outage && !p.outcomes[n - 1])
    && (health == Recovering <==> outage && p.outcomes[n - 1])
    && (health == Pending <==> p.anchor == StartedAnew && n < f && H.Suffix(p.outcomes, 0, false))
    && (health == Maintenance <==> p.anchor == LeftMaintenance && p.settled == n)
    && (health == Paused <==> p.anchor == Halted && p.settled == n)
    && health != Degraded
  }

  datatype Row = Row(health: Health, failures: nat, successes: nat)

  ghost predicate Explained(row: Row, p: Past, f: Threshold, s: Threshold)
    requires p.settled <= |p.outcomes|
  {
    && Warranted(row.health, p, f, s)
    && row.failures == H.Trailing(p.outcomes, false)
    && row.successes == H.Trailing(p.outcomes, true)
  }

  lemma NoOutageYet(p: Past, f: Threshold, s: Threshold)
    requires p.settled == |p.outcomes|
    ensures !H.OutageSince(p.outcomes, p.settled, f, s)
  {
  }

  lemma TrailingNext(g: seq<bool>, last: bool)
    ensures H.Trailing(g + [last], last) == H.Trailing(g, last) + 1
    ensures H.Trailing(g + [last], !last) == 0
  {
    assert (g + [last])[..|g|] == g;
  }

  /** One check of the state machine keeps the row explained. */
  lemma CheckExplained(row: Row, h: seq<Entry>, passed: bool, suppressed: bool, f: Threshold, s: Threshold)
    requires Explained(row, PastOf(h), f, s)
    ensures var d := Transition(TransitionInput(row.health, passed, row.failures, row.successes, f, s, suppressed));
      Explained(Row(d.state, d.failures, d.successes), PastOf(h + [CheckEntry(passed, suppressed)]), f, s)
  {
    var p, g := PastOf(h), PastOf(h).outcomes;
    assert (h + [CheckEntry(passed, suppressed)])[..|h|] == h;
    TrailingNext(g, passed);
    if suppressed {
      NoOutageYet(PastOf(h + [CheckEntry(passed, suppressed)]), f, s);
      MaintenanceWarranted(g + [passed], f, s);
    } else if passed {
      H.OutageAfterSuccess(g, p.settled, f, s);
      PassWarranted(row, p, f, s);
    } else {
      H.OutageAfterFailure(g, p.settled, f, s);
      FailWarranted(row, p, f, s);
    }
  }

  lemma MaintenanceWarranted(g: seq<bool>, f: Threshold, s: Threshold)
    ensures Warranted(Maintenance, Past(g, |g|, LeftMaintenance), f, s)
  {
  }

  lemma PassWarranted(row: Row, p: Past, f: Threshold, s: Threshold)
    requires p.settled <= |p.outcomes| && Explained(row, p, f, s)
    requires var h := p.outcomes + [true];
      H.OutageSince(h, p.settled, f, s) <==> H.OutageSince(p.outcomes, p.settled, f, s) && H.Trailing(h, true) < s
    requires H.Trailing(p.outcomes + [true], true) == row.successes + 1
    ensures var d := Transition(TransitionInput(row.health, true, row.failures, row.successes, f, s, false));
      Warranted(d.state, p.(outcomes := p.outcomes + [true]), f, s)
  {
    var h := p.outcomes + [true];
    assert !H.Suffix(h, 0, false) by {
      assert h[|h| - 1];
    }
  }

  lemma FailWarranted(row: Row, p: Past, f: Threshold, s: Threshold)
    requires p.settled <= |p.outcomes| && Explained(row, p, f, s) && (p.anchor == StartedAnew ==> p.settled == 0)
    requires var h := p.outcomes + [false];
      H.OutageSince(h, p.settled, f, s) <==> H.OutageSince(p.outcomes, p.settled, f, s) || H.Trailing(h, false) >= f
    requires H.Trailing(p.outcomes + [false], false) == row.failures + 1
    ensures var d := Transition(TransitionInput(row.health, false, row.failures, row.successes, f, s, false));
      Warranted(d.state, p.(outcomes := p.outcomes + [false]), f, s)
  {
    var g, h := p.outcomes, p.outcomes + [false];
    H.TrailingIsLongest(g, false);
    H.TrailingIsLongest(h, false);
    assert H.Suffix(h, 0, false) <==> H.Suffix(g, 0, false) by {
      assert forall k :: 0 <= k < |g| ==> h[k] == g[k];
    }
  }

  // ---- What the operations do to one monitor ----

  /** A window of the list that suppresses alerts, names the monitor and contains the time, ends included. */
  predicate Suppressed(windows: seq<Window>, m: string, now: Millis) {
    exists window :: window in windows && window.suppressAlerts && m in window.monitors
      && window.startsAt <= now && now <= window.endsAt
  }

  lemma SuppressedIsMaintenance(windows: seq<Window>, m: string, now: Millis)
    ensures InMaintenance(windows, m, now) <==> Suppressed(windows, m, now)
  {
    if Suppressed(windows, m, now) {
      var window :| window in windows && window.suppressAlerts && m in window.monitors
        && window.startsAt <= now && now <= window.endsAt;
      var i :| 0 <= i < |windows| && windows[i] == window;
    }
    if InMaintenance(windows, m, now) {
      var i :| 0 <= i < |windows| && windows[i].suppressAlerts
        && windows[i].startsAt <= now <= windows[i].endsAt && m in windows[i].monitors;
      assert windows[i] in windows;
    }
  }

  /** What can be told of a monitor from the operations alone. */
  datatype Story = Story(mode: MonitorMode, windows: seq<Window>, entries: seq<Entry>,
                         stamp: Option<Millis>, checks: seq<CheckResult>)

  /**
   * Checks count while the monitor is active, pings whenever it is a heartbeat monitor; a
   * pause or resume by its organization counts if it changes the mode. UP and DEGRADED
   * pass. Checks of a heartbeat monitor do not stamp the time, pings do.
   */
  function StoryOf(row: MonitorRow, windows: seq<Window>, m: string, ops: seq<Op>): Story {
    if ops == [] then Story(row.mode, windows, [], row.lastCheckedAt, [])
    else
      var t := StoryOf(row, windows, m, ops[..|ops| - 1]);
      match ops[|ops| - 1]
      case CheckJob(x, status, now) =>
        if x != m || t.mode != Active then t
        else
          t.(entries := t.entries + [CheckEntry(status == CheckUp || status == CheckDegraded, Suppressed(t.windows, m, now))],
             stamp := if row.heartbeat then t.stamp else Some(now),
             checks := t.checks + [CheckResult(m, status, now)])
      case Heartbeat(x, now) =>
        if x != m || !row.heartbeat then t
        else
          t.(entries := t.entries + [CheckEntry(true, Suppressed(t.windows, m, now))],
             stamp := Some(now),
             checks := t.checks + [CheckResult(m, CheckUp, now)])
      case EditWindows(edited) => t.(windows := edited)
      case Pause(x, org) =>
        if x != m || org != row.organizationId || t.mode == PausedMode then t
        else t.(mode := PausedMode, entries := t.entries + [PauseEntry])
      case Resume(x, org) =>
        if x != m || org != row.organizationId || t.mode == Active then t
        else t.(mode := Active, entries := t.entries + [ResumeEntry])
      case _ => t
  }

  function ChecksOf(checks: seq<CheckResult>, m: string): seq<CheckResult> {
    if checks == [] then []
    else
      var last := checks[|checks| - 1];
      ChecksOf(checks[..|checks| - 1], m) + if last.monitorId == m then [last] else []
  }

  lemma ChecksAppend(checks: seq<CheckResult>, c: CheckResult, m: string)
    ensures ChecksOf(checks + [c], m) == ChecksOf(checks, m) + if c.monitorId == m then [c] else []
  {
    assert (checks + [c])[..|checks|] == checks;
  }

  /** The tables say what the story says. */
  ghost predicate Tells(w: World, m: string, row: MonitorRow, t: Story) {
    && m in w.monitors && w.windows == t.windows && ChecksOf(w.checks, m) == t.checks
    && var now := w.monitors[m];
       && now == row.(mode := t.mode, health := now.health, failures := now.failures, successes := now.successes,
                      lastCheckedAt := t.stamp)
       && Explained(Row(now.health, now.failures, now.successes), PastOf(t.entries), row.failureThreshold, row.successThreshold)
  }

  lemma ActOnKeepsRows(w: World, d: TransitionResult, org: string, m: string, now: Millis, alerts: bool)
    ensures var r := ActOn(w, d, org, m, now, alerts).0;
      r.monitors == w.monitors && r.windows == w.windows && r.checks == w.checks
  {
  }

  lemma OwnCheckTells(w: World, m: string, row: MonitorRow, t: Story, status: CheckStatus, now: Millis, opts: ProcessOptions)
    requires Tells(w, m, row, t)
    ensures Tells(Process(w, m, w.monitors[m], status, now, opts).0, m, row,
                  t.(entries := t.entries + [CheckEntry(status == CheckUp || status == CheckDegraded, Suppressed(t.windows, m, now))],
                     stamp := if row.heartbeat && !opts.ping then t.stamp else Some(now),
                     checks := t.checks + [CheckResult(m, status, now)]))
  {
    var current := w.monitors[m];
    var d := DecisionFor(current, status, InMaintenance(w.windows, m, now));
    SuppressedIsMaintenance(w.windows, m, now);
    ChecksAppend(w.checks, CheckResult(m, status, now), m);
    CheckExplained(Row(current.health, current.failures, current.successes), t.entries,
                   status == CheckUp || status == CheckDegraded, Suppressed(t.windows, m, now),
                   row.failureThreshold, row.successThreshold);
    ActOnKeepsRows(RecordCheck(w, m, current, status, d, now, opts.ping), d, current.organizationId, m, now, opts.alerts);
  }

  lemma OtherCheckTells(w: World, x: string, m: string, row: MonitorRow, t: Story, status: CheckStatus, now: Millis, opts: ProcessOptions)
    requires Tells(w, m, row, t) && x in w.monitors && x != m
    ensures Tells(Process(w, x, w.monitors[x], status, now, opts).0, m, row, t)
  {
    var current := w.monitors[x];
    var d := DecisionFor(current, status, InMaintenance(w.windows, x, now));
    ChecksAppend(w.checks, CheckResult(x, status, now), m);
    ActOnKeepsRows(RecordCheck(w, x, current, status, d, now, opts.ping), d, current.organizationId, x, now, opts.alerts);
  }

  lemma PauseExplained(row: Row, h: seq<Entry>, f: Threshold, s: Threshold)
    requires Explained(row, PastOf(h), f, s)
    ensures Explained(row.(health := Paused), PastOf(h + [PauseEntry]), f, s)
  {
    assert (h + [PauseEntry])[..|h|] == h;
    NoOutageYet(PastOf(h + [PauseEntry]), f, s);
  }

  lemma ResumeExplained(h: seq<Entry>, f: Threshold, s: Threshold)
    ensures Explained(Row(Pending, 0, 0), PastOf(h + [ResumeEntry]), f, s)
  {
    assert PastOf(h + [ResumeEntry]) == Past([], 0, StartedAnew);
    NoOutageYet(Past([], 0, StartedAnew), f, s);
  }

  lemma ApplyTells(w: World, m: string, row: MonitorRow, windows: seq<Window>, ops: seq<Op>, op: Op)
    requires Tells(w, m, row, StoryOf(row, windows, m, ops))
    ensures Tells(Apply(w, op), m, row, StoryOf(row, windows, m, ops + [op]))
  {
    var t := StoryOf(row, windows, m, ops);
    assert (ops + [op])[..|ops|] == ops;
    match op
    case CheckJob(x, status, now) =>
      if x == m && t.mode == Active {
        OwnCheckTells(w, m, row, t, status, now, JOB);
      } else if x in w.monitors && x != m && w.monitors[x].mode == Active {
        OtherCheckTells(w, x, m, row, t, status, now, JOB);
      }
    case Heartbeat(x, now) =>
      if x == m && row.heartbeat {
        OwnCheckTells(w, m, row, t, CheckUp, now, PING);
      } else if x in w.monitors && x != m && w.monitors[x].heartbeat {
        OtherCheckTells(w, x, m, row, t, CheckUp, now, PING);
      }
    case Pause(x, org) =>
      if x == m {
        PauseExplained(Row(w.monitors[m].health, w.monitors[m].failures, w.monitors[m].successes), t.entries,
                       row.failureThreshold, row.successThreshold);
      }
    case Resume(x, org) =>
      if x == m { ResumeExplained(t.entries, row.failureThreshold, row.successThreshold); }
    case _ =>
  }

  /**
   * In every serialized run, with maintenance, pauses and resumes in any order, the row of
   * a monitor, its check log and the windows are what the operations alone say.
   */
  lemma {:induction false} RowIsHistory(w: World, ops: seq<Op>, m: string)
    requires m in w.monitors && w.checks == []
    requires w.monitors[m].health == Pending && w.monitors[m].failures == w.monitors[m].successes == 0
    ensures Tells(Run(w, ops), m, w.monitors[m], StoryOf(w.monitors[m], w.windows, m, ops))
    decreases |ops|
  {
    if ops == [] {
      NoOutageYet(Past([], 0, StartedAnew), w.monitors[m].failureThreshold, w.monitors[m].successThreshold);
    } else {
      var before, op := ops[..|ops| - 1], ops[|ops| - 1];
      RowIsHistory(w, before, m);
      ApplyTells(Run(w, before), m, w.monitors[m], w.windows, before, op);
      RunLast(w, before, op);
      assert before + [op] == ops;
    }
  }

  // ---- Leaving maintenance ----

  lemma OnlyFailures(p: Past, f: Threshold, s: Threshold)
    requires p.settled < |p.outcomes| && H.Suffix(p.outcomes, p.settled, false)
    ensures H.OutageSince(p.outcomes, p.settled, f, s) <==> H.Trailing(p.outcomes, false) >= f
  {
    var h, n := p.outcomes, |p.outcomes|;
    H.TrailingIsLongest(h, false);
    if H.Trailing(h, false) >= f {
      assert H.Suffix(h, n - f, false);
      assert H.Block(h, n - f, f, false) && H.Standing(h, n - f + f, s);
    }
    if H.OutageSince(h, p.settled, f, s) {
      var i :| H.Block(h, i, f, false) && p.settled < i + f && H.Standing(h, i + f, s);
      assert forall k :: i <= k < n ==> !h[k];
      assert H.Suffix(h, i, false);
    }
  }

  /**
   * A monitor that nobody pauses or resumes, in which all checks since the last one in
   * maintenance have failed: it is down if that makes f failures in a row, counting those
   * in maintenance, and then has its incident unless someone resolved by hand; if not, it
   * is up, and has none.
   */
  lemma FailingAfterMaintenance(w: World, ops: seq<Op>, m: string)
    requires Fresh(w) && m in w.monitors && w.checks == []
    requires w.monitors[m].failures == w.monitors[m].successes == 0
    requires forall op :: op in ops && (op.Pause? || op.Resume?) ==> op.m != m
    requires var p := PastOf(StoryOf(w.monitors[m], w.windows, m, ops).entries);
      p.anchor == LeftMaintenance && p.settled < |p.outcomes| && H.Suffix(p.outcomes, p.settled, false)
    ensures var p := PastOf(StoryOf(w.monitors[m], w.windows, m, ops).entries);
      var r := Run(w, ops);
      && m in r.monitors
      && if H.Trailing(p.outcomes, false) >= w.monitors[m].failureThreshold then
           && r.monitors[m].health == Down
           && ((forall op :: op in ops ==> !op.ManualResolve?) ==> |Unresolved(r.incidents, m)| == 1)
         else
           r.monitors[m].health == Up && |Unresolved(r.incidents, m)| == 0
  {
    var row := w.monitors[m];
    var p := PastOf(StoryOf(row, w.windows, m, ops).entries);
    RowIsHistory(w, ops, m);
    OnlyFailures(p, row.failureThreshold, row.successThreshold);
    UndisturbedAgreement(w, ops, m);
    assert !p.outcomes[|p.outcomes| - 1];
  }
}
