/**
 * Schedules of the worker machine in which things go wrong, each from a single new
 * monitor that opens and recovers with one check.
 */
module RegionalTraces {
  import opened Wrappers
  import opened Sequences
  import opened StateMachine
  import opened Lifecycle
  import opened IncidentAgreement
  import opened AlertRate
  import opened R = RegionalWorkers
  import opened RegionalAlertRate

  type Schedule = seq<(nat, Step)>

  const NEW_MONITOR := State(World(map["m" := MonitorRow("org", false, Active, Pending, 0, 0, 1, 1, None)], [], [], [], [], []), map[])

  // ---- What a worker does ----

  /** The monitor as it was created, whatever its health. */
  predicate Site(w: World) {
    && w.windows == [] && "m" in w.monitors
    && var row := w.monitors["m"];
       row.organizationId == "org" && row.mode == Active && row.failureThreshold == row.successThreshold == 1
  }

  lemma Loading(s: State, who: nat)
    requires Site(s.db) && PhaseOf(s, who).Idle?
    ensures Take(s, who, Load("m")) == Goto(s, who, Loaded("m", s.db.monitors["m"], false))
  {
  }

  /** The first two calls of a check, at time 0. */
  lemma Deciding(s: State, who: nat, row: MonitorRow, status: CheckStatus)
    requires Site(s.db) && PhaseOf(s, who) == Loaded("m", row, false)
    ensures var d := DecisionFor(row, status, false);
      var r := Take(Take(s, who, Evaluate(status, 0)), who, WriteMonitor);
      && Site(r.db) && r.db.monitors["m"].health == d.state
      && r.db.incidents == s.db.incidents && r.db.alerts == s.db.alerts
      && r.phase == s.phase[who := Written("m", row.organizationId, d, 0, false)]
  {
    var d := DecisionFor(row, status, false);
    var s1 := Take(s, who, Evaluate(status, 0));
    assert s1.phase == s.phase[who := Decided("m", row, d, 0, false)] && s1.db.monitors == s.db.monitors;
  }

  lemma ReadingCount(s: State, who: nat, org: string, d: TransitionResult)
    requires PhaseOf(s, who) == Written("m", org, d, 0, false) && d.incident == Open
    ensures Take(s, who, ReadFlapping) == Goto(s, who, FlapRead("m", org, Flapping(s.db.incidents, "m", 0), 0))
  {
  }

  lemma FirstFailureOpens(row: MonitorRow)
    requires (row.health == Up || row.health == Pending) && row.failureThreshold == 1
    ensures var d := DecisionFor(row, CheckDown, false); d.incident == Open && d.state == Down
  {
  }

  function Detect(who: nat): Schedule {
    [(who, Evaluate(CheckDown, 0)), (who, WriteMonitor), (who, ReadFlapping)]
  }

  lemma DecidingDown(s: State, who: nat, row: MonitorRow)
    requires Site(s.db) && PhaseOf(s, who) == Loaded("m", row, false)
    requires (row.health == Up || row.health == Pending) && row.failureThreshold == 1
    ensures var written := Take(Take(s, who, Evaluate(CheckDown, 0)), who, WriteMonitor);
      && Site(written.db) && written.db.incidents == s.db.incidents && written.db.alerts == s.db.alerts
      && written.db.monitors["m"].health == Down
      && Take(written, who, ReadFlapping)
         == State(written.db, s.phase[who := FlapRead("m", row.organizationId, Flapping(s.db.incidents, "m", 0), 0)])
  {
    var written := Take(Take(s, who, Evaluate(CheckDown, 0)), who, WriteMonitor);
    Deciding(s, who, row, CheckDown);
    FirstFailureOpens(row);
    ReadingCount(written, who, row.organizationId, DecisionFor(row, CheckDown, false));
  }

  /** From a snapshot that is up or new, a failing check ends before the incident is created. */
  lemma Detecting(s: State, who: nat, row: MonitorRow)
    requires Site(s.db) && PhaseOf(s, who) == Loaded("m", row, false)
    requires (row.health == Up || row.health == Pending) && row.failureThreshold == 1
    ensures var r := R.Run(s, Detect(who));
      && Site(r.db) && r.db.incidents == s.db.incidents && r.db.alerts == s.db.alerts && r.db.monitors["m"].health == Down
      && r.phase == s.phase[who := FlapRead("m", row.organizationId, Flapping(s.db.incidents, "m", 0), 0)]
  {
    R.RunThree(s, (who, Evaluate(CheckDown, 0)), (who, WriteMonitor), (who, ReadFlapping));
    DecidingDown(s, who, row);
  }

  // ---- Stale rows ----

  /** Two workers read the new monitor; the first one opens incident 0. */
  function FirstOpens(): Schedule {
    [(0, Load("m")), (1, Load("m"))] + Detect(0) + [(0, CreateIncident)]
  }

  lemma BothLoad()
    ensures var row := NEW_MONITOR.db.monitors["m"];
      R.Run(NEW_MONITOR, [(0, Load("m")), (1, Load("m"))])
      == State(NEW_MONITOR.db, map[0 := Loaded("m", row, false), 1 := Loaded("m", row, false)])
  {
    RunTwo(NEW_MONITOR, (0, Load("m")), (1, Load("m")));
  }

  lemma FirstOpened()
    ensures var r := R.Run(NEW_MONITOR, FirstOpens());
      && Site(r.db) && r.db.incidents == [DetectedRow("org", "m", 0)] && Keyed(r.db.incidents)
      && r.db.monitors["m"].health == Down && PhaseOf(r, 1) == Loaded("m", NEW_MONITOR.db.monitors["m"], false) && PhaseOf(r, 2).Idle? && PhaseOf(r, 3).Idle?
  {
    var row, loads := NEW_MONITOR.db.monitors["m"], [(0, Load("m")), (1, Load("m"))];
    BothLoad();
    RunJoin(NEW_MONITOR, loads, Detect(0));
    R.RunLast(NEW_MONITOR, loads + Detect(0), 0, CreateIncident);
    var s := R.Run(NEW_MONITOR, loads);
    Detecting(s, 0, row);
  }

  lemma BothDetected()
    ensures var r := R.Run(NEW_MONITOR, FirstOpens() + Detect(1));
      && r.db.incidents == [DetectedRow("org", "m", 0)] && Keyed(r.db.incidents)
      && PhaseOf(r, 1).FlapRead? && PhaseOf(r, 1).m == "m" && PhaseOf(r, 2).Idle? && PhaseOf(r, 3).Idle?
  {
    FirstOpened();
    Detecting(R.Run(NEW_MONITOR, FirstOpens()), 1, NEW_MONITOR.db.monitors["m"]);
    RunJoin(NEW_MONITOR, FirstOpens(), Detect(1));
  }

  /**
   * It happens: two workers that both saw the new monitor, an acknowledge that read
   * incident 0 before it was resolved by hand and writes after, and two unresolved
   * incidents in the end.
   */
  lemma StaleAcknowledgeHappens()
    ensures Unresolved(R.Run(NEW_MONITOR, FirstOpens() + Detect(1) + StaleAcknowledge(0, "org", 2, 3, 1, 60000)).db.incidents, "m")
         == {0, 1}
  {
    BothDetected();
    RunJoin(NEW_MONITOR, FirstOpens() + Detect(1), StaleAcknowledge(0, "org", 2, 3, 1, 60000));
    StaleAcknowledgeForksOutage(R.Run(NEW_MONITOR, FirstOpens() + Detect(1)), 0, "org", 2, 3, 1, 60000);
  }

  /** It happens: the second worker's check passes, and the monitor is up with incident 0 unresolved. */
  lemma StaleSuccessHappens()
    ensures var r := R.Run(NEW_MONITOR, FirstOpens() + [(1, Evaluate(CheckUp, 60000)), (1, WriteMonitor)]);
      && "m" in r.db.monitors && r.db.monitors["m"].health == Up
      && Unresolved(r.db.incidents, "m") == {0}
  {
    var s := R.Run(NEW_MONITOR, FirstOpens());
    FirstOpened();
    RunTwo(s, (1, Evaluate(CheckUp, 60000)), (1, WriteMonitor));
    RunJoin(NEW_MONITOR, FirstOpens(), [(1, Evaluate(CheckUp, 60000)), (1, WriteMonitor)]);
    StaleSuccessKeepsIncidents(s, 1, 60000);
  }

  /** It happens: a third worker sees the outage end, and crashes after it has written UP. */
  lemma CrashedRecoveryHappens()
    ensures var r := R.Run(NEW_MONITOR, FirstOpens() + [(2, Load("m"))]
                                        + (DecideCalls(2, CheckUp, 60000) + [(2, FindToResolve), (2, Step.Stop)]));
      && "m" in r.db.monitors && r.db.monitors["m"].health == Up
      && Unresolved(r.db.incidents, "m") == {0}
  {
    var s := R.Run(NEW_MONITOR, FirstOpens());
    FirstOpened();
    R.RunLast(NEW_MONITOR, FirstOpens(), 2, Load("m"));
    RunJoin(NEW_MONITOR, FirstOpens() + [(2, Load("m"))], DecideCalls(2, CheckUp, 60000) + [(2, FindToResolve), (2, Step.Stop)]);
    Loading(s, 2);
    CrashedCheckIff(Take(s, 2, Load("m")), 2, CheckUp, 60000, FindToResolve);
  }

  /** A new monitor that opens with two checks. */
  const SLOW_MONITOR := State(World(map["m" := MonitorRow("org", false, Active, Pending, 0, 0, 2, 1, None)], [], [], [], [], []), map[])

  function CheckTwice(who: nat): Schedule {
    ([(who, Load("m"))] + WholeCheck(who, CheckDown, 0)) + ([(who, Load("m"))] + WholeCheck(who, CheckDown, 60000))
  }

  lemma SlowFirstCheck(w: World, op: Op)
    requires w == SLOW_MONITOR.db && op == CheckJob("m", CheckDown, 0)
    ensures var r := Apply(w, op);
      && r.windows == [] && r.incidents == [] && "m" in r.monitors
      && r.monitors["m"].mode == Active && r.monitors["m"].health == Pending
      && r.monitors["m"].failures == 1 && r.monitors["m"].failureThreshold == 2
  {
  }

  lemma SlowSecondCheck(w: World, op: Op)
    requires w.windows == [] && w.incidents == [] && "m" in w.monitors
    requires w.monitors["m"].mode == Active && w.monitors["m"].health == Pending
    requires w.monitors["m"].failures == 1 && w.monitors["m"].failureThreshold == 2
    requires op == CheckJob("m", CheckDown, 60000)
    ensures var r := Apply(w, op);
      && r.windows == [] && "m" in r.monitors && r.incidents == [DetectedRow(w.monitors["m"].organizationId, "m", 60000)]
  {
  }

  lemma SlowOpens()
    ensures var r := R.Run(Take(SLOW_MONITOR, 1, Load("m")), CheckTwice(0));
      && r.db.windows == [] && "m" in r.db.monitors
      && |r.db.incidents| == 1 && Live(r.db.incidents[0], "m")
      && PhaseOf(r, 1) == Loaded("m", SLOW_MONITOR.db.monitors["m"], false)
  {
    var s := Take(SLOW_MONITOR, 1, Load("m"));
    var a, b := CheckJob("m", CheckDown, 0), CheckJob("m", CheckDown, 60000);
    var t := State(Apply(s.db, a), s.phase[0 := Idle]);
    SlowFirstCheck(s.db, a);
    SlowSecondCheck(t.db, b);
    SerializedCheckIsRun(s, 0, "m", CheckDown, 0);
    SerializedCheckIsRun(t, 0, "m", CheckDown, 60000);
    RunJoin(s, [(0, Load("m"))] + WholeCheck(0, CheckDown, 0), [(0, Load("m"))] + WholeCheck(0, CheckDown, 60000));
  }

  lemma StaleFailureEnds(s: State, row: MonitorRow)
    requires s.db.windows == [] && "m" in s.db.monitors && |s.db.incidents| == 1 && Live(s.db.incidents[0], "m")
    requires PhaseOf(s, 1) == Loaded("m", row, false)
    requires row.health == Pending && row.failures == 0 && row.failureThreshold == 2
    ensures var r := R.Run(s, DecideCalls(1, CheckDown, 120000) + [(1, FindRelapse), (1, Step.Stop)]);
      && "m" in r.db.monitors && r.db.monitors["m"].health == Pending
      && Unresolved(r.db.incidents, "m") == {0}
  {
    CrashedCheckIff(s, 1, CheckDown, 120000, FindRelapse);
    assert DecisionFor(row, CheckDown, false).state == Pending;
  }

  lemma StaleFailureRun(s: State, a: Schedule, b: Schedule)
    ensures R.Run(s, [(1, Load("m"))] + a + b) == R.Run(R.Run(Take(s, 1, Load("m")), a), b)
  {
    R.RunFirst(s, 1, Load("m"), a);
    RunJoin(s, [(1, Load("m"))] + a, b);
  }

  /**
   * It happens: a failing check that is below the threshold of its old snapshot comes
   * after the two that opened the incident, and the monitor is PENDING again beside it.
   */
  lemma StaleFailureHappens()
    ensures var r := R.Run(SLOW_MONITOR, [(1, Load("m"))] + CheckTwice(0)
                                         + (DecideCalls(1, CheckDown, 120000) + [(1, FindRelapse), (1, Step.Stop)]));
      && "m" in r.db.monitors && r.db.monitors["m"].health == Pending
      && Unresolved(r.db.incidents, "m") == {0}
  {
    SlowOpens();
    StaleFailureEnds(R.Run(Take(SLOW_MONITOR, 1, Load("m")), CheckTwice(0)), SLOW_MONITOR.db.monitors["m"]);
    StaleFailureRun(SLOW_MONITOR, CheckTwice(0), DecideCalls(1, CheckDown, 120000) + [(1, FindRelapse), (1, Step.Stop)]);
  }

  // ---- Racing past the flapping count ----

  /** The worker creates and announces its incident, and somebody resolves it at once. */
  function Opening(who: nat, api: nat, id: nat): Schedule {
    [(who, CreateIncident), (who, AnnounceOpened), (api, ReadToResolve(id, "org")), (api, WriteResolved(0))]
  }

  predicate AllClosed(rows: seq<Incident>) {
    forall i :: 0 <= i < |rows| ==>
      rows[i].monitorId == "m" && rows[i].status == Resolved && rows[i].fingerprint == None && rows[i].startedAt == 0
  }

  predicate AllOpenings(alerts: seq<Alert>) {
    forall i :: 0 <= i < |alerts| ==> AnnouncesOpen(alerts[i], "m") && alerts[i].at == 0
  }

  /** So far n incidents, all of them announced and resolved. */
  predicate Scene(w: World, n: nat) {
    Site(w) && AllClosed(w.incidents) && AllOpenings(w.alerts) && |w.incidents| == |w.alerts| == n
  }

  lemma CreateAndAnnounce(s: State, who: nat, n: nat)
    requires Scene(s.db, n) && PhaseOf(s, who) == FlapRead("m", "org", false, 0)
    ensures var r := Take(Take(s, who, CreateIncident), who, AnnounceOpened);
      && r.db.incidents == s.db.incidents + [DetectedRow("org", "m", 0)]
      && r.db.alerts == s.db.alerts + [Alert(n, "m", OpenedAlert, 0)]
      && r.db.monitors == s.db.monitors && r.db.windows == s.db.windows && r.phase == s.phase[who := Idle]
  {
    var s1 := Take(s, who, CreateIncident);
    assert s1.phase == s.phase[who := Created("m", n, false, 0)];
  }

  lemma ReadAndResolve(s: State, api: nat, id: nat)
    requires PhaseOf(s, api).Idle? && Owns(s.db, id, "org") && s.db.incidents[id].status != Resolved
    ensures var r := Take(Take(s, api, ReadToResolve(id, "org")), api, WriteResolved(0));
      && r.db.incidents == s.db.incidents[id := ResolvedRow(s.db.incidents[id], 0)]
      && r.db.alerts == s.db.alerts && r.db.monitors == s.db.monitors && r.db.windows == s.db.windows
      && r.phase == s.phase[api := Idle]
  {
    var s1 := Take(s, api, ReadToResolve(id, "org"));
    assert s1 == Goto(s, api, ResolveRead(id, s.db.incidents[id].startedAt));
  }

  lemma OpeningRuns(s: State, who: nat, api: nat, n: nat)
    requires Scene(s.db, n) && who != api && PhaseOf(s, api).Idle?
    requires PhaseOf(s, who) == FlapRead("m", "org", false, 0)
    ensures var r := R.Run(s, Opening(who, api, n));
      && Scene(r.db, n + 1) && r.db.monitors == s.db.monitors
      && r.phase == s.phase[who := Idle][api := Idle]
  {
    RunFour(s, (who, CreateIncident), (who, AnnounceOpened), (api, ReadToResolve(n, "org")), (api, WriteResolved(0)));
    CreateAndAnnounce(s, who, n);
    ReadAndResolve(Take(Take(s, who, CreateIncident), who, AnnounceOpened), api, n);
  }

  function Recover(who: nat): Schedule {
    [(who, Load("m")), (who, Evaluate(CheckUp, 0)), (who, WriteMonitor), (who, FindToResolve)]
  }

  lemma RecoverRuns(s: State, who: nat, n: nat)
    requires Scene(s.db, n) && s.db.monitors["m"].health == Down && PhaseOf(s, who).Idle?
    ensures var r := R.Run(s, Recover(who));
      Scene(r.db, n) && r.db.monitors["m"].health == Up && r.phase == s.phase[who := Idle]
  {
    var row := s.db.monitors["m"];
    RunFour(s, (who, Load("m")), (who, Evaluate(CheckUp, 0)), (who, WriteMonitor), (who, FindToResolve));
    Loading(s, who);
    Deciding(Goto(s, who, Loaded("m", row, false)), who, row, CheckUp);
    assert DecisionFor(row, CheckUp, false).state == Up && DecisionFor(row, CheckUp, false).incident == Resolve;
  }

  /** One outage of worker 0, announced, resolved and recovered from; worker k stands for the API. */
  function Outage(k: nat, id: nat): Schedule {
    [(0, Load("m"))] + Detect(0) + Opening(0, k, id) + Recover(0)
  }

  ghost predicate AllIdle(s: State) {
    forall who :: PhaseOf(s, who).Idle?
  }

  predicate IsUp(w: World)
    requires Site(w)
  {
    w.monitors["m"].health == Up || w.monitors["m"].health == Pending
  }

  lemma RunOutage(s: State, k: nat, id: nat)
    ensures R.Run(s, Outage(k, id))
         == R.Run(R.Run(R.Run(Take(s, 0, Load("m")), Detect(0)), Opening(0, k, id)), Recover(0))
  {
    var load: Schedule := [(0, Load("m"))];
    RunJoin(s, load, Detect(0));
    RunJoin(s, load + Detect(0), Opening(0, k, id));
    RunJoin(s, load + Detect(0) + Opening(0, k, id), Recover(0));
    R.RunLast(s, [], 0, Load("m"));
    assert [] + load == load;
  }

  lemma OutageRuns(s: State, k: nat, n: nat)
    requires 1 <= k && n < FLAP_THRESHOLD && Scene(s.db, n) && IsUp(s.db) && AllIdle(s)
    ensures var r := R.Run(s, Outage(k, n)); Scene(r.db, n + 1) && IsUp(r.db) && AllIdle(r)
  {
    RunOutage(s, k, n);
    assert PhaseOf(s, 0).Idle? && PhaseOf(s, k).Idle?;
    Loading(s, 0);
    NotFlapping(s.db.incidents);
    var s1 := Take(s, 0, Load("m"));
    Detecting(s1, 0, s.db.monitors["m"]);
    var s2 := R.Run(s1, Detect(0));
    OpeningRuns(s2, 0, k, n);
    var s3 := R.Run(s2, Opening(0, k, n));
    RecoverRuns(s3, 0, n + 1);
    StaysIdle(s, R.Run(s3, Recover(0)));
  }

  lemma StaysIdle(s: State, r: State)
    requires AllIdle(s) && forall who :: who in r.phase ==> r.phase[who].Idle? || (who in s.phase && r.phase[who] == s.phase[who])
    ensures AllIdle(r)
  {
    forall who: nat ensures PhaseOf(r, who).Idle? {
      assert PhaseOf(s, who).Idle?;
    }
  }

  lemma {:induction false} AllStarted(rows: seq<Incident>)
    requires AllClosed(rows)
    ensures StartedSince(rows, "m", -FLAP_WINDOW_MS) == |rows|
  {
    if rows != [] {
      AllStarted(rows[..|rows| - 1]);
    }
  }

  lemma NotFlapping(rows: seq<Incident>)
    requires AllClosed(rows)
    ensures Flapping(rows, "m", 0) <==> |rows| >= FLAP_THRESHOLD
  {
    AllStarted(rows);
  }

  lemma {:induction false} AllOpened(alerts: seq<Alert>)
    requires AllOpenings(alerts)
    ensures OpenedInWindow(alerts, "m", 0) == |alerts|
  {
    if alerts != [] {
      AllOpened(alerts[..|alerts| - 1]);
    }
  }

  // ---- k workers at once ----

  function Loads(n: nat): Schedule {
    if n == 0 then [] else Loads(n - 1) + [(n - 1, Load("m"))]
  }

  function Detects(n: nat): Schedule {
    if n == 0 then [] else Detects(n - 1) + Detect(n - 1)
  }

  function Openings(n: nat, k: nat): Schedule {
    if n == 0 then [] else Openings(n - 1, k) + Opening(n - 1, k, n + 1)
  }

  /** Workers before `i` have done their part; the others up to k are still at the given phase. */
  ghost predicate Stage(s: State, i: nat, k: nat, done: Phase, todo: Phase) {
    && (forall who :: 0 <= who < i ==> PhaseOf(s, who) == done)
    && (forall who :: i <= who < k ==> PhaseOf(s, who) == todo)
    && forall who :: k <= who ==> PhaseOf(s, who).Idle?
  }

  lemma NextStage(s: State, r: State, i: nat, k: nat, done: Phase, todo: Phase)
    requires Stage(s, i, k, done, todo) && i < k
    requires r.phase == s.phase[i := done] || r.phase == s.phase[i := done][k := Idle]
    ensures Stage(r, i + 1, k, done, todo)
  {
    assert forall who: nat :: PhaseOf(r, who) == if who == i then done else PhaseOf(s, who) by {
      forall who: nat ensures PhaseOf(r, who) == if who == i then done else PhaseOf(s, who) {
        assert PhaseOf(s, k).Idle?;
      }
    }
  }

  lemma {:induction false} LoadsRun(s: State, k: nat, n: nat)
    requires n <= k && Site(s.db) && AllIdle(s)
    ensures var r := R.Run(s, Loads(n)); r.db == s.db && Stage(r, n, k, Loaded("m", s.db.monitors["m"], false), Idle)
  {
    if n > 0 {
      LoadsRun(s, k, n - 1);
      R.RunLast(s, Loads(n - 1), n - 1, Load("m"));
      Loading(R.Run(s, Loads(n - 1)), n - 1);
      NextStage(R.Run(s, Loads(n - 1)), R.Run(s, Loads(n)), n - 1, k, Loaded("m", s.db.monitors["m"], false), Idle);
    }
  }

  lemma DetectNext(s: State, r: State, row: MonitorRow, k: nat, n: nat)
    requires r == R.Run(s, Detect(n))
    requires n < k && Scene(s.db, FLAP_THRESHOLD - 1) && Stage(s, n, k, FlapRead("m", "org", false, 0), Loaded("m", row, false))
    requires (row.health == Up || row.health == Pending) && row.failureThreshold == 1 && row.organizationId == "org"
    ensures Scene(r.db, FLAP_THRESHOLD - 1) && Stage(r, n + 1, k, FlapRead("m", "org", false, 0), Loaded("m", row, false))
  {
    NotFlapping(s.db.incidents);
    Detecting(s, n, row);
    NextStage(s, r, n, k, FlapRead("m", "org", false, 0), Loaded("m", row, false));
  }

  lemma DetectsNext(s: State, n: nat)
    ensures R.Run(s, Detects(n + 1)) == R.Run(R.Run(s, Detects(n)), Detect(n))
  {
    RunJoin(s, Detects(n), Detect(n));
  }

  lemma DetectsStep(s: State, row: MonitorRow, k: nat, n: nat)
    requires n < k && (row.health == Up || row.health == Pending) && row.failureThreshold == 1 && row.organizationId == "org"
    requires var t := R.Run(s, Detects(n));
      Scene(t.db, FLAP_THRESHOLD - 1) && Stage(t, n, k, FlapRead("m", "org", false, 0), Loaded("m", row, false))
    ensures var r := R.Run(s, Detects(n + 1));
      Scene(r.db, FLAP_THRESHOLD - 1) && Stage(r, n + 1, k, FlapRead("m", "org", false, 0), Loaded("m", row, false))
  {
    DetectsNext(s, n);
    DetectNext(R.Run(s, Detects(n)), R.Run(s, Detects(n + 1)), row, k, n);
  }

  lemma {:induction false} DetectsRun(s: State, row: MonitorRow, k: nat, n: nat)
    requires n <= k && Scene(s.db, FLAP_THRESHOLD - 1) && Stage(s, k, k, Loaded("m", row, false), Idle)
    requires (row.health == Up || row.health == Pending) && row.failureThreshold == 1 && row.organizationId == "org"
    ensures var r := R.Run(s, Detects(n));
      Scene(r.db, FLAP_THRESHOLD - 1) && Stage(r, n, k, FlapRead("m", "org", false, 0), Loaded("m", row, false))
  {
    if n > 0 {
      DetectsRun(s, row, k, n - 1);
      DetectsStep(s, row, k, n - 1);
    }
  }

  lemma {:induction false} OpeningsRun(s: State, k: nat, n: nat)
    requires n <= k && Scene(s.db, FLAP_THRESHOLD - 1) && Stage(s, k, k, FlapRead("m", "org", false, 0), Idle)
    ensures var r := R.Run(s, Openings(n, k));
      Scene(r.db, FLAP_THRESHOLD - 1 + n) && Stage(r, n, k, Idle, FlapRead("m", "org", false, 0))
  {
    if n > 0 {
      OpeningsRun(s, k, n - 1);
      RunJoin(s, Openings(n - 1, k), Opening(n - 1, k, n + 1));
      OpeningRuns(R.Run(s, Openings(n - 1, k)), n - 1, k, n + 1);
      NextStage(R.Run(s, Openings(n - 1, k)), R.Run(s, Openings(n, k)), n - 1, k, Idle, FlapRead("m", "org", false, 0));
    }
  }

  /** Two outages one after the other, and then k workers that all read the count before any of them creates. */
  function Race(k: nat): Schedule {
    Outage(k, 0) + Outage(k, 1) + Loads(k) + Detects(k) + Openings(k, k)
  }

  lemma RaceRuns(k: nat)
    requires 1 <= k
    ensures Scene(R.Run(NEW_MONITOR, Race(k)).db, FLAP_THRESHOLD - 1 + k)
  {
    var warmUp := Outage(k, 0) + Outage(k, 1);
    RunJoin(NEW_MONITOR, Outage(k, 0), Outage(k, 1));
    RunJoin(NEW_MONITOR, warmUp, Loads(k));
    RunJoin(NEW_MONITOR, warmUp + Loads(k), Detects(k));
    RunJoin(NEW_MONITOR, warmUp + Loads(k) + Detects(k), Openings(k, k));
    OutageRuns(NEW_MONITOR, k, 0);
    OutageRuns(R.Run(NEW_MONITOR, Outage(k, 0)), k, 1);
    var s := R.Run(NEW_MONITOR, warmUp);
    LoadsRun(s, k, k);
    DetectsRun(R.Run(s, Loads(k)), s.db.monitors["m"], k, k);
    OpeningsRun(R.Run(R.Run(s, Loads(k)), Detects(k)), k, k);
  }

  // ---- No more than k of them read at once ----

  predicate ReadBelow(schedule: Schedule, k: nat) {
    forall i :: 0 <= i < |schedule| && schedule[i].1.ReadFlapping? ==> schedule[i].0 < k
  }

  lemma {:induction false} FlapReadBelow(s: State, schedule: Schedule, n: nat, k: nat)
    requires s.phase == map[] && ReadBelow(schedule, k) && n <= |schedule|
    ensures forall who :: who in R.After(s, schedule, n).phase && R.After(s, schedule, n).phase[who].FlapRead? ==> who < k
  {
    if n > 0 {
      FlapReadBelow(s, schedule, n - 1, k);
      R.AfterNext(s, schedule, n - 1);
    }
  }

  lemma ReadBelowIsAtMost(s: State, schedule: Schedule, k: nat)
    requires s.phase == map[] && ReadBelow(schedule, k)
    ensures AtMostReading(s, schedule, "m", k)
  {
    forall n | 0 <= n <= |schedule| ensures |Those(R.After(s, schedule, n).phase, Reading("m"))| <= k {
      FlapReadBelow(s, schedule, n, k);
      Subset(Those(R.After(s, schedule, n).phase, Reading("m")), UpTo(k));
    }
  }

  lemma {:induction false} PartsReadBelow(n: nat, k: nat)
    requires n <= k
    ensures ReadBelow(Loads(n), k) && ReadBelow(Detects(n), k) && ReadBelow(Openings(n, k), k)
  {
    if n > 0 {
      PartsReadBelow(n - 1, k);
    }
  }

  /** The bound on racing workers is attained, for every number of them. */
  lemma RacingAlertsHappen(k: nat)
    requires 1 <= k
    ensures AtRest(NEW_MONITOR) && AtMostReading(NEW_MONITOR, Race(k), "m", k)
    ensures OpenedInWindow(R.Run(NEW_MONITOR, Race(k)).db.alerts, "m", 0) == FLAP_THRESHOLD + k - 1
  {
    RaceRuns(k);
    AllOpened(R.Run(NEW_MONITOR, Race(k)).db.alerts);
    PartsReadBelow(k, k);
    assert ReadBelow(Outage(k, 0), k) && ReadBelow(Outage(k, 1), k);
    ReadBelowIsAtMost(NEW_MONITOR, Race(k), k);
  }
}
