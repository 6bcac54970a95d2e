/**
 * Recovery notices when workers interleave. Finding the incident, resolving it and
 * announcing the recovery are separate calls, so each worker that has found the incident
 * before it is resolved announces its recovery.
 */
module RegionalRecoveries {
  import opened Wrappers
  import opened Sequences
  import opened StateMachine
  import opened Lifecycle
  import opened AlertLog
  import opened R = RegionalWorkers
  import opened RegionalAlertRate
  import opened RegionalTraces

  /** Has found the incident and not resolved it yet. Pings announce nothing. */
  function Choosing(id: nat): Phase -> bool {
    (p: Phase) => p.Chosen? && p.id == id && !p.ping
  }

  /** Has resolved the incident and is still to announce it. */
  function Closing(id: nat): Phase -> bool {
    (p: Phase) => p.Closed? && p.id == id
  }

  /** Recovery notices of the incident, sent or still to come. */
  function Notices(s: State, id: nat): nat {
    AlertCount(s.db.alerts, id, ResolvedAlert) + |Those(s.phase, Closing(id))|
  }

  predicate IsResolved(w: World, id: nat) {
    id < |w.incidents| && w.incidents[id].status == Resolved
  }

  /** Before the incident is resolved there is no notice; afterwards there is one for each that had found it. */
  predicate NoticeInv(s: State, id: nat, k: nat) {
    if IsResolved(s.db, id) then Notices(s, id) + |Those(s.phase, Choosing(id))| <= k
    else Notices(s, id) == 0 && |Those(s.phase, Choosing(id))| <= k
  }

  lemma PhaseCounts(s: State, who: nat, p: Phase, id: nat)
    ensures |Those(s.phase[who := p], Choosing(id))|
         == |Those(s.phase, Choosing(id))| - (if Choosing(id)(PhaseOf(s, who)) then 1 else 0) + if Choosing(id)(p) then 1 else 0
    ensures |Those(s.phase[who := p], Closing(id))|
         == |Those(s.phase, Closing(id))| - (if Closing(id)(PhaseOf(s, who)) then 1 else 0) + if Closing(id)(p) then 1 else 0
  {
    ThoseAfter(s.phase, who, p, Choosing(id));
    ThoseAfter(s.phase, who, p, Closing(id));
  }

  /** The incident is found only while it is unresolved. */
  lemma FindKeepsNotices(s: State, who: nat, id: nat, k: nat)
    requires NoticeInv(s, id, k) && |Those(Take(s, who, FindToResolve).phase, Choosing(id))| <= k
    ensures NoticeInv(Take(s, who, FindToResolve), id, k)
  {
    var p, t := PhaseOf(s, who), Take(s, who, FindToResolve);
    if p.Written? && p.decision.incident == Resolve {
      PhaseCounts(s, who, PhaseOf(t, who), id);
      assert t.db == s.db && t.phase == s.phase[who := PhaseOf(t, who)];
    }
  }

  lemma UpdateKeepsNotices(s: State, who: nat, id: nat, k: nat)
    requires NoticeInv(s, id, k)
    ensures NoticeInv(Take(s, who, UpdateResolved), id, k)
  {
    var p, t := PhaseOf(s, who), Take(s, who, UpdateResolved);
    if p.Chosen? && p.id < |s.db.incidents| {
      PhaseCounts(s, who, PhaseOf(t, who), id);
      assert t.phase == s.phase[who := PhaseOf(t, who)];
      assert IsResolved(t.db, id) <==> IsResolved(s.db, id) || p.id == id;
    }
  }

  lemma AnnounceKeepsNotices(s: State, who: nat, id: nat, k: nat)
    requires NoticeInv(s, id, k)
    ensures NoticeInv(Take(s, who, AnnounceResolved), id, k)
  {
    var p := PhaseOf(s, who);
    if p.Closed? {
      PhaseCounts(s, who, Idle, id);
      CountAppend(s.db.alerts, Alert(p.id, p.m, ResolvedAlert, p.now), id, ResolvedAlert);
      assert Notices(Take(s, who, AnnounceResolved), id) == Notices(s, id);
    }
  }

  /** No other step finds an incident or sends a notice, and none that is not stale reopens one. */
  lemma OtherFacts(s: State, who: nat, step: Step, id: nat)
    requires !step.FindToResolve? && !step.UpdateResolved? && !step.AnnounceResolved? && !Stale(s, who, step)
    ensures var t := Take(s, who, step);
      && (t.phase == s.phase || t.phase == s.phase[who := PhaseOf(t, who)])
      && (t.phase == s.phase || (!Choosing(id)(PhaseOf(t, who)) && !Closing(id)(PhaseOf(t, who))))
      && (IsResolved(s.db, id) ==> IsResolved(t.db, id))
      && (t.db.alerts == s.db.alerts
          || exists a: Alert :: a.kind == OpenedAlert && t.db.alerts == s.db.alerts + [a])
  {
    var t, p := Take(s, who, step), PhaseOf(s, who);
    if step.AnnounceOpened? && p.Created? && !p.flapping {
      assert t.db.alerts == s.db.alerts + [Alert(p.id, p.m, OpenedAlert, p.now)];
    }
  }

  lemma OtherKeepsNotices(s: State, who: nat, step: Step, id: nat, k: nat)
    requires NoticeInv(s, id, k) && !Stale(s, who, step)
    requires !step.FindToResolve? && !step.UpdateResolved? && !step.AnnounceResolved?
    ensures NoticeInv(Take(s, who, step), id, k)
  {
    var t := Take(s, who, step);
    OtherFacts(s, who, step, id);
    PhaseCounts(s, who, PhaseOf(t, who), id);
    if t.db.alerts != s.db.alerts {
      var a: Alert :| a.kind == OpenedAlert && t.db.alerts == s.db.alerts + [a];
      CountAppend(s.db.alerts, a, id, ResolvedAlert);
    }
    assert AlertCount(t.db.alerts, id, ResolvedAlert) == AlertCount(s.db.alerts, id, ResolvedAlert);
  }

  lemma TakeKeepsNotices(s: State, who: nat, step: Step, id: nat, k: nat)
    requires NoticeInv(s, id, k) && !Stale(s, who, step) && |Those(Take(s, who, step).phase, Choosing(id))| <= k
    ensures NoticeInv(Take(s, who, step), id, k)
  {
    if step.FindToResolve? {
      FindKeepsNotices(s, who, id, k);
    } else if step.UpdateResolved? {
      UpdateKeepsNotices(s, who, id, k);
    } else if step.AnnounceResolved? {
      AnnounceKeepsNotices(s, who, id, k);
    } else {
      OtherKeepsNotices(s, who, step, id, k);
    }
  }

  /** At no time do more than k workers stand between finding the incident and resolving it. */
  ghost predicate AtMostChoosing(s: State, schedule: Schedule, id: nat, k: nat) {
    forall n :: 0 <= n <= |schedule| ==> |Those(R.After(s, schedule, n).phase, Choosing(id))| <= k
  }

  lemma {:induction false} NotStaleAt(s: State, schedule: Schedule, n: nat)
    requires NoStaleWrites(s, schedule) && n < |schedule|
    ensures !Stale(R.After(s, schedule, n), schedule[n].0, schedule[n].1)
    decreases n
  {
    if n > 0 {
      NotStaleAt(Take(s, schedule[0].0, schedule[0].1), schedule[1..], n - 1);
      assert schedule[..n][1..] == schedule[1..][..n - 1];
    }
  }

  lemma {:induction false} NoticesAfter(s: State, schedule: Schedule, n: nat, id: nat, k: nat)
    requires NoticeInv(s, id, k) && NoStaleWrites(s, schedule) && AtMostChoosing(s, schedule, id, k) && n <= |schedule|
    ensures NoticeInv(R.After(s, schedule, n), id, k)
  {
    if n > 0 {
      NoticesAfter(s, schedule, n - 1, id, k);
      R.AfterNext(s, schedule, n - 1);
      NotStaleAt(s, schedule, n - 1);
      assert |Those(R.After(s, schedule, n).phase, Choosing(id))| <= k;
      TakeKeepsNotices(R.After(s, schedule, n - 1), schedule[n - 1].0, schedule[n - 1].1, id, k);
    }
  }

  /**
   * In every interleaving without stale acknowledges, the recovery of an incident is
   * announced at most as often as workers have found it at the same time: at most once
   * if only one at a time holds it.
   */
  lemma RecoveryNoticeBound(s: State, schedule: Schedule, id: nat, k: nat)
    requires AtRest(s) && NoStaleWrites(s, schedule) && AtMostChoosing(s, schedule, id, k)
    ensures AlertCount(R.Run(s, schedule).db.alerts, id, ResolvedAlert) <= k
  {
    assert Those(s.phase, Choosing(id)) == {} && Those(s.phase, Closing(id)) == {};
    NoticesAfter(s, schedule, |schedule|, id, k);
    assert schedule[..|schedule|] == schedule;
  }

  // ---- k workers at once ----

  /** Worker k opens incident 0 and announces it. */
  function FirstOutage(k: nat): Schedule {
    [(k, Load("m"))] + Detect(k) + [(k, CreateIncident), (k, AnnounceOpened)]
  }

  function Choose(who: nat): Schedule {
    [(who, Evaluate(CheckUp, 0)), (who, WriteMonitor), (who, FindToResolve)]
  }

  function Chooses(n: nat): Schedule {
    if n == 0 then [] else Chooses(n - 1) + Choose(n - 1)
  }

  function Close(who: nat): Schedule {
    [(who, UpdateResolved), (who, AnnounceResolved)]
  }

  function Closes(n: nat): Schedule {
    if n == 0 then [] else Closes(n - 1) + Close(n - 1)
  }

  /** k workers see the outage end and find the incident before any of them resolves it. */
  function Rush(k: nat): Schedule {
    FirstOutage(k) + Loads(k) + Chooses(k) + Closes(k)
  }

  /** One incident, found and not resolved. */
  predicate Ongoing(w: World) {
    Site(w) && w.incidents == [DetectedRow("org", "m", 0)]
  }

  lemma FirstOutageRuns(k: nat)
    ensures var r := R.Run(NEW_MONITOR, FirstOutage(k));
      && Ongoing(r.db) && r.db.monitors["m"].health == Down && AllIdle(r)
      && r.db.alerts == [Alert(0, "m", OpenedAlert, 0)]
  {
    var load: Schedule := [(k, Load("m"))];
    var s := Take(NEW_MONITOR, k, Load("m"));
    RunJoin(NEW_MONITOR, load + Detect(k), [(k, CreateIncident), (k, AnnounceOpened)]);
    RunJoin(NEW_MONITOR, load, Detect(k));
    R.RunOne(NEW_MONITOR, k, Load("m"));
    Loading(NEW_MONITOR, k);
    Detecting(s, k, NEW_MONITOR.db.monitors["m"]);
    OpeningFirst(R.Run(s, Detect(k)), k);
    assert PhaseOf(NEW_MONITOR, k).Idle?;
  }

  lemma OpeningFirst(s: State, who: nat)
    requires Site(s.db) && s.db.incidents == [] && s.db.alerts == []
    requires PhaseOf(s, who) == FlapRead("m", "org", false, 0)
    ensures var r := R.Run(s, [(who, CreateIncident), (who, AnnounceOpened)]);
      && Ongoing(r.db) && r.db.monitors == s.db.monitors && r.db.alerts == [Alert(0, "m", OpenedAlert, 0)]
      && r.phase == s.phase[who := Idle]
  {
    R.RunTwo(s, (who, CreateIncident), (who, AnnounceOpened));
    var s1 := Take(s, who, CreateIncident);
    assert s1.phase == s.phase[who := Created("m", 0, false, 0)] && s1.db.incidents == [DetectedRow("org", "m", 0)];
  }

  const FOUND := Chosen("m", 0, 0, 0, false)

  lemma ChooseRuns(s: State, who: nat, row: MonitorRow)
    requires Ongoing(s.db) && PhaseOf(s, who) == Loaded("m", row, false)
    requires row.health == Down && row.successThreshold == 1
    ensures var r := R.Run(s, Choose(who));
      Ongoing(r.db) && r.db.alerts == s.db.alerts && r.phase == s.phase[who := FOUND]
  {
    R.RunThree(s, (who, Evaluate(CheckUp, 0)), (who, WriteMonitor), (who, FindToResolve));
    Deciding(s, who, row, CheckUp);
    var t := Take(Take(s, who, Evaluate(CheckUp, 0)), who, WriteMonitor);
    FindingFirst(t, who, row.organizationId, DecisionFor(row, CheckUp, false));
  }

  lemma FindingFirst(s: State, who: nat, org: string, d: TransitionResult)
    requires Ongoing(s.db) && PhaseOf(s, who) == Written("m", org, d, 0, false) && d.incident == Resolve
    ensures Take(s, who, FindToResolve) == Goto(s, who, FOUND)
  {
    assert Live(s.db.incidents[0], "m");
  }

  lemma ChooseNext(s: State, row: MonitorRow, k: nat, n: nat)
    requires n < k && Ongoing(s.db) && Stage(s, n, k, FOUND, Loaded("m", row, false))
    requires row.health == Down && row.successThreshold == 1
    ensures var r := R.Run(s, Choose(n));
      Ongoing(r.db) && r.db.alerts == s.db.alerts && Stage(r, n + 1, k, FOUND, Loaded("m", row, false))
  {
    ChooseRuns(s, n, row);
    NextStage(s, R.Run(s, Choose(n)), n, k, FOUND, Loaded("m", row, false));
  }

  lemma ChoosesNext(s: State, n: nat)
    ensures R.Run(s, Chooses(n + 1)) == R.Run(R.Run(s, Chooses(n)), Choose(n))
  {
    RunJoin(s, Chooses(n), Choose(n));
  }

  lemma ChoosesStep(s: State, row: MonitorRow, k: nat, n: nat)
    requires n < k && row.health == Down && row.successThreshold == 1
    requires var t := R.Run(s, Chooses(n)); Ongoing(t.db) && Stage(t, n, k, FOUND, Loaded("m", row, false))
    ensures var t, r := R.Run(s, Chooses(n)), R.Run(s, Chooses(n + 1));
      Ongoing(r.db) && r.db.alerts == t.db.alerts && Stage(r, n + 1, k, FOUND, Loaded("m", row, false))
  {
    ChoosesNext(s, n);
    ChooseNext(R.Run(s, Chooses(n)), row, k, n);
  }

  lemma {:induction false} ChoosesRun(s: State, row: MonitorRow, k: nat, n: nat)
    requires n <= k && Ongoing(s.db) && Stage(s, k, k, Loaded("m", row, false), Idle)
    requires row.health == Down && row.successThreshold == 1
    ensures var r := R.Run(s, Chooses(n));
      Ongoing(r.db) && r.db.alerts == s.db.alerts && Stage(r, n, k, FOUND, Loaded("m", row, false))
  {
    if n > 0 {
      ChoosesRun(s, row, k, n - 1);
      ChoosesStep(s, row, k, n - 1);
    }
  }

  lemma CloseRuns(s: State, who: nat)
    requires |s.db.incidents| == 1 && PhaseOf(s, who) == FOUND
    ensures var r := R.Run(s, Close(who));
      && |r.db.incidents| == 1 && r.phase == s.phase[who := Idle]
      && AlertCount(r.db.alerts, 0, ResolvedAlert) == AlertCount(s.db.alerts, 0, ResolvedAlert) + 1
  {
    R.RunTwo(s, (who, UpdateResolved), (who, AnnounceResolved));
    var s1 := Take(s, who, UpdateResolved);
    assert s1 == Goto(s.(db := ForceClose(s.db, 0, 0, 0)), who, Closed("m", 0, 0));
    assert Take(s1, who, AnnounceResolved) == Goto(s1.(db := Dispatch(s1.db, 0, "m", ResolvedAlert, 0)), who, Idle);
    CountAppend(s.db.alerts, Alert(0, "m", ResolvedAlert, 0), 0, ResolvedAlert);
  }

  lemma CloseNext(s: State, k: nat, n: nat)
    requires n < k && |s.db.incidents| == 1 && Stage(s, n, k, Idle, FOUND)
    ensures var r := R.Run(s, Close(n));
      && |r.db.incidents| == 1 && Stage(r, n + 1, k, Idle, FOUND)
      && AlertCount(r.db.alerts, 0, ResolvedAlert) == AlertCount(s.db.alerts, 0, ResolvedAlert) + 1
  {
    CloseRuns(s, n);
    NextStage(s, R.Run(s, Close(n)), n, k, Idle, FOUND);
  }

  lemma ClosesNext(s: State, n: nat)
    ensures R.Run(s, Closes(n + 1)) == R.Run(R.Run(s, Closes(n)), Close(n))
  {
    RunJoin(s, Closes(n), Close(n));
  }

  lemma {:induction false} ClosesRun(s: State, k: nat, n: nat)
    requires n <= k && |s.db.incidents| == 1 && Stage(s, k, k, FOUND, Idle)
    ensures var r := R.Run(s, Closes(n));
      && |r.db.incidents| == 1 && Stage(r, n, k, Idle, FOUND)
      && AlertCount(r.db.alerts, 0, ResolvedAlert) == AlertCount(s.db.alerts, 0, ResolvedAlert) + n
  {
    if n > 0 {
      ClosesRun(s, k, n - 1);
      ClosesNext(s, n - 1);
      CloseNext(R.Run(s, Closes(n - 1)), k, n - 1);
    }
  }

  lemma RushRuns(k: nat)
    ensures AlertCount(R.Run(NEW_MONITOR, Rush(k)).db.alerts, 0, ResolvedAlert) == k
  {
    FirstOutageRuns(k);
    RushEnds(R.Run(NEW_MONITOR, FirstOutage(k)), k);
    RunParts(NEW_MONITOR, FirstOutage(k), Loads(k), Chooses(k), Closes(k));
    CountAppend([], Alert(0, "m", OpenedAlert, 0), 0, ResolvedAlert);
    assert [] + [Alert(0, "m", OpenedAlert, 0)] == [Alert(0, "m", OpenedAlert, 0)];
  }

  lemma RunParts(s: State, a: Schedule, b: Schedule, c: Schedule, d: Schedule)
    ensures R.Run(s, a + b + c + d) == R.Run(R.Run(R.Run(R.Run(s, a), b), c), d)
  {
    RunJoin(s, a, b);
    RunJoin(s, a + b, c);
    RunJoin(s, a + b + c, d);
  }

  lemma RushEnds(s: State, k: nat)
    requires Ongoing(s.db) && s.db.monitors["m"].health == Down && AllIdle(s)
    ensures var r := R.Run(R.Run(R.Run(s, Loads(k)), Chooses(k)), Closes(k));
      AlertCount(r.db.alerts, 0, ResolvedAlert) == AlertCount(s.db.alerts, 0, ResolvedAlert) + k
  {
    LoadsRun(s, k, k);
    ChoosesRun(R.Run(s, Loads(k)), s.db.monitors["m"], k, k);
    ClosesRun(R.Run(R.Run(s, Loads(k)), Chooses(k)), k, k);
  }

  predicate FindBelow(schedule: Schedule, k: nat) {
    forall i :: 0 <= i < |schedule| ==>
      !schedule[i].1.WriteAcknowledged? && (schedule[i].1.FindToResolve? ==> schedule[i].0 < k)
  }

  lemma {:induction false} ChosenBelow(s: State, schedule: Schedule, n: nat, k: nat)
    requires s.phase == map[] && FindBelow(schedule, k) && n <= |schedule|
    ensures forall who :: who in R.After(s, schedule, n).phase && R.After(s, schedule, n).phase[who].Chosen? ==> who < k
  {
    if n > 0 {
      ChosenBelow(s, schedule, n - 1, k);
      R.AfterNext(s, schedule, n - 1);
    }
  }

  lemma {:induction false} PartsFindBelow(n: nat, k: nat)
    requires n <= k
    ensures FindBelow(Loads(n), k) && FindBelow(Chooses(n), k) && FindBelow(Closes(n), k)
  {
    if n > 0 {
      PartsFindBelow(n - 1, k);
    }
  }

  /** The bound is attained, for every number of workers. */
  lemma RepeatedRecoveriesHappen(k: nat)
    ensures AtRest(NEW_MONITOR) && NoStaleWrites(NEW_MONITOR, Rush(k)) && AtMostChoosing(NEW_MONITOR, Rush(k), 0, k)
    ensures AlertCount(R.Run(NEW_MONITOR, Rush(k)).db.alerts, 0, ResolvedAlert) == k
  {
    var schedule := Rush(k);
    RushRuns(k);
    PartsFindBelow(k, k);
    assert FindBelow(FirstOutage(k), k);
    AtomicAcknowledgesAreNotStale(NEW_MONITOR, schedule);
    forall n | 0 <= n <= |schedule| ensures |Those(R.After(NEW_MONITOR, schedule, n).phase, Choosing(0))| <= k {
      ChosenBelow(NEW_MONITOR, schedule, n, k);
      Subset(Those(R.After(NEW_MONITOR, schedule, n).phase, Choosing(0)), UpTo(k));
    }
  }
}
