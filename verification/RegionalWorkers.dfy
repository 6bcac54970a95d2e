/**
 * Check workers in several regions and the API acting on the same rows. A worker works
 * from a snapshot that may be stale, and every database call is a separate step, so
 * that any interleaving (and any crash between two calls) is a run of this machine.
 */
module RegionalWorkers {
  import opened Wrappers
  import opened StateMachine
  import opened L = Lifecycle
  import opened IncidentAgreement

  /** Where a worker (or an API request) stands between two database calls. */
  datatype Phase =
    | Idle
    | Loaded(m: string, snapshot: MonitorRow, ping: bool)
    | Decided(m: string, snapshot: MonitorRow, decision: TransitionResult, now: Millis, ping: bool)
    | Written(m: string, org: string, decision: TransitionResult, now: Millis, ping: bool)
    | FlapRead(m: string, org: string, flapping: bool, now: Millis)
    | Created(m: string, id: nat, flapping: bool, now: Millis)
    | Chosen(m: string, id: nat, startedAt: Millis, now: Millis, ping: bool)
    | Closed(m: string, id: nat, now: Millis)
    | Relapsed(id: nat, now: Millis)
    | ResolveRead(id: nat, startedAt: Millis)
    | AcknowledgeRead(id: nat)

  datatype State = State(db: World, phase: map<nat, Phase>)

  datatype Step =
    // the pipeline; a worker that stops is done, or crashes
    | Load(m: string)
    | LoadPing(m: string)
    | Evaluate(status: CheckStatus, now: Millis)
    | WriteMonitor
    | ReadFlapping
    | CreateIncident
    | AnnounceOpened
    | FindToResolve
    | UpdateResolved
    | AnnounceResolved
    | FindRelapse
    | NoteRelapse
    | Stop
    // requests to the API
    | ReadToResolve(id: nat, org: string)
    | WriteResolved(now: Millis)
    | AcknowledgeAtOnce(id: nat, org: string, now: Millis)
    | ReadToAcknowledge(id: nat, org: string)
    | WriteAcknowledged(now: Millis)
    // other edits
    | Edit(op: Op)

  function PhaseOf(s: State, who: nat): Phase {
    if who in s.phase then s.phase[who] else Idle
  }

  function Goto(s: State, who: nat, p: Phase): State {
    s.(phase := s.phase[who := p])
  }

  /** The update that resolves a row, with the start time read earlier. It does not look at the status. */
  function ForceClose(w: World, id: nat, startedAt: Millis, now: Millis): World
    requires id < |w.incidents|
  {
    var row := w.incidents[id].(status := Resolved, resolvedAt := Some(now),
                                durationSec := Some(DurationSec(now - startedAt)), fingerprint := None);
    w.(incidents := w.incidents[id := row], events := w.events + [Event(id, ResolvedEvent, now)])
  }

  function ForceAcknowledge(w: World, id: nat, now: Millis): World
    requires id < |w.incidents|
  {
    AddEvent(w.(incidents := w.incidents[id := AcknowledgedRow(w.incidents[id], now)]), id, AcknowledgedEvent, now)
  }

  /** A ping is a passing check. */
  predicate Fits(p: Phase, status: CheckStatus)
    requires p.Loaded?
  {
    p.ping ==> status == CheckUp
  }

  /** One step of one participant; a step that does not fit its phase changes nothing. */
  function Take(s: State, who: nat, step: Step): State {
    var w, p := s.db, PhaseOf(s, who);
    match step
    case Load(m) =>
      if p.Idle? && m in w.monitors && w.monitors[m].mode == Active then Goto(s, who, Loaded(m, w.monitors[m], false)) else s
    case LoadPing(m) =>
      if p.Idle? && m in w.monitors && w.monitors[m].heartbeat then Goto(s, who, Loaded(m, w.monitors[m], true)) else s
    case Evaluate(status, now) =>
      if p.Loaded? && Fits(p, status) then
        var d := DecisionFor(p.snapshot, status, InMaintenance(w.windows, p.m, now));
        Goto(s.(db := w.(checks := w.checks + [CheckResult(p.m, status, now)])), who,
             Decided(p.m, p.snapshot, d, now, p.ping))
      else s
    case WriteMonitor =>
      if p.Decided? && p.m in w.monitors then
        var row := w.monitors[p.m].(health := p.decision.state, failures := p.decision.failures,
                                    successes := p.decision.successes);
        var stamped := if !p.snapshot.heartbeat || p.ping then row.(lastCheckedAt := Some(p.now)) else row;
        Goto(s.(db := w.(monitors := w.monitors[p.m := stamped])), who,
             Written(p.m, p.snapshot.organizationId, p.decision, p.now, p.ping))
      else s
    case ReadFlapping =>
      if p.Written? && p.decision.incident == Open
      then Goto(s, who, FlapRead(p.m, p.org, Flapping(w.incidents, p.m, p.now), p.now)) else s
    case CreateIncident =>
      if p.FlapRead? then
        var (w1, id) := OpenIncident(w, p.org, p.m, p.now);
        Goto(s.(db := w1), who, if id.None? then Idle else Created(p.m, id.value, p.flapping, p.now))
      else s
    case AnnounceOpened =>
      if p.Created? then
        Goto(s.(db := if p.flapping then AddEvent(w, p.id, StatusChangedEvent, p.now)
                      else Dispatch(w, p.id, p.m, OpenedAlert, p.now)), who, Idle)
      else s
    case FindToResolve =>
      if p.Written? && p.decision.incident == Resolve then
        var found := FindUnresolved(w.incidents, p.m);
        Goto(s, who, if found.None? then Idle
                     else Chosen(p.m, found.value, w.incidents[found.value].startedAt, p.now, p.ping))
      else s
    case UpdateResolved =>
      if p.Chosen? && p.id < |w.incidents|
      then Goto(s.(db := ForceClose(w, p.id, p.startedAt, p.now)), who, if p.ping then Idle else Closed(p.m, p.id, p.now)) else s
    case AnnounceResolved =>
      if p.Closed? then Goto(s.(db := Dispatch(w, p.id, p.m, ResolvedAlert, p.now)), who, Idle) else s
    case FindRelapse =>
      if p.Written? && p.decision.incident == NoAction && p.decision.changed && p.decision.state == Down then
        var found := FindUnresolved(w.incidents, p.m);
        Goto(s, who, if found.None? then Idle else Relapsed(found.value, p.now))
      else s
    case NoteRelapse =>
      if p.Relapsed? then Goto(s.(db := AddEvent(w, p.id, StatusChangedEvent, p.now)), who, Idle) else s
    case Stop => Goto(s, who, Idle)
    case ReadToResolve(id, org) =>
      if p.Idle? && Owns(w, id, org) && w.incidents[id].status != Resolved
      then Goto(s, who, ResolveRead(id, w.incidents[id].startedAt)) else s
    case WriteResolved(now) =>
      if p.ResolveRead? && p.id < |w.incidents|
      then Goto(s.(db := ForceClose(w, p.id, p.startedAt, now)), who, Idle) else s
    case AcknowledgeAtOnce(id, org, now) => s.(db := Apply(w, Acknowledge(id, org, now)))
    case ReadToAcknowledge(id, org) =>
      if p.Idle? && Owns(w, id, org) && w.incidents[id].status == OpenStatus
      then Goto(s, who, AcknowledgeRead(id)) else s
    case WriteAcknowledged(now) =>
      if p.AcknowledgeRead? && p.id < |w.incidents|
      then Goto(s.(db := ForceAcknowledge(w, p.id, now)), who, Idle) else s
    case Edit(op) =>
      if op.EditWindows? || op.Pause? || op.Resume? then s.(db := Apply(w, op)) else s
  }

  /** A schedule names, for each step, who takes it. */
  function Run(s: State, schedule: seq<(nat, Step)>): State
    decreases |schedule|
  {
    if schedule == [] then s else Run(Take(s, schedule[0].0, schedule[0].1), schedule[1..])
  }

  /** The state after the first n steps. */
  function After(s: State, schedule: seq<(nat, Step)>, n: nat): State
    requires n <= |schedule|
  {
    Run(s, schedule[..n])
  }

  lemma {:induction false} RunJoin(s: State, a: seq<(nat, Step)>, b: seq<(nat, Step)>)
    ensures Run(s, a + b) == Run(Run(s, a), b)
    decreases |a|
  {
    if a == [] {
      assert a + b == b;
    } else {
      assert (a + b)[1..] == a[1..] + b;
      RunJoin(Take(s, a[0].0, a[0].1), a[1..], b);
    }
  }

  lemma RunLast(s: State, schedule: seq<(nat, Step)>, who: nat, step: Step)
    ensures Run(s, schedule + [(who, step)]) == Take(Run(s, schedule), who, step)
  {
    RunJoin(s, schedule, [(who, step)]);
    assert Run(Take(Run(s, schedule), who, step), []) == Take(Run(s, schedule), who, step);
  }

  lemma RunTwo(s: State, a: (nat, Step), b: (nat, Step))
    ensures Run(s, [a, b]) == Take(Take(s, a.0, a.1), b.0, b.1)
  {
    assert [a, b][1..] == [b] && [b][1..] == [];
    assert Run(Take(s, a.0, a.1), [b]) == Run(Take(Take(s, a.0, a.1), b.0, b.1), []);
  }

  lemma RunThree(s: State, a: (nat, Step), b: (nat, Step), c: (nat, Step))
    ensures Run(s, [a, b, c]) == Take(Take(Take(s, a.0, a.1), b.0, b.1), c.0, c.1)
  {
    assert [a, b, c][1..] == [b, c];
    RunTwo(Take(s, a.0, a.1), b, c);
  }

  lemma RunFour(s: State, a: (nat, Step), b: (nat, Step), c: (nat, Step), d: (nat, Step))
    ensures Run(s, [a, b, c, d]) == Take(Take(Take(Take(s, a.0, a.1), b.0, b.1), c.0, c.1), d.0, d.1)
  {
    assert [a, b, c, d][1..] == [b, c, d];
    RunThree(Take(s, a.0, a.1), b, c, d);
  }

  lemma AfterNext(s: State, schedule: seq<(nat, Step)>, n: nat)
    requires n < |schedule|
    ensures After(s, schedule, n + 1) == Take(After(s, schedule, n), schedule[n].0, schedule[n].1)
  {
    assert schedule[..n + 1] == schedule[..n] + [(schedule[n].0, schedule[n].1)];
    RunLast(s, schedule[..n], schedule[n].0, schedule[n].1);
  }

  // ---- The dedupe key under every interleaving ----

  /** An acknowledge that read OPEN and is about to write over a row resolved in between. */
  predicate Stale(s: State, who: nat, step: Step) {
    var p := PhaseOf(s, who);
    step.WriteAcknowledged? && p.AcknowledgeRead? && p.id < |s.db.incidents| && s.db.incidents[p.id].status == Resolved
  }

  lemma ForceCloseKeyed(w: World, id: nat, startedAt: Millis, now: Millis)
    requires Keyed(w.incidents) && id < |w.incidents|
    ensures Keyed(ForceClose(w, id, startedAt, now).incidents)
  {
  }

  lemma TakeKeyed(s: State, who: nat, step: Step)
    requires Keyed(s.db.incidents) && !Stale(s, who, step)
    ensures Keyed(Take(s, who, step).db.incidents)
  {
    var w, p := s.db, PhaseOf(s, who);
    if step.CreateIncident? && p.FlapRead? && !KeyTaken(w.incidents, p.m) {
      AppendKeyed(w.incidents, p.org, p.m, p.now);
    } else if step.AcknowledgeAtOnce? && Owns(w, step.id, step.org) && w.incidents[step.id].status == OpenStatus {
      AcknowledgeKeyed(w.incidents, step.id, step.now);
    } else if step.UpdateResolved? && p.Chosen? && p.id < |w.incidents| {
      ForceCloseKeyed(w, p.id, p.startedAt, p.now);
    } else if step.WriteResolved? && p.ResolveRead? && p.id < |w.incidents| {
      ForceCloseKeyed(w, p.id, p.startedAt, step.now);
    }
  }

  /** No acknowledge of the schedule is stale when it writes; atomic acknowledges never are. */
  predicate NoStaleWrites(s: State, schedule: seq<(nat, Step)>)
    decreases |schedule|
  {
    schedule == [] ||
    (!Stale(s, schedule[0].0, schedule[0].1) && NoStaleWrites(Take(s, schedule[0].0, schedule[0].1), schedule[1..]))
  }

  /**
   * In every interleaving of check workers with stale snapshots, crashes, manual
   * resolves and acknowledges that are not stale, a monitor has at most one unresolved
   * incident and the unresolved incidents are exactly the key holders.
   */
  lemma {:induction false} InterleavingsKeyed(s: State, schedule: seq<(nat, Step)>)
    requires Keyed(s.db.incidents) && NoStaleWrites(s, schedule)
    ensures var rows := Run(s, schedule).db.incidents;
      Keyed(rows) && forall m :: |Unresolved(rows, m)| <= 1
    decreases |schedule|
  {
    if schedule == [] {
      forall m ensures |Unresolved(s.db.incidents, m)| <= 1 { UnresolvedCount(s.db.incidents, m); }
    } else {
      TakeKeyed(s, schedule[0].0, schedule[0].1);
      InterleavingsKeyed(Take(s, schedule[0].0, schedule[0].1), schedule[1..]);
    }
  }

  lemma {:induction false} AtomicAcknowledgesAreNotStale(s: State, schedule: seq<(nat, Step)>)
    requires forall k :: 0 <= k < |schedule| ==> !schedule[k].1.WriteAcknowledged?
    ensures NoStaleWrites(s, schedule)
    decreases |schedule|
  {
    if schedule != [] {
      assert !schedule[0].1.WriteAcknowledged?;
      AtomicAcknowledgesAreNotStale(Take(s, schedule[0].0, schedule[0].1), schedule[1..]);
    }
  }

  // ---- What a stale acknowledge does ----

  /** The write of an acknowledge keeps the key discipline exactly when the row is still unresolved. */
  lemma AcknowledgeWriteIsSafeIff(s: State, who: nat, now: Millis)
    requires Keyed(s.db.incidents)
    requires PhaseOf(s, who).AcknowledgeRead? && PhaseOf(s, who).id < |s.db.incidents|
    ensures Keyed(Take(s, who, WriteAcknowledged(now)).db.incidents)
       <==> s.db.incidents[PhaseOf(s, who).id].status != Resolved
  {
    var id := PhaseOf(s, who).id;
    var rows := Take(s, who, WriteAcknowledged(now)).db.incidents;
    assert KeyedRow(s.db.incidents[id]);
    if s.db.incidents[id].status == Resolved {
      assert !KeyedRow(rows[id]);
    } else {
      forall i | 0 <= i < |rows| ensures KeyedRow(rows[i]) {
        assert KeyedRow(s.db.incidents[i]);
      }
    }
  }

  /** An acknowledge that reads OPEN, a resolve in between, the late write, and a worker about to create. */
  function StaleAcknowledge(id: nat, org: string, ack: nat, resolver: nat, worker: nat, now: Millis): seq<(nat, Step)> {
    [(ack, ReadToAcknowledge(id, org)), (resolver, ReadToResolve(id, org)), (resolver, WriteResolved(now)),
     (ack, WriteAcknowledged(now)), (worker, CreateIncident)]
  }

  lemma RunStaleAcknowledge(s: State, id: nat, org: string, ack: nat, resolver: nat, worker: nat, now: Millis)
    ensures var both := Take(Take(s, ack, ReadToAcknowledge(id, org)), resolver, ReadToResolve(id, org));
      Run(s, StaleAcknowledge(id, org, ack, resolver, worker, now))
      == Take(Take(Take(both, resolver, WriteResolved(now)), ack, WriteAcknowledged(now)), worker, CreateIncident)
  {
    var calls := [(ack, ReadToAcknowledge(id, org)), (resolver, ReadToResolve(id, org)), (resolver, WriteResolved(now)),
                  (ack, WriteAcknowledged(now))];
    RunFour(s, calls[0], calls[1], calls[2], calls[3]);
    RunLast(s, calls, worker, CreateIncident);
    assert StaleAcknowledge(id, org, ack, resolver, worker, now) == calls + [(worker, CreateIncident)];
  }

  /** The row is unresolved again, but nobody holds the key. */
  lemma LateWriteFreesKey(rows: seq<Incident>, id: nat, now: Millis)
    requires Keyed(rows) && id < |rows| && rows[id].status == OpenStatus
    ensures var late := rows[id := AcknowledgedRow(ResolvedRow(rows[id], now), now)];
      && !KeyTaken(late, rows[id].monitorId)
      && forall i :: 0 <= i < |late| ==> (Live(late[i], rows[id].monitorId) <==> i == id)
  {
    CloseKeyed(rows, id, now);
    KeyTakenIsLive(rows[id := ResolvedRow(rows[id], now)], rows[id].monitorId);
    assert forall i :: 0 <= i < |rows| && i != id ==> !Live(rows[i], rows[id].monitorId);
    assert forall i :: 0 <= i < |rows| ==> KeyedRow(rows[i]);
  }

  lemma BothRead(s: State, id: nat, org: string, ack: nat, resolver: nat)
    requires ack != resolver && PhaseOf(s, ack).Idle? && PhaseOf(s, resolver).Idle?
    requires Owns(s.db, id, org) && s.db.incidents[id].status == OpenStatus
    ensures Take(Take(s, ack, ReadToAcknowledge(id, org)), resolver, ReadToResolve(id, org))
         == Goto(Goto(s, ack, AcknowledgeRead(id)), resolver, ResolveRead(id, s.db.incidents[id].startedAt))
  {
    assert Take(s, ack, ReadToAcknowledge(id, org)) == Goto(s, ack, AcknowledgeRead(id));
  }

  /** The four database calls before the create, taken together. */
  lemma LateWrite(s: State, id: nat, org: string, ack: nat, resolver: nat, now: Millis)
    requires ack != resolver && PhaseOf(s, ack).Idle? && PhaseOf(s, resolver).Idle?
    requires Owns(s.db, id, org) && s.db.incidents[id].status == OpenStatus
    ensures var both := Take(Take(s, ack, ReadToAcknowledge(id, org)), resolver, ReadToResolve(id, org));
      var t := Take(Take(both, resolver, WriteResolved(now)), ack, WriteAcknowledged(now));
      && t.db.incidents == s.db.incidents[id := AcknowledgedRow(ResolvedRow(s.db.incidents[id], now), now)]
      && forall who :: who != ack && who != resolver ==> PhaseOf(t, who) == PhaseOf(s, who)
  {
    var s2 := Take(Take(s, ack, ReadToAcknowledge(id, org)), resolver, ReadToResolve(id, org));
    BothRead(s, id, org, ack, resolver);
    var s3 := Take(s2, resolver, WriteResolved(now));
    assert s3 == Goto(s2.(db := ForceClose(s2.db, id, s.db.incidents[id].startedAt, now)), resolver, Idle);
  }

  lemma CreateBeside(t: State, id: nat, worker: nat, m: string)
    requires PhaseOf(t, worker).FlapRead? && PhaseOf(t, worker).m == m && !KeyTaken(t.db.incidents, m)
    requires id < |t.db.incidents| && forall i :: 0 <= i < |t.db.incidents| ==> (Live(t.db.incidents[i], m) <==> i == id)
    ensures Unresolved(Take(t, worker, CreateIncident).db.incidents, m) == {id, |t.db.incidents|}
  {
    var p, rows := PhaseOf(t, worker), t.db.incidents;
    assert Take(t, worker, CreateIncident).db.incidents == rows + [DetectedRow(p.org, m, p.now)];
  }

  /**
   * A request that read OPEN, a manual resolve, and then the acknowledge's write leave
   * an unresolved incident without the key: the next worker that sees the monitor go
   * down opens a second one.
   */
  lemma StaleAcknowledgeForksOutage(s: State, id: nat, org: string, ack: nat, resolver: nat, worker: nat, now: Millis)
    requires Keyed(s.db.incidents) && ack != worker && ack != resolver && resolver != worker
    requires PhaseOf(s, ack).Idle? && PhaseOf(s, resolver).Idle?
    requires Owns(s.db, id, org) && s.db.incidents[id].status == OpenStatus
    requires PhaseOf(s, worker).FlapRead? && PhaseOf(s, worker).m == s.db.incidents[id].monitorId
    ensures Unresolved(Run(s, StaleAcknowledge(id, org, ack, resolver, worker, now)).db.incidents, s.db.incidents[id].monitorId)
         == {id, |s.db.incidents|}
  {
    LateWrite(s, id, org, ack, resolver, now);
    LateWriteFreesKey(s.db.incidents, id, now);
    RunStaleAcknowledge(s, id, org, ack, resolver, worker, now);
    var both := Take(Take(s, ack, ReadToAcknowledge(id, org)), resolver, ReadToResolve(id, org));
    var late := Take(Take(both, resolver, WriteResolved(now)), ack, WriteAcknowledged(now));
    CreateBeside(late, id, worker, s.db.incidents[id].monitorId);
  }

  // ---- A check without interruption ----

  function DecideCalls(who: nat, status: CheckStatus, now: Millis): seq<(nat, Step)> {
    [(who, Evaluate(status, now)), (who, WriteMonitor)]
  }

  function OpenCalls(who: nat): seq<(nat, Step)> {
    [(who, ReadFlapping), (who, CreateIncident), (who, AnnounceOpened)]
  }

  function ResolveCalls(who: nat): seq<(nat, Step)> {
    [(who, FindToResolve), (who, UpdateResolved), (who, AnnounceResolved)]
  }

  function RelapseCalls(who: nat): seq<(nat, Step)> {
    [(who, FindRelapse), (who, NoteRelapse)]
  }

  /** All calls of a check that has loaded its row; those that its decision does not ask for do nothing. */
  function WholeCheck(who: nat, status: CheckStatus, now: Millis): seq<(nat, Step)> {
    DecideCalls(who, status, now) + OpenCalls(who) + ResolveCalls(who) + RelapseCalls(who) + [(who, Stop)]
  }

  function OptionsOf(ping: bool): ProcessOptions {
    if ping then PING else JOB
  }

  lemma DecideRuns(s: State, who: nat, status: CheckStatus, now: Millis)
    requires PhaseOf(s, who).Loaded? && PhaseOf(s, who).m in s.db.monitors && Fits(PhaseOf(s, who), status)
    ensures var p, r := PhaseOf(s, who), Run(s, DecideCalls(who, status, now));
      var d := DecisionFor(p.snapshot, status, InMaintenance(s.db.windows, p.m, now));
      && r.db == RecordCheck(s.db, p.m, p.snapshot, status, d, now, p.ping)
      && r.phase == s.phase[who := Written(p.m, p.snapshot.organizationId, d, now, p.ping)]
  {
    var p := PhaseOf(s, who);
    var d := DecisionFor(p.snapshot, status, InMaintenance(s.db.windows, p.m, now));
    RunTwo(s, (who, Evaluate(status, now)), (who, WriteMonitor));
    var s1 := Take(s, who, Evaluate(status, now));
    assert s1.phase == s.phase[who := Decided(p.m, p.snapshot, d, now, p.ping)];
  }

  lemma OpenRuns(s: State, who: nat)
    requires who in s.phase && PhaseOf(s, who).Written? && PhaseOf(s, who).decision.incident == Open
    ensures var p, r := PhaseOf(s, who), Run(s, OpenCalls(who));
      r.db == OpenAndAlert(s.db, p.org, p.m, p.now, true).0 && r.phase == s.phase[who := Idle]
  {
    var p := PhaseOf(s, who);
    RunThree(s, (who, ReadFlapping), (who, CreateIncident), (who, AnnounceOpened));
    var s1 := Take(s, who, ReadFlapping);
    assert s1 == Goto(s, who, FlapRead(p.m, p.org, Flapping(s.db.incidents, p.m, p.now), p.now));
    var s2 := Take(s1, who, CreateIncident);
    assert s2.db == OpenIncident(s.db, p.org, p.m, p.now).0;
  }

  lemma OpenSkipped(s: State, who: nat)
    requires var p := PhaseOf(s, who); p.Idle? || (p.Written? && p.decision.incident != Open)
    ensures Run(s, OpenCalls(who)) == s
  {
    RunThree(s, (who, ReadFlapping), (who, CreateIncident), (who, AnnounceOpened));
  }

  lemma ResolveRuns(s: State, who: nat)
    requires who in s.phase && PhaseOf(s, who).Written? && PhaseOf(s, who).decision.incident == Resolve
    ensures var p, r := PhaseOf(s, who), Run(s, ResolveCalls(who));
      r.db == ResolveAndAlert(s.db, p.m, p.now, !p.ping).0 && r.phase == s.phase[who := Idle]
  {
    var p := PhaseOf(s, who);
    var found := FindUnresolved(s.db.incidents, p.m);
    RunThree(s, (who, FindToResolve), (who, UpdateResolved), (who, AnnounceResolved));
    if found.Some? {
      var s1 := Take(s, who, FindToResolve);
      assert s1 == Goto(s, who, Chosen(p.m, found.value, s.db.incidents[found.value].startedAt, p.now, p.ping));
      var s2 := Take(s1, who, UpdateResolved);
      assert s2.db == CloseIncident(s.db, found.value, p.now);
    }
  }

  lemma ResolveSkipped(s: State, who: nat)
    requires var p := PhaseOf(s, who); p.Idle? || (p.Written? && p.decision.incident != Resolve)
    ensures Run(s, ResolveCalls(who)) == s
  {
    RunThree(s, (who, FindToResolve), (who, UpdateResolved), (who, AnnounceResolved));
  }

  lemma RelapseRuns(s: State, who: nat)
    requires who in s.phase && (PhaseOf(s, who).Idle? || PhaseOf(s, who).Written?)
    ensures var p, r := PhaseOf(s, who), Run(s, RelapseCalls(who) + [(who, Stop)]);
      && r.phase == s.phase[who := Idle]
      && r.db == if p.Written? && p.decision.incident == NoAction && p.decision.changed && p.decision.state == Down
                 then L.NoteRelapse(s.db, p.m, p.now).0 else s.db
  {
    RunLast(s, RelapseCalls(who), who, Stop);
    RunTwo(s, (who, FindRelapse), (who, Step.NoteRelapse));
  }

  /** The calls after the write of the monitor. A ping never asks to open an incident. */
  lemma ActRuns(s: State, who: nat)
    requires who in s.phase && PhaseOf(s, who).Written? && (PhaseOf(s, who).ping ==> PhaseOf(s, who).decision.incident != Open)
    ensures var p := PhaseOf(s, who);
      var r := Run(Run(Run(s, OpenCalls(who)), ResolveCalls(who)), RelapseCalls(who) + [(who, Stop)]);
      r.db == ActOn(s.db, p.decision, p.org, p.m, p.now, !p.ping).0 && r.phase == s.phase[who := Idle]
  {
    var p := PhaseOf(s, who);
    if p.decision.incident == Open {
      OpenRuns(s, who);
      ResolveSkipped(Run(s, OpenCalls(who)), who);
    } else if p.decision.incident == Resolve {
      OpenSkipped(s, who);
      ResolveRuns(s, who);
    } else {
      OpenSkipped(s, who);
      ResolveSkipped(s, who);
    }
    RelapseRuns(Run(Run(s, OpenCalls(who)), ResolveCalls(who)), who);
  }

  /** A check that nobody interrupts does what the serialized pipeline does from the same snapshot, however old. */
  lemma UninterruptedCheck(s: State, who: nat, status: CheckStatus, now: Millis)
    requires PhaseOf(s, who).Loaded? && PhaseOf(s, who).m in s.db.monitors && Fits(PhaseOf(s, who), status)
    ensures var p, r := PhaseOf(s, who), Run(s, WholeCheck(who, status, now));
      r.db == Process(s.db, p.m, p.snapshot, status, now, OptionsOf(p.ping)).0 && r.phase == s.phase[who := Idle]
  {
    CheckRuns(s, who, status, now);
    RunWholeCheck(s, who, status, now);
  }

  lemma CheckRuns(s: State, who: nat, status: CheckStatus, now: Millis)
    requires PhaseOf(s, who).Loaded? && PhaseOf(s, who).m in s.db.monitors && Fits(PhaseOf(s, who), status)
    ensures var p, decided := PhaseOf(s, who), Run(s, DecideCalls(who, status, now));
      var r := Run(Run(Run(decided, OpenCalls(who)), ResolveCalls(who)), RelapseCalls(who) + [(who, Stop)]);
      var d := DecisionFor(p.snapshot, status, InMaintenance(s.db.windows, p.m, now));
      var recorded := RecordCheck(s.db, p.m, p.snapshot, status, d, now, p.ping);
      && r.db == ActOn(recorded, d, p.snapshot.organizationId, p.m, now, !p.ping).0
      && r.phase == s.phase[who := Idle]
  {
    var p := PhaseOf(s, who);
    var decided := Run(s, DecideCalls(who, status, now));
    DecideRuns(s, who, status, now);
    PassesNeverOpen(p.snapshot, status, InMaintenance(s.db.windows, p.m, now));
    WrittenOver(s.phase, who, PhaseOf(decided, who));
    ActRuns(decided, who);
  }

  lemma WrittenOver(phase: map<nat, Phase>, who: nat, p: Phase)
    ensures phase[who := p][who := Idle] == phase[who := Idle]
  {
  }

  lemma PassesNeverOpen(row: MonitorRow, status: CheckStatus, maintenance: bool)
    ensures IsSuccess(status) ==> DecisionFor(row, status, maintenance).incident != Open
  {
  }

  lemma RunWholeCheck(s: State, who: nat, status: CheckStatus, now: Millis)
    ensures var acted := Run(Run(s, DecideCalls(who, status, now)), OpenCalls(who));
      Run(s, WholeCheck(who, status, now)) == Run(Run(acted, ResolveCalls(who)), RelapseCalls(who) + [(who, Stop)])
  {
    var a, b, c := DecideCalls(who, status, now), OpenCalls(who), ResolveCalls(who);
    RunJoin(s, a, b);
    RunJoin(s, a + b, c);
    RunJoin(s, a + b + c, RelapseCalls(who) + [(who, Stop)]);
    assert WholeCheck(who, status, now) == a + b + c + (RelapseCalls(who) + [(who, Stop)]);
  }

  /** From the row as it is, the whole check does what the pipeline does. */
  lemma FreshCheckRuns(s: State, who: nat, ping: bool, m: string, status: CheckStatus, now: Millis)
    requires m in s.db.monitors && (ping ==> status == CheckUp)
    ensures Run(Goto(s, who, Loaded(m, s.db.monitors[m], ping)), WholeCheck(who, status, now))
         == State(Process(s.db, m, s.db.monitors[m], status, now, OptionsOf(ping)).0, s.phase[who := Idle])
  {
    var t := Goto(s, who, Loaded(m, s.db.monitors[m], ping));
    UninterruptedCheck(t, who, status, now);
    assert t.phase[who := Idle] == s.phase[who := Idle];
  }

  /** So every serialized check is a run of this machine, and every ping. */
  lemma SerializedCheckIsRun(s: State, who: nat, m: string, status: CheckStatus, now: Millis)
    requires PhaseOf(s, who).Idle? && m in s.db.monitors
    ensures s.db.monitors[m].mode == Active ==>
      Run(s, [(who, Load(m))] + WholeCheck(who, status, now))
      == State(Apply(s.db, CheckJob(m, status, now)), s.phase[who := Idle])
    ensures s.db.monitors[m].heartbeat ==>
      Run(s, [(who, LoadPing(m))] + WholeCheck(who, CheckUp, now))
      == State(Apply(s.db, Heartbeat(m, now)), s.phase[who := Idle])
  {
    if s.db.monitors[m].mode == Active {
      RunFirst(s, who, Load(m), WholeCheck(who, status, now));
      FreshCheckRuns(s, who, false, m, status, now);
    }
    if s.db.monitors[m].heartbeat {
      RunFirst(s, who, LoadPing(m), WholeCheck(who, CheckUp, now));
      FreshCheckRuns(s, who, true, m, CheckUp, now);
    }
  }

  lemma AtomicAcknowledgeIsRun(s: State, who: nat, id: nat, org: string, now: Millis)
    ensures Run(s, [(who, AcknowledgeAtOnce(id, org, now))]) == State(Apply(s.db, Acknowledge(id, org, now)), s.phase)
  {
    RunOne(s, who, AcknowledgeAtOnce(id, org, now));
  }

  /** An acknowledge whose two calls are not interrupted. */
  lemma SerializedAcknowledgeIsRun(s: State, who: nat, id: nat, org: string, now: Millis)
    requires PhaseOf(s, who).Idle?
    ensures Run(s, [(who, ReadToAcknowledge(id, org)), (who, WriteAcknowledged(now))]).db == Apply(s.db, Acknowledge(id, org, now))
  {
    RunTwo(s, (who, ReadToAcknowledge(id, org)), (who, WriteAcknowledged(now)));
    if Owns(s.db, id, org) && s.db.incidents[id].status == OpenStatus {
      assert Take(s, who, ReadToAcknowledge(id, org)) == Goto(s, who, AcknowledgeRead(id));
    }
  }

  /** The same for a manual resolve. */
  lemma SerializedResolveIsRun(s: State, who: nat, id: nat, org: string, now: Millis)
    requires PhaseOf(s, who).Idle?
    ensures var r := Run(s, [(who, ReadToResolve(id, org)), (who, WriteResolved(now))]);
      r.db == Apply(s.db, ManualResolve(id, org, now)) && PhaseOf(r, who).Idle?
  {
    RunTwo(s, (who, ReadToResolve(id, org)), (who, WriteResolved(now)));
    if Owns(s.db, id, org) && s.db.incidents[id].status != Resolved {
      assert Take(s, who, ReadToResolve(id, org)) == Goto(s, who, ResolveRead(id, s.db.incidents[id].startedAt));
    }
  }

  /** The steps with which one participant performs an operation on its own. */
  function StepsOf(op: Op, who: nat, w: World): seq<(nat, Step)> {
    match op
    case CheckJob(m, status, now) =>
      if m in w.monitors && w.monitors[m].mode == Active then [(who, Load(m))] + WholeCheck(who, status, now) else []
    case Heartbeat(m, now) =>
      if m in w.monitors && w.monitors[m].heartbeat then [(who, LoadPing(m))] + WholeCheck(who, CheckUp, now) else []
    case Acknowledge(id, org, now) => [(who, AcknowledgeAtOnce(id, org, now))]
    case ManualResolve(id, org, now) => [(who, ReadToResolve(id, org)), (who, WriteResolved(now))]
    case _ => [(who, Edit(op))]
  }

  lemma StepsPerform(s: State, who: nat, op: Op)
    requires PhaseOf(s, who).Idle?
    ensures var r := Run(s, StepsOf(op, who, s.db)); r.db == Apply(s.db, op) && PhaseOf(r, who).Idle?
  {
    match op
    case CheckJob(m, status, now) => if m in s.db.monitors { SerializedCheckIsRun(s, who, m, status, now); }
    case Heartbeat(m, now) => if m in s.db.monitors { SerializedCheckIsRun(s, who, m, CheckUp, now); }
    case Acknowledge(id, org, now) =>
      AtomicAcknowledgeIsRun(s, who, id, org, now);
    case ManualResolve(id, org, now) => SerializedResolveIsRun(s, who, id, org, now);
    case _ => RunOne(s, who, Edit(op));
  }

  /** So every serialized run, with all its operations, is a schedule of this machine. */
  lemma {:induction false} SerializedRunIsSchedule(s: State, who: nat, ops: seq<Op>) returns (schedule: seq<(nat, Step)>)
    requires PhaseOf(s, who).Idle?
    ensures Run(s, schedule).db == L.Run(s.db, ops) && PhaseOf(Run(s, schedule), who).Idle?
    decreases |ops|
  {
    if ops == [] {
      schedule := [];
    } else {
      var first := StepsOf(ops[0], who, s.db);
      StepsPerform(s, who, ops[0]);
      var rest := SerializedRunIsSchedule(Run(s, first), who, ops[1..]);
      RunJoin(s, first, rest);
      schedule := first + rest;
    }
  }

  lemma RunFirst(s: State, who: nat, step: Step, rest: seq<(nat, Step)>)
    ensures Run(s, [(who, step)] + rest) == Run(Take(s, who, step), rest)
  {
    RunOne(s, who, step);
    RunJoin(s, [(who, step)], rest);
  }

  lemma RunOne(s: State, who: nat, step: Step)
    ensures Run(s, [(who, step)]) == Take(s, who, step)
  {
    RunLast(s, [], who, step);
    assert [] + [(who, step)] == [(who, step)];
  }

  // ---- What a stale snapshot does ----

  /**
   * When a check from a snapshot of any age agrees with the incidents afterwards, if
   * nobody interrupts it: it must not decide UP or PENDING beside an unresolved incident
   * without asking to resolve it, nor DOWN or RECOVERING without one unless it asks to
   * open one.
   */
  lemma StaleCheckIff(s: State, who: nat, status: CheckStatus, now: Millis)
    requires Keyed(s.db.incidents)
    requires PhaseOf(s, who).Loaded? && PhaseOf(s, who).m in s.db.monitors && Fits(PhaseOf(s, who), status)
    ensures var p, r := PhaseOf(s, who), Run(s, WholeCheck(who, status, now)).db;
      var d := DecisionFor(p.snapshot, status, InMaintenance(s.db.windows, p.m, now));
      && (Clean(r, p.m) <==> d.state !in {Up, Pending} || d.incident == Resolve || !HasLive(s.db.incidents, p.m))
      && (Covered(r, p.m) <==> d.state !in {Down, Recovering} || d.incident == Open || HasLive(s.db.incidents, p.m))
  {
    var p := PhaseOf(s, who);
    var d := DecisionFor(p.snapshot, status, InMaintenance(s.db.windows, p.m, now));
    UninterruptedCheck(s, who, status, now);
    ActOnIncidents(RecordCheck(s.db, p.m, p.snapshot, status, d, now, p.ping), d, p.snapshot.organizationId, p.m, now, !p.ping);
  }

  /** The calls that follow the write of the monitor and only read. */
  predicate OnlyReads(step: Step) {
    step.ReadFlapping? || step.FindToResolve? || step.FindRelapse? || step.Stop?
  }

  lemma CrashedCheck(s: State, who: nat, status: CheckStatus, now: Millis, read: Step)
    requires OnlyReads(read)
    requires PhaseOf(s, who).Loaded? && PhaseOf(s, who).m in s.db.monitors && Fits(PhaseOf(s, who), status)
    ensures Run(s, DecideCalls(who, status, now) + [(who, read), (who, Stop)]).db == Run(s, DecideCalls(who, status, now)).db
  {
    RunJoin(s, DecideCalls(who, status, now), [(who, read), (who, Stop)]);
    JustReads(Run(s, DecideCalls(who, status, now)), who, read);
  }

  lemma JustReads(s: State, who: nat, read: Step)
    requires OnlyReads(read)
    ensures Run(s, [(who, read), (who, Stop)]).db == s.db
  {
    RunTwo(s, (who, read), (who, Stop));
  }

  /** The same for one that crashes after it has written the monitor and before it writes an incident. */
  lemma CrashedCheckIff(s: State, who: nat, status: CheckStatus, now: Millis, read: Step)
    requires OnlyReads(read)
    requires PhaseOf(s, who).Loaded? && PhaseOf(s, who).m in s.db.monitors && Fits(PhaseOf(s, who), status)
    ensures var p, r := PhaseOf(s, who), Run(s, DecideCalls(who, status, now) + [(who, read), (who, Stop)]).db;
      var d := DecisionFor(p.snapshot, status, InMaintenance(s.db.windows, p.m, now));
      && r.incidents == s.db.incidents && p.m in r.monitors && r.monitors[p.m].health == d.state
      && (Clean(r, p.m) <==> d.state !in {Up, Pending} || !HasLive(s.db.incidents, p.m))
      && (Covered(r, p.m) <==> d.state !in {Down, Recovering} || HasLive(s.db.incidents, p.m))
  {
    CrashedCheck(s, who, status, now, read);
    DecideRuns(s, who, status, now);
  }

  /**
   * A passing check decided from a snapshot taken before the outage writes UP and
   * touches no incident: afterwards the monitor is up with none unresolved exactly when
   * none was unresolved anyway.
   */
  lemma StaleSuccessKeepsIncidents(s: State, who: nat, now: Millis)
    requires PhaseOf(s, who).Loaded? && PhaseOf(s, who).m in s.db.monitors
    requires Normalize(PhaseOf(s, who).snapshot.health) in {Up, Pending}
    requires !InMaintenance(s.db.windows, PhaseOf(s, who).m, now)
    ensures var m := PhaseOf(s, who).m;
      var s2 := Take(Take(s, who, Evaluate(CheckUp, now)), who, WriteMonitor);
      && m in s2.db.monitors && s2.db.monitors[m].health == Up
      && Unresolved(s2.db.incidents, m) == Unresolved(s.db.incidents, m)
      && forall rest :: rest in [ReadFlapping, CreateIncident, FindToResolve, UpdateResolved, FindRelapse, Stop] ==>
           Take(s2, who, rest).db == s2.db
  {
    var p := PhaseOf(s, who);
    var d := DecisionFor(p.snapshot, CheckUp, false);
    assert d.state == Up && d.incident == NoAction;
  }

  // ---- Announcements ----

  predicate Announced(alerts: seq<Alert>, id: nat) {
    exists k :: 0 <= k < |alerts| && alerts[k].kind == OpenedAlert && alerts[k].incident == id
  }

  /** An incident that a worker is still to announce has not been announced, and nobody else holds it. */
  ghost predicate AnnounceInv(s: State) {
    && (forall i, j :: 0 <= i < j < |s.db.alerts| && s.db.alerts[i].kind == OpenedAlert && s.db.alerts[j].kind == OpenedAlert
          ==> s.db.alerts[i].incident != s.db.alerts[j].incident)
    && (forall k :: 0 <= k < |s.db.alerts| && s.db.alerts[k].kind == OpenedAlert ==> s.db.alerts[k].incident < |s.db.incidents|)
    && (forall a :: a in s.phase && s.phase[a].Created? ==>
          s.phase[a].id < |s.db.incidents| && !Announced(s.db.alerts, s.phase[a].id))
    && (forall a, b :: a in s.phase && b in s.phase && a != b && s.phase[a].Created? && s.phase[b].Created? ==>
          s.phase[a].id != s.phase[b].id)
  }

  /** A step that neither announces nor creates. */
  lemma QuietStep(s: State, r: State, who: nat)
    requires AnnounceInv(s)
    requires forall id :: Announced(r.db.alerts, id) ==> Announced(s.db.alerts, id)
    requires r.db.alerts == s.db.alerts || (|r.db.alerts| == |s.db.alerts| + 1 && s.db.alerts <= r.db.alerts
                                            && r.db.alerts[|s.db.alerts|].kind != OpenedAlert)
    requires |s.db.incidents| <= |r.db.incidents|
    requires forall a :: a in r.phase && r.phase[a].Created? ==> a in s.phase && r.phase[a] == s.phase[a]
    ensures AnnounceInv(r)
  {
    assert forall k :: 0 <= k < |r.db.alerts| && r.db.alerts[k].kind == OpenedAlert ==>
      k < |s.db.alerts| && r.db.alerts[k] == s.db.alerts[k];
  }

  lemma CreateKeepsAnnouncements(s: State, who: nat)
    requires AnnounceInv(s) && PhaseOf(s, who).FlapRead?
    ensures AnnounceInv(Take(s, who, CreateIncident))
  {
    var next := |s.db.incidents|;
    assert !Announced(s.db.alerts, next);
  }

  lemma AnnounceKeepsAnnouncements(s: State, who: nat)
    requires AnnounceInv(s) && PhaseOf(s, who).Created? && !PhaseOf(s, who).flapping
    ensures AnnounceInv(Take(s, who, AnnounceOpened))
  {
    var p := PhaseOf(s, who);
    var alerts := s.db.alerts + [Alert(p.id, p.m, OpenedAlert, p.now)];
    assert !Announced(s.db.alerts, p.id);
    forall id | Announced(alerts, id) ensures Announced(s.db.alerts, id) || id == p.id {
      var k :| 0 <= k < |alerts| && alerts[k].kind == OpenedAlert && alerts[k].incident == id;
      if k < |s.db.alerts| {
        assert s.db.alerts[k] == alerts[k];
      }
    }
  }

  lemma TakeKeepsAnnouncements(s: State, who: nat, step: Step)
    requires AnnounceInv(s)
    ensures AnnounceInv(Take(s, who, step))
  {
    var p := PhaseOf(s, who);
    if step.CreateIncident? && p.FlapRead? {
      CreateKeepsAnnouncements(s, who);
    } else if step.AnnounceOpened? && p.Created? && !p.flapping {
      AnnounceKeepsAnnouncements(s, who);
    } else if IsRequest(step) {
      RequestKeepsAnnouncements(s, who, step);
    } else {
      QuietStep(s, Take(s, who, step), who);
    }
  }

  /** The steps that are not calls of a check. */
  predicate IsRequest(step: Step) {
    step.ReadToResolve? || step.WriteResolved? || step.AcknowledgeAtOnce? || step.ReadToAcknowledge?
    || step.WriteAcknowledged? || step.Edit?
  }

  lemma RequestKeepsAnnouncements(s: State, who: nat, step: Step)
    requires AnnounceInv(s) && IsRequest(step)
    ensures AnnounceInv(Take(s, who, step))
  {
    QuietStep(s, Take(s, who, step), who);
  }

  lemma {:induction false} RunKeepsAnnouncements(s: State, schedule: seq<(nat, Step)>)
    requires AnnounceInv(s)
    ensures AnnounceInv(Run(s, schedule))
    decreases |schedule|
  {
    if schedule != [] {
      TakeKeepsAnnouncements(s, schedule[0].0, schedule[0].1);
      RunKeepsAnnouncements(Take(s, schedule[0].0, schedule[0].1), schedule[1..]);
    }
  }

  /** Nobody is at work, and nothing has been announced. */
  predicate AtRest(s: State) {
    s.phase == map[] && s.db.alerts == []
  }

  /** Whatever the interleaving and wherever workers crash, no incident is announced as opened twice. */
  lemma AnnouncedAtMostOnce(s: State, schedule: seq<(nat, Step)>, i: nat, j: nat)
    requires AtRest(s) && i < j < |Run(s, schedule).db.alerts|
    ensures var alerts := Run(s, schedule).db.alerts;
      alerts[i].kind == OpenedAlert && alerts[j].kind == OpenedAlert ==> alerts[i].incident != alerts[j].incident
  {
    RunKeepsAnnouncements(s, schedule);
  }
}
