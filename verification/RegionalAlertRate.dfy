/**
 * The flapping count when workers interleave. Reading the count and creating the
 * incident are separate calls, so workers that read at the same time can each announce:
 * the bound of `AlertRate` is exceeded by as many as are in flight beside one another.
 */
module RegionalAlertRate {
  import opened StateMachine
  import opened Lifecycle
  import opened AlertLog
  import opened AlertRate
  import opened R = RegionalWorkers

  function Those(phase: map<nat, Phase>, f: Phase -> bool): set<nat> {
    set who | who in phase && f(phase[who])
  }

  lemma ThoseAfter(phase: map<nat, Phase>, who: nat, p: Phase, f: Phase -> bool)
    ensures |Those(phase[who := p], f)|
         == |Those(phase, f)| - (if who in phase && f(phase[who]) then 1 else 0) + if f(p) then 1 else 0
  {
    var rest := Those(phase, f) - {who};
    if f(p) {
      assert Those(phase[who := p], f) == rest + {who};
    } else {
      assert Those(phase[who := p], f) == rest;
    }
  }

  lemma {:induction false} Subset(a: set<nat>, b: set<nat>)
    requires a <= b
    ensures |a| <= |b|
  {
    if a != {} {
      var x :| x in a;
      Subset(a - {x}, b - {x});
    }
  }

  predicate Within(now: Millis, from: Millis) {
    from <= now <= from + FLAP_WINDOW_MS
  }

  /** Has read a count below the threshold and not created its incident yet. */
  function Reading(m: string): Phase -> bool {
    (p: Phase) => p.FlapRead? && p.m == m && !p.flapping
  }

  /** The same, for a check that falls into the window. */
  function ReadingIn(m: string, from: Millis): Phase -> bool {
    (p: Phase) => p.FlapRead? && p.m == m && !p.flapping && Within(p.now, from)
  }

  /** Has created an incident of the window and is still to announce it. */
  function AnnouncingIn(m: string, from: Millis): Phase -> bool {
    (p: Phase) => p.Created? && p.m == m && !p.flapping && Within(p.now, from)
  }

  /** Announcements of the window, made or still to come. */
  function Announcements(s: State, m: string, from: Millis): nat {
    OpenedInWindow(s.db.alerts, m, from) + |Those(s.phase, AnnouncingIn(m, from))|
  }

  /** Each of them has an incident that started in the window. */
  predicate RaceInv(s: State, m: string, from: Millis, k: nat) {
    && Announcements(s, m, from) <= StartedSince(s.db.incidents, m, from)
    && Announcements(s, m, from) + |Those(s.phase, ReadingIn(m, from))| < FLAP_THRESHOLD + k
  }

  lemma GotoCounts(s: State, who: nat, p: Phase, m: string, from: Millis)
    ensures |Those(s.phase[who := p], AnnouncingIn(m, from))|
         == |Those(s.phase, AnnouncingIn(m, from))| - (if AnnouncingIn(m, from)(PhaseOf(s, who)) then 1 else 0)
            + if AnnouncingIn(m, from)(p) then 1 else 0
    ensures |Those(s.phase[who := p], ReadingIn(m, from))|
         == |Those(s.phase, ReadingIn(m, from))| - (if ReadingIn(m, from)(PhaseOf(s, who)) then 1 else 0)
            + if ReadingIn(m, from)(p) then 1 else 0
  {
    ThoseAfter(s.phase, who, p, AnnouncingIn(m, from));
    ThoseAfter(s.phase, who, p, ReadingIn(m, from));
  }

  lemma {:induction false} StartedEarlier(rows: seq<Incident>, m: string, since: Millis, from: Millis)
    requires since <= from
    ensures StartedSince(rows, m, from) <= StartedSince(rows, m, since)
  {
    if rows != [] {
      StartedEarlier(rows[..|rows| - 1], m, since, from);
    }
  }

  /** The step that matters: the count is read before the incident exists. */
  lemma ReadKeepsRace(s: State, who: nat, m: string, from: Millis, k: nat)
    requires RaceInv(s, m, from, k) && |Those(Take(s, who, ReadFlapping).phase, Reading(m))| <= k
    ensures RaceInv(Take(s, who, ReadFlapping), m, from, k)
  {
    var p, t := PhaseOf(s, who), Take(s, who, ReadFlapping);
    if p.Written? && p.decision.incident == Open {
      var next := FlapRead(p.m, p.org, Flapping(s.db.incidents, p.m, p.now), p.now);
      GotoCounts(s, who, next, m, from);
      if ReadingIn(m, from)(next) {
        StartedEarlier(s.db.incidents, m, p.now - FLAP_WINDOW_MS, from);
        Subset(Those(t.phase, ReadingIn(m, from)), Those(t.phase, Reading(m)));
      }
    }
  }

  lemma CreateKeepsRace(s: State, who: nat, m: string, from: Millis, k: nat)
    requires RaceInv(s, m, from, k)
    ensures RaceInv(Take(s, who, CreateIncident), m, from, k)
  {
    var p := PhaseOf(s, who);
    if p.FlapRead? {
      var id := OpenIncident(s.db, p.org, p.m, p.now).1;
      GotoCounts(s, who, if id.None? then Idle else Created(p.m, id.value, p.flapping, p.now), m, from);
      StartedAppend(s.db.incidents, DetectedRow(p.org, p.m, p.now), m, from);
    }
  }

  lemma AnnounceKeepsRace(s: State, who: nat, m: string, from: Millis, k: nat)
    requires RaceInv(s, m, from, k)
    ensures RaceInv(Take(s, who, AnnounceOpened), m, from, k)
  {
    var p, t := PhaseOf(s, who), Take(s, who, AnnounceOpened);
    if p.Created? {
      GotoCounts(s, who, Idle, m, from);
      assert t.phase == s.phase[who := Idle] && t.db.incidents == s.db.incidents;
      if p.flapping {
        assert t.db.alerts == s.db.alerts;
      } else {
        assert t.db.alerts == s.db.alerts + [Alert(p.id, p.m, OpenedAlert, p.now)];
        AlertAppend(s.db.alerts, Alert(p.id, p.m, OpenedAlert, p.now), m, from);
      }
      assert Announcements(t, m, from) <= Announcements(s, m, from);
    }
  }

  /** Every other step takes a worker away from the race or leaves it there, and keeps starts and announcements. */
  lemma OtherKeepsRace(s: State, who: nat, step: Step, m: string, from: Millis, k: nat)
    requires RaceInv(s, m, from, k) && !step.ReadFlapping? && !step.CreateIncident? && !step.AnnounceOpened?
    ensures RaceInv(Take(s, who, step), m, from, k)
  {
    var t, p := Take(s, who, step), PhaseOf(s, who);
    GotoCounts(s, who, PhaseOf(t, who), m, from);
    OtherKeepsStarts(s, who, step, m, from);
    OtherKeepsPhases(s, who, step, m, from);
    if step.AnnounceResolved? && p.Closed? {
      AlertAppend(s.db.alerts, Alert(p.id, p.m, ResolvedAlert, p.now), m, from);
    }
  }

  lemma OtherKeepsPhases(s: State, who: nat, step: Step, m: string, from: Millis)
    requires !step.ReadFlapping? && !step.CreateIncident? && !step.AnnounceOpened?
    ensures var t := Take(s, who, step);
      && (t.phase == s.phase || t.phase == s.phase[who := PhaseOf(t, who)])
      && (t.phase == s.phase || (!AnnouncingIn(m, from)(PhaseOf(t, who)) && !ReadingIn(m, from)(PhaseOf(t, who))))
  {
  }

  lemma OtherKeepsStarts(s: State, who: nat, step: Step, m: string, from: Millis)
    requires !step.CreateIncident?
    ensures StartedSince(Take(s, who, step).db.incidents, m, from) == StartedSince(s.db.incidents, m, from)
  {
    var w, p := s.db, PhaseOf(s, who);
    var rows, after := w.incidents, Take(s, who, step).db.incidents;
    if step.UpdateResolved? && p.Chosen? && p.id < |rows| {
      StartedUpdate(rows, p.id, after[p.id], m, from);
    } else if step.WriteResolved? && p.ResolveRead? && p.id < |rows| {
      StartedUpdate(rows, p.id, after[p.id], m, from);
    } else if step.WriteAcknowledged? && p.AcknowledgeRead? && p.id < |rows| {
      StartedUpdate(rows, p.id, after[p.id], m, from);
    } else if step.AcknowledgeAtOnce? && Owns(w, step.id, step.org) && rows[step.id].status == OpenStatus {
      StartedUpdate(rows, step.id, after[step.id], m, from);
    }
  }

  lemma TakeKeepsRace(s: State, who: nat, step: Step, m: string, from: Millis, k: nat)
    requires RaceInv(s, m, from, k) && |Those(Take(s, who, step).phase, Reading(m))| <= k
    ensures RaceInv(Take(s, who, step), m, from, k)
  {
    if step.ReadFlapping? {
      ReadKeepsRace(s, who, m, from, k);
    } else if step.CreateIncident? {
      CreateKeepsRace(s, who, m, from, k);
    } else if step.AnnounceOpened? {
      AnnounceKeepsRace(s, who, m, from, k);
    } else {
      OtherKeepsRace(s, who, step, m, from, k);
    }
  }

  /** At no time are more than k workers between reading a low count for `m` and creating its incident. */
  ghost predicate AtMostReading(s: State, schedule: seq<(nat, Step)>, m: string, k: nat) {
    forall n :: 0 <= n <= |schedule| ==> |Those(R.After(s, schedule, n).phase, Reading(m))| <= k
  }

  lemma {:induction false} RaceInvAfter(s: State, schedule: seq<(nat, Step)>, n: nat, m: string, from: Millis, k: nat)
    requires RaceInv(s, m, from, k) && AtMostReading(s, schedule, m, k) && n <= |schedule|
    ensures RaceInv(R.After(s, schedule, n), m, from, k)
  {
    if n > 0 {
      RaceInvAfter(s, schedule, n - 1, m, from, k);
      R.AfterNext(s, schedule, n - 1);
      assert |Those(R.After(s, schedule, n).phase, Reading(m))| <= k;
      TakeKeepsRace(R.After(s, schedule, n - 1), schedule[n - 1].0, schedule[n - 1].1, m, from, k);
    }
  }

  /**
   * In every interleaving, a closed window holds at most FLAP_THRESHOLD "opened" alerts
   * of a monitor and one more for each further worker that reads the count at the same
   * time; the clocks of the workers need not agree, and workers may crash anywhere.
   */
  lemma RacingAlertBound(s: State, schedule: seq<(nat, Step)>, m: string, from: Millis, k: nat)
    requires AtRest(s) && AtMostReading(s, schedule, m, k)
    ensures OpenedInWindow(R.Run(s, schedule).db.alerts, m, from) <= FLAP_THRESHOLD + k - 1
  {
    assert Those(s.phase, AnnouncingIn(m, from)) == {} && Those(s.phase, ReadingIn(m, from)) == {};
    RaceInvAfter(s, schedule, |schedule|, m, from, k);
    assert schedule[..|schedule|] == schedule;
  }
}
