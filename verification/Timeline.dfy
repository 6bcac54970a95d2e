/**
 * The incident table as a timeline: over every serialized run whose clock does not
 * run backwards, a monitor's incidents are consecutive intervals, each resolved once,
 * and the reported downtime adds up to no more than the time that has passed.
 */
module Timeline {
  import opened Wrappers
  import opened StateMachine
  import opened Lifecycle
  import opened IncidentAgreement

  function TimeOf(op: Op, t: Millis): Millis {
    match op
    case CheckJob(_, _, now) => now
    case Heartbeat(_, now) => now
    case Acknowledge(_, _, now) => now
    case ManualResolve(_, _, now) => now
    case _ => t
  }

  /** The clock starts at `t` and never runs backwards. */
  predicate Clocked(t: Millis, ops: seq<Op>)
    decreases |ops|
  {
    ops == [] || (t <= TimeOf(ops[0], t) && Clocked(TimeOf(ops[0], t), ops[1..]))
  }

  function EndTime(t: Millis, ops: seq<Op>): Millis
    decreases |ops|
  {
    if ops == [] then t else EndTime(TimeOf(ops[0], t), ops[1..])
  }

  // ---- Intervals ----

  predicate ClosedBy(row: Incident, t: Millis) {
    && row.status == Resolved
    && row.resolvedAt.Some? && row.startedAt <= row.resolvedAt.value <= t
    && row.durationSec == Some(DurationSec(row.resolvedAt.value - row.startedAt))
  }

  /** The row started by time `t`, and carries its end exactly if it is resolved. */
  predicate RowAt(row: Incident, t: Millis) {
    && row.startedAt <= t
    && if row.status == Resolved then ClosedBy(row, t) else row.resolvedAt == None && row.durationSec == None
  }

  /** An incident of the same monitor begins only after the earlier ones have ended. */
  ghost predicate Intervals(rows: seq<Incident>, t: Millis) {
    && (forall i :: 0 <= i < |rows| ==> RowAt(rows[i], t))
    && (forall i, j :: 0 <= i < j < |rows| && rows[i].monitorId == rows[j].monitorId ==>
          ClosedBy(rows[i], rows[j].startedAt))
  }

  lemma AppendInterval(rows: seq<Incident>, org: string, m: string, t: Millis, now: Millis)
    requires Keyed(rows) && Intervals(rows, t) && t <= now && !KeyTaken(rows, m)
    ensures Intervals(rows + [DetectedRow(org, m, now)], now)
  {
    KeyTakenIsLive(rows, m);
    assert forall i :: 0 <= i < |rows| ==> RowAt(rows[i], t) && !Live(rows[i], m);
  }

  lemma CloseInterval(rows: seq<Incident>, id: nat, t: Millis, now: Millis)
    requires Intervals(rows, t) && t <= now && id < |rows| && rows[id].status != Resolved
    ensures Intervals(rows[id := ResolvedRow(rows[id], now)], now)
  {
    var closed := rows[id := ResolvedRow(rows[id], now)];
    forall i | 0 <= i < |rows| ensures RowAt(closed[i], now) {
      assert RowAt(rows[i], t);
    }
  }

  lemma AcknowledgeInterval(rows: seq<Incident>, id: nat, t: Millis, now: Millis)
    requires Intervals(rows, t) && t <= now && id < |rows| && rows[id].status == OpenStatus
    ensures Intervals(rows[id := AcknowledgedRow(rows[id], now)], now)
  {
    var acked := rows[id := AcknowledgedRow(rows[id], now)];
    forall i | 0 <= i < |rows| ensures RowAt(acked[i], now) {
      assert RowAt(rows[i], t);
    }
  }

  lemma LaterIntervals(rows: seq<Incident>, t: Millis, now: Millis)
    requires Intervals(rows, t) && t <= now
    ensures Intervals(rows, now)
  {
    assert forall i :: 0 <= i < |rows| ==> RowAt(rows[i], t);
  }

  lemma ProcessKeepsIntervals(w: World, m: string, status: CheckStatus, t: Millis, now: Millis, opts: ProcessOptions)
    requires m in w.monitors && Keyed(w.incidents) && Intervals(w.incidents, t) && t <= now
    ensures var r := Process(w, m, w.monitors[m], status, now, opts).0; Keyed(r.incidents) && Intervals(r.incidents, now)
  {
    var row := w.monitors[m];
    var d := DecisionFor(row, status, InMaintenance(w.windows, m, now));
    var recorded := RecordCheck(w, m, row, status, d, now, opts.ping);
    ActOnIncidents(recorded, d, row.organizationId, m, now, opts.alerts);
    LaterIntervals(w.incidents, t, now);
    if d.incident == Open && !KeyTaken(w.incidents, m) {
      AppendInterval(w.incidents, row.organizationId, m, t, now);
    } else if d.incident == Resolve && HasLive(w.incidents, m) {
      CloseInterval(w.incidents, FindUnresolved(w.incidents, m).value, t, now);
    }
  }

  lemma ApplyKeepsIntervals(w: World, op: Op, t: Millis)
    requires Keyed(w.incidents) && Intervals(w.incidents, t) && t <= TimeOf(op, t)
    ensures Keyed(Apply(w, op).incidents) && Intervals(Apply(w, op).incidents, TimeOf(op, t))
  {
    LaterIntervals(w.incidents, t, TimeOf(op, t));
    match op
    case CheckJob(m, status, now) =>
      if m in w.monitors { ProcessKeepsIntervals(w, m, status, t, now, JOB); }
    case Heartbeat(m, now) =>
      if m in w.monitors { ProcessKeepsIntervals(w, m, CheckUp, t, now, PING); }
    case Acknowledge(id, org, now) =>
      if Owns(w, id, org) && w.incidents[id].status == OpenStatus {
        AcknowledgeKeyed(w.incidents, id, now);
        AcknowledgeInterval(w.incidents, id, t, now);
      }
    case ManualResolve(id, org, now) =>
      if Owns(w, id, org) && w.incidents[id].status != Resolved {
        CloseKeyed(w.incidents, id, now);
        CloseInterval(w.incidents, id, t, now);
      }
    case _ =>
  }

  /** A monitor's incidents are ordered and disjoint intervals that end by the current time. */
  lemma {:induction false} RunIntervals(w: World, ops: seq<Op>, t: Millis)
    requires Keyed(w.incidents) && Intervals(w.incidents, t) && Clocked(t, ops)
    ensures Intervals(Run(w, ops).incidents, EndTime(t, ops))
    decreases |ops|
  {
    if ops != [] {
      ApplyKeepsIntervals(w, ops[0], t);
      RunIntervals(Apply(w, ops[0]), ops[1..], TimeOf(ops[0], t));
    }
  }

  // ---- Downtime ----

  function ResolvedCount(rows: seq<Incident>, m: string): nat {
    if rows == [] then 0
    else ResolvedCount(rows[..|rows| - 1], m)
         + if rows[|rows| - 1].monitorId == m && rows[|rows| - 1].status == Resolved then 1 else 0
  }

  /** The reported downtime of the monitor, in seconds. */
  function Downtime(rows: seq<Incident>, m: string): nat {
    if rows == [] then 0
    else
      var last := rows[|rows| - 1];
      Downtime(rows[..|rows| - 1], m)
        + if last.monitorId == m && last.durationSec.Some? then last.durationSec.value else 0
  }

  lemma RoundingSlack(ms: int)
    requires 0 <= ms
    ensures ms - 500 < DurationSec(ms) * 1000 <= ms + 500
  {
  }

  /** Every incident of `m` began at `lo` or later and has ended by `hi`, if it has ended. */
  ghost predicate Spanned(rows: seq<Incident>, m: string, lo: Millis, hi: Millis) {
    forall i :: 0 <= i < |rows| && rows[i].monitorId == m ==>
      lo <= rows[i].startedAt && (rows[i].resolvedAt.Some? ==> rows[i].resolvedAt.value <= hi)
  }

  lemma {:induction false} DowntimeOfIntervals(rows: seq<Incident>, m: string, t: Millis, lo: Millis, hi: Millis)
    requires Intervals(rows, t) && Spanned(rows, m, lo, hi) && lo <= hi
    ensures Downtime(rows, m) * 1000 <= hi - lo + 500 * ResolvedCount(rows, m)
  {
    if rows != [] {
      var n := |rows| - 1;
      var last, earlier := rows[n], rows[..n];
      assert Intervals(earlier, t);
      assert RowAt(last, t);
      if last.monitorId == m && last.status == Resolved {
        assert forall i :: 0 <= i < n && rows[i].monitorId == m ==> ClosedBy(rows[i], last.startedAt);
        DowntimeOfIntervals(earlier, m, t, lo, last.startedAt);
        RoundingSlack(last.resolvedAt.value - last.startedAt);
      } else {
        DowntimeOfIntervals(earlier, m, t, lo, hi);
      }
    }
  }

  lemma ApplyStartsAfter(w: World, op: Op, t: Millis, lo: Millis)
    requires lo <= t <= TimeOf(op, t) && forall i :: 0 <= i < |w.incidents| ==> lo <= w.incidents[i].startedAt
    ensures forall i :: 0 <= i < |Apply(w, op).incidents| ==> lo <= Apply(w, op).incidents[i].startedAt
  {
  }

  /** No incident starts before the run does. */
  lemma {:induction false} RunStartsAfter(w: World, ops: seq<Op>, t: Millis, lo: Millis)
    requires Clocked(t, ops) && lo <= t
    requires forall i :: 0 <= i < |w.incidents| ==> lo <= w.incidents[i].startedAt
    ensures forall i :: 0 <= i < |Run(w, ops).incidents| ==> lo <= Run(w, ops).incidents[i].startedAt
    decreases |ops|
  {
    if ops != [] {
      var w1 := Apply(w, ops[0]);
      ApplyStartsAfter(w, ops[0], t, lo);
      RunStartsAfter(w1, ops[1..], TimeOf(ops[0], t), lo);
    }
  }

  lemma {:induction false} EndTimeIsLater(t: Millis, ops: seq<Op>)
    requires Clocked(t, ops)
    ensures t <= EndTime(t, ops)
    decreases |ops|
  {
    if ops != [] {
      EndTimeIsLater(TimeOf(ops[0], t), ops[1..]);
    }
  }

  /** The reported downtime is at most the time that passed, up to rounding of half a second each. */
  lemma DowntimeBound(w: World, ops: seq<Op>, t: Millis, m: string)
    requires w.incidents == [] && Clocked(t, ops)
    ensures var rows := Run(w, ops).incidents;
      Downtime(rows, m) * 1000 <= EndTime(t, ops) - t + 500 * ResolvedCount(rows, m)
  {
    var rows := Run(w, ops).incidents;
    RunIntervals(w, ops, t);
    RunStartsAfter(w, ops, t, t);
    EndTimeIsLater(t, ops);
    assert forall i :: 0 <= i < |rows| ==> RowAt(rows[i], EndTime(t, ops));
    DowntimeOfIntervals(rows, m, EndTime(t, ops), t, EndTime(t, ops));
  }

  // ---- Resolution is final, and the event log tells the whole story ----

  lemma ActOnKeepsResolved(w: World, d: TransitionResult, org: string, m: string, now: Millis, alerts: bool, id: nat)
    requires id < |w.incidents| && w.incidents[id].status == Resolved
    ensures var r := ActOn(w, d, org, m, now, alerts).0; id < |r.incidents| && r.incidents[id] == w.incidents[id]
  {
  }

  lemma ApplyKeepsResolved(w: World, op: Op, id: nat)
    requires id < |w.incidents| && w.incidents[id].status == Resolved
    ensures id < |Apply(w, op).incidents| && Apply(w, op).incidents[id] == w.incidents[id]
  {
    if op.CheckJob? && op.m in w.monitors {
      var row := w.monitors[op.m];
      var d := DecisionFor(row, op.status, InMaintenance(w.windows, op.m, op.now));
      ActOnKeepsResolved(RecordCheck(w, op.m, row, op.status, d, op.now, false), d, row.organizationId, op.m, op.now, true, id);
    } else if op.Heartbeat? && op.m in w.monitors {
      var row := w.monitors[op.m];
      var d := DecisionFor(row, CheckUp, InMaintenance(w.windows, op.m, op.now));
      ActOnKeepsResolved(RecordCheck(w, op.m, row, CheckUp, d, op.now, true), d, row.organizationId, op.m, op.now, false, id);
    }
  }

  lemma {:induction false} ResolvedIsFinal(w: World, ops: seq<Op>, id: nat)
    requires id < |w.incidents| && w.incidents[id].status == Resolved
    ensures id < |Run(w, ops).incidents| && Run(w, ops).incidents[id] == w.incidents[id]
    decreases |ops|
  {
    if ops != [] {
      ApplyKeepsResolved(w, ops[0], id);
      ResolvedIsFinal(Apply(w, ops[0]), ops[1..], id);
    }
  }

  function EventCount(events: seq<Event>, id: nat, kind: EventKind): nat {
    if events == [] then 0
    else
      var last := events[|events| - 1];
      EventCount(events[..|events| - 1], id, kind) + if last.incident == id && last.kind == kind then 1 else 0
  }

  /** One DETECTED event per incident, and one for each of the things that happened to it. */
  predicate Told(w: World, id: nat) {
    var row := if id < |w.incidents| then Some(w.incidents[id]) else None;
    && EventCount(w.events, id, DetectedEvent) == (if row.Some? then 1 else 0)
    && EventCount(w.events, id, AcknowledgedEvent)
       == (if row.Some? && row.value.acknowledgedAt.Some? then 1 else 0)
    && EventCount(w.events, id, ResolvedEvent) == (if row.Some? && row.value.status == Resolved then 1 else 0)
    && (row.Some? && row.value.status == OpenStatus ==> row.value.acknowledgedAt.None?)
  }

  lemma EventAppend(events: seq<Event>, e: Event, id: nat, kind: EventKind)
    ensures EventCount(events + [e], id, kind)
         == EventCount(events, id, kind) + if e.incident == id && e.kind == kind then 1 else 0
  {
    assert (events + [e])[..|events|] == events;
  }

  /** Any number of events that only comment on an incident may be appended. */
  lemma ToldAfterEvent(w: World, r: World, e: Event, id: nat)
    requires Told(w, id) && r.events == w.events + [e]
    requires e.kind == StatusChangedEvent || e.incident != id
    requires id < |w.incidents| <==> id < |r.incidents|
    requires id < |w.incidents| ==> r.incidents[id] == w.incidents[id]
    ensures Told(r, id)
  {
    EventAppend(w.events, e, id, DetectedEvent);
    EventAppend(w.events, e, id, AcknowledgedEvent);
    EventAppend(w.events, e, id, ResolvedEvent);
  }

  lemma OpenTold(w: World, org: string, m: string, now: Millis, alerts: bool, id: nat)
    requires Told(w, id)
    ensures Told(OpenAndAlert(w, org, m, now, alerts).0, id)
  {
    if !KeyTaken(w.incidents, m) {
      var next := |w.incidents|;
      var w1 := OpenIncident(w, org, m, now).0;
      var e := Event(next, DetectedEvent, now);
      EventAppend(w.events, e, id, DetectedEvent);
      EventAppend(w.events, e, id, AcknowledgedEvent);
      EventAppend(w.events, e, id, ResolvedEvent);
      assert Told(w1, id);
      ToldAfterEvent(w1, AddEvent(w1, next, StatusChangedEvent, now), Event(next, StatusChangedEvent, now), id);
    }
  }

  lemma CloseTold(w: World, closing: nat, now: Millis, id: nat)
    requires Told(w, id) && closing < |w.incidents| && w.incidents[closing].status != Resolved
    ensures Told(CloseIncident(w, closing, now), id)
  {
    var e := Event(closing, ResolvedEvent, now);
    EventAppend(w.events, e, id, DetectedEvent);
    EventAppend(w.events, e, id, AcknowledgedEvent);
    EventAppend(w.events, e, id, ResolvedEvent);
  }

  lemma AcknowledgeTold(w: World, a: nat, org: string, now: Millis, id: nat)
    requires Told(w, id) && Owns(w, a, org) && w.incidents[a].status == OpenStatus
    ensures Told(Apply(w, Acknowledge(a, org, now)), id)
  {
    var e := Event(a, AcknowledgedEvent, now);
    EventAppend(w.events, e, id, DetectedEvent);
    EventAppend(w.events, e, id, AcknowledgedEvent);
    EventAppend(w.events, e, id, ResolvedEvent);
  }

  lemma ProcessTold(w: World, m: string, status: CheckStatus, now: Millis, opts: ProcessOptions, id: nat)
    requires m in w.monitors && Told(w, id)
    ensures Told(Process(w, m, w.monitors[m], status, now, opts).0, id)
  {
    var row := w.monitors[m];
    var d := DecisionFor(row, status, InMaintenance(w.windows, m, now));
    var recorded := RecordCheck(w, m, row, status, d, now, opts.ping);
    var found := FindUnresolved(recorded.incidents, m);
    if d.incident == Open {
      OpenTold(recorded, row.organizationId, m, now, opts.alerts, id);
    } else if found.Some? {
      if d.incident == Resolve {
        CloseTold(recorded, found.value, now, id);
      } else if d.changed && d.state == Down {
        var e := Event(found.value, StatusChangedEvent, now);
        ToldAfterEvent(recorded, AddEvent(recorded, found.value, StatusChangedEvent, now), e, id);
      }
    }
  }

  lemma ApplyTold(w: World, op: Op, id: nat)
    requires Told(w, id)
    ensures Told(Apply(w, op), id)
  {
    match op
    case CheckJob(m, status, now) =>
      if m in w.monitors { ProcessTold(w, m, status, now, JOB, id); }
    case Heartbeat(m, now) =>
      if m in w.monitors { ProcessTold(w, m, CheckUp, now, PING, id); }
    case Acknowledge(a, org, now) =>
      if Owns(w, a, org) && w.incidents[a].status == OpenStatus { AcknowledgeTold(w, a, org, now, id); }
    case ManualResolve(closing, org, now) =>
      if Owns(w, closing, org) && w.incidents[closing].status != Resolved { CloseTold(w, closing, now, id); }
    case _ =>
  }

  lemma {:induction false} RunTold(w: World, ops: seq<Op>, id: nat)
    requires Told(w, id)
    ensures Told(Run(w, ops), id)
    decreases |ops|
  {
    if ops != [] {
      ApplyTold(w, ops[0], id);
      RunTold(Apply(w, ops[0]), ops[1..], id);
    }
  }

  /** Over any run each incident is detected once, and acknowledged and resolved at most once. */
  lemma EventLogTellsAll(w: World, ops: seq<Op>, id: nat)
    requires w.incidents == [] && w.events == []
    ensures Told(Run(w, ops), id)
  {
    RunTold(w, ops, id);
  }

  // ---- The times in the event and alert logs ----

  /** The event carries the time that its incident's row gives for it. */
  predicate Timed(rows: seq<Incident>, e: Event) {
    && e.incident < |rows|
    && match e.kind
       case DetectedEvent => rows[e.incident].startedAt == e.at
       case AcknowledgedEvent => rows[e.incident].acknowledgedAt == Some(e.at)
       case ResolvedEvent => rows[e.incident].resolvedAt == Some(e.at)
       case StatusChangedEvent => true
  }

  /** The alert names its incident's monitor, and carries the time of what it announces. */
  predicate TimedAlert(rows: seq<Incident>, a: Alert) {
    && a.incident < |rows| && a.monitorId == rows[a.incident].monitorId
    && if a.kind == OpenedAlert then rows[a.incident].startedAt == a.at else rows[a.incident].resolvedAt == Some(a.at)
  }

  /** What has not happened to an incident yet has no time. */
  predicate Unstamped(row: Incident) {
    && (row.status == OpenStatus ==> row.acknowledgedAt.None?)
    && (row.status != Resolved ==> row.resolvedAt.None?)
  }

  ghost predicate TimesAgree(w: World) {
    && (forall i :: 0 <= i < |w.incidents| ==> Unstamped(w.incidents[i]))
    && (forall k :: 0 <= k < |w.events| ==> Timed(w.incidents, w.events[k]))
    && (forall k :: 0 <= k < |w.alerts| ==> TimedAlert(w.incidents, w.alerts[k]))
  }

  lemma EventTimed(w: World, r: World, e: Event)
    requires TimesAgree(w) && r.events == w.events + [e] && Timed(r.incidents, e)
    requires forall i :: 0 <= i < |r.incidents| ==> Unstamped(r.incidents[i])
    requires forall k :: 0 <= k < |w.events| ==> Timed(r.incidents, w.events[k])
    requires forall k :: 0 <= k < |w.alerts| ==> TimedAlert(r.incidents, w.alerts[k])
    requires r.alerts == w.alerts
    ensures TimesAgree(r)
  {
  }

  lemma AlertTimed(w: World, id: nat, m: string, kind: AlertKind, now: Millis)
    requires TimesAgree(w) && TimedAlert(w.incidents, Alert(id, m, kind, now))
    ensures TimesAgree(Dispatch(w, id, m, kind, now))
  {
  }

  /** A row is stamped by the event that is added for it. */
  lemma StampTimed(w: World, id: nat, row: Incident, e: Event)
    requires TimesAgree(w) && id < |w.incidents| && e.incident == id && Unstamped(row) && Timed(w.incidents[id := row], e)
    requires row.startedAt == w.incidents[id].startedAt && row.monitorId == w.incidents[id].monitorId
    requires w.incidents[id].acknowledgedAt.Some? ==> row.acknowledgedAt == w.incidents[id].acknowledgedAt
    requires w.incidents[id].resolvedAt.Some? ==> row.resolvedAt == w.incidents[id].resolvedAt
    ensures TimesAgree(w.(incidents := w.incidents[id := row], events := w.events + [e]))
  {
    forall k | 0 <= k < |w.events| ensures Timed(w.incidents[id := row], w.events[k]) {
      assert Timed(w.incidents, w.events[k]);
    }
    forall k | 0 <= k < |w.alerts| ensures TimedAlert(w.incidents[id := row], w.alerts[k]) {
      assert TimedAlert(w.incidents, w.alerts[k]);
    }
    EventTimed(w, w.(incidents := w.incidents[id := row], events := w.events + [e]), e);
  }

  lemma OpenTimed(w: World, org: string, m: string, now: Millis, alerts: bool)
    requires TimesAgree(w)
    ensures TimesAgree(OpenAndAlert(w, org, m, now, alerts).0)
  {
    if !KeyTaken(w.incidents, m) {
      var id := |w.incidents|;
      var w1 := OpenIncident(w, org, m, now).0;
      forall k | 0 <= k < |w.events| ensures Timed(w1.incidents, w.events[k]) {
        assert Timed(w.incidents, w.events[k]);
      }
      forall k | 0 <= k < |w.alerts| ensures TimedAlert(w1.incidents, w.alerts[k]) {
        assert TimedAlert(w.incidents, w.alerts[k]);
      }
      EventTimed(w, w1, Event(id, DetectedEvent, now));
      EventTimed(w1, AddEvent(w1, id, StatusChangedEvent, now), Event(id, StatusChangedEvent, now));
      AlertTimed(w1, id, m, OpenedAlert, now);
    }
  }

  lemma CloseTimed(w: World, id: nat, now: Millis)
    requires TimesAgree(w) && id < |w.incidents| && w.incidents[id].status != Resolved
    ensures TimesAgree(CloseIncident(w, id, now))
  {
    assert Unstamped(w.incidents[id]);
    StampTimed(w, id, ResolvedRow(w.incidents[id], now), Event(id, ResolvedEvent, now));
  }

  lemma ProcessTimed(w: World, m: string, status: CheckStatus, now: Millis, opts: ProcessOptions)
    requires m in w.monitors && TimesAgree(w)
    ensures TimesAgree(Process(w, m, w.monitors[m], status, now, opts).0)
  {
    var row := w.monitors[m];
    var d := DecisionFor(row, status, InMaintenance(w.windows, m, now));
    var recorded := RecordCheck(w, m, row, status, d, now, opts.ping);
    assert TimesAgree(recorded);
    var found := FindUnresolved(recorded.incidents, m);
    if d.incident == Open {
      OpenTimed(recorded, row.organizationId, m, now, opts.alerts);
    } else if found.Some? {
      if d.incident == Resolve {
        CloseTimed(recorded, found.value, now);
        AlertTimed(CloseIncident(recorded, found.value, now), found.value, m, ResolvedAlert, now);
      } else if d.changed && d.state == Down {
        EventTimed(recorded, AddEvent(recorded, found.value, StatusChangedEvent, now), Event(found.value, StatusChangedEvent, now));
      }
    }
  }

  lemma ApplyTimed(w: World, op: Op)
    requires TimesAgree(w)
    ensures TimesAgree(Apply(w, op))
  {
    match op
    case CheckJob(m, status, now) => if m in w.monitors { ProcessTimed(w, m, status, now, JOB); }
    case Heartbeat(m, now) => if m in w.monitors { ProcessTimed(w, m, CheckUp, now, PING); }
    case Acknowledge(id, org, now) =>
      if Owns(w, id, org) && w.incidents[id].status == OpenStatus {
        assert Unstamped(w.incidents[id]);
        StampTimed(w, id, AcknowledgedRow(w.incidents[id], now), Event(id, AcknowledgedEvent, now));
      }
    case ManualResolve(id, org, now) =>
      if Owns(w, id, org) && w.incidents[id].status != Resolved { CloseTimed(w, id, now); }
    case _ =>
  }

  /** In every serialized run the events and alerts of an incident carry its monitor and the times of its row. */
  lemma {:induction false} EventTimes(w: World, ops: seq<Op>)
    requires TimesAgree(w)
    ensures TimesAgree(Run(w, ops))
    decreases |ops|
  {
    if ops != [] {
      ApplyTimed(w, ops[0]);
      EventTimes(Apply(w, ops[0]), ops[1..]);
    }
  }
}
