/**
 * Several scheduler instances syncing the same queues at once. Every list, upsert and
 * remove call is a step of its own; the instances read the same monitor table and so
 * agree on what is wanted, and the upserts and removes come in any order of keys.
 */
module SchedulerRace {
  import opened Wrappers
  import opened Scheduler

  /** The queue being reconciled, with the calls still to be made from its (old) list. */
  datatype Work = Work(region: Region, upserts: set<string>, removals: set<string>)

  datatype Instance = Instance(finished: set<Region>, todo: seq<Region>, work: Option<Work>)

  datatype State = State(queues: map<Region, Queue>, instances: map<nat, Instance>)

  datatype Step =
    | List
    | Upsert(key: string)
    | Remove(key: string)
    | Finish

  /** What every instance wants, region by region. */
  type Wants = map<Region, map<string, nat>>

  ghost predicate Enabled(wants: Wants, s: State, who: nat, step: Step) {
    && who in s.instances
    && var me := s.instances[who];
       match step
       case List => me.work.None? && me.todo != [] && me.todo[0] in s.queues && me.todo[0] in wants
       case Upsert(key) => me.work.Some? && key in me.work.value.upserts
                           && me.work.value.region in s.queues && me.work.value.region in wants
                           && key in wants[me.work.value.region]
       case Remove(key) => me.work.Some? && me.work.value.upserts == {} && key in me.work.value.removals
                           && me.work.value.region in s.queues
       case Finish => me.work.Some? && me.work.value.upserts == {} && me.work.value.removals == {}
  }

  ghost function Take(wants: Wants, s: State, who: nat, step: Step): State {
    if !Enabled(wants, s, who, step) then s
    else
      var me := s.instances[who];
      match step
      case List =>
        var r := me.todo[0];
        var work := Work(r, ToUpsert(wants[r], s.queues[r]), ToRemove(wants[r], s.queues[r]));
        s.(instances := s.instances[who := Instance(me.finished, me.todo[1..], Some(work))])
      case Upsert(key) =>
        var w := me.work.value;
        State(s.queues[w.region := s.queues[w.region][key := Some(wants[w.region][key])]],
              s.instances[who := me.(work := Some(w.(upserts := w.upserts - {key})))])
      case Remove(key) =>
        var w := me.work.value;
        State(s.queues[w.region := s.queues[w.region] - {key}],
              s.instances[who := me.(work := Some(w.(removals := w.removals - {key})))])
      case Finish =>
        s.(instances := s.instances[who := Instance(me.finished + {me.work.value.region}, me.todo, None)])
  }

  ghost function Run(wants: Wants, s: State, schedule: seq<(nat, Step)>): State
    decreases |schedule|
  {
    if schedule == [] then s else Run(wants, Take(wants, s, schedule[0].0, schedule[0].1), schedule[1..])
  }

  // ---- The set of wrong keys never grows ----

  ghost predicate WellFormed(wants: Wants, s: State) {
    && wants.Keys == s.queues.Keys
    && (forall r, key :: r in wants && key in wants[r] ==> Managed(key))
  }

  /** A queue may only lose wrong keys, and keeps whatever does not belong to a monitor. */
  ghost predicate Improves(want: map<string, nat>, before: Queue, after: Queue) {
    && Wrong(want, after) <= Wrong(want, before)
    && forall key :: !Managed(key) ==> (key in after <==> key in before) && (key in after ==> after[key] == before[key])
  }

  lemma TakeImproves(wants: Wants, s: State, who: nat, step: Step, r: Region)
    requires WellFormed(wants, s) && r in wants && Duties(wants, s)
    ensures WellFormed(wants, Take(wants, s, who, step))
    ensures Improves(wants[r], s.queues[r], Take(wants, s, who, step).queues[r])
  {
    if Enabled(wants, s, who, step) {
      assert Dutiful(wants, s, who);
    }
  }

  // ---- Every instance still has the wrong keys on its list ----

  /** Finished regions are right; on the region in work, every wrong key is still to be dealt with. */
  ghost predicate Dutiful(wants: Wants, s: State, who: nat)
    requires who in s.instances
  {
    var me := s.instances[who];
    && (forall r :: r in me.finished ==> r in wants && r in s.queues && Wrong(wants[r], s.queues[r]) == {})
    && (me.work.Some? ==>
          var w := me.work.value;
          && w.region in wants && w.region in s.queues
          && w.upserts <= wants[w.region].Keys
          && (forall key :: key in w.removals ==> Managed(key) && key !in wants[w.region])
          && Wrong(wants[w.region], s.queues[w.region]) <= w.upserts + w.removals)
    && (forall i :: 0 <= i < |me.todo| ==> me.todo[i] in wants)
  }

  ghost predicate Duties(wants: Wants, s: State) {
    forall who :: who in s.instances ==> Dutiful(wants, s, who)
  }

  /** The call that deals with a key takes it off the list of wrong ones. */
  lemma OwnStepIsDutiful(wants: Wants, s: State, who: nat, step: Step)
    requires WellFormed(wants, s) && Duties(wants, s) && Enabled(wants, s, who, step)
    requires forall r :: r in wants ==> Improves(wants[r], s.queues[r], Take(wants, s, who, step).queues[r])
    ensures Dutiful(wants, Take(wants, s, who, step), who)
  {
    var t := Take(wants, s, who, step);
    assert Dutiful(wants, s, who);
    if step.Upsert? || step.Remove? {
      var w, v := s.instances[who].work.value, t.instances[who].work.value;
      assert Wrong(wants[w.region], t.queues[w.region]) <= v.upserts + v.removals by {
        assert step.key !in Wrong(wants[w.region], t.queues[w.region]);
      }
    }
  }

  lemma TakeKeepsDuties(wants: Wants, s: State, who: nat, step: Step)
    requires WellFormed(wants, s) && Duties(wants, s)
    ensures WellFormed(wants, Take(wants, s, who, step)) && Duties(wants, Take(wants, s, who, step))
  {
    if Enabled(wants, s, who, step) {
      var t := Take(wants, s, who, step);
      forall r | r in wants ensures Improves(wants[r], s.queues[r], t.queues[r]) {
        TakeImproves(wants, s, who, step, r);
      }
      forall other | other in t.instances ensures Dutiful(wants, t, other) {
        if other == who {
          OwnStepIsDutiful(wants, s, who, step);
        } else {
          assert Dutiful(wants, s, other) && t.instances[other] == s.instances[other];
        }
      }
    }
  }

  // ---- Every run of any number of instances ----

  /** The instances have served these regions and have nothing left to do. */
  predicate Done(me: Instance) {
    me.todo == [] && me.work.None?
  }

  function Covered(me: Instance): set<Region> {
    me.finished + (if me.work.Some? then {me.work.value.region} else {}) + set r | r in me.todo
  }

  lemma TakeKeepsCover(wants: Wants, s: State, who: nat, step: Step)
    ensures Take(wants, s, who, step).instances.Keys == s.instances.Keys
    ensures forall a :: a in s.instances ==> Covered(Take(wants, s, who, step).instances[a]) == Covered(s.instances[a])
  {
    if Enabled(wants, s, who, step) && step.List? {
      var me := s.instances[who];
      assert me.todo == [me.todo[0]] + me.todo[1..];
    }
  }

  lemma {:induction false} RunKeepsDuties(wants: Wants, s: State, schedule: seq<(nat, Step)>)
    requires WellFormed(wants, s) && Duties(wants, s)
    ensures var t := Run(wants, s, schedule);
      && WellFormed(wants, t) && Duties(wants, t)
      && t.instances.Keys == s.instances.Keys
      && (forall a :: a in s.instances ==> Covered(t.instances[a]) == Covered(s.instances[a]))
    decreases |schedule|
  {
    if schedule != [] {
      var (who, step) := schedule[0];
      TakeKeepsDuties(wants, s, who, step);
      TakeKeepsCover(wants, s, who, step);
      RunKeepsDuties(wants, Take(wants, s, who, step), schedule[1..]);
    }
  }

  lemma ImprovesTransitive(want: map<string, nat>, a: Queue, b: Queue, c: Queue)
    requires Improves(want, a, b) && Improves(want, b, c)
    ensures Improves(want, a, c)
  {
  }

  lemma {:induction false} RunImproves(wants: Wants, s: State, schedule: seq<(nat, Step)>, r: Region)
    requires WellFormed(wants, s) && Duties(wants, s) && r in wants
    ensures r in Run(wants, s, schedule).queues && Improves(wants[r], s.queues[r], Run(wants, s, schedule).queues[r])
    decreases |schedule|
  {
    if schedule != [] {
      var (who, step) := schedule[0];
      var t := Take(wants, s, who, step);
      TakeImproves(wants, s, who, step, r);
      TakeKeepsDuties(wants, s, who, step);
      RunImproves(wants, t, schedule[1..], r);
      ImprovesTransitive(wants[r], s.queues[r], t.queues[r], Run(wants, t, schedule[1..]).queues[r]);
    }
  }

  lemma ImprovedAndRight(want: map<string, nat>, before: Queue, after: Queue)
    requires forall key :: key in want ==> Managed(key)
    requires Improves(want, before, after) && Wrong(want, after) == {}
    ensures after == Reconciled(want, before)
  {
    forall key ensures key in after <==> key in Reconciled(want, before) {
      assert key !in Wrong(want, after);
    }
    forall key | key in after ensures after[key] == Reconciled(want, before)[key] {
      assert key !in Wrong(want, after);
    }
  }

  /** Every instance is about to sync the regions it serves, each its own. */
  predicate AboutToSync(wants: Wants, s: State) {
    forall a :: a in s.instances ==>
      && s.instances[a].finished == {} && s.instances[a].work.None?
      && forall r :: r in s.instances[a].todo ==> r in wants
  }

  /**
   * From any scheduler state and in every interleaving, as soon as one of the instances
   * has finished, every queue it serves has exactly the wanted schedulers, and the keys
   * that are not a monitor's are untouched; and this stays so while the others go on.
   */
  lemma FinishedMeansExact(wants: Wants, s: State, schedule: seq<(nat, Step)>, who: nat, r: Region)
    requires WellFormed(wants, s) && AboutToSync(wants, s)
    requires who in s.instances && r in s.instances[who].todo
    requires who in Run(wants, s, schedule).instances && Done(Run(wants, s, schedule).instances[who])
    ensures r in Run(wants, s, schedule).queues && r in s.queues
    ensures Run(wants, s, schedule).queues[r] == Reconciled(wants[r], s.queues[r])
  {
    var t := Run(wants, s, schedule);
    RunKeepsDuties(wants, s, schedule);
    RunImproves(wants, s, schedule, r);
    assert Covered(s.instances[who]) == set x | x in s.instances[who].todo;
    assert Covered(t.instances[who]) == t.instances[who].finished;
    assert r in t.instances[who].finished;
    assert Dutiful(wants, t, who);
    ImprovedAndRight(wants[r], s.queues[r], t.queues[r]);
  }

  /** What the instances want when they read the same table and share a default region. */
  function TableWants(table: seq<MonitorRow>, defaultRegion: Region, queues: map<Region, Queue>): Wants {
    map r | r in queues :: Desired(table, defaultRegion, r)
  }

  lemma TableWantsWellFormed(table: seq<MonitorRow>, defaultRegion: Region, s: State)
    ensures WellFormed(TableWants(table, defaultRegion, s.queues), s)
  {
    var wants := TableWants(table, defaultRegion, s.queues);
    forall r, key | r in wants && key in wants[r] ensures Managed(key) {
      DesiredIsWanted(table, defaultRegion, r, key);
    }
  }

  /** Some instance that has finished serves the region. */
  ghost predicate ServedBy(s: State, t: State, r: Region) {
    exists who :: who in s.instances && who in t.instances && r in s.instances[who].todo && Done(t.instances[who])
  }

  /**
   * So any number of concurrent syncs of one table, by deployments that serve different
   * regions or the same, amount to a single sequential sync of all the queues, as soon as
   * each of these is served by an instance that has finished.
   */
  lemma ConcurrentSyncsAreOneSync(table: seq<MonitorRow>, defaultRegion: Region, s: State, schedule: seq<(nat, Step)>)
    requires AboutToSync(TableWants(table, defaultRegion, s.queues), s)
    requires forall r :: r in s.queues ==> ServedBy(s, Run(TableWants(table, defaultRegion, s.queues), s, schedule), r)
    ensures Run(TableWants(table, defaultRegion, s.queues), s, schedule).queues == Synced(table, defaultRegion, s.queues)
  {
    var wants := TableWants(table, defaultRegion, s.queues);
    var t := Run(wants, s, schedule);
    TableWantsWellFormed(table, defaultRegion, s);
    assert t.queues.Keys == s.queues.Keys by {
      RunKeepsDuties(wants, s, schedule);
    }
    forall r | r in s.queues ensures t.queues[r] == Reconciled(wants[r], s.queues[r]) {
      assert ServedBy(s, t, r);
      var who :| who in s.instances && who in t.instances && r in s.instances[who].todo && Done(t.instances[who]);
      FinishedMeansExact(wants, s, schedule, who, r);
    }
  }

  /** What is left for an instance: regions, then whether one is in work, then calls on it. */
  function Rank(me: Instance): (nat, nat, nat) {
    (|me.todo|,
     if me.work.Some? then 1 else 0,
     if me.work.Some? then |me.work.value.upserts| + |me.work.value.removals| else 0)
  }

  predicate Less(a: (nat, nat, nat), b: (nat, nat, nat)) {
    a.0 < b.0 || (a.0 == b.0 && (a.1 < b.1 || (a.1 == b.1 && a.2 < b.2)))
  }

  /** An unfinished instance can always go on. */
  lemma UnfinishedCanGoOn(wants: Wants, s: State, who: nat)
    requires WellFormed(wants, s) && Duties(wants, s) && who in s.instances
    ensures Done(s.instances[who]) <==> forall step :: !Enabled(wants, s, who, step)
  {
    var me := s.instances[who];
    assert Dutiful(wants, s, who);
    if !Done(me) {
      if me.work.None? {
        assert Enabled(wants, s, who, List);
      } else if me.work.value.upserts != {} {
        var key :| key in me.work.value.upserts;
        assert Enabled(wants, s, who, Upsert(key));
      } else if me.work.value.removals != {} {
        var key :| key in me.work.value.removals;
        assert Enabled(wants, s, who, Remove(key));
      } else {
        assert Enabled(wants, s, who, Finish);
      }
    }
  }

  /** Each of its steps brings an instance nearer the end, and none of them changes another instance. */
  lemma StepsBringNearer(wants: Wants, s: State, who: nat, step: Step)
    requires Enabled(wants, s, who, step)
    ensures who in Take(wants, s, who, step).instances
    ensures Less(Rank(Take(wants, s, who, step).instances[who]), Rank(s.instances[who]))
    ensures Take(wants, s, who, step).instances == s.instances[who := Take(wants, s, who, step).instances[who]]
  {
  }
}
