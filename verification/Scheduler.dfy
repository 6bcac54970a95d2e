/** The declarative scheduler (packages/monitoring/src/scheduler.ts). */
module Scheduler {
  import opened Sequences
  import opened Wrappers

  datatype Region =
    | NA_EAST | NA_WEST | EU_WEST | EU_CENTRAL | AP_SOUTHEAST | AP_NORTHEAST | SA_EAST | AF_SOUTH

  datatype MonitorRow = MonitorRow(id: string, active: bool, heartbeat: bool, intervalSeconds: int, regions: seq<Region>)

  /** A queue's schedulers: key to period in ms. A scheduler may lack a period. */
  type Queue = map<string, Option<nat>>

  const SCHEDULER_PREFIX := "monitor:"

  function RegionName(r: Region): string {
    match r
    case NA_EAST => "NA_EAST"
    case NA_WEST => "NA_WEST"
    case EU_WEST => "EU_WEST"
    case EU_CENTRAL => "EU_CENTRAL"
    case AP_SOUTHEAST => "AP_SOUTHEAST"
    case AP_NORTHEAST => "AP_NORTHEAST"
    case SA_EAST => "SA_EAST"
    case AF_SOUTH => "AF_SOUTH"
  }

  function SchedulerId(monitorId: string, region: Region): string {
    SCHEDULER_PREFIX + monitorId + ":" + RegionName(region)
  }

  predicate Managed(key: string) {
    SCHEDULER_PREFIX <= key
  }

  function Every(m: MonitorRow): nat {
    (if m.intervalSeconds < 1 then 1 else m.intervalSeconds) * 1000
  }

  function RegionsOf(m: MonitorRow, defaultRegion: Region): seq<Region> {
    if m.heartbeat then [defaultRegion] else if |m.regions| > 0 then m.regions else [defaultRegion]
  }

  predicate Wants(m: MonitorRow, defaultRegion: Region, region: Region) {
    m.active && region in RegionsOf(m, defaultRegion)
  }

  // ---- Scheduler keys identify (monitor, region) ----

  lemma RegionNamesAreDistinct(r: Region, s: Region)
    ensures RegionName(r) == RegionName(s) ==> r == s
  {
    assert RegionName(r)[0] == RegionName(s)[0] || r != s;
  }

  lemma RegionNamesHaveNoColon(r: Region)
    ensures ':' !in RegionName(r)
  {
  }

  /** The key is injective although monitor ids may contain colons: region names do not. */
  lemma SchedulerIdInjective(m: string, r: Region, n: string, s: Region)
    ensures SchedulerId(m, r) == SchedulerId(n, s) <==> m == n && r == s
    ensures Managed(SchedulerId(m, r))
  {
    var a, b := SCHEDULER_PREFIX + m, SCHEDULER_PREFIX + n;
    if SchedulerId(m, r) == SchedulerId(n, s) {
      RegionNamesHaveNoColon(r);
      RegionNamesHaveNoColon(s);
      LastSeparator(a, RegionName(r), b, RegionName(s), ':');
      RegionNamesAreDistinct(r, s);
      assert a[|SCHEDULER_PREFIX|..] == m && b[|SCHEDULER_PREFIX|..] == n;
    }
  }

  // ---- The desired schedulers ----

  /** What the monitor table asks of one region's queue, a later row winning over an earlier one. */
  function Desired(table: seq<MonitorRow>, defaultRegion: Region, region: Region): map<string, nat> {
    if table == [] then map[]
    else
      var last := table[|table| - 1];
      var before := Desired(table[..|table| - 1], defaultRegion, region);
      if Wants(last, defaultRegion, region) then before[SchedulerId(last.id, region) := Every(last)] else before
  }

  /**
   * What a region's queue owes a monitor: a heartbeat monitor is checked in the default
   * region only, any other in its own regions, or in the default region if it has none.
   */
  predicate Due(m: MonitorRow, defaultRegion: Region, region: Region) {
    && m.active
    && if m.heartbeat then region == defaultRegion
       else region in m.regions || (m.regions == [] && region == defaultRegion)
  }

  /** The period in ms, of one second at least. */
  predicate IsPeriod(ms: nat, seconds: int) {
    if seconds >= 1 then ms == 1000 * seconds else ms == 1000
  }

  lemma WantsIsDue(m: MonitorRow, defaultRegion: Region, region: Region)
    ensures Wants(m, defaultRegion, region) <==> Due(m, defaultRegion, region)
    ensures IsPeriod(Every(m), m.intervalSeconds)
  {
  }

  /** The key of an active monitor that is to be checked in the region. */
  predicate Wanted(table: seq<MonitorRow>, defaultRegion: Region, region: Region, key: string) {
    exists i :: 0 <= i < |table| && Due(table[i], defaultRegion, region)
      && key == "monitor:" + table[i].id + ":" + RegionName(region)
  }

  /** Monitor ids are a primary key. */
  ghost predicate UniqueIds(table: seq<MonitorRow>) {
    forall i, j :: 0 <= i < j < |table| ==> table[i].id != table[j].id
  }

  lemma {:induction false} DesiredIsWanted(table: seq<MonitorRow>, defaultRegion: Region, region: Region, key: string)
    requires key in Desired(table, defaultRegion, region)
    ensures Managed(key) && Wanted(table, defaultRegion, region, key)
  {
    var n := |table| - 1;
    if Wants(table[n], defaultRegion, region) && key == SchedulerId(table[n].id, region) {
      SchedulerIdInjective(table[n].id, region, table[n].id, region);
      WantsIsDue(table[n], defaultRegion, region);
      assert key == "monitor:" + table[n].id + ":" + RegionName(region);
    } else {
      DesiredIsWanted(table[..n], defaultRegion, region, key);
      var i :| 0 <= i < n && Due(table[..n][i], defaultRegion, region)
        && key == "monitor:" + table[..n][i].id + ":" + RegionName(region);
      assert table[i] == table[..n][i];
    }
  }

  lemma {:induction false} WantedIsDesired(table: seq<MonitorRow>, defaultRegion: Region, region: Region, i: nat)
    requires UniqueIds(table) && i < |table| && Due(table[i], defaultRegion, region)
    ensures var want, key := Desired(table, defaultRegion, region), SchedulerId(table[i].id, region);
      key in want && IsPeriod(want[key], table[i].intervalSeconds)
  {
    var n := |table| - 1;
    WantsIsDue(table[i], defaultRegion, region);
    if i < n {
      assert table[..n][i] == table[i];
      WantedIsDesired(table[..n], defaultRegion, region, i);
      SchedulerIdInjective(table[i].id, region, table[n].id, region);
    }
  }

  // ---- Reconciliation of one queue ----

  predicate Right(want: map<string, nat>, have: Queue, key: string)
    requires key in want
  {
    key in have && have[key] == Some(want[key])
  }

  function ToUpsert(want: map<string, nat>, have: Queue): set<string> {
    set key | key in want && !Right(want, have, key)
  }

  function ToRemove(want: map<string, nat>, have: Queue): set<string> {
    set key | key in have && Managed(key) && key !in want
  }

  /** The keys on which a queue differs from what is wanted. */
  function Wrong(want: map<string, nat>, have: Queue): set<string> {
    ToUpsert(want, have) + ToRemove(want, have)
  }

  /** The wanted schedulers, and every scheduler that does not belong to a monitor. */
  function Reconciled(want: map<string, nat>, have: Queue): Queue {
    map key | key in have.Keys + want.Keys && (key in want || !Managed(key)) ::
      if key in want then Some(want[key]) else have[key]
  }

  /** One pass leaves nothing to do for a second one, which therefore changes nothing. */
  lemma ReconcileIsIdempotent(want: map<string, nat>, have: Queue)
    ensures var once := Reconciled(want, have);
      ToUpsert(want, once) == {} && ToRemove(want, once) == {} && Reconciled(want, once) == once
  {
  }

  /** The queue has the monitor's scheduler, under its key and with its period. */
  predicate Scheduled(have: Queue, m: MonitorRow, region: Region) {
    var key := SchedulerId(m.id, region);
    key in have && have[key].Some? && IsPeriod(have[key].value, m.intervalSeconds)
  }

  /**
   * A queue with no wrong key has exactly one scheduler for each active monitor that is
   * to be checked in the region, with its period, and no other scheduler of a monitor.
   */
  lemma NothingWrongMeansExact(table: seq<MonitorRow>, defaultRegion: Region, region: Region, have: Queue)
    requires UniqueIds(table)
    requires Wrong(Desired(table, defaultRegion, region), have) == {}
    ensures forall key :: key in have && Managed(key) ==> Wanted(table, defaultRegion, region, key)
    ensures forall i :: 0 <= i < |table| && Due(table[i], defaultRegion, region) ==>
      Scheduled(have, table[i], region)
  {
    var want := Desired(table, defaultRegion, region);
    forall key | key in have && Managed(key) ensures Wanted(table, defaultRegion, region, key) {
      assert key !in ToRemove(want, have);
      DesiredIsWanted(table, defaultRegion, region, key);
    }
    forall i | 0 <= i < |table| && Due(table[i], defaultRegion, region)
      ensures Scheduled(have, table[i], region)
    {
      WantedIsDesired(table, defaultRegion, region, i);
      assert SchedulerId(table[i].id, region) !in ToUpsert(want, have);
    }
  }

  lemma ReconciledIsRight(want: map<string, nat>, have: Queue)
    ensures Wrong(want, Reconciled(want, have)) == {}
  {
  }

  // ---- One sync over all served queues ----

  datatype Summary = Summary(monitors: nat, upserts: nat, removals: nat)

  function Upserts(served: seq<Region>, table: seq<MonitorRow>, defaultRegion: Region, live: map<Region, Queue>): nat
    requires forall r :: r in served ==> r in live
  {
    if served == [] then 0
    else
      var r := served[|served| - 1];
      Upserts(served[..|served| - 1], table, defaultRegion, live) + |ToUpsert(Desired(table, defaultRegion, r), live[r])|
  }

  function Removals(served: seq<Region>, table: seq<MonitorRow>, defaultRegion: Region, live: map<Region, Queue>): nat
    requires forall r :: r in served ==> r in live
  {
    if served == [] then 0
    else
      var r := served[|served| - 1];
      Removals(served[..|served| - 1], table, defaultRegion, live) + |ToRemove(Desired(table, defaultRegion, r), live[r])|
  }

  /**
   * From any prior state, one sync leaves in each queue exactly one scheduler for each
   * active monitor that is to be checked in the region, every 1000 ms for each second of
   * its interval, no other scheduler of a monitor, and every key without the prefix as it
   * was.
   */
  lemma SyncReachesDesired(table: seq<MonitorRow>, defaultRegion: Region, live: map<Region, Queue>, r: Region)
    requires UniqueIds(table) && r in live
    ensures var have := Synced(table, defaultRegion, live)[r];
      && (forall key :: "monitor:" <= key ==> (key in have <==> Wanted(table, defaultRegion, r, key)))
      && (forall i :: 0 <= i < |table| && Due(table[i], defaultRegion, r) ==> Scheduled(have, table[i], r))
      && (forall key :: !("monitor:" <= key) ==>
            (key in have <==> key in live[r]) && (key in have ==> have[key] == live[r][key]))
  {
    var want, have := Desired(table, defaultRegion, r), Synced(table, defaultRegion, live)[r];
    ReconciledIsRight(want, live[r]);
    NothingWrongMeansExact(table, defaultRegion, r, have);
    forall key | Managed(key) && Wanted(table, defaultRegion, r, key) ensures key in have {
      var i :| 0 <= i < |table| && Due(table[i], defaultRegion, r)
        && key == "monitor:" + table[i].id + ":" + RegionName(r);
      assert key == SchedulerId(table[i].id, r) && Scheduled(have, table[i], r);
    }
    forall key | !Managed(key) ensures key !in want {
      if key in want {
        DesiredIsWanted(table, defaultRegion, r, key);
      }
    }
  }

  lemma TotalsOfPrefix(served: seq<Region>, i: nat, table: seq<MonitorRow>, defaultRegion: Region, live: map<Region, Queue>)
    requires i < |served| && forall r :: r in served ==> r in live
    ensures var want := Desired(table, defaultRegion, served[i]);
      && Upserts(served[..i + 1], table, defaultRegion, live)
         == Upserts(served[..i], table, defaultRegion, live) + |ToUpsert(want, live[served[i]])|
      && Removals(served[..i + 1], table, defaultRegion, live)
         == Removals(served[..i], table, defaultRegion, live) + |ToRemove(want, live[served[i]])|
  {
    assert served[..i + 1][..i] == served[..i];
  }

  function Synced(table: seq<MonitorRow>, defaultRegion: Region, live: map<Region, Queue>): map<Region, Queue> {
    map r | r in live :: Reconciled(Desired(table, defaultRegion, r), live[r])
  }

  /** The queues of some of the regions synced, the others not yet. */
  ghost function SyncedFor(regions: seq<Region>, table: seq<MonitorRow>, defaultRegion: Region, live: map<Region, Queue>)
    : map<Region, Queue>
  {
    map r | r in live :: if r in regions then Reconciled(Desired(table, defaultRegion, r), live[r]) else live[r]
  }

  lemma SyncOneMore(served: seq<Region>, i: nat, table: seq<MonitorRow>, defaultRegion: Region, live: map<Region, Queue>)
    requires i < |served| && served[i] in live && served[i] !in served[..i]
    ensures SyncedFor(served[..i], table, defaultRegion, live)[served[i]] == live[served[i]]
    ensures SyncedFor(served[..i + 1], table, defaultRegion, live)
         == SyncedFor(served[..i], table, defaultRegion, live)[
              served[i] := Reconciled(Desired(table, defaultRegion, served[i]), live[served[i]])]
  {
    assert served[..i + 1] == served[..i] + [served[i]];
  }

  lemma SyncedForAll(regions: seq<Region>, table: seq<MonitorRow>, defaultRegion: Region, live: map<Region, Queue>)
    requires forall r :: r in live ==> r in regions
    ensures SyncedFor(regions, table, defaultRegion, live) == Synced(table, defaultRegion, live)
    ensures SyncedFor([], table, defaultRegion, live) == live
  {
  }

  /** An immediate second sync reports no upserts and no removals. */
  lemma {:induction false} SecondSyncIsQuiet(served: seq<Region>, table: seq<MonitorRow>, defaultRegion: Region,
                                             live: map<Region, Queue>)
    requires forall r :: r in served ==> r in live
    ensures Upserts(served, table, defaultRegion, Synced(table, defaultRegion, live)) == 0
    ensures Removals(served, table, defaultRegion, Synced(table, defaultRegion, live)) == 0
  {
    if served != [] {
      var r := served[|served| - 1];
      SecondSyncIsQuiet(served[..|served| - 1], table, defaultRegion, live);
      ReconcileIsIdempotent(Desired(table, defaultRegion, r), live[r]);
    }
  }

  function ActiveCount(table: seq<MonitorRow>): nat {
    if table == [] then 0
    else ActiveCount(table[..|table| - 1]) + if table[|table| - 1].active then 1 else 0
  }

  lemma {:induction false} ActiveCountIsCount(table: seq<MonitorRow>)
    ensures ActiveCount(table) == |set i | 0 <= i < |table| && table[i].active|
  {
    var all := set i | 0 <= i < |table| && table[i].active;
    if table != [] {
      var n := |table| - 1;
      var before := set i | 0 <= i < |table[..n]| && table[..n][i].active;
      ActiveCountIsCount(table[..n]);
      assert all == if table[n].active then before + {n} else before;
    }
  }

  class Scheduler {
    const served: seq<Region>
    const defaultRegion: Region
    var live: map<Region, Queue>

    /** The queues served, in the order in which they are visited. */
    ghost predicate Valid()
      reads this
    {
      && (forall i, j :: 0 <= i < j < |served| ==> served[i] != served[j])
      && live.Keys == set r | r in served
    }

    constructor (served: seq<Region>, defaultRegion: Region, live: map<Region, Queue>)
      requires forall i, j :: 0 <= i < j < |served| ==> served[i] != served[j]
      requires live.Keys == set r | r in served
      ensures Valid() && this.served == served && this.defaultRegion == defaultRegion && this.live == live
    {
      this.served, this.defaultRegion, this.live := served, defaultRegion, live;
    }

    /** Add one active monitor to the desired map of each region it wants. */
    method AddMonitor(m: MonitorRow, before: map<Region, map<string, nat>>) returns (desired: map<Region, map<string, nat>>)
      requires m.active
      ensures desired == map r | r in before ::
        if Wants(m, defaultRegion, r) then before[r][SchedulerId(m.id, r) := Every(m)] else before[r]
    {
      desired := before;
      var regions := RegionsOf(m, defaultRegion);
      for j := 0 to |regions|
        invariant desired.Keys == before.Keys
        invariant forall r :: r in before ==>
          desired[r] == if r in regions[..j] then before[r][SchedulerId(m.id, r) := Every(m)] else before[r]
      {
        var region := regions[j];
        assert regions[..j + 1] == regions[..j] + [region];
        if region in desired {
          var wanted: map<string, nat> := desired[region];
          wanted := wanted[SchedulerId(m.id, region) := Every(m)];
          desired := desired[region := wanted];
        }
      }
      assert regions[..|regions|] == regions;
    }

    /** Fill the desired map from the active monitors. */
    method CollectDesired(table: seq<MonitorRow>) returns (desired: map<Region, map<string, nat>>, monitors: nat)
      ensures desired == map r | r in served :: Desired(table, defaultRegion, r)
      ensures monitors == ActiveCount(table)
    {
      desired := map r | r in served :: map[];
      monitors := 0;
      for i := 0 to |table|
        invariant desired == map r | r in served :: Desired(table[..i], defaultRegion, r)
        invariant monitors == ActiveCount(table[..i])
      {
        assert table[..i + 1][..i] == table[..i];
        if table[i].active {
          monitors := monitors + 1;
          desired := AddMonitor(table[i], desired);
        }
      }
      assert table[..|table|] == table;
    }

    /** Upsert the wanted schedulers that the list does not show with the right period. */
    static method UpsertWanted(want: map<string, nat>, existing: Queue) returns (queue: Queue, upserts: nat)
      ensures queue.Keys == existing.Keys + want.Keys
      ensures forall key :: key in queue ==> queue[key] == if key in want then Some(want[key]) else existing[key]
      ensures upserts == |ToUpsert(want, existing)|
    {
      queue, upserts := existing, 0;
      var todo: set<string> := want.Keys;
      ghost var upserted: set<string> := {};
      while todo != {}
        invariant todo <= want.Keys && queue.Keys == existing.Keys + (want.Keys - todo)
        invariant forall key :: key in queue ==>
          queue[key] == if key in want && key !in todo then Some(want[key]) else existing[key]
        invariant upserts == |upserted|
        invariant forall key :: key in upserted <==> key in want && key !in todo && !Right(want, existing, key)
        decreases todo
      {
        var key :| key in todo;
        if !(key in existing && existing[key] == Some(want[key])) {
          queue := queue[key := Some(want[key])];
          upserts, upserted := upserts + 1, upserted + {key};
        }
        todo := todo - {key};
      }
      assert upserted == ToUpsert(want, existing);
    }

    /** Remove the monitors' schedulers that the list shows and that are no longer wanted. */
    static method RemoveUnwanted(want: map<string, nat>, existing: Queue, before: Queue)
      returns (queue: Queue, removals: nat)
      requires existing.Keys <= before.Keys
      ensures queue == before - ToRemove(want, existing)
      ensures removals == |ToRemove(want, existing)|
    {
      queue, removals := before, 0;
      var todo: set<string> := existing.Keys;
      ghost var removed: set<string> := {};
      while todo != {}
        invariant todo <= existing.Keys
        invariant queue == before - removed
        invariant removals == |removed|
        invariant forall key :: key in removed <==> key in existing && key !in todo && Managed(key) && key !in want
        decreases todo
      {
        var key :| key in todo;
        if Managed(key) && key !in want {
          queue := queue - {key};
          removals, removed := removals + 1, removed + {key};
        }
        todo := todo - {key};
      }
      assert removed == ToRemove(want, existing);
    }

    /** Bring one queue to the wanted set, from one list of its schedulers. */
    static method ReconcileQueue(want: map<string, nat>, existing: Queue)
      returns (queue: Queue, upserts: nat, removals: nat)
      ensures queue == Reconciled(want, existing)
      ensures upserts == |ToUpsert(want, existing)| && removals == |ToRemove(want, existing)|
    {
      queue, upserts := UpsertWanted(want, existing);
      queue, removals := RemoveUnwanted(want, existing, queue);
    }

    method Sync(table: seq<MonitorRow>) returns (summary: Summary)
      requires Valid()
      modifies this`live
      ensures Valid() && live == Synced(table, defaultRegion, old(live))
      ensures summary == Summary(ActiveCount(table), Upserts(served, table, defaultRegion, old(live)),
                                 Removals(served, table, defaultRegion, old(live)))
    {
      var desired, monitors := CollectDesired(table);
      var upserts, removals := 0, 0;
      ghost var before := live;
      SyncedForAll(served, table, defaultRegion, before);
      for i := 0 to |served|
        invariant live == SyncedFor(served[..i], table, defaultRegion, before)
        invariant upserts == Upserts(served[..i], table, defaultRegion, before)
        invariant removals == Removals(served[..i], table, defaultRegion, before)
      {
        var region := served[i];
        TotalsOfPrefix(served, i, table, defaultRegion, before);
        SyncOneMore(served, i, table, defaultRegion, before);
        var queue, u, d := ReconcileQueue(desired[region], live[region]);
        live := live[region := queue];
        upserts, removals := upserts + u, removals + d;
      }
      assert served[..|served|] == served;
      summary := Summary(monitors, upserts, removals);
    }
  }
}
