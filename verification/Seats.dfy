/**
 * Seat limits across the invite, accept and add-member operations
 * (apps/api/src/services/plan-limits.service.ts and packages/auth/src/seat-limits.ts).
 * Each operation is a check followed, in a separate step, by an insert.
 */
module Seats {
  import opened Wrappers
  import opened Sequences

  /** A pending invitation holds a seat until it lapses (expires or is withdrawn) or is accepted. */
  datatype Invite = Waiting | Lapsed | Accepted

  datatype Org = Org(
    seatLimit: Option<nat>,
    members: nat,
    invites: map<nat, Invite>,
    inviting: set<nat>,
    accepting: map<nat, nat>,
    adding: set<nat>)

  datatype Step =
    | CheckInvite(who: nat)
    | InsertInvite(who: nat, id: nat)
    | CheckAccept(who: nat, id: nat)
    | InsertAccepted(who: nat)
    | CheckAdd(who: nat)
    | InsertAdded(who: nat)
    | GiveUp(who: nat)
    | Lapse(id: nat)
    | Leave
    | ChangePlan(seatLimit: Option<nat>)

  function WaitingIds(invites: map<nat, Invite>): set<nat> {
    set id | id in invites && invites[id] == Waiting
  }

  /** The seats that are taken or promised. */
  function Committed(s: Org): nat {
    s.members + |WaitingIds(s.invites)|
  }

  /** `assertSeatAvailableForInvite`: pending invitations count as taken seats. */
  predicate MayInvite(s: Org) {
    s.seatLimit.None? || Committed(s) < s.seatLimit.value
  }

  /** `assertWithinLimit(…, "seat")`: members only. */
  predicate MayJoin(s: Org) {
    s.seatLimit.None? || s.members < s.seatLimit.value
  }

  /** A step that does not apply, or whose check fails, changes nothing. */
  function Take(s: Org, step: Step): Org {
    match step
    case CheckInvite(who) => if who !in s.inviting && MayInvite(s) then s.(inviting := s.inviting + {who}) else s
    case InsertInvite(who, id) =>
      if who in s.inviting && id !in s.invites
      then s.(inviting := s.inviting - {who}, invites := s.invites[id := Waiting]) else s
    case CheckAccept(who, id) =>
      if who !in s.accepting && id in s.invites && s.invites[id] == Waiting && MayJoin(s)
      then s.(accepting := s.accepting[who := id]) else s
    case InsertAccepted(who) =>
      if who !in s.accepting then s
      else
        var id := s.accepting[who];
        var done := s.(accepting := s.accepting - {who});
        if id !in s.invites || s.invites[id] == Accepted then done
        else done.(members := s.members + 1, invites := s.invites[id := Accepted])
    case CheckAdd(who) => if who !in s.adding && MayJoin(s) then s.(adding := s.adding + {who}) else s
    case InsertAdded(who) => if who in s.adding then s.(adding := s.adding - {who}, members := s.members + 1) else s
    case GiveUp(who) => s.(inviting := s.inviting - {who}, accepting := s.accepting - {who}, adding := s.adding - {who})
    case Lapse(id) => if id in s.invites && s.invites[id] == Waiting then s.(invites := s.invites[id := Lapsed]) else s
    case Leave => if s.members > 0 then s.(members := s.members - 1) else s
    case ChangePlan(limit) => s.(seatLimit := limit)
  }

  function Run(s: Org, steps: seq<Step>): Org
    decreases |steps|
  {
    if steps == [] then s else Run(Take(s, steps[0]), steps[1..])
  }

  // ---- Commitments ----

  lemma WaitingUpdate(invites: map<nat, Invite>, id: nat, to: Invite)
    ensures |WaitingIds(invites[id := to])|
         == |WaitingIds(invites)| - (if id in WaitingIds(invites) then 1 else 0) + (if to == Waiting then 1 else 0)
  {
    var rest := WaitingIds(invites) - {id};
    if to == Waiting {
      assert WaitingIds(invites[id := to]) == rest + {id};
    } else {
      assert WaitingIds(invites[id := to]) == rest;
    }
  }

  /** An accept that inserts its member although the invitation lapsed after the check. */
  predicate InsertsLapsed(s: Org, step: Step) {
    && step.InsertAccepted? && step.who in s.accepting && s.accepting[step.who] in s.invites
    && s.invites[s.accepting[step.who]] == Lapsed
  }

  /**
   * What the bound assumes of a run: the seat limit never exceeds `cap`, at most k
   * invites are between check and insert, no member is added directly, and no
   * invitation lapses between its accept check and insert.
   */
  predicate Orderly(s: Org, steps: seq<Step>, cap: nat, k: nat)
    decreases |steps|
  {
    && s.seatLimit.Some? && s.seatLimit.value <= cap && |s.inviting| <= k
    && (steps == [] || (!steps[0].InsertAdded? && !InsertsLapsed(s, steps[0]) && Orderly(Take(s, steps[0]), steps[1..], cap, k)))
  }

  lemma TakeKeepsCommitment(s: Org, step: Step, cap: nat, k: nat)
    requires s.seatLimit.Some? && s.seatLimit.value <= cap && !step.InsertAdded? && !InsertsLapsed(s, step)
    requires Committed(s) + |s.inviting| < cap + k && |Take(s, step).inviting| <= k
    ensures Committed(Take(s, step)) + |Take(s, step).inviting| < cap + k
  {
    if step.CheckInvite? {
      CheckingInvites(s, step.who);
    } else {
      OthersAddNoCommitment(s, step);
    }
  }

  lemma CheckingInvites(s: Org, who: nat)
    ensures var t := Take(s, CheckInvite(who)); t == s || (MayInvite(s) && Committed(t) == Committed(s))
  {
  }

  lemma OthersAddNoCommitment(s: Org, step: Step)
    requires !step.CheckInvite? && !step.InsertAdded? && !InsertsLapsed(s, step)
    ensures Committed(Take(s, step)) + |Take(s, step).inviting| <= Committed(s) + |s.inviting|
  {
    match step
    case InsertInvite(who, id) => WaitingUpdate(s.invites, id, Waiting);
    case InsertAccepted(who) => if who in s.accepting { WaitingUpdate(s.invites, s.accepting[who], Accepted); }
    case Lapse(id) => WaitingUpdate(s.invites, id, Lapsed);
    case GiveUp(who) => assert who !in s.inviting ==> s.inviting - {who} == s.inviting;
    case _ =>
  }

  /**
   * However invites, accepts, lapses and plan changes interleave, members and pending
   * invitations together exceed the seats by at most the k - 1 other invites that were
   * in flight; in particular by none when invites are check-and-insert (k = 1).
   */
  lemma {:induction false} SeatsNeverOversold(s: Org, steps: seq<Step>, cap: nat, k: nat)
    requires 1 <= k && Committed(s) + |s.inviting| < cap + k && Orderly(s, steps, cap, k)
    ensures Committed(Run(s, steps)) <= cap + k - 1 && Run(s, steps).members <= cap + k - 1
    decreases |steps|
  {
    if steps != [] {
      TakeKeepsCommitment(s, steps[0], cap, k);
      SeatsNeverOversold(Take(s, steps[0]), steps[1..], cap, k);
    }
  }

  // ---- The bound is attained ----

  /** `n` invites pass their check, one after the other, before any of them inserts. */
  function Checks(n: nat): seq<Step> {
    if n == 0 then [] else Checks(n - 1) + [CheckInvite(n - 1)]
  }

  function Inserts(n: nat): seq<Step> {
    if n == 0 then [] else Inserts(n - 1) + [InsertInvite(n - 1, n - 1)]
  }

  lemma {:induction false} RunAppend(s: Org, a: seq<Step>, b: seq<Step>)
    ensures Run(s, a + b) == Run(Run(s, a), b)
    decreases |a|
  {
    if a == [] {
      assert a + b == b;
    } else {
      assert (a + b)[1..] == a[1..] + b;
      RunAppend(Take(s, a[0]), a[1..], b);
    }
  }

  function AllWaiting(ids: set<nat>): map<nat, Invite> {
    map i | i in ids :: Waiting
  }

  lemma RunOne(s: Org, steps: seq<Step>, last: Step)
    ensures Run(s, steps + [last]) == Take(Run(s, steps), last)
  {
    RunAppend(s, steps, [last]);
    assert Run(Take(Run(s, steps), last), []) == Take(Run(s, steps), last);
  }

  function LastSeat(limit: nat): Org
    requires 1 <= limit
  {
    Org(Some(limit), limit - 1, map[], {}, map[], {})
  }

  lemma {:induction false} AllChecksPass(limit: nat, n: nat)
    requires 1 <= limit
    ensures Run(LastSeat(limit), Checks(n)) == LastSeat(limit).(inviting := UpTo(n))
  {
    if n > 0 {
      AllChecksPass(limit, n - 1);
      RunOne(LastSeat(limit), Checks(n - 1), CheckInvite(n - 1));
      assert MayInvite(LastSeat(limit).(inviting := UpTo(n - 1))) by {
        assert WaitingIds(map[]) == {};
      }
    }
  }

  /** k invites have passed their check, and the first n of them have been inserted. */
  function Inserted(limit: nat, k: nat, n: nat): Org
    requires 1 <= limit
  {
    LastSeat(limit).(inviting := UpTo(k) - UpTo(n), invites := AllWaiting(UpTo(n)))
  }

  lemma InsertNext(limit: nat, k: nat, n: nat)
    requires 1 <= limit && 1 <= n <= k
    ensures Take(Inserted(limit, k, n - 1), InsertInvite(n - 1, n - 1)) == Inserted(limit, k, n)
  {
    NextUpTo(k, n);
    NextWaiting(n);
  }

  lemma NextUpTo(k: nat, n: nat)
    requires 1 <= n <= k
    ensures n - 1 in UpTo(k) - UpTo(n - 1) && UpTo(k) - UpTo(n) == UpTo(k) - UpTo(n - 1) - {n - 1}
  {
  }

  lemma NextWaiting(n: nat)
    requires 1 <= n
    ensures n - 1 !in AllWaiting(UpTo(n - 1)) && AllWaiting(UpTo(n)) == AllWaiting(UpTo(n - 1))[n - 1 := Waiting]
  {
  }

  lemma {:induction false} AllInsertsSucceed(limit: nat, k: nat, n: nat)
    requires 1 <= limit && n <= k
    ensures Run(Inserted(limit, k, 0), Inserts(n)) == Inserted(limit, k, n)
  {
    if n > 0 {
      AllInsertsSucceed(limit, k, n - 1);
      RunOne(Inserted(limit, k, 0), Inserts(n - 1), InsertInvite(n - 1, n - 1));
      InsertNext(limit, k, n);
    }
  }

  /** k invites racing for the last seat all get in: the overshoot of k - 1 does happen. */
  lemma OvershootHappens(limit: nat, k: nat)
    requires 1 <= limit
    ensures Committed(Run(LastSeat(limit), Checks(k) + Inserts(k))) == limit + k - 1
  {
    AllChecksPass(limit, k);
    AllInsertsSucceed(limit, k, k);
    RunAppend(LastSeat(limit), Checks(k), Inserts(k));
    assert Inserted(limit, k, 0) == LastSeat(limit).(inviting := UpTo(k));
    assert WaitingIds(AllWaiting(UpTo(k))) == UpTo(k);
  }

  // ---- What the assumptions are for ----

  /** Inserting the member keeps the commitments within the limit exactly when the invitation is still live or there is room. */
  lemma AcceptIsSafeIff(s: Org, who: nat, limit: nat)
    requires Committed(s) <= limit && who in s.accepting && s.accepting[who] in s.invites
    ensures Committed(Take(s, InsertAccepted(who))) <= limit
       <==> !InsertsLapsed(s, InsertAccepted(who)) || Committed(s) < limit
  {
    WaitingUpdate(s.invites, s.accepting[who], Accepted);
  }

  /** A direct add that passed its own check (members only) can take a seat promised to an invitation. */
  lemma DirectAddIsSafeIff(s: Org, who: nat, limit: nat)
    requires s.seatLimit == Some(limit) && Committed(s) <= limit && MayJoin(s) && who !in s.adding
    ensures var added := Take(Take(s, CheckAdd(who)), InsertAdded(who));
      Committed(added) <= limit <==> MayInvite(s)
  {
  }

  /** An invitation for the last seat, and then a direct add: both are let through. */
  lemma DirectAddHappens(limit: nat)
    requires 1 <= limit
    ensures Committed(Run(LastSeat(limit), [CheckInvite(0), InsertInvite(0, 0), CheckAdd(0), InsertAdded(0)])) == limit + 1
  {
    var invite: seq<Step> := [CheckInvite(0), InsertInvite(0, 0)];
    var invited := LastSeat(limit).(invites := map[0 := Waiting]);
    RunOne(LastSeat(limit), [CheckInvite(0)], InsertInvite(0, 0));
    RunOne(LastSeat(limit), [], CheckInvite(0));
    assert [] + [CheckInvite(0)] == [CheckInvite(0)] && [CheckInvite(0)] + [InsertInvite(0, 0)] == invite;
    assert WaitingIds(map[]) == {} && WaitingIds(invited.invites) == {0};
    RunOne(LastSeat(limit), invite, CheckAdd(0));
    RunOne(LastSeat(limit), invite + [CheckAdd(0)], InsertAdded(0));
    assert invite + [CheckAdd(0)] + [InsertAdded(0)] == [CheckInvite(0), InsertInvite(0, 0), CheckAdd(0), InsertAdded(0)];
  }

  // ---- The accept gate on its own ----

  predicate Gated(s: Org, steps: seq<Step>, cap: nat, j: nat)
    decreases |steps|
  {
    && s.seatLimit.Some? && s.seatLimit.value <= cap && |s.accepting| + |s.adding| <= j
    && (steps == [] || Gated(Take(s, steps[0]), steps[1..], cap, j))
  }

  /** Members and the joins that have passed their check. */
  function Joining(s: Org): nat {
    s.members + |s.accepting| + |s.adding|
  }

  lemma TakeKeepsGate(s: Org, step: Step, cap: nat, j: nat)
    requires s.seatLimit.Some? && s.seatLimit.value <= cap && Joining(s) < cap + j
    requires |Take(s, step).accepting| + |Take(s, step).adding| <= j
    ensures Joining(Take(s, step)) < cap + j
  {
    if step.CheckAccept? || step.CheckAdd? {
      CheckingJoins(s, step);
    } else {
      OthersAddNoJoin(s, step);
    }
  }

  /** A check only passes below the limit, and leaves the members as they are. */
  lemma CheckingJoins(s: Org, step: Step)
    requires step.CheckAccept? || step.CheckAdd?
    ensures Take(s, step) == s || (MayJoin(s) && Take(s, step).members == s.members)
  {
  }

  lemma OthersAddNoJoin(s: Org, step: Step)
    requires !step.CheckAccept? && !step.CheckAdd?
    ensures Joining(Take(s, step)) <= Joining(s)
  {
    if step.InsertAccepted? {
      RemoveKey(s.accepting, step.who);
    } else if step.GiveUp? {
      RemoveKey(s.accepting, step.who);
      assert step.who !in s.adding ==> s.adding - {step.who} == s.adding;
    }
  }

  lemma RemoveKey(m: map<nat, nat>, key: nat)
    ensures |m - {key}| == |m| - if key in m then 1 else 0
  {
    if key in m {
      assert m.Keys == (m - {key}).Keys + {key};
      assert |m.Keys| == |(m - {key}).Keys| + 1;
    } else {
      assert m - {key} == m;
    }
  }

  /**
   * Members alone stay within the limit, up to the j - 1 other joins in flight, even when
   * members are added directly and when invitations lapse at the wrong moment.
   */
  lemma {:induction false} MembersWithinLimit(s: Org, steps: seq<Step>, cap: nat, j: nat)
    requires 1 <= j && Joining(s) < cap + j && Gated(s, steps, cap, j)
    ensures Run(s, steps).members <= cap + j - 1
    decreases |steps|
  {
    if steps != [] {
      TakeKeepsGate(s, steps[0], cap, j);
      MembersWithinLimit(Take(s, steps[0]), steps[1..], cap, j);
    }
  }

  // ---- What is let through ----

  /** An invitation is let through exactly if members and pending invitations leave a seat. */
  lemma InviteLetThroughIff(s: Org, who: nat)
    requires who !in s.inviting
    ensures who in Take(s, CheckInvite(who)).inviting
       <==> s.seatLimit.None? || s.members + |set id | id in s.invites && s.invites[id] == Waiting| < s.seatLimit.value
  {
    assert WaitingIds(s.invites) == set id | id in s.invites && s.invites[id] == Waiting;
  }

  /** The accept of a waiting invitation, and a direct add, are let through exactly if the members leave a seat. */
  lemma JoinLetThroughIff(s: Org, who: nat, id: nat)
    ensures who !in s.accepting && id in s.invites && s.invites[id] == Waiting ==>
      (who in Take(s, CheckAccept(who, id)).accepting <==> s.seatLimit.None? || s.members < s.seatLimit.value)
    ensures who !in s.adding ==>
      (who in Take(s, CheckAdd(who)).adding <==> s.seatLimit.None? || s.members < s.seatLimit.value)
  {
  }

  /** A lapsing invitation gives its seat back, and giving up ends whatever was between check and insert. */
  lemma SeatsGivenBack(s: Org, id: nat, who: nat)
    ensures id in s.invites && s.invites[id] == Waiting ==>
      Take(s, Lapse(id)) == s.(invites := s.invites[id := Lapsed]) && Committed(Take(s, Lapse(id))) == Committed(s) - 1
    ensures var t := Take(s, GiveUp(who));
      && who !in t.inviting && who !in t.accepting && who !in t.adding
      && t.members == s.members && t.invites == s.invites && t.seatLimit == s.seatLimit
  {
    WaitingUpdate(s.invites, id, Lapsed);
  }

  /** The limit in force is that of the last plan change. */
  function LastPlan(steps: seq<Step>, before: Option<nat>): Option<nat> {
    if steps == [] then before
    else LastPlan(steps[1..], if steps[0].ChangePlan? then steps[0].seatLimit else before)
  }

  lemma {:induction false} LimitIsLastPlan(s: Org, steps: seq<Step>)
    ensures Run(s, steps).seatLimit == LastPlan(steps, s.seatLimit)
    decreases |steps|
  {
    if steps != [] {
      LimitIsLastPlan(Take(s, steps[0]), steps[1..]);
    }
  }

  /** Members and pending invitations are within the seat limit in force. */
  predicate Fits(s: Org) {
    s.seatLimit.None? || Committed(s) + |s.inviting| <= s.seatLimit.value
  }

  function Accept(s: Org, who: nat, id: nat): Org {
    Take(Take(s, CheckAccept(who, id)), InsertAccepted(who))
  }

  /**
   * Accepting converts a pending seat into a member seat: as long as the commitments fit
   * the limit, whoever accepts a waiting invitation joins, and nothing else changes.
   */
  lemma AcceptConverts(s: Org, who: nat, id: nat)
    requires Fits(s) && who !in s.accepting && id in s.invites && s.invites[id] == Waiting
    ensures var t := Accept(s, who, id);
      && t == s.(members := s.members + 1, invites := s.invites[id := Accepted])
      && Committed(t) == Committed(s)
  {
    WaitingUpdate(s.invites, id, Accepted);
    assert id in WaitingIds(s.invites);
    assert s.accepting[who := id] - {who} == s.accepting;
  }

  /** One invite at a time, no direct adds, no invitation lapsing under an accept, and no plan change that shrinks. */
  predicate Careful(s: Org, step: Step) {
    && !step.InsertAdded? && !InsertsLapsed(s, step)
    && (step.CheckInvite? ==> s.inviting == {})
    && (step.ChangePlan? ==> step.seatLimit.None? || (s.seatLimit.Some? && s.seatLimit.value <= step.seatLimit.value))
  }

  predicate CarefulRun(s: Org, steps: seq<Step>)
    decreases |steps|
  {
    steps == [] || (Careful(s, steps[0]) && CarefulRun(Take(s, steps[0]), steps[1..]))
  }

  lemma CarefulStepFits(s: Org, step: Step)
    requires Fits(s) && Careful(s, step)
    ensures Fits(Take(s, step))
  {
    if step.CheckInvite? {
      CheckingInvites(s, step.who);
    } else {
      OthersAddNoCommitment(s, step);
    }
  }

  lemma {:induction false} CarefulRunFits(s: Org, steps: seq<Step>)
    requires Fits(s) && CarefulRun(s, steps)
    ensures Fits(Run(s, steps))
    decreases |steps|
  {
    if steps != [] {
      CarefulStepFits(s, steps[0]);
      CarefulRunFits(Take(s, steps[0]), steps[1..]);
    }
  }

  /** The step lapses this invitation, or turns it into a member. */
  predicate Spends(s: Org, step: Step, id: nat) {
    || step == Lapse(id)
    || (step.InsertAccepted? && step.who in s.accepting && s.accepting[step.who] == id)
  }

  predicate Unspent(s: Org, steps: seq<Step>, id: nat)
    decreases |steps|
  {
    steps == [] || (!Spends(s, steps[0], id) && Unspent(Take(s, steps[0]), steps[1..], id))
  }

  lemma {:induction false} StaysWaiting(s: Org, steps: seq<Step>, id: nat)
    requires id in s.invites && s.invites[id] == Waiting && Unspent(s, steps, id)
    ensures id in Run(s, steps).invites && Run(s, steps).invites[id] == Waiting
    decreases |steps|
  {
    if steps != [] {
      StaysWaiting(Take(s, steps[0]), steps[1..], id);
    }
  }

  /**
   * An invitation that was inserted can be redeemed at any later time until it lapses or
   * has been: in every careful run, whatever else is invited and accepted, the invitee
   * who then accepts joins.
   */
  lemma InvitationCanBeRedeemed(s: Org, inviter: nat, id: nat, steps: seq<Step>, who: nat)
    requires Fits(s) && inviter in s.inviting && id !in s.invites
    requires var invited := Take(s, InsertInvite(inviter, id)); CarefulRun(invited, steps) && Unspent(invited, steps, id)
    requires who !in Run(Take(s, InsertInvite(inviter, id)), steps).accepting
    ensures var t := Run(Take(s, InsertInvite(inviter, id)), steps);
      && id in t.invites && t.invites[id] == Waiting
      && Accept(t, who, id) == t.(members := t.members + 1, invites := t.invites[id := Accepted])
      && Committed(Accept(t, who, id)) == Committed(t)
  {
    var invited := Take(s, InsertInvite(inviter, id));
    OthersAddNoCommitment(s, InsertInvite(inviter, id));
    CarefulRunFits(invited, steps);
    StaysWaiting(invited, steps, id);
    AcceptConverts(Run(invited, steps), who, id);
  }

  // ---- Every member came by an accept or an add ----

  /** What the step adds to the members. */
  function Change(s: Org, step: Step): int {
    match step
    case InsertAccepted(who) =>
      if who in s.accepting && s.accepting[who] in s.invites && s.invites[s.accepting[who]] != Accepted then 1 else 0
    case InsertAdded(who) => if who in s.adding then 1 else 0
    case Leave => if s.members > 0 then -1 else 0
    case _ => 0
  }

  function Changes(s: Org, steps: seq<Step>): int
    decreases |steps|
  {
    if steps == [] then 0 else Change(s, steps[0]) + Changes(Take(s, steps[0]), steps[1..])
  }

  /** In every run the members are those at the start, plus accepts and adds, minus leaves; nobody accepts one invitation twice. */
  lemma {:induction false} MembersBalance(s: Org, steps: seq<Step>)
    ensures Run(s, steps).members == s.members + Changes(s, steps)
    decreases |steps|
  {
    if steps != [] {
      MembersBalance(Take(s, steps[0]), steps[1..]);
    }
  }
}
