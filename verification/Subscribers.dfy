/**
 * The double opt-in of status page subscribers (subscribe, verify and unsubscribe in
 * apps/api/src/services/status-page.service.ts).
 */
module Subscribers {
  import opened Wrappers

  datatype Status = PENDING | ACTIVE | UNSUBSCRIBED

  /** Slugs are unique, so a page is found by its slug. */
  datatype Page = Page(id: string, deleted: bool, isPublic: bool)

  /** The unique key of a subscriber: page id and normalized email. */
  datatype Key = Key(page: string, email: string)

  datatype Row = Row(status: Status, verificationToken: Option<string>, unsubscribeToken: Option<string>)

  type Rows = map<Key, Row>

  datatype Op =
    | Subscribe(slug: string, email: string, verification: string, unsubscription: string)
    | Verify(slug: string, token: string, unsubscription: string)
    | Unsubscribe(slug: string, token: string)

  /** The table, and every token generated so far. */
  datatype State = State(rows: Rows, used: set<string>)

  // ---- Operations ----

  predicate OnPage(pages: map<string, Page>, slug: string, key: Key) {
    slug in pages && !pages[slug].deleted && key.page == pages[slug].id
  }

  predicate Verifies(pages: map<string, Page>, rows: Rows, slug: string, token: string, key: Key) {
    key in rows && OnPage(pages, slug, key) && rows[key].verificationToken == Some(token)
  }

  predicate Unsubscribes(pages: map<string, Page>, rows: Rows, slug: string, token: string, key: Key) {
    key in rows && OnPage(pages, slug, key) && rows[key].unsubscribeToken == Some(token)
  }

  predicate Accepts(pages: map<string, Page>, slug: string) {
    slug in pages && !pages[slug].deleted && pages[slug].isPublic
  }

  function Renewed(rows: Rows, key: Key, verification: string, unsubscription: string): Row {
    if key in rows then rows[key].(status := PENDING, verificationToken := Some(verification))
    else Row(PENDING, Some(verification), Some(unsubscription))
  }

  function Confirmed(row: Row, unsubscription: string): Row {
    Row(ACTIVE, None, if row.unsubscribeToken.Some? then row.unsubscribeToken else Some(unsubscription))
  }

  ghost function Apply(pages: map<string, Page>, s: State, op: Op): State {
    match op
    case Subscribe(slug, email, v, u) =>
      if !Accepts(pages, slug) then s
      else
        var key := Key(pages[slug].id, email);
        if key in s.rows && s.rows[key].status == ACTIVE then s
        else State(s.rows[key := Renewed(s.rows, key, v, u)], s.used + {v, u})
    case Verify(slug, token, u) =>
      if key :| Verifies(pages, s.rows, slug, token, key)
      then State(s.rows[key := Confirmed(s.rows[key], u)], s.used + {u})
      else s
    case Unsubscribe(slug, token) =>
      if key :| Unsubscribes(pages, s.rows, slug, token, key)
      then s.(rows := s.rows[key := s.rows[key].(status := UNSUBSCRIBED)])
      else s
  }

  ghost function Run(pages: map<string, Page>, s: State, ops: seq<Op>): State {
    if ops == [] then s else Apply(pages, Run(pages, s, ops[..|ops| - 1]), ops[|ops| - 1])
  }

  /** The state after the first n operations. */
  ghost function After(pages: map<string, Page>, s: State, ops: seq<Op>, n: nat): State
    requires n <= |ops|
  {
    Run(pages, s, ops[..n])
  }

  lemma AfterNext(pages: map<string, Page>, s: State, ops: seq<Op>, n: nat)
    requires n < |ops|
    ensures After(pages, s, ops, n + 1) == Apply(pages, After(pages, s, ops, n), ops[n])
  {
    assert ops[..n + 1][..n] == ops[..n];
  }

  /** Tokens are 32 random bytes: the ones an operation generates have not been seen before. */
  predicate FreshTokens(s: State, op: Op) {
    match op
    case Subscribe(_, _, v, u) => v !in s.used && u !in s.used
    case Verify(_, _, u) => u !in s.used
    case Unsubscribe(_, _) => true
  }

  ghost predicate FreshRun(pages: map<string, Page>, s: State, ops: seq<Op>) {
    forall n :: 0 <= n < |ops| ==> FreshTokens(After(pages, s, ops, n), ops[n])
  }

  // ---- What the operations say about a subscriber ----

  /** A subscription of this page and email that issues a verification token. */
  predicate Issues(pages: map<string, Page>, s: State, op: Op, key: Key) {
    && op.Subscribe? && op.slug in pages && !pages[op.slug].deleted && pages[op.slug].isPublic
    && key == Key(pages[op.slug].id, op.email)
    && !(key in s.rows && s.rows[key].status == ACTIVE)
  }

  /** Somebody opens the link with this verification token on the subscriber's page. */
  predicate Presents(pages: map<string, Page>, op: Op, token: string, key: Key) {
    op.Verify? && op.token == token && op.slug in pages && !pages[op.slug].deleted && key.page == pages[op.slug].id
  }

  /** Somebody opens the subscriber's unsubscribe link. */
  predicate Stops(pages: map<string, Page>, s: State, op: Op, key: Key) {
    && op.Unsubscribe? && op.slug in pages && !pages[op.slug].deleted && key.page == pages[op.slug].id
    && key in s.rows && s.rows[key].unsubscribeToken == Some(op.token)
  }

  /** Among the first n operations the i-th is the subscriber's latest token, and it has not been presented. */
  ghost predicate Waiting(pages: map<string, Page>, s: State, ops: seq<Op>, n: nat, key: Key, i: int)
    requires n <= |ops|
  {
    && 0 <= i < n && Issues(pages, After(pages, s, ops, i), ops[i], key)
    && (forall k :: i < k < n ==> !Issues(pages, After(pages, s, ops, k), ops[k], key))
    && (forall k :: i < k < n ==> !Presents(pages, ops[k], ops[i].verification, key))
  }

  /**
   * Among the first n operations the i-th issued the subscriber's latest token, the j-th
   * was the first to present it, and no unsubscribe came after that.
   */
  ghost predicate Consented(pages: map<string, Page>, s: State, ops: seq<Op>, n: nat, key: Key, i: int, j: int)
    requires n <= |ops|
  {
    && 0 <= i < j < n && Issues(pages, After(pages, s, ops, i), ops[i], key)
    && (forall k :: i < k < n ==> !Issues(pages, After(pages, s, ops, k), ops[k], key))
    && Presents(pages, ops[j], ops[i].verification, key)
    && (forall k :: i < k < j ==> !Presents(pages, ops[k], ops[i].verification, key))
    && (forall k :: j < k < n ==> !Stops(pages, After(pages, s, ops, k), ops[k], key))
  }

  // ---- Tokens ----

  /**
   * Tokens identify rows, and an ACTIVE row can be left. Rows from before unsubscribe
   * tokens existed may lack one.
   */
  ghost predicate TokensApart(s: State) {
    && (forall k :: k in s.rows && s.rows[k].status == ACTIVE ==> s.rows[k].unsubscribeToken.Some?)
    && (forall k :: k in s.rows && s.rows[k].unsubscribeToken.Some? ==> s.rows[k].unsubscribeToken.value in s.used)
    && (forall k :: k in s.rows && s.rows[k].verificationToken.Some? ==> s.rows[k].verificationToken.value in s.used)
    && (forall j, k :: j in s.rows && k in s.rows && j != k && s.rows[j].unsubscribeToken.Some? ==>
          s.rows[j].unsubscribeToken != s.rows[k].unsubscribeToken)
    && (forall j, k :: j in s.rows && k in s.rows && j != k && s.rows[j].verificationToken.Some? ==>
          s.rows[j].verificationToken != s.rows[k].verificationToken)
  }

  lemma SubscribeKeepsTokens(pages: map<string, Page>, s: State, op: Op)
    requires TokensApart(s) && op.Subscribe? && FreshTokens(s, op)
    ensures TokensApart(Apply(pages, s, op)) && s.used <= Apply(pages, s, op).used
  {
  }

  lemma VerifyKeepsTokens(pages: map<string, Page>, s: State, op: Op)
    requires TokensApart(s) && op.Verify? && FreshTokens(s, op)
    ensures TokensApart(Apply(pages, s, op)) && s.used <= Apply(pages, s, op).used
  {
  }

  lemma UnsubscribeKeepsTokens(pages: map<string, Page>, s: State, op: Op)
    requires TokensApart(s) && op.Unsubscribe?
    ensures TokensApart(Apply(pages, s, op)) && s.used <= Apply(pages, s, op).used
  {
  }

  lemma TokensKept(pages: map<string, Page>, s: State, op: Op)
    requires TokensApart(s) && FreshTokens(s, op)
    ensures TokensApart(Apply(pages, s, op)) && s.used <= Apply(pages, s, op).used
  {
    match op
    case Subscribe(_, _, _, _) => SubscribeKeepsTokens(pages, s, op);
    case Verify(_, _, _) => VerifyKeepsTokens(pages, s, op);
    case Unsubscribe(_, _) => UnsubscribeKeepsTokens(pages, s, op);
  }

  /** What one operation does to the row of one subscriber. */
  lemma RowStep(pages: map<string, Page>, s: State, op: Op, key: Key)
    requires TokensApart(s) && FreshTokens(s, op)
    ensures var t := Apply(pages, s, op);
      if Issues(pages, s, op, key) then
           t.rows == s.rows[key := Renewed(s.rows, key, op.verification, op.unsubscription)]
         else if op.Verify? && Verifies(pages, s.rows, op.slug, op.token, key) then
           t.rows == s.rows[key := Confirmed(s.rows[key], op.unsubscription)]
         else if Stops(pages, s, op, key) then
           t.rows == s.rows[key := s.rows[key].(status := UNSUBSCRIBED)]
         else
           (key in t.rows <==> key in s.rows) && (key in s.rows ==> t.rows[key] == s.rows[key])
  {
    if Stops(pages, s, op, key) {
      assert Unsubscribes(pages, s.rows, op.slug, op.token, key);
      assert forall k :: Unsubscribes(pages, s.rows, op.slug, op.token, k) ==> k == key;
    }
  }

  lemma {:induction false} TokensStayApart(pages: map<string, Page>, s: State, ops: seq<Op>, n: nat)
    requires TokensApart(s) && FreshRun(pages, s, ops) && n <= |ops|
    ensures TokensApart(After(pages, s, ops, n))
  {
    if n > 0 {
      TokensStayApart(pages, s, ops, n - 1);
      AfterNext(pages, s, ops, n - 1);
      TokensKept(pages, After(pages, s, ops, n - 1), ops[n - 1]);
    }
  }

  // ---- Consent ----

  /** The row waits for the subscriber's latest token. */
  ghost predicate TokenFollows(pages: map<string, Page>, s: State, ops: seq<Op>, n: nat, key: Key)
    requires n <= |ops|
  {
    var rows := After(pages, s, ops, n).rows;
    && (forall i :: Waiting(pages, s, ops, n, key, i) ==>
          key in rows && rows[key].verificationToken == Some(ops[i].verification))
    && (key in rows && rows[key].verificationToken.Some? ==> exists i :: Waiting(pages, s, ops, n, key, i))
  }

  /** The row is ACTIVE if and only if there is consent. */
  ghost predicate StatusFollows(pages: map<string, Page>, s: State, ops: seq<Op>, n: nat, key: Key)
    requires n <= |ops|
  {
    var rows := After(pages, s, ops, n).rows;
    key in rows && rows[key].status == ACTIVE <==> exists i, j :: Consented(pages, s, ops, n, key, i, j)
  }

  lemma WaitingNext(pages: map<string, Page>, s: State, ops: seq<Op>, n: nat, key: Key, i: int)
    requires n < |ops|
    ensures Waiting(pages, s, ops, n + 1, key, i)
       <==> if Issues(pages, After(pages, s, ops, n), ops[n], key) then i == n
            else Waiting(pages, s, ops, n, key, i) && !Presents(pages, ops[n], ops[i].verification, key)
  {
  }

  lemma ConsentedAtLast(pages: map<string, Page>, s: State, ops: seq<Op>, n: nat, key: Key, i: int)
    requires n < |ops|
    ensures Consented(pages, s, ops, n + 1, key, i, n)
       <==> && !Issues(pages, After(pages, s, ops, n), ops[n], key)
            && Waiting(pages, s, ops, n, key, i) && Presents(pages, ops[n], ops[i].verification, key)
  {
  }

  lemma ConsentedBefore(pages: map<string, Page>, s: State, ops: seq<Op>, n: nat, key: Key, i: int, j: int)
    requires n < |ops| && j != n
    ensures Consented(pages, s, ops, n + 1, key, i, j)
       <==> && !Issues(pages, After(pages, s, ops, n), ops[n], key)
            && Consented(pages, s, ops, n, key, i, j) && !Stops(pages, After(pages, s, ops, n), ops[n], key)
  {
  }

  lemma ConsentedNext(pages: map<string, Page>, s: State, ops: seq<Op>, n: nat, key: Key, i: int, j: int)
    requires n < |ops|
    ensures Consented(pages, s, ops, n + 1, key, i, j)
       <==> && !Issues(pages, After(pages, s, ops, n), ops[n], key)
            && if j == n then Waiting(pages, s, ops, n, key, i) && Presents(pages, ops[n], ops[i].verification, key)
               else Consented(pages, s, ops, n, key, i, j) && !Stops(pages, After(pages, s, ops, n), ops[n], key)
  {
    if j == n {
      ConsentedAtLast(pages, s, ops, n, key, i);
    } else {
      ConsentedBefore(pages, s, ops, n, key, i, j);
    }
  }

  lemma TokenNext(pages: map<string, Page>, s: State, ops: seq<Op>, n: nat, key: Key)
    requires n < |ops| && TokenFollows(pages, s, ops, n, key)
    requires TokensApart(After(pages, s, ops, n)) && FreshTokens(After(pages, s, ops, n), ops[n])
    ensures TokenFollows(pages, s, ops, n + 1, key)
  {
    var rows, next := After(pages, s, ops, n + 1).rows, n + 1;
    AfterNext(pages, s, ops, n);
    RowStep(pages, After(pages, s, ops, n), ops[n], key);
    forall i | Waiting(pages, s, ops, next, key, i)
      ensures key in rows && rows[key].verificationToken == Some(ops[i].verification)
    {
      WaitingNext(pages, s, ops, n, key, i);
    }
    if key in rows && rows[key].verificationToken.Some? {
      if Issues(pages, After(pages, s, ops, n), ops[n], key) {
        WaitingNext(pages, s, ops, n, key, n);
      } else {
        var i :| Waiting(pages, s, ops, n, key, i);
        WaitingNext(pages, s, ops, n, key, i);
      }
    }
  }

  lemma StatusNext(pages: map<string, Page>, s: State, ops: seq<Op>, n: nat, key: Key)
    requires n < |ops| && TokenFollows(pages, s, ops, n, key) && StatusFollows(pages, s, ops, n, key)
    requires TokensApart(After(pages, s, ops, n)) && FreshTokens(After(pages, s, ops, n), ops[n])
    ensures StatusFollows(pages, s, ops, n + 1, key)
  {
    var rows, next := After(pages, s, ops, n + 1).rows, n + 1;
    AfterNext(pages, s, ops, n);
    RowStep(pages, After(pages, s, ops, n), ops[n], key);
    if i, j :| Consented(pages, s, ops, next, key, i, j) {
      ConsentedNext(pages, s, ops, n, key, i, j);
      assert key in rows && rows[key].status == ACTIVE;
    }
    if key in rows && rows[key].status == ACTIVE {
      if ops[n].Verify? && Verifies(pages, After(pages, s, ops, n).rows, ops[n].slug, ops[n].token, key) {
        var i :| Waiting(pages, s, ops, n, key, i);
        ConsentedNext(pages, s, ops, n, key, i, n);
      } else {
        var i, j :| Consented(pages, s, ops, n, key, i, j);
        ConsentedNext(pages, s, ops, n, key, i, j);
      }
    }
  }

  /** A subscriber who is neither ACTIVE nor waiting for a link that was sent before the run. */
  predicate Unclaimed(s: State, key: Key) {
    key in s.rows ==> s.rows[key].status != ACTIVE && s.rows[key].verificationToken.None?
  }

  lemma {:induction false} RunFollowsOps(pages: map<string, Page>, s: State, ops: seq<Op>, n: nat, key: Key)
    requires TokensApart(s) && FreshRun(pages, s, ops) && Unclaimed(s, key) && n <= |ops|
    ensures TokenFollows(pages, s, ops, n, key) && StatusFollows(pages, s, ops, n, key)
  {
    if n == 0 {
      StartFollows(pages, s, ops, key);
    } else {
      RunFollowsOps(pages, s, ops, n - 1, key);
      TokensStayApart(pages, s, ops, n - 1);
      FollowsNext(pages, s, ops, n - 1, key);
    }
  }

  lemma StartFollows(pages: map<string, Page>, s: State, ops: seq<Op>, key: Key)
    requires Unclaimed(s, key)
    ensures TokenFollows(pages, s, ops, 0, key) && StatusFollows(pages, s, ops, 0, key)
  {
    assert After(pages, s, ops, 0) == s;
  }

  lemma FollowsNext(pages: map<string, Page>, s: State, ops: seq<Op>, n: nat, key: Key)
    requires n < |ops| && FreshRun(pages, s, ops) && TokensApart(After(pages, s, ops, n))
    requires TokenFollows(pages, s, ops, n, key) && StatusFollows(pages, s, ops, n, key)
    ensures TokenFollows(pages, s, ops, n + 1, key) && StatusFollows(pages, s, ops, n + 1, key)
  {
    TokenNext(pages, s, ops, n, key);
    StatusNext(pages, s, ops, n, key);
  }

  /**
   * Over every run with fresh tokens there is one row per page and email, and it is
   * ACTIVE if and only if the token of its latest subscription was presented afterwards
   * with no unsubscribe since the first time it was.
   */
  lemma ActiveIffConsented(pages: map<string, Page>, s: State, ops: seq<Op>, key: Key)
    requires TokensApart(s) && FreshRun(pages, s, ops) && Unclaimed(s, key)
    ensures var r := Run(pages, s, ops);
      key in r.rows && r.rows[key].status == ACTIVE <==> exists i, j :: Consented(pages, s, ops, |ops|, key, i, j)
  {
    RunFollowsOps(pages, s, ops, |ops|, key);
    assert ops[..|ops|] == ops;
  }

  /** The token was generated, and no row waits for it. */
  ghost predicate Gone(s: State, token: string) {
    token in s.used && forall k :: k in s.rows ==> s.rows[k].verificationToken != Some(token)
  }

  lemma GoneStays(pages: map<string, Page>, s: State, op: Op, token: string)
    requires TokensApart(s) && FreshTokens(s, op) && Gone(s, token)
    ensures Gone(Apply(pages, s, op), token)
  {
    var t := Apply(pages, s, op);
    TokensKept(pages, s, op);
    forall k | k in t.rows ensures t.rows[k].verificationToken != Some(token) {
      RowStep(pages, s, op, k);
    }
  }

  lemma {:induction false} GoneForGood(pages: map<string, Page>, s: State, ops: seq<Op>, i: nat, n: nat, token: string)
    requires TokensApart(s) && FreshRun(pages, s, ops) && i <= n <= |ops|
    requires Gone(After(pages, s, ops, i), token)
    ensures Gone(After(pages, s, ops, n), token)
  {
    if i < n {
      GoneForGood(pages, s, ops, i, n - 1, token);
      TokensStayApart(pages, s, ops, n - 1);
      AfterNext(pages, s, ops, n - 1);
      GoneStays(pages, After(pages, s, ops, n - 1), ops[n - 1], token);
    }
  }

  /** The i-th operation makes a row ACTIVE. */
  ghost predicate Activates(pages: map<string, Page>, s: State, ops: seq<Op>, i: nat)
    requires i < |ops|
  {
    ops[i].Verify? && exists key :: Verifies(pages, After(pages, s, ops, i).rows, ops[i].slug, ops[i].token, key)
  }

  /** No verification token activates twice, whoever it was issued to and whatever pages it is presented on. */
  lemma NoTokenActivatesTwice(pages: map<string, Page>, s: State, ops: seq<Op>, i: nat, j: nat)
    requires TokensApart(s) && FreshRun(pages, s, ops)
    requires i < j < |ops| && Activates(pages, s, ops, i) && Activates(pages, s, ops, j)
    ensures ops[i].token != ops[j].token
  {
    var before, after := After(pages, s, ops, i), After(pages, s, ops, i + 1);
    var key :| Verifies(pages, before.rows, ops[i].slug, ops[i].token, key);
    TokensStayApart(pages, s, ops, i);
    AfterNext(pages, s, ops, i);
    TokensKept(pages, before, ops[i]);
    RowStep(pages, before, ops[i], key);
    assert Gone(after, ops[i].token);
    GoneForGood(pages, s, ops, i + 1, j, ops[i].token);
  }

  lemma UnsubscribeStops(pages: map<string, Page>, s: State, slug: string, token: string, key: Key)
    requires TokensApart(s) && Unsubscribes(pages, s.rows, slug, token, key)
    ensures Apply(pages, s, Unsubscribe(slug, token)).rows == s.rows[key := s.rows[key].(status := UNSUBSCRIBED)]
  {
    assert forall k :: Unsubscribes(pages, s.rows, slug, token, k) ==> k == key;
  }

  /**
   * Whoever is subscribed can leave: an ACTIVE row has an unsubscribe token, and the
   * token of any row stops that row and touches no other.
   */
  lemma UnsubscribeTokenWorks(pages: map<string, Page>, s: State, ops: seq<Op>, slug: string, key: Key)
    requires TokensApart(s) && FreshRun(pages, s, ops)
    requires key in Run(pages, s, ops).rows && OnPage(pages, slug, key)
    ensures var r := Run(pages, s, ops);
      var token := r.rows[key].unsubscribeToken;
      && (r.rows[key].status == ACTIVE ==> token.Some?)
      && (token.Some? ==>
            Apply(pages, r, Unsubscribe(slug, token.value)).rows == r.rows[key := r.rows[key].(status := UNSUBSCRIBED)])
  {
    var r := Run(pages, s, ops);
    TokensStayApart(pages, s, ops, |ops|);
    assert ops[..|ops|] == ops;
    var token := r.rows[key].unsubscribeToken;
    if token.Some? {
      UnsubscribeStops(pages, r, slug, token.value, key);
    }
  }

  /** A subscribe to a page that does not exist, is deleted or not public creates and changes nothing. */
  lemma HiddenPageRefuses(pages: map<string, Page>, s: State, slug: string, email: string, v: string, u: string)
    requires slug !in pages || pages[slug].deleted || !pages[slug].isPublic
    ensures Apply(pages, s, Subscribe(slug, email, v, u)) == s
  {
  }

  /** Once a row has an unsubscribe token it keeps it through every run, so that the links in old mails go on working. */
  lemma {:induction false} UnsubscribeTokenStays(pages: map<string, Page>, s: State, ops: seq<Op>, n: nat, key: Key)
    requires TokensApart(s) && FreshRun(pages, s, ops) && n <= |ops|
    requires key in s.rows && s.rows[key].unsubscribeToken.Some?
    ensures key in After(pages, s, ops, n).rows
    ensures After(pages, s, ops, n).rows[key].unsubscribeToken == s.rows[key].unsubscribeToken
  {
    if n > 0 {
      UnsubscribeTokenStays(pages, s, ops, n - 1, key);
      TokensStayApart(pages, s, ops, n - 1);
      AfterNext(pages, s, ops, n - 1);
      RowStep(pages, After(pages, s, ops, n - 1), ops[n - 1], key);
    }
  }

  /**
   * Unsubscribing does not withdraw a verification link that was never used: afterwards
   * some link can still make the row ACTIVE exactly when the row was waiting for one.
   */
  lemma UnsubscribeLeavesLinkIff(pages: map<string, Page>, s: State, slug: string, token: string, key: Key)
    requires TokensApart(s) && Unsubscribes(pages, s.rows, slug, token, key)
    ensures var t := Apply(pages, s, Unsubscribe(slug, token));
      && key in t.rows && t.rows[key].status == UNSUBSCRIBED
      && ((exists link :: Verifies(pages, t.rows, slug, link, key)) <==> s.rows[key].verificationToken.Some?)
      && forall link, u :: Verifies(pages, t.rows, slug, link, key) ==>
           key in Apply(pages, t, Verify(slug, link, u)).rows
           && Apply(pages, t, Verify(slug, link, u)).rows[key].status == ACTIVE
  {
    assert forall k :: Unsubscribes(pages, s.rows, slug, token, k) ==> k == key;
    var t := Apply(pages, s, Unsubscribe(slug, token));
    RowStep(pages, s, Unsubscribe(slug, token), key);
    if s.rows[key].verificationToken.Some? {
      assert Verifies(pages, t.rows, slug, s.rows[key].verificationToken.value, key);
    }
    forall link, u | Verifies(pages, t.rows, slug, link, key)
      ensures key in Apply(pages, t, Verify(slug, link, u)).rows
        && Apply(pages, t, Verify(slug, link, u)).rows[key].status == ACTIVE
    {
      assert forall k :: Verifies(pages, t.rows, slug, link, k) ==> k == key;
    }
  }

  // ---- The service ----

  datatype SubscribeResult = NoPage | AlreadyActive | NowPending(token: string)

  class Service {
    const pages: map<string, Page>
    var rows: Rows
    ghost var used: set<string>

    ghost function Abstract(): State
      reads this
    {
      State(rows, used)
    }

    /** The service works on an existing table. */
    constructor (pages: map<string, Page>, rows: Rows, ghost used: set<string>)
      ensures this.pages == pages && Abstract() == State(rows, used)
    {
      this.pages, this.rows, this.used := pages, rows, used;
    }

    /** The two tokens are generated by the caller. */
    method Subscribe(slug: string, email: string, verification: string, unsubscription: string)
      returns (result: SubscribeResult)
      modifies this
      ensures Abstract() == Apply(pages, old(Abstract()), Op.Subscribe(slug, email, verification, unsubscription))
      ensures result == (if !Accepts(pages, slug) then NoPage
                         else if Key(pages[slug].id, email) in old(rows) && old(rows)[Key(pages[slug].id, email)].status == ACTIVE
                         then AlreadyActive
                         else NowPending(verification))
    {
      if !(slug in pages && !pages[slug].deleted && pages[slug].isPublic) {
        return NoPage;
      }
      var key := Key(pages[slug].id, email);
      if key in rows && rows[key].status == ACTIVE {
        return AlreadyActive;
      }
      if key in rows {
        rows := rows[key := rows[key].(status := PENDING, verificationToken := Some(verification))];
      } else {
        rows := rows[key := Row(PENDING, Some(verification), Some(unsubscription))];
      }
      used := used + {verification, unsubscription};
      return NowPending(verification);
    }

    method VerifySubscriber(slug: string, token: string, unsubscription: string) returns (found: bool)
      requires TokensApart(Abstract())
      modifies this
      ensures Abstract() == Apply(pages, old(Abstract()), Op.Verify(slug, token, unsubscription))
      ensures found <==> exists key :: Verifies(pages, old(rows), slug, token, key)
    {
      found := exists key :: key in rows && Verifies(pages, rows, slug, token, key);
      if found {
        var key :| key in rows && Verifies(pages, rows, slug, token, key);
        assert forall k :: Verifies(pages, rows, slug, token, k) ==> k == key;
        var kept := rows[key].unsubscribeToken;
        rows := rows[key := Row(ACTIVE, None, if kept.Some? then kept else Some(unsubscription))];
        used := used + {unsubscription};
      }
    }

    method Unsubscribe(slug: string, token: string) returns (found: bool)
      requires TokensApart(Abstract())
      modifies this
      ensures Abstract() == Apply(pages, old(Abstract()), Op.Unsubscribe(slug, token))
      ensures found <==> exists key :: Unsubscribes(pages, old(rows), slug, token, key)
    {
      found := exists key :: key in rows && Unsubscribes(pages, rows, slug, token, key);
      if found {
        var key :| key in rows && Unsubscribes(pages, rows, slug, token, key);
        assert forall k :: Unsubscribes(pages, rows, slug, token, k) ==> k == key;
        rows := rows[key := rows[key].(status := UNSUBSCRIBED)];
      }
    }
  }
}
