/**
 * What the counters of the state machine mean: outside maintenance, the health of a
 * monitor is a property of its whole check history, and the number of outages it can
 * report is bounded by the number of checks.
 */
module HealthHistory {
  import opened Sequences
  import opened StateMachine

  /** The part of a monitor row that the machine reads and writes. */
  datatype Machine = Machine(health: MonitorState, failures: nat, successes: nat)

  function Decide(m: Machine, success: bool, f: Threshold, s: Threshold): TransitionResult {
    Transition(TransitionInput(m.health, success, m.failures, m.successes, f, s, false))
  }

  /** A new monitor after the checks `h` (true for a passing check), oldest first. */
  function Run(h: seq<bool>, f: Threshold, s: Threshold): Machine {
    if h == [] then Machine(Pending, 0, 0)
    else
      var r := Decide(Run(h[..|h| - 1], f, s), h[|h| - 1], f, s);
      Machine(r.state, r.failures, r.successes)
  }

  /** How many of the checks `h` asked for an incident to be opened. */
  function Opens(h: seq<bool>, f: Threshold, s: Threshold): nat {
    if h == [] then 0
    else
      var r := Decide(Run(h[..|h| - 1], f, s), h[|h| - 1], f, s);
      Opens(h[..|h| - 1], f, s) + if r.incident == Open then 1 else 0
  }

  // ---- The declarative specification: blocks of equal outcomes in the history ----

  predicate Block(h: seq<bool>, i: int, n: int, outcome: bool) {
    0 <= i && i + n <= |h| && forall k :: i <= k < i + n ==> h[k] == outcome
  }

  /** The history confirms an outage that no later block of successes has ended. */
  ghost predicate Outage(h: seq<bool>, f: Threshold, s: Threshold) {
    OutageSince(h, 0, f, s)
  }

  /** The same for outages that are confirmed after the first `a` checks, whose failures may count towards it. */
  ghost predicate OutageSince(h: seq<bool>, a: nat, f: Threshold, s: Threshold) {
    exists i :: Block(h, i, f, false) && a < i + f && Standing(h, i + f, s)
  }

  ghost predicate Standing(h: seq<bool>, from: int, s: Threshold) {
    forall j :: from <= j ==> !Block(h, j, s, true)
  }

  /** Length of the longest block of `outcome` that ends the history. */
  function Trailing(h: seq<bool>, outcome: bool): nat {
    if h == [] || h[|h| - 1] != outcome then 0 else 1 + Trailing(h[..|h| - 1], outcome)
  }

  /** From index `i` on, every check had this outcome. */
  predicate Suffix(h: seq<bool>, i: int, outcome: bool) {
    0 <= i <= |h| && forall k :: i <= k < |h| ==> h[k] == outcome
  }

  lemma {:induction false} TrailingIsLongest(h: seq<bool>, outcome: bool)
    ensures Trailing(h, outcome) <= |h|
    ensures forall i :: Suffix(h, i, outcome) <==> |h| - Trailing(h, outcome) <= i <= |h|
  {
    if h == [] {
    } else {
      var g := h[..|h| - 1];
      TrailingIsLongest(g, outcome);
      forall i ensures Suffix(h, i, outcome) <==> i == |h| || (h[|h| - 1] == outcome && Suffix(g, i, outcome)) {
        if Suffix(h, i, outcome) && i < |h| {
          assert Suffix(g, i, outcome);
        }
      }
    }
  }

  /** A block of the longer history is the new last check or a block of the shorter one. */
  lemma BlocksOfPrefix(g: seq<bool>, last: bool, n: Threshold, outcome: bool)
    ensures forall i :: Block(g + [last], i, n, outcome) <==>
      Block(g, i, n, outcome) || (i + n == |g| + 1 && Suffix(g + [last], i, outcome))
  {
    var h := g + [last];
    forall i ensures Block(h, i, n, outcome) <==>
      Block(g, i, n, outcome) || (i + n == |h| && Suffix(h, i, outcome))
    {
      assert Block(g, i, n, outcome) ==> forall k :: i <= k < i + n ==> h[k] == g[k];
      assert Block(h, i, n, outcome) && i + n < |h| ==> forall k :: i <= k < i + n ==> g[k] == h[k];
    }
  }

  lemma OutageAfterFailure(g: seq<bool>, a: nat, f: Threshold, s: Threshold)
    requires a <= |g|
    ensures var h := g + [false];
            OutageSince(h, a, f, s) <==> OutageSince(g, a, f, s) || Trailing(h, false) >= f
  {
    var h := g + [false];
    TrailingIsLongest(h, false);
    BlocksOfPrefix(g, false, f, false);
    BlocksOfPrefix(g, false, s, true);
    assert forall i :: Suffix(h, i, true) ==> i == |h| by {
      assert !h[|h| - 1];
    }
    if OutageSince(g, a, f, s) {
      var i :| Block(g, i, f, false) && a < i + f && Standing(g, i + f, s);
      assert Block(h, i, f, false) && Standing(h, i + f, s);
    }
    if Trailing(h, false) >= f {
      assert Suffix(h, |h| - f, false);
      assert Block(h, |h| - f, f, false) && Standing(h, |h| - f + f, s);
    }
    if OutageSince(h, a, f, s) {
      var i :| Block(h, i, f, false) && a < i + f && Standing(h, i + f, s);
      assert Block(g, i, f, false) ==> Standing(g, i + f, s);
    }
  }

  lemma OutageAfterSuccess(g: seq<bool>, a: nat, f: Threshold, s: Threshold)
    requires a <= |g|
    ensures var h := g + [true];
            OutageSince(h, a, f, s) <==> OutageSince(g, a, f, s) && Trailing(h, true) < s
  {
    var h := g + [true];
    TrailingIsLongest(h, true);
    BlocksOfPrefix(g, true, f, false);
    BlocksOfPrefix(g, true, s, true);
    assert forall i :: Suffix(h, i, false) ==> i == |h| by {
      assert h[|h| - 1];
    }
    if OutageSince(h, a, f, s) {
      var i :| Block(h, i, f, false) && a < i + f && Standing(h, i + f, s);
      assert Block(g, i, f, false);
      assert Standing(g, i + f, s) by {
        forall j | i + f <= j ensures !Block(g, j, s, true) {
          assert !Block(h, j, s, true);
        }
      }
      assert !Block(h, |h| - s, s, true) by {
        assert !h[i + f - 1];
      }
      assert !Suffix(h, |h| - s, true);
    }
    if OutageSince(g, a, f, s) && Trailing(h, true) < s {
      var i :| Block(g, i, f, false) && a < i + f && Standing(g, i + f, s);
      assert Block(h, i, f, false);
      assert Standing(h, i + f, s) by {
        forall j | i + f <= j ensures !Block(h, j, s, true) {
          assert !Block(g, j, s, true);
        }
      }
    }
  }

  /**
   * The five-state machine with its two counters is the history specification: it is
   * DOWN or RECOVERING exactly in a standing outage (told apart by the last check),
   * PENDING exactly before the first success and the f-th check, and UP otherwise.
   */
  lemma {:induction false} HealthIsHistory(h: seq<bool>, f: Threshold, s: Threshold)
    ensures var m := Run(h, f, s);
      && (m.health == Down <==> Outage(h, f, s) && !h[|h| - 1])
      && (m.health == Recovering <==> Outage(h, f, s) && h[|h| - 1])
      && (m.health == Pending <==> |h| < f && Suffix(h, 0, false))
      && m.health != Maintenance
      && m.failures == Trailing(h, false)
      && m.successes == Trailing(h, true)
  {
    if h == [] {
    } else {
      var g, last := h[..|h| - 1], h[|h| - 1];
      HealthIsHistory(g, f, s);
      assert h == g + [last];
      if last { OutageAfterSuccess(g, 0, f, s); } else { OutageAfterFailure(g, 0, f, s); }
      TrailingIsLongest(h, false);
      assert Suffix(h, 0, false) <==> !last && Suffix(g, 0, false);
    }
  }

  // ---- Debounce: how many outages n checks can report ----

  lemma RunAppend(g: seq<bool>, last: bool, f: Threshold, s: Threshold)
    ensures var r := Decide(Run(g, f, s), last, f, s);
      && Run(g + [last], f, s) == Machine(r.state, r.failures, r.successes)
      && Opens(g + [last], f, s) == Opens(g, f, s) + if r.incident == Open then 1 else 0
  {
    assert (g + [last])[..|g|] == g;
  }

  /** `n` checks have paid for `k` reports worth `cost` checks, with the pending counters to spare. */
  predicate Paid(m: Machine, k: nat, cost: int, n: nat, f: Threshold, s: Threshold) {
    if m.health == Down || m.health == Recovering
    then k > 0 && cost + m.successes <= n + s && m.successes < s
    else m.health != Maintenance && cost + m.failures <= n && m.failures < f
  }

  lemma CheckPays(m: Machine, k: nat, cost: int, n: nat, success: bool, f: Threshold, s: Threshold)
    requires Paid(m, k, cost, n, f, s)
    ensures var r := Decide(m, success, f, s);
      var reported := r.incident == Open;
      Paid(Machine(r.state, r.failures, r.successes),
           if reported then k + 1 else k, if reported then cost + f + s else cost, n + 1, f, s)
  {
  }

  lemma OneMoreCost(k: nat, cost: nat)
    ensures (k + 1) * cost == k * cost + cost
  {
  }

  lemma {:induction false} ChecksPayForOutages(h: seq<bool>, f: Threshold, s: Threshold)
    ensures Paid(Run(h, f, s), Opens(h, f, s), Opens(h, f, s) * (f + s), |h|, f, s)
  {
    if h != [] {
      var g, last := h[..|h| - 1], h[|h| - 1];
      ChecksPayForOutages(g, f, s);
      var k := Opens(g, f, s);
      CheckPays(Run(g, f, s), k, k * (f + s), |g|, last, f, s);
      OneMoreCost(k, f + s);
    }
  }

  /** k reports need at least k blocks of f failures with k - 1 blocks of s successes between them. */
  lemma DebounceBound(h: seq<bool>, f: Threshold, s: Threshold)
    ensures Opens(h, f, s) * (f + s) <= |h| + s
  {
    ChecksPayForOutages(h, f, s);
  }

  function Repeat(outcome: bool, n: nat): seq<bool> {
    if n == 0 then [] else Repeat(outcome, n - 1) + [outcome]
  }

  /** f failures, then k times: s successes and f failures. */
  function Oscillation(k: nat, f: Threshold, s: Threshold): seq<bool> {
    if k == 0 then Repeat(false, f) else Oscillation(k - 1, f, s) + Repeat(true, s) + Repeat(false, f)
  }

  lemma {:induction false} RepeatLength(outcome: bool, n: nat)
    ensures |Repeat(outcome, n)| == n
  {
    if n > 0 {
      RepeatLength(outcome, n - 1);
    }
  }

  predicate Passing(m: Machine, failures: nat) {
    (m.health == Up || m.health == Pending) && m.failures == failures
  }

  lemma FailOnce(g: seq<bool>, n: nat, f: Threshold, s: Threshold)
    requires Passing(Run(g, f, s), n) && n < f
    ensures var m := Run(g + [false], f, s);
      if n + 1 < f then Passing(m, n + 1) else m.health == Down
    ensures Opens(g + [false], f, s) == Opens(g, f, s) + if n + 1 < f then 0 else 1
  {
    RunAppend(g, false, f, s);
  }

  lemma {:induction false} RunFailures(h: seq<bool>, n: nat, f: Threshold, s: Threshold)
    requires Passing(Run(h, f, s), 0) && n <= f
    ensures var m := Run(h + Repeat(false, n), f, s);
      if n < f then Passing(m, n) else m.health == Down
    ensures Opens(h + Repeat(false, n), f, s) == Opens(h, f, s) + if n < f then 0 else 1
  {
    if n == 0 {
      assert h + Repeat(false, 0) == h;
    } else {
      RunFailures(h, n - 1, f, s);
      assert h + Repeat(false, n) == h + Repeat(false, n - 1) + [false] by {
        JoinInOrder(h, Repeat(false, n - 1), [false]);
      }
      FailOnce(h + Repeat(false, n - 1), n - 1, f, s);
    }
  }

  predicate Failing(m: Machine, successes: nat) {
    (m.health == Down || m.health == Recovering) && m.successes == successes
  }

  lemma PassOnce(g: seq<bool>, n: nat, f: Threshold, s: Threshold)
    requires Failing(Run(g, f, s), n) && n < s
    ensures var m := Run(g + [true], f, s);
      if n + 1 < s then Failing(m, n + 1) else m.health == Up && m.failures == 0
    ensures Opens(g + [true], f, s) == Opens(g, f, s)
  {
    RunAppend(g, true, f, s);
  }

  lemma OneMoreSuccess(h: seq<bool>, n: nat)
    requires 1 <= n
    ensures h + Repeat(true, n) == h + Repeat(true, n - 1) + [true]
  {
    JoinInOrder(h, Repeat(true, n - 1), [true]);
  }

  lemma {:induction false} RunSuccesses(h: seq<bool>, n: nat, f: Threshold, s: Threshold)
    requires Failing(Run(h, f, s), 0) && n <= s
    ensures var m := Run(h + Repeat(true, n), f, s);
      if n < s then Failing(m, n) else m.health == Up && m.failures == 0
    ensures Opens(h + Repeat(true, n), f, s) == Opens(h, f, s)
  {
    if n == 0 {
      assert h + Repeat(true, 0) == h;
    } else {
      RunSuccesses(h, n - 1, f, s);
      PassOnce(h + Repeat(true, n - 1), n - 1, f, s);
      OneMoreSuccess(h, n);
    }
  }

  lemma {:induction false} OscillationReports(k: nat, f: Threshold, s: Threshold)
    ensures Opens(Oscillation(k, f, s), f, s) == k + 1 && Run(Oscillation(k, f, s), f, s).health == Down
  {
    if k == 0 {
      RunFailures([], f, f, s);
      assert [] + Repeat(false, f) == Repeat(false, f);
    } else {
      OscillationReports(k - 1, f, s);
      OneMoreOutage(Oscillation(k - 1, f, s), f, s);
    }
  }

  lemma {:induction false} OscillationLength(k: nat, f: Threshold, s: Threshold)
    ensures |Oscillation(k, f, s)| + s == (k + 1) * (f + s)
  {
    RepeatLength(false, f);
    RepeatLength(true, s);
    if k > 0 {
      OscillationLength(k - 1, f, s);
      assert (k + 1) * (f + s) == k * (f + s) + f + s;
    }
  }

  /** The bound is attained for every number of reports, so it is the best possible one. */
  lemma DebounceBoundIsTight(k: nat, f: Threshold, s: Threshold)
    ensures var h := Oscillation(k, f, s);
      Opens(h, f, s) == k + 1 && Opens(h, f, s) * (f + s) == |h| + s
  {
    OscillationReports(k, f, s);
    OscillationLength(k, f, s);
  }

  /** From DOWN, s successes and f failures report one more outage. */
  lemma OneMoreOutage(g: seq<bool>, f: Threshold, s: Threshold)
    requires Run(g, f, s).health == Down
    ensures var h := g + Repeat(true, s) + Repeat(false, f);
      Run(h, f, s).health == Down && Opens(h, f, s) == Opens(g, f, s) + 1
  {
    HealthIsHistory(g, f, s);
    RunSuccesses(g, s, f, s);
    RunFailures(g + Repeat(true, s), f, f, s);
  }
}
