// src/shared/rate_limit.rs: the in-memory limiter in front of the sensitive endpoints.
module RateLimiter {
  import opened Common

  datatype Rule = Rule(maxAttempts: nat, window: nat)

  datatype Entry = Entry(count: nat, resetAt: Time)

  type Entries = map<string, Entry>

  const PRUNE_ABOVE: nat := 4_096

  /** `retain` the entries whose window is still open. */
  function Prune(entries: Entries, now: Time): Entries {
    map key | key in entries && entries[key].resetAt > now :: entries[key]
  }

  function Fresh(rule: Rule, now: Time): Entry {
    Entry(0, now + rule.window)
  }

  /** The entry a call is judged by: absent and elapsed entries start a new window. */
  function Judged(entries: Entries, key: string, rule: Rule, now: Time): Entry {
    if key in entries && entries[key].resetAt > now then entries[key] else Fresh(rule, now)
  }

  datatype Call = Call(key: string, rule: Rule, now: Time)

  predicate Allows(entries: Entries, c: Call) {
    Judged(entries, c.key, c.rule, c.now).count < c.rule.maxAttempts
  }

  /** A limiter that never forgets an entry. */
  function Next(entries: Entries, c: Call): Entries {
    var e := Judged(entries, c.key, c.rule, c.now);
    entries[c.key := if e.count < c.rule.maxAttempts then e.(count := e.count + 1) else e]
  }

  /** The limiter of the source, which drops elapsed entries once it holds too many. */
  function PruningNext(entries: Entries, c: Call): Entries {
    Next(if |entries| > PRUNE_ABOVE then Prune(entries, c.now) else entries, c)
  }

  // ---- the limiter itself ----

  class Limiter {
    var entries: Entries

    constructor ()
      ensures entries == map[]
    {
      entries := map[];
    }

    method Check(key: string, rule: Rule, now: Time) returns (ok: bool)
      modifies this
      ensures ok <==> Allows(old(entries), Call(key, rule, now))
      ensures entries == PruningNext(old(entries), Call(key, rule, now))
    {
      if |entries| > PRUNE_ABOVE {
        entries := Prune(entries, now);
      }
      ghost var kept := entries;
      if key !in entries {
        entries := entries[key := Entry(0, now + rule.window)];
      }
      if entries[key].resetAt <= now {
        entries := entries[key := Entry(0, now + rule.window)];
      }
      var entry := entries[key];
      assert entry == Judged(kept, key, rule, now) == Judged(old(entries), key, rule, now);
      if entry.count >= rule.maxAttempts {
        return false;
      }
      entries := entries[key := Entry(entry.count + 1, entry.resetAt)];
      return true;
    }
  }

  // ---- runs ----

  ghost predicate Ordered(calls: seq<Call>) {
    forall i, j :: 0 <= i <= j < |calls| ==> calls[i].now <= calls[j].now
  }

  /** The entries after a run of calls on an empty limiter, pruning or not. */
  function Run(calls: seq<Call>, pruning: bool): Entries {
    if calls == [] then map[]
    else
      var before, c := Run(calls[..|calls| - 1], pruning), calls[|calls| - 1];
      if pruning then PruningNext(before, c) else Next(before, c)
  }

  /** The answer to the `i`-th call of a run. */
  predicate Allowed(calls: seq<Call>, i: nat, pruning: bool)
    requires i < |calls|
  {
    Allows(Run(calls[..i], pruning), calls[i])
  }

  // ---- pruning is invisible ----

  /** The two limiters agree on every window still open at `now`. */
  ghost predicate Agree(pruned: Entries, full: Entries, now: Time) {
    && (forall key :: key in pruned ==> key in full && pruned[key] == full[key])
    && (forall key :: key in full && full[key].resetAt > now ==> key in pruned)
  }

  lemma AgreeStep(pruned: Entries, full: Entries, c: Call, later: Time)
    requires Agree(pruned, full, c.now) && c.now <= later
    ensures Allows(pruned, c) <==> Allows(full, c)
    ensures Agree(PruningNext(pruned, c), Next(full, c), later)
  {
  }

  lemma {:induction false} RunsAgree(calls: seq<Call>, now: Time)
    requires Ordered(calls) && (calls != [] ==> calls[|calls| - 1].now <= now)
    ensures Agree(Run(calls, true), Run(calls, false), now)
  {
    if calls != [] {
      var n := |calls| - 1;
      RunsAgree(calls[..n], calls[n].now);
      AgreeStep(Run(calls[..n], true), Run(calls[..n], false), calls[n], now);
    }
  }

  /** Pruning above 4096 entries changes no answer of any run with a non-decreasing clock. */
  lemma PruningIsInvisible(calls: seq<Call>, i: nat)
    requires Ordered(calls) && i < |calls|
    ensures Allowed(calls, i, true) <==> Allowed(calls, i, false)
  {
    RunsAgree(calls[..i], calls[i].now);
    AgreeStep(Run(calls[..i], true), Run(calls[..i], false), calls[i], calls[i].now);
  }

  /** Pruning does happen: a call that finds more than 4096 entries leaves only open windows, and
      the entries of other keys otherwise stay as they are. */
  lemma PruningForgetsElapsed(entries: Entries, c: Call, key: string)
    requires key != c.key
    ensures key in PruningNext(entries, c) <==> key in entries && (|entries| > 4_096 ==> c.now < entries[key].resetAt)
    ensures key in PruningNext(entries, c) ==> PruningNext(entries, c)[key] == entries[key]
  {
  }

  // ---- how many calls get through ----

  /** Successful calls for `key` among calls number i, ..., j - 1. */
  function Successes(calls: seq<Call>, key: string, i: nat, j: nat, pruning: bool): nat
    requires i <= j <= |calls|
    decreases j
  {
    if i == j then 0
    else
      Successes(calls, key, i, j - 1, pruning)
      + if calls[j - 1].key == key && Allowed(calls, j - 1, pruning) then 1 else 0
  }

  /** Every call made with `key` uses the same rule. */
  ghost predicate FixedRule(calls: seq<Call>, key: string, rule: Rule) {
    forall i :: 0 <= i < |calls| && calls[i].key == key ==> calls[i].rule == rule
  }

  /** The entry of `key` relative to an interval that starts at time `start` with call i:
      n successes so far, none if the window was over by then, and no more than the current
      window counts unless that window began strictly inside the interval. */
  ghost predicate Accounted(entries: Entries, key: string, rule: Rule, start: Time, n: nat) {
    if key !in entries then n == 0
    else
      var e := entries[key];
      && e.count <= rule.maxAttempts
      && (e.resetAt <= start ==> n == 0)
      && (e.resetAt <= start + rule.window ==> n <= e.count)
      && n <= rule.maxAttempts + e.count
  }

  lemma AccountedStep(entries: Entries, c: Call, key: string, rule: Rule, start: Time, n: nat)
    requires rule.window > 0 && (c.key == key ==> c.rule == rule)
    requires Accounted(entries, key, rule, start, n)
    requires start <= c.now <= start + rule.window
    ensures Accounted(Next(entries, c), key, rule, start, n + if c.key == key && Allows(entries, c) then 1 else 0)
  {
  }

  lemma {:induction false} CountWithinRule(calls: seq<Call>, key: string, rule: Rule)
    requires FixedRule(calls, key, rule)
    ensures key in Run(calls, false) ==> Run(calls, false)[key].count <= rule.maxAttempts
  {
    if calls != [] {
      var n := |calls| - 1;
      assert forall i :: 0 <= i < n ==> calls[..n][i] == calls[i];
      CountWithinRule(calls[..n], key, rule);
    }
  }

  lemma {:induction false} IntervalAccounted(calls: seq<Call>, key: string, rule: Rule, i: nat, j: nat)
    requires Ordered(calls) && FixedRule(calls, key, rule) && rule.window > 0
    requires i < |calls| && i <= j <= |calls|
    requires i < j ==> calls[j - 1].now <= calls[i].now + rule.window
    ensures Accounted(Run(calls[..j], false), key, rule, calls[i].now, Successes(calls, key, i, j, false))
    decreases j
  {
    if i == j {
      assert forall k :: 0 <= k < i ==> calls[..i][k] == calls[k];
      CountWithinRule(calls[..i], key, rule);
    } else {
      IntervalAccounted(calls, key, rule, i, j - 1);
      assert calls[..j][..j - 1] == calls[..j - 1];
      AccountedStep(Run(calls[..j - 1], false), calls[j - 1], key, rule, calls[i].now,
                    Successes(calls, key, i, j - 1, false));
    }
  }

  lemma {:induction false} SuccessesAgree(calls: seq<Call>, key: string, i: nat, j: nat)
    requires Ordered(calls) && i <= j <= |calls|
    ensures Successes(calls, key, i, j, true) == Successes(calls, key, i, j, false)
    decreases j
  {
    if i < j {
      SuccessesAgree(calls, key, i, j - 1);
      PruningIsInvisible(calls, j - 1);
    }
  }

  /** In every closed interval as long as the window, at most twice the limit gets through,
      whatever other keys and rules the limiter serves and however it prunes. */
  lemma WindowBound(calls: seq<Call>, key: string, rule: Rule, i: nat, j: nat)
    requires Ordered(calls) && FixedRule(calls, key, rule) && rule.window > 0
    requires i < j <= |calls| && calls[j - 1].now - calls[i].now <= rule.window
    ensures Successes(calls, key, i, j, true) <= 2 * rule.maxAttempts
  {
    IntervalAccounted(calls, key, rule, i, j);
    SuccessesAgree(calls, key, i, j);
  }

  /** As many calls as the limit at time 0, and as many again one window later. */
  function TwoBursts(rule: Rule): (calls: seq<Call>)
    ensures |calls| == 2 * rule.maxAttempts
  {
    seq(2 * rule.maxAttempts, i requires 0 <= i => Call("k", rule, if i < rule.maxAttempts then 0 else rule.window))
  }

  /** The entry after j of those calls. */
  function BurstEntry(rule: Rule, j: nat): Entry {
    if j <= rule.maxAttempts then Entry(j, rule.window) else Entry(j - rule.maxAttempts, 2 * rule.window)
  }

  lemma BurstStep(rule: Rule, entries: Entries, j: nat)
    requires rule.window > 0 && j < 2 * rule.maxAttempts
    requires if j == 0 then "k" !in entries else "k" in entries && entries["k"] == BurstEntry(rule, j)
    ensures Allows(entries, TwoBursts(rule)[j])
    ensures Next(entries, TwoBursts(rule)[j]) == entries["k" := BurstEntry(rule, j + 1)]
  {
  }

  lemma RunOneMore(calls: seq<Call>, j: nat)
    requires 0 < j <= |calls|
    ensures Run(calls[..j], false) == Next(Run(calls[..j - 1], false), calls[j - 1])
  {
    assert calls[..j][..j - 1] == calls[..j - 1];
  }

  lemma {:induction false} BurstsPass(rule: Rule, j: nat)
    requires rule.window > 0 && j <= 2 * rule.maxAttempts
    ensures var entries := Run(TwoBursts(rule)[..j], false);
            if j == 0 then "k" !in entries else "k" in entries && entries["k"] == BurstEntry(rule, j)
    ensures Successes(TwoBursts(rule), "k", 0, j, false) == j
  {
    if j > 0 {
      var calls := TwoBursts(rule);
      BurstsPass(rule, j - 1);
      BurstStep(rule, Run(calls[..j - 1], false), j - 1);
      RunOneMore(calls, j);
    }
  }

  /** Twice the limit is reached, whatever the limit: a burst at each end of the interval. */
  lemma WindowBoundIsTight(rule: Rule)
    requires rule.window > 0
    ensures Ordered(TwoBursts(rule)) && FixedRule(TwoBursts(rule), "k", rule)
    ensures forall i, j :: 0 <= i < j < |TwoBursts(rule)| ==> TwoBursts(rule)[j].now - TwoBursts(rule)[i].now <= rule.window
    ensures Successes(TwoBursts(rule), "k", 0, 2 * rule.maxAttempts, true) == 2 * rule.maxAttempts
  {
    BurstsPass(rule, 2 * rule.maxAttempts);
    SuccessesAgree(TwoBursts(rule), "k", 0, 2 * rule.maxAttempts);
  }

  /** With a zero-length window every entry has elapsed by the next call. */
  lemma {:induction false} ZeroWindowElapsed(calls: seq<Call>, key: string, rule: Rule, now: Time)
    requires Ordered(calls) && FixedRule(calls, key, rule) && rule.window == 0
    requires calls != [] ==> calls[|calls| - 1].now <= now
    ensures key in Run(calls, false) ==> Run(calls, false)[key].resetAt <= now
  {
    if calls != [] {
      var n := |calls| - 1;
      assert forall i :: 0 <= i < n ==> calls[..n][i] == calls[i];
      ZeroWindowElapsed(calls[..n], key, rule, calls[n].now);
    }
  }

  /** A zero-length window limits nothing: every call is allowed if any may be. */
  lemma ZeroWindowAllowsAll(calls: seq<Call>, key: string, rule: Rule, j: nat)
    requires Ordered(calls) && FixedRule(calls, key, rule) && rule.window == 0 && rule.maxAttempts > 0
    requires j < |calls| && calls[j].key == key
    ensures Allowed(calls, j, true)
  {
    PruningIsInvisible(calls, j);
    assert forall i :: 0 <= i < j ==> calls[..j][i] == calls[i];
    ZeroWindowElapsed(calls[..j], key, rule, calls[j].now);
  }

  /** Under this rule every interval of one window length lets at most twice the limit through. */
  ghost predicate Bounded(rule: Rule) {
    forall calls: seq<Call>, key, i: nat, j: nat ::
      (Ordered(calls) && FixedRule(calls, key, rule) && i < j <= |calls| && calls[j - 1].now - calls[i].now <= rule.window)
      ==> Successes(calls, key, i, j, true) <= 2 * rule.maxAttempts
  }

  lemma {:induction false} ZeroLimitAllowsNone(calls: seq<Call>, key: string, rule: Rule, i: nat, j: nat)
    requires FixedRule(calls, key, rule) && rule.maxAttempts == 0 && i <= j <= |calls|
    ensures Successes(calls, key, i, j, true) == 0
    decreases j
  {
    if i < j {
      ZeroLimitAllowsNone(calls, key, rule, i, j - 1);
    }
  }

  /** More calls at one moment than the bound allows. */
  lemma {:induction false} ZeroWindowExceeds(rule: Rule, n: nat)
    requires rule.window == 0 && rule.maxAttempts > 0
    ensures var calls := seq(n, _ => Call("k", rule, 0)); Successes(calls, "k", 0, n, true) == n
  {
    var calls := seq(n, _ => Call("k", rule, 0));
    for j := 0 to n
      invariant Successes(calls, "k", 0, j, true) == j
    {
      ZeroWindowAllowsAll(calls, "k", rule, j);
    }
  }

  /** The bound holds of a rule if and only if its window is positive or its limit is zero. */
  lemma BoundedIff(rule: Rule)
    ensures Bounded(rule) <==> rule.window > 0 || rule.maxAttempts == 0
  {
    forall calls: seq<Call>, key, i: nat, j: nat |
      Ordered(calls) && FixedRule(calls, key, rule) && i < j <= |calls| && calls[j - 1].now - calls[i].now <= rule.window
      && (rule.window > 0 || rule.maxAttempts == 0)
      ensures Successes(calls, key, i, j, true) <= 2 * rule.maxAttempts
    {
      if rule.window > 0 {
        WindowBound(calls, key, rule, i, j);
      } else {
        ZeroLimitAllowsNone(calls, key, rule, i, j);
      }
    }
    if rule.window == 0 && rule.maxAttempts > 0 {
      var n := 2 * rule.maxAttempts + 1;
      var calls := seq(n, _ => Call("k", rule, 0));
      ZeroWindowExceeds(rule, n);
      assert Ordered(calls) && FixedRule(calls, "k", rule);
      assert Successes(calls, "k", 0, n, true) > 2 * rule.maxAttempts;
    }
  }

  lemma OneWindowStep(entries: Entries, c: Call, key: string)
    requires key in entries && c.now < entries[key].resetAt
    ensures key in Next(entries, c) && Next(entries, c)[key].resetAt == entries[key].resetAt
    ensures Next(entries, c)[key].count == entries[key].count + if c.key == key && Allows(entries, c) then 1 else 0
  {
  }

  /** Calls number i, ..., j - 1 all fall inside an open window of `key`. */
  ghost predicate OneWindow(calls: seq<Call>, key: string, i: nat, j: nat)
    requires i <= j <= |calls|
  {
    && (forall k :: i <= k <= j ==> key in Run(calls[..k], false))
    && (forall k :: i <= k < j ==> calls[k].now < Run(calls[..k], false)[key].resetAt)
  }

  lemma OneCallMore(calls: seq<Call>, key: string, i: nat, j: nat)
    requires i < j <= |calls| && OneWindow(calls, key, i, j)
    ensures OneWindow(calls, key, i, j - 1)
    ensures Run(calls[..j], false) == Next(Run(calls[..j - 1], false), calls[j - 1])
    ensures key in Run(calls[..j - 1], false) && calls[j - 1].now < Run(calls[..j - 1], false)[key].resetAt
  {
    assert calls[..j][..j - 1] == calls[..j - 1];
  }

  lemma {:induction false} WindowGrowth(calls: seq<Call>, key: string, i: nat, j: nat)
    requires i <= j <= |calls| && OneWindow(calls, key, i, j)
    ensures Run(calls[..j], false)[key].resetAt == Run(calls[..i], false)[key].resetAt
    ensures Successes(calls, key, i, j, false) == Run(calls[..j], false)[key].count - Run(calls[..i], false)[key].count
    decreases j
  {
    if i < j {
      OneCallMore(calls, key, i, j);
      WindowGrowth(calls, key, i, j - 1);
      OneWindowStep(Run(calls[..j - 1], false), calls[j - 1], key);
    }
  }

  /** Inside one window a key gets at most the limit: the entry keeps its reset time, and the
      successes are exactly what its count grew by (from 1, if call i - 1 opened the window). */
  lemma OneWindowBound(calls: seq<Call>, key: string, rule: Rule, i: nat, j: nat)
    requires FixedRule(calls, key, rule) && i <= j <= |calls| && OneWindow(calls, key, i, j)
    ensures Run(calls[..j], false)[key].resetAt == Run(calls[..i], false)[key].resetAt
    ensures Successes(calls, key, i, j, false) == Run(calls[..j], false)[key].count - Run(calls[..i], false)[key].count
    ensures Run(calls[..i], false)[key].count + Successes(calls, key, i, j, false) <= rule.maxAttempts
  {
    CountAfter(calls, key, rule, j);
    WindowGrowth(calls, key, i, j);
  }

  lemma CountAfter(calls: seq<Call>, key: string, rule: Rule, j: nat)
    requires FixedRule(calls, key, rule) && j <= |calls|
    ensures key in Run(calls[..j], false) ==> Run(calls[..j], false)[key].count <= rule.maxAttempts
  {
    assert forall k :: 0 <= k < j ==> calls[..j][k] == calls[k];
    CountWithinRule(calls[..j], key, rule);
  }

  /** The call that opened the window an entry belongs to: all the entry counts came since. */
  lemma {:induction false} WindowOpening(calls: seq<Call>, key: string, rule: Rule, j: nat) returns (i: nat)
    requires FixedRule(calls, key, rule) && j <= |calls| && key in Run(calls[..j], false)
    ensures i < j && calls[i].now + rule.window == Run(calls[..j], false)[key].resetAt
    ensures Successes(calls, key, i, j, false) == Run(calls[..j], false)[key].count
    decreases j
  {
    assert j > 0;
    var before, c := Run(calls[..j - 1], false), calls[j - 1];
    assert calls[..j][..j - 1] == calls[..j - 1];
    if c.key == key && !(key in before && before[key].resetAt > c.now) {
      i := j - 1;
      assert Successes(calls, key, i, i, false) == 0;
    } else {
      i := WindowOpening(calls, key, rule, j - 1);
    }
  }

  /** The limiter never refuses a key that is under its limit: a refusal at time t means that
      `maxAttempts` calls got through less than one window before t. */
  lemma RefusalMeansLimitReached(calls: seq<Call>, key: string, rule: Rule, j: nat)
    requires Ordered(calls) && FixedRule(calls, key, rule) && rule.window > 0
    requires j < |calls| && calls[j].key == key && !Allowed(calls, j, true)
    ensures exists i: nat :: i <= j && calls[j].now - calls[i].now < rule.window
                        && Successes(calls, key, i, j, true) >= rule.maxAttempts
  {
    PruningIsInvisible(calls, j);
    var entries := Run(calls[..j], false);
    if key in entries && entries[key].resetAt > calls[j].now {
      var i := WindowOpening(calls, key, rule, j);
      SuccessesAgree(calls, key, i, j);
    } else {
      assert Successes(calls, key, j, j, true) == 0;
    }
  }
}
