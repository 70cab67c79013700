/**
 The login throttle: an in-memory failure counter per key with lockout and garbage collection,
 and the two-level guard built from it (apps/syslog-bucket/internal/auth/throttle.go).
 */
module Throttle {
  import opened Common

  /** `fixed` counts per window from the first failure; otherwise the count slides. */
  datatype Limits = Limits(max: int, window: int, fixed: bool)

  datatype Attempt = Attempt(count: int, start: int, until: Option<int>, seen: int)

  type Table = map<string, Attempt>

  // ----- the operations as functions of the table

  /** Idle for more than a window and past any lockout. */
  predicate Stale(l: Limits, a: Attempt, now: int) {
    now - a.seen > l.window && (a.until.Some? ==> now > a.until.value)
  }

  function Collected(l: Limits, t: Table, now: int): Table {
    map k | k in t && !Stale(l, t[k], now) :: t[k]
  }

  /** The retry-after duration while a lockout runs. */
  function Blocked(t: Table, key: string, now: int): Option<int> {
    if key in t && t[key].until.Some? && now < t[key].until.value then Some(t[key].until.value - now) else None
  }

  predicate Expired(l: Limits, t: Table, key: string, now: int) {
    key !in t || now - t[key].seen > l.window || (l.fixed && now - t[key].start > l.window)
  }

  function Failed(l: Limits, t: Table, key: string, now: int): Table {
    var a := if Expired(l, t, key, now) then Attempt(0, now, None, now) else t[key];
    var b := a.(count := a.count + 1, seen := now);
    t[key := if b.count >= l.max then Attempt(0, now + l.window, Some(now + l.window), now) else b]
  }

  // ----- the throttle as the program has it

  class Counter {
    const limits: Limits
    var entries: Table

    constructor (limits: Limits)
      ensures this.limits == limits && entries == map[]
    {
      this.limits, entries := limits, map[];
    }

    /** Drops entries idle for more than one window. */
    method Gc(now: int)
      modifies this
      ensures entries == Collected(limits, old(entries), now)
    {
      var todo := entries.Keys;
      while todo != {}
        invariant todo <= old(entries).Keys
        invariant entries.Keys <= old(entries).Keys && forall k | k in entries :: entries[k] == old(entries)[k]
        invariant forall k | k in old(entries) ::
          k in entries <==> k in todo || !Stale(limits, old(entries)[k], now)
        decreases todo
      {
        var k :| k in todo;
        todo := todo - {k};
        if Stale(limits, entries[k], now) {
          entries := entries - {k};
        }
      }
    }

    method Allow(key: string, now: int) returns (ok: bool, retry: int)
      modifies this
      ensures entries == Collected(limits, old(entries), now)
      ensures ok <==> Blocked(entries, key, now).None?
      ensures !ok ==> Blocked(entries, key, now) == Some(retry) && retry > 0
    {
      Gc(now);
      if key !in entries {
        return true, 0;
      }
      var a := entries[key];
      if a.until.Some? && now < a.until.value {
        return false, a.until.value - now;
      }
      return true, 0;
    }

    method Fail(key: string, now: int)
      modifies this
      ensures entries == Failed(limits, old(entries), key, now)
    {
      var expired := key !in entries || now - entries[key].seen > limits.window;
      if key in entries && limits.fixed && now - entries[key].start > limits.window {
        expired := true;
      }
      var a := Attempt(0, now, None, now);
      if !expired {
        a := entries[key];
      }
      a := a.(count := a.count + 1);
      a := a.(seen := now);
      if a.count >= limits.max {
        a := a.(until := Some(now + limits.window));
        a := a.(count := 0);
        a := a.(start := now + limits.window);
      }
      entries := entries[key := a];
    }

    method Reset(key: string)
      modifies this
      ensures entries == old(entries) - {key}
    {
      entries := entries - {key};
    }
  }

  // ----- garbage collection is unobservable

  datatype Op = AllowOp(key: string, now: int) | FailOp(key: string, now: int) | ResetOp(key: string, now: int)

  ghost predicate Monotone(now: int, ops: seq<Op>)
    decreases |ops|
  {
    ops == [] || (now <= ops[0].now && Monotone(ops[0].now, ops[1..]))
  }

  /** One operation's new table and, for an allow, its answer. `collect` turns collection on. */
  function Perform(l: Limits, t: Table, op: Op, collect: bool): (Table, Option<int>) {
    match op
    case AllowOp(key, now) =>
      var t' := if collect then Collected(l, t, now) else t;
      (t', Blocked(t', key, now))
    case FailOp(key, now) => (Failed(l, t, key, now), None)
    case ResetOp(key, _) => (t - {key}, None)
  }

  function Answers(l: Limits, t: Table, ops: seq<Op>, collect: bool): (answers: seq<Option<int>>)
    ensures |answers| == |ops|
    decreases |ops|
  {
    if ops == [] then []
    else var (t', answer) := Perform(l, t, ops[0], collect); [answer] + Answers(l, t', ops[1..], collect)
  }

  /** `few` is `all` without some entries that are stale by now. */
  ghost predicate SameButStale(l: Limits, few: Table, all: Table, now: int) {
    && (forall k | k in few :: k in all && few[k] == all[k])
    && (forall k | k in all && k !in few :: Stale(l, all[k], now))
  }

  lemma PerformAgrees(l: Limits, few: Table, all: Table, before: int, op: Op)
    requires SameButStale(l, few, all, before) && before <= op.now
    ensures SameButStale(l, Perform(l, few, op, true).0, Perform(l, all, op, false).0, op.now)
    ensures Perform(l, few, op, true).1 == Perform(l, all, op, false).1
  {
  }

  /** A table that forgets answers every sequence of operations like one that never does. */
  lemma {:induction false} CollectionUnobservable(l: Limits, few: Table, all: Table, now: int, ops: seq<Op>)
    requires SameButStale(l, few, all, now) && Monotone(now, ops)
    ensures Answers(l, few, ops, true) == Answers(l, all, ops, false)
    decreases |ops|
  {
    if ops == [] {
    } else {
      PerformAgrees(l, few, all, now, ops[0]);
      CollectionUnobservable(l, Perform(l, few, ops[0], true).0, Perform(l, all, ops[0], false).0, ops[0].now, ops[1..]);
    }
  }

  // ----- the lockout fires, in both modes

  function RunOps(l: Limits, t: Table, ops: seq<Op>): Table
    decreases |ops|
  {
    if ops == [] then t else RunOps(l, Perform(l, t, ops[0], true).0, ops[1..])
  }

  /** How many failures of the key these operations record. */
  function Fails(ops: seq<Op>, key: string): nat {
    if ops == [] then 0 else (if ops[0].FailOp? && ops[0].key == key then 1 else 0) + Fails(ops[1..], key)
  }

  /**
   No reset of the key, and its failures stay in one window: each within a window of the one before
   and, in fixed mode, of the first. Other keys may do anything.
   */
  ghost predicate InWindow(l: Limits, first: int, last: int, ops: seq<Op>, key: string)
    decreases |ops|
  {
    ops == [] ||
    match ops[0]
    case FailOp(k, now) =>
      if k == key then now - last <= l.window && (l.fixed ==> now - first <= l.window) && InWindow(l, first, now, ops[1..], key)
      else InWindow(l, first, last, ops[1..], key)
    case ResetOp(k, _) => k != key && InWindow(l, first, last, ops[1..], key)
    case AllowOp(_, _) => InWindow(l, first, last, ops[1..], key)
  }

  /** The key has k failures in its window, fewer than lock it. */
  ghost predicate Counting(l: Limits, t: Table, key: string, first: int, last: int, k: nat) {
    key in t && t[key] == Attempt(k, first, None, last) && 0 < k < l.max
  }

  /** While a failure is still to come within the window, the present is within the window too. */
  lemma {:induction false} BeforeNextFailure(l: Limits, now: int, first: int, last: int, ops: seq<Op>, key: string)
    requires Monotone(now, ops) && InWindow(l, first, last, ops, key) && Fails(ops, key) > 0
    ensures ops[0].now - last <= l.window
    decreases |ops|
  {
    if ops[0].FailOp? && ops[0].key == key {
    } else {
      BeforeNextFailure(l, ops[0].now, first, last, ops[1..], key);
    }
  }

  /** One operation before the last failure: the count goes up by a failure of the key, and by nothing else. */
  lemma OpCounts(l: Limits, t: Table, key: string, first: int, last: int, k: nat, op: Op)
    requires Counting(l, t, key, first, last, k) && op.now - last <= l.window
    requires !(op.ResetOp? && op.key == key)
    requires op.FailOp? && op.key == key ==> (l.fixed ==> op.now - first <= l.window) && k + 1 < l.max
    ensures var after := Perform(l, t, op, true).0;
            if op.FailOp? && op.key == key then Counting(l, after, key, first, op.now, k + 1) else Counting(l, after, key, first, last, k)
    ensures op.AllowOp? && op.key == key ==> Perform(l, t, op, true).1 == None
  {
  }

  /**
   The max-th failure in the window arms the lockout, for one window from that failure; every
   attempt before it is let through.
   */
  lemma {:induction false} LocksOut(l: Limits, t: Table, now: int, ops: seq<Op>, key: string, first: int, last: int, k: nat)
    requires Counting(l, t, key, first, last, k) && Monotone(now, ops) && InWindow(l, first, last, ops, key)
    requires ops != [] && ops[|ops| - 1].FailOp? && ops[|ops| - 1].key == key && k + Fails(ops, key) == l.max
    ensures var at := ops[|ops| - 1].now + l.window;
            key in RunOps(l, t, ops) && RunOps(l, t, ops)[key] == Attempt(0, at, Some(at), ops[|ops| - 1].now)
    ensures forall i | 0 <= i < |ops| && ops[i].AllowOp? && ops[i].key == key :: Answers(l, t, ops, true)[i] == None
    decreases |ops|
  {
    var op, rest := ops[0], ops[1..];
    LastFails(ops, key);
    BeforeNextFailure(l, now, first, last, ops, key);
    if rest != [] {
      LastFails(rest, key);
      assert rest[|rest| - 1] == ops[|ops| - 1];
      OpCounts(l, t, key, first, last, k, op);
      var t' := Perform(l, t, op, true).0;
      if op.FailOp? && op.key == key {
        LocksOut(l, t', op.now, rest, key, first, op.now, k + 1);
      } else {
        LocksOut(l, t', op.now, rest, key, first, last, k);
      }
      assert forall i | 0 < i < |ops| :: ops[i] == rest[i - 1] && Answers(l, t, ops, true)[i] == Answers(l, t', rest, true)[i - 1];
    }
  }

  lemma {:induction false} LastFails(ops: seq<Op>, key: string)
    requires ops != [] && ops[|ops| - 1].FailOp? && ops[|ops| - 1].key == key
    ensures Fails(ops, key) > 0
  {
    if |ops| > 1 { LastFails(ops[1..], key); }
  }

  /**
   In either mode, max failures of a key in one window, the first of which opens it, arm the
   lockout for one window from the last of them, whatever happens to other keys.
   */
  lemma LockoutFires(l: Limits, t: Table, now: int, ops: seq<Op>, key: string)
    requires l.max >= 1 && l.window >= 0 && Monotone(now, ops) && ops != []
    requires ops[0].FailOp? && ops[0].key == key && Expired(l, t, key, ops[0].now)
    requires InWindow(l, ops[0].now, ops[0].now, ops[1..], key)
    requires ops[|ops| - 1].FailOp? && ops[|ops| - 1].key == key && Fails(ops, key) == l.max
    ensures var at := ops[|ops| - 1].now + l.window;
            key in RunOps(l, t, ops) && RunOps(l, t, ops)[key] == Attempt(0, at, Some(at), ops[|ops| - 1].now)
  {
    var first, rest := ops[0].now, ops[1..];
    if rest == [] {
      assert Fails(ops, key) == 1;
    } else {
      assert rest[|rest| - 1] == ops[|ops| - 1];
      LastFails(rest, key);
      LocksOut(l, Perform(l, t, ops[0], true).0, first, rest, key, first, first, 1);
    }
  }

  /** The key is locked until `until` at least, and was so armed within the last window before that. */
  ghost predicate LockedUntil(l: Limits, t: Table, key: string, until: int, now: int) {
    && key in t && t[key].until.Some? && t[key].until.value >= until && t[key].seen <= now
    && t[key].seen >= t[key].until.value - l.window && t[key].start >= t[key].until.value - l.window
  }

  ghost predicate NoReset(ops: seq<Op>, key: string) { forall op | op in ops :: !(op.ResetOp? && op.key == key) }

  lemma OpKeepsLock(l: Limits, t: Table, key: string, until: int, op: Op)
    requires LockedUntil(l, t, key, until, op.now) && l.window >= 0 && op.now < until && !(op.ResetOp? && op.key == key)
    ensures LockedUntil(l, Perform(l, t, op, true).0, key, until, op.now)
    ensures op.AllowOp? && op.key == key ==>
      Perform(l, t, op, true).1.Some? && Perform(l, t, op, true).1.value >= until - op.now
    ensures op.AllowOp? && op.key == key && t[key].until == Some(until) ==> Perform(l, t, op, true).1 == Some(until - op.now)
    ensures !(op.FailOp? && op.key == key) ==> Perform(l, t, op, true).0[key] == t[key]
  {
  }

  /**
   A lockout refuses every attempt until it ends, with at least the time left, and exactly the time
   left if no failure is recorded meanwhile; only a reset of the key ends it early.
   */
  lemma {:induction false} LockHolds(l: Limits, t: Table, now: int, ops: seq<Op>, key: string, until: int)
    requires LockedUntil(l, t, key, until, now) && l.window >= 0 && Monotone(now, ops) && NoReset(ops, key)
    ensures forall i | 0 <= i < |ops| && ops[i].AllowOp? && ops[i].key == key && ops[i].now < until ::
              var answer := Answers(l, t, ops, true)[i];
              && answer.Some? && answer.value >= until - ops[i].now
              && (t[key].until == Some(until) && Fails(ops, key) == 0 ==> answer.value == until - ops[i].now)
    decreases |ops|
  {
    if ops != [] && ops[0].now < until {
      var t', rest := Perform(l, t, ops[0], true).0, ops[1..];
      assert ops[0] in ops && forall op | op in rest :: op in ops;
      OpKeepsLock(l, t, key, until, ops[0]);
      LockHolds(l, t', ops[0].now, rest, key, until);
      assert forall i | 0 < i < |ops| :: ops[i] == rest[i - 1] && Answers(l, t, ops, true)[i] == Answers(l, t', rest, true)[i - 1];
    } else if ops != [] {
      NotBefore(ops[0].now, ops[1..]);
    }
  }

  lemma {:induction false} NotBefore(now: int, ops: seq<Op>)
    requires Monotone(now, ops)
    ensures forall i | 0 <= i < |ops| :: now <= ops[i].now
    decreases |ops|
  {
    if ops == [] {
    } else {
      NotBefore(ops[0].now, ops[1..]);
      assert forall i | 0 < i < |ops| :: ops[i] == ops[1..][i - 1];
    }
  }

  /** Once max failures of a key have fallen in one window, every attempt for it is refused until a window after the last. */
  lemma FailuresLock(l: Limits, t: Table, now: int, ops: seq<Op>, key: string, later: seq<Op>)
    requires l.max >= 1 && l.window >= 0 && Monotone(now, ops) && ops != []
    requires ops[0].FailOp? && ops[0].key == key && Expired(l, t, key, ops[0].now)
    requires InWindow(l, ops[0].now, ops[0].now, ops[1..], key)
    requires ops[|ops| - 1].FailOp? && ops[|ops| - 1].key == key && Fails(ops, key) == l.max
    requires Monotone(ops[|ops| - 1].now, later) && NoReset(later, key)
    ensures var until, answers := ops[|ops| - 1].now + l.window, Answers(l, RunOps(l, t, ops), later, true);
            forall i | 0 <= i < |later| && later[i].AllowOp? && later[i].key == key && later[i].now < until ::
              answers[i].Some? && answers[i].value >= until - later[i].now
              && (Fails(later, key) == 0 ==> answers[i].value == until - later[i].now)
  {
    LockoutFires(l, t, now, ops, key);
    LockHolds(l, RunOps(l, t, ops), ops[|ops| - 1].now, later, key, ops[|ops| - 1].now + l.window);
  }

  // ----- the guard: per (account, source) and per account

  const SECOND := 1_000_000_000
  const LOGIN_MAX_FAILS := 10
  const LOGIN_WINDOW := 5 * 60 * SECOND
  const ACCOUNT_MAX_FAILS := 100
  const ACCOUNT_WINDOW := 15 * 60 * SECOND

  const SOURCE_LIMITS := Limits(LOGIN_MAX_FAILS, LOGIN_WINDOW, false)
  const ACCOUNT_LIMITS := Limits(ACCOUNT_MAX_FAILS, ACCOUNT_WINDOW, true)

  function SourceKey(account: string, ip: string): string { account + ['\0'] + ip }

  predicate NulFree(ip: string) { '\0' !in ip }

  lemma SourceKeyInjective(a: string, i: string, b: string, j: string)
    requires NulFree(i) && NulFree(j) && SourceKey(a, i) == SourceKey(b, j)
    ensures a == b && i == j
  {
    var k := SourceKey(a, i);
    assert k[|a|] == '\0' && k[|b|] == '\0';
    assert forall n | |a| < n < |k| :: k[n] == i[n - |a| - 1];
    assert forall n | |b| < n < |k| :: k[n] == j[n - |b| - 1];
    assert |a| == |b|;
    assert a == k[..|a|] && b == k[..|b|];
    assert i == k[|a| + 1..] && j == k[|b| + 1..];
  }

  class Guard {
    const perSource: Counter
    const perAccount: Counter

    constructor ()
      ensures fresh(perSource) && fresh(perAccount) && perSource != perAccount
      ensures perSource.limits == SOURCE_LIMITS && perAccount.limits == ACCOUNT_LIMITS
      ensures perSource.entries == map[] && perAccount.entries == map[]
    {
      perSource := new Counter(SOURCE_LIMITS);
      perAccount := new Counter(ACCOUNT_LIMITS);
    }

    method Allow(account: string, ip: string, first: int, second: int) returns (ok: bool, retry: int)
      requires perSource != perAccount
      modifies perSource, perAccount
      ensures perAccount.entries == Collected(perAccount.limits, old(perAccount.entries), first)
      ensures Blocked(perAccount.entries, account, first).Some? ==> !ok && perSource.entries == old(perSource.entries)
      ensures Blocked(perAccount.entries, account, first).None? ==>
        && perSource.entries == Collected(perSource.limits, old(perSource.entries), second)
        && (ok <==> Blocked(perSource.entries, SourceKey(account, ip), second).None?)
      ensures !ok ==> retry > 0
    {
      ok, retry := perAccount.Allow(account, first);
      if !ok {
        return;
      }
      ok, retry := perSource.Allow(SourceKey(account, ip), second);
    }

    method Fail(account: string, ip: string, first: int, second: int)
      requires perSource != perAccount
      modifies perSource, perAccount
      ensures perSource.entries == Failed(perSource.limits, old(perSource.entries), SourceKey(account, ip), first)
      ensures perAccount.entries == Failed(perAccount.limits, old(perAccount.entries), account, second)
    {
      perSource.Fail(SourceKey(account, ip), first);
      perAccount.Fail(account, second);
    }

    method Succeed(account: string, ip: string)
      requires perSource != perAccount
      modifies perSource, perAccount
      ensures perSource.entries == old(perSource.entries) - {SourceKey(account, ip)}
      ensures perAccount.entries == old(perAccount.entries) - {account}
    {
      perSource.Reset(SourceKey(account, ip));
      perAccount.Reset(account);
    }
  }

  // ----- runs of non-overlapping attempts

  /** One login attempt: when each throttle is asked, and how the password check ended. */
  datatype Login = Login(account: string, ip: string, asked: int, askedSource: int, good: bool, failed: int, failedAccount: int)

  datatype Tables = Tables(source: Table, account: Table)

  ghost predicate InOrder(now: int, e: Login) { now <= e.asked <= e.askedSource <= e.failed <= e.failedAccount }

  /** Both throttles let the attempt through to the password check. */
  predicate Admitted(g: Tables, e: Login) {
    && Blocked(Collected(ACCOUNT_LIMITS, g.account, e.asked), e.account, e.asked).None?
    && Blocked(Collected(SOURCE_LIMITS, g.source, e.askedSource), SourceKey(e.account, e.ip), e.askedSource).None?
  }

  function After(g: Tables, e: Login): Tables {
    var account := Collected(ACCOUNT_LIMITS, g.account, e.asked);
    if Blocked(account, e.account, e.asked).Some? then Tables(g.source, account)
    else
      var source := Collected(SOURCE_LIMITS, g.source, e.askedSource);
      if !Admitted(g, e) then Tables(source, account)
      else if e.good then Tables(source - {SourceKey(e.account, e.ip)}, account - {e.account})
      else Tables(Failed(SOURCE_LIMITS, source, SourceKey(e.account, e.ip), e.failed),
                  Failed(ACCOUNT_LIMITS, account, e.account, e.failedAccount))
  }

  /** A recorded failure: the readings of the two clocks. */
  datatype Failure = Failure(source: int, account: int)

  /** Failures of one account since its last success. */
  function Logged(g: Tables, log: seq<Failure>, e: Login, who: string): seq<Failure> {
    if e.account != who || !Admitted(g, e) then log
    else if e.good then []
    else log + [Failure(e.failed, e.failedAccount)]
  }

  ghost predicate Chronological(log: seq<Failure>, now: int) {
    && (forall i | 0 <= i < |log| :: log[i].source <= log[i].account <= now)
    && (forall i, j | 0 <= i < j < |log| :: log[i].account <= log[j].source)
  }

  /** Any eleven consecutive failures span a login window. */
  ghost predicate Spread(log: seq<Failure>) {
    forall i, j | 0 <= i && j == i + LOGIN_MAX_FAILS < |log| :: log[j].source >= log[i].source + LOGIN_WINDOW
  }

  ghost predicate SourceEntryOk(t: Table, key: string, log: seq<Failure>, now: int) {
    var n := |log|;
    if key !in t then n == 0 || now - log[n - 1].source > LOGIN_WINDOW
    else
      var a := t[key];
      && n > 0 && a.seen == log[n - 1].source && 0 <= a.count < LOGIN_MAX_FAILS && a.count <= n
      && (a.count == 0 ==> a.until == Some(a.seen + LOGIN_WINDOW))
      && (0 < a.count < n ==> log[n - a.count].source >= log[n - a.count - 1].source + LOGIN_WINDOW)
  }

  ghost predicate AccountEntryOk(t: Table, who: string, log: seq<Failure>, now: int) {
    var n := |log|;
    if who !in t then n == 0 || now - log[n - 1].account > ACCOUNT_WINDOW
    else
      var a := t[who];
      && n > 0 && a.seen == log[n - 1].account && a.until == None
      && 0 < a.count <= n && a.start == log[n - a.count].account && a.seen - a.start <= ACCOUNT_WINDOW
  }

  ghost predicate Inv(g: Tables, who: string, ip: string, log: seq<Failure>, now: int) {
    && Chronological(log, now) && Spread(log)
    && SourceEntryOk(g.source, SourceKey(who, ip), log, now)
    && AccountEntryOk(g.account, who, log, now)
  }

  lemma SourceCollects(t: Table, key: string, log: seq<Failure>, now: int, later: int)
    requires SourceEntryOk(t, key, log, now) && now <= later
    ensures SourceEntryOk(t, key, log, later)
    ensures SourceEntryOk(Collected(SOURCE_LIMITS, t, later), key, log, later)
  {
  }

  lemma AccountCollects(t: Table, who: string, log: seq<Failure>, now: int, later: int)
    requires AccountEntryOk(t, who, log, now) && now <= later
    ensures AccountEntryOk(t, who, log, later)
    ensures AccountEntryOk(Collected(ACCOUNT_LIMITS, t, later), who, log, later)
  {
  }

  /** An admitted failure comes a window after the one ten before it. */
  lemma TenthComesLater(t: Table, key: string, log: seq<Failure>, asked: int, f: Failure)
    requires SourceEntryOk(t, key, log, asked) && Chronological(log, asked)
    requires Blocked(t, key, asked).None? && asked <= f.source && |log| >= LOGIN_MAX_FAILS
    ensures f.source >= log[|log| - LOGIN_MAX_FAILS].source + LOGIN_WINDOW
  {
    var n := |log|;
    var i := n - LOGIN_MAX_FAILS;
    assert log[i].source <= log[n - 1].source;
    if key in t && t[key].count > 0 {
      var streak := t[key].count;
      assert log[n - streak].source >= log[n - streak - 1].source + LOGIN_WINDOW;
      assert i <= n - streak - 1 && log[i].source <= log[n - streak - 1].source;
      assert log[n - streak].source <= log[n - 1].source;
    }
  }

  lemma LogGrows(log: seq<Failure>, asked: int, f: Failure)
    requires Chronological(log, asked) && Spread(log) && asked <= f.source <= f.account
    requires |log| >= LOGIN_MAX_FAILS ==> f.source >= log[|log| - LOGIN_MAX_FAILS].source + LOGIN_WINDOW
    ensures Chronological(log + [f], f.account) && Spread(log + [f])
  {
    var more := log + [f];
    forall i, j | 0 <= i && j == i + LOGIN_MAX_FAILS < |more| ensures more[j].source >= more[i].source + LOGIN_WINDOW {
      if j < |log| { assert log[j].source >= log[i].source + LOGIN_WINDOW; }
    }
  }

  lemma SourceEntryGrows(t: Table, key: string, log: seq<Failure>, asked: int, f: Failure)
    requires SourceEntryOk(t, key, log, asked) && Chronological(log, asked)
    requires Blocked(t, key, asked).None? && asked <= f.source <= f.account
    ensures SourceEntryOk(Failed(SOURCE_LIMITS, t, key, f.source), key, log + [f], f.account)
  {
    var n := |log|;
    var more := log + [f];
    assert n > 0 ==> more[n - 1] == log[n - 1];
    if !Expired(SOURCE_LIMITS, t, key, f.source) {
      var c := t[key].count;
      if 0 < c < n {
        assert more[n - c] == log[n - c] && more[n - c - 1] == log[n - c - 1];
      }
    }
  }

  /** An admitted failure extends the log without packing eleven failures into a window. */
  lemma SourceFails(t: Table, key: string, log: seq<Failure>, asked: int, f: Failure)
    requires SourceEntryOk(t, key, log, asked) && Chronological(log, asked) && Spread(log)
    requires Blocked(t, key, asked).None? && asked <= f.source <= f.account
    ensures Chronological(log + [f], f.account) && Spread(log + [f])
    ensures SourceEntryOk(Failed(SOURCE_LIMITS, t, key, f.source), key, log + [f], f.account)
  {
    if |log| >= LOGIN_MAX_FAILS { TenthComesLater(t, key, log, asked, f); }
    LogGrows(log, asked, f);
    SourceEntryGrows(t, key, log, asked, f);
  }

  /** Failures spread like that never fill the account's window. */
  lemma WindowHolds(log: seq<Failure>, now: int, c: int)
    requires Chronological(log, now) && Spread(log) && 0 < c <= |log|
    requires log[|log| - 1].account - log[|log| - c].account <= ACCOUNT_WINDOW
    ensures c <= 41
    ensures (forall i | 0 <= i < |log| :: log[i].source == log[i].account) ==> c <= 40
  {
    var last := |log| - 1;
    if c >= 41 {
      assert log[last].source >= log[last - 10].source + LOGIN_WINDOW;
      assert log[last - 10].source >= log[last - 20].source + LOGIN_WINDOW;
      assert log[last - 20].source >= log[last - 30].source + LOGIN_WINDOW;
      assert log[last - 30].source >= log[last - 40].source + LOGIN_WINDOW;
    }
  }

  lemma AccountFails(t: Table, who: string, log: seq<Failure>, asked: int, f: Failure)
    requires AccountEntryOk(t, who, log, asked)
    requires Chronological(log + [f], f.account) && Spread(log + [f]) && asked <= f.source
    ensures AccountEntryOk(Failed(ACCOUNT_LIMITS, t, who, f.account), who, log + [f], f.account)
  {
    var more := log + [f];
    if !Expired(ACCOUNT_LIMITS, t, who, f.account) {
      var c := t[who].count + 1;
      assert more[|more| - c] == log[|log| - t[who].count];
      WindowHolds(more, f.account, c);
    } else {
      WindowHolds(more, f.account, 1);
    }
  }

  lemma ThrottlesCollected(g: Tables, who: string, ip: string, log: seq<Failure>, now: int, e: Login)
    requires Inv(g, who, ip, log, now) && InOrder(now, e)
    ensures SourceEntryOk(g.source, SourceKey(who, ip), log, e.failedAccount)
    ensures var source := Collected(SOURCE_LIMITS, g.source, e.askedSource);
            SourceEntryOk(source, SourceKey(who, ip), log, e.askedSource)
            && SourceEntryOk(source, SourceKey(who, ip), log, e.failedAccount)
    ensures var account := Collected(ACCOUNT_LIMITS, g.account, e.asked);
            AccountEntryOk(account, who, log, e.asked) && AccountEntryOk(account, who, log, e.failedAccount)
    ensures Chronological(log, e.askedSource) && Chronological(log, e.failedAccount)
  {
    var key := SourceKey(who, ip);
    SourceCollects(g.source, key, log, now, e.askedSource);
    SourceCollects(g.source, key, log, now, e.failedAccount);
    AccountCollects(g.account, who, log, now, e.asked);
    AccountCollects(Collected(ACCOUNT_LIMITS, g.account, e.asked), who, log, e.asked, e.failedAccount);
    SourceCollects(Collected(SOURCE_LIMITS, g.source, e.askedSource), key, log, e.askedSource, e.failedAccount);
  }

  lemma OwnLoginKeepsInv(g: Tables, who: string, ip: string, log: seq<Failure>, now: int, e: Login)
    requires Inv(g, who, ip, log, now) && InOrder(now, e) && e.account == who && e.ip == ip
    ensures Inv(After(g, e), who, ip, Logged(g, log, e, who), e.failedAccount)
  {
    ThrottlesCollected(g, who, ip, log, now, e);
    if Admitted(g, e) && !e.good {
      var f := Failure(e.failed, e.failedAccount);
      SourceFails(Collected(SOURCE_LIMITS, g.source, e.askedSource), SourceKey(who, ip), log, e.askedSource, f);
      AccountFails(Collected(ACCOUNT_LIMITS, g.account, e.asked), who, log, e.asked, f);
    }
  }

  ghost predicate SameAt(t: Table, u: Table, key: string) {
    (key in t <==> key in u) && (key in t ==> t[key] == u[key])
  }

  /** An attempt for another account leaves this account's entries to the collector alone. */
  lemma OthersStand(g: Tables, e: Login, who: string, key: string)
    requires e.account != who && SourceKey(e.account, e.ip) != key
    ensures SameAt(After(g, e).account, Collected(ACCOUNT_LIMITS, g.account, e.asked), who)
    ensures SameAt(After(g, e).source, g.source, key)
         || SameAt(After(g, e).source, Collected(SOURCE_LIMITS, g.source, e.askedSource), key)
  {
  }

  lemma SourceEntrySame(t: Table, u: Table, key: string, log: seq<Failure>, now: int)
    requires SameAt(t, u, key) && SourceEntryOk(u, key, log, now)
    ensures SourceEntryOk(t, key, log, now)
  {
  }

  lemma AccountEntrySame(t: Table, u: Table, who: string, log: seq<Failure>, now: int)
    requires SameAt(t, u, who) && AccountEntryOk(u, who, log, now)
    ensures AccountEntryOk(t, who, log, now)
  {
  }

  lemma OtherLoginKeepsInv(g: Tables, who: string, ip: string, log: seq<Failure>, now: int, e: Login)
    requires Inv(g, who, ip, log, now) && InOrder(now, e) && e.account != who && NulFree(ip) && NulFree(e.ip)
    ensures Inv(After(g, e), who, ip, log, e.failedAccount)
  {
    var key := SourceKey(who, ip);
    ThrottlesCollected(g, who, ip, log, now, e);
    if SourceKey(e.account, e.ip) == key { SourceKeyInjective(e.account, e.ip, who, ip); }
    OthersStand(g, e, who, key);
    var source := Collected(SOURCE_LIMITS, g.source, e.askedSource);
    SourceEntrySame(After(g, e).source, if SameAt(After(g, e).source, g.source, key) then g.source else source,
                    key, log, e.failedAccount);
    AccountEntrySame(After(g, e).account, Collected(ACCOUNT_LIMITS, g.account, e.asked), who, log, e.failedAccount);
  }

  /** One attempt, by anyone for other accounts, only from `ip` for `who`, keeps the invariant. */
  lemma LoginKeepsInv(g: Tables, who: string, ip: string, log: seq<Failure>, now: int, e: Login)
    requires Inv(g, who, ip, log, now) && InOrder(now, e)
    requires NulFree(ip) && NulFree(e.ip) && (e.account == who ==> e.ip == ip)
    ensures Inv(After(g, e), who, ip, Logged(g, log, e, who), e.failedAccount)
  {
    if e.account == who {
      OwnLoginKeepsInv(g, who, ip, log, now, e);
    } else {
      OtherLoginKeepsInv(g, who, ip, log, now, e);
    }
  }

  function RunLogins(g: Tables, es: seq<Login>): Tables
    decreases |es|
  {
    if es == [] then g else RunLogins(After(g, es[0]), es[1..])
  }

  function RunLog(g: Tables, log: seq<Failure>, es: seq<Login>, who: string): seq<Failure>
    decreases |es|
  {
    if es == [] then log else RunLog(After(g, es[0]), Logged(g, log, es[0], who), es[1..], who)
  }

  function EndTime(now: int, es: seq<Login>): int
    decreases |es|
  {
    if es == [] then now else EndTime(es[0].failedAccount, es[1..])
  }

  /** Attempts one after another; those for `who` all come from `ip`. */
  ghost predicate SingleSource(now: int, es: seq<Login>, who: string, ip: string)
    decreases |es|
  {
    es == [] ||
    (&& InOrder(now, es[0]) && NulFree(es[0].ip) && (es[0].account == who ==> es[0].ip == ip)
     && SingleSource(es[0].failedAccount, es[1..], who, ip))
  }

  lemma {:induction false} RunKeepsInv(g: Tables, who: string, ip: string, log: seq<Failure>, now: int, es: seq<Login>)
    requires Inv(g, who, ip, log, now) && NulFree(ip) && SingleSource(now, es, who, ip)
    ensures Inv(RunLogins(g, es), who, ip, RunLog(g, log, es, who), EndTime(now, es))
    decreases |es|
  {
    if es == [] {
    } else {
      LoginKeepsInv(g, who, ip, log, now, es[0]);
      RunKeepsInv(After(g, es[0]), who, ip, Logged(g, log, es[0], who), es[0].failedAccount, es[1..]);
    }
  }

  /** Any eleven consecutive failures from one source span at least five minutes. */
  lemma ElevenFailuresSpanAWindow(who: string, ip: string, now: int, es: seq<Login>, i: nat)
    requires NulFree(ip) && SingleSource(now, es, who, ip)
    ensures var log := RunLog(Tables(map[], map[]), [], es, who);
            i + 10 < |log| ==> log[i + 10].source - log[i].source >= LOGIN_WINDOW
  {
    RunKeepsInv(Tables(map[], map[]), who, ip, [], now, es);
    var log := RunLog(Tables(map[], map[]), [], es, who);
    assert Spread(log);
    assert LOGIN_MAX_FAILS == 10;
    if i + 10 < |log| {
      var j := i + LOGIN_MAX_FAILS;
      assert log[j].source >= log[i].source + LOGIN_WINDOW;
    }
  }

  /**
   A single source can never lock an account for everyone: whatever it and the other accounts'
   users do, the account's own counter stays at 41 or less and refuses nobody.
   */
  lemma SingleSourceNeverLocksAccount(who: string, ip: string, now: int, es: seq<Login>, later: int)
    requires NulFree(ip) && SingleSource(now, es, who, ip)
    ensures var t := RunLogins(Tables(map[], map[]), es).account;
            Blocked(t, who, later).None? && (who in t ==> 0 < t[who].count <= 41)
  {
    RunKeepsInv(Tables(map[], map[]), who, ip, [], now, es);
    var t := RunLogins(Tables(map[], map[]), es).account;
    var log := RunLog(Tables(map[], map[]), [], es, who);
    if who in t { WindowHolds(log, EndTime(now, es), t[who].count); }
  }

  // ----- a brute force spread over many sources is stopped

  ghost predicate LoginsInOrder(now: int, es: seq<Login>)
    decreases |es|
  {
    es == [] || (InOrder(now, es[0]) && LoginsInOrder(es[0].failedAccount, es[1..]))
  }

  /** How many failures of the account these logins record. */
  function Recorded(g: Tables, es: seq<Login>, who: string): nat
    decreases |es|
  {
    if es == [] then 0
    else (if es[0].account == who && Admitted(g, es[0]) && !es[0].good then 1 else 0) + Recorded(After(g, es[0]), es[1..], who)
  }

  lemma {:induction false} EndTimeLast(now: int, es: seq<Login>)
    requires LoginsInOrder(now, es)
    ensures now <= EndTime(now, es) && (es != [] ==> es[0].failedAccount <= EndTime(now, es) == es[|es| - 1].failedAccount)
    decreases |es|
  {
    if es == [] {
    } else {
      EndTimeLast(es[0].failedAccount, es[1..]);
    }
  }

  lemma {:induction false} LastRecorded(g: Tables, es: seq<Login>, who: string)
    requires es != [] && RecordsLast(g, es, who)
    ensures Recorded(g, es, who) > 0
    decreases |es|
  {
    if |es| > 1 { LastRecorded(After(g, es[0]), es[1..], who); }
  }

  /** The last of these logins is an admitted failure of the account. */
  ghost predicate RecordsLast(g: Tables, es: seq<Login>, who: string)
    decreases |es|
  {
    es != [] && if |es| == 1 then es[0].account == who && Admitted(g, es[0]) && !es[0].good else RecordsLast(After(g, es[0]), es[1..], who)
  }

  lemma LoginCounts(g: Tables, e: Login, who: string, first: int, last: int, k: nat)
    requires Counting(ACCOUNT_LIMITS, g.account, who, first, last, k) && e.asked - last <= ACCOUNT_WINDOW
    requires e.account == who ==> !e.good
    requires e.account == who && Admitted(g, e) ==>
      k + 1 < ACCOUNT_MAX_FAILS && e.failedAccount - last <= ACCOUNT_WINDOW && e.failedAccount - first <= ACCOUNT_WINDOW
    ensures if e.account == who && Admitted(g, e)
            then Counting(ACCOUNT_LIMITS, After(g, e).account, who, first, e.failedAccount, k + 1)
            else Counting(ACCOUNT_LIMITS, After(g, e).account, who, first, last, k)
  {
  }

  lemma LastLoginLocks(g: Tables, e: Login, who: string, first: int, last: int)
    requires Counting(ACCOUNT_LIMITS, g.account, who, first, last, ACCOUNT_MAX_FAILS - 1) && e.asked - last <= ACCOUNT_WINDOW
    requires e.account == who && Admitted(g, e) && !e.good
    requires e.failedAccount - last <= ACCOUNT_WINDOW && e.failedAccount - first <= ACCOUNT_WINDOW
    ensures LockedUntil(ACCOUNT_LIMITS, After(g, e).account, who, e.failedAccount + ACCOUNT_WINDOW, e.failedAccount)
  {
  }

  lemma {:induction false} LoginsCount(g: Tables, now: int, es: seq<Login>, who: string, first: int, last: int, k: nat)
    requires Counting(ACCOUNT_LIMITS, g.account, who, first, last, k) && first <= last <= now && LoginsInOrder(now, es)
    requires EndTime(now, es) - first <= ACCOUNT_WINDOW && forall e | e in es && e.account == who :: !e.good
    requires RecordsLast(g, es, who) && k + Recorded(g, es, who) == ACCOUNT_MAX_FAILS
    ensures LockedUntil(ACCOUNT_LIMITS, RunLogins(g, es).account, who, EndTime(now, es) + ACCOUNT_WINDOW, EndTime(now, es))
    decreases |es|
  {
    var e, rest := es[0], es[1..];
    assert e in es && forall x | x in rest :: x in es;
    EndTimeLast(now, es);
    if |es| == 1 {
      assert Recorded(After(g, e), rest, who) == 0;
      LastLoginLocks(g, e, who, first, last);
    } else {
      LastRecorded(After(g, e), rest, who);
      EndTimeLast(e.failedAccount, rest);
      LoginCounts(g, e, who, first, last, k);
      if e.account == who && Admitted(g, e) {
        LoginsCount(After(g, e), e.failedAccount, rest, who, first, e.failedAccount, k + 1);
      } else {
        LoginsCount(After(g, e), e.failedAccount, rest, who, first, last, k);
      }
    }
  }

  /** Every attempt for the account that is asked before `until` is refused, and nobody ends the lockout. */
  ghost predicate AllRefused(g: Tables, es: seq<Login>, who: string, until: int)
    decreases |es|
  {
    es == [] || ((es[0].account == who && es[0].asked < until ==> !Admitted(g, es[0])) && AllRefused(After(g, es[0]), es[1..], who, until))
  }

  lemma LoginKeepsLock(g: Tables, now: int, e: Login, who: string, until: int)
    requires LockedUntil(ACCOUNT_LIMITS, g.account, who, until, now) && InOrder(now, e) && e.asked < until
    ensures e.account == who ==> !Admitted(g, e)
    ensures LockedUntil(ACCOUNT_LIMITS, After(g, e).account, who, until, e.failedAccount)
  {
  }

  lemma {:induction false} LockedOut(g: Tables, now: int, es: seq<Login>, who: string, until: int)
    requires LoginsInOrder(now, es)
    requires now < until ==> LockedUntil(ACCOUNT_LIMITS, g.account, who, until, now)
    ensures AllRefused(g, es, who, until)
    decreases |es|
  {
    if es == [] {
    } else if es[0].asked < until {
      LoginKeepsLock(g, now, es[0], who, until);
      LockedOut(After(g, es[0]), es[0].failedAccount, es[1..], who, until);
    } else {
      LockedOut(After(g, es[0]), es[0].failedAccount, es[1..], who, until);
    }
  }

  lemma FirstCounts(g: Tables, e: Login, who: string)
    requires e.account == who && Admitted(g, e) && !e.good
    requires Expired(ACCOUNT_LIMITS, Collected(ACCOUNT_LIMITS, g.account, e.asked), who, e.failedAccount)
    ensures Counting(ACCOUNT_LIMITS, After(g, e).account, who, e.failedAccount, e.failedAccount, 1)
  {
  }

  lemma {:induction false} RecordedAtMost(g: Tables, es: seq<Login>, who: string)
    ensures Recorded(g, es, who) <= |es|
    decreases |es|
  {
    if es != [] { RecordedAtMost(After(g, es[0]), es[1..], who); }
  }

  lemma OpeningIsNotLast(g: Tables, es: seq<Login>, who: string)
    requires es != [] && es[0].account == who && Admitted(g, es[0]) && !es[0].good
    requires RecordsLast(g, es, who) && Recorded(g, es, who) == ACCOUNT_MAX_FAILS
    ensures RecordsLast(After(g, es[0]), es[1..], who) && Recorded(After(g, es[0]), es[1..], who) == ACCOUNT_MAX_FAILS - 1
  {
    RecordedAtMost(g, es, who);
  }

  lemma HundredthLocks(g: Tables, now: int, es: seq<Login>, who: string)
    requires es != [] && LoginsInOrder(now, es) && forall e | e in es && e.account == who :: !e.good
    requires es[0].account == who && Admitted(g, es[0])
    requires Expired(ACCOUNT_LIMITS, Collected(ACCOUNT_LIMITS, g.account, es[0].asked), who, es[0].failedAccount)
    requires RecordsLast(g, es, who) && Recorded(g, es, who) == ACCOUNT_MAX_FAILS
    requires EndTime(now, es) - es[0].failedAccount <= ACCOUNT_WINDOW
    ensures LockedUntil(ACCOUNT_LIMITS, RunLogins(g, es).account, who, EndTime(now, es) + ACCOUNT_WINDOW, EndTime(now, es))
  {
    var e, rest := es[0], es[1..];
    assert e in es && forall x | x in rest :: x in es;
    FirstCounts(g, e, who);
    OpeningIsNotLast(g, es, who);
    LoginsCount(After(g, e), e.failedAccount, rest, who, e.failedAccount, e.failedAccount, 1);
  }

  /**
   The account ceiling: when the hundredth failure of an account falls within fifteen minutes of the
   one that opened its window, with no success in between, every later attempt for the account is
   refused for fifteen minutes, from whatever source, wherever the failures came from.
   */
  lemma BruteForceIsStopped(g: Tables, now: int, es: seq<Login>, who: string, later: seq<Login>)
    requires es != [] && LoginsInOrder(now, es) && forall e | e in es && e.account == who :: !e.good
    requires es[0].account == who && Admitted(g, es[0])
    requires Expired(ACCOUNT_LIMITS, Collected(ACCOUNT_LIMITS, g.account, es[0].asked), who, es[0].failedAccount)
    requires RecordsLast(g, es, who) && Recorded(g, es, who) == ACCOUNT_MAX_FAILS
    requires EndTime(now, es) - es[0].failedAccount <= ACCOUNT_WINDOW
    requires LoginsInOrder(EndTime(now, es), later)
    ensures AllRefused(RunLogins(g, es), later, who, EndTime(now, es) + ACCOUNT_WINDOW)
  {
    HundredthLocks(g, now, es, who);
    LockedOut(RunLogins(g, es), EndTime(now, es), later, who, EndTime(now, es) + ACCOUNT_WINDOW);
  }
}
