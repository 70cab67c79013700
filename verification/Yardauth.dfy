/**
 The session-verification cache shared by the tools: concurrent verifies, logouts and upstream
 revocation as atomic steps, and how stale a positive answer can be
 (apps/shared/yardauth/yardauth.go).
 */
module Yardauth {
  import opened Common

  const CACHE_TTL := 30_000_000_000

  datatype CacheEntry = CacheEntry(user: string, expires: int)

  type Cache = map<string, CacheEntry>

  /** A cached user, if the entry is still fresh at `now`. */
  function Fresh(cache: Cache, token: string, now: int): Option<string> {
    if token in cache && now < cache[token].expires then Some(cache[token].user) else None
  }

  /** Drops expired entries, then remembers the answer; the expiry counts from before the upstream check. */
  function Stored(cache: Cache, token: string, user: string, started: int): Cache {
    (map t | t in cache && !(started > cache[t].expires) :: cache[t])[token := CacheEntry(user, started + CACHE_TTL)]
  }

  class Guard {
    var cache: Cache

    constructor ()
      ensures cache == map[]
    {
      cache := map[];
    }

    method Lookup(token: string, now: int) returns (user: Option<string>)
      ensures user == Fresh(cache, token, now)
    {
      if token in cache && now < cache[token].expires {
        return Some(cache[token].user);
      }
      user := None;
    }

    method Remember(token: string, user: string, started: int)
      modifies this
      ensures cache == Stored(old(cache), token, user, started)
    {
      var todo := cache.Keys;
      while todo != {}
        invariant todo <= old(cache).Keys
        invariant cache.Keys <= old(cache).Keys && forall t | t in cache :: cache[t] == old(cache)[t]
        invariant forall t | t in old(cache) :: t in cache <==> t in todo || !(started > old(cache)[t].expires)
        decreases todo
      {
        var t :| t in todo;
        todo := todo - {t};
        if started > cache[t].expires {
          cache := cache - {t};
        }
      }
      assert cache == map t | t in old(cache) && !(started > old(cache)[t].expires) :: old(cache)[t];
      cache := cache[token := CacheEntry(user, started + CACHE_TTL)];
    }

    /** handleLogout and proxy forget a token locally. */
    method Forget(token: string)
      modifies this
      ensures cache == old(cache) - {token}
    {
      cache := cache - {token};
    }
  }

  // ----- the system

  datatype Phase = Begun | Missed | Approved(user: string) | Done(answer: Option<string>)

  datatype Verify = Verify(token: string, started: int, phase: Phase)

  /** `owners` is whose token each is; `revoked` when it was permanently revoked. */
  datatype State = State(now: int, cache: Cache, owners: map<string, string>, revoked: map<string, int>, calls: map<nat, Verify>)

  function Initial(now: int, owners: map<string, string>): State { State(now, map[], owners, map[], map[]) }

  datatype Step =
    | Tick(now: int)
    | Revoke(token: string)
    | Begin(call: nat, token: string)
    | CheckCache(call: nat)
    | Upstream(call: nat, answered: bool)  // the bucket decides, or the request fails
    | Remember(call: nat)
    | Forget(token: string)

  predicate At(s: State, call: nat, p: Phase) { call in s.calls && s.calls[call].phase == p }

  predicate Enabled(s: State, step: Step) {
    match step
    case Tick(now) => s.now <= now
    case Revoke(t) => t !in s.revoked
    case Begin(c, _) => c !in s.calls
    case CheckCache(c) => At(s, c, Begun)
    case Upstream(c, _) => At(s, c, Missed)
    case Remember(c) => c in s.calls && s.calls[c].phase.Approved?
    case Forget(_) => true
  }

  function Move(s: State, c: nat, p: Phase): State
    requires c in s.calls
  {
    s.(calls := s.calls[c := s.calls[c].(phase := p)])
  }

  function Next(s: State, step: Step): State
    requires Enabled(s, step)
  {
    match step
    case Tick(now) => s.(now := now)
    case Revoke(t) => s.(revoked := s.revoked[t := s.now])
    case Begin(c, t) => s.(calls := s.calls[c := Verify(t, s.now, Begun)])
    case CheckCache(c) =>
      var hit := Fresh(s.cache, s.calls[c].token, s.calls[c].started);
      Move(s, c, if hit.Some? then Done(hit) else Missed)
    case Upstream(c, answered) =>
      var t := s.calls[c].token;
      Move(s, c, if answered && t in s.owners && t !in s.revoked then Approved(s.owners[t]) else Done(None))
    case Remember(c) =>
      var v := s.calls[c];
      Move(s.(cache := Stored(s.cache, v.token, v.phase.user, v.started)), c, Done(Some(v.phase.user)))
    case Forget(t) => s.(cache := s.cache - {t})
  }

  // ----- staleness

  /** An answer for `token` to a verify begun at `started` is the owner, and not too stale. */
  ghost predicate Sound(s: State, token: string, user: string, started: int) {
    token in s.owners && s.owners[token] == user
    && (token in s.revoked ==> started < s.revoked[token] + CACHE_TTL)
  }

  ghost predicate CallOk(s: State, v: Verify) {
    && v.started <= s.now
    && (v.phase.Approved? ==>
          v.token in s.owners && s.owners[v.token] == v.phase.user
          && (v.token in s.revoked ==> v.started <= s.revoked[v.token]))
    && (v.phase.Done? && v.phase.answer.Some? ==> Sound(s, v.token, v.phase.answer.value, v.started))
  }

  ghost predicate Inv(s: State) {
    && (forall t | t in s.revoked :: s.revoked[t] <= s.now)
    && (forall t | t in s.cache ::
          t in s.owners && s.owners[t] == s.cache[t].user
          && s.cache[t].expires <= s.now + CACHE_TTL
          && (t in s.revoked ==> s.cache[t].expires <= s.revoked[t] + CACHE_TTL))
    && (forall c | c in s.calls :: CallOk(s, s.calls[c]))
  }

  lemma CallsKept(s: State, step: Step)
    requires Inv(s) && Enabled(s, step)
    ensures var t := Next(s, step); forall c | c in t.calls :: CallOk(t, t.calls[c])
  {
    var t := Next(s, step);
    forall c | c in t.calls ensures CallOk(t, t.calls[c]) {
      if c in s.calls { assert CallOk(s, s.calls[c]); }
    }
  }

  lemma StepKeepsInv(s: State, step: Step)
    requires Inv(s) && Enabled(s, step)
    ensures Inv(Next(s, step))
  {
    CallsKept(s, step);
    if step.Remember? { assert CallOk(s, s.calls[step.call]); }
  }

  ghost predicate Run(s: State, steps: seq<Step>, t: State)
    decreases |steps|
  {
    if steps == [] then s == t
    else Enabled(s, steps[0]) && Run(Next(s, steps[0]), steps[1..], t)
  }

  lemma {:induction false} RunKeepsInv(s: State, steps: seq<Step>, t: State)
    requires Inv(s) && Run(s, steps, t)
    ensures Inv(t)
    decreases |steps|
  {
    if steps == [] {
    } else {
      StepKeepsInv(s, steps[0]);
      RunKeepsInv(Next(s, steps[0]), steps[1..], t);
    }
  }

  /**
   Bounded staleness: no verify begun 30 s or more after its token was revoked ever returns a
   user, whatever other verifies and logouts are in flight; any user returned owns the token.
   */
  lemma NoUserAfterTtl(now: int, owners: map<string, string>, steps: seq<Step>, t: State, c: nat)
    requires Run(Initial(now, owners), steps, t)
    requires c in t.calls && t.calls[c].phase.Done? && t.calls[c].phase.answer.Some?
    ensures var v := t.calls[c];
            && v.token in t.owners && v.phase.answer == Some(t.owners[v.token])
            && (v.token in t.revoked ==> v.started < t.revoked[v.token] + CACHE_TTL)
  {
    RunKeepsInv(Initial(now, owners), steps, t);
    assert CallOk(t, t.calls[c]);
  }

  /** Call c has ended without a user. */
  ghost predicate TurnedAway(s: State, c: nat) { At(s, c, Done(None)) }

  lemma TurnedAwayNow(s: State, step: Step, c: nat)
    requires Enabled(s, step) && TurnedAway(Next(s, step), c) && !TurnedAway(s, c)
    ensures step.Upstream? && step.call == c
    ensures !step.answered || s.calls[c].token !in s.owners || s.calls[c].token in s.revoked
  {
  }

  lemma StepKeepsFacts(s: State, step: Step, c: nat)
    requires Enabled(s, step) && c in s.calls
    ensures var t := Next(s, step); c in t.calls && t.calls[c].token == s.calls[c].token
  {
  }

  lemma {:induction false} TurnedAwayOverRun(s: State, steps: seq<Step>, t: State, c: nat)
    requires Run(s, steps, t) && TurnedAway(t, c) && !TurnedAway(s, c)
    ensures Upstream(c, false) in steps || t.calls[c].token !in t.owners || t.calls[c].token in t.revoked
    decreases |steps|
  {
    if steps != [] {
      var u := Next(s, steps[0]);
      if TurnedAway(u, c) {
        TurnedAwayNow(s, steps[0], c);
        RunKeepsFacts(u, steps[1..], t, c);
        StepKeepsFacts(s, steps[0], c);
      } else {
        TurnedAwayOverRun(u, steps[1..], t, c);
      }
    }
  }

  lemma {:induction false} RunKeepsFacts(s: State, steps: seq<Step>, t: State, c: nat)
    requires Run(s, steps, t) && c in s.calls
    ensures c in t.calls && t.calls[c].token == s.calls[c].token && t.owners == s.owners && s.revoked.Keys <= t.revoked.Keys
    decreases |steps|
  {
    if steps != [] {
      StepKeepsFacts(s, steps[0], c);
      RunKeepsFacts(Next(s, steps[0]), steps[1..], t, c);
    }
  }

  /** A verify ends without a user only if the request failed, the token is nobody's, or it has been revoked. */
  lemma OnlyTheRevokedAreTurnedAway(now: int, owners: map<string, string>, steps: seq<Step>, t: State, c: nat)
    requires Run(Initial(now, owners), steps, t) && At(t, c, Done(None))
    ensures Upstream(c, false) in steps || t.calls[c].token !in t.owners || t.calls[c].token in t.revoked
  {
    TurnedAwayOverRun(Initial(now, owners), steps, t, c);
  }

  // ----- when a revoked token stays alive

  /** A verify of the token has its approval in hand and would cache it beyond the present. */
  ghost predicate InFlight(s: State, token: string) {
    exists c :: ApprovedLive(s, c, token)
  }

  ghost predicate ApprovedLive(s: State, c: nat, token: string) {
    c in s.calls && s.calls[c].token == token && s.calls[c].phase.Approved? && s.now < s.calls[c].started + CACHE_TTL
  }

  ghost predicate CachedLive(s: State, token: string) { token in s.cache && s.now < s.cache[token].expires }

  /** Call c began after s and by t has been answered with a user for the token. */
  ghost predicate AnsweredAfter(s: State, t: State, c: nat, token: string) {
    c !in s.calls && c in t.calls && t.calls[c].token == token && t.calls[c].phase.Done? && t.calls[c].phase.answer.Some?
  }

  /** Some continuation of s answers a verify of the token begun after s with a user. */
  ghost predicate Survives(s: State, token: string) {
    exists steps, t, c :: Run(s, steps, t) && AnsweredAfter(s, t, c, token)
  }

  lemma {:induction false} UnusedCall(used: set<nat>) returns (n: nat)
    ensures forall c | c in used :: c < n
  {
    if used == {} {
      n := 0;
    } else {
      var c :| c in used;
      var rest := used - {c};
      n := UnusedCall(rest);
      if n <= c { n := c + 1; }
      forall x | x in used ensures x < n {
        assert x == c || x in rest;
      }
    }
  }

  /** A live cache entry answers the next verify. */
  lemma CachedAnswers(s: State, token: string) returns (steps: seq<Step>, t: State, n: nat)
    requires CachedLive(s, token)
    ensures n !in s.calls && steps == [Begin(n, token), CheckCache(n)]
    ensures Run(s, steps, t) && AnsweredAfter(s, t, n, token)
  {
    n := UnusedCall(s.calls.Keys);
    assert n !in s.calls.Keys;
    steps := [Begin(n, token), CheckCache(n)];
    var u := Next(s, Begin(n, token));
    t := Next(u, CheckCache(n));
    assert steps[1..] == [CheckCache(n)] && steps[1..][1..] == [];
    assert Run(t, [], t) && Run(u, [CheckCache(n)], t);
  }

  /** An approval in flight caches itself, and then answers the next verify. */
  lemma InFlightAnswers(s: State, c: nat, token: string) returns (steps: seq<Step>, t: State, n: nat)
    requires ApprovedLive(s, c, token)
    ensures n !in s.calls && steps == [Remember(c), Begin(n, token), CheckCache(n)]
    ensures Run(s, steps, t) && AnsweredAfter(s, t, n, token)
  {
    var u := Next(s, Remember(c));
    var rest;
    rest, t, n := CachedAnswers(u, token);
    steps := [Remember(c)] + rest;
    assert steps[1..] == rest;
  }

  /** Since s, nothing about the token reaches beyond s, and no verify of it begun since has been approved or answered. */
  ghost predicate Ended(s: State, t: State, token: string) {
    && token in t.revoked && s.now <= t.now && s.calls.Keys <= t.calls.Keys
    && (token in t.cache ==> t.cache[token].expires <= s.now)
    && (forall c | c in t.calls :: CallEnded(s, c, t.calls[c], token))
  }

  ghost predicate CallEnded(s: State, c: nat, v: Verify, token: string) {
    v.token == token ==>
      && (v.phase.Approved? ==> v.started + CACHE_TTL <= s.now)
      && (c !in s.calls ==> v.started >= s.now && !v.phase.Approved? && !(v.phase.Done? && v.phase.answer.Some?))
  }

  lemma StaysEnded(s: State, t: State, step: Step, token: string)
    requires Ended(s, t, token) && Enabled(t, step)
    ensures Ended(s, Next(t, step), token)
  {
    var u := Next(t, step);
    forall c | c in u.calls ensures CallEnded(s, c, u.calls[c], token) {
      if c in t.calls { assert CallEnded(s, c, t.calls[c], token); }
    }
    if step.Remember? { assert CallEnded(s, step.call, t.calls[step.call], token); }
  }

  lemma {:induction false} RunStaysEnded(s: State, t: State, steps: seq<Step>, u: State, token: string)
    requires Ended(s, t, token) && Run(t, steps, u)
    ensures Ended(s, u, token)
    decreases |steps|
  {
    if steps == [] {
    } else {
      StaysEnded(s, t, steps[0], token);
      RunStaysEnded(s, Next(t, steps[0]), steps[1..], u, token);
    }
  }

  /**
   A revoked token can still be answered with a user to a verify that begins now or later if and
   only if a live cache entry holds it, or a verify approved before is about to cache it.
   */
  lemma SurvivesIff(s: State, token: string)
    requires token in s.revoked
    ensures Survives(s, token) <==> CachedLive(s, token) || InFlight(s, token)
  {
    if CachedLive(s, token) {
      var steps, t, n := CachedAnswers(s, token);
    } else if InFlight(s, token) {
      var c :| ApprovedLive(s, c, token);
      var steps, t, n := InFlightAnswers(s, c, token);
    } else {
      forall c | c in s.calls ensures CallEnded(s, c, s.calls[c], token) {
        assert !ApprovedLive(s, c, token);
      }
      assert Ended(s, s, token);
      forall steps, t, c | Run(s, steps, t) ensures !AnsweredAfter(s, t, c, token) {
        RunStaysEnded(s, s, steps, t, token);
        assert c in t.calls ==> CallEnded(s, c, t.calls[c], token);
      }
    }
  }

  /**
   A completed logout, the token forgotten locally and revoked upstream, takes effect at once if
   and only if no verify approved beforehand is still about to cache its answer.
   */
  lemma LogoutUndoneIff(s: State, token: string)
    requires token in s.revoked && token !in s.cache
    ensures Survives(s, token) <==> InFlight(s, token)
  {
    SurvivesIff(s, token);
  }

  /** A token cached by a verify that was in flight across the logout and the revocation. */
  ghost function Recached(owner: string): State {
    State(0, map["t" := CacheEntry(owner, CACHE_TTL)], map["t" := owner], map["t" := 0],
          map[0 := Verify("t", 0, Done(Some(owner)))])
  }

  /** Forgetting locally and revoking upstream do not stop a verify already approved from caching its answer... */
  lemma ForgetCanBeUndone(owner: string)
    ensures var s := Next(Next(Next(Initial(0, map["t" := owner]), Begin(0, "t")), CheckCache(0)), Upstream(0, true));
            var out := Next(Next(s, Forget("t")), Revoke("t"));
            && "t" in out.revoked && "t" !in out.cache && Survives(out, "t")
            && Next(out, Remember(0)) == Recached(owner)
  {
    var s := Next(Next(Next(Initial(0, map["t" := owner]), Begin(0, "t")), CheckCache(0)), Upstream(0, true));
    assert s == State(0, map[], map["t" := owner], map[], map[0 := Verify("t", 0, Approved(owner))]);
    var r := Next(Next(s, Forget("t")), Revoke("t"));
    assert r == State(0, map[], map["t" := owner], map["t" := 0], map[0 := Verify("t", 0, Approved(owner))]);
    assert ApprovedLive(r, 0, "t");
    LogoutUndoneIff(r, "t");
  }

  /** ...so the bound is tight: a verify begun one nanosecond before it still returns the user. */
  lemma BoundIsTight(owner: string)
    ensures var s := Next(Next(Recached(owner), Tick(CACHE_TTL - 1)), Begin(1, "t"));
            At(Next(s, CheckCache(1)), 1, Done(Some(owner)))
  {
  }
}
