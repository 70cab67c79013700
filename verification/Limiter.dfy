/**
 The sliding-window rate limiter of the notification channels
 (apps/syslog-bucket/internal/notify/limiter.go and apps/syslog-valve/internal/notify/limiter.go).
 */
module Limiter {
  const MINUTE := 60_000_000_000

  /** Drops the leading times before the cutoff. */
  function Trimmed(times: seq<int>, cutoff: int): seq<int> {
    if times != [] && times[0] < cutoff then Trimmed(times[1..], cutoff) else times
  }

  function Asked(times: seq<int>, rate: int, now: int): (seq<int>, bool) {
    if rate <= 0 then (times, true)
    else
      var kept := Trimmed(times, now - MINUTE);
      if |kept| >= rate then (kept, false) else (kept + [now], true)
  }

  class Window {
    var times: seq<int>

    constructor ()
      ensures times == []
    {
      times := [];
    }

    method Allow(rate: int, now: int) returns (ok: bool)
      modifies this
      ensures (times, ok) == Asked(old(times), rate, now)
    {
      if rate <= 0 {
        return true;
      }
      var cutoff := now - MINUTE;
      var i := 0;
      while i < |times| && times[i] < cutoff
        invariant 0 <= i <= |times| && times == old(times)
        invariant Trimmed(times[i..], cutoff) == Trimmed(times, cutoff)
      {
        i := i + 1;
      }
      times := times[i..];
      if |times| >= rate {
        return false;
      }
      times := times + [now];
      return true;
    }
  }

  // ----- against the full record of deliveries

  /** Deliveries in the minute up to and including `now`. */
  function Recent(record: seq<int>, now: int): nat {
    if record == [] then 0
    else Recent(record[..|record| - 1], now) + if now - MINUTE <= record[|record| - 1] <= now then 1 else 0
  }

  ghost predicate Chronological(record: seq<int>, now: int) {
    (forall i, j | 0 <= i < j < |record| :: record[i] <= record[j]) && forall i | 0 <= i < |record| :: record[i] <= now
  }

  /** The limiter keeps a suffix of the record; what it dropped is over a minute old. */
  ghost predicate Remembers(times: seq<int>, record: seq<int>, now: int) {
    && Chronological(record, now) && |times| <= |record|
    && (forall i | 0 <= i < |times| :: times[i] == record[|record| - |times| + i])
    && (forall i | 0 <= i < |record| - |times| :: record[i] < now - MINUTE)
  }

  lemma {:induction false} TrimIsSuffix(times: seq<int>, cutoff: int)
    requires forall i, j | 0 <= i < j < |times| :: times[i] <= times[j]
    ensures |Trimmed(times, cutoff)| <= |times| && Trimmed(times, cutoff) == times[|times| - |Trimmed(times, cutoff)|..]
    ensures forall i | 0 <= i < |times| :: times[i] < cutoff <==> i < |times| - |Trimmed(times, cutoff)|
  {
    if times != [] && times[0] < cutoff { TrimIsSuffix(times[1..], cutoff); }
  }

  lemma {:induction false} RecentIsSuffix(record: seq<int>, now: int, k: nat)
    requires k <= |record| && forall i | 0 <= i < |record| :: record[i] <= now
    requires forall i | 0 <= i < |record| :: record[i] < now - MINUTE <==> i < k
    ensures Recent(record, now) == |record| - k
  {
    if record == [] {
    } else {
      var n := |record| - 1;
      if k == |record| {
        RecentIsSuffix(record[..n], now, n);
      } else {
        RecentIsSuffix(record[..n], now, k);
      }
    }
  }

  /** What trimming leaves is what the record holds of the trailing minute. */
  lemma TrimmedIsRecent(times: seq<int>, record: seq<int>, before: int, now: int) returns (k: nat)
    requires Remembers(times, record, before) && before <= now
    ensures k <= |record| && Trimmed(times, now - MINUTE) == record[k..]
    ensures forall i | 0 <= i < |record| :: record[i] < now - MINUTE <==> i < k
    ensures Recent(record, now) == |record| - k
  {
    var gone := |record| - |times|;
    assert forall i | 0 <= i < |times| :: times[i] == record[gone + i];
    TrimIsSuffix(times, now - MINUTE);
    k := |record| - |Trimmed(times, now - MINUTE)|;
    forall i | 0 <= i < |record| ensures record[i] < now - MINUTE <==> i < k {
      if i >= gone { assert record[i] == times[i - gone]; }
    }
    RecentIsSuffix(record, now, k);
  }

  /**
   The limiter allows a delivery exactly when fewer than `rate` were delivered in the trailing
   minute, as if it had kept every delivery ever made.
   */
  lemma AllowIsExact(times: seq<int>, record: seq<int>, before: int, rate: int, now: int)
    requires Remembers(times, record, before) && before <= now
    ensures Asked(times, rate, now).1 <==> rate <= 0 || Recent(record, now) < rate
    ensures Remembers(Asked(times, rate, now).0,
                      if Asked(times, rate, now).1 && rate > 0 then record + [now] else record, now)
  {
    var k := TrimmedIsRecent(times, record, before, now);
    RemembersMore(record, now, k);
  }

  lemma RemembersMore(record: seq<int>, now: int, k: nat)
    requires k <= |record| && Chronological(record, now) && forall i | 0 <= i < k :: record[i] < now - MINUTE
    ensures Remembers(record[k..], record, now) && Remembers(record[k..] + [now], record + [now], now)
  {
    assert record[k..] + [now] == (record + [now])[k..];
  }

  datatype Request = Request(rate: int, now: int)

  ghost predicate InOrder(now: int, rs: seq<Request>)
    decreases |rs|
  {
    rs == [] || (now <= rs[0].now && InOrder(rs[0].now, rs[1..]))
  }

  /** The record after one more request. */
  function Grown(times: seq<int>, record: seq<int>, r: Request): seq<int> {
    if Asked(times, r.rate, r.now).1 && r.rate > 0 then record + [r.now] else record
  }

  /** The counted deliveries of a run, given those before it. */
  function Delivered(times: seq<int>, record: seq<int>, rs: seq<Request>): seq<int>
    decreases |rs|
  {
    if rs == [] then record
    else
      Delivered(Asked(times, rs[0].rate, rs[0].now).0, Grown(times, record, rs[0]), rs[1..])
  }

  /** Every delivery is at most the rate-th of its own trailing minute. */
  ghost predicate Bounded(record: seq<int>, rate: int) {
    record != [] ==>
      Bounded(record[..|record| - 1], rate) && Recent(record, record[|record| - 1]) <= rate
  }

  lemma OneMoreBounded(record: seq<int>, now: int, rate: int)
    requires Bounded(record, rate) && Recent(record, now) < rate
    ensures Bounded(record + [now], rate)
  {
    assert (record + [now])[..|record|] == record;
  }

  lemma RemembersLater(times: seq<int>, record: seq<int>, before: int, now: int)
    requires Remembers(times, record, before) && before <= now
    ensures Remembers(times, record, now)
  {
  }

  /** Asking with a rate of one or more keeps a record that is within a bound within it. */
  lemma AskKeepsBound(times: seq<int>, record: seq<int>, before: int, rate: int, now: int, bound: int)
    requires Remembers(times, record, before) && before <= now && Bounded(record, bound) && 1 <= rate <= bound
    ensures var next := if Asked(times, rate, now).1 then record + [now] else record;
            Remembers(Asked(times, rate, now).0, next, now) && Bounded(next, bound)
  {
    AllowIsExact(times, record, before, rate, now);
    if Recent(record, now) < rate { OneMoreBounded(record, now, bound); }
  }

  lemma RequestKeeps(times: seq<int>, record: seq<int>, now: int, r: Request, rate: int)
    requires Remembers(times, record, now) && now <= r.now && Bounded(record, rate) && r.rate <= rate
    ensures Remembers(Asked(times, r.rate, r.now).0, Grown(times, record, r), r.now)
    ensures Bounded(Grown(times, record, r), rate)
  {
    if r.rate > 0 { AskKeepsBound(times, record, now, r.rate, r.now, rate); } else { RemembersLater(times, record, now, r.now); }
  }

  lemma {:induction false} RunIsBounded(times: seq<int>, record: seq<int>, now: int, rs: seq<Request>, rate: int)
      returns (latest: int)
    requires Remembers(times, record, now) && InOrder(now, rs) && Bounded(record, rate)
    requires forall r | r in rs :: r.rate <= rate
    ensures Bounded(Delivered(times, record, rs), rate) && Chronological(Delivered(times, record, rs), latest)
    decreases |rs|
  {
    latest := now;
    if rs != [] {
      var r := rs[0];
      RequestKeeps(times, record, now, r, rate);
      latest := RunIsBounded(Asked(times, r.rate, r.now).0, Grown(times, record, r), r.now, rs[1..], rate);
    }
  }

  /** Counting up to a later instant loses old deliveries and gains none. */
  lemma {:induction false} LaterSeesFewer(record: seq<int>, at: int, now: int)
    requires at <= now && forall i | 0 <= i < |record| :: record[i] <= at
    ensures Recent(record, now) <= Recent(record, at)
  {
    if record == [] {
    } else {
      LaterSeesFewer(record[..|record| - 1], at, now);
    }
  }

  /** Bounded at every delivery is bounded at every instant. */
  lemma {:induction false} BoundedAlways(record: seq<int>, latest: int, rate: nat, now: int)
    requires Chronological(record, latest) && Bounded(record, rate)
    ensures Recent(record, now) <= rate
  {
    if record == [] {
    } else {
      var n := |record| - 1;
      if record[n] <= now {
        LaterSeesFewer(record, record[n], now);
      } else {
        BoundedAlways(record[..n], latest, rate, now);
      }
    }
  }

  /** Over any run under a monotone clock, no minute, whenever it ends, holds more deliveries than the highest rate asked. */
  lemma AtMostRatePerMinute(now: int, rs: seq<Request>, rate: nat, at: int)
    requires InOrder(now, rs) && forall r | r in rs :: r.rate <= rate
    ensures Recent(Delivered([], [], rs), at) <= rate
  {
    var latest := RunIsBounded([], [], now, rs, rate);
    BoundedAlways(Delivered([], [], rs), latest, rate, at);
  }
}
