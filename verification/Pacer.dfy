/**
 Pacing a generator: the token bucket refilled from elapsed time, and the target rate
 (apps/syslog-hose/internal/engine/job.go). Times are seconds and floats are reals.
 */
module Pacer {
  const TICK := 0.05
  const MAX_RATE := 50000.0

  /** The product of two reals, named so that the facts below can be applied to it. */
  function Times(a: real, b: real): real { a * b }

  lemma TimesNonNegative(a: real, b: real)
    requires a >= 0.0 && b >= 0.0
    ensures Times(a, b) >= 0.0
  {
  }

  lemma TimesDistributes(a: real, b: real, c: real)
    ensures Times(a, b + c) == Times(a, b) + Times(a, c)
    ensures Times(a, b) == Times(b, a)
    ensures Times(a, 0.0) == 0.0 && Times(a, 1.0) == a
  {
  }

  lemma TimesMonotone(a: real, b: real, c: real)
    requires a >= 0.0 && b <= c
    ensures Times(a, b) <= Times(a, c)
  {
    TimesNonNegative(a, c - b);
    TimesDistributes(a, b, c - b);
  }

  // ----- the target rate

  datatype Mode = Steady | Jitter | Burst

  datatype Shape = Shape(base: real, mode: Mode, jitterPct: real, burstFactor: real, burstEvery: int, burstLen: int)

  function MaxInt(a: int, b: int): int { if a > b then a else b }

  function NewShape(rate: real, mode: Mode, jitterPct: real, burstFactor: real, burstEvery: int, burstLen: int): Shape {
    Shape(rate, mode, if jitterPct <= 0.0 then 30.0 else jitterPct, if burstFactor <= 1.0 then 5.0 else burstFactor,
          MaxInt(burstEvery, 10), MaxInt(burstLen, 1))
  }

  function Clamp(r: real): real { if r < 0.0 then 0.0 else if r > MAX_RATE then MAX_RATE else r }

  /** `draw` is the random number in [0,1) that jitter mode takes; elapsed whole seconds. */
  function Rate(s: Shape, elapsed: nat, draw: real): real
    requires s.burstEvery > 0
  {
    match s.mode
    case Steady => Clamp(s.base)
    case Jitter => Clamp(Times(s.base, 1.0 + Times(draw * 2.0 - 1.0, s.jitterPct) / 100.0))
    case Burst => Clamp(if elapsed % s.burstEvery < s.burstLen then Times(s.base, s.burstFactor) else s.base)
  }

  /** A steady job runs at its configured rate, at every moment, between standstill and the ceiling. */
  lemma SteadyShape(s: Shape, elapsed: nat, draw: real)
    requires s.burstEvery > 0 && s.mode.Steady?
    ensures 0.0 <= s.base <= MAX_RATE ==> Rate(s, elapsed, draw) == s.base
    ensures s.base < 0.0 ==> Rate(s, elapsed, draw) == 0.0
    ensures s.base > MAX_RATE ==> Rate(s, elapsed, draw) == MAX_RATE
  {
  }

  /** A burst never lowers the rate, never exceeds the ceiling, and is over outside its slot. */
  lemma BurstShape(s: Shape, elapsed: nat, draw: real)
    requires s.burstEvery > 0 && s.mode.Burst? && 0.0 < s.base <= MAX_RATE && s.burstFactor > 1.0
    ensures s.base <= Rate(s, elapsed, draw) <= MAX_RATE
    ensures elapsed % s.burstEvery >= s.burstLen ==> Rate(s, elapsed, draw) == s.base
    ensures elapsed % s.burstEvery < s.burstLen && s.base < MAX_RATE ==> Rate(s, elapsed, draw) > s.base
  {
    Boost(s.base, s.burstFactor);
  }

  lemma Boost(base: real, factor: real)
    requires base > 0.0 && factor > 1.0
    ensures Times(base, factor) > base
  {
    TimesDistributes(base, 1.0, factor - 1.0);
    assert Times(base, factor - 1.0) > 0.0;
  }

  /** Jitter stays within its percentage of the base rate, on either side; a draw of one half is the base rate. */
  lemma JitterShape(s: Shape, elapsed: nat, draw: real)
    requires s.burstEvery > 0 && s.mode.Jitter? && 0.0 <= s.base <= MAX_RATE && 0.0 <= draw <= 1.0
    requires 0.0 <= s.jitterPct <= 100.0
    ensures var swing := Times(s.base, s.jitterPct / 100.0);
            && s.base - swing <= Rate(s, elapsed, draw) <= Min(s.base + swing, MAX_RATE)
            && (draw == 0.0 ==> Rate(s, elapsed, draw) == s.base - swing)
            && (draw == 1.0 ==> Rate(s, elapsed, draw) == Min(s.base + swing, MAX_RATE))
            && (draw == 0.5 ==> Rate(s, elapsed, draw) == s.base)
  {
    var p, x := s.jitterPct / 100.0, draw * 2.0 - 1.0;
    assert Times(x, s.jitterPct) / 100.0 == Times(p, x);
    TimesMonotone(p, x, 1.0);
    TimesMonotone(p, -1.0, x);
    TimesDistributes(p, 1.0, 0.0);
    assert Times(p, -1.0) == -p;
    TimesMonotone(s.base, 1.0 - p, 1.0 + Times(p, x));
    TimesMonotone(s.base, 1.0 + Times(p, x), 1.0 + p);
    TimesMonotone(s.base, p, 1.0);
    TimesDistributes(s.base, 1.0, p);
    TimesDistributes(s.base, 1.0, -p);
    assert Times(s.base, -p) == -Times(s.base, p);
  }

  /** Whatever a config says, bursts have a slot to recur in, last, and raise the rate; jitter has a width. */
  lemma ShapesAreUsable(rate: real, mode: Mode, jitterPct: real, burstFactor: real, burstEvery: int, burstLen: int)
    ensures var s := NewShape(rate, mode, jitterPct, burstFactor, burstEvery, burstLen);
            && s.base == rate && s.mode == mode
            && s.jitterPct > 0.0 && s.burstFactor > 1.0 && s.burstEvery >= 10 && s.burstLen >= 1
            && (jitterPct > 0.0 ==> s.jitterPct == jitterPct) && (burstFactor > 1.0 ==> s.burstFactor == burstFactor)
            && (burstEvery >= 10 ==> s.burstEvery == burstEvery) && (burstLen >= 1 ==> s.burstLen == burstLen)
  {
  }

  predicate InSlot(s: Shape, second: nat)
    requires s.burstEvery > 0
  {
    second % s.burstEvery < s.burstLen
  }

  /** Seconds of a burst slot among the n from `from` on. */
  function SlotSeconds(s: Shape, from: nat, n: nat): nat
    requires s.burstEvery > 0
  {
    if n == 0 then 0 else SlotSeconds(s, from, n - 1) + if InSlot(s, from + n - 1) then 1 else 0
  }

  lemma MultipleAtLeast(k: int, m: int)
    requires m > 0
    ensures k >= 1 ==> k * m >= m
    ensures k <= -1 ==> k * m <= -m
  {
    if k >= 1 { assert (k - 1) * m >= 0 && k * m == (k - 1) * m + m; }
    if k <= -1 { assert (k + 1) * m <= 0 && k * m == (k + 1) * m - m; }
  }

  lemma SmallPlace(a: nat, m: nat)
    requires a < m
    ensures a % m == a
  {
    assert a == (a / m) * m + a % m;
    MultipleAtLeast(a / m, m);
  }

  lemma {:induction false} FirstPeriod(s: Shape, n: nat)
    requires n <= s.burstEvery && s.burstEvery > 0 && s.burstLen > 0
    ensures SlotSeconds(s, 0, n) == if n <= s.burstLen then n else s.burstLen
  {
    if n == 0 {
    } else {
      FirstPeriod(s, n - 1);
      SmallPlace(n - 1, s.burstEvery);
    }
  }

  /** Looking one second later trades the first second for the one behind the last. */
  lemma {:induction false} Slides(s: Shape, from: nat, n: nat)
    requires s.burstEvery > 0
    ensures SlotSeconds(s, from, n + 1) == SlotSeconds(s, from + 1, n) + if InSlot(s, from) then 1 else 0
  {
    if n == 0 {
    } else {
      Slides(s, from, n - 1);
    }
  }

  /** One period later is the same second of the period. */
  lemma SamePlace(a: nat, m: nat)
    requires m > 0
    ensures (a + m) % m == a % m
  {
    var q, p := a / m, (a + m) / m;
    assert a == q * m + a % m && a + m == p * m + (a + m) % m;
    assert (p - q - 1) * m == p * m - q * m - m;
    MultipleAtLeast(p - q - 1, m);
  }

  lemma SameSecond(s: Shape, from: nat)
    requires s.burstEvery > 0
    ensures InSlot(s, from) <==> InSlot(s, from + s.burstEvery)
  {
    SamePlace(from, s.burstEvery);
  }

  lemma {:induction false} AnyPeriod(s: Shape, from: nat)
    requires s.burstEvery > 0 && s.burstLen > 0
    ensures SlotSeconds(s, from, s.burstEvery) == if s.burstEvery <= s.burstLen then s.burstEvery else s.burstLen
  {
    if from == 0 {
      FirstPeriod(s, s.burstEvery);
    } else {
      AnyPeriod(s, from - 1);
      Slides(s, from - 1, s.burstEvery);
      SameSecond(s, from - 1);
    }
  }

  /** Seconds, among the n from `from` on, in which the target rate is above the base rate. */
  function FastSeconds(s: Shape, from: nat, n: nat): nat
    requires s.burstEvery > 0
  {
    if n == 0 then 0 else FastSeconds(s, from, n - 1) + if Rate(s, from + n - 1, 0.0) > s.base then 1 else 0
  }

  lemma {:induction false} FastInSlots(s: Shape, from: nat, n: nat)
    requires s.burstEvery > 0 && s.mode.Burst? && 0.0 < s.base < MAX_RATE && s.burstFactor > 1.0
    ensures FastSeconds(s, from, n) == SlotSeconds(s, from, n)
  {
    if n == 0 {
    } else {
      FastInSlots(s, from, n - 1);
      BurstShape(s, from + n - 1, 0.0);
    }
  }

  /**
   However a burst job is configured, of any burstEvery seconds in a row exactly burstLen run
   faster than the base rate, or all of them if the burst is as long as its period.
   */
  lemma BurstsKeepTheirShare(rate: real, jitterPct: real, burstFactor: real, burstEvery: int, burstLen: int, from: nat)
    requires 0.0 < rate < MAX_RATE
    ensures var s := NewShape(rate, Burst, jitterPct, burstFactor, burstEvery, burstLen);
            && s.burstEvery >= 10 && s.burstLen >= 1
            && (burstEvery >= 10 ==> s.burstEvery == burstEvery) && (burstLen >= 1 ==> s.burstLen == burstLen)
            && FastSeconds(s, from, s.burstEvery) == if s.burstEvery <= s.burstLen then s.burstEvery else s.burstLen
  {
    var s := NewShape(rate, Burst, jitterPct, burstFactor, burstEvery, burstLen);
    ShapesAreUsable(rate, Burst, jitterPct, burstFactor, burstEvery, burstLen);
    AnyPeriod(s, from);
    FastInSlots(s, from, s.burstEvery);
  }

  // ----- the bucket

  datatype Bucket = Bucket(last: real, tokens: real)

  function Capacity(rate: real): real { 1.0 + Times(rate, 2.0 * TICK) }

  function Min(a: real, b: real): real { if a < b then a else b }

  /** What the bucket would hold at `now`, before the cap. */
  function Filled(b: Bucket, now: real, rate: real): real {
    if now - b.last > 0.0 then b.tokens + Times(rate, now - b.last) else b.tokens
  }

  /** take: refill, cap, and remove the whole events. */
  function Taken(b: Bucket, now: real, rate: real): (Bucket, int) {
    var held := Min(Filled(b, now, rate), Capacity(rate));
    (Bucket(now, held - held.Floor as real), held.Floor)
  }

  class TokenBucket {
    var last: real
    var tokens: real

    function View(): Bucket
      reads this
    {
      Bucket(last, tokens)
    }

    /** The first event goes out on the first tick. */
    constructor (start: real)
      ensures View() == Bucket(start, 1.0)
    {
      last, tokens := start, 1.0;
    }

    method Take(now: real, rate: real) returns (n: int)
      modifies this
      ensures (View(), n) == Taken(old(View()), now, rate)
    {
      var dt := now - last;
      if dt > 0.0 {
        tokens := tokens + Times(rate, dt);
      }
      last := now;
      var capacity := 1.0 + Times(rate, 2.0 * TICK);
      if tokens > capacity {
        tokens := capacity;
      }
      n := tokens.Floor;
      tokens := tokens - n as real;
    }
  }

  // ----- runs of wake-ups

  datatype Wake = Wake(now: real, rate: real)

  /** Wake-ups under a monotone clock with a rate the shape can produce. */
  ghost predicate Wakes(from: real, ws: seq<Wake>)
    decreases |ws|
  {
    ws == [] || (from <= ws[0].now && 0.0 <= ws[0].rate <= MAX_RATE && Wakes(ws[0].now, ws[1..]))
  }

  function After(b: Bucket, ws: seq<Wake>): Bucket
    decreases |ws|
  {
    if ws == [] then b else After(Taken(b, ws[0].now, ws[0].rate).0, ws[1..])
  }

  function Emitted(b: Bucket, ws: seq<Wake>): int
    decreases |ws|
  {
    if ws == [] then 0
    else Taken(b, ws[0].now, ws[0].rate).1 + Emitted(Taken(b, ws[0].now, ws[0].rate).0, ws[1..])
  }

  /** The sum of rate times elapsed time. */
  function Due(from: real, ws: seq<Wake>): real
    decreases |ws|
  {
    if ws == [] then 0.0 else Times(ws[0].rate, ws[0].now - from) + Due(ws[0].now, ws[1..])
  }

  function End(from: real, ws: seq<Wake>): real {
    if ws == [] then from else ws[|ws| - 1].now
  }

  /** No wake-up is more than two ticks after the one before. */
  ghost predicate Prompt(from: real, ws: seq<Wake>)
    decreases |ws|
  {
    ws == [] || (ws[0].now - from <= 2.0 * TICK && Prompt(ws[0].now, ws[1..]))
  }

  /** One take leaves a fraction of an event, loses nothing without the cap, and never emits a backlog. */
  lemma TakeAccounts(b: Bucket, now: real, rate: real)
    requires 0.0 <= b.tokens && b.last <= now && 0.0 <= rate
    ensures var (c, n) := Taken(b, now, rate);
            && c.last == now && 0.0 <= c.tokens < 1.0 && 0 <= n
            && n as real <= Capacity(rate)
            && n as real + c.tokens <= b.tokens + Times(rate, now - b.last)
            && (b.tokens <= 1.0 && now - b.last <= 2.0 * TICK ==> n as real + c.tokens == b.tokens + Times(rate, now - b.last))
  {
    TimesNonNegative(rate, now - b.last);
    TimesNonNegative(rate, 2.0 * TICK);
    TimesDistributes(rate, 0.0, 0.0);
    var held := Min(Filled(b, now, rate), Capacity(rate));
    assert held.Floor as real <= held < held.Floor as real + 1.0;
    if now - b.last <= 2.0 * TICK { TimesMonotone(rate, now - b.last, 2.0 * TICK); }
  }

  /** Tokens stay in [0,1) after every take of a run. */
  lemma {:induction false} FractionLeft(b: Bucket, ws: seq<Wake>)
    requires 0.0 <= b.tokens && Wakes(b.last, ws) && ws != []
    ensures 0.0 <= After(b, ws).tokens < 1.0
    decreases |ws|
  {
    TakeAccounts(b, ws[0].now, ws[0].rate);
    if |ws| > 1 { FractionLeft(Taken(b, ws[0].now, ws[0].rate).0, ws[1..]); }
  }

  /** Whatever the gaps, a run emits no more than it started with plus what came due. */
  lemma {:induction false} EmitsAtMostDue(b: Bucket, ws: seq<Wake>)
    requires 0.0 <= b.tokens && Wakes(b.last, ws)
    ensures Emitted(b, ws) as real + After(b, ws).tokens <= b.tokens + Due(b.last, ws)
    ensures Emitted(b, ws) >= 0 && 0.0 <= After(b, ws).tokens
    decreases |ws|
  {
    if ws == [] {
    } else {
      TakeAccounts(b, ws[0].now, ws[0].rate);
      EmitsAtMostDue(Taken(b, ws[0].now, ws[0].rate).0, ws[1..]);
    }
  }

  lemma {:induction false} DueAtMostCeiling(from: real, ws: seq<Wake>)
    requires Wakes(from, ws)
    ensures Due(from, ws) <= Times(MAX_RATE, End(from, ws) - from)
    decreases |ws|
  {
    if ws == [] {
    } else {
      var w := ws[0];
      TimesMonotone(w.now - from, w.rate, MAX_RATE);
      TimesDistributes(w.now - from, w.rate, 0.0);
      TimesDistributes(w.now - from, MAX_RATE, 0.0);
      TimesDistributes(MAX_RATE, w.now - from, End(w.now, ws[1..]) - w.now);
      DueAtMostCeiling(w.now, ws[1..]);
      assert End(from, ws) == End(w.now, ws[1..]);
    }
  }

  /** Total events of a job run: at most 1 + the sum of rate times elapsed, at most 1 + 50000 a second. */
  lemma NeverOverRate(start: real, ws: seq<Wake>)
    requires Wakes(start, ws)
    ensures Emitted(Bucket(start, 1.0), ws) as real <= 1.0 + Due(start, ws)
    ensures 1.0 + Due(start, ws) <= 1.0 + MAX_RATE * (End(start, ws) - start)
  {
    EmitsAtMostDue(Bucket(start, 1.0), ws);
    DueAtMostCeiling(start, ws);
  }

  lemma {:induction false} PromptLosesNothing(b: Bucket, ws: seq<Wake>)
    requires 0.0 <= b.tokens <= 1.0 && Wakes(b.last, ws) && Prompt(b.last, ws)
    ensures Emitted(b, ws) as real + After(b, ws).tokens == b.tokens + Due(b.last, ws)
    decreases |ws|
  {
    if ws == [] {
    } else {
      TakeAccounts(b, ws[0].now, ws[0].rate);
      PromptLosesNothing(Taken(b, ws[0].now, ws[0].rate).0, ws[1..]);
    }
  }

  /** When every gap is at most two ticks the total is exactly the floor of 1 + what came due. */
  lemma PromptIsExact(start: real, ws: seq<Wake>)
    requires Wakes(start, ws) && Prompt(start, ws) && ws != []
    ensures Emitted(Bucket(start, 1.0), ws) == (1.0 + Due(start, ws)).Floor
  {
    PromptLosesNothing(Bucket(start, 1.0), ws);
    FractionLeft(Bucket(start, 1.0), ws);
  }

  /** A stall of a whole second at 100 events/s: 101 came due, 11 go out. */
  lemma StallIsNotMadeUp(start: real)
    ensures var ws := [Wake(start + 1.0, 100.0)];
            Wakes(start, ws) && (1.0 + Due(start, ws)).Floor == 101 && Emitted(Bucket(start, 1.0), ws) == 11
  {
    var ws := [Wake(start + 1.0, 100.0)];
    assert ws[1..] == [];
    assert Wakes(start + 1.0, ws[1..]) && Due(start + 1.0, ws[1..]) == 0.0;
    assert Due(start, ws) == 100.0;
    assert Capacity(100.0) == 11.0;
  }
}
