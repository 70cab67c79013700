/**
 Rate limiting across the notification dispatcher's workers and reloads: every loaded channel has
 one limiter of its own, all its workers ask that one, and so its rate holds over every
 interleaving for as long as the channel stays loaded
 (apps/syslog-bucket/internal/notify/notify.go, limiter.go).
 */
module NotifyRates {
  import opened Notify
  import Limiter

  // ----- one limiter per channel

  ghost predicate OwnLimiters(s: State) {
    && s.cfg.limiters.Keys == s.cfg.channels.Keys && |s.cfg.windows| == |s.cfg.owners|
    && forall c | c in s.cfg.limiters :: s.cfg.limiters[c] < |s.cfg.owners| && s.cfg.owners[s.cfg.limiters[c]] == c
  }

  ghost predicate AsksOwn(w: Worker, owners: seq<ChannelId>) {
    !w.Creating? && (w.Asking? ==> w.lim < |owners| && owners[w.lim] == w.job.channel)
  }

  ghost predicate PassedOwn(p: Pass, owners: seq<ChannelId>) { p.lim < |owners| && owners[p.lim] == p.job.channel }

  /**
   Every loaded channel has its own limiter and no other channel has one, so no worker ever has
   to make one; workers ask, and deliveries passed, the limiter of their channel.
   */
  ghost predicate Tidy(s: State) {
    && OwnLimiters(s)
    && (forall w | w in s.workers :: AsksOwn(w, s.cfg.owners))
    && (forall p | p in s.passes :: PassedOwn(p, s.cfg.owners))
  }

  lemma {:induction false} WithLimitersAdds(limiters: map<ChannelId, nat>, n: nat, added: seq<ChannelId>)
    requires Distinct(added) && forall c | c in added :: c !in limiters
    ensures var all := WithLimiters(limiters, n, added);
            && all.Keys == limiters.Keys + (set c | c in added)
            && (forall c | c in limiters :: all[c] == limiters[c])
            && forall i | 0 <= i < |added| :: all[added[i]] == n + i
    decreases |added|
  {
    if added == [] {
    } else {
      var rest := added[1..];
      assert forall i | 0 <= i < |rest| :: rest[i] == added[i + 1];
      WithLimitersAdds(limiters[added[0] := n], n + 1, rest);
    }
  }

  lemma ReloadKeys(s: State, list: map<ChannelId, Channel>, added: seq<ChannelId>)
    requires OwnLimiters(s) && Enabled(s, Reload(list, added))
    ensures Reloaded(s, list, added).cfg.limiters.Keys == list.Keys
  {
    WithLimitersAdds(s.cfg.limiters, |s.cfg.owners|, added);
    forall c | c in list ensures c in Reloaded(s, list, added).cfg.limiters {
      assert c in s.cfg.limiters || c in added;
    }
  }

  /** After making limiters for `added`, each channel that has one is the owner of its number. */
  lemma MadeForOwner(limiters: map<ChannelId, nat>, owners: seq<ChannelId>, added: seq<ChannelId>, c: ChannelId)
    requires Distinct(added) && (forall x | x in added :: x !in limiters) && c in WithLimiters(limiters, |owners|, added)
    requires forall x | x in limiters :: limiters[x] < |owners| && owners[limiters[x]] == x
    ensures var l := WithLimiters(limiters, |owners|, added)[c]; l < |owners + added| && (owners + added)[l] == c
  {
    WithLimitersAdds(limiters, |owners|, added);
    if c !in limiters {
      var i :| 0 <= i < |added| && added[i] == c;
    }
  }

  lemma ReloadOwns(s: State, list: map<ChannelId, Channel>, added: seq<ChannelId>)
    requires OwnLimiters(s) && Enabled(s, Reload(list, added))
    ensures OwnLimiters(Reloaded(s, list, added))
  {
    ReloadKeys(s, list, added);
    var g := Reloaded(s, list, added).cfg;
    forall c | c in g.limiters ensures g.limiters[c] < |g.owners| && g.owners[g.limiters[c]] == c {
      MadeForOwner(s.cfg.limiters, s.cfg.owners, added, c);
    }
  }

  lemma ReloadTidy(s: State, list: map<ChannelId, Channel>, added: seq<ChannelId>)
    requires Tidy(s) && Enabled(s, Reload(list, added))
    ensures Tidy(Reloaded(s, list, added))
  {
    ReloadOwns(s, list, added);
    assert forall w | w in s.workers :: AsksOwn(w, s.cfg.owners) ==> AsksOwn(w, s.cfg.owners + added);
    assert forall p | p in s.passes :: PassedOwn(p, s.cfg.owners) ==> PassedOwn(p, s.cfg.owners + added);
  }

  /** No worker is about to make a missing limiter. */
  lemma NoneCreates(s: State, w: nat)
    requires Tidy(s)
    ensures !Enabled(s, Work(w, Create))
  {
    assert w < |s.workers| ==> s.workers[w] in s.workers;
  }

  /** A worker goes on with the channel's own limiter, or skips. */
  lemma LookFinds(s: State, w: nat)
    requires Tidy(s) && Enabled(s, Work(w, Look))
    ensures var j := s.workers[w].job;
            Looked(s, w) == if j.channel in s.cfg.channels && s.cfg.channels[j.channel].enabled
                            then Becomes(s, w, Asking(j, s.cfg.channels[j.channel].rate, s.cfg.limiters[j.channel]))
                            else Skip(s, w)
  {
  }

  lemma BecomesTidy(s: State, w: nat, x: Worker)
    requires Tidy(s) && w < |s.workers| && AsksOwn(x, s.cfg.owners)
    ensures Tidy(Becomes(s, w, x))
  {
    assert forall y | y in s.workers[w := x] :: y in s.workers || y == x;
  }

  lemma LookTidy(s: State, w: nat)
    requires Tidy(s) && Enabled(s, Work(w, Look))
    ensures Tidy(Looked(s, w))
  {
    var j := s.workers[w].job;
    BecomesTidy(s, w, Idle);
    if j.channel in s.cfg.channels {
      BecomesTidy(s, w, Asking(j, s.cfg.channels[j.channel].rate, s.cfg.limiters[j.channel]));
    }
  }

  lemma AskTidy(s: State, w: nat, now: int)
    requires Tidy(s) && Enabled(s, Work(w, Ask(now)))
    ensures Tidy(Judged(s, w, now))
  {
    var x, t := s.workers[w], Judged(s, w, now);
    assert x in s.workers;
    BecomesTidy(s, w, t.workers[w]);
    assert forall p | p in t.passes :: p in s.passes || p == Pass(x.job, x.lim, now);
  }

  predicate PlainAct(act: Act) { !act.Look? && !act.Create? && !act.Ask? }

  /** Other acts change the worker and nothing about channels, limiters and passes. */
  lemma PlainActStays(s: State, w: nat, act: Act)
    requires Enabled(s, Work(w, act)) && PlainAct(act)
    ensures var t := Acted(s, w, act);
            && t.cfg == s.cfg && t.passes == s.passes && t.clock == s.clock && |t.workers| == |s.workers|
            && t.workers == s.workers[w := t.workers[w]] && !t.workers[w].Asking? && !t.workers[w].Creating?
  {
  }

  lemma PlainActTidy(s: State, w: nat, act: Act)
    requires Tidy(s) && Enabled(s, Work(w, act)) && PlainAct(act)
    ensures Tidy(Acted(s, w, act))
  {
    PlainActStays(s, w, act);
    BecomesTidy(s, w, Acted(s, w, act).workers[w]);
  }

  lemma ActTidy(s: State, w: nat, act: Act)
    requires Tidy(s) && Enabled(s, Work(w, act))
    ensures Tidy(Acted(s, w, act))
  {
    NoneCreates(s, w);
    if act.Look? { LookTidy(s, w); }
    else if act.Ask? { AskTidy(s, w, act.now); }
    else { PlainActTidy(s, w, act); }
  }

  /** Steps of Dispatch, flushing and Shutdown leave channels, limiters, workers and passes alone. */
  lemma OtherStepsStay(s: State, step: Step)
    requires Enabled(s, step) && !step.Work? && !step.Reload?
    ensures var t := Next(s, step);
            t.cfg == s.cfg && t.workers == s.workers && t.passes == s.passes && t.clock == s.clock
  {
  }

  lemma StepTidy(s: State, step: Step)
    requires Tidy(s) && Enabled(s, step)
    ensures Tidy(Next(s, step))
  {
    if step.Work? { ActTidy(s, step.w, step.act); }
    else if step.Reload? { ReloadTidy(s, step.list, step.added); }
    else { OtherStepsStay(s, step); }
  }

  lemma {:induction false} RunTidy(s: State, steps: seq<Step>, t: State)
    requires Tidy(s) && Run(s, steps, t)
    ensures Tidy(t)
    decreases |steps|
  {
    if steps == [] {
    } else {
      StepTidy(s, steps[0]);
      RunTidy(Next(s, steps[0]), steps[1..], t);
    }
  }

  /** Over every run each loaded channel has its limiter, so the fallback that makes a missing one is never reached. */
  lemma NeverCreates(steps: seq<Step>, t: State, w: nat)
    requires Run(START, steps, t)
    ensures t.cfg.limiters.Keys == t.cfg.channels.Keys && !Enabled(t, Work(w, Create))
  {
    RunTidy(START, steps, t);
    NoneCreates(t, w);
  }

  // ----- the rate of a channel

  /** The instants at which limiter l let a delivery through. */
  function TimesOf(passes: seq<Pass>, l: nat): seq<int> {
    if passes == [] then []
    else
      var p := passes[|passes| - 1];
      var before := TimesOf(passes[..|passes| - 1], l);
      if p.lim == l then before + [p.now] else before
  }

  lemma TimesAppend(passes: seq<Pass>, p: Pass, l: nat)
    ensures TimesOf(passes + [p], l) == if p.lim == l then TimesOf(passes, l) + [p.now] else TimesOf(passes, l)
  {
    assert (passes + [p])[..|passes|] == passes;
  }

  lemma {:induction false} NoTimes(passes: seq<Pass>, l: nat)
    requires forall p | p in passes :: p.lim != l
    ensures TimesOf(passes, l) == []
  {
    if passes == [] {
    } else {
      NoTimes(passes[..|passes| - 1], l);
    }
  }

  ghost predicate WithinRate(ch: Channel, rate: nat) { 1 <= ch.rate <= rate }

  ghost predicate AsksWithin(w: Worker, c: ChannelId, rate: nat) {
    w.Asking? && w.job.channel == c ==> 1 <= w.rate <= rate
  }

  /** Limiter l remembers what it must of its deliveries, which have kept to the rate. */
  ghost predicate Limits(s: State, l: nat, rate: nat) {
    && l < |s.cfg.windows|
    && Limiter.Remembers(s.cfg.windows[l], TimesOf(s.passes, l), s.clock)
    && Limiter.Bounded(TimesOf(s.passes, l), rate)
  }

  /** Channel c is configured with a rate of 1 to `rate`, and each of its limiters has kept to it. */
  ghost predicate Rated(s: State, c: ChannelId, rate: nat) {
    && (c in s.cfg.channels ==> WithinRate(s.cfg.channels[c], rate))
    && (forall w | w in s.workers :: AsksWithin(w, c, rate))
    && (forall l | 0 <= l < |s.cfg.owners| && s.cfg.owners[l] == c :: Limits(s, l, rate))
  }

  ghost predicate LoadsWithin(step: Step, c: ChannelId, rate: nat) {
    step.Reload? && c in step.list ==> WithinRate(step.list[c], rate)
  }

  lemma ReloadRated(s: State, list: map<ChannelId, Channel>, added: seq<ChannelId>, c: ChannelId, rate: nat)
    requires Tidy(s) && Rated(s, c, rate) && Enabled(s, Reload(list, added)) && LoadsWithin(Reload(list, added), c, rate)
    ensures Rated(Reloaded(s, list, added), c, rate)
  {
    var t := Reloaded(s, list, added);
    forall l | 0 <= l < |t.cfg.owners| && t.cfg.owners[l] == c ensures Limits(t, l, rate) {
      if l < |s.cfg.owners| {
        assert Limits(s, l, rate);
      } else {
        assert forall p | p in s.passes :: PassedOwn(p, s.cfg.owners);
        NoTimes(s.passes, l);
      }
    }
  }

  lemma BecomesRated(s: State, w: nat, x: Worker, c: ChannelId, rate: nat)
    requires Rated(s, c, rate) && w < |s.workers| && AsksWithin(x, c, rate)
    ensures Rated(Becomes(s, w, x), c, rate)
  {
    var t := Becomes(s, w, x);
    assert forall y | y in t.workers :: y in s.workers || y == x;
    assert forall l | 0 <= l < |t.cfg.owners| && t.cfg.owners[l] == c :: Limits(s, l, rate) ==> Limits(t, l, rate);
  }

  /** What asking does to limiter l's window and record. */
  lemma AskMoves(s: State, w: nat, now: int, l: nat)
    requires Enabled(s, Work(w, Ask(now))) && l < |s.cfg.windows|
    ensures var x, t := s.workers[w], Judged(s, w, now);
            var (kept, ok) := Limiter.Asked(s.cfg.windows[x.lim], x.rate, now);
            && |t.cfg.windows| == |s.cfg.windows| && t.clock == now
            && t.cfg.windows[l] == (if x.lim == l then kept else s.cfg.windows[l])
            && TimesOf(t.passes, l) == if x.lim == l && ok then TimesOf(s.passes, l) + [now] else TimesOf(s.passes, l)
  {
    var x := s.workers[w];
    TimesAppend(s.passes, Pass(x.job, x.lim, now), l);
  }

  lemma AskRated(s: State, w: nat, now: int, c: ChannelId, rate: nat)
    requires Tidy(s) && Rated(s, c, rate) && Enabled(s, Work(w, Ask(now)))
    ensures Rated(Judged(s, w, now), c, rate)
  {
    var x, t := s.workers[w], Judged(s, w, now);
    assert x in s.workers && AsksOwn(x, s.cfg.owners) && AsksWithin(x, c, rate);
    assert forall y | y in t.workers :: y in s.workers || y == t.workers[w];
    forall l | 0 <= l < |t.cfg.owners| && t.cfg.owners[l] == c ensures Limits(t, l, rate) {
      AskMoves(s, w, now, l);
      if x.lim == l {
        Limiter.AskKeepsBound(s.cfg.windows[l], TimesOf(s.passes, l), s.clock, x.rate, now, rate);
      } else {
        Limiter.RemembersLater(s.cfg.windows[l], TimesOf(s.passes, l), s.clock, now);
      }
    }
  }

  /** Steps that leave the channels, the limiters and the workers' questions alone. */
  lemma UnaskedRated(s: State, t: State, c: ChannelId, rate: nat)
    requires Rated(s, c, rate) && t.cfg.channels == s.cfg.channels && t.workers == s.workers
    requires t.cfg.owners == s.cfg.owners && t.cfg.windows == s.cfg.windows && t.passes == s.passes && t.clock == s.clock
    ensures Rated(t, c, rate)
  {
    assert forall l | 0 <= l < |t.cfg.owners| && t.cfg.owners[l] == c :: Limits(s, l, rate) ==> Limits(t, l, rate);
  }

  lemma LookRated(s: State, w: nat, c: ChannelId, rate: nat)
    requires Tidy(s) && Rated(s, c, rate) && Enabled(s, Work(w, Look))
    ensures Rated(Looked(s, w), c, rate)
  {
    var j := s.workers[w].job;
    LookFinds(s, w);
    if j.channel in s.cfg.channels && s.cfg.channels[j.channel].enabled {
      BecomesRated(s, w, Asking(j, s.cfg.channels[j.channel].rate, s.cfg.limiters[j.channel]), c, rate);
    } else {
      BecomesRated(s, w, Idle, c, rate);
      UnaskedRated(Becomes(s, w, Idle), Skip(s, w), c, rate);
    }
  }

  lemma PlainActRated(s: State, w: nat, act: Act, c: ChannelId, rate: nat)
    requires Rated(s, c, rate) && Enabled(s, Work(w, act)) && PlainAct(act)
    ensures Rated(Acted(s, w, act), c, rate)
  {
    var t := Acted(s, w, act);
    PlainActStays(s, w, act);
    BecomesRated(s, w, t.workers[w], c, rate);
    UnaskedRated(Becomes(s, w, t.workers[w]), t, c, rate);
  }

  lemma ActRated(s: State, w: nat, act: Act, c: ChannelId, rate: nat)
    requires Tidy(s) && Rated(s, c, rate) && Enabled(s, Work(w, act))
    ensures Rated(Acted(s, w, act), c, rate)
  {
    NoneCreates(s, w);
    if act.Look? { LookRated(s, w, c, rate); }
    else if act.Ask? { AskRated(s, w, act.now, c, rate); }
    else { PlainActRated(s, w, act, c, rate); }
  }

  lemma StepRated(s: State, step: Step, c: ChannelId, rate: nat)
    requires Tidy(s) && Rated(s, c, rate) && Enabled(s, step) && LoadsWithin(step, c, rate)
    ensures Rated(Next(s, step), c, rate)
  {
    if step.Reload? { ReloadRated(s, step.list, step.added, c, rate); }
    else if step.Work? { ActRated(s, step.w, step.act, c, rate); }
    else { OtherStepsStay(s, step); UnaskedRated(s, Next(s, step), c, rate); }
  }

  lemma {:induction false} RunRated(s: State, steps: seq<Step>, t: State, c: ChannelId, rate: nat)
    requires Tidy(s) && Rated(s, c, rate) && Run(s, steps, t) && forall step | step in steps :: LoadsWithin(step, c, rate)
    ensures Tidy(t) && Rated(t, c, rate)
    decreases |steps|
  {
    if steps == [] {
    } else {
      assert steps[0] in steps;
      StepTidy(s, steps[0]);
      StepRated(s, steps[0], c, rate);
      RunRated(Next(s, steps[0]), steps[1..], t, c, rate);
    }
  }

  /** Deliveries to channel c in the minute ending at `now` that passed a limiter numbered below n. */
  function PassedBelow(passes: seq<Pass>, c: ChannelId, n: nat, now: int): nat {
    if passes == [] then 0
    else
      var p := passes[|passes| - 1];
      PassedBelow(passes[..|passes| - 1], c, n, now)
      + if p.job.channel == c && p.lim < n && now - Limiter.MINUTE <= p.now <= now then 1 else 0
  }

  /** Deliveries let through to channel c in the minute ending at `now`. */
  function PassedTo(passes: seq<Pass>, c: ChannelId, now: int): nat {
    if passes == [] then 0
    else
      var p := passes[|passes| - 1];
      PassedTo(passes[..|passes| - 1], c, now)
      + if p.job.channel == c && now - Limiter.MINUTE <= p.now <= now then 1 else 0
  }

  /** How often a limiter was made for channel c. */
  function Made(owners: seq<ChannelId>, c: ChannelId): nat {
    if owners == [] then 0 else Made(owners[..|owners| - 1], c) + if owners[|owners| - 1] == c then 1 else 0
  }

  lemma RecentAppend(record: seq<int>, last: int, now: int)
    ensures Limiter.Recent(record + [last], now)
            == Limiter.Recent(record, now) + if now - Limiter.MINUTE <= last <= now then 1 else 0
  {
    assert (record + [last])[..|record|] == record;
  }

  lemma {:induction false} OneMoreLimiter(passes: seq<Pass>, owners: seq<ChannelId>, c: ChannelId, n: nat, now: int)
    requires n < |owners| && forall p | p in passes :: PassedOwn(p, owners)
    ensures PassedBelow(passes, c, n + 1, now)
            == PassedBelow(passes, c, n, now) + if owners[n] == c then Limiter.Recent(TimesOf(passes, n), now) else 0
  {
    if passes == [] {
    } else {
      var init, p := passes[..|passes| - 1], passes[|passes| - 1];
      assert p in passes;
      OneMoreLimiter(init, owners, c, n, now);
      RecentAppend(TimesOf(init, n), p.now, now);
    }
  }

  lemma {:induction false} AllPassed(passes: seq<Pass>, owners: seq<ChannelId>, c: ChannelId, now: int)
    requires forall p | p in passes :: PassedOwn(p, owners)
    ensures PassedTo(passes, c, now) == PassedBelow(passes, c, |owners|, now)
  {
    if passes == [] {
    } else {
      assert passes[|passes| - 1] in passes;
      AllPassed(passes[..|passes| - 1], owners, c, now);
    }
  }

  lemma {:induction false} NonePassed(passes: seq<Pass>, c: ChannelId, now: int)
    ensures PassedBelow(passes, c, 0, now) == 0
  {
    if passes == [] {
    } else {
      NonePassed(passes[..|passes| - 1], c, now);
    }
  }

  lemma {:induction false} EachLimiterAddsRate(passes: seq<Pass>, owners: seq<ChannelId>, c: ChannelId, rate: nat, n: nat, now: int)
    requires n <= |owners| && forall p | p in passes :: PassedOwn(p, owners)
    requires forall l | 0 <= l < n && owners[l] == c :: Limiter.Recent(TimesOf(passes, l), now) <= rate
    ensures PassedBelow(passes, c, n, now) <= rate * Made(owners[..n], c)
  {
    if n == 0 {
      NonePassed(passes, c, now);
    } else {
      EachLimiterAddsRate(passes, owners, c, rate, n - 1, now);
      OneMoreLimiter(passes, owners, c, n - 1, now);
      MadeMore(owners, c, rate, n - 1);
    }
  }

  lemma MadeMore(owners: seq<ChannelId>, c: ChannelId, rate: nat, n: nat)
    requires n < |owners|
    ensures rate * Made(owners[..n + 1], c) == rate * Made(owners[..n], c) + if owners[n] == c then rate else 0
  {
    assert owners[..n + 1][..n] == owners[..n];
  }

  lemma LimitsAlways(s: State, l: nat, rate: nat, now: int)
    requires Limits(s, l, rate)
    ensures Limiter.Recent(TimesOf(s.passes, l), now) <= rate
  {
    Limiter.BoundedAlways(TimesOf(s.passes, l), s.clock, rate, now);
  }

  /**
   Over every interleaving of workers, reloads and Dispatch calls, in no minute are more deliveries
   let through to a channel than its highest rate times the number of limiters made for it.
   */
  lemma RatePerLimiter(steps: seq<Step>, t: State, c: ChannelId, rate: nat, now: int)
    requires Run(START, steps, t) && forall step | step in steps :: LoadsWithin(step, c, rate)
    ensures PassedTo(t.passes, c, now) <= rate * Made(t.cfg.owners, c)
  {
    RunRated(START, steps, t, c, rate);
    AllPassed(t.passes, t.cfg.owners, c, now);
    forall l | 0 <= l < |t.cfg.owners| && t.cfg.owners[l] == c ensures Limiter.Recent(TimesOf(t.passes, l), now) <= rate {
      LimitsAlways(t, l, rate, now);
    }
    EachLimiterAddsRate(t.passes, t.cfg.owners, c, rate, |t.cfg.owners|, now);
    assert t.cfg.owners[..|t.cfg.owners|] == t.cfg.owners;
  }

  /** Once loaded, c is in every later snapshot. */
  ghost predicate StaysLoaded(steps: seq<Step>, c: ChannelId, loaded: bool)
    decreases |steps|
  {
    if steps == [] then true
    else if steps[0].Reload? then (loaded ==> c in steps[0].list) && StaysLoaded(steps[1..], c, c in steps[0].list)
    else StaysLoaded(steps[1..], c, loaded)
  }

  lemma {:induction false} MadeConcat(a: seq<ChannelId>, b: seq<ChannelId>, c: ChannelId)
    ensures Made(a + b, c) == Made(a, c) + Made(b, c)
  {
    if b == [] {
      assert a + b == a;
    } else {
      MadeConcat(a, b[..|b| - 1], c);
      assert (a + b)[..|a + b| - 1] == a + b[..|b| - 1];
    }
  }

  lemma {:induction false} MadeDistinct(added: seq<ChannelId>, c: ChannelId)
    requires Distinct(added)
    ensures Made(added, c) == if c in added then 1 else 0
  {
    if added == [] {
    } else {
      var n := |added| - 1;
      MadeDistinct(added[..n], c);
      assert added == added[..n] + [added[n]];
    }
  }

  ghost predicate AtMostOne(s: State, c: ChannelId) { Made(s.cfg.owners, c) <= if c in s.cfg.channels then 1 else 0 }

  lemma ActMakesNone(s: State, w: nat, act: Act)
    requires Tidy(s) && Enabled(s, Work(w, act))
    ensures Acted(s, w, act).cfg.owners == s.cfg.owners && Acted(s, w, act).cfg.channels == s.cfg.channels
  {
    NoneCreates(s, w);
    if act.Look? { LookFinds(s, w); }
  }

  /** Only a reload makes limiters. */
  lemma OthersMakeNone(s: State, step: Step)
    requires Tidy(s) && Enabled(s, step) && !step.Reload?
    ensures Next(s, step).cfg.owners == s.cfg.owners && Next(s, step).cfg.channels == s.cfg.channels
  {
    if step.Work? { ActMakesNone(s, step.w, step.act); }
  }

  lemma ReloadMakes(s: State, list: map<ChannelId, Channel>, added: seq<ChannelId>, c: ChannelId)
    requires Tidy(s) && Enabled(s, Reload(list, added))
    ensures Made(Reloaded(s, list, added).cfg.owners, c)
            == Made(s.cfg.owners, c) + if c in list && c !in s.cfg.channels then 1 else 0
  {
    MadeConcat(s.cfg.owners, added, c);
    MadeDistinct(added, c);
  }

  lemma StepMakesOne(s: State, step: Step, c: ChannelId)
    requires Tidy(s) && AtMostOne(s, c) && Enabled(s, step)
    requires step.Reload? && c in s.cfg.channels ==> c in step.list
    ensures AtMostOne(Next(s, step), c)
    ensures c in Next(s, step).cfg.channels <==> c in if step.Reload? then step.list else s.cfg.channels
  {
    if step.Reload? { ReloadMakes(s, step.list, step.added, c); } else { OthersMakeNone(s, step); }
  }

  lemma {:induction false} RunMakesOne(s: State, steps: seq<Step>, t: State, c: ChannelId)
    requires Tidy(s) && AtMostOne(s, c) && Run(s, steps, t) && StaysLoaded(steps, c, c in s.cfg.channels)
    ensures AtMostOne(t, c)
    decreases |steps|
  {
    if steps == [] {
    } else {
      StepTidy(s, steps[0]);
      StepMakesOne(s, steps[0], c);
      RunMakesOne(Next(s, steps[0]), steps[1..], t, c);
    }
  }

  /** A channel that is never deleted gets at most its highest rate in any minute, whatever the workers and reloads do. */
  lemma RateHeldWhileLoaded(steps: seq<Step>, t: State, c: ChannelId, rate: nat, now: int)
    requires Run(START, steps, t) && forall step | step in steps :: LoadsWithin(step, c, rate)
    requires StaysLoaded(steps, c, false)
    ensures PassedTo(t.passes, c, now) <= rate
  {
    RatePerLimiter(steps, t, c, rate, now);
    RunMakesOne(START, steps, t, c);
    assert rate * Made(t.cfg.owners, c) <= rate * 1;
  }

  // ----- and the bound is reached

  const ID := ChannelId(1)
  const JOB := Job("", ID, 1)

  function Only(rate: nat): map<ChannelId, Channel> { map[ID := Channel(true, rate)] }

  /** Some run leads to s in which the channel's rate is never over `rate`. */
  ghost predicate Reached(s: State, rate: nat) {
    exists steps: seq<Step> :: Run(START, steps, s) && forall step | step in steps :: LoadsWithin(step, ID, rate)
  }

  lemma Then(s: State, step: Step, rate: nat) returns (t: State)
    requires Reached(s, rate) && Enabled(s, step) && LoadsWithin(step, ID, rate)
    ensures t == Next(s, step) && Reached(t, rate)
  {
    t := Next(s, step);
    var steps: seq<Step> :| Run(START, steps, s) && forall step | step in steps :: LoadsWithin(step, ID, rate);
    RunThen(START, steps, s, step);
    assert forall x | x in steps + [step] :: x in steps || x == step;
  }

  function Zeros(k: nat): seq<int> { seq(k, _ => 0) }

  /** Nothing is queued or in hand, the dispatcher is open, and the clock has not moved. */
  ghost predicate Quiet(s: State) {
    s.started && !s.closed && !s.abandon && s.queue == [] && s.clock == 0 && s.workers == START.workers
  }

  /** The channel is loaded, its limiter is the last one made, all for it, and remembers k deliveries at instant 0. */
  ghost predicate Loaded(g: Config, rate: nat, k: nat) {
    && g.owners != [] && |g.windows| == |g.owners| && g.channels == Only(rate)
    && g.limiters == map[ID := |g.owners| - 1] && g.windows[|g.owners| - 1] == Zeros(k)
  }

  lemma OfferTaken(s: State, rate: nat, k: nat) returns (t: State)
    requires Reached(s, rate) && Quiet(s) && Loaded(s.cfg, rate, k)
    ensures Reached(t, rate) && t.queue == [] && t.workers == START.workers[0 := Looking(JOB)]
    ensures t.started && !t.closed && !t.abandon && t.clock == 0 && t.cfg == s.cfg && t.passes == s.passes
  {
    t := Then(s, Offer(JOB), rate);
    t := Then(t, Work(0, Take), rate);
    t := Then(t, Work(0, CheckAbandon), rate);
  }

  lemma AskedAtZero(k: nat, rate: nat)
    requires k < rate
    ensures Limiter.Asked(Zeros(k), rate, 0) == (Zeros(k + 1), true)
  {
    assert Limiter.Trimmed(Zeros(k), -Limiter.MINUTE) == Zeros(k);
    assert Zeros(k) + [0] == Zeros(k + 1);
  }

  /** While the limiter has room, one more delivery passes and the dispatcher is quiet again. */
  lemma OnePasses(s: State, rate: nat, k: nat) returns (t: State)
    requires Reached(s, rate) && Quiet(s) && Loaded(s.cfg, rate, k) && k < rate
    ensures Reached(t, rate) && Quiet(t) && Loaded(t.cfg, rate, k + 1) && t.cfg.owners == s.cfg.owners
    ensures t.passes == s.passes + [Pass(JOB, |s.cfg.owners| - 1, 0)]
  {
    t := OfferTaken(s, rate, k);
    t := AskOnce(t, rate, k);
    t := Then(t, Work(0, Deliver(true)), rate);
    t := Then(t, Work(0, Log), rate);
  }

  lemma AskOnce(s: State, rate: nat, k: nat) returns (t: State)
    requires Reached(s, rate) && s.workers == START.workers[0 := Looking(JOB)] && s.clock == 0
    requires Loaded(s.cfg, rate, k) && k < rate
    ensures var l := |s.cfg.owners| - 1;
            Reached(t, rate) && Loaded(t.cfg, rate, k + 1)
            && t == s.(workers := START.workers[0 := Delivering(JOB)], passes := s.passes + [Pass(JOB, l, 0)],
                       cfg := s.cfg.(windows := s.cfg.windows[l := Zeros(k + 1)]))
  {
    AskedAtZero(k, rate);
    t := Then(s, Work(0, Look), rate);
    assert t == s.(workers := START.workers[0 := Asking(JOB, rate, |s.cfg.owners| - 1)]);
    t := Then(t, Work(0, Ask(0)), rate);
    assert t.workers == START.workers[0 := Delivering(JOB)];
  }

  lemma OneMorePassed(passes: seq<Pass>, l: nat)
    ensures PassedTo(passes + [Pass(JOB, l, 0)], ID, 0) == PassedTo(passes, ID, 0) + 1
  {
    assert (passes + [Pass(JOB, l, 0)])[..|passes|] == passes;
  }

  /** A fresh limiter lets `rate` deliveries through at one instant. */
  lemma {:induction false} FillLimiter(s: State, rate: nat, k: nat) returns (t: State)
    requires Reached(s, rate) && Quiet(s) && Loaded(s.cfg, rate, k) && k <= rate
    ensures Reached(t, rate) && Quiet(t) && Loaded(t.cfg, rate, rate) && t.cfg.owners == s.cfg.owners
    ensures PassedTo(t.passes, ID, 0) == PassedTo(s.passes, ID, 0) + (rate - k)
    decreases rate - k
  {
    if k == rate {
      t := s;
    } else {
      var u := OnePasses(s, rate, k);
      OneMorePassed(s.passes, |s.cfg.owners| - 1);
      t := FillLimiter(u, rate, k + 1);
    }
  }

  /** The channel is loaded while it has no limiter. */
  lemma Load(s: State, rate: nat) returns (t: State)
    requires Reached(s, rate) && Quiet(s) && s.cfg.limiters == map[] && |s.cfg.windows| == |s.cfg.owners| && 1 <= rate
    ensures Reached(t, rate) && Quiet(t) && Loaded(t.cfg, rate, 0)
    ensures t.cfg.owners == s.cfg.owners + [ID] && t.passes == s.passes
  {
    t := Then(s, Reload(Only(rate), [ID]), rate);
    WithLimitersAdds(map[], |s.cfg.owners|, [ID]);
    assert Fresh(1) == [[]] && Zeros(0) == [];
    assert t.cfg.limiters == map[ID := |s.cfg.owners|];
  }

  lemma Unload(s: State, rate: nat) returns (t: State)
    requires Reached(s, rate) && Quiet(s)
    ensures Reached(t, rate) && Quiet(t) && t.passes == s.passes
    ensures t.cfg == Config(map[], map[], s.cfg.owners, s.cfg.windows)
  {
    t := Then(s, Reload(map[], []), rate);
    assert Fresh(0) == [] && t.cfg.limiters == map[];
  }

  lemma OneMoreMade(owners: seq<ChannelId>)
    ensures Made(owners + [ID], ID) == Made(owners, ID) + 1
  {
    assert (owners + [ID])[..|owners|] == owners;
  }

  lemma Opened(rate: nat) returns (t: State)
    ensures Reached(t, rate) && Quiet(t) && t.cfg == START.cfg && t.passes == []
  {
    assert Run(START, [], START);
    t := Then(START, StartWorkers, rate);
  }

  lemma OneMoreTimes(rate: nat, m: nat)
    requires 1 <= m
    ensures rate * m == rate * (m - 1) + rate
  {
  }

  /** m times over, the channel is loaded and its new limiter used up. */
  lemma {:induction false} FillLimiters(rate: nat, m: nat) returns (t: State)
    requires 1 <= rate && 1 <= m
    ensures Reached(t, rate) && Quiet(t) && Loaded(t.cfg, rate, rate)
    ensures Made(t.cfg.owners, ID) == m && PassedTo(t.passes, ID, 0) == rate * m
    decreases m
  {
    var s: State;
    if m == 1 {
      s := Opened(rate);
    } else {
      s := FillLimiters(rate, m - 1);
      s := Unload(s, rate);
    }
    OneMoreMade(s.cfg.owners);
    s := Load(s, rate);
    t := FillLimiter(s, rate, 0);
    OneMoreTimes(rate, m);
  }

  /**
   The bound of RatePerLimiter is tight for every rate and every number of limiters: a channel that
   is dropped from a snapshot and loaded again starts with a limiter that remembers nothing.
   */
  lemma ReloadedChannelMultiplies(rate: nat, m: nat) returns (t: State)
    requires 1 <= rate && 1 <= m
    ensures Reached(t, rate) && Made(t.cfg.owners, ID) == m && PassedTo(t.passes, ID, 0) == rate * m
  {
    t := FillLimiters(rate, m);
  }

  /** In every run that makes m limiters for c, and never loads it with more than `rate`, each minute keeps to `rate`. */
  ghost predicate KeepsRate(c: ChannelId, rate: nat, m: nat) {
    forall steps, t, now ::
      Run(START, steps, t) && (forall step | step in steps :: LoadsWithin(step, c, rate)) && Made(t.cfg.owners, c) == m
      ==> PassedTo(t.passes, c, now) <= rate
  }

  lemma TimesAtMost(rate: nat, m: nat)
    ensures m <= 1 ==> rate * m <= rate
    ensures m >= 2 && rate >= 1 ==> rate * m > rate
  {
    if m >= 2 { assert rate * m == rate * 2 + rate * (m - 2); }
  }

  /** The configured rate is guaranteed if and only if the channel has had a single limiter. */
  lemma RateGuaranteedIff(rate: nat, m: nat)
    requires 1 <= rate
    ensures KeepsRate(ID, rate, m) <==> m <= 1
  {
    TimesAtMost(rate, m);
    if m <= 1 {
      forall steps, t, now |
        Run(START, steps, t) && (forall step | step in steps :: LoadsWithin(step, ID, rate)) && Made(t.cfg.owners, ID) == m
        ensures PassedTo(t.passes, ID, now) <= rate
      {
        RatePerLimiter(steps, t, ID, rate, now);
      }
    } else {
      var t := ReloadedChannelMultiplies(rate, m);
      var steps: seq<Step> :| Run(START, steps, t) && forall step | step in steps :: LoadsWithin(step, ID, rate);
      assert PassedTo(t.passes, ID, 0) > rate;
    }
  }

  lemma {:induction false} RunThen(s: State, steps: seq<Step>, t: State, step: Step)
    requires Run(s, steps, t) && Enabled(t, step)
    ensures Run(s, steps + [step], Next(t, step))
    decreases |steps|
  {
    if steps == [] {
      assert (steps + [step])[1..] == [];
    } else {
      RunThen(Next(s, steps[0]), steps[1..], t, step);
      assert (steps + [step])[1..] == steps[1..] + [step];
    }
  }
}
