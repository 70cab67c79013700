/**
 What the dispatcher's log and counters say is what happened: over every interleaving each key's
 deliveries, failures, rate-limited and skipped notifies and drops are exactly the steps that were
 so decided (apps/syslog-bucket/internal/notify/notify.go).
 */
module NotifyLog {
  import opened Notify
  import Limiter

  /** What can become of a notify: turned away, skipped, or handled with a status. */
  datatype Ending = TurnedAway | LeftOut | With(status: Status)

  function OneIf(b: bool): nat { if b then 1 else 0 }

  function RowAs(r: Row, end: Ending, k: Key): nat {
    match r
    case Handled(j, status) => OneIf(end == With(status) && KeyOf(j) == k)
    case Drops(key, n) => if end.TurnedAway? && key == k then n else 0
  }

  function LoggedAs(log: seq<Row>, end: Ending, k: Key): nat {
    if log == [] then 0 else LoggedAs(log[..|log| - 1], end, k) + RowAs(log[|log| - 1], end, k)
  }

  /** How many of the key's notifies are booked as having ended so. */
  function Booked(b: Book, end: Ending, k: Key): nat {
    match end
    case TurnedAway => b.refused[k] + b.drops[k] + b.flushing[k] + LoggedAs(b.log, end, k)
    case LeftOut => b.skipped[k]
    case With(_) => LoggedAs(b.log, end, k)
  }

  /** A worker that is about to log such an ending. */
  function InHand(x: Worker, end: Ending, k: Key): nat {
    OneIf(x.Logging? && end == With(x.status) && KeyOf(x.job) == k)
  }

  function InHands(ws: seq<Worker>, end: Ending, k: Key): nat {
    if ws == [] then 0 else InHand(ws[0], end, k) + InHands(ws[1..], end, k)
  }

  predicate Unreachable(s: State, c: ChannelId) { c !in s.cfg.channels || !s.cfg.channels[c].enabled }

  /**
   A step decides an ending: the queue is full or closed, or abandoned; the channel is gone or
   disabled; the limiter says no; the delivery succeeds or fails.
   */
  function Decides(s: State, step: Step): (Ending, bool)
    requires Enabled(s, step)
  {
    match step
    case Offer(_) => (TurnedAway, s.closed || |s.queue| >= QUEUE_DEPTH)
    case Work(_, DropJob) => (TurnedAway, true)
    case Work(w, Look) =>
      var c := s.workers[w].job.channel;
      (LeftOut, c !in s.cfg.channels || (c in s.cfg.limiters && Unreachable(s, c)))
    case Work(w, Create) => (LeftOut, Unreachable(s, s.workers[w].job.channel))
    case Work(w, Ask(now)) =>
      (With(RateLimited), !Limiter.Asked(s.cfg.windows[s.workers[w].lim], s.workers[w].rate, now).1)
    case Work(_, Deliver(ok)) => (With(if ok then Sent else Failed), true)
    case _ => (TurnedAway, false)
  }

  /** The job a deciding step is about. */
  function About(s: State, step: Step): Job
    requires Enabled(s, step) && Decides(s, step).1
  {
    if step.Offer? then step.job else s.workers[step.w].job
  }

  function Ends(s: State, step: Step, end: Ending, k: Key): nat
    requires Enabled(s, step)
  {
    var (ending, decided) := Decides(s, step);
    OneIf(decided && ending == end && KeyOf(About(s, step)) == k)
  }

  /** How many notifies of the key the steps of the run from s decide so. */
  function Decided(s: State, steps: seq<Step>, t: State, end: Ending, k: Key): nat
    requires Run(s, steps, t)
    decreases |steps|
  {
    if steps == [] then 0 else Ends(s, steps[0], end, k) + Decided(Next(s, steps[0]), steps[1..], t, end, k)
  }

  lemma {:induction false} HandMoves(ws: seq<Worker>, w: nat, x: Worker, end: Ending, k: Key)
    requires w < |ws|
    ensures InHands(ws[w := x], end, k) == InHands(ws, end, k) - InHand(ws[w], end, k) + InHand(x, end, k)
  {
    if w == 0 {
      assert ws[0 := x][1..] == ws[1..];
    } else {
      HandMoves(ws[1..], w - 1, x, end, k);
      assert ws[w := x][1..] == ws[1..][w - 1 := x];
    }
  }

  lemma LoggedMore(log: seq<Row>, r: Row, end: Ending, k: Key)
    ensures LoggedAs(log + [r], end, k) == LoggedAs(log, end, k) + RowAs(r, end, k)
  {
    assert (log + [r])[..|log|] == log;
  }

  /** Worker w's step books what it decides. */
  ghost predicate Books(s: State, w: nat, t: State, ends: nat, end: Ending, k: Key) {
    && w < |s.workers| == |t.workers| && t.workers == s.workers[w := t.workers[w]]
    && Booked(t.book, end, k) + InHand(t.workers[w], end, k) == Booked(s.book, end, k) + InHand(s.workers[w], end, k) + ends
  }

  lemma SkipBooks(s: State, w: nat, end: Ending, k: Key)
    requires w < |s.workers| && (s.workers[w].Looking? || s.workers[w].Creating?)
    ensures Books(s, w, Skip(s, w), OneIf(end.LeftOut? && KeyOf(s.workers[w].job) == k), end, k)
  {
  }

  lemma MoveBooks(s: State, w: nat, t: State, end: Ending, k: Key)
    requires w < |s.workers| == |t.workers| && t.workers == s.workers[w := t.workers[w]] && t.book == s.book
    requires !s.workers[w].Logging? && !t.workers[w].Logging?
    ensures Books(s, w, t, 0, end, k)
  {
  }

  lemma LookEnds(s: State, w: nat, end: Ending, k: Key)
    requires Enabled(s, Work(w, Look))
    ensures var j := s.workers[w].job;
            Ends(s, Work(w, Look), end, k) ==
            OneIf((j.channel !in s.cfg.channels || (j.channel in s.cfg.limiters && !s.cfg.channels[j.channel].enabled))
                  && end.LeftOut? && KeyOf(j) == k)
  {
  }

  lemma LookBooks(s: State, w: nat, end: Ending, k: Key)
    requires Enabled(s, Work(w, Look))
    ensures Books(s, w, Looked(s, w), Ends(s, Work(w, Look), end, k), end, k)
  {
    var c := s.workers[w].job.channel;
    LookEnds(s, w, end, k);
    if c !in s.cfg.channels || (c in s.cfg.limiters && !s.cfg.channels[c].enabled) {
      assert Looked(s, w) == Skip(s, w);
      SkipBooks(s, w, end, k);
    } else {
      MoveBooks(s, w, Looked(s, w), end, k);
    }
  }

  lemma CreateEnds(s: State, w: nat, end: Ending, k: Key)
    requires Enabled(s, Work(w, Create))
    ensures var j := s.workers[w].job;
            Ends(s, Work(w, Create), end, k) == OneIf(Unreachable(s, j.channel) && end.LeftOut? && KeyOf(j) == k)
  {
  }

  /** Skip looks at the workers and the book only. */
  lemma SkipElsewhere(s: State, cfg: Config, w: nat, end: Ending, k: Key)
    requires w < |s.workers| && s.workers[w].Creating?
    ensures Books(s, w, Skip(s.(cfg := cfg), w), OneIf(end.LeftOut? && KeyOf(s.workers[w].job) == k), end, k)
  {
    SkipBooks(s.(cfg := cfg), w, end, k);
  }

  lemma CreateBooks(s: State, w: nat, end: Ending, k: Key)
    requires Enabled(s, Work(w, Create))
    ensures Books(s, w, Created(s, w), Ends(s, Work(w, Create), end, k), end, k)
  {
    var c := s.workers[w].job.channel;
    CreateEnds(s, w, end, k);
    if c !in s.cfg.channels || (c in s.cfg.limiters && !s.cfg.channels[c].enabled) {
      assert Created(s, w) == Skip(s, w);
      SkipBooks(s, w, end, k);
    } else if !s.cfg.channels[c].enabled {
      assert Created(s, w) == Skip(s.(cfg := WithLimiter(s.cfg, c)), w);
      SkipElsewhere(s, WithLimiter(s.cfg, c), w, end, k);
    } else {
      MoveBooks(s, w, Created(s, w), end, k);
    }
  }

  lemma LoggedBooks(b: Book, j: Job, status: Status, end: Ending, k: Key)
    ensures Booked(Recorded(b, j, status), end, k) == Booked(b, end, k) + OneIf(end == With(status) && KeyOf(j) == k)
  {
    LoggedMore(b.log, Handled(j, status), end, k);
  }

  lemma LogBooks(s: State, w: nat, end: Ending, k: Key)
    requires Enabled(s, Work(w, Log))
    ensures Books(s, w, Acted(s, w, Log), 0, end, k)
  {
    LoggedBooks(s.book, s.workers[w].job, s.workers[w].status, end, k);
  }

  lemma PlainBooks(s: State, w: nat, act: Act, end: Ending, k: Key)
    requires Enabled(s, Work(w, act)) && !act.Look? && !act.Create? && !act.Log?
    ensures Books(s, w, Acted(s, w, act), Ends(s, Work(w, act), end, k), end, k)
  {
  }

  lemma ActBooks(s: State, w: nat, act: Act, end: Ending, k: Key)
    requires Enabled(s, Work(w, act))
    ensures Books(s, w, Acted(s, w, act), Ends(s, Work(w, act), end, k), end, k)
  {
    if act.Look? { LookBooks(s, w, end, k); }
    else if act.Create? { CreateBooks(s, w, end, k); }
    else if act.Log? {
      LogBooks(s, w, end, k);
      assert Ends(s, Work(w, act), end, k) == 0;
    }
    else { PlainBooks(s, w, act, end, k); }
  }

  lemma OfferBooks(s: State, j: Job, end: Ending, k: Key)
    ensures Offered(s, j).workers == s.workers
    ensures Booked(Offered(s, j).book, end, k)
            == Booked(s.book, end, k) + OneIf((s.closed || |s.queue| >= QUEUE_DEPTH) && end.TurnedAway? && KeyOf(j) == k)
  {
  }

  lemma WriteBooks(b: Book, key: Key, n: nat, end: Ending, k: Key)
    requires n <= b.flushing[key]
    ensures Booked(Written(b, key, n), end, k) == Booked(b, end, k)
  {
    LoggedMore(b.log, Drops(key, n), end, k);
  }

  lemma CountBooks(b: Book, key: Key, end: Ending, k: Key)
    requires key in b.refused
    ensures Booked(Counted(b, key), end, k) == Booked(b, end, k)
  {
  }

  lemma FlushBooks(s: State, end: Ending, k: Key)
    ensures Booked(Flushed(s).book, end, k) == Booked(s.book, end, k)
  {
  }

  lemma OtherBooks(s: State, step: Step, end: Ending, k: Key)
    requires Enabled(s, step) && !step.Work?
    ensures Next(s, step).workers == s.workers
    ensures Booked(Next(s, step).book, end, k) == Booked(s.book, end, k) + Ends(s, step, end, k)
  {
    if step.Offer? { OfferBooks(s, step.job, end, k); }
    else if step.WriteDrops? { WriteBooks(s.book, step.key, step.count, end, k); }
    else if step.CountDrop? { CountBooks(s.book, step.key, end, k); }
    else if step.BeginFlush? || step.Finish? { FlushBooks(s, end, k); }
    else { assert Next(s, step).book == s.book; }
  }

  lemma {:induction false} RunBooks(s: State, steps: seq<Step>, t: State, end: Ending, k: Key)
    requires Run(s, steps, t)
    ensures Booked(t.book, end, k) + InHands(t.workers, end, k)
            == Booked(s.book, end, k) + InHands(s.workers, end, k) + Decided(s, steps, t, end, k)
    decreases |steps|
  {
    if steps != [] {
      var step := steps[0];
      var next := Next(s, step);
      if step.Work? {
        ActBooks(s, step.w, step.act, end, k);
        HandMoves(s.workers, step.w, next.workers[step.w], end, k);
      } else {
        OtherBooks(s, step, end, k);
      }
      RunBooks(next, steps[1..], t, end, k);
    }
  }

  /**
   Over every interleaving, what is booked for a key, with what workers are about to book, is exactly
   what was decided: sent where the delivery succeeded, failed where it failed, rate-limited where the
   limiter said no, skipped where the channel was gone or disabled, and a drop where the queue was
   full, closed or abandoned.
   */
  lemma LogTellsWhatHappened(steps: seq<Step>, t: State, end: Ending, k: Key)
    requires Run(START, steps, t)
    ensures Booked(t.book, end, k) + InHands(t.workers, end, k) == Decided(START, steps, t, end, k)
  {
    RunBooks(START, steps, t, end, k);
    NothingInHand(START.workers, end, k);
    assert LoggedAs([], end, k) == 0;
  }

  lemma {:induction false} NothingInHand(ws: seq<Worker>, end: Ending, k: Key)
    requires forall w | w in ws :: w.Idle?
    ensures InHands(ws, end, k) == 0
  {
    if ws != [] {
      assert ws[0] in ws;
      NothingInHand(ws[1..], end, k);
    }
  }
}
