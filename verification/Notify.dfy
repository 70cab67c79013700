/**
 The bucket's notification dispatcher as atomic steps: the bounded queue, the worker pool, the
 channel snapshot with one limiter per channel, the drop counters and the shutdown
 (apps/syslog-bucket/internal/notify/notify.go).

 A step is one critical section, channel operation or outside call of one goroutine; the rate
 limiter a worker asks is the one of `Limiter`. `Next` is what a step does; `Dispatcher` performs
 the steps that branch or loop on mutable fields; the theorems hold of every interleaving.
 */
module Notify {
  import Limiter

  const QUEUE_DEPTH := 4096

  datatype ChannelId = ChannelId(n: int)

  datatype Channel = Channel(enabled: bool, rate: int)

  datatype Job = Job(entry: string, channel: ChannelId, rule: int)

  datatype Key = Key(channel: ChannelId, rule: int)

  function KeyOf(j: Job): Key { Key(j.channel, j.rule) }

  datatype Status = Sent | Failed | RateLimited

  /** A row of notification_log: one delivery, or a number of drops of one key. */
  datatype Row = Handled(job: Job, status: Status) | Drops(key: Key, count: nat)

  datatype Worker =
    | Idle
    | Took(job: Job)
    | Dropping(job: Job)
    | Looking(job: Job)
    | Creating(job: Job)                      // the channel had no limiter
    | Asking(job: Job, rate: int, lim: nat)
    | Delivering(job: Job)
    | Logging(job: Job, status: Status)
    | Exited

  /** A delivery a limiter let through. */
  datatype Pass = Pass(job: Job, lim: nat, now: int)

  /** The channel snapshot and the limiters. */
  datatype Config = Config(
    channels: map<ChannelId, Channel>,
    limiters: map<ChannelId, nat>,
    owners: seq<ChannelId>,          // every limiter ever made, by number: the channel it was made for
    windows: seq<seq<int>>)    // and the times it remembers

  /** What became of the notifies that are neither queued nor with a worker. */
  datatype Book = Book(
    refused: multiset<Key>,    // Dispatch calls about to count a drop
    drops: multiset<Key>,
    flushing: multiset<Key>,   // drops a flush has taken but not yet written
    log: seq<Row>,
    offered: multiset<Key>,    // history: every notify handed to Dispatch
    skipped: multiset<Key>)    // history: jobs whose channel was gone or disabled

  datatype State = State(
    started: bool,
    queue: seq<Job>,
    closed: bool,
    abandon: bool,
    finished: bool,            // Shutdown has flushed
    workers: seq<Worker>,
    cfg: Config,
    book: Book,
    clock: int,
    passes: seq<Pass>)         // history

  // four workers
  const START := State(false, [], false, false, false, [Idle, Idle, Idle, Idle],
                       Config(map[], map[], [], []),
                       Book(multiset{}, multiset{}, multiset{}, [], multiset{}, multiset{}), 0, [])

  /** What a worker does next. */
  datatype Act = Take | Exit | CheckAbandon | DropJob | Look | Create | Ask(now: int) | Deliver(ok: bool) | Log

  datatype Step =
    | StartWorkers
    | Offer(job: Job)
    | CountDrop(key: Key)
    | Reload(list: map<ChannelId, Channel>, added: seq<ChannelId>)
    | BeginFlush
    | WriteDrops(key: Key, count: nat)
    | Work(w: nat, act: Act)
    // Shutdown
    | Close
    | Abandon
    | Finish

  /** `added` are the channels of `list` without a limiter, each once, in some order. */
  predicate Adds(limiters: map<ChannelId, nat>, list: map<ChannelId, Channel>, added: seq<ChannelId>) {
    Distinct(added) && (forall id | id in added :: id in list) && forall id | id in list :: id in added <==> id !in limiters
  }

  predicate Distinct(ids: seq<ChannelId>) { forall i, j | 0 <= i < j < |ids| :: ids[i] != ids[j] }

  predicate AllExited(s: State) { forall w | w in s.workers :: w.Exited? }

  predicate CanAct(s: State, x: Worker, act: Act) {
    match act
    case Take => s.started && x.Idle? && s.queue != []
    case Exit => s.started && x.Idle? && s.queue == [] && s.closed
    case CheckAbandon => x.Took?
    case DropJob => x.Dropping?
    case Look => x.Looking?
    case Create => x.Creating?
    case Ask(now) => x.Asking? && s.clock <= now && x.lim < |s.cfg.windows|
    case Deliver(_) => x.Delivering?
    case Log => x.Logging?
  }

  predicate Enabled(s: State, step: Step) {
    match step
    case StartWorkers => !s.closed
    case Offer(_) => true
    case CountDrop(k) => k in s.book.refused
    case Reload(list, added) => Adds(s.cfg.limiters, list, added)
    case BeginFlush => true
    case WriteDrops(k, n) => 0 < n <= s.book.flushing[k]
    case Work(w, act) => w < |s.workers| && CanAct(s, s.workers[w], act)
    case Close => !s.closed && s.book.refused == multiset{}
    case Abandon => s.closed
    case Finish => s.closed && !s.finished && (s.abandon || AllExited(s))
  }

  /** Makes limiters for `added`, numbered from n. */
  function WithLimiters(limiters: map<ChannelId, nat>, n: nat, added: seq<ChannelId>): map<ChannelId, nat>
    decreases |added|
  {
    if added == [] then limiters else WithLimiters(limiters[added[0] := n], n + 1, added[1..])
  }

  function Fresh(n: nat): seq<seq<int>> { seq(n, _ => []) }

  /** The limiters of the channels in `list`. */
  function Kept(limiters: map<ChannelId, nat>, list: map<ChannelId, Channel>): map<ChannelId, nat> {
    map id | id in limiters && id in list :: limiters[id]
  }

  function Reloaded(s: State, list: map<ChannelId, Channel>, added: seq<ChannelId>): State {
    var all := WithLimiters(s.cfg.limiters, |s.cfg.owners|, added);
    s.(cfg := Config(list, Kept(all, list), s.cfg.owners + added, s.cfg.windows + Fresh(|added|)))
  }

  function Flushed(s: State): State {
    s.(book := s.book.(flushing := s.book.flushing + s.book.drops, drops := multiset{}))
  }

  function Becomes(s: State, w: nat, x: Worker): State
    requires w < |s.workers|
  {
    s.(workers := s.workers[w := x])
  }

  /** handle, once the channel is known: skip quietly, or go on to the limiter. */
  function Found(s: State, w: nat, ch: Channel, lim: nat): State
    requires w < |s.workers| && s.workers[w] != Idle && s.workers[w] != Exited
  {
    var j := s.workers[w].job;
    if ch.enabled then Becomes(s, w, Asking(j, ch.rate, lim)) else Skip(s, w)
  }

  function Skip(s: State, w: nat): State
    requires w < |s.workers| && s.workers[w] != Idle && s.workers[w] != Exited
  {
    Becomes(s, w, Idle).(book := s.book.(skipped := Plus(s.book.skipped, s.workers[w].job)))
  }

  function Looked(s: State, w: nat): State
    requires Enabled(s, Work(w, Look))
  {
    var j := s.workers[w].job;
    if j.channel !in s.cfg.channels then Skip(s, w)
    else if j.channel !in s.cfg.limiters then Becomes(s, w, Creating(j))
    else Found(s, w, s.cfg.channels[j.channel], s.cfg.limiters[j.channel])
  }

  function WithLimiter(g: Config, c: ChannelId): Config {
    g.(limiters := g.limiters[c := |g.owners|], owners := g.owners + [c], windows := g.windows + [[]])
  }

  function Created(s: State, w: nat): State
    requires Enabled(s, Work(w, Create))
  {
    var c := s.workers[w].job.channel;
    if c !in s.cfg.channels then Skip(s, w)
    else if c in s.cfg.limiters then Found(s, w, s.cfg.channels[c], s.cfg.limiters[c])
    else
      var t := s.(cfg := WithLimiter(s.cfg, c));
      Found(t, w, s.cfg.channels[c], |s.cfg.owners|)
  }

  function Judged(s: State, w: nat, now: int): State
    requires Enabled(s, Work(w, Ask(now)))
  {
    var x := s.workers[w];
    var (kept, ok) := Limiter.Asked(s.cfg.windows[x.lim], x.rate, now);
    var t := Becomes(s, w, if ok then Delivering(x.job) else Logging(x.job, RateLimited));
    t.(clock := now, cfg := s.cfg.(windows := s.cfg.windows[x.lim := kept]),
       passes := if ok then s.passes + [Pass(x.job, x.lim, now)] else s.passes)
  }

  function Plus(m: multiset<Key>, j: Job): multiset<Key> { m[KeyOf(j) := m[KeyOf(j)] + 1] }

  function Offered(s: State, j: Job): State {
    var book := s.book.(offered := Plus(s.book.offered, j));
    if s.closed || |s.queue| >= QUEUE_DEPTH then s.(book := book.(refused := Plus(book.refused, j)))
    else s.(book := book, queue := s.queue + [j])
  }

  /** A refused notify is counted as a drop. */
  function Counted(b: Book, k: Key): Book
    requires k in b.refused
  {
    b.(refused := b.refused[k := b.refused[k] - 1], drops := b.drops[k := b.drops[k] + 1])
  }

  function Written(b: Book, k: Key, n: nat): Book
    requires n <= b.flushing[k]
  {
    b.(flushing := b.flushing[k := b.flushing[k] - n], log := b.log + [Drops(k, n)])
  }

  function Recorded(b: Book, j: Job, status: Status): Book { b.(log := b.log + [Handled(j, status)]) }

  function Acted(s: State, w: nat, act: Act): State
    requires Enabled(s, Work(w, act))
  {
    match act
    case Take => Becomes(s, w, Took(s.queue[0])).(queue := s.queue[1..])
    case Exit => Becomes(s, w, Exited)
    case CheckAbandon =>
      Becomes(s, w, if s.abandon then Dropping(s.workers[w].job) else Looking(s.workers[w].job))
    case DropJob => Becomes(s, w, Idle).(book := s.book.(drops := Plus(s.book.drops, s.workers[w].job)))
    case Look => Looked(s, w)
    case Create => Created(s, w)
    case Ask(now) => Judged(s, w, now)
    case Deliver(ok) => Becomes(s, w, Logging(s.workers[w].job, if ok then Sent else Failed))
    case Log => Becomes(s, w, Idle).(book := Recorded(s.book, s.workers[w].job, s.workers[w].status))
  }

  function Next(s: State, step: Step): State
    requires Enabled(s, step)
  {
    match step
    case StartWorkers => s.(started := true)
    case Offer(j) => Offered(s, j)
    case CountDrop(k) => s.(book := Counted(s.book, k))
    case Reload(list, added) => Reloaded(s, list, added)
    case BeginFlush => Flushed(s)
    case WriteDrops(k, n) => s.(book := Written(s.book, k, n))
    case Work(w, act) => Acted(s, w, act)
    case Close => s.(started := true, closed := true)
    case Abandon => s.(abandon := true)
    case Finish => Flushed(s).(finished := true)
  }

  // ----- the same steps on the dispatcher's own fields

  class Dispatcher {
    var started: bool
    var queue: seq<Job>
    var closed: bool
    var abandon: bool
    var finished: bool
    var workers: seq<Worker>
    var channels: map<ChannelId, Channel>
    var limiters: map<ChannelId, nat>
    var owners: seq<ChannelId>
    var windows: seq<seq<int>>
    var refused: multiset<Key>
    var drops: multiset<Key>
    var flushing: multiset<Key>
    var log: seq<Row>
    var clock: int
    ghost var offered: multiset<Key>
    ghost var skipped: multiset<Key>
    ghost var passes: seq<Pass>

    ghost function View(): State
      reads this
    {
      State(started, queue, closed, abandon, finished, workers, Config(channels, limiters, owners, windows),
            Book(refused, drops, flushing, log, offered, skipped), clock, passes)
    }

    constructor ()
      ensures View() == START
    {
      started, queue, closed, abandon, finished := false, [], false, false, false;
      workers := [Idle, Idle, Idle, Idle];
      channels, limiters, owners, windows := map[], map[], [], [];
      refused, drops, flushing, log, clock := multiset{}, multiset{}, multiset{}, [], 0;
      offered, skipped, passes := multiset{}, multiset{}, [];
    }

    /** Dispatch, for one notify: queue it, or refuse it when closed or full. */
    method OfferJob(j: Job)
      modifies this
      ensures View() == Offered(old(View()), j)
      ensures queue == if old(closed) || |old(queue)| >= QUEUE_DEPTH then old(queue) else old(queue) + [j]
    {
      offered := Plus(offered, j);
      if closed {
        refused := Plus(refused, j);
        return;
      }
      if |queue| < QUEUE_DEPTH {
        queue := queue + [j];
      } else {
        refused := Plus(refused, j);
      }
    }

    /** Swaps in a new snapshot, makes limiters for new channels and drops those of deleted ones. */
    method ReloadChannels(list: map<ChannelId, Channel>) returns (ghost added: seq<ChannelId>)
      modifies this`channels, this`limiters, this`owners, this`windows
      ensures Adds(old(limiters), list, added) && View() == Reloaded(old(View()), list, added)
    {
      channels := list;
      added := AddLimiters(list);
      DropLimiters(list);
    }

    method AddLimiters(list: map<ChannelId, Channel>) returns (ghost added: seq<ChannelId>)
      modifies this`limiters, this`owners, this`windows
      ensures Adds(old(limiters), list, added)
      ensures limiters == WithLimiters(old(limiters), |old(owners)|, added)
      ensures owners == old(owners) + added && windows == old(windows) + Fresh(|added|)
    {
      added := [];
      var todo := list.Keys;
      while todo != {}
        invariant todo <= list.Keys && Distinct(added)
        invariant forall id | id in added :: id in list && id !in todo
        invariant forall id | id in list && id !in todo :: id in added <==> id !in old(limiters)
        invariant forall id :: id in limiters <==> id in old(limiters) || id in added
        invariant limiters == WithLimiters(old(limiters), |old(owners)|, added)
        invariant owners == old(owners) + added && windows == old(windows) + Fresh(|added|)
        decreases todo
      {
        var id :| id in todo;
        todo := todo - {id};
        if id !in limiters {
          WithLimitersMore(old(limiters), |old(owners)|, added, id);
          AddLimiter(id);
          added := added + [id];
        }
      }
    }

    method AddLimiter(c: ChannelId)
      modifies this`limiters, this`owners, this`windows
      ensures limiters == old(limiters)[c := |old(owners)|] && owners == old(owners) + [c]
      ensures windows == old(windows) + [[]]
    {
      limiters, owners, windows := limiters[c := |owners|], owners + [c], windows + [[]];
    }

    method DropLimiters(list: map<ChannelId, Channel>)
      modifies this`limiters
      ensures limiters == Kept(old(limiters), list)
    {
      var todo := limiters.Keys;
      while todo != {}
        invariant todo <= old(limiters).Keys
        invariant limiters.Keys <= old(limiters).Keys && forall id | id in limiters :: limiters[id] == old(limiters)[id]
        invariant forall id | id in old(limiters) :: id in limiters <==> id in list || id in todo
        decreases todo
      {
        var id :| id in todo;
        todo := todo - {id};
        if id !in list {
          limiters := limiters - {id};
        }
      }
    }

    /** channel's first critical section, then handle up to the limiter. */
    method LookUp(w: nat)
      requires Enabled(View(), Work(w, Look))
      modifies this
      ensures View() == Looked(old(View()), w)
    {
      var j := workers[w].job;
      if j.channel !in channels {
        SkipJob(w);
        return;
      }
      if j.channel !in limiters {
        workers := workers[w := Creating(j)];
        return;
      }
      Proceed(w, channels[j.channel], limiters[j.channel]);
    }

    /** channel's second critical section: someone else may have made the limiter by now. */
    method MakeLimiter(w: nat)
      requires Enabled(View(), Work(w, Create))
      modifies this
      ensures View() == Created(old(View()), w)
    {
      var c := workers[w].job.channel;
      if c !in channels {
        SkipJob(w);
        return;
      }
      if c !in limiters {
        AddLimiter(c);
        assert View() == old(View()).(cfg := WithLimiter(old(View()).cfg, c));
      }
      Proceed(w, channels[c], limiters[c]);
    }

    method Proceed(w: nat, ch: Channel, lim: nat)
      requires w < |workers| && workers[w] != Idle && workers[w] != Exited
      modifies this
      ensures View() == Found(old(View()), w, ch, lim)
    {
      if !ch.enabled {
        SkipJob(w);
        return;
      }
      workers := workers[w := Asking(workers[w].job, ch.rate, lim)];
    }

    method SkipJob(w: nat)
      requires w < |workers| && workers[w] != Idle && workers[w] != Exited
      modifies this
      ensures View() == Skip(old(View()), w)
      ensures workers == old(workers)[w := Idle] && log == old(log)
    {
      skipped := Plus(skipped, workers[w].job);
      workers := workers[w := Idle];
    }

    /** Shutdown's first critical section, which no Dispatch call overlaps. */
    method CloseQueue()
      requires Enabled(View(), Close)
      modifies this
      ensures View() == old(View()).(started := true, closed := true)
    {
      started := true;
      closed := true;
    }

    /** Takes the counters and leaves empty ones. */
    method TakeDrops()
      modifies this
      ensures View() == Flushed(old(View()))
      ensures drops == multiset{} && flushing == old(flushing) + old(drops)
    {
      flushing := flushing + drops;
      drops := multiset{};
    }
  }

  lemma {:induction false} WithLimitersMore(limiters: map<ChannelId, nat>, n: nat, added: seq<ChannelId>, id: ChannelId)
    ensures WithLimiters(limiters, n, added + [id]) == WithLimiters(limiters, n, added)[id := n + |added|]
    decreases |added|
  {
    if added == [] {
      assert (added + [id])[1..] == [];
    } else {
      WithLimitersMore(limiters[added[0] := n], n + 1, added[1..], id);
      assert (added + [id])[1..] == added[1..] + [id];
    }
  }

  ghost predicate Run(s: State, steps: seq<Step>, t: State)
    decreases |steps|
  {
    if steps == [] then s == t
    else Enabled(s, steps[0]) && Run(Next(s, steps[0]), steps[1..], t)
  }

  // ----- every notify is somewhere, exactly once

  function One(j: Job, k: Key): nat { if KeyOf(j) == k then 1 else 0 }

  function Held(w: Worker, k: Key): nat { if w.Idle? || w.Exited? then 0 else One(w.job, k) }

  function AllHeld(ws: seq<Worker>, k: Key): nat {
    if ws == [] then 0 else Held(ws[0], k) + AllHeld(ws[1..], k)
  }

  function Queued(q: seq<Job>, k: Key): nat {
    if q == [] then 0 else One(q[0], k) + Queued(q[1..], k)
  }

  /** A handled job counts once, a drop row as often as it says. */
  function InRow(r: Row, k: Key): nat {
    match r
    case Handled(j, _) => One(j, k)
    case Drops(key, n) => if key == k then n else 0
  }

  function Logged(log: seq<Row>, k: Key): nat {
    if log == [] then 0 else Logged(log[..|log| - 1], k) + InRow(log[|log| - 1], k)
  }

  function InBook(b: Book, k: Key): nat { b.refused[k] + b.drops[k] + b.flushing[k] + Logged(b.log, k) + b.skipped[k] }

  /** Where the key's notifies are, other than with a worker. */
  function Elsewhere(s: State, k: Key): nat {
    Queued(s.queue, k) + InBook(s.book, k)
  }

  ghost predicate Accounted(s: State, k: Key) { s.book.offered[k] == Elsewhere(s, k) + AllHeld(s.workers, k) }

  lemma {:induction false} HeldMoves(ws: seq<Worker>, w: nat, x: Worker, k: Key)
    requires w < |ws|
    ensures AllHeld(ws[w := x], k) == AllHeld(ws, k) - Held(ws[w], k) + Held(x, k)
  {
    if w == 0 {
      assert ws[0 := x][1..] == ws[1..];
    } else {
      HeldMoves(ws[1..], w - 1, x, k);
      assert ws[w := x][1..] == ws[1..][w - 1 := x];
    }
  }

  lemma {:induction false} NothingHeld(ws: seq<Worker>, k: Key)
    requires forall w | w in ws :: w.Idle? || w.Exited?
    ensures AllHeld(ws, k) == 0
  {
    if ws == [] {
    } else {
      NothingHeld(ws[1..], k);
    }
  }

  lemma {:induction false} QueuedAppend(q: seq<Job>, j: Job, k: Key)
    ensures Queued(q + [j], k) == Queued(q, k) + One(j, k)
  {
    if q == [] {
      assert (q + [j])[1..] == [];
    } else {
      QueuedAppend(q[1..], j, k);
      assert (q + [j])[1..] == q[1..] + [j];
    }
  }

  lemma LoggedAppend(log: seq<Row>, r: Row, k: Key)
    ensures Logged(log + [r], k) == Logged(log, k) + InRow(r, k)
  {
    assert (log + [r])[..|log|] == log;
  }

  lemma OfferAccounts(s: State, j: Job, k: Key)
    requires Accounted(s, k)
    ensures Accounted(Offered(s, j), k)
  {
    var t := Offered(s, j);
    assert t.workers == s.workers && t.book.log == s.book.log;
    if t.queue != s.queue { QueuedAppend(s.queue, j, k); }
  }

  lemma WrittenKeepsBook(b: Book, key: Key, n: nat, k: Key)
    requires n <= b.flushing[key]
    ensures InBook(Written(b, key, n), k) == InBook(b, k) && Written(b, key, n).offered == b.offered
  {
    LoggedAppend(b.log, Drops(key, n), k);
  }

  lemma OtherAccounts(s: State, step: Step, k: Key)
    requires Accounted(s, k) && Enabled(s, step) && !step.Work? && !step.Offer? && !step.WriteDrops?
    ensures Accounted(Next(s, step), k)
  {
    var t := Next(s, step);
    assert t.queue == s.queue && t.workers == s.workers && t.book.log == s.book.log;
  }

  /** What leaves worker w's hands turns up elsewhere. */
  ghost predicate HandedOver(s: State, w: nat, t: State, k: Key) {
    && w < |s.workers| == |t.workers| && t.workers == s.workers[w := t.workers[w]] && t.book.offered == s.book.offered
    && Elsewhere(t, k) + Held(t.workers[w], k) == Elsewhere(s, k) + Held(s.workers[w], k)
  }

  lemma SkipHandsOver(s: State, w: nat, k: Key)
    requires w < |s.workers| && !s.workers[w].Idle? && !s.workers[w].Exited?
    ensures HandedOver(s, w, Skip(s, w), k)
  {
  }

  lemma FoundHandsOver(s: State, w: nat, ch: Channel, lim: nat, k: Key)
    requires w < |s.workers| && !s.workers[w].Idle? && !s.workers[w].Exited?
    ensures HandedOver(s, w, Found(s, w, ch, lim), k)
  {
    if !ch.enabled { SkipHandsOver(s, w, k); }
  }

  lemma LookHandsOver(s: State, w: nat, k: Key)
    requires Enabled(s, Work(w, Look))
    ensures HandedOver(s, w, Looked(s, w), k)
  {
    var c := s.workers[w].job.channel;
    if c !in s.cfg.channels { SkipHandsOver(s, w, k); }
    else if c in s.cfg.limiters { FoundHandsOver(s, w, s.cfg.channels[c], s.cfg.limiters[c], k); }
  }

  lemma CreateHandsOver(s: State, w: nat, k: Key)
    requires Enabled(s, Work(w, Create))
    ensures HandedOver(s, w, Created(s, w), k)
  {
    var c := s.workers[w].job.channel;
    if c !in s.cfg.channels { SkipHandsOver(s, w, k); }
    else if c in s.cfg.limiters { FoundHandsOver(s, w, s.cfg.channels[c], s.cfg.limiters[c], k); }
    else {
      var t := s.(cfg := WithLimiter(s.cfg, c));
      FoundHandsOver(t, w, s.cfg.channels[c], |s.cfg.owners|, k);
    }
  }

  lemma RecordedInBook(b: Book, j: Job, status: Status, k: Key)
    ensures InBook(Recorded(b, j, status), k) == InBook(b, k) + One(j, k)
  {
    LoggedAppend(b.log, Handled(j, status), k);
  }

  lemma LogHandsOver(s: State, w: nat, k: Key)
    requires Enabled(s, Work(w, Log))
    ensures HandedOver(s, w, Acted(s, w, Log), k)
  {
    RecordedInBook(s.book, s.workers[w].job, s.workers[w].status, k);
  }

  lemma AskHandsOver(s: State, w: nat, now: int, k: Key)
    requires Enabled(s, Work(w, Ask(now)))
    ensures HandedOver(s, w, Judged(s, w, now), k)
  {
  }

  lemma PlainHandsOver(s: State, w: nat, act: Act, k: Key)
    requires Enabled(s, Work(w, act)) && !act.Look? && !act.Create? && !act.Log? && !act.Ask?
    ensures HandedOver(s, w, Acted(s, w, act), k)
  {
  }

  lemma ActHandsOver(s: State, w: nat, act: Act, k: Key)
    requires Enabled(s, Work(w, act))
    ensures HandedOver(s, w, Acted(s, w, act), k)
  {
    if act.Look? { LookHandsOver(s, w, k); }
    else if act.Create? { CreateHandsOver(s, w, k); }
    else if act.Log? { LogHandsOver(s, w, k); }
    else if act.Ask? { AskHandsOver(s, w, act.now, k); }
    else { PlainHandsOver(s, w, act, k); }
  }

  lemma StepAccounts(s: State, step: Step, k: Key)
    requires Accounted(s, k) && Enabled(s, step)
    ensures Accounted(Next(s, step), k)
  {
    if step.Work? {
      ActHandsOver(s, step.w, step.act, k);
      HeldMoves(s.workers, step.w, Next(s, step).workers[step.w], k);
    } else {
      if step.Offer? { OfferAccounts(s, step.job, k); }
      else if step.WriteDrops? { WrittenKeepsBook(s.book, step.key, step.count, k); }
      else { OtherAccounts(s, step, k); }
    }
  }

  lemma {:induction false} RunAccounts(s: State, steps: seq<Step>, t: State, k: Key)
    requires Accounted(s, k) && Run(s, steps, t)
    ensures Accounted(t, k)
    decreases |steps|
  {
    if steps == [] {
    } else {
      StepAccounts(s, steps[0], k);
      RunAccounts(Next(s, steps[0]), steps[1..], t, k);
    }
  }

  /**
   Over every interleaving each notify handed to Dispatch is exactly once among: about to be
   refused, queued, with a worker, counted as dropped, being written as dropped, logged, or
   skipped because its channel was gone or disabled.
   */
  lemma EveryNotifyOnce(steps: seq<Step>, t: State, k: Key)
    requires Run(START, steps, t)
    ensures Accounted(t, k)
  {
    NothingHeld(START.workers, k);
    RunAccounts(START, steps, t, k);
  }

  // ----- shutdown

  ghost predicate Leaves(w: Worker, s: State) {
    (w.Exited? ==> s.closed && s.queue == []) && (w.Dropping? ==> s.abandon)
  }

  ghost predicate Orderly(s: State) { |s.queue| <= QUEUE_DEPTH && forall w | w in s.workers :: Leaves(w, s) }

  lemma HandsOrderly(s: State, t: State, w: nat)
    requires Orderly(s) && w < |s.workers| == |t.workers| && t.workers == s.workers[w := t.workers[w]]
    requires t.closed == s.closed && t.abandon == s.abandon && |t.queue| <= |s.queue|
    requires Leaves(t.workers[w], t)
    ensures Orderly(t)
  {
    forall y | y in t.workers ensures Leaves(y, t) {
      assert y in s.workers || y == t.workers[w];
    }
  }

  lemma FoundOrderly(s: State, t: State, w: nat, ch: Channel, lim: nat)
    requires Orderly(s) && w < |s.workers| && !s.workers[w].Idle? && !s.workers[w].Exited?
    requires t.queue == s.queue && t.workers == s.workers && t.closed == s.closed && t.abandon == s.abandon
    ensures Orderly(Found(t, w, ch, lim))
  {
    HandsOrderly(s, Found(t, w, ch, lim), w);
  }

  lemma CreateOrderly(s: State, w: nat)
    requires Orderly(s) && Enabled(s, Work(w, Create))
    ensures Orderly(Created(s, w))
  {
    var c := s.workers[w].job.channel;
    if c !in s.cfg.channels { HandsOrderly(s, Skip(s, w), w); }
    else if c in s.cfg.limiters { FoundOrderly(s, s, w, s.cfg.channels[c], s.cfg.limiters[c]); }
    else { FoundOrderly(s, s.(cfg := WithLimiter(s.cfg, c)), w, s.cfg.channels[c], |s.cfg.owners|); }
  }

  lemma LookOrderly(s: State, w: nat)
    requires Orderly(s) && Enabled(s, Work(w, Look))
    ensures Orderly(Looked(s, w))
  {
    var c := s.workers[w].job.channel;
    if c in s.cfg.channels && c in s.cfg.limiters { FoundOrderly(s, s, w, s.cfg.channels[c], s.cfg.limiters[c]); }
    else { HandsOrderly(s, Looked(s, w), w); }
  }

  lemma ActOrderly(s: State, w: nat, act: Act)
    requires Orderly(s) && Enabled(s, Work(w, act))
    ensures Orderly(Acted(s, w, act))
  {
    if act.Look? { LookOrderly(s, w); }
    else if act.Create? { CreateOrderly(s, w); }
    else { HandsOrderly(s, Acted(s, w, act), w); }
  }

  lemma StepOrderly(s: State, step: Step)
    requires Orderly(s) && Enabled(s, step)
    ensures Orderly(Next(s, step))
  {
    if step.Work? {
      ActOrderly(s, step.w, step.act);
    } else {
      assert forall y | y in s.workers :: Leaves(y, s) ==> Leaves(y, Next(s, step));
    }
  }

  lemma {:induction false} RunOrderly(s: State, steps: seq<Step>, t: State)
    requires Orderly(s) && Run(s, steps, t)
    ensures Orderly(t)
    decreases |steps|
  {
    if steps == [] {
    } else {
      StepOrderly(s, steps[0]);
      RunOrderly(Next(s, steps[0]), steps[1..], t);
    }
  }

  /**
   Once every worker has left, nothing is queued or in hand: each notify is logged, skipped, or
   a drop counted or being written. A worker throws a job away only after the deadline.
   */
  lemma ShutdownLosesNothing(steps: seq<Step>, t: State, k: Key)
    requires Run(START, steps, t)
    ensures AllExited(t) && t.workers != [] ==>
      t.queue == [] && t.book.offered[k] == t.book.refused[k] + t.book.drops[k] + t.book.flushing[k] + Logged(t.book.log, k) + t.book.skipped[k]
    ensures forall w | w in t.workers && w.Dropping? :: t.abandon
  {
    RunOrderly(START, steps, t);
    EveryNotifyOnce(steps, t, k);
    if AllExited(t) && t.workers != [] {
      assert t.workers[0] in t.workers;
      NothingHeld(t.workers, k);
    }
  }
}
