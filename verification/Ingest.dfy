/**
 The ingest pipeline as atomic steps: connection handlers with their source look-ups, the bounded
 queue, the batcher with its retries and per-row fallback, and the ordered shutdown
 (apps/syslog-bucket/internal/ingest/ingest.go, store/store.go).

 A step is one critical section, channel operation or database call of one goroutine. `Next` is
 what a step does; `Server` performs the same steps on mutable fields; the theorems hold of every
 interleaving, that is of every sequence of enabled steps.
 */
module Ingest {
  import opened Sorting

  const BATCH_SIZE := 500
  const QUEUE_DEPTH := 10_000

  datatype Row = Row(id: int, entry: string)

  /** What became of one accepted entry. `rejected`: the database refused that row for good. */
  datatype Fate = Stored(row: Row) | Lost(entry: string, rejected: bool)

  /** Where a call of retry stands: at its first try, at a later one, or in the backoff between two. */
  datatype Attempt = First | Again | Waiting

  datatype Handler = Reading | LookingUp(entry: string, attempt: Attempt) | Sending(entry: string)

  datatype Work =
    | Collecting
    | InsertingBatch(attempt: Attempt)
    | GaveUpOnBatch
    | InsertingRow(i: nat, attempt: Attempt)
    | Publishing
    | Exited

  datatype Serve = Serving | Draining | QueueClosed | Returned

  /** Connections and shutdown; `cancelled` is dbCtx. */
  datatype Front = Front(conns: map<nat, Handler>, accepting: bool, serve: Serve, cancelled: bool)

  /** `panicked`: a send on the closed queue. */
  datatype Pipe = Pipe(queue: seq<string>, closed: bool, panicked: bool)

  /** `finalFlush`: the batcher has seen the queue closed. */
  datatype Batcher = Batcher(work: Work, finalFlush: bool, batch: seq<string>, stored: seq<Row>)

  /** The entries table and the lower bound of what its id sequence can still yield. */
  datatype Db = Db(nextId: int, committed: seq<Row>)

  datatype Stats = Stats(inserted: nat, failed: nat, dropped: nat, badRecords: nat, retrying: bool)

  datatype State = State(front: Front, pipe: Pipe, bat: Batcher, db: Db, stats: Stats, broadcast: seq<Row>,
                         accepted: seq<string>, // history: every entry ever queued
                         fates: seq<Fate>)      // history: what became of them, in order

  const START := State(Front(map[], true, Serving, false), Pipe([], false, false), Batcher(Collecting, false, [], []),
                       Db(1, []), Stats(0, 0, 0, 0, false), [], [], [])

  /** What a connection handler does. A source that is not memoized is looked up in the database. */
  datatype ConnStep =
    | Accept
    | BadRecord
    | Known(entry: string)
    | LookUp(entry: string)
    | LookupOk
    | LookupFails(transient: bool)
    | LookupBackoffOver
    | LookupBackoffCut
    | Send
    | Leave

  datatype ServeStep = StopAccepting | DrainDeadline | CloseQueue | Return

  /** What the batcher does. `draw` are the ids a batch draws from the sequence, in the order they come. */
  datatype BatchStep =
    | Take
    | Tick
    | SeeClosed
    | BatchCommits(draw: seq<int>)
    | BatchFails(transient: bool, nextId: int)
    | AfterBatch
    | RowCommits(id: int)
    | RowFails(transient: bool, nextId: int)
    | BackoffOver
    | BackoffCut
    | RowsDone
    | Publish

  datatype Step = Conn(c: nat, conn: ConnStep) | Main(main: ServeStep) | Batch(batch: BatchStep)

  predicate Distinct(ids: seq<int>) { forall i, j | 0 <= i < j < |ids| :: ids[i] != ids[j] }

  predicate CanConn(s: State, c: nat, step: ConnStep) {
    var conns := s.front.conns;
    match step
    case Accept => s.front.accepting && c !in conns
    case BadRecord => c in conns && conns[c].Reading?
    case Known(_) => c in conns && conns[c].Reading?
    case LookUp(_) => c in conns && conns[c].Reading?
    case LookupOk => c in conns && conns[c].LookingUp? && !conns[c].attempt.Waiting?
    case LookupFails(_) => c in conns && conns[c].LookingUp? && !conns[c].attempt.Waiting?
    case LookupBackoffOver => c in conns && conns[c].LookingUp? && conns[c].attempt.Waiting?
    case LookupBackoffCut => c in conns && conns[c].LookingUp? && conns[c].attempt.Waiting? && s.front.cancelled
    case Send => c in conns && conns[c].Sending? && (s.pipe.closed || |s.pipe.queue| < QUEUE_DEPTH)
    case Leave => c in conns && conns[c].Reading?
  }

  predicate CanServe(s: State, step: ServeStep) {
    match step
    case StopAccepting => s.front.serve.Serving?
    case DrainDeadline => !s.front.serve.Serving?
    case CloseQueue => s.front.serve.Draining? && s.front.conns == map[]
    case Return => s.front.serve.QueueClosed? && s.bat.work.Exited?
  }

  predicate TryingRow(b: Batcher) { b.work.InsertingRow? && !b.work.attempt.Waiting? && b.work.i < |b.batch| }

  predicate TryingBatch(b: Batcher) { b.work.InsertingBatch? && !b.work.attempt.Waiting? }

  predicate WaitingToRetry(b: Batcher) { (b.work.InsertingBatch? || b.work.InsertingRow?) && b.work.attempt.Waiting? }

  predicate CanBatch(s: State, step: BatchStep) {
    var b := s.bat;
    match step
    case Take => b.work.Collecting? && s.pipe.queue != []
    case Tick => b.work.Collecting?
    case SeeClosed => b.work.Collecting? && s.pipe.closed && s.pipe.queue == []
    case BatchCommits(draw) => TryingBatch(b) && |draw| == |b.batch| && Distinct(draw) && forall id | id in draw :: id >= s.db.nextId
    case BatchFails(_, n) => TryingBatch(b) && n >= s.db.nextId
    case AfterBatch => b.work.GaveUpOnBatch?
    case RowCommits(id) => TryingRow(b) && id >= s.db.nextId
    case RowFails(_, n) => TryingRow(b) && n >= s.db.nextId
    case BackoffOver => WaitingToRetry(b)
    case BackoffCut => WaitingToRetry(b) && s.front.cancelled && (b.work.InsertingRow? ==> b.work.i < |b.batch|)
    case RowsDone => b.work.InsertingRow? && !b.work.attempt.Waiting? && b.work.i >= |b.batch|
    case Publish => b.work.Publishing?
  }

  predicate Enabled(s: State, step: Step) {
    match step
    case Conn(c, conn) => CanConn(s, c, conn)
    case Main(main) => CanServe(s, main)
    case Batch(batch) => CanBatch(s, batch)
  }

  // ----- retry, shared by handlers and batcher

  /** retry after a try that succeeded: only a recovery clears the flag. */
  function Recovered(t: Stats, a: Attempt): Stats { if a.Again? then t.(retrying := false) else t }

  /** retry after a try that failed: it waits for another, or gives up. */
  function FailedTry(t: Stats, givesUp: bool): Stats { t.(failed := t.failed + 1, retrying := !givesUp) }

  predicate GivesUp(s: State, transient: bool) { s.front.cancelled || !transient }

  // ----- connection handlers

  function WithConn(s: State, c: nat, h: Handler): State { s.(front := s.front.(conns := s.front.conns[c := h])) }

  function OneBad(t: Stats): Stats { t.(badRecords := t.badRecords + 1) }

  function LookupFailed(s: State, c: nat, transient: bool): State
    requires CanConn(s, c, LookupFails(transient))
  {
    if GivesUp(s, transient) then WithConn(s, c, Reading).(stats := OneBad(FailedTry(s.stats, true)))
    else WithConn(s, c, LookingUp(s.front.conns[c].entry, Waiting)).(stats := FailedTry(s.stats, false))
  }

  function LookupDone(s: State, c: nat): State
    requires CanConn(s, c, LookupOk)
  {
    var h := s.front.conns[c];
    WithConn(s, c, Sending(h.entry)).(stats := Recovered(s.stats, h.attempt))
  }

  function Sent(s: State, c: nat): State
    requires CanConn(s, c, Send)
  {
    var e := s.front.conns[c].entry;
    if s.pipe.closed then s.(pipe := s.pipe.(panicked := true))
    else WithConn(s, c, Reading).(pipe := s.pipe.(queue := s.pipe.queue + [e]), accepted := s.accepted + [e])
  }

  function ConnNext(s: State, c: nat, step: ConnStep): State
    requires CanConn(s, c, step)
  {
    match step
    case Accept => WithConn(s, c, Reading)
    case BadRecord => s.(stats := OneBad(s.stats))
    case Known(e) => WithConn(s, c, Sending(e))
    case LookUp(e) => WithConn(s, c, LookingUp(e, First))
    case LookupOk => LookupDone(s, c)
    case LookupFails(transient) => LookupFailed(s, c, transient)
    case LookupBackoffOver => WithConn(s, c, LookingUp(s.front.conns[c].entry, Again))
    case LookupBackoffCut => WithConn(s, c, Reading).(stats := OneBad(s.stats))
    case Send => Sent(s, c)
    case Leave => s.(front := s.front.(conns := s.front.conns - {c}))
  }

  function ServeNext(s: State, step: ServeStep): State
    requires CanServe(s, step)
  {
    match step
    case StopAccepting => s.(front := s.front.(accepting := false, serve := Draining))
    case DrainDeadline => s.(front := s.front.(cancelled := true))
    case CloseQueue => s.(front := s.front.(serve := QueueClosed), pipe := s.pipe.(closed := true))
    case Return => s.(front := s.front.(serve := Returned))
  }

  // ----- the batcher

  function Rows(ids: seq<int>, entries: seq<string>): seq<Row>
    requires |ids| == |entries|
  {
    seq(|ids|, i requires 0 <= i < |ids| => Row(ids[i], entries[i]))
  }

  function AllStored(rows: seq<Row>): seq<Fate> { seq(|rows|, i requires 0 <= i < |rows| => Stored(rows[i])) }

  function AllLost(entries: seq<string>): seq<Fate> {
    seq(|entries|, i requires 0 <= i < |entries| => Lost(entries[i], false))
  }

  function Working(s: State, w: Work): State { s.(bat := s.bat.(work := w)) }

  /** The batcher after a flush: back to the queue, or out if this was the last one. */
  function AfterFlush(s: State): State {
    s.(bat := Batcher(if s.bat.finalFlush then Exited else Collecting, s.bat.finalFlush, [], []))
  }

  /** insertEach gives up on row i, which the database has refused for good or not. */
  function DropRow(s: State, rejected: bool): State
    requires s.bat.work.InsertingRow? && s.bat.work.i < |s.bat.batch|
  {
    var i := s.bat.work.i;
    Working(s, InsertingRow(i + 1, First)).(stats := s.stats.(dropped := s.stats.dropped + 1),
                                            fates := s.fates + [Lost(s.bat.batch[i], rejected)])
  }

  /** A failed insert commits nothing but may use up ids. */
  function InsertFailed(s: State, givesUp: bool, nextId: int): State {
    s.(stats := FailedTry(s.stats, givesUp), db := s.db.(nextId := nextId))
  }

  function FailBatch(s: State, transient: bool, nextId: int): State {
    Working(InsertFailed(s, GivesUp(s, transient), nextId), if GivesUp(s, transient) then GaveUpOnBatch else InsertingBatch(Waiting))
  }

  function FailRow(s: State, transient: bool, nextId: int): State
    requires s.bat.work.InsertingRow? && s.bat.work.i < |s.bat.batch|
  {
    var t := InsertFailed(s, GivesUp(s, transient), nextId);
    if GivesUp(s, transient) then DropRow(t, !transient) else Working(t, InsertingRow(s.bat.work.i, Waiting))
  }

  function TakeOne(s: State): State
    requires s.pipe.queue != []
  {
    var b := s.bat;
    s.(pipe := s.pipe.(queue := s.pipe.queue[1..]),
       bat := b.(batch := b.batch + [s.pipe.queue[0]],
                 work := if |b.batch| + 1 >= BATCH_SIZE then InsertingBatch(First) else Collecting))
  }

  predicate Less(a: int, b: int) { a < b }

  predicate NotAfter(a: int, b: int) { a <= b }

  /** The ids of a batch: the draw, sorted. */
  function IdsOf(draw: seq<int>): (ids: seq<int>)
    ensures |ids| == |draw|
  {
    SortBy(Less, draw)
  }

  function DbAfter(d: Db, ids: seq<int>, rows: seq<Row>): Db {
    Db(if ids == [] then d.nextId else ids[|ids| - 1] + 1, d.committed + rows)
  }

  function StoreBatch(s: State, draw: seq<int>): State
    requires s.bat.work.InsertingBatch? && |draw| == |s.bat.batch|
  {
    var rows := Rows(IdsOf(draw), s.bat.batch);
    s.(bat := s.bat.(work := Publishing, stored := rows), db := DbAfter(s.db, IdsOf(draw), rows),
       stats := Recovered(s.stats, s.bat.work.attempt), fates := s.fates + AllStored(rows))
  }

  function StoreRow(s: State, id: int): State
    requires s.bat.work.InsertingRow? && s.bat.work.i < |s.bat.batch|
  {
    var row := Row(id, s.bat.batch[s.bat.work.i]);
    s.(bat := s.bat.(work := InsertingRow(s.bat.work.i + 1, First), stored := s.bat.stored + [row]),
       db := DbAfter(s.db, [id], [row]), stats := Recovered(s.stats, s.bat.work.attempt), fates := s.fates + [Stored(row)])
  }

  function LeaveBatch(s: State): State {
    if s.front.cancelled then
      AfterFlush(s.(stats := s.stats.(dropped := s.stats.dropped + |s.bat.batch|), fates := s.fates + AllLost(s.bat.batch)))
    else s.(bat := s.bat.(stored := [], work := InsertingRow(0, First)))
  }

  function Resumed(s: State): State
    requires WaitingToRetry(s.bat)
  {
    Working(s, if s.bat.work.InsertingRow? then InsertingRow(s.bat.work.i, Again) else InsertingBatch(Again))
  }

  function CutOff(s: State): State
    requires CanBatch(s, BackoffCut)
  {
    if s.bat.work.InsertingRow? then DropRow(s, false) else Working(s, GaveUpOnBatch)
  }

  function Published(s: State): State {
    AfterFlush(s.(stats := s.stats.(inserted := s.stats.inserted + |s.bat.stored|), broadcast := s.broadcast + s.bat.stored))
  }

  function BatchNext(s: State, step: BatchStep): State
    requires CanBatch(s, step)
  {
    match step
    case Take => TakeOne(s)
    case Tick => if s.bat.batch == [] then s else Working(s, InsertingBatch(First))
    case SeeClosed => LastFlush(s)
    case BatchCommits(draw) => StoreBatch(s, draw)
    case BatchFails(transient, n) => FailBatch(s, transient, n)
    case AfterBatch => LeaveBatch(s)
    case RowCommits(id) => StoreRow(s, id)
    case RowFails(transient, n) => FailRow(s, transient, n)
    case BackoffOver => Resumed(s)
    case BackoffCut => CutOff(s)
    case RowsDone => Working(s, Publishing)
    case Publish => Published(s)
  }

  function LastFlush(s: State): State {
    s.(bat := s.bat.(finalFlush := true, work := if s.bat.batch == [] then Exited else InsertingBatch(First)))
  }

  function Next(s: State, step: Step): State
    requires Enabled(s, step)
  {
    match step
    case Conn(c, conn) => ConnNext(s, c, conn)
    case Main(main) => ServeNext(s, main)
    case Batch(batch) => BatchNext(s, batch)
  }

  /** States after some interleaving of enabled steps. */
  ghost predicate Run(s: State, steps: seq<Step>, t: State)
    decreases |steps|
  {
    if steps == [] then s == t
    else Enabled(s, steps[0]) && Run(Next(s, steps[0]), steps[1..], t)
  }

  // ----- the ids of a batch

  function Ids(rows: seq<Row>): seq<int> { seq(|rows|, i requires 0 <= i < |rows| => rows[i].id) }

  function Texts(rows: seq<Row>): seq<string> { seq(|rows|, i requires 0 <= i < |rows| => rows[i].entry) }

  ghost predicate Rising(ids: seq<int>) { forall i, j | 0 <= i < j < |ids| :: ids[i] < ids[j] }

  lemma RowsAre(ids: seq<int>, entries: seq<string>)
    requires |ids| == |entries|
    ensures Ids(Rows(ids, entries)) == ids && Texts(Rows(ids, entries)) == entries
  {
  }

  lemma {:induction false} DistinctOnce(ids: seq<int>, x: int)
    requires Distinct(ids)
    ensures multiset(ids)[x] <= 1
  {
    if ids == [] {
    } else {
      var n := |ids| - 1;
      assert ids == ids[..n] + [ids[n]];
      DistinctOnce(ids[..n], x);
      if x == ids[n] { assert x !in ids[..n]; }
    }
  }

  lemma TwiceCountsTwo(ids: seq<int>, i: nat, j: nat)
    requires i < j < |ids| && ids[i] == ids[j]
    ensures multiset(ids)[ids[i]] >= 2
  {
    assert ids == ids[..j] + ids[j..];
    assert ids[i] in ids[..j] && ids[j] in ids[j..];
  }

  /** Sorting the draw, in whatever order it came, assigns strictly increasing ids: exactly those drawn, all new. */
  lemma IdsAscend(draw: seq<int>, nextId: int)
    requires Distinct(draw) && forall id | id in draw :: id >= nextId
    ensures var ids := IdsOf(draw);
            && multiset(ids) == multiset(draw)
            && Rising(ids)
            && (forall i | 0 <= i < |ids| :: nextId <= ids[i] <= ids[|ids| - 1])
  {
    var ids := IdsOf(draw);
    SortKeeps(Less, draw);
    SortOrders(Less, NotAfter, draw);
    forall i, j | 0 <= i < j < |ids| ensures ids[i] < ids[j] {
      PairsInOrder(NotAfter, ids, i, j);
      DistinctOnce(draw, ids[i]);
      if ids[i] == ids[j] { TwiceCountsTwo(ids, i, j); }
    }
    forall i | 0 <= i < |ids| ensures nextId <= ids[i] <= ids[|ids| - 1] {
      assert ids[i] in multiset(ids) && ids[i] in draw;
      assert i < |ids| - 1 ==> ids[i] < ids[|ids| - 1];
    }
  }

  // ----- the same steps on the server's own fields

  class Server {
    var front: Front
    var pipe: Pipe
    var bat: Batcher
    var db: Db
    var stats: Stats
    var broadcast: seq<Row>
    ghost var accepted: seq<string>
    ghost var fates: seq<Fate>

    ghost function View(): State
      reads this
    {
      State(front, pipe, bat, db, stats, broadcast, accepted, fates)
    }

    constructor ()
      ensures View() == START
    {
      front, pipe := Front(map[], true, Serving, false), Pipe([], false, false);
      bat, db, stats := Batcher(Collecting, false, [], []), Db(1, []), Stats(0, 0, 0, 0, false);
      broadcast, accepted, fates := [], [], [];
    }

    /** retry, when a try has failed: count it, and wait for another unless that is pointless. */
    method FailTry(transient: bool) returns (givesUp: bool)
      modifies this`stats
      ensures givesUp == GivesUp(View(), transient) && stats == FailedTry(old(stats), givesUp)
      ensures stats.failed == old(stats.failed) + 1 && stats.retrying == !givesUp
      ensures givesUp <==> front.cancelled || !transient
    {
      stats := stats.(failed := stats.failed + 1);
      if front.cancelled || !transient {
        stats := stats.(retrying := false);
        return true;
      }
      stats := stats.(retrying := true);
      givesUp := false;
    }

    /** retry, when a try has succeeded. */
    method Recover(a: Attempt)
      modifies this`stats
      ensures stats == Recovered(old(stats), a)
    {
      if a.Again? {
        stats := stats.(retrying := false);
      }
    }

    /** The source look-up of a record failed: wait, or drop the record. */
    method LookupError(c: nat, transient: bool)
      requires CanConn(View(), c, LookupFails(transient))
      modifies this`front, this`stats
      ensures View() == LookupFailed(old(View()), c, transient)
      ensures front.conns[c] == if transient && !front.cancelled then LookingUp(old(front.conns[c].entry), Waiting) else Reading
      ensures stats.failed == old(stats.failed) + 1
      ensures stats.badRecords == old(stats.badRecords) + if transient && !front.cancelled then 0 else 1
    {
      var givesUp := FailTry(transient);
      if givesUp {
        stats := stats.(badRecords := stats.badRecords + 1);
        front := front.(conns := front.conns[c := Reading]);
      } else {
        front := front.(conns := front.conns[c := LookingUp(front.conns[c].entry, Waiting)]);
      }
    }

    method LookupSuccess(c: nat)
      requires CanConn(View(), c, LookupOk)
      modifies this`front, this`stats
      ensures View() == LookupDone(old(View()), c)
      ensures front.conns[c] == Sending(old(front.conns[c].entry)) && stats.failed == old(stats.failed)
    {
      Recover(front.conns[c].attempt);
      front := front.(conns := front.conns[c := Sending(front.conns[c].entry)]);
    }

    /** `s.queue <- entry`: blocks while full, panics when closed. */
    method SendEntry(c: nat)
      requires CanConn(View(), c, Send)
      modifies this`front, this`pipe, this`accepted
      ensures View() == Sent(old(View()), c)
      ensures if old(pipe.closed) then pipe.panicked
              else !pipe.closed && pipe.queue == old(pipe.queue) + [old(front.conns[c].entry)] && front.conns[c] == Reading
    {
      if pipe.closed {
        pipe := pipe.(panicked := true);
        return;
      }
      var e := front.conns[c].entry;
      pipe := pipe.(queue := pipe.queue + [e]);
      front := front.(conns := front.conns[c := Reading]);
      accepted := accepted + [e];
    }

    /** The batcher's receive: a full batch is flushed. */
    method TakeEntry()
      requires CanBatch(View(), Take)
      modifies this`pipe, this`bat
      ensures View() == TakeOne(old(View()))
      ensures bat.batch == old(bat.batch) + [old(pipe.queue)[0]] && pipe.queue == old(pipe.queue)[1..]
      ensures bat.work == if |bat.batch| == BATCH_SIZE || old(|bat.batch|) >= BATCH_SIZE then InsertingBatch(First) else Collecting
    {
      bat := bat.(batch := bat.batch + [pipe.queue[0]]);
      pipe := pipe.(queue := pipe.queue[1..]);
      if |bat.batch| >= BATCH_SIZE {
        bat := bat.(work := InsertingBatch(First));
      }
    }

    /** The flush timer: what is in hand goes to the database, however little it is. */
    method FlushTimer()
      requires CanBatch(View(), Tick)
      modifies this`bat
      ensures View() == BatchNext(old(View()), Tick)
      ensures bat.batch == old(bat.batch) && (bat.work == if bat.batch == [] then Collecting else InsertingBatch(First))
    {
      if bat.batch != [] {
        bat := bat.(work := InsertingBatch(First));
      }
    }

    method SeeQueueClosed()
      requires CanBatch(View(), SeeClosed)
      modifies this`bat
      ensures View() == LastFlush(old(View()))
      ensures bat.finalFlush && bat.batch == old(bat.batch) && (bat.work == if bat.batch == [] then Exited else InsertingBatch(First))
    {
      bat := bat.(finalFlush := true);
      if bat.batch == [] {
        bat := bat.(work := Exited);
      } else {
        bat := bat.(work := InsertingBatch(First));
      }
    }

    /** InsertEntries committed: the drawn ids are sorted and given out in batch order. */
    method BatchInserted(draw: seq<int>)
      requires CanBatch(View(), BatchCommits(draw))
      modifies this`bat, this`db, this`stats, this`fates
      ensures View() == StoreBatch(old(View()), draw)
      ensures Texts(bat.stored) == old(bat.batch)
      ensures multiset(Ids(bat.stored)) == multiset(draw) && Rising(Ids(bat.stored))
    {
      var rows := NumberRows(draw);
      Recover(bat.work.attempt);
      bat := bat.(work := Publishing, stored := rows);
      fates := fates + AllStored(rows);
    }

    /** insertEntryRows: sorts the draw and commits the rows. */
    method NumberRows(draw: seq<int>) returns (rows: seq<Row>)
      requires CanBatch(View(), BatchCommits(draw))
      modifies this`db
      ensures rows == Rows(IdsOf(draw), bat.batch) && db == DbAfter(old(db), IdsOf(draw), rows)
      ensures Texts(rows) == bat.batch
      ensures multiset(Ids(rows)) == multiset(draw) && Rising(Ids(rows))
    {
      IdsAscend(draw, db.nextId);
      var ids := SortBy(Less, draw);
      RowsAre(ids, bat.batch);
      rows := Rows(ids, bat.batch);
      if ids != [] {
        db := db.(nextId := ids[|ids| - 1] + 1);
      }
      db := db.(committed := db.committed + rows);
    }

    method BatchError(transient: bool, nextId: int)
      requires CanBatch(View(), BatchFails(transient, nextId))
      modifies this`bat, this`db, this`stats
      ensures View() == FailBatch(old(View()), transient, nextId)
      ensures bat.batch == old(bat.batch) && stats.failed == old(stats.failed) + 1 && stats.dropped == old(stats.dropped)
      ensures bat.work == if transient && !front.cancelled then InsertingBatch(Waiting) else GaveUpOnBatch
    {
      db := db.(nextId := nextId);
      var givesUp := FailTry(transient);
      if givesUp {
        bat := bat.(work := GaveUpOnBatch);
      } else {
        bat := bat.(work := InsertingBatch(Waiting));
      }
    }

    /** flush, after retry has given up on the batch. */
    method AfterBatchError()
      requires CanBatch(View(), AfterBatch)
      modifies this`bat, this`stats, this`fates
      ensures View() == LeaveBatch(old(View()))
      ensures if front.cancelled then bat.batch == [] && stats.dropped == old(stats.dropped) + |old(bat.batch)|
              else bat.work == InsertingRow(0, First) && bat.batch == old(bat.batch) && stats == old(stats)
    {
      if front.cancelled {
        stats := stats.(dropped := stats.dropped + |bat.batch|);
        fates := fates + AllLost(bat.batch);
        EndFlush();
      } else {
        bat := bat.(stored := [], work := InsertingRow(0, First));
      }
    }

    method EndFlush()
      modifies this`bat
      ensures View() == AfterFlush(old(View()))
    {
      bat := bat.(batch := [], stored := [], work := Collecting);
      if bat.finalFlush {
        bat := bat.(work := Exited);
      }
    }

    method RowInserted(id: int)
      requires CanBatch(View(), RowCommits(id))
      modifies this`bat, this`db, this`stats, this`fates
      ensures View() == StoreRow(old(View()), id)
      ensures db.committed == old(db.committed) + [Row(id, old(bat.batch[bat.work.i]))] && bat.stored == old(bat.stored) + [Row(id, old(bat.batch[bat.work.i]))]
      ensures bat.work == InsertingRow(old(bat.work.i) + 1, First) && stats.dropped == old(stats.dropped)
    {
      var row := Row(id, bat.batch[bat.work.i]);
      Recover(bat.work.attempt);
      db := Db(id + 1, db.committed + [row]);
      bat := bat.(stored := bat.stored + [row], work := InsertingRow(bat.work.i + 1, First));
      fates := fates + [Stored(row)];
    }

    method RowError(transient: bool, nextId: int)
      requires CanBatch(View(), RowFails(transient, nextId))
      modifies this`bat, this`db, this`stats, this`fates
      ensures View() == FailRow(old(View()), transient, nextId)
      ensures bat.work == if transient && !front.cancelled then InsertingRow(old(bat.work.i), Waiting) else InsertingRow(old(bat.work.i) + 1, First)
      ensures stats.dropped == old(stats.dropped) + if transient && !front.cancelled then 0 else 1
    {
      db := db.(nextId := nextId);
      var givesUp := FailTry(transient);
      if givesUp {
        GiveUpOnRow(!transient);
      } else {
        bat := bat.(work := InsertingRow(bat.work.i, Waiting));
      }
    }

    method GiveUpOnRow(ghost rejected: bool)
      requires bat.work.InsertingRow? && bat.work.i < |bat.batch|
      modifies this`bat, this`stats, this`fates
      ensures View() == DropRow(old(View()), rejected)
    {
      var i := bat.work.i;
      stats := stats.(dropped := stats.dropped + 1);
      fates := fates + [Lost(bat.batch[i], rejected)];
      bat := bat.(work := InsertingRow(i + 1, First));
    }

    /** The timer of a backoff fired (`over`), or the context ended it. */
    method EndBackoff(over: bool)
      requires CanBatch(View(), if over then BackoffOver else BackoffCut)
      modifies this`bat, this`stats, this`fates
      ensures View() == if over then Resumed(old(View())) else CutOff(old(View()))
    {
      match bat.work {
        case InsertingBatch(_) =>
          bat := bat.(work := if over then InsertingBatch(Again) else GaveUpOnBatch);
        case InsertingRow(i, _) =>
          if over {
            bat := bat.(work := InsertingRow(i, Again));
          } else {
            GiveUpOnRow(false);
          }
        case _ =>
      }
    }

    /** Count, broadcast and dispatch what the flush stored. */
    method PublishStored()
      requires CanBatch(View(), Publish)
      modifies this`bat, this`stats, this`broadcast
      ensures View() == Published(old(View()))
      ensures broadcast == old(broadcast) + old(bat.stored) && stats.inserted == old(stats.inserted) + |old(bat.stored)|
      ensures bat.batch == [] && bat.stored == [] && (bat.work == if bat.finalFlush then Exited else Collecting)
    {
      stats := stats.(inserted := stats.inserted + |bat.stored|);
      if bat.stored != [] {
        broadcast := broadcast + bat.stored;
      }
      EndFlush();
    }

    method CloseTheQueue()
      requires CanServe(View(), CloseQueue)
      modifies this`front, this`pipe
      ensures View() == ServeNext(old(View()), CloseQueue)
      ensures pipe.closed && pipe.queue == old(pipe.queue) && front.serve == QueueClosed
    {
      pipe := pipe.(closed := true);
      front := front.(serve := QueueClosed);
    }
  }

  // ----- what every interleaving keeps

  function EntriesOf(fates: seq<Fate>): seq<string> {
    seq(|fates|, i requires 0 <= i < |fates| => if fates[i].Stored? then fates[i].row.entry else fates[i].entry)
  }

  function StoredOf(fates: seq<Fate>): seq<Row> {
    if fates == [] then []
    else
      var last := fates[|fates| - 1];
      StoredOf(fates[..|fates| - 1]) + if last.Stored? then [last.row] else []
  }

  /** Entries the batcher holds whose fate is still open. */
  function Pending(b: Batcher): seq<string> {
    match b.work
    case InsertingRow(i, _) => if i <= |b.batch| then b.batch[i..] else []
    case Publishing => []
    case Exited => []
    case _ => b.batch
  }

  /** Every accepted entry is queued, held, or has exactly one fate, all in arrival order. */
  ghost predicate Placed(s: State) {
    s.accepted == Joined([EntriesOf(s.fates), Pending(s.bat), s.pipe.queue])
  }

  /** The parts, one after another. */
  function Joined(parts: seq<seq<string>>): seq<string> {
    if parts == [] then [] else parts[0] + Joined(parts[1..])
  }

  lemma JoinedThree(a: seq<string>, b: seq<string>, c: seq<string>)
    ensures Joined([a, b, c]) == a + b + c
  {
    assert [a, b, c][1..] == [b, c] && [b, c][1..] == [c] && [c][1..] == [];
    assert Joined([c]) == c && Joined([b, c]) == b + c;
  }

  lemma PlacedIs(s: State)
    ensures Placed(s) <==> s.accepted == EntriesOf(s.fates) + Pending(s.bat) + s.pipe.queue
  {
    JoinedThree(EntriesOf(s.fates), Pending(s.bat), s.pipe.queue);
  }

  /** Some entry was lost without the database having refused it. */
  ghost predicate Abandoned(fates: seq<Fate>) { exists f | f in fates :: f.Lost? && !f.rejected }

  lemma StoredAbandonsNone(fates: seq<Fate>, rows: seq<Row>)
    ensures Abandoned(fates + AllStored(rows)) ==> Abandoned(fates)
  {
    if f :| f in fates + AllStored(rows) && f.Lost? && !f.rejected {
      assert f in fates;
    }
  }

  /** The counters and the table say what the fates say; a loss without a refusal needs the deadline. */
  ghost predicate Counted(s: State) {
    && s.db.committed == StoredOf(s.fates)
    && |s.fates| == |s.db.committed| + s.stats.dropped
    && s.db.committed == s.broadcast + s.bat.stored
    && s.stats.inserted == |s.broadcast|
    && (Abandoned(s.fates) ==> s.front.cancelled)
  }

  ghost predicate Ascends(d: Db) { Rising(Ids(d.committed)) && forall row | row in d.committed :: row.id < d.nextId }

  ghost predicate Accounted(s: State) { Placed(s) && Counted(s) && Ascends(s.db) }

  ghost predicate WorkOk(b: Batcher) {
    && (b.work.Exited? ==> b.finalFlush && b.batch == [])
    && (b.work.InsertingRow? ==> b.work.i <= |b.batch| && (!b.work.attempt.First? ==> b.work.i < |b.batch|))
    && (!b.work.InsertingRow? && !b.work.Publishing? ==> b.stored == [])
    && |b.batch| <= BATCH_SIZE
    && (b.work.Collecting? ==> |b.batch| < BATCH_SIZE && !b.finalFlush)
  }

  ghost predicate Ordered(s: State) {
    && !s.pipe.panicked && |s.pipe.queue| <= QUEUE_DEPTH
    && (s.pipe.closed <==> s.front.serve.QueueClosed? || s.front.serve.Returned?)
    && (s.front.accepting <==> s.front.serve.Serving?)
    && (s.pipe.closed ==> s.front.conns == map[])
    && (s.bat.finalFlush ==> s.pipe.closed && s.pipe.queue == [])
    && (s.front.serve.Returned? ==> s.bat.work.Exited?)
    && (s.front.cancelled ==> !s.front.serve.Serving?)
    && WorkOk(s.bat)
  }

  ghost predicate Inv(s: State) { Accounted(s) && Ordered(s) }

  lemma {:induction false} StoredConcat(a: seq<Fate>, b: seq<Fate>)
    ensures StoredOf(a + b) == StoredOf(a) + StoredOf(b)
  {
    if b == [] {
      assert a + b == a;
    } else {
      assert (a + b)[..|a + b| - 1] == a + b[..|b| - 1];
      StoredConcat(a, b[..|b| - 1]);
    }
  }

  lemma {:induction false} StoredOfAllStored(rows: seq<Row>)
    ensures StoredOf(AllStored(rows)) == rows
  {
    if rows == [] {
    } else {
      var n := |rows| - 1;
      StoredOfAllStored(rows[..n]);
      assert AllStored(rows)[..n] == AllStored(rows[..n]);
    }
  }

  lemma {:induction false} StoredOfAllLost(entries: seq<string>)
    ensures StoredOf(AllLost(entries)) == []
  {
    if entries == [] {
    } else {
      var n := |entries| - 1;
      StoredOfAllLost(entries[..n]);
      assert AllLost(entries)[..n] == AllLost(entries[..n]);
    }
  }

  lemma OneFate(f: Fate)
    ensures StoredOf([f]) == if f.Stored? then [f.row] else []
  {
    assert [f][..0] == [];
  }

  lemma EntriesConcat(a: seq<Fate>, b: seq<Fate>)
    ensures EntriesOf(a + b) == EntriesOf(a) + EntriesOf(b)
  {
  }

  lemma ConnOrdered(s: State, c: nat, step: ConnStep)
    requires Ordered(s) && CanConn(s, c, step)
    ensures Ordered(ConnNext(s, c, step))
  {
    assert s.front.conns == map[] ==> step.Accept?;
  }

  lemma ServeOrdered(s: State, step: ServeStep)
    requires Ordered(s) && CanServe(s, step)
    ensures Ordered(ServeNext(s, step))
  {
  }

  /** What the batcher's steps leave alone, and what they keep of the batcher. */
  ghost predicate BatcherOk(s: State, t: State) {
    && t.front == s.front && t.pipe.closed == s.pipe.closed && t.pipe.panicked == s.pipe.panicked
    && |t.pipe.queue| <= |s.pipe.queue| && WorkOk(t.bat)
    && (t.bat.finalFlush ==> t.pipe.closed && t.pipe.queue == [])
    && (s.bat.work.Exited? ==> t.bat.work.Exited?)
  }

  lemma QueueStepOk(s: State, step: BatchStep)
    requires Ordered(s) && CanBatch(s, step) && (step.Take? || step.Tick? || step.SeeClosed? || step.RowsDone? || step.Publish?)
    ensures BatcherOk(s, BatchNext(s, step))
  {
  }

  lemma InsertStepOk(s: State, step: BatchStep)
    requires Ordered(s) && CanBatch(s, step) && (step.BatchCommits? || step.BatchFails? || step.RowCommits? || step.RowFails?)
    ensures BatcherOk(s, BatchNext(s, step))
  {
  }

  lemma RetryStepOk(s: State, step: BatchStep)
    requires Ordered(s) && CanBatch(s, step) && (step.AfterBatch? || step.BackoffOver? || step.BackoffCut?)
    ensures BatcherOk(s, BatchNext(s, step))
  {
  }

  lemma BatchOrdered(s: State, step: BatchStep)
    requires Ordered(s) && CanBatch(s, step)
    ensures Ordered(BatchNext(s, step))
  {
    if step.BatchCommits? || step.BatchFails? || step.RowCommits? || step.RowFails? { InsertStepOk(s, step); }
    else if step.AfterBatch? || step.BackoffOver? || step.BackoffCut? { RetryStepOk(s, step); }
    else { QueueStepOk(s, step); }
  }

  lemma OrderKept(s: State, step: Step)
    requires Ordered(s) && Enabled(s, step)
    ensures Ordered(Next(s, step))
  {
    match step
    case Conn(c, conn) => ConnOrdered(s, c, conn);
    case Main(main) => ServeOrdered(s, main);
    case Batch(batch) => BatchOrdered(s, batch);
  }

  /** New rows with rising, new ids keep the table ascending. */
  lemma DbAscends(d: Db, ids: seq<int>, rows: seq<Row>)
    requires Ascends(d) && Ids(rows) == ids && Rising(ids)
    requires forall i | 0 <= i < |ids| :: d.nextId <= ids[i] <= ids[|ids| - 1]
    ensures Ascends(DbAfter(d, ids, rows))
  {
    var all := d.committed + rows;
    assert Ids(all) == Ids(d.committed) + ids;
    forall i, j | 0 <= i < j < |all| ensures Ids(all)[i] < Ids(all)[j] {
      if j < |d.committed| {
        assert Ids(d.committed)[i] < Ids(d.committed)[j];
      } else if i < |d.committed| {
        assert d.committed[i] in d.committed && d.nextId <= ids[j - |d.committed|];
      } else {
        assert ids[i - |d.committed|] < ids[j - |d.committed|];
      }
    }
    forall row | row in all ensures row.id < DbAfter(d, ids, rows).nextId {
      if row in rows {
        var i :| 0 <= i < |rows| && rows[i] == row;
        assert ids[i] == row.id;
      } else if ids != [] {
        assert d.nextId <= ids[0];
      }
    }
  }

  lemma BatchPlaced(s: State, draw: seq<int>)
    requires Inv(s) && CanBatch(s, BatchCommits(draw))
    ensures Placed(StoreBatch(s, draw))
  {
    PlacedIs(s);
    PlacedIs(StoreBatch(s, draw));
    var more := AllStored(Rows(IdsOf(draw), s.bat.batch));
    EntriesConcat(s.fates, more);
    assert EntriesOf(more) == s.bat.batch;
  }

  lemma BatchCounted(s: State, draw: seq<int>)
    requires Inv(s) && CanBatch(s, BatchCommits(draw))
    ensures Counted(StoreBatch(s, draw))
  {
    var rows := Rows(IdsOf(draw), s.bat.batch);
    StoredConcat(s.fates, AllStored(rows));
    StoredOfAllStored(rows);
    StoredAbandonsNone(s.fates, rows);
  }

  lemma BatchCommitKept(s: State, draw: seq<int>)
    requires Inv(s) && CanBatch(s, BatchCommits(draw))
    ensures Accounted(StoreBatch(s, draw))
  {
    BatchPlaced(s, draw);
    BatchCounted(s, draw);
    IdsAscend(draw, s.db.nextId);
    RowsAre(IdsOf(draw), s.bat.batch);
    DbAscends(s.db, IdsOf(draw), Rows(IdsOf(draw), s.bat.batch));
  }

  lemma RowPlaced(s: State, f: Fate)
    requires Placed(s) && s.bat.work.InsertingRow? && s.bat.work.i < |s.bat.batch|
    requires (if f.Stored? then f.row.entry else f.entry) == s.bat.batch[s.bat.work.i]
    ensures EntriesOf(s.fates + [f]) + s.bat.batch[s.bat.work.i + 1..] + s.pipe.queue == s.accepted
  {
    PlacedIs(s);
    var head, tail := s.bat.batch[s.bat.work.i], s.bat.batch[s.bat.work.i + 1..];
    EntriesConcat(s.fates, [f]);
    assert EntriesOf([f]) == [head];
    assert s.bat.batch[s.bat.work.i..] == [head] + tail;
    MoveHead(EntriesOf(s.fates), head, tail, s.pipe.queue);
  }

  lemma MoveHead<T>(a: seq<T>, x: T, b: seq<T>, c: seq<T>)
    ensures (a + [x]) + b + c == a + ([x] + b) + c
  {
  }

  lemma RowCounted(s: State, f: Fate)
    requires Counted(s)
    ensures StoredOf(s.fates + [f]) == s.db.committed + if f.Stored? then [f.row] else []
  {
    StoredConcat(s.fates, [f]);
    OneFate(f);
  }

  lemma DropRowKept(s: State, rejected: bool)
    requires Inv(s) && s.bat.work.InsertingRow? && s.bat.work.i < |s.bat.batch|
    requires !rejected ==> s.front.cancelled
    ensures Accounted(DropRow(s, rejected))
  {
    PlacedIs(DropRow(s, rejected));
    RowPlaced(s, Lost(s.bat.batch[s.bat.work.i], rejected));
    RowCounted(s, Lost(s.bat.batch[s.bat.work.i], rejected));
  }

  lemma StoreRowCounted(s: State, id: int)
    requires Counted(s) && s.bat.work.InsertingRow? && s.bat.work.i < |s.bat.batch|
    ensures Counted(StoreRow(s, id))
  {
    var row := Row(id, s.bat.batch[s.bat.work.i]);
    RowCounted(s, Stored(row));
    assert s.broadcast + (s.bat.stored + [row]) == s.db.committed + [row];
    StoredAbandonsNone(s.fates, [row]);
    assert AllStored([row]) == [Stored(row)];
  }

  lemma RowCommitKept(s: State, id: int)
    requires Inv(s) && CanBatch(s, RowCommits(id))
    ensures Accounted(StoreRow(s, id))
  {
    PlacedIs(StoreRow(s, id));
    var row := Row(id, s.bat.batch[s.bat.work.i]);
    RowPlaced(s, Stored(row));
    StoreRowCounted(s, id);
    DbAscends(s.db, [id], [row]);
  }

  lemma BatchLost(s: State)
    requires Inv(s) && s.bat.work.GaveUpOnBatch?
    ensures EntriesOf(s.fates + AllLost(s.bat.batch)) + s.pipe.queue == s.accepted
    ensures StoredOf(s.fates + AllLost(s.bat.batch)) == s.db.committed
  {
    PlacedIs(s);
    StoredConcat(s.fates, AllLost(s.bat.batch));
    StoredOfAllLost(s.bat.batch);
    EntriesConcat(s.fates, AllLost(s.bat.batch));
    assert EntriesOf(AllLost(s.bat.batch)) == s.bat.batch;
  }

  lemma AfterBatchKept(s: State)
    requires Inv(s) && s.bat.work.GaveUpOnBatch?
    ensures Accounted(LeaveBatch(s))
  {
    PlacedIs(s);
    PlacedIs(LeaveBatch(s));
    BatchLost(s);
  }

  lemma TakeKept(s: State)
    requires Inv(s) && CanBatch(s, Take)
    ensures Accounted(TakeOne(s))
  {
    PlacedIs(s);
    PlacedIs(TakeOne(s));
    assert s.pipe.queue == [s.pipe.queue[0]] + s.pipe.queue[1..];
    assert Pending(TakeOne(s).bat) == s.bat.batch + [s.pipe.queue[0]];
  }

  lemma InsertFailedKept(s: State, givesUp: bool, n: int)
    requires Inv(s) && n >= s.db.nextId
    ensures Inv(InsertFailed(s, givesUp, n))
  {
  }

  lemma PublishKept(s: State)
    requires Inv(s) && s.bat.work.Publishing?
    ensures Accounted(Published(s))
  {
    var t := Published(s);
    assert Pending(t.bat) == Pending(s.bat) == [];
    assert t.broadcast + t.bat.stored == s.db.committed;
  }

  lemma QuietKept(s: State, step: BatchStep)
    requires Inv(s) && CanBatch(s, step)
    requires step.Tick? || step.SeeClosed? || step.BatchFails? || step.BackoffOver? || step.RowsDone?
    ensures Accounted(BatchNext(s, step))
  {
    assert Pending(BatchNext(s, step).bat) == Pending(s.bat);
  }

  lemma BatchKept(s: State, step: BatchStep)
    requires Inv(s) && CanBatch(s, step)
    ensures Accounted(BatchNext(s, step))
  {
    if step.Take? { TakeKept(s); }
    else if step.BatchCommits? { BatchCommitKept(s, step.draw); }
    else if step.AfterBatch? { AfterBatchKept(s); }
    else if step.RowCommits? { RowCommitKept(s, step.id); }
    else if step.RowFails? {
      InsertFailedKept(s, GivesUp(s, step.transient), step.nextId);
      if GivesUp(s, step.transient) { DropRowKept(InsertFailed(s, true, step.nextId), !step.transient); }
    }
    else if step.BackoffCut? { if s.bat.work.InsertingRow? { DropRowKept(s, false); } }
    else if step.Publish? { PublishKept(s); }
    else { QuietKept(s, step); }
  }

  lemma SendKept(s: State, c: nat)
    requires Inv(s) && CanConn(s, c, Send)
    ensures Accounted(Sent(s, c))
  {
    PlacedIs(s);
    PlacedIs(Sent(s, c));
    assert s.front.conns != map[];
  }

  lemma ConnKept(s: State, c: nat, step: ConnStep)
    requires Inv(s) && CanConn(s, c, step)
    ensures Accounted(ConnNext(s, c, step))
  {
    if step.Send? {
      SendKept(s, c);
    } else {
      var t := ConnNext(s, c, step);
      assert t.bat == s.bat && t.pipe == s.pipe && t.db == s.db && t.front.cancelled == s.front.cancelled;
    }
  }

  lemma ServeKept(s: State, step: ServeStep)
    requires Inv(s) && CanServe(s, step)
    ensures Accounted(ServeNext(s, step))
  {
    var t := ServeNext(s, step);
    assert t.bat == s.bat && t.pipe.queue == s.pipe.queue && t.db == s.db && t.stats == s.stats;
  }

  lemma StepKeepsInv(s: State, step: Step)
    requires Inv(s) && Enabled(s, step)
    ensures Inv(Next(s, step))
  {
    OrderKept(s, step);
    match step
    case Conn(c, conn) => ConnKept(s, c, conn);
    case Main(main) => ServeKept(s, main);
    case Batch(batch) => BatchKept(s, batch);
  }

  lemma {:induction false} RunKeepsInv(s: State, steps: seq<Step>, t: State)
    requires Inv(s) && Run(s, steps, t)
    ensures Inv(t)
    decreases |steps|
  {
    if steps == [] {
    } else {
      StepKeepsInv(s, steps[0]);
      RunKeepsInv(Next(s, steps[0]), steps[1..], t);
    }
  }

  /**
   Conservation over every interleaving: nothing is sent on the closed queue, and
   accepted = queued + held + inserted + dropped, where what is stored but not yet
   published counts as held.
   */
  lemma NothingLeaks(steps: seq<Step>, t: State)
    requires Run(START, steps, t)
    ensures !t.pipe.panicked
    ensures |t.accepted| == |t.pipe.queue| + |Pending(t.bat)| + |t.bat.stored| + t.stats.inserted + t.stats.dropped
  {
    PlacedIs(t);
    RunKeepsInv(START, steps, t);
  }

  /** Only committed entries are broadcast, in arrival order, under strictly increasing ids. */
  lemma BroadcastIsCommittedInOrder(steps: seq<Step>, t: State)
    requires Run(START, steps, t)
    ensures t.broadcast <= t.db.committed && |t.broadcast| == t.stats.inserted
    ensures forall i, j | 0 <= i < j < |t.broadcast| :: t.broadcast[i].id < t.broadcast[j].id
    ensures EntriesOf(t.fates) <= t.accepted && t.db.committed == StoredOf(t.fates)
  {
    PlacedIs(t);
    RunKeepsInv(START, steps, t);
    assert t.db.committed == t.broadcast + t.bat.stored;
    forall i, j | 0 <= i < j < |t.broadcast| ensures t.broadcast[i].id < t.broadcast[j].id {
      assert Ids(t.db.committed)[i] < Ids(t.db.committed)[j];
    }
  }

  /** When serve returns every accepted entry was inserted and broadcast, or counted as dropped. */
  lemma ServeReturnsClean(steps: seq<Step>, t: State)
    requires Run(START, steps, t) && t.front.serve.Returned?
    ensures |t.accepted| == t.stats.inserted + t.stats.dropped
    ensures EntriesOf(t.fates) == t.accepted && t.broadcast == StoredOf(t.fates)
  {
    PlacedIs(t);
    RunKeepsInv(START, steps, t);
    assert t.bat.work.Exited? && Pending(t.bat) == [] && t.pipe.queue == [] && t.bat.stored == [];
    assert t.accepted == EntriesOf(t.fates);
  }

  /** Before the drain deadline an entry is lost only if the database refused that very row. */
  lemma LostOnlyIfRejected(steps: seq<Step>, t: State, f: Fate)
    requires Run(START, steps, t) && f in t.fates && f.Lost? && !t.front.cancelled
    ensures f.rejected
  {
    RunKeepsInv(START, steps, t);
  }

  // ----- what was read is what is queued

  /** What each connection has read last, after one more step. */
  function ReadSo(read: map<nat, string>, step: Step): map<nat, string> {
    if !step.Conn? then read
    else match step.conn
      case Known(e) => read[step.c := e]
      case LookUp(e) => read[step.c := e]
      case _ => read
  }

  function SentNow(read: map<nat, string>, step: Step): seq<string> {
    if step.Conn? && step.conn.Send? && step.c in read then [read[step.c]] else []
  }

  /** What the sends of a run put on the queue: each what its connection read last; `read` is what was read before. */
  function SendsFrom(read: map<nat, string>, steps: seq<Step>): seq<string>
    decreases |steps|
  {
    if steps == [] then [] else SentNow(read, steps[0]) + SendsFrom(ReadSo(read, steps[0]), steps[1..])
  }

  ghost predicate HoldsWhatItRead(conns: map<nat, Handler>, read: map<nat, string>) {
    forall c | c in conns && !conns[c].Reading? :: c in read && conns[c].entry == read[c]
  }

  lemma HandlersHold(s: State, step: Step, read: map<nat, string>)
    requires Inv(s) && Enabled(s, step) && HoldsWhatItRead(s.front.conns, read)
    ensures HoldsWhatItRead(Next(s, step).front.conns, ReadSo(read, step))
    ensures Next(s, step).accepted == s.accepted + SentNow(read, step)
  {
    if step.Conn? { ConnHolds(s, step.c, step.conn, read); }
  }

  lemma ConnHolds(s: State, c: nat, step: ConnStep, read: map<nat, string>)
    requires Inv(s) && CanConn(s, c, step) && HoldsWhatItRead(s.front.conns, read)
    ensures HoldsWhatItRead(ConnNext(s, c, step).front.conns, ReadSo(read, Conn(c, step)))
    ensures ConnNext(s, c, step).accepted == s.accepted + SentNow(read, Conn(c, step))
  {
  }

  lemma {:induction false} RunSends(s: State, steps: seq<Step>, t: State, read: map<nat, string>)
    requires Inv(s) && Run(s, steps, t) && HoldsWhatItRead(s.front.conns, read)
    ensures t.accepted == s.accepted + SendsFrom(read, steps)
    decreases |steps|
  {
    if steps != [] {
      StepKeepsInv(s, steps[0]);
      HandlersHold(s, steps[0], read);
      var next := ReadSo(read, steps[0]);
      RunSends(Next(s, steps[0]), steps[1..], t, next);
      AppendsAssociate(s.accepted, SentNow(read, steps[0]), SendsFrom(next, steps[1..]));
    }
  }

  lemma AppendsAssociate(a: seq<string>, b: seq<string>, c: seq<string>)
    ensures (a + b) + c == a + (b + c)
  {
  }

  /** What is accepted is what the connections read, each send the entry its connection read last. */
  lemma AcceptedIsWhatWasRead(steps: seq<Step>, t: State)
    requires Run(START, steps, t)
    ensures t.accepted == SendsFrom(map[], steps)
  {
    RunSends(START, steps, t, map[]);
  }

  // ----- the counters

  predicate InsertFails(step: Step) { step.Batch? && (step.batch.BatchFails? || step.batch.RowFails?) }

  predicate LookupFailure(step: Step) { step.Conn? && step.conn.LookupFails? }

  /** A record is given up: it does not parse, or its source look-up is. */
  predicate BadStep(s: State, step: Step)
    requires Enabled(s, step)
  {
    step.Conn? && (step.conn.BadRecord? || step.conn.LookupBackoffCut?
                   || (step.conn.LookupFails? && GivesUp(s, step.conn.transient)))
  }

  /** The database refuses a single row for good. */
  predicate Refuses(step: Step) { step.Batch? && step.batch.RowFails? && !step.batch.transient }

  function InsertFailures(steps: seq<Step>): nat {
    if steps == [] then 0 else (if InsertFails(steps[0]) then 1 else 0) + InsertFailures(steps[1..])
  }

  function LookupFailures(steps: seq<Step>): nat {
    if steps == [] then 0 else (if LookupFailure(steps[0]) then 1 else 0) + LookupFailures(steps[1..])
  }

  function BadRecords(s: State, steps: seq<Step>): nat
    decreases |steps|
  {
    if steps == [] || !Enabled(s, steps[0]) then 0
    else (if BadStep(s, steps[0]) then 1 else 0) + BadRecords(Next(s, steps[0]), steps[1..])
  }

  function Refusals(steps: seq<Step>): nat {
    if steps == [] then 0 else (if Refuses(steps[0]) then 1 else 0) + Refusals(steps[1..])
  }

  function Rejected(fates: seq<Fate>): nat {
    if fates == [] then 0
    else
      var last := fates[|fates| - 1];
      Rejected(fates[..|fates| - 1]) + if last.Lost? && last.rejected then 1 else 0
  }

  lemma {:induction false} RejectedConcat(a: seq<Fate>, b: seq<Fate>)
    ensures Rejected(a + b) == Rejected(a) + Rejected(b)
  {
    if b == [] {
      assert a + b == a;
    } else {
      RejectedConcat(a, b[..|b| - 1]);
      assert (a + b)[..|a + b| - 1] == a + b[..|b| - 1];
    }
  }

  lemma {:induction false} NoneRejected(fates: seq<Fate>)
    requires forall f | f in fates :: f.Stored? || !f.rejected
    ensures Rejected(fates) == 0
  {
    if fates == [] {
    } else {
      NoneRejected(fates[..|fates| - 1]);
    }
  }

  lemma MoreFates(fates: seq<Fate>, more: seq<Fate>)
    requires forall f | f in more :: f.Stored? || !f.rejected
    ensures Rejected(fates + more) == Rejected(fates)
  {
    RejectedConcat(fates, more);
    NoneRejected(more);
  }

  lemma LostOne(s: State, rejected: bool)
    requires s.bat.work.InsertingRow? && s.bat.work.i < |s.bat.batch|
    ensures Rejected(DropRow(s, rejected).fates) == Rejected(s.fates) + if rejected then 1 else 0
  {
    var f := Lost(s.bat.batch[s.bat.work.i], rejected);
    assert (s.fates + [f])[..|s.fates|] == s.fates;
  }

  /** One step rejects an entry exactly when the database refuses a row for good. */
  lemma StepRejects(s: State, step: Step)
    requires Enabled(s, step)
    ensures Rejected(Next(s, step).fates) == Rejected(s.fates) + if Refuses(step) then 1 else 0
  {
    if step.Batch? {
      match step.batch
      case BatchCommits(draw) => MoreFates(s.fates, AllStored(Rows(IdsOf(draw), s.bat.batch)));
      case AfterBatch => if s.front.cancelled { MoreFates(s.fates, AllLost(s.bat.batch)); }
      case RowCommits(id) => MoreFates(s.fates, [Stored(Row(id, s.bat.batch[s.bat.work.i]))]);
      case RowFails(transient, n) => if GivesUp(s, transient) { LostOne(InsertFailed(s, true, n), !transient); }
      case BackoffCut => if s.bat.work.InsertingRow? { LostOne(s, false); }
      case _ =>
    }
  }

  ghost predicate Counts(s: State, step: Step, t: State)
    requires Enabled(s, step)
  {
    && t.stats.failed == s.stats.failed + (if InsertFails(step) || LookupFailure(step) then 1 else 0)
    && t.stats.badRecords == s.stats.badRecords + (if BadStep(s, step) then 1 else 0)
  }

  lemma ConnCounts(s: State, c: nat, step: ConnStep)
    requires CanConn(s, c, step)
    ensures Counts(s, Conn(c, step), ConnNext(s, c, step))
  {
  }

  lemma BatchCounts(s: State, step: BatchStep)
    requires CanBatch(s, step)
    ensures Counts(s, Batch(step), BatchNext(s, step))
  {
  }

  lemma StepCounts(s: State, step: Step)
    requires Enabled(s, step)
    ensures Counts(s, step, Next(s, step))
  {
    match step
    case Conn(c, conn) => ConnCounts(s, c, conn);
    case Main(_) =>
    case Batch(batch) => BatchCounts(s, batch);
  }

  lemma {:induction false} RunCounts(s: State, steps: seq<Step>, t: State)
    requires Run(s, steps, t)
    ensures t.stats.failed == s.stats.failed + InsertFailures(steps) + LookupFailures(steps)
    ensures t.stats.badRecords == s.stats.badRecords + BadRecords(s, steps)
    ensures Rejected(t.fates) == Rejected(s.fates) + Refusals(steps)
    decreases |steps|
  {
    if steps == [] {
    } else {
      StepRejects(s, steps[0]);
      StepCounts(s, steps[0]);
      RunCounts(Next(s, steps[0]), steps[1..], t);
    }
  }

  lemma {:induction false} LostAreRejected(fates: seq<Fate>)
    requires !Abandoned(fates)
    ensures Rejected(fates) + |StoredOf(fates)| == |fates|
  {
    if fates == [] {
    } else {
      var init, last := fates[..|fates| - 1], fates[|fates| - 1];
      assert forall f | f in init :: f in fates;
      assert last in fates;
      LostAreRejected(init);
    }
  }

  /**
   The counters over every run: `failed` counts failed inserts and failed source look-ups alike,
   `badRecords` the records given up; the entries lost as rejected are the rows the database
   refused, and until the deadline those are all that is dropped.
   */
  lemma CountersMatchRun(steps: seq<Step>, t: State)
    requires Run(START, steps, t)
    ensures t.stats.failed == InsertFailures(steps) + LookupFailures(steps)
    ensures t.stats.badRecords == BadRecords(START, steps)
    ensures Rejected(t.fates) == Refusals(steps) <= t.stats.dropped
    ensures !t.front.cancelled ==> t.stats.dropped == Refusals(steps)
  {
    RunCounts(START, steps, t);
    RunKeepsInv(START, steps, t);
    RejectedAreLost(t.fates);
    if !t.front.cancelled { LostAreRejected(t.fates); }
  }

  lemma {:induction false} RejectedAreLost(fates: seq<Fate>)
    ensures Rejected(fates) + |StoredOf(fates)| <= |fates|
  {
    if fates == [] {
    } else {
      RejectedAreLost(fates[..|fates| - 1]);
    }
  }

  /** `failed` is the number of failed insert attempts, as Stats says, if and only if no source look-up failed. */
  lemma FailedCountsInsertsIff(steps: seq<Step>, t: State)
    requires Run(START, steps, t)
    ensures t.stats.failed == InsertFailures(steps) <==> forall step | step in steps :: !LookupFailure(step)
  {
    CountersMatchRun(steps, t);
    NoLookupFailures(steps);
  }

  lemma {:induction false} NoLookupFailures(steps: seq<Step>)
    ensures LookupFailures(steps) == 0 <==> forall step | step in steps :: !LookupFailure(step)
  {
    if steps == [] {
    } else {
      NoLookupFailures(steps[1..]);
      assert forall step :: step in steps <==> step == steps[0] || step in steps[1..];
    }
  }

  // ----- runs, one step at a time

  lemma {:induction false} RunThen(s: State, steps: seq<Step>, t: State, step: Step)
    requires Run(s, steps, t) && Enabled(t, step)
    ensures Run(s, steps + [step], Next(t, step))
    decreases |steps|
  {
    if steps == [] {
      assert (steps + [step])[1..] == [];
    } else {
      RunThen(Next(s, steps[0]), steps[1..], t, step);
      assert (steps + [step])[1..] == steps[1..] + [step];
    }
  }

  lemma Then(steps: seq<Step>, s: State, step: Step) returns (more: seq<Step>, t: State)
    requires Run(START, steps, s) && Enabled(s, step)
    ensures more == steps + [step] && t == Next(s, step) && Run(START, more, t)
  {
    more, t := steps + [step], Next(s, step);
    RunThen(START, steps, s, step);
  }

  lemma {:induction false} NoInsertFailures(steps: seq<Step>)
    requires forall step | step in steps :: !InsertFails(step)
    ensures InsertFailures(steps) == 0
  {
    if steps == [] {
    } else {
      NoInsertFailures(steps[1..]);
    }
  }

  /** One look-up fails and the next try succeeds: one failure is counted, and no insert has failed. */
  lemma LookupCountsAsFailed() returns (steps: seq<Step>, t: State)
    ensures Run(START, steps, t) && InsertFailures(steps) == 0 && t.stats.failed == 1
  {
    steps, t := FailedLookup([], START, 0);
    steps, t := Then(steps, t, Conn(0, LookupBackoffOver));
    steps, t := Then(steps, t, Conn(0, LookupOk));
    assert forall step | step in steps :: step.Conn?;
    NoInsertFailures(steps);
  }

  /** A new connection whose first record needs a look-up, which fails once. */
  lemma FailedLookup(steps: seq<Step>, s: State, c: nat) returns (more: seq<Step>, t: State)
    requires Run(START, steps, s) && s.front.accepting && c !in s.front.conns && !s.front.cancelled
    ensures more == steps + [Conn(c, Accept), Conn(c, LookUp("")), Conn(c, LookupFails(true))] && Run(START, more, t)
    ensures t == WithConn(s, c, LookingUp("", Waiting)).(stats := FailedTry(s.stats, false))
  {
    more, t := Then(steps, s, Conn(c, Accept));
    more, t := Then(more, t, Conn(c, LookUp("")));
    more, t := Then(more, t, Conn(c, LookupFails(true)));
    assert t.front.conns == s.front.conns[c := LookingUp("", Waiting)];
  }

  // ----- the retrying flag, written by every call of retry

  /** The batcher is in the middle of retrying an insert. */
  predicate BatcherRetries(b: Batcher) {
    (b.work.InsertingBatch? || b.work.InsertingRow?) && !b.work.attempt.First?
  }

  /** The flag says what Stats promises: the batcher is waiting out a database error. */
  predicate FlagIsTrue(s: State) { s.stats.retrying <==> BatcherRetries(s.bat) }

  /**
   The steps that falsify the flag: a handler's look-up recovers, or gives up, while the batcher
   retries; one fails while it does not; or the deadline cuts the batcher's own backoff.
   */
  predicate Falsifies(s: State, step: Step)
    requires Enabled(s, step)
  {
    match step
    case Conn(c, LookupOk) => s.front.conns[c].attempt.Again? && BatcherRetries(s.bat)
    case Conn(_, LookupFails(transient)) => GivesUp(s, transient) == BatcherRetries(s.bat)
    case Batch(BackoffCut) => true
    case _ => false
  }

  lemma BatchKeepsFlag(s: State, step: BatchStep)
    requires Ordered(s) && FlagIsTrue(s) && CanBatch(s, step)
    ensures FlagIsTrue(BatchNext(s, step)) <==> !step.BackoffCut?
  {
  }

  lemma ConnKeepsFlag(s: State, c: nat, step: ConnStep)
    requires FlagIsTrue(s) && CanConn(s, c, step)
    ensures FlagIsTrue(ConnNext(s, c, step)) <==> !Falsifies(s, Conn(c, step))
  {
  }

  /** A step leaves the flag true if and only if it is none of those. */
  lemma FlagStaysTrueIff(s: State, step: Step)
    requires Ordered(s) && FlagIsTrue(s) && Enabled(s, step)
    ensures FlagIsTrue(Next(s, step)) <==> !Falsifies(s, step)
  {
    match step
    case Conn(c, conn) => ConnKeepsFlag(s, c, conn);
    case Main(_) =>
    case Batch(batch) => BatchKeepsFlag(s, batch);
  }

  ghost predicate NeverFalsified(s: State, steps: seq<Step>)
    decreases |steps|
  {
    steps == [] || (Enabled(s, steps[0]) && !Falsifies(s, steps[0]) && NeverFalsified(Next(s, steps[0]), steps[1..]))
  }

  lemma {:induction false} RunKeepsFlag(s: State, steps: seq<Step>, t: State)
    requires Inv(s) && FlagIsTrue(s) && Run(s, steps, t) && NeverFalsified(s, steps)
    ensures FlagIsTrue(t)
    decreases |steps|
  {
    if steps == [] {
    } else {
      StepKeepsInv(s, steps[0]);
      FlagStaysTrueIff(s, steps[0]);
      RunKeepsFlag(Next(s, steps[0]), steps[1..], t);
    }
  }

  /** As long as no step falsifies it, the flag says exactly whether the batcher is retrying. */
  lemma FlagIsTrueOverRuns(steps: seq<Step>, t: State)
    requires Run(START, steps, t) && NeverFalsified(START, steps)
    ensures FlagIsTrue(t)
  {
    RunKeepsFlag(START, steps, t);
  }

  /** The steps after which the flag's truth no longer depends on what it was: retry outcomes that write it, and the cut. */
  predicate Judges(s: State, step: Step)
    requires Enabled(s, step)
  {
    match step
    case Conn(c, LookupOk) => s.front.conns[c].attempt.Again?
    case Conn(_, LookupFails(_)) => true
    case Batch(BatchFails(_, _)) => true
    case Batch(RowFails(_, _)) => true
    case Batch(BatchCommits(_)) => s.bat.work.attempt.Again?
    case Batch(RowCommits(_)) => s.bat.work.attempt.Again?
    case Batch(BackoffCut) => true
    case _ => false
  }

  /** Among those, the ones that leave it wrong: a look-up outcome at odds with the batcher, a cut with the flag raised. */
  predicate Misjudges(s: State, step: Step)
    requires Enabled(s, step)
  {
    match step
    case Conn(c, LookupOk) => s.front.conns[c].attempt.Again? && BatcherRetries(s.bat)
    case Conn(_, LookupFails(transient)) => GivesUp(s, transient) == BatcherRetries(s.bat)
    case Batch(BackoffCut) => s.stats.retrying
    case _ => false
  }

  lemma ConnJudged(s: State, c: nat, step: ConnStep)
    requires CanConn(s, c, step)
    ensures FlagIsTrue(ConnNext(s, c, step)) <==>
            if Judges(s, Conn(c, step)) then !Misjudges(s, Conn(c, step)) else FlagIsTrue(s)
  {
  }

  lemma BatchJudged(s: State, step: BatchStep)
    requires Ordered(s) && CanBatch(s, step)
    ensures FlagIsTrue(BatchNext(s, step)) <==>
            if Judges(s, Batch(step)) then !Misjudges(s, Batch(step)) else FlagIsTrue(s)
  {
  }

  lemma StepJudged(s: State, step: Step)
    requires Ordered(s) && Enabled(s, step)
    ensures FlagIsTrue(Next(s, step)) <==> if Judges(s, step) then !Misjudges(s, step) else FlagIsTrue(s)
  {
    match step
    case Conn(c, conn) => ConnJudged(s, c, conn);
    case Main(_) =>
    case Batch(batch) => BatchJudged(s, batch);
  }

  /** No step of the run from s judges. */
  ghost predicate NoneJudges(s: State, steps: seq<Step>)
    decreases |steps|
  {
    steps == [] || (Enabled(s, steps[0]) && !Judges(s, steps[0]) && NoneJudges(Next(s, steps[0]), steps[1..]))
  }

  /** The last judging step of the run from s misjudged. */
  ghost predicate LastMisjudged(s: State, steps: seq<Step>)
    decreases |steps|
  {
    steps != [] && Enabled(s, steps[0])
    && (LastMisjudged(Next(s, steps[0]), steps[1..])
        || (Misjudges(s, steps[0]) && NoneJudges(Next(s, steps[0]), steps[1..])))
  }

  lemma {:induction false} RunJudged(s: State, steps: seq<Step>, t: State)
    requires Inv(s) && Run(s, steps, t)
    ensures !FlagIsTrue(t) <==> LastMisjudged(s, steps) || (!FlagIsTrue(s) && NoneJudges(s, steps))
    ensures LastMisjudged(s, steps) ==> !NoneJudges(s, steps)
    decreases |steps|
  {
    if steps == [] {
    } else {
      StepKeepsInv(s, steps[0]);
      StepJudged(s, steps[0]);
      RunJudged(Next(s, steps[0]), steps[1..], t);
    }
  }

  /** At the end of a run the flag is wrong if and only if the last step that judged it misjudged. */
  lemma FlagWrongIff(steps: seq<Step>, t: State)
    requires Run(START, steps, t)
    ensures !FlagIsTrue(t) <==> LastMisjudged(START, steps)
  {
    RunJudged(START, steps, t);
  }

  /** One connection has sent one entry. */
  lemma OneQueued() returns (steps: seq<Step>, t: State)
    ensures Run(START, steps, t) && t.pipe == Pipe([""], false, false) && t.bat == START.bat && t.db == START.db
    ensures t.front == Front(map[0 := Reading], true, Serving, false) && t.stats == START.stats
  {
    assert Run(START, [], START);
    steps, t := Then([], START, Conn(0, Accept));
    steps, t := Then(steps, t, Conn(0, Known("")));
    steps, t := Then(steps, t, Conn(0, Send));
    assert t.front.conns == map[0 := Reading];
  }

  /** A batch of one is refused for now, and waits. */
  lemma WaitingBatch() returns (steps: seq<Step>, t: State)
    ensures Run(START, steps, t) && WaitingToRetry(t.bat) && t.stats.retrying
    ensures t.front.accepting && !t.front.cancelled && 1 !in t.front.conns
  {
    steps, t := OneQueued();
    steps, t := Then(steps, t, Batch(Take));
    steps, t := Then(steps, t, Batch(Tick));
    steps, t := Then(steps, t, Batch(BatchFails(true, 1)));
  }

  /** A handler's recovery clears the flag while the batcher still waits out its own error. */
  lemma RecoveryHidesRetrying() returns (steps: seq<Step>, t: State)
    ensures Run(START, steps, t) && WaitingToRetry(t.bat) && !t.stats.retrying
  {
    steps, t := WaitingBatch();
    steps, t := FailedLookup(steps, t, 1);
    steps, t := Then(steps, t, Conn(1, LookupBackoffOver));
    steps, t := Then(steps, t, Conn(1, LookupOk));
  }

  // ----- progress

  /** Steps left until the batcher is back at the queue, if nothing fails. */
  function Distance(b: Batcher): nat {
    match b.work
    case Collecting => 0
    case Publishing => 1
    case InsertingBatch(a) => 2 + if a.Waiting? then 1 else 0
    case InsertingRow(i, a) => 2 + 2 * (if i <= |b.batch| then |b.batch| - i else 0) + if a.Waiting? then 1 else 0
    case GaveUpOnBatch => 2 * |b.batch| + 5
    case Exited => 0
  }

  /** A batcher that is not at the queue can take a step that brings it closer. */
  lemma CloserToQueue(s: State) returns (step: BatchStep)
    requires Ordered(s) && !s.bat.work.Collecting? && !s.bat.work.Exited?
    ensures CanBatch(s, step)
    ensures var t := BatchNext(s, step);
            && Distance(t.bat) < Distance(s.bat) && t.front == s.front && t.pipe == s.pipe
            && (!s.front.cancelled ==> t.stats.dropped == s.stats.dropped) && t.accepted == s.accepted
            && (t.bat.work.Collecting? ==> t.bat.batch == [])
  {
    var b, n := s.bat, s.db.nextId;
    match b.work
    case Publishing => step := Publish;
    case GaveUpOnBatch => step := AfterBatch;
    case InsertingBatch(a) =>
      step := if a.Waiting? then BackoffOver else BatchCommits(seq(|b.batch|, i => n + i));
    case InsertingRow(i, a) =>
      step := if a.Waiting? then BackoffOver else if i < |b.batch| then RowCommits(n) else RowsDone;
  }

  ghost predicate AllBatch(steps: seq<Step>) { forall step | step in steps :: step.Batch? }

  /** The batcher on its own can get from anywhere to taking an entry from the queue. */
  lemma {:induction false} MakesRoom(s: State) returns (steps: seq<Step>, t: State)
    requires Inv(s) && !s.pipe.closed
    ensures AllBatch(steps) && Run(s, steps, t) && t.front == s.front && !t.pipe.closed && |t.pipe.queue| < QUEUE_DEPTH
    decreases Distance(s.bat)
  {
    if |s.pipe.queue| < QUEUE_DEPTH {
      steps, t := [], s;
    } else if s.bat.work.Collecting? {
      steps, t := [Batch(Take)], Next(s, Batch(Take));
      assert Run(t, steps[1..], t);
    } else {
      var step := CloserToQueue(s);
      StepKeepsInv(s, Batch(step));
      var rest;
      rest, t := MakesRoom(BatchNext(s, step));
      steps := [Batch(step)] + rest;
      assert steps[1..] == rest;
    }
  }

  /** A handler holding an entry is never stuck: steps of the batcher alone lead to where it can send. */
  lemma SenderNeverStuck(before: seq<Step>, s: State, c: nat) returns (steps: seq<Step>, t: State)
    requires Run(START, before, s) && c in s.front.conns && s.front.conns[c].Sending?
    ensures AllBatch(steps) && Run(s, steps, t)
    ensures Enabled(t, Conn(c, Send)) && t.front == s.front && !t.pipe.closed
  {
    RunKeepsInv(START, before, s);
    assert s.front.conns != map[];
    steps, t := MakesRoom(s);
  }

  /** What is left to do: first the queue, then the batch in hand, then the work under way. */
  function LeftToDo(b: Batcher): nat {
    if !b.work.Collecting? then Distance(b) else if b.batch == [] then 0 else 3
  }

  /** A batcher that has not inserted everything can take a step that leaves less to do and loses nothing. */
  lemma CloserToDone(s: State) returns (step: BatchStep)
    requires Inv(s) && !s.front.cancelled && !s.bat.work.Exited?
    requires s.pipe.queue != [] || s.bat.batch != [] || !s.bat.work.Collecting?
    ensures CanBatch(s, step)
    ensures var t := BatchNext(s, step);
            && t.front == s.front && t.stats.dropped == s.stats.dropped && t.accepted == s.accepted
            && (|t.pipe.queue| < |s.pipe.queue| || (t.pipe == s.pipe && LeftToDo(t.bat) < LeftToDo(s.bat)))
  {
    if !s.bat.work.Collecting? {
      step := CloserToQueue(s);
    } else if s.pipe.queue != [] {
      step := Take;
    } else {
      step := Tick;
    }
  }

  /** The batcher on its own can insert everything there is. */
  lemma {:induction false} Drains(s: State) returns (steps: seq<Step>, t: State)
    requires Inv(s) && !s.front.cancelled
    ensures AllBatch(steps) && Run(s, steps, t) && Inv(t) && t.front == s.front && t.accepted == s.accepted
    ensures t.pipe.queue == [] && t.bat.batch == [] && (t.bat.work.Collecting? || t.bat.work.Exited?)
    ensures t.stats.dropped == s.stats.dropped
    decreases |s.pipe.queue|, LeftToDo(s.bat)
  {
    if s.bat.work.Exited? || (s.pipe.queue == [] && s.bat.batch == [] && s.bat.work.Collecting?) {
      steps, t := [], s;
    } else {
      var step := CloserToDone(s);
      StepKeepsInv(s, Batch(step));
      var rest;
      rest, t := Drains(BatchNext(s, step));
      steps := [Batch(step)] + rest;
      assert steps[1..] == rest;
    }
  }

  lemma IdleHasEverything(t: State)
    requires Inv(t) && t.pipe.queue == [] && t.bat.batch == [] && (t.bat.work.Collecting? || t.bat.work.Exited?)
    ensures t.broadcast == StoredOf(t.fates) && EntriesOf(t.fates) == t.accepted
    ensures t.stats.inserted == |t.accepted| - t.stats.dropped
  {
    PlacedIs(t);
    assert Pending(t.bat) == [] && t.bat.stored == [];
    assert EntriesOf(t.fates) + [] + [] == EntriesOf(t.fates);
  }

  /**
   Before the deadline nothing waits forever: from wherever the pipeline stands, steps of the batcher
   alone, none of which loses an entry, lead to where every accepted entry that was not dropped before
   has been inserted and broadcast, a part-full batch included.
   */
  lemma EverythingQueuedIsInserted(before: seq<Step>, s: State) returns (steps: seq<Step>, t: State)
    requires Run(START, before, s) && !s.front.cancelled
    ensures AllBatch(steps) && Run(s, steps, t) && t.front == s.front && t.accepted == s.accepted
    ensures t.pipe.queue == [] && t.bat.batch == [] && t.broadcast == StoredOf(t.fates) && EntriesOf(t.fates) == s.accepted
    ensures t.stats.dropped == s.stats.dropped && t.stats.inserted == |s.accepted| - s.stats.dropped
  {
    RunKeepsInv(START, before, s);
    steps, t := Drains(s);
    IdleHasEverything(t);
  }
}
