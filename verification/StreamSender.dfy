/**
 The TCP/TLS sender: reconnecting, resending and backing off around octet-counted frames
 (apps/syslog-hose/internal/engine/sender.go). Every connection ever opened keeps the bytes
 that reached it, so that a run can be judged by what each receiver decodes.
 */
module StreamSender {
  import opened Common
  import opened Framing

  const MILLISECOND := 1_000_000
  const BACKOFF_BASE := 250 * MILLISECOND
  const BACKOFF_MAX := 5000 * MILLISECOND

  /** A write either takes the whole frame or fails after a strict prefix of it. */
  datatype Write = Wrote | Broke(bytes: nat)

  /** What the network and the clock do during one Send. */
  datatype Env = Env(
    peerClosed: bool,
    hangupAt: int, hangupJitter: int,   // the backoff after a hang-up
    checkedAt: int,                     // the backoff check
    dial: bool,
    write: Write,
    stopped: bool,                      // the context ended during the first write
    redial: bool,
    rewrite: Write,
    failedAt: int, failedJitter: int)   // the backoff after the last failure

  datatype Sender = Sender(conn: Option<nat>, written: bool, failures: nat, nextRetry: int, wires: seq<string>)

  const IDLE := Sender(None, false, 0, 0, [])

  /** base * 2^failures, capped. */
  function Delay(failures: nat): int {
    if failures == 0 then BACKOFF_BASE
    else
      var d := 2 * Delay(failures - 1);
      if d > BACKOFF_MAX then BACKOFF_MAX else d
  }

  function BackedOff(s: Sender, now: int, jitter: int): Sender {
    s.(failures := s.failures + 1, nextRetry := now + Delay(s.failures) / 2 + jitter)
  }

  function Dropped(s: Sender): Sender { s.(conn := None) }

  function Connected(s: Sender): Sender {
    s.(conn := Some(|s.wires|), written := false, wires := s.wires + [""])
  }

  function Arrived(frame: string, w: Write): string {
    match w case Wrote => frame case Broke(n) => if n < |frame| then frame[..n] else []
  }

  function Written(s: Sender, frame: string, w: Write): Sender
    requires s.conn.Some? && s.conn.value < |s.wires|
  {
    var c := s.conn.value;
    s.(wires := s.wires[c := s.wires[c] + Arrived(frame, w)])
  }

  function Delivered(s: Sender): Sender { s.(failures := 0, written := true) }

  ghost predicate Connectable(s: Sender) { s.conn.Some? ==> s.conn.value < |s.wires| }

  /** The state after the hang-up check. */
  function Checked(s: Sender, e: Env): Sender {
    if s.conn.Some? && e.peerClosed then
      (if s.written then Dropped(s) else BackedOff(Dropped(s), e.hangupAt, e.hangupJitter))
    else s
  }

  /** Send once connected: write, else reconnect and resend once. */
  function Transmitted(s: Sender, frame: string, e: Env): (Sender, bool)
    requires s.conn.Some? && s.conn.value < |s.wires|
  {
    var first := Written(s, frame, e.write);
    if e.write.Wrote? then (Delivered(first), true)
    else
      var dropped := Dropped(first);
      if e.stopped then (dropped, false)
      else if !e.redial then (BackedOff(dropped, e.failedAt, e.failedJitter), false)
      else
        var second := Written(Connected(dropped), frame, e.rewrite);
        if e.rewrite.Wrote? then (Delivered(second), true)
        else (BackedOff(Dropped(second), e.failedAt, e.failedJitter), false)
  }

  /** Send: the new state, and whether it returned nil. */
  function Sent(s: Sender, msg: string, e: Env): (Sender, bool)
    requires Connectable(s)
  {
    var t := Checked(s, e);
    if t.conn.Some? then Transmitted(t, Frame(msg), e)
    else if e.checkedAt < t.nextRetry then (t, false)
    else if !e.dial then (BackedOff(t, e.failedAt, e.failedJitter), false)
    else Transmitted(Connected(t), Frame(msg), e)
  }

  // ----- the sender on its own fields

  class Stream {
    var conn: Option<nat>
    var written: bool
    var failures: nat
    var nextRetry: int
    var wires: seq<string>

    function View(): Sender
      reads this
    {
      Sender(conn, written, failures, nextRetry, wires)
    }

    constructor ()
      ensures View() == IDLE
    {
      conn, written, failures, nextRetry, wires := None, false, 0, 0, [];
    }

    method Backoff(now: int, jitter: int)
      modifies this`failures, this`nextRetry
      ensures View() == BackedOff(old(View()), now, jitter)
    {
      ShiftIsDelay(failures);
      var d := Shifted(BACKOFF_BASE, if failures < 8 then failures else 8);
      if d > BACKOFF_MAX {
        d := BACKOFF_MAX;
      }
      failures := failures + 1;
      nextRetry := now + d / 2 + jitter;
    }

    method Connect()
      modifies this
      ensures View() == Connected(old(View()))
    {
      conn := Some(|wires|);
      wires := wires + [""];
      written := false;
    }

    method WriteFrame(frame: string, w: Write) returns (ok: bool)
      requires conn.Some? && conn.value < |wires|
      modifies this`wires
      ensures View() == Written(old(View()), frame, w) && ok == w.Wrote?
    {
      var c := conn.value;
      wires := wires[c := wires[c] + Arrived(frame, w)];
      ok := w.Wrote?;
    }

    method Transmit(frame: string, e: Env) returns (ok: bool)
      requires conn.Some? && conn.value < |wires|
      modifies this
      ensures (View(), ok) == Transmitted(old(View()), frame, e)
    {
      ok := WriteFrame(frame, e.write);
      if ok {
        failures, written := 0, true;
        return true;
      }
      conn := None;
      if e.stopped {
        return false;
      }
      if !e.redial {
        Backoff(e.failedAt, e.failedJitter);
        return false;
      }
      Connect();
      ok := WriteFrame(frame, e.rewrite);
      if !ok {
        conn := None;
        Backoff(e.failedAt, e.failedJitter);
        return false;
      }
      failures, written := 0, true;
    }

    method Send(msg: string, e: Env) returns (ok: bool)
      requires Connectable(View())
      modifies this
      ensures (View(), ok) == Sent(old(View()), msg, e)
    {
      var frame := Frame(msg);
      if conn.Some? && e.peerClosed {
        conn := None;
        if !written {
          Backoff(e.hangupAt, e.hangupJitter);
        }
      }
      if conn.None? {
        if e.checkedAt < nextRetry {
          return false;
        }
        if !e.dial {
          Backoff(e.failedAt, e.failedJitter);
          return false;
        }
        Connect();
      }
      ok := Transmit(frame, e);
    }
  }

  // ----- backoff

  /** `d << n`. */
  function Shifted(d: int, n: nat): int { if n == 0 then d else 2 * Shifted(d, n - 1) }

  lemma ShiftPlusTwo(d: int, n: nat)
    ensures Shifted(d, n + 1) == 2 * Shifted(d, n) && Shifted(d, n + 2) == 4 * Shifted(d, n)
  {
  }

  /** The shift capped at 8 and then at the maximum is the capped doubling. */
  lemma {:induction false} ShiftIsDelay(failures: nat)
    ensures var d := Shifted(BACKOFF_BASE, if failures < 8 then failures else 8);
            Delay(failures) == if d > BACKOFF_MAX then BACKOFF_MAX else d
    ensures BACKOFF_BASE <= Delay(failures) <= BACKOFF_MAX
    ensures failures >= 5 ==> Delay(failures) == BACKOFF_MAX
  {
    ShiftPlusTwo(BACKOFF_BASE, 0);
    ShiftPlusTwo(BACKOFF_BASE, 2);
    ShiftPlusTwo(BACKOFF_BASE, 4);
    ShiftPlusTwo(BACKOFF_BASE, 6);
    if failures > 0 { ShiftIsDelay(failures - 1); }
  }

  ghost predicate JitterOk(failures: nat, jitter: int) { 0 <= jitter <= Delay(failures) / 2 }

  /** A backoff lasts between half the capped delay and all of it: 125 ms to 5 s. */
  lemma BackoffBounded(s: Sender, now: int, jitter: int)
    requires JitterOk(s.failures, jitter)
    ensures var until := BackedOff(s, now, jitter).nextRetry;
            now + BACKOFF_BASE / 2 <= until <= now + BACKOFF_MAX
  {
    ShiftIsDelay(s.failures);
  }

  /** While it backs off, Send fails at once: nothing is dialled and nothing changes. */
  lemma FailsFast(s: Sender, msg: string, e: Env)
    requires s.conn.None? && e.checkedAt < s.nextRetry
    ensures Sent(s, msg, e) == (s, false)
  {
  }

  /** The delays in milliseconds: 250 doubling up to the cap of 5000, reached with the fifth failure. */
  lemma DelaysAre(failures: nat)
    ensures Delay(failures) == MILLISECOND * (if failures < 5 then [250, 500, 1000, 2000, 4000][failures] else 5000)
  {
    ShiftIsDelay(failures);
    assert Delay(1) == 500 * MILLISECOND && Delay(2) == 1000 * MILLISECOND;
    assert Delay(3) == 2000 * MILLISECOND && Delay(4) == 4000 * MILLISECOND;
  }

  /** The connection is there and the peer has not hung up. */
  predicate StaysOpen(s: Sender, e: Env) { s.conn.Some? && !e.peerClosed }

  /** Until when dialling is off: a peer that hangs up before anything was written earns a backoff of its own. */
  function DialFrom(s: Sender, e: Env): int {
    if s.conn.Some? && e.peerClosed && !s.written then e.hangupAt + Delay(s.failures) / 2 + e.hangupJitter else s.nextRetry
  }

  /**
   Send returns nil exactly when there is a connection, or one may be dialled and is, and the frame
   goes out on it or, unless stopped, on the one connection dialled in its place. Then the count of
   failures starts over, and a connection that took the frame is kept.
   */
  lemma SendOkIff(s: Sender, msg: string, e: Env)
    requires Connectable(s)
    ensures var (t, ok) := Sent(s, msg, e);
            && (ok <==>
                && (StaysOpen(s, e) || (e.checkedAt >= DialFrom(s, e) && e.dial))
                && (e.write.Wrote? || (!e.stopped && e.redial && e.rewrite.Wrote?)))
            && (ok ==> t.failures == 0 && t.written && t.conn.Some?)
            && (ok && StaysOpen(s, e) && e.write.Wrote? ==>
                t.conn == s.conn && t.wires == s.wires[s.conn.value := s.wires[s.conn.value] + Frame(msg)])
            && (ok && !(StaysOpen(s, e) && e.write.Wrote?) ==>
                t.conn == Some(|t.wires| - 1) && |t.wires| > |s.wires| && t.wires[|t.wires| - 1] == Frame(msg))
  {
  }

  /** This Send gets past the backoff check. */
  predicate Attempts(s: Sender, e: Env) { Checked(s, e).conn.Some? || e.checkedAt >= Checked(s, e).nextRetry }

  /**
   A Send that tried and failed, other than by being stopped, leaves no connection and a backoff
   of at least half the delay its failures have grown to, one step further than before.
   */
  lemma FailureBacksOff(s: Sender, msg: string, e: Env)
    requires Connectable(s) && Attempts(s, e) && !Sent(s, msg, e).1 && !e.stopped
    requires e.failedJitter >= 0
    ensures var t := Sent(s, msg, e).0;
            && t.conn.None? && t.failures >= s.failures + 1
            && t.nextRetry >= e.failedAt + Delay(t.failures - 1) / 2
  {
  }

  lemma DelayGrows(a: nat, b: nat)
    requires a <= b
    ensures Delay(a) <= Delay(b)
  {
    if a < b {
      DelayGrows(a, b - 1);
      ShiftIsDelay(b - 1);
    }
  }

  datatype Call = Call(msg: string, env: Env)

  /** Every call tries and fails, and none is stopped. */
  ghost predicate AllFail(s: Sender, calls: seq<Call>)
    requires Connectable(s)
    decreases |calls|
  {
    calls == [] ||
    var e := calls[0].env;
    && Attempts(s, e) && !Sent(s, calls[0].msg, e).1 && !e.stopped && e.failedJitter >= 0
    && Connectable(Sent(s, calls[0].msg, e).0) && AllFail(Sent(s, calls[0].msg, e).0, calls[1..])
  }

  function SenderAfter(s: Sender, calls: seq<Call>): Sender
    requires Connectable(s) && AllFail(s, calls)
    decreases |calls|
  {
    if calls == [] then s else SenderAfter(Sent(s, calls[0].msg, calls[0].env).0, calls[1..])
  }

  lemma {:induction false} FailuresInARowFrom(s: Sender, calls: seq<Call>)
    requires Connectable(s) && calls != [] && AllFail(s, calls)
    ensures var t := SenderAfter(s, calls);
            && t.conn.None? && t.failures >= s.failures + |calls|
            && t.nextRetry >= calls[|calls| - 1].env.failedAt + Delay(t.failures - 1) / 2
    decreases |calls|
  {
    var next := Sent(s, calls[0].msg, calls[0].env).0;
    FailureBacksOff(s, calls[0].msg, calls[0].env);
    if |calls| > 1 { FailuresInARowFrom(next, calls[1..]); }
  }

  /** However a receiver fails, each further failure in a row waits for twice as long, up to the cap. */
  lemma FailuresInARowBackOff(s: Sender, calls: seq<Call>)
    requires Connectable(s) && calls != [] && AllFail(s, calls)
    ensures var t := SenderAfter(s, calls);
            && t.conn.None? && t.nextRetry >= calls[|calls| - 1].env.failedAt + Delay(|calls| - 1) / 2
  {
    FailuresInARowFrom(s, calls);
    DelayGrows(|calls| - 1, SenderAfter(s, calls).failures - 1);
  }

  // ----- runs of Send

  datatype Ack = Ack(msg: string, conn: nat)

  /** Sends that returned nil, each with the one connection it used. */
  function Acked(s: Sender, acks: seq<Ack>, msg: string, e: Env): seq<Ack>
    requires Connectable(s)
  {
    var (t, ok) := Sent(s, msg, e);
    if ok && t.conn.Some? then acks + [Ack(msg, t.conn.value)] else acks
  }

  function MessagesOn(acks: seq<Ack>, c: nat): seq<string> {
    if acks == [] then []
    else
      var last := acks[|acks| - 1];
      MessagesOn(acks[..|acks| - 1], c) + if last.conn == c then [last.msg] else []
  }

  /** The wire holds whole frames of these messages, and possibly one cut-off frame. */
  ghost predicate Carries(wire: string, msgs: seq<string>) {
    Frames(msgs) <= wire && Cut(wire[|Frames(msgs)|..])
  }

  ghost predicate Cut(tail: string) { tail == [] || exists msg :: StrictPrefix(tail, Frame(msg)) }

  ghost predicate Inv(s: Sender, acks: seq<Ack>) {
    && (forall c | 0 <= c < |s.wires| :: Carries(s.wires[c], MessagesOn(acks, c)))
    && (forall a | a in acks :: a.conn < |s.wires|)
    && (s.conn.Some? ==> s.conn.value < |s.wires| && s.wires[s.conn.value] == Frames(MessagesOn(acks, s.conn.value)))
    && (s.conn.Some? ==> (s.written <==> MessagesOn(acks, s.conn.value) != []))
  }

  lemma CarriesClean(msgs: seq<string>)
    ensures Carries(Frames(msgs), msgs)
  {
    assert Frames(msgs)[|Frames(msgs)|..] == [];
  }

  lemma CarriesCut(msgs: seq<string>, msg: string, n: nat)
    requires n < |Frame(msg)|
    ensures Carries(Frames(msgs) + Frame(msg)[..n], msgs)
  {
    var wire := Frames(msgs) + Frame(msg)[..n];
    assert wire[|Frames(msgs)|..] == Frame(msg)[..n];
    assert StrictPrefix(Frame(msg)[..n], Frame(msg));
  }

  lemma {:induction false} NoMessagesOn(acks: seq<Ack>, c: nat)
    requires forall a | a in acks :: a.conn < c
    ensures MessagesOn(acks, c) == []
  {
    if acks == [] {
    } else {
      NoMessagesOn(acks[..|acks| - 1], c);
    }
  }

  lemma ConnectKeeps(s: Sender, acks: seq<Ack>)
    requires Inv(s, acks)
    ensures Inv(Connected(s), acks)
  {
    NoMessagesOn(acks, |s.wires|);
    CarriesClean([]);
  }

  /** A broken write leaves a cut-off frame on a connection that is then dropped. */
  lemma BrokenWriteKeeps(s: Sender, acks: seq<Ack>, msg: string, w: Write)
    requires Inv(s, acks) && s.conn.Some? && w.Broke?
    ensures Inv(Dropped(Written(s, Frame(msg), w)), acks)
  {
    var c := s.conn.value;
    var n := if w.bytes < |Frame(msg)| then w.bytes else 0;
    assert Arrived(Frame(msg), w) == Frame(msg)[..n];
    CarriesCut(MessagesOn(acks, c), msg, n);
  }

  lemma OneMoreAck(acks: seq<Ack>, msg: string, c: nat, d: nat)
    ensures MessagesOn(acks + [Ack(msg, c)], d) == if d == c then MessagesOn(acks, d) + [msg] else MessagesOn(acks, d)
  {
    assert (acks + [Ack(msg, c)])[..|acks|] == acks;
  }

  lemma OneMoreFrame(msgs: seq<string>, msg: string)
    ensures Frames(msgs + [msg]) == Frames(msgs) + Frame(msg)
  {
    assert (msgs + [msg])[..|msgs|] == msgs;
  }

  lemma WholeWriteKeeps(s: Sender, acks: seq<Ack>, msg: string)
    requires Inv(s, acks) && s.conn.Some?
    ensures Inv(Delivered(Written(s, Frame(msg), Wrote)), acks + [Ack(msg, s.conn.value)])
  {
    var c := s.conn.value;
    var more := acks + [Ack(msg, c)];
    var t := Delivered(Written(s, Frame(msg), Wrote));
    OneMoreFrame(MessagesOn(acks, c), msg);
    forall d | 0 <= d < |t.wires| ensures Carries(t.wires[d], MessagesOn(more, d)) {
      OneMoreAck(acks, msg, c, d);
      if d == c { CarriesClean(MessagesOn(more, c)); }
    }
    OneMoreAck(acks, msg, c, c);
  }

  lemma TransmitKeeps(s: Sender, acks: seq<Ack>, msg: string, e: Env)
    requires Inv(s, acks) && s.conn.Some?
    ensures var (t, ok) := Transmitted(s, Frame(msg), e);
            Inv(t, if ok && t.conn.Some? then acks + [Ack(msg, t.conn.value)] else acks) && (ok ==> t.conn.Some?)
  {
    if e.write.Wrote? {
      WholeWriteKeeps(s, acks, msg);
    } else {
      BrokenWriteKeeps(s, acks, msg, e.write);
      var dropped := Dropped(Written(s, Frame(msg), e.write));
      if !e.stopped && e.redial {
        ConnectKeeps(dropped, acks);
        if e.rewrite.Wrote? {
          WholeWriteKeeps(Connected(dropped), acks, msg);
        } else {
          BrokenWriteKeeps(Connected(dropped), acks, msg, e.rewrite);
        }
      }
    }
  }

  lemma SendKeeps(s: Sender, acks: seq<Ack>, msg: string, e: Env)
    requires Inv(s, acks)
    ensures Inv(Sent(s, msg, e).0, Acked(s, acks, msg, e))
    ensures Sent(s, msg, e).1 <==> |Acked(s, acks, msg, e)| == |acks| + 1
  {
    var t := Checked(s, e);
    if t.conn.Some? {
      TransmitKeeps(t, acks, msg, e);
    } else if e.checkedAt >= t.nextRetry && e.dial {
      ConnectKeeps(t, acks);
      TransmitKeeps(Connected(t), acks, msg, e);
    }
  }

  datatype Outcome = Outcome(sender: Sender, acks: seq<Ack>)

  ghost function After(o: Outcome, calls: seq<Call>): (r: Outcome)
    requires Inv(o.sender, o.acks)
    ensures Inv(r.sender, r.acks)
    decreases |calls|
  {
    if calls == [] then o
    else
      SendKeeps(o.sender, o.acks, calls[0].msg, calls[0].env);
      After(Outcome(Sent(o.sender, calls[0].msg, calls[0].env).0,
                    Acked(o.sender, o.acks, calls[0].msg, calls[0].env)), calls[1..])
  }

  /** The messages whose Send returned nil, in call order. */
  ghost function Confirmed(o: Outcome, calls: seq<Call>): seq<string>
    requires Inv(o.sender, o.acks)
    decreases |calls|
  {
    if calls == [] then []
    else
      SendKeeps(o.sender, o.acks, calls[0].msg, calls[0].env);
      var next := Outcome(Sent(o.sender, calls[0].msg, calls[0].env).0,
                          Acked(o.sender, o.acks, calls[0].msg, calls[0].env));
      (if Sent(o.sender, calls[0].msg, calls[0].env).1 then [calls[0].msg] else []) + Confirmed(next, calls[1..])
  }

  function Messages(acks: seq<Ack>): seq<string> { seq(|acks|, i requires 0 <= i < |acks| => acks[i].msg) }

  /**
   Over any run of Send with failing dials and writes, what a receiver decodes from its
   connection is exactly the messages acknowledged on it, in order.
   */
  lemma ReceiversDecodeTheAcks(calls: seq<Call>, c: nat)
    ensures Inv(IDLE, [])
    ensures var o := After(Outcome(IDLE, []), calls);
            c < |o.sender.wires| ==>
              DecodeAll(o.sender.wires[c]).Some? && DecodeAll(o.sender.wires[c]).value.0 == MessagesOn(o.acks, c)
  {
    var o := After(Outcome(IDLE, []), calls);
    if c < |o.sender.wires| {
      var msgs := MessagesOn(o.acks, c);
      assert Carries(o.sender.wires[c], msgs);
      var tail := o.sender.wires[c][|Frames(msgs)|..];
      assert o.sender.wires[c] == Frames(msgs) + tail;
      var cut :| tail == [] || StrictPrefix(tail, Frame(cut));
      StreamDecodes(msgs, tail, cut);
    }
  }

  /** The acknowledgements are the sends that returned nil, each once and in order. */
  lemma {:induction false} AcksAreConfirmed(o: Outcome, calls: seq<Call>)
    requires Inv(o.sender, o.acks)
    ensures Messages(After(o, calls).acks) == Messages(o.acks) + Confirmed(o, calls)
    decreases |calls|
  {
    if calls == [] {
    } else {
      SendKeeps(o.sender, o.acks, calls[0].msg, calls[0].env);
      var next := Outcome(Sent(o.sender, calls[0].msg, calls[0].env).0,
                          Acked(o.sender, o.acks, calls[0].msg, calls[0].env));
      AcksAreConfirmed(next, calls[1..]);
    }
  }

  /** A connection counts as used exactly when a message was acknowledged on it, so only an unused one that hangs up backs off. */
  lemma WrittenMeansUsed(calls: seq<Call>)
    ensures Inv(IDLE, [])
    ensures var o := After(Outcome(IDLE, []), calls);
            o.sender.conn.Some? ==> (o.sender.written <==> MessagesOn(o.acks, o.sender.conn.value) != [])
  {
  }
}
