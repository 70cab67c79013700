/**
 The syslog-ng supervisor: installing a config, asking the child to reload it, and waiting for
 the verdict in its log, as atomic steps interleaved with log lines, child exits and timers
 (apps/syslog-valve/internal/supervisor/supervisor.go).
 */
module Supervisor {
  import opened Common

  const HISTORY_KEEP := 20
  const MAX_ERRS := 8

  /** What a reload wait is told. */
  datatype Verdict = Loaded | Refused(errs: seq<string>) | ChildExited

  /** A reloadWait; `inbox` is its one-slot channel, `sends` how often it was sent to. */
  datatype Wait = Wait(errs: seq<string>, failed: bool, inbox: Option<Verdict>, sends: nat)

  const NEW_WAIT := Wait([], false, None, 0)

  /** The mutex-guarded fields; `stuck`: a send found its channel full while the mutex was held. */
  datatype Core = Core(child: bool, reload: Option<nat>, waits: map<nat, Wait>, stuck: bool)

  // ----- the critical sections

  function Deliver(c: Core, w: nat, v: Verdict): Core
    requires w in c.waits
  {
    var wait := c.waits[w];
    if wait.inbox.Some? then c.(stuck := true)
    else c.(waits := c.waits[w := wait.(inbox := Some(v), sends := wait.sends + 1)])
  }

  /** finishReload. */
  function Finished(c: Core, w: nat): Core
    requires w in c.waits
  {
    var wait := c.waits[w];
    Deliver(c.(reload := None), w, if wait.failed then Refused(wait.errs) else Loaded)
  }

  function Noted(wait: Wait, line: string): Wait {
    if (Contains(line, "Error") || Contains(line, "error")) && |wait.errs| < MAX_ERRS
    then wait.(errs := wait.errs + [line]) else wait
  }

  /** logLine, as far as a pending reload is concerned. */
  function Lined(c: Core, line: string): Core {
    if c.reload.None? || c.reload.value !in c.waits then c
    else
      var w := c.reload.value;
      var wait := Noted(c.waits[w], line);
      if Contains(line, "reverting to old config") then c.(waits := c.waits[w := wait.(failed := true)])
      else if Contains(line, "Error reloading configuration") || Contains(line, "Configuration reload failed") then
        Finished(c.(waits := c.waits[w := wait.(failed := true)]), w)
      else if Contains(line, "Configuration reload finished") then Finished(c.(waits := c.waits[w := wait]), w)
      else c.(waits := c.waits[w := wait])
  }

  /** runLoop, when the child has exited. */
  function Exited(c: Core): Core {
    var d := c.(child := false);
    if d.reload.None? || d.reload.value !in d.waits then d
    else Deliver(d.(reload := None), d.reload.value, ChildExited)
  }

  datatype Begin = Waiting | NotRunning | Busy | SignalFailed

  function BeginOutcome(c: Core, signalOk: bool): Begin {
    if !c.child then NotRunning else if c.reload.Some? then Busy else if !signalOk then SignalFailed else Waiting
  }

  /** The locked part of Reload. */
  function Begun(c: Core, w: nat, signalOk: bool): Core {
    if BeginOutcome(c, signalOk) == Waiting then c.(reload := Some(w), waits := c.waits[w := NEW_WAIT]) else c
  }

  /** Reload's timer: stop listening, if still listening. */
  function TimedOut(c: Core, w: nat): Core { if c.reload == Some(w) then c.(reload := None) else c }

  class Monitor {
    var child: bool
    var reload: Option<nat>
    var waits: map<nat, Wait>
    var stuck: bool

    function View(): Core
      reads this
    {
      Core(child, reload, waits, stuck)
    }

    constructor ()
      ensures View() == Core(false, None, map[], false)
    {
      child, reload, waits, stuck := false, None, map[], false;
    }

    method Send(w: nat, v: Verdict)
      requires w in waits
      modifies this`waits, this`stuck
      ensures View() == Deliver(old(View()), w, v)
    {
      if waits[w].inbox.Some? {
        stuck := true;
      } else {
        waits := waits[w := waits[w].(inbox := Some(v), sends := waits[w].sends + 1)];
      }
    }

    method FinishReload(w: nat)
      requires w in waits
      modifies this
      ensures View() == Finished(old(View()), w)
    {
      reload := None;
      if waits[w].failed {
        Send(w, Refused(waits[w].errs));
        return;
      }
      Send(w, Loaded);
    }

    method LogLine(line: string)
      modifies this
      ensures View() == Lined(old(View()), line)
    {
      if reload.None? || reload.value !in waits {
        return;
      }
      var w := reload.value;
      var wait := waits[w];
      if Contains(line, "Error") || Contains(line, "error") {
        if |wait.errs| < MAX_ERRS {
          wait := wait.(errs := wait.errs + [line]);
        }
      }
      if Contains(line, "reverting to old config") {
        waits := waits[w := wait.(failed := true)];
      } else if Contains(line, "Error reloading configuration") || Contains(line, "Configuration reload failed") {
        waits := waits[w := wait.(failed := true)];
        FinishReload(w);
      } else {
        waits := waits[w := wait];
        if Contains(line, "Configuration reload finished") {
          FinishReload(w);
        }
      }
    }

    method ChildExit()
      modifies this
      ensures View() == Exited(old(View()))
    {
      child := false;
      if reload.Some? && reload.value in waits {
        var w := reload.value;
        reload := None;
        Send(w, ChildExited);
      }
    }

    method BeginReload(w: nat, signalOk: bool) returns (outcome: Begin)
      modifies this
      ensures View() == Begun(old(View()), w, signalOk) && outcome == BeginOutcome(old(View()), signalOk)
    {
      if !child {
        return NotRunning;
      }
      if reload.Some? {
        return Busy;
      }
      if !signalOk {
        return SignalFailed;
      }
      waits := waits[w := NEW_WAIT];
      reload := Some(w);
      outcome := Waiting;
    }

    method StopListening(w: nat)
      modifies this`reload
      ensures View() == TimedOut(old(View()), w)
    {
      if reload == Some(w) {
        reload := None;
      }
    }
  }

  // ----- history on disk

  datatype Archived = Archived(id: int, conf: string, graph: string)

  function Pruned(h: seq<Archived>): seq<Archived> { if |h| > HISTORY_KEEP then h[|h| - HISTORY_KEEP..] else h }

  ghost predicate Rising(h: seq<Archived>) { forall i, j | 0 <= i < j < |h| :: h[i].id < h[j].id }

  /** The newest archived entry whose config is the installed one. */
  function ActiveGraph(h: seq<Archived>, current: string): Option<string> {
    if h == [] then None
    else if h[|h| - 1].conf == current then Some(h[|h| - 1].graph)
    else ActiveGraph(h[..|h| - 1], current)
  }

  // ----- the whole system

  /** One call of Reload: waiting, past its timer, or done. */
  datatype Call = CallWaits | CallTimedOut | CallDone(result: Result<(), Failure>)

  datatype Failure = NoChild | AnotherReload | NoSignal | Refusal(errs: seq<string>) | ChildGone | Unconfirmed

  /** Where Apply stands; `was` and `hist` are the installed config and the history it found. */
  datatype Apply =
    | NoApply
    | Installed(conf: string, graph: string, was: string, hist: seq<Archived>)
    | Reloading(conf: string, graph: string, was: string, hist: seq<Archived>, call: nat)

  datatype State = State(core: Core, calls: map<nat, Call>, apply: Apply, current: string, history: seq<Archived>,
                         initial: string, lastResult: Option<Result<(), Failure>>)

  function Fresh(initial: string): State {
    State(Core(false, None, map[], false), map[], NoApply, initial, [], initial, None)
  }

  datatype Step =
    | Line(line: string)
    | ChildStarts
    | ChildExits
    | BeginApply(conf: string, graph: string)   // the config passed --syntax-only
    | CallReload(call: nat, signalOk: bool, forApply: bool)
    | SeeVerdict(call: nat)
    | TimerFires(call: nat)
    | AfterTimer(call: nat)
    | EndApply(id: int)

  predicate Enabled(s: State, step: Step) {
    match step
    case Line(_) => s.core.child
    case ChildStarts => !s.core.child
    case ChildExits => s.core.child
    case BeginApply(_, _) => s.apply.NoApply?
    case CallReload(w, _, forApply) => w !in s.calls && w !in s.core.waits && (forApply ==> s.apply.Installed?)
    case SeeVerdict(w) => w in s.calls && s.calls[w].CallWaits? && w in s.core.waits && s.core.waits[w].inbox.Some?
    case TimerFires(w) => w in s.calls && s.calls[w].CallWaits?
    case AfterTimer(w) => w in s.calls && s.calls[w].CallTimedOut? && w in s.core.waits
    case EndApply(id) =>
      && s.apply.Reloading? && s.apply.call in s.calls && s.calls[s.apply.call].CallDone?
      && (s.history != [] ==> s.history[|s.history| - 1].id < id)
  }

  function Heard(v: Verdict): Result<(), Failure> {
    match v
    case Loaded => Ok(())
    case Refused(errs) => Err(Refusal(errs))
    case ChildExited => Err(ChildGone)
  }

  function BeginResult(b: Begin): Call {
    match b
    case Waiting => CallWaits
    case NotRunning => CallDone(Err(NoChild))
    case Busy => CallDone(Err(AnotherReload))
    case SignalFailed => CallDone(Err(NoSignal))
  }

  /** Apply, once Reload has returned: archive what is confirmed or will be used, restore otherwise. */
  function Ended(s: State, id: int): State
    requires s.apply.Reloading? && s.apply.call in s.calls && s.calls[s.apply.call].CallDone?
  {
    var a := s.apply;
    var result := s.calls[a.call].result;
    if result.Ok? || result.error.NoChild? then
      s.(apply := NoApply, history := Pruned(s.history + [Archived(id, a.conf, a.graph)]), lastResult := Some(result))
    else s.(apply := NoApply, current := a.was, lastResult := Some(result))
  }

  function Next(s: State, step: Step): State
    requires Enabled(s, step)
  {
    match step
    case Line(line) => s.(core := Lined(s.core, line))
    case ChildStarts => s.(core := s.core.(child := true))
    case ChildExits => s.(core := Exited(s.core))
    case BeginApply(conf, graph) => s.(apply := Installed(conf, graph, s.current, s.history), current := conf)
    case CallReload(w, signalOk, forApply) =>
      var t := s.(core := Begun(s.core, w, signalOk), calls := s.calls[w := BeginResult(BeginOutcome(s.core, signalOk))]);
      if forApply && s.apply.Installed?
      then t.(apply := Reloading(s.apply.conf, s.apply.graph, s.apply.was, s.apply.hist, w)) else t
    case SeeVerdict(w) => s.(calls := s.calls[w := CallDone(Heard(s.core.waits[w].inbox.value))])
    case TimerFires(w) => s.(core := TimedOut(s.core, w), calls := s.calls[w := CallTimedOut])
    case AfterTimer(w) =>
      var inbox := s.core.waits[w].inbox;
      s.(calls := s.calls[w := CallDone(if inbox.Some? then Heard(inbox.value) else Err(Unconfirmed))])
    case EndApply(id) => Ended(s, id)
  }

  // ----- invariants

  /** At most one verdict each, none yet for the wait being listened to, and no send ever finds its channel full. */
  ghost predicate OneVerdict(c: Core) {
    && !c.stuck
    && (forall w | w in c.waits :: c.waits[w].sends == if c.waits[w].inbox.Some? then 1 else 0)
    && (c.reload.Some? ==> c.reload.value in c.waits && c.waits[c.reload.value].inbox.None?)
  }

  ghost predicate CallsOk(s: State) {
    && (forall w | w in s.core.waits :: w in s.calls)
    && (forall w | w in s.calls && !s.calls[w].CallDone? :: w in s.core.waits)
  }

  /** The config that should be installed between two Applies. */
  function Baseline(s: State): string { if s.history == [] then s.initial else s.history[|s.history| - 1].conf }

  ghost predicate FilesOk(s: State) {
    && (s.apply.NoApply? ==> s.current == Baseline(s))
    && (!s.apply.NoApply? ==> s.current == s.apply.conf && s.apply.was == Baseline(s) && s.apply.hist == s.history)
    && |s.history| <= HISTORY_KEEP && Rising(s.history)
  }

  ghost predicate Inv(s: State) { OneVerdict(s.core) && CallsOk(s) && FilesOk(s) }

  lemma FinishedKept(c: Core, w: nat)
    requires !c.stuck && w in c.waits && c.waits[w].inbox.None?
    requires forall u | u in c.waits :: c.waits[u].sends == if c.waits[u].inbox.Some? then 1 else 0
    ensures OneVerdict(Finished(c, w)) && Finished(c, w).waits.Keys == c.waits.Keys
  {
  }

  lemma LineKept(c: Core, line: string)
    requires OneVerdict(c)
    ensures OneVerdict(Lined(c, line)) && Lined(c, line).waits.Keys == c.waits.Keys
  {
    if c.reload.Some? {
      var w := c.reload.value;
      var wait := Noted(c.waits[w], line);
      assert wait.inbox.None? && wait.sends == 0;
      FinishedKept(c.(waits := c.waits[w := wait.(failed := true)]), w);
      FinishedKept(c.(waits := c.waits[w := wait]), w);
    }
  }

  lemma RisesOn(h: seq<Archived>, a: Archived)
    requires Rising(h) && (h != [] ==> h[|h| - 1].id < a.id)
    ensures Rising(h + [a])
  {
    var g := h + [a];
    forall i, j | 0 <= i < j < |g| ensures g[i].id < g[j].id {
      if j == |h| && i < |h| - 1 { assert h[i].id < h[|h| - 1].id; }
    }
  }

  /** Archiving puts the entry last and prunes from the old end. */
  lemma ArchivingKeeps(h: seq<Archived>, a: Archived)
    requires |h| <= HISTORY_KEEP && Rising(h) && (h != [] ==> h[|h| - 1].id < a.id)
    ensures var p := Pruned(h + [a]); 0 < |p| <= HISTORY_KEEP && p[|p| - 1] == a && Rising(p)
  {
    RisesOn(h, a);
  }

  lemma EndKeepsFiles(s: State, id: int)
    requires FilesOk(s) && Enabled(s, EndApply(id))
    ensures FilesOk(Ended(s, id))
  {
    assert Rising(s.history);
    ArchivingKeeps(s.history, Archived(id, s.apply.conf, s.apply.graph));
  }

  lemma ReloadKeepsFiles(s: State, step: Step)
    requires FilesOk(s) && Enabled(s, step) && step.CallReload?
    ensures FilesOk(Next(s, step))
  {
  }

  lemma FilesKept(s: State, step: Step)
    requires FilesOk(s) && Enabled(s, step)
    ensures FilesOk(Next(s, step))
  {
    if step.EndApply? { EndKeepsFiles(s, step.id); }
    else if step.CallReload? { ReloadKeepsFiles(s, step); }
    else { assert Next(s, step).history == s.history && Next(s, step).initial == s.initial; }
  }

  lemma StepKeepsInv(s: State, step: Step)
    requires Inv(s) && Enabled(s, step)
    ensures Inv(Next(s, step))
  {
    FilesKept(s, step);
    if step.Line? { LineKept(s.core, step.line); }
  }

  ghost predicate Run(s: State, steps: seq<Step>, t: State)
    decreases |steps|
  {
    if steps == [] then s == t
    else Enabled(s, steps[0]) && Run(Next(s, steps[0]), steps[1..], t)
  }

  lemma {:induction false} RunKeepsInv(s: State, steps: seq<Step>, t: State)
    requires Inv(s) && Run(s, steps, t)
    ensures Inv(t)
    decreases |steps|
  {
    if steps == [] {
    } else {
      StepKeepsInv(s, steps[0]);
      RunKeepsInv(Next(s, steps[0]), steps[1..], t);
    }
  }

  /** Every reload wait is sent at most one verdict, so the send under the mutex never blocks. */
  lemma AtMostOneVerdict(initial: string, steps: seq<Step>, t: State, w: nat)
    requires Run(Fresh(initial), steps, t)
    ensures !t.core.stuck && (w in t.core.waits ==> t.core.waits[w].sends <= 1)
  {
    RunKeepsInv(Fresh(initial), steps, t);
  }

  /** Between Applies the installed config is the newest archived one, or the initial one. */
  lemma InstalledIsNewest(initial: string, steps: seq<Step>, t: State)
    requires Run(Fresh(initial), steps, t) && t.apply.NoApply?
    ensures t.current == if t.history == [] then initial else t.history[|t.history| - 1].conf
    ensures |t.history| <= HISTORY_KEEP
    ensures t.history != [] ==> ActiveGraph(t.history, t.current) == Some(t.history[|t.history| - 1].graph)
  {
    RunKeepsInv(Fresh(initial), steps, t);
    InitialStays(Fresh(initial), steps, t);
  }

  lemma {:induction false} InitialStays(s: State, steps: seq<Step>, t: State)
    requires Run(s, steps, t)
    ensures t.initial == s.initial
    decreases |steps|
  {
    if steps == [] {
    } else {
      InitialStays(Next(s, steps[0]), steps[1..], t);
    }
  }

  /** The steps of one Apply: it begins first, ends last, and no other ends in between. */
  ghost predicate OneApply(steps: seq<Step>) {
    |steps| >= 2 && steps[0].BeginApply? && Last(steps).EndApply?
    && forall i | 0 < i < |steps| - 1 :: !steps[i].EndApply?
  }

  function Last(steps: seq<Step>): Step
    requires steps != []
  {
    steps[|steps| - 1]
  }

  lemma {:induction false} ApplyRemembers(s: State, steps: seq<Step>, t: State)
    requires Run(s, steps, t) && !s.apply.NoApply? && forall i | 0 <= i < |steps| :: !steps[i].EndApply?
    ensures !t.apply.NoApply? && t.history == s.history && t.current == s.current
    ensures t.apply.was == s.apply.was && t.apply.conf == s.apply.conf && t.apply.graph == s.apply.graph
    decreases |steps|
  {
    if steps == [] {
    } else {
      var mid := Next(s, steps[0]);
      assert mid.current == s.current && mid.history == s.history && !mid.apply.NoApply?;
      assert forall i | 0 <= i < |steps[1..]| :: steps[1..][i] == steps[i + 1];
      ApplyRemembers(mid, steps[1..], t);
    }
  }

  lemma {:induction false} SplitLast(s: State, steps: seq<Step>, t: State) returns (mid: State)
    requires Run(s, steps, t) && steps != []
    ensures Run(s, steps[..|steps| - 1], mid) && Enabled(mid, Last(steps)) && t == Next(mid, Last(steps))
    decreases |steps|
  {
    if |steps| == 1 {
      mid := s;
      assert Run(Next(s, steps[0]), steps[1..], t);
    } else {
      mid := SplitLast(Next(s, steps[0]), steps[1..], t);
      assert steps[1..][..|steps| - 2] == steps[..|steps| - 1][1..];
      assert Last(steps[1..]) == Last(steps);
    }
  }

  /** The state in which the apply ends; nothing between its first and last step ends one. */
  lemma ApplyMiddle(s: State, steps: seq<Step>, t: State) returns (middle: seq<Step>, end: State)
    requires Run(s, steps, t) && OneApply(steps)
    ensures Run(Next(s, steps[0]), middle, end) && Enabled(end, Last(steps)) && t == Next(end, Last(steps))
    ensures middle == steps[1..|steps| - 1] && forall i | 0 <= i < |middle| :: !middle[i].EndApply?
  {
    end := SplitLast(s, steps, t);
    middle := steps[..|steps| - 1][1..];
    assert steps[..|steps| - 1][0] == steps[0];
    assert forall i | 0 <= i < |middle| :: middle[i] == steps[i + 1];
  }

  /**
   Whatever is interleaved with it, an Apply that is refused, times out or loses its child
   leaves the installed config and the history as it found them; one that is confirmed, or
   finds no child to ask, leaves its own config installed and archived last.
   */
  lemma ApplyIsAllOrNothing(initial: string, before: seq<Step>, s: State, steps: seq<Step>, t: State)
    requires Run(Fresh(initial), before, s) && Run(s, steps, t) && OneApply(steps)
    ensures t.apply.NoApply? && t.lastResult.Some?
    ensures var ok := t.lastResult.value.Ok? || t.lastResult.value.error.NoChild?;
            && (!ok ==> t.current == s.current && t.history == s.history)
            && (ok ==> t.current == steps[0].conf && t.history != []
                       && t.history[|t.history| - 1].conf == steps[0].conf
                       && t.history[|t.history| - 1].graph == steps[0].graph)
  {
    RunKeepsInv(Fresh(initial), before, s);
    var middle, end := ApplyMiddle(s, steps, t);
    ApplyRemembers(Next(s, steps[0]), middle, end);
  }

  // ----- the verdict is the right one

  predicate Failing(line: string) {
    Contains(line, "reverting to old config") || Contains(line, "Error reloading configuration")
    || Contains(line, "Configuration reload failed")
  }

  /** A line that settles a reload: a refusal, or "finished" (which also follows a reverted config). */
  predicate Settles(line: string) {
    !Contains(line, "reverting to old config")
    && (Contains(line, "Error reloading configuration") || Contains(line, "Configuration reload failed")
        || Contains(line, "Configuration reload finished"))
  }

  /** The first MAX_ERRS lines that speak of an error. */
  function FirstErrors(lines: seq<string>): seq<string> {
    if lines == [] then []
    else
      var errs, line := FirstErrors(lines[..|lines| - 1]), lines[|lines| - 1];
      if |errs| < MAX_ERRS && (Contains(line, "Error") || Contains(line, "error")) then errs + [line] else errs
  }

  ghost predicate AnyFailing(lines: seq<string>) { exists line | line in lines :: Failing(line) }

  /** What a reload is told when the last of `lines`, the log since it began, settles it. */
  ghost function Judgement(lines: seq<string>): Verdict {
    if AnyFailing(lines) then Refused(FirstErrors(lines)) else Loaded
  }

  function LinesOf(steps: seq<Step>): seq<string> {
    if steps == [] then [] else (if steps[0].Line? then [steps[0].line] else []) + LinesOf(steps[1..])
  }

  /** The steps that end the wait of call w: a settling line, the child's exit, or its own timer. */
  predicate Ends(step: Step, w: nat) {
    match step
    case Line(line) => Settles(line)
    case ChildExits => true
    case TimerFires(u) => u == w
    case _ => false
  }

  ghost function WaitAfter(lines: seq<string>): Wait { Wait(FirstErrors(lines), AnyFailing(lines), None, 0) }

  /** Call w is the pending one and has seen `lines` since it began. */
  ghost predicate Listening(c: Core, w: nat, lines: seq<string>) {
    && c.reload == Some(w) && w in c.waits
    && c.waits[w] == WaitAfter(lines)
  }

  lemma OneMoreLine(lines: seq<string>, line: string)
    ensures WaitAfter(lines + [line]) == Noted(WaitAfter(lines), line).(failed := AnyFailing(lines) || Failing(line))
  {
    assert (lines + [line])[..|lines|] == lines;
    if Failing(line) { assert line in lines + [line]; }
    if l :| l in lines && Failing(l) { assert l in lines + [line]; }
  }

  lemma ListensOn(c: Core, w: nat, lines: seq<string>, line: string)
    requires Listening(c, w, lines) && !Settles(line)
    ensures Listening(Lined(c, line), w, lines + [line])
  {
    OneMoreLine(lines, line);
  }

  lemma LineSettles(c: Core, w: nat, lines: seq<string>, line: string)
    requires Listening(c, w, lines) && Settles(line)
    ensures var d := Lined(c, line); d.reload.None? && w in d.waits && d.waits[w].inbox == Some(Judgement(lines + [line]))
  {
    OneMoreLine(lines, line);
    assert Lined(c, line) == Finished(c.(waits := c.waits[w := WaitAfter(lines + [line])]), w);
  }

  lemma OtherStepsListen(s: State, step: Step, w: nat, lines: seq<string>)
    requires Inv(s) && Listening(s.core, w, lines) && Enabled(s, step) && !Ends(step, w) && !step.Line?
    ensures Listening(Next(s, step).core, w, lines)
  {
  }

  lemma EndSettles(s: State, step: Step, w: nat, lines: seq<string>)
    requires Inv(s) && Listening(s.core, w, lines) && Enabled(s, step) && Ends(step, w)
    ensures var c := Next(s, step).core;
            && c.reload != Some(w) && w in c.waits
            && c.waits[w].inbox == match step
                                   case Line(line) => Some(Judgement(lines + [line]))
                                   case ChildExits => Some(ChildExited)
                                   case _ => None
  {
    if step.Line? { LineSettles(s.core, w, lines, step.line); }
  }

  lemma OneStepSettled(s: State, step: Step, w: nat)
    requires Inv(s) && Enabled(s, step) && w in s.core.waits && s.core.reload != Some(w)
    ensures var c := Next(s, step).core; w in c.waits && c.reload != Some(w) && c.waits[w] == s.core.waits[w]
  {
  }

  lemma {:induction false} StaysSettled(s: State, steps: seq<Step>, t: State, w: nat)
    requires Inv(s) && Run(s, steps, t) && w in s.core.waits && s.core.reload != Some(w)
    ensures w in t.core.waits && t.core.reload != Some(w) && t.core.waits[w] == s.core.waits[w]
    decreases |steps|
  {
    if steps == [] {
    } else {
      StepKeepsInv(s, steps[0]);
      OneStepSettled(s, steps[0], w);
      StaysSettled(Next(s, steps[0]), steps[1..], t, w);
    }
  }

  /** What a wait that has seen `lines` is told when step i of `steps` is the first to end it. */
  ghost function Told(lines: seq<string>, steps: seq<Step>, i: nat): Option<Verdict>
    requires i < |steps|
  {
    match steps[i]
    case Line(_) => Some(Judgement(lines + LinesOf(steps[..i + 1])))
    case ChildExits => Some(ChildExited)
    case _ => None
  }

  /** The lines seen after one more step. */
  function Seen(lines: seq<string>, step: Step): seq<string> { if step.Line? then lines + [step.line] else lines }

  lemma ToldLater(lines: seq<string>, steps: seq<Step>, i: nat)
    requires 0 < i < |steps|
    ensures Told(Seen(lines, steps[0]), steps[1..], i - 1) == Told(lines, steps, i)
  {
    assert steps[..i + 1][1..] == steps[1..][..i];
    SeenLines(lines, steps[..i + 1]);
  }

  lemma SeenLines(lines: seq<string>, steps: seq<Step>)
    requires steps != []
    ensures Seen(lines, steps[0]) + LinesOf(steps[1..]) == lines + LinesOf(steps)
  {
    if steps[0].Line? {
      ConcatAssociates(lines, [steps[0].line], LinesOf(steps[1..]));
    } else {
      assert LinesOf(steps) == LinesOf(steps[1..]);
    }
  }

  lemma ToldNow(lines: seq<string>, steps: seq<Step>)
    requires steps != []
    ensures Told(lines, steps, 0) == match steps[0]
                                     case Line(line) => Some(Judgement(lines + [line]))
                                     case ChildExits => Some(ChildExited)
                                     case _ => None
  {
    assert steps[..1] == [steps[0]] && steps[..1][1..] == [];
    if steps[0].Line? { assert LinesOf(steps[..1]) == [steps[0].line]; }
  }

  lemma StepListens(s: State, step: Step, w: nat, lines: seq<string>)
    requires Inv(s) && Listening(s.core, w, lines) && Enabled(s, step) && !Ends(step, w)
    ensures Listening(Next(s, step).core, w, Seen(lines, step))
  {
    if step.Line? { ListensOn(s.core, w, lines, step.line); } else { OtherStepsListen(s, step, w, lines); }
  }

  /** No step before the i-th ends the wait; the i-th, if there is one, does. */
  ghost predicate FirstEnd(steps: seq<Step>, w: nat, i: nat) {
    i <= |steps| && (forall k | 0 <= k < i :: !Ends(steps[k], w)) && (i < |steps| ==> Ends(steps[i], w))
  }

  lemma {:induction false} WaitIsSettled(s: State, steps: seq<Step>, t: State, w: nat, lines: seq<string>, i: nat)
    requires Inv(s) && Run(s, steps, t) && Listening(s.core, w, lines) && FirstEnd(steps, w, i)
    ensures i == |steps| ==> Listening(t.core, w, lines + LinesOf(steps))
    ensures i < |steps| ==> w in t.core.waits && t.core.waits[w].inbox == Told(lines, steps, i)
    decreases |steps|
  {
    if steps == [] {
      assert lines + [] == lines;
    } else {
      var next := Next(s, steps[0]);
      StepKeepsInv(s, steps[0]);
      if i == 0 {
        EndSettles(s, steps[0], w, lines);
        StaysSettled(next, steps[1..], t, w);
        ToldNow(lines, steps);
      } else {
        StepListens(s, steps[0], w, lines);
        WaitIsSettled(next, steps[1..], t, w, Seen(lines, steps[0]), i - 1);
        SeenLines(lines, steps);
        if i < |steps| { ToldLater(lines, steps, i); }
      }
    }
  }

  /**
   The verdict of a reload that began waiting is decided by the first of: a settling line, the
   child's exit, its timer. At a settling line it is a refusal, with the first error lines,
   exactly when a failure was logged since it began. Nothing later changes it.
   */
  lemma VerdictIsRight(initial: string, before: seq<Step>, s: State, w: nat, forApply: bool, steps: seq<Step>, t: State, i: nat)
    requires Run(Fresh(initial), before, s) && Enabled(s, CallReload(w, true, forApply))
    requires s.core.child && s.core.reload.None?
    requires Run(Next(s, CallReload(w, true, forApply)), steps, t)
    requires FirstEnd(steps, w, i)
    ensures w in t.core.waits
    ensures t.core.waits[w].inbox == if i == |steps| then None else Told([], steps, i)
  {
    RunKeepsInv(Fresh(initial), before, s);
    StepKeepsInv(s, CallReload(w, true, forApply));
    WaitIsSettled(Next(s, CallReload(w, true, forApply)), steps, t, w, [], i);
  }

  /** A call that is done returned its verdict, or that none came in time. */
  ghost predicate CallsHonest(s: State) {
    forall w | w in s.calls && w in s.core.waits :: Honest(s, w)
  }

  ghost predicate Honest(s: State, w: nat)
    requires w in s.calls && w in s.core.waits
  {
    var inbox := s.core.waits[w].inbox;
    && (!s.calls[w].CallWaits? ==> s.core.reload != Some(w))
    && (s.calls[w].CallDone? ==> s.calls[w].result == if inbox.Some? then Heard(inbox.value) else Err(Unconfirmed))
  }

  lemma StepKeepsHonest(s: State, step: Step)
    requires Inv(s) && CallsHonest(s) && Enabled(s, step)
    ensures CallsHonest(Next(s, step))
  {
    var t := Next(s, step);
    forall w | w in t.calls && w in t.core.waits ensures Honest(t, w) {
      if w in s.calls && w in s.core.waits {
        assert Honest(s, w);
        if s.core.reload != Some(w) { OneStepSettled(s, step, w); }
      }
    }
  }

  lemma {:induction false} RunKeepsHonest(s: State, steps: seq<Step>, t: State)
    requires Inv(s) && CallsHonest(s) && Run(s, steps, t)
    ensures Inv(t) && CallsHonest(t)
    decreases |steps|
  {
    if steps == [] {
    } else {
      StepKeepsInv(s, steps[0]);
      StepKeepsHonest(s, steps[0]);
      RunKeepsHonest(Next(s, steps[0]), steps[1..], t);
    }
  }

  /** Reload returns nil exactly when its wait was told "loaded"; a late verdict is not lost to the timer. */
  lemma ReloadReturnsVerdict(initial: string, steps: seq<Step>, t: State, w: nat)
    requires Run(Fresh(initial), steps, t) && w in t.calls && w in t.core.waits && t.calls[w].CallDone?
    ensures t.calls[w].result.Ok? <==> t.core.waits[w].inbox == Some(Loaded)
    ensures t.calls[w].result == Err(Unconfirmed) <==> t.core.waits[w].inbox.None?
  {
    RunKeepsHonest(Fresh(initial), steps, t);
    assert Honest(t, w);
  }

  // ----- what a call of Reload returns, and what Apply makes of it

  /** The call got past Reload's first critical section and waits. */
  predicate Starts(c: Core, signalOk: bool) { c.child && c.reload.None? && signalOk }

  /** Why a call did not even wait. */
  function NotStarted(c: Core): Failure { if !c.child then NoChild else if c.reload.Some? then AnotherReload else NoSignal }

  lemma {:induction false} DoneStays(s: State, steps: seq<Step>, t: State, w: nat)
    requires Inv(s) && Run(s, steps, t) && w in s.calls && s.calls[w].CallDone?
    ensures w in t.calls && t.calls[w] == s.calls[w] && (w in t.core.waits <==> w in s.core.waits)
    decreases |steps|
  {
    if steps == [] {
    } else {
      StepKeepsInv(s, steps[0]);
      WaitsStay(s, steps[0], w);
      DoneStays(Next(s, steps[0]), steps[1..], t, w);
    }
  }

  /** Waits belong to calls: none appears for a call already made, and none goes away. */
  lemma WaitsStay(s: State, step: Step, w: nat)
    requires Inv(s) && Enabled(s, step) && w in s.calls
    ensures w in Next(s, step).calls && (w in Next(s, step).core.waits <==> w in s.core.waits)
    ensures s.calls[w].CallDone? ==> Next(s, step).calls[w] == s.calls[w]
  {
    if step.Line? { LineKept(s.core, step.line); }
  }

  lemma {:induction false} WaitsStayOverRun(s: State, steps: seq<Step>, t: State, w: nat)
    requires Inv(s) && Run(s, steps, t) && w in s.calls
    ensures w in t.calls && (w in t.core.waits <==> w in s.core.waits)
    decreases |steps|
  {
    if steps == [] {
    } else {
      StepKeepsInv(s, steps[0]);
      WaitsStay(s, steps[0], w);
      WaitsStayOverRun(Next(s, steps[0]), steps[1..], t, w);
    }
  }

  /** What Reload returns to call w, by what its wait has been told. */
  function Returned(inbox: Option<Verdict>): Result<(), Failure> {
    match inbox
    case Some(Loaded) => Ok(())
    case Some(Refused(errs)) => Err(Refusal(errs))
    case Some(ChildExited) => Err(ChildGone)
    case None => Err(Unconfirmed)
  }

  /**
   What Reload returns: without a child, with another reload pending or an undelivered signal it
   says so at once; otherwise nil, the refusal, the child's exit or "not confirmed", exactly as its
   own wait was told.
   */
  lemma ReloadSaysWhy(initial: string, before: seq<Step>, s: State, w: nat, signalOk: bool, forApply: bool, steps: seq<Step>, t: State)
    requires Run(Fresh(initial), before, s) && Enabled(s, CallReload(w, signalOk, forApply))
    requires Run(Next(s, CallReload(w, signalOk, forApply)), steps, t)
    ensures w in t.calls && (w in t.core.waits <==> Starts(s.core, signalOk))
    ensures t.calls[w].CallDone? ==>
      t.calls[w].result == if Starts(s.core, signalOk) then Returned(t.core.waits[w].inbox) else Err(NotStarted(s.core))
  {
    var step := CallReload(w, signalOk, forApply);
    RunKeepsHonest(Fresh(initial), before, s);
    StepKeepsInv(s, step);
    StepKeepsHonest(s, step);
    WaitsStayOverRun(Next(s, step), steps, t, w);
    RunKeepsHonest(Next(s, step), steps, t);
    if Starts(s.core, signalOk) {
      assert Honest(t, w);
    } else {
      DoneStays(Next(s, step), steps, t, w);
    }
  }

  lemma {:induction false} ReloadingStays(s: State, steps: seq<Step>, t: State)
    requires Run(s, steps, t) && s.apply.Reloading? && forall i | 0 <= i < |steps| :: !steps[i].EndApply?
    ensures t.apply == s.apply
    decreases |steps|
  {
    if steps == [] {
    } else {
      assert forall i | 0 <= i < |steps[1..]| :: steps[1..][i] == steps[i + 1];
      ReloadingStays(Next(s, steps[0]), steps[1..], t);
    }
  }

  /** The step with which the apply calls Reload. */
  lemma {:induction false} FindsCall(s: State, steps: seq<Step>, t: State) returns (k: nat, u: State)
    requires Run(s, steps, t) && s.apply.Installed? && t.apply.Reloading?
    requires forall i | 0 <= i < |steps| :: !steps[i].EndApply?
    ensures k < |steps| && steps[k].CallReload? && steps[k].forApply && steps[k].call == t.apply.call
    ensures Run(s, steps[..k], u) && Enabled(u, steps[k]) && Run(Next(u, steps[k]), steps[k + 1..], t)
    decreases |steps|
  {
    var next := Next(s, steps[0]);
    assert forall i | 0 <= i < |steps[1..]| :: steps[1..][i] == steps[i + 1];
    if next.apply.Reloading? {
      ReloadingStays(next, steps[1..], t);
      k, u := 0, s;
    } else {
      k, u := FindsCall(next, steps[1..], t);
      k := k + 1;
      assert steps[..k][1..] == steps[1..][..k - 1] && steps[1..][k..] == steps[k + 1..];
    }
  }

  lemma {:induction false} RunConcat(s: State, a: seq<Step>, t: State, b: seq<Step>, u: State)
    requires Run(s, a, t) && Run(t, b, u)
    ensures Run(s, a + b, u)
    decreases |a|
  {
    if a == [] {
      assert a + b == b;
    } else {
      RunConcat(Next(s, a[0]), a[1..], t, b, u);
      assert (a + b)[1..] == a[1..] + b;
    }
  }

  /** The history with one more entry, of which the newest twenty are kept. */
  function Grown(h: seq<Archived>, a: Archived): seq<Archived> { if |h| < HISTORY_KEEP then h + [a] else h[|h| - (HISTORY_KEEP - 1)..] + [a] }

  lemma OneMoreInFront(s: State, steps: seq<Step>, j: nat, u: State)
    requires |steps| >= 2 && Enabled(s, steps[0]) && j <= |steps| - 2
    requires Run(Next(s, steps[0]), steps[1..|steps| - 1][..j], u)
    ensures Run(s, steps[..j + 1], u)
  {
    assert steps[..j + 1][1..] == steps[1..|steps| - 1][..j];
  }

  /** The steps of an Apply: up to its call of Reload in state u, on to the state in which it ends, and the end. */
  lemma ApplySteps(s: State, steps: seq<Step>, t: State) returns (k: nat, u: State, rest: seq<Step>, end: State)
    requires Inv(s) && Run(s, steps, t) && OneApply(steps)
    ensures 0 < k < |steps| - 1 && steps[k].CallReload? && steps[k].forApply
    ensures Run(s, steps[..k], u) && Enabled(u, steps[k]) && Run(Next(u, steps[k]), rest, end)
    ensures Enabled(end, Last(steps)) && t == Next(end, Last(steps)) && Inv(end)
    ensures end.apply == Reloading(steps[0].conf, steps[0].graph, s.current, s.history, steps[k].call)
    ensures end.current == steps[0].conf && end.history == s.history
  {
    var middle;
    middle, end := ApplyMiddle(s, steps, t);
    var begun := Next(s, steps[0]);
    ApplyRemembers(begun, middle, end);
    StepKeepsInv(s, steps[0]);
    RunKeepsInv(begun, middle, end);
    var j;
    j, u := FindsCall(begun, middle, end);
    k, rest := j + 1, middle[j + 1..];
    OneMoreInFront(s, steps, j, u);
  }

  /** The call an Apply makes, what it returned, and the state in which the Apply ends. */
  lemma ApplysCall(initial: string, before: seq<Step>, s: State, steps: seq<Step>, t: State) returns (k: nat, u: State, end: State)
    requires Run(Fresh(initial), before, s) && Run(s, steps, t) && OneApply(steps)
    ensures 0 < k < |steps| - 1 && steps[k].CallReload? && steps[k].forApply && Run(s, steps[..k], u)
    ensures Enabled(end, Last(steps)) && t == Next(end, Last(steps)) && Inv(end)
    ensures end.apply == Reloading(steps[0].conf, steps[0].graph, s.current, s.history, steps[k].call)
    ensures end.current == steps[0].conf && end.history == s.history
    ensures steps[k].call in end.core.waits <==> Starts(u.core, steps[k].signalOk)
    ensures end.calls[steps[k].call].result
         == if Starts(u.core, steps[k].signalOk) then Returned(end.core.waits[steps[k].call].inbox) else Err(NotStarted(u.core))
  {
    RunKeepsInv(Fresh(initial), before, s);
    var rest;
    k, u, rest, end := ApplySteps(s, steps, t);
    RunConcat(Fresh(initial), before, s, steps[..k], u);
    ReloadSaysWhy(initial, before + steps[..k], u, steps[k].call, steps[k].signalOk, true, rest, end);
  }

  /**
   What an Apply leaves behind, whatever is interleaved with it. Step k is its call of Reload, taken
   in state u. The new config stays installed and is archived last, of at most twenty, exactly when
   no child was running then, or the reload started and its own wait was told "loaded". In every
   other case, refused, child gone, unconfirmed, busy or no signal, all is as the Apply found it.
   */
  lemma ApplyOutcome(initial: string, before: seq<Step>, s: State, steps: seq<Step>, t: State) returns (k: nat, u: State)
    requires Run(Fresh(initial), before, s) && Run(s, steps, t) && OneApply(steps)
    ensures 0 < k < |steps| - 1 && steps[k].CallReload? && steps[k].forApply && Run(s, steps[..k], u)
    ensures Starts(u.core, steps[k].signalOk) ==> steps[k].call in t.core.waits
    ensures var kept := !u.core.child
                        || (Starts(u.core, steps[k].signalOk) && t.core.waits[steps[k].call].inbox == Some(Loaded));
            && (kept ==> t.current == steps[0].conf
                         && t.history == Grown(s.history, Archived(Last(steps).id, steps[0].conf, steps[0].graph)))
            && (!kept ==> t.current == s.current && t.history == s.history)
  {
    var end;
    k, u, end := ApplysCall(initial, before, s, steps, t);
    assert t.core == end.core;
  }

  /** The graph shown is that of the newest archived entry with the installed config, if there is one. */
  lemma {:induction false} ActiveGraphIs(h: seq<Archived>, current: string)
    ensures ActiveGraph(h, current).None? <==> forall a | a in h :: a.conf != current
    ensures ActiveGraph(h, current).Some? ==>
      exists i | 0 <= i < |h| :: h[i].conf == current && ActiveGraph(h, current) == Some(h[i].graph)
                                 && forall j | i < j < |h| :: h[j].conf != current
  {
    if h == [] {
    } else {
      var init, last := h[..|h| - 1], h[|h| - 1];
      ActiveGraphIs(init, current);
      assert h == init + [last];
    }
  }
}
