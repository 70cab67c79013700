/**
 The lifecycle of a generator job: start, halt, edit, delete and run exit as atomic steps, and
 what every interleaving of them keeps (apps/syslog-hose/internal/engine/job.go, manager.go).
 */
module JobLifecycle {
  import opened Common

  datatype Config = Config(name: string, maxEvents: int)

  datatype JobState = Idle | Running | Stopping

  /** The mutex-guarded fields; `cancel` and `done` name the run they belong to. */
  datatype Job = Job(cfg: Config, state: JobState, deleted: bool, cancel: Option<nat>, done: Option<nat>, sent: nat)

  datatype StartResult = Started | NotFound | AlreadyRunning | StillStopping | NoPreset

  function StartOutcome(j: Job, presetFound: bool): StartResult {
    if j.deleted then NotFound
    else if j.state == Running then AlreadyRunning
    else if j.state == Stopping then StillStopping
    else if !presetFound then NoPreset
    else Started
  }

  function StartedJob(j: Job, run: nat, presetFound: bool): Job {
    if StartOutcome(j, presetFound) == Started
    then j.(state := Running, cancel := Some(run), done := Some(run), sent := 0)
    else j
  }

  function FinishedJob(j: Job): Job { j.(state := Idle, cancel := None) }

  function HaltedJob(j: Job): Job { if j.state == Idle then j else j.(state := Stopping) }

  function EditedJob(j: Job, cfg: Config): Job { if j.state == Idle then j.(cfg := cfg) else j }

  // ----- the critical sections on the job's own fields

  class JobRecord {
    var cfg: Config
    var state: JobState
    var deleted: bool
    var cancel: Option<nat>
    var done: Option<nat>
    var sent: nat

    function View(): Job
      reads this
    {
      Job(cfg, state, deleted, cancel, done, sent)
    }

    constructor (cfg: Config)
      ensures View() == Job(cfg, Idle, false, None, None, 0)
    {
      this.cfg, state, deleted, cancel, done, sent := cfg, Idle, false, None, None, 0;
    }

    /** The locked part of start; `run` identifies the fresh context and done channel. */
    method Start(run: nat, presetFound: bool) returns (r: StartResult, copy: Config)
      modifies this
      ensures r == StartOutcome(old(View()), presetFound)
      ensures r == Started <==> !old(deleted) && old(state) == Idle && presetFound
      ensures r == Started ==> state == Running && cancel == done == Some(run) && sent == 0
      ensures View() == StartedJob(old(View()), run, presetFound)
      ensures copy == old(cfg)
    {
      copy := cfg;
      if deleted {
        return NotFound, copy;
      }
      match state {
        case Running => return AlreadyRunning, copy;
        case Stopping => return StillStopping, copy;
        case Idle =>
      }
      if !presetFound {
        return NoPreset, copy;
      }
      state := Running;
      cancel := Some(run);
      done := Some(run);
      sent := 0;
      r := Started;
    }

    /** The locked part of finish; returns the context it cancels. */
    method Finish() returns (cancelled: Option<nat>)
      modifies this
      ensures View() == FinishedJob(old(View())) && cancelled == old(cancel)
      ensures state == Idle && cancel == None
    {
      cancelled := None;
      if cancel.Some? {
        cancelled := cancel;
        cancel := None;
      }
      state := Idle;
    }

    /** The locked part of halt; `wait` is the done channel to wait for, if any. */
    method Halt() returns (cancelled: Option<nat>, wait: Option<nat>)
      modifies this
      ensures View() == HaltedJob(old(View()))
      ensures state == if old(state) == Idle then Idle else Stopping
      ensures cancelled == if old(state) == Idle then None else old(cancel)
      ensures wait == if old(state) == Idle then None else old(done)
    {
      if state == Idle {
        return None, None;
      }
      cancelled := cancel;
      state := Stopping;
      wait := done;
    }

    method SetConfig(newCfg: Config) returns (ok: bool)
      modifies this
      ensures View() == EditedJob(old(View()), newCfg) && (ok <==> old(state) == Idle)
      ensures cfg == if ok then newCfg else old(cfg)
    {
      if state != Idle {
        return false;
      }
      cfg := newCfg;
      ok := true;
    }

    method MarkDeleted()
      modifies this
      ensures View() == old(View()).(deleted := true)
    {
      deleted := true;
    }
  }

  // ----- the whole system: the job, its runs, and the callers waiting in halt

  /** Dialing and Live own the job; Leaving has yet to take the lock in finish; Closing has yet to close done. */
  datatype Phase = Dialing | Live | CheckingLimit | Leaving | Closing | Gone

  datatype Run = Run(cfg: Config, phase: Phase, cancelled: bool, closes: nat)

  datatype Halter = Waiting(run: Option<nat>, forDelete: bool) | Returned(ok: bool, waited: Option<nat>, forDelete: bool)

  datatype State = State(job: Job, runs: map<nat, Run>, halts: map<nat, Halter>)

  function Fresh(cfg: Config): State { State(Job(cfg, Idle, false, None, None, 0), map[], map[]) }

  datatype Step =
    | Start(run: nat, presetFound: bool)
    | DialOk(run: nat)
    | DialFails(run: nat)
    | SendOk(run: nat)
    | SendFails(run: nat)
    | CheckLimit(run: nat)
    | Leave(run: nat)          // context ended or duration over
    | FinishRun(run: nat)      // finish: the critical section
    | CloseDone(run: nat)      // finish: close(done)
    | HaltBegins(caller: nat, forDelete: bool)
    | HaltSeesDone(caller: nat)
    | HaltTimesOut(caller: nat)
    | Edit(cfg: Config)
    | MarkDelete

  predicate InPhase(s: State, r: nat, p: Phase) { r in s.runs && s.runs[r].phase == p }

  predicate Enabled(s: State, step: Step) {
    match step
    case Start(r, _) => r !in s.runs
    case DialOk(r) => InPhase(s, r, Dialing)
    case DialFails(r) => InPhase(s, r, Dialing)
    case SendOk(r) => InPhase(s, r, Live)
    case SendFails(r) => InPhase(s, r, Live)
    case CheckLimit(r) => InPhase(s, r, CheckingLimit)
    case Leave(r) => InPhase(s, r, Live)
    case FinishRun(r) => InPhase(s, r, Leaving)
    case CloseDone(r) => InPhase(s, r, Closing)
    // Delete marks the job before it halts it
    case HaltBegins(h, forDelete) => h !in s.halts && (forDelete ==> s.job.deleted)
    case HaltSeesDone(h) =>
      h in s.halts && s.halts[h].Waiting? && s.halts[h].run.Some?
      && s.halts[h].run.value in s.runs && s.runs[s.halts[h].run.value].closes > 0
    case HaltTimesOut(h) => h in s.halts && s.halts[h].Waiting?
    case Edit(_) => true
    case MarkDelete => true
  }

  function SetPhase(s: State, r: nat, p: Phase): State
    requires r in s.runs
  {
    s.(runs := s.runs[r := s.runs[r].(phase := p)])
  }

  function Cancel(runs: map<nat, Run>, which: Option<nat>): map<nat, Run> {
    if which.Some? && which.value in runs then runs[which.value := runs[which.value].(cancelled := true)] else runs
  }

  function Next(s: State, step: Step): State
    requires Enabled(s, step)
  {
    match step
    case Start(r, found) =>
      if StartOutcome(s.job, found) == Started
      then s.(job := StartedJob(s.job, r, found), runs := s.runs[r := Run(s.job.cfg, Dialing, false, 0)])
      else s
    case DialOk(r) => SetPhase(s, r, Live)
    case DialFails(r) => SetPhase(s, r, Leaving)
    case SendOk(r) => SetPhase(s.(job := s.job.(sent := s.job.sent + 1)), r, CheckingLimit)
    case SendFails(r) => SetPhase(s, r, if s.runs[r].cancelled then Leaving else CheckingLimit)
    case CheckLimit(r) =>
      var limit := s.runs[r].cfg.maxEvents;
      SetPhase(s, r, if limit > 0 && s.job.sent >= limit then Leaving else Live)
    case Leave(r) => SetPhase(s, r, Leaving)
    case FinishRun(r) => SetPhase(s.(job := FinishedJob(s.job), runs := Cancel(s.runs, s.job.cancel)), r, Closing)
    case CloseDone(r) => s.(runs := s.runs[r := s.runs[r].(phase := Gone, closes := s.runs[r].closes + 1)])
    case HaltBegins(h, forDelete) =>
      if s.job.state == Idle then s.(halts := s.halts[h := Returned(true, None, forDelete)])
      else s.(job := HaltedJob(s.job), runs := Cancel(s.runs, s.job.cancel),
              halts := s.halts[h := Waiting(s.job.done, forDelete)])
    case HaltSeesDone(h) =>
      s.(halts := s.halts[h := Returned(true, s.halts[h].run, s.halts[h].forDelete)])
    case HaltTimesOut(h) =>
      s.(halts := s.halts[h := Returned(false, s.halts[h].run, s.halts[h].forDelete)])
    case Edit(cfg) => s.(job := EditedJob(s.job, cfg))
    case MarkDelete => s.(job := s.job.(deleted := true))
  }

  // ----- invariants

  /** A run that has not yet given the job back. */
  predicate Active(r: Run) { r.phase == Dialing || r.phase == Live || r.phase == CheckingLimit || r.phase == Leaving }

  ghost predicate ActiveIn(s: State, r: nat) { r in s.runs && Active(s.runs[r]) }

  /** A busy job has exactly one active run, which it can cancel and wait for, and whose config is its own. */
  ghost predicate Owned(s: State) {
    && (s.job.state == Idle ==> s.job.cancel == None && forall r :: !ActiveIn(s, r))
    && (s.job.state != Idle ==>
          && s.job.cancel.Some? && s.job.done == s.job.cancel
          && ActiveIn(s, s.job.cancel.value) && s.runs[s.job.cancel.value].cfg == s.job.cfg
          && forall r :: ActiveIn(s, r) ==> r == s.job.cancel.value)
    && (s.job.state == Stopping ==> s.runs[s.job.cancel.value].cancelled)
    && (s.job.state == Running ==> !s.runs[s.job.cancel.value].cancelled)
    && (s.job.done.Some? ==> s.job.done.value in s.runs)
  }

  ghost predicate ClosedOnce(s: State) {
    forall r | r in s.runs :: s.runs[r].closes == if s.runs[r].phase == Gone then 1 else 0
  }

  /** The counter against the limit of the run that counts, strict while it may still send. */
  ghost predicate WithinLimit(s: State) {
    s.job.done.Some? && s.job.done.value in s.runs ==>
      var r := s.runs[s.job.done.value];
      && (r.cfg.maxEvents > 0 ==> s.job.sent <= r.cfg.maxEvents)
      && (r.cfg.maxEvents > 0 && (r.phase == Dialing || r.phase == Live) ==> s.job.sent < r.cfg.maxEvents)
  }

  ghost predicate HaltOk(s: State, h: Halter) {
    match h
    case Waiting(r, forDelete) =>
      r.Some? && r.value in s.runs && (forDelete ==> s.job.deleted && (s.job.state == Idle || s.job.done == r))
    case Returned(ok, r, forDelete) =>
      && (ok && r.Some? ==> r.value in s.runs && s.runs[r.value].phase == Gone)
      && (ok && forDelete ==> s.job.deleted && s.job.state == Idle)
  }

  ghost predicate HaltsOk(s: State) { forall h | h in s.halts :: HaltOk(s, s.halts[h]) }

  ghost predicate Inv(s: State) { Owned(s) && ClosedOnce(s) && WithinLimit(s) && HaltsOk(s) }

  lemma OwnedKept(s: State, step: Step)
    requires Inv(s) && Enabled(s, step)
    ensures Owned(Next(s, step))
  {
    var t := Next(s, step);
    if step.Start? && StartOutcome(s.job, step.presetFound) == Started {
      assert forall r :: ActiveIn(t, r) ==> r == step.run || ActiveIn(s, r);
    } else if step.FinishRun? {
      var run := step.run;
      assert ActiveIn(s, run);
      assert forall r :: ActiveIn(t, r) ==> ActiveIn(s, r) && r != run;
    } else {
      assert forall r :: ActiveIn(t, r) <==> ActiveIn(s, r);
    }
  }

  lemma LimitKept(s: State, step: Step)
    requires Inv(s) && Enabled(s, step)
    ensures WithinLimit(Next(s, step))
  {
    if step.SendOk? { assert ActiveIn(s, step.run); }
  }

  lemma ClosesKept(s: State, step: Step)
    requires ClosedOnce(s) && Enabled(s, step)
    ensures ClosedOnce(Next(s, step))
  {
  }

  lemma HaltsKept(s: State, step: Step)
    requires Inv(s) && Enabled(s, step)
    ensures HaltsOk(Next(s, step))
  {
    var t := Next(s, step);
    forall h | h in t.halts ensures HaltOk(t, t.halts[h]) {
      if h in s.halts { assert HaltOk(s, s.halts[h]); }
      if step.HaltSeesDone? && step.caller == h {
        assert !ActiveIn(s, s.halts[h].run.value);
      }
    }
  }

  lemma StepKeepsInv(s: State, step: Step)
    requires Inv(s) && Enabled(s, step)
    ensures Inv(Next(s, step))
  {
    OwnedKept(s, step);
    LimitKept(s, step);
    ClosesKept(s, step);
    HaltsKept(s, step);
  }

  ghost predicate Trace(s: State, steps: seq<Step>, t: State)
    decreases |steps|
  {
    if steps == [] then s == t
    else Enabled(s, steps[0]) && Trace(Next(s, steps[0]), steps[1..], t)
  }

  lemma {:induction false} TraceKeepsInv(s: State, steps: seq<Step>, t: State)
    requires Inv(s) && Trace(s, steps, t)
    ensures Inv(t)
    decreases |steps|
  {
    if steps == [] {
    } else {
      StepKeepsInv(s, steps[0]);
      TraceKeepsInv(Next(s, steps[0]), steps[1..], t);
    }
  }

  /** At most one run owns the job at a time, and it works on the job's current config. */
  lemma OneRunWithTheJobsConfig(cfg: Config, steps: seq<Step>, t: State, a: nat, b: nat)
    requires Trace(Fresh(cfg), steps, t) && ActiveIn(t, a) && ActiveIn(t, b)
    ensures a == b && t.runs[a].cfg == t.job.cfg && t.job.state != Idle
  {
    TraceKeepsInv(Fresh(cfg), steps, t);
  }

  /** The state a job shows is true: idle without a run, running with a live one, stopping with a cancelled one. */
  lemma StatusIsTrue(cfg: Config, steps: seq<Step>, t: State)
    requires Trace(Fresh(cfg), steps, t)
    ensures t.job.state == Idle <==> forall r :: !ActiveIn(t, r)
    ensures t.job.state == Running <==> exists r :: ActiveIn(t, r) && !t.runs[r].cancelled
    ensures t.job.state == Stopping <==> exists r :: ActiveIn(t, r) && t.runs[r].cancelled
  {
    TraceKeepsInv(Fresh(cfg), steps, t);
  }

  /** No run's done channel is ever closed twice, and a finished run has closed it. */
  lemma DoneClosedOnce(cfg: Config, steps: seq<Step>, t: State, r: nat)
    requires Trace(Fresh(cfg), steps, t) && r in t.runs
    ensures t.runs[r].closes <= 1 && (t.runs[r].phase == Gone <==> t.runs[r].closes == 1)
  {
    TraceKeepsInv(Fresh(cfg), steps, t);
  }

  /** The events counted for the latest run never exceed its positive limit. */
  lemma NeverOverLimit(cfg: Config, steps: seq<Step>, t: State)
    requires Trace(Fresh(cfg), steps, t) && t.job.done.Some?
    ensures t.job.done.value in t.runs
    ensures t.runs[t.job.done.value].cfg.maxEvents > 0 ==> t.job.sent <= t.runs[t.job.done.value].cfg.maxEvents
  {
    TraceKeepsInv(Fresh(cfg), steps, t);
  }

  lemma {:induction false} ReturnedStays(s: State, steps: seq<Step>, t: State, h: nat)
    requires h in s.halts && s.halts[h].Returned? && Trace(s, steps, t)
    ensures h in t.halts && t.halts[h] == s.halts[h]
    decreases |steps|
  {
    if steps == [] {
    } else {
      ReturnedStays(Next(s, steps[0]), steps[1..], t, h);
    }
  }

  /** Once a Delete's halt has returned nil, no run is active then or at any later time. */
  lemma NoRunAfterDelete(cfg: Config, before: seq<Step>, s: State, after: seq<Step>, t: State, h: nat, r: nat)
    requires Trace(Fresh(cfg), before, s) && h in s.halts && s.halts[h].Returned? && s.halts[h].ok && s.halts[h].forDelete
    requires Trace(s, after, t)
    ensures !ActiveIn(t, r) && StartOutcome(t.job, true) == NotFound
  {
    TraceKeepsInv(Fresh(cfg), before, s);
    TraceKeepsInv(s, after, t);
    ReturnedStays(s, after, t, h);
    assert HaltOk(t, t.halts[h]);
  }

  /** Any halt that returns nil after waiting has outlived the run it stopped. */
  lemma HaltMeansGone(cfg: Config, steps: seq<Step>, t: State, h: nat)
    requires Trace(Fresh(cfg), steps, t) && h in t.halts && t.halts[h].Returned? && t.halts[h].ok && t.halts[h].waited.Some?
    ensures InPhase(t, t.halts[h].waited.value, Gone)
  {
    TraceKeepsInv(Fresh(cfg), steps, t);
    assert HaltOk(t, t.halts[h]);
  }

  // ----- the events a run sends

  /** How many events run r has sent in these steps. */
  function SendsOf(steps: seq<Step>, r: nat): nat {
    if steps == [] then 0 else SendsOf(steps[..|steps| - 1], r) + if steps[|steps| - 1] == SendOk(r) then 1 else 0
  }

  /** Why a run may leave: it was cancelled, its dial failed, its time or context ended, or it has sent its limit. */
  ghost predicate Excused(steps: seq<Step>, r: nat, run: Run) {
    || run.cancelled || DialFails(r) in steps || Leave(r) in steps
    || (run.cfg.maxEvents > 0 && SendsOf(steps, r) == run.cfg.maxEvents)
  }

  ghost predicate RunTallied(s: State, steps: seq<Step>, r: nat)
    requires r in s.runs
  {
    var run := s.runs[r];
    && (s.job.done == Some(r) ==> s.job.sent == SendsOf(steps, r))
    && (run.cfg.maxEvents > 0 ==> SendsOf(steps, r) <= run.cfg.maxEvents)
    && (run.phase.Leaving? ==> Excused(steps, r, run))
  }

  /** The counter of the latest run, and every run's limit, in terms of the events sent so far. */
  ghost predicate Tallied(s: State, steps: seq<Step>) {
    && (forall r | r in s.runs :: RunTallied(s, steps, r))
    && (forall r: nat | r !in s.runs :: SendsOf(steps, r) == 0)
  }

  lemma OneMoreSend(steps: seq<Step>, step: Step, r: nat)
    ensures SendsOf(steps + [step], r) == SendsOf(steps, r) + if step == SendOk(r) then 1 else 0
    ensures forall x | x in steps :: x in steps + [step]
    ensures step in steps + [step]
  {
    assert (steps + [step])[..|steps|] == steps;
  }

  lemma StepCountsRun(s: State, steps: seq<Step>, step: Step, r: nat)
    requires Inv(s) && Tallied(s, steps) && Enabled(s, step) && r in Next(s, step).runs
    ensures var t := Next(s, step);
            && (t.job.done == Some(r) ==> t.job.sent == SendsOf(steps + [step], r))
            && (t.runs[r].cfg.maxEvents > 0 ==> SendsOf(steps + [step], r) <= t.runs[r].cfg.maxEvents)
  {
    OneMoreSend(steps, step, r);
    if step.SendOk? { assert ActiveIn(s, step.run); }
    if r in s.runs { assert RunTallied(s, steps, r); }
  }

  lemma StaysExcused(steps: seq<Step>, step: Step, r: nat, run: Run)
    requires Excused(steps, r, run) && step != SendOk(r)
    ensures Excused(steps + [step], r, run)
  {
    OneMoreSend(steps, step, r);
  }

  lemma StepExcusesRun(s: State, steps: seq<Step>, step: Step, r: nat)
    requires Inv(s) && Tallied(s, steps) && Enabled(s, step) && InPhase(Next(s, step), r, Leaving)
    ensures Excused(steps + [step], r, Next(s, step).runs[r])
  {
    OneMoreSend(steps, step, r);
    assert r in s.runs && RunTallied(s, steps, r);
    if s.runs[r].phase.Leaving? {
      StaysExcused(steps, step, r, s.runs[r]);
    } else if step == CheckLimit(r) {
      assert ActiveIn(s, r);
    }
  }

  lemma StepTalliesRun(s: State, steps: seq<Step>, step: Step, r: nat)
    requires Inv(s) && Tallied(s, steps) && Enabled(s, step) && r in Next(s, step).runs
    ensures RunTallied(Next(s, step), steps + [step], r)
  {
    StepCountsRun(s, steps, step, r);
    if Next(s, step).runs[r].phase.Leaving? { StepExcusesRun(s, steps, step, r); }
  }

  lemma StepTallies(s: State, steps: seq<Step>, step: Step)
    requires Inv(s) && Tallied(s, steps) && Enabled(s, step)
    ensures Tallied(Next(s, step), steps + [step])
  {
    forall r | r in Next(s, step).runs ensures RunTallied(Next(s, step), steps + [step], r) {
      StepTalliesRun(s, steps, step, r);
    }
    forall r: nat | r !in Next(s, step).runs ensures SendsOf(steps + [step], r) == 0 {
      OneMoreSend(steps, step, r);
    }
  }

  lemma {:induction false} TraceTallies(s: State, past: seq<Step>, steps: seq<Step>, t: State)
    requires Inv(s) && Tallied(s, past) && Trace(s, steps, t)
    ensures Inv(t) && Tallied(t, past + steps)
    decreases |steps|
  {
    if steps == [] {
      assert past + steps == past;
    } else {
      StepKeepsInv(s, steps[0]);
      StepTallies(s, past, steps[0]);
      TraceTallies(Next(s, steps[0]), past + [steps[0]], steps[1..], t);
      assert past + [steps[0]] + steps[1..] == past + steps;
    }
  }

  /**
   Over every trace a run sends at most its positive limit of events; while it owns the job the
   counter shown is exactly the number of events it has sent.
   */
  lemma SendsAtMostLimit(cfg: Config, steps: seq<Step>, t: State, r: nat)
    requires Trace(Fresh(cfg), steps, t) && r in t.runs
    ensures t.runs[r].cfg.maxEvents > 0 ==> SendsOf(steps, r) <= t.runs[r].cfg.maxEvents
    ensures ActiveIn(t, r) ==> t.job.sent == SendsOf(steps, r)
  {
    TraceTallies(Fresh(cfg), [], steps, t);
    assert [] + steps == steps;
    assert RunTallied(t, steps, r);
  }

  /** A run leaves only when it was halted, could not dial, its time or context ended, or it has sent its whole limit. */
  lemma LeavesForAReason(cfg: Config, steps: seq<Step>, t: State, r: nat)
    requires Trace(Fresh(cfg), steps, t) && InPhase(t, r, Leaving)
    ensures Excused(steps, r, t.runs[r])
  {
    TraceTallies(Fresh(cfg), [], steps, t);
    assert [] + steps == steps;
    assert RunTallied(t, steps, r);
  }

  // ----- starting

  lemma {:induction false} DeletedIfMarked(s: State, steps: seq<Step>, t: State)
    requires Trace(s, steps, t)
    ensures t.job.deleted <==> s.job.deleted || MarkDelete in steps
    decreases |steps|
  {
    if steps != [] {
      assert MarkDelete in steps <==> steps[0] == MarkDelete || MarkDelete in steps[1..];
      DeletedIfMarked(Next(s, steps[0]), steps[1..], t);
    }
  }

  /**
   After any trace a start with a known preset makes a run with the job's own config, its counter at
   zero, exactly if the job is idle and Delete has not marked it; otherwise it changes nothing.
   */
  lemma StartsUnlessMarked(cfg: Config, steps: seq<Step>, t: State, r: nat)
    requires Trace(Fresh(cfg), steps, t) && r !in t.runs
    ensures Enabled(t, Start(r, true))
    ensures var u := Next(t, Start(r, true));
            if t.job.state == Idle && MarkDelete !in steps
            then ActiveIn(u, r) && u.runs[r] == Run(t.job.cfg, Dialing, false, 0) && u.job.state == Running && u.job.sent == 0
            else u == t
  {
    DeletedIfMarked(Fresh(cfg), steps, t);
  }
}
