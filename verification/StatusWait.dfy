/**
 * The barrier poll loop of cli/commands/noWaitWorker.js (`waitForRunScopedStatus`)
 * against arbitrary clock answers, file reads and process-liveness answers.
 *
 * `Verdict` says what an iteration must do in terms of the whole poll history; the
 * method keeps only the loop's own variables and is proved to follow it.
 */
module StatusWait {
  import opened Common
  import opened NoWaitProtocol

  datatype Read = Missing | Unreadable | Doc(doc: StatusDocument)

  /** One iteration's answers; `alive` is the liveness of the last published pid. */
  datatype Poll = Poll(now: int, read: Read, alive: bool)

  datatype Config = Config(scope: RunScope, t: Timeouts, pollInterval: int)

  datatype Reason = InvalidStatus | WorkerExited | RemainedUnreadable | TimedOut

  datatype Verdict = Sleep(ms: int) | Return(terminal: Terminal) | Throw(reason: Reason)

  // -------- What a poll history means --------

  function Observe(c: Config, p: Poll): Observation
    requires p.read.Doc?
  {
    ResolveObservation(p.read.doc, c.scope, c.t, p.now)
  }

  /** The last poll up to `i` that read a document, or -1. */
  function LastDoc(s: seq<Poll>, i: int): (l: int)
    requires -1 <= i < |s|
    ensures -1 <= l <= i && (l >= 0 ==> s[l].read.Doc?)
    decreases i
  {
    if i < 0 || s[i].read.Doc? then i else LastDoc(s, i - 1)
  }

  /** Unreadable, or missing although a document had been read before. */
  predicate IsFault(s: seq<Poll>, i: int)
    requires 0 <= i < |s|
  {
    s[i].read.Unreadable? || (s[i].read.Missing? && LastDoc(s, i) >= 0)
  }

  predicate FoundDead(s: seq<Poll>, i: int)
    requires 0 <= i < |s|
  {
    LastDoc(s, i) >= 0 && !s[i].alive
  }

  /** A document and a live pid in the same iteration. */
  predicate FoundLive(s: seq<Poll>, i: int)
    requires 0 <= i < |s|
  {
    s[i].read.Doc? && s[i].alive
  }

  /** `j` opened the read gap that `i` is still in. */
  predicate OpensGap(s: seq<Poll>, j: int, i: int)
    requires 0 <= j <= i < |s|
  {
    && LastDoc(s, i) < j
    && IsFault(s, j)
    && forall m | LastDoc(s, i) < m < j :: !IsFault(s, m)
  }

  /** `j` is the first dead answer since a document and a live pid last came together. */
  predicate OpensExit(s: seq<Poll>, j: int, i: int)
    requires 0 <= j <= i < |s|
  {
    && FoundDead(s, j)
    && (forall m | j <= m <= i :: !FoundLive(s, m))
    && (forall m | 0 <= m < j && FoundDead(s, m) :: exists k | m < k < j :: FoundLive(s, k))
  }

  function FirstFault(s: seq<Poll>, i: int): (f: Option<nat>)
    requires -1 <= i < |s|
    ensures f.Some? ==> f.value <= i
    decreases i
  {
    if i < 0 || s[i].read.Doc? then None
    else
      var earlier := FirstFault(s, i - 1);
      if earlier.Some? then earlier else if IsFault(s, i) then Some(i) else None
  }

  function FirstDead(s: seq<Poll>, i: int): (d: Option<nat>)
    requires -1 <= i < |s|
    ensures d.Some? ==> d.value <= i
    decreases i
  {
    if i < 0 then None
    else if FoundLive(s, i) then None
    else
      var earlier := FirstDead(s, i - 1);
      if earlier.Some? then earlier else if FoundDead(s, i) then Some(i) else None
  }

  function DocDeadline(c: Config, p: Poll): int
    requires p.read.Doc?
  {
    var o := Observe(c, p);
    if o.Active? then o.deadline else WaveBudgetEnd(c.scope.runStart, c.scope.wave, c.t)
  }

  /** The deadline of the last document, or of the first publication. */
  function PhaseDeadline(c: Config, s: seq<Poll>, i: int): int
    requires -1 <= i < |s|
  {
    var l := LastDoc(s, i);
    if l >= 0 then DocDeadline(c, s[l]) else c.scope.runStart + c.t.startupGrace
  }

  function FaultDeadline(c: Config, s: seq<Poll>, i: int): int
    requires 0 <= i < |s|
  {
    var base := PhaseDeadline(c, s, i);
    match FirstFault(s, i)
    case None => base
    case Some(j) =>
      var window := s[j].now + c.t.readRetry;
      // Before any document, an unreadable file replaces the publication deadline.
      if LastDoc(s, i) < 0 && s[i].read.Unreadable? then window else Min(base, window)
  }

  function EffectiveDeadline(c: Config, s: seq<Poll>, i: int): int
    requires 0 <= i < |s|
  {
    match FirstDead(s, i)
    case None => FaultDeadline(c, s, i)
    case Some(j) => Min(FaultDeadline(c, s, i), s[j].now + c.t.terminalGrace)
  }

  predicate PidUsable(pid: Option<int>) { pid.Some? && 0 < pid.value <= MAX_SAFE_INTEGER }

  function Expiry(c: Config, s: seq<Poll>, i: int): Reason
    requires 0 <= i < |s|
  {
    var dead := FirstDead(s, i);
    var fault := FirstFault(s, i);
    if dead.Some? && s[i].now >= s[dead.value].now + c.t.terminalGrace then WorkerExited
    else if fault.Some? && s[i].now >= s[fault.value].now + c.t.readRetry then RemainedUnreadable
    else TimedOut
  }

  function Verdicts(c: Config, s: seq<Poll>, i: int): Verdict
    requires 0 <= i < |s|
  {
    if s[i].read.Doc? && Observe(c, s[i]).Invalid? then Throw(InvalidStatus)
    else if s[i].read.Doc? && Observe(c, s[i]).Settled? then Return(Observe(c, s[i]).terminal)
    else if s[i].read.Doc? && !PidUsable(Observe(c, s[i]).pid) then Throw(InvalidStatus)
    else
      var deadline := EffectiveDeadline(c, s, i);
      if s[i].now >= deadline then Throw(Expiry(c, s, i))
      else Sleep(Min(c.pollInterval, deadline - s[i].now))
  }

  /** A read that neither ends the wait nor makes it throw. */
  predicate GoesOn(c: Config, p: Poll) {
    p.read.Doc? ==> !Observe(c, p).Invalid? && !Observe(c, p).Settled? && PidUsable(Observe(c, p).pid)
  }

  // -------- The loop --------

  function At(s: seq<Poll>, index: Option<nat>): Option<int>
    requires index.Some? ==> index.value < |s|
  {
    if index.Some? then Some(s[index.value].now) else None
  }

  /** The loop's variables before iteration `i`, tied to the history so far. */
  predicate Windows(c: Config, s: seq<Poll>, i: int, fault: Option<int>, exit: Option<int>, last: Option<int>)
    requires -1 <= i < |s|
  {
    && fault == At(s, FirstFault(s, i))
    && exit == At(s, FirstDead(s, i))
    && (exit.Some? ==> last.Some?)
    && (last.Some? <==> LastDoc(s, i) >= 0)
    && (last.Some? ==> last.value == PhaseDeadline(c, s, i))
  }

  /** The read half of one iteration: either it ends the wait, or it yields the fault-bounded deadline. */
  method ReadStatus(c: Config, s: seq<Poll>, i: nat, queued: int, fault0: Option<int>, last0: Option<int>)
    returns (ended: Option<Verdict>, deadline: int, fault: Option<int>, last: Option<int>)
    requires i < |s| && queued == WaveBudgetEnd(c.scope.runStart, c.scope.wave, c.t)
    requires fault0 == At(s, FirstFault(s, i - 1))
    requires last0.Some? <==> LastDoc(s, i - 1) >= 0
    requires last0.Some? ==> last0.value == PhaseDeadline(c, s, i - 1)
    ensures ended.Some? ==> ended.value == Verdicts(c, s, i) && !ended.value.Sleep?
    ensures ended.None? ==>
              && GoesOn(c, s[i])
              && fault == At(s, FirstFault(s, i))
              && (last.Some? <==> LastDoc(s, i) >= 0)
              && (last.Some? ==> last.value == PhaseDeadline(c, s, i))
              && deadline == FaultDeadline(c, s, i)
  {
    var now := s[i].now;
    ended, fault, last := None, fault0, last0;
    deadline := if last.Some? then last.value else c.scope.runStart + c.t.startupGrace;
    if s[i].read.Unreadable? || (s[i].read.Missing? && last.Some?) {
      if fault.None? { fault := Some(now); }
      var retryDeadline := fault.value + c.t.readRetry;
      deadline := if last.Some? then Min(deadline, retryDeadline) else retryDeadline;
    } else if !s[i].read.Missing? {
      fault := None;
      var o := ResolveObservation(s[i].read.doc, c.scope, c.t, now);
      if o.Invalid? { ended := Some(Throw(InvalidStatus)); return; }
      if o.Settled? { ended := Some(Return(o.terminal)); return; }
      deadline := if o.Queued? then queued else o.deadline;
      if !PidUsable(o.pid) { ended := Some(Throw(InvalidStatus)); return; }
      last := Some(deadline);
    } else if fault.Some? {
      deadline := Min(deadline, fault.value + c.t.readRetry);
    }
  }

  /** The liveness half of one iteration, and its sleep-or-throw decision. */
  method CheckWorker(c: Config, s: seq<Poll>, i: nat, readDeadline: int, fault: Option<int>, last: Option<int>,
                     exit0: Option<int>)
    returns (verdict: Verdict, exit: Option<int>)
    requires i < |s| && readDeadline == FaultDeadline(c, s, i)
    requires GoesOn(c, s[i])
    requires fault == At(s, FirstFault(s, i))
    requires last.Some? <==> LastDoc(s, i) >= 0
    requires exit0 == At(s, FirstDead(s, i - 1)) && (exit0.Some? ==> last.Some?)
    ensures verdict == Verdicts(c, s, i)
    ensures exit == At(s, FirstDead(s, i)) && (exit.Some? ==> last.Some?)
  {
    var now := s[i].now;
    var deadline := readDeadline;
    exit := exit0;
    if last.Some? {
      if !s[i].alive {
        if exit.None? { exit := Some(now); }
      } else if !s[i].read.Missing? && !s[i].read.Unreadable? {
        exit := None;
      }
      if exit.Some? { deadline := Min(deadline, exit.value + c.t.terminalGrace); }
    }
    if now >= deadline {
      if exit.Some? && now >= exit.value + c.t.terminalGrace { return Throw(WorkerExited), exit; }
      if fault.Some? && now >= fault.value + c.t.readRetry { return Throw(RemainedUnreadable), exit; }
      return Throw(TimedOut), exit;
    }
    verdict := Sleep(Min(c.pollInterval, deadline - now));
  }

  /**
   * Runs the loop on a script of answers. `stopped` is the first iteration that did not
   * sleep (the length of the script while every iteration slept), `slept` how long each earlier
   * one slept; `None` is the overflow
   * error raised before the loop.
   */
  method WaitForRunScopedStatus(c: Config, s: seq<Poll>)
    returns (outcome: Option<Verdict>, stopped: nat, slept: seq<int>)
    ensures outcome.None? <==> QueuedDeadline(c.scope.runStart, c.scope.wave, c.t).None?
    ensures stopped <= |s|
    ensures outcome.Some? ==> |slept| == stopped && forall i | 0 <= i < stopped :: Verdicts(c, s, i) == Sleep(slept[i])
    ensures outcome.Some? && stopped < |s| ==> outcome.value == Verdicts(c, s, stopped) && !outcome.value.Sleep?
    ensures outcome.Some? && stopped == |s| ==> outcome.value.Sleep?
  {
    stopped, slept := 0, [];
    var queued := QueuedDeadline(c.scope.runStart, c.scope.wave, c.t);
    if queued.None? { return None, 0, []; }
    var fault: Option<int> := None;
    var exit: Option<int> := None;
    var last: Option<int> := None;
    outcome := Some(Sleep(0));
    while stopped < |s|
      invariant stopped <= |s|
      invariant outcome.Some? && outcome.value.Sleep?
      invariant |slept| == stopped && forall i | 0 <= i < stopped :: Verdicts(c, s, i) == Sleep(slept[i])
      invariant Windows(c, s, stopped - 1, fault, exit, last)
    {
      var ended, deadline;
      ended, deadline, fault, last := ReadStatus(c, s, stopped, queued.value, fault, last);
      if ended.Some? { return ended, stopped, slept; }
      var verdict;
      verdict, exit := CheckWorker(c, s, stopped, deadline, fault, last, exit);
      if !verdict.Sleep? { return Some(verdict), stopped, slept; }
      outcome, slept := Some(verdict), slept + [verdict.ms];
      stopped := stopped + 1;
    }
  }

  // -------- Adversarial reads --------

  lemma {:induction false} LastDocMeaning(s: seq<Poll>, i: int)
    requires -1 <= i < |s|
    ensures forall m | LastDoc(s, i) < m <= i :: !s[m].read.Doc? && LastDoc(s, m) == LastDoc(s, i)
    decreases i
  {
    if i >= 0 && !s[i].read.Doc? { LastDocMeaning(s, i - 1); }
  }

  /** The loop's fault window starts at the poll that opened the current read gap, and only there. */
  lemma {:induction false} FirstFaultMeaning(s: seq<Poll>, i: int, j: int)
    requires 0 <= j <= i < |s|
    ensures FirstFault(s, i) == Some(j) <==> OpensGap(s, j, i)
    ensures FirstFault(s, i).None? ==> forall m | LastDoc(s, i) < m <= i :: !IsFault(s, m)
    decreases i
  {
    LastDocMeaning(s, i);
    if !s[i].read.Doc? && i > 0 {
      if j < i { FirstFaultMeaning(s, i - 1, j); }
      var earlier := FirstFault(s, i - 1);
      if earlier.Some? { FirstFaultMeaning(s, i - 1, earlier.value); }
      else { FirstFaultMeaning(s, i - 1, i - 1); }
    }
  }

  /** The exit window starts at the first dead answer not followed by a live document. */
  lemma {:induction false} FirstDeadMeaning(s: seq<Poll>, i: int, j: int)
    requires 0 <= j <= i < |s|
    ensures FirstDead(s, i) == Some(j) ==> OpensExit(s, j, i)
    ensures FirstDead(s, i).None? ==>
        forall m | 0 <= m <= i && FoundDead(s, m) :: exists k | m < k <= i :: FoundLive(s, k)
    decreases i
  {
    if i > 0 && !FoundLive(s, i) {
      if j < i { FirstDeadMeaning(s, i - 1, j); } else { FirstDeadMeaning(s, i - 1, i - 1); }
    }
  }

  lemma ExitWindowUnique(s: seq<Poll>, i: int, j: int)
    requires 0 <= j <= i < |s| && OpensExit(s, j, i)
    ensures FirstDead(s, i) == Some(j)
  {
    FirstDeadMeaning(s, i, j);
    var d := FirstDead(s, i);
    assert d.Some?;
    FirstDeadMeaning(s, i, d.value);
    assert FoundDead(s, j) && FoundDead(s, d.value);
  }

  /** Missing and unreadable reads in any mixture keep the window the first fault opened. */
  lemma {:induction false} FlappingKeepsWindow(s: seq<Poll>, i: int, k: int)
    requires 0 <= i <= k < |s| && FirstFault(s, i).Some?
    requires forall m | i < m <= k :: !s[m].read.Doc?
    ensures FirstFault(s, k) == FirstFault(s, i)
    decreases k - i
  {
    if i < k { FlappingKeepsWindow(s, i, k - 1); }
  }

  /**
   * For every script: an iteration that returns read a terminal document of its own run
   * scope in that same iteration, and an iteration that sleeps is inside every open
   * window and wakes up no later than the window ends.
   */
  lemma WindowsBoundEverySleep(c: Config, s: seq<Poll>, i: int, j: int)
    requires 0 <= j <= i < |s|
    ensures Verdicts(c, s, i).Return? ==>
              && s[i].read.Doc? && Carries(s[i].read.doc, c.scope)
              && s[i].read.doc.state == (if Verdicts(c, s, i).terminal.TerminalRunning? then Running else Failed)
    ensures Verdicts(c, s, i).Sleep? && OpensGap(s, j, i) ==>
              s[i].now + Verdicts(c, s, i).ms <= s[j].now + c.t.readRetry && s[i].now < s[j].now + c.t.readRetry
    ensures Verdicts(c, s, i).Sleep? && OpensExit(s, j, i) ==>
              s[i].now + Verdicts(c, s, i).ms <= s[j].now + c.t.terminalGrace && s[i].now < s[j].now + c.t.terminalGrace
  {
    if OpensGap(s, j, i) { FirstFaultMeaning(s, i, j); }
    if OpensExit(s, j, i) { ExitWindowUnique(s, i, j); }
  }

  // -------- Exactly why an iteration ends or goes on --------

  predicate GapEndsBy(c: Config, s: seq<Poll>, i: int, now: int)
    requires 0 <= i < |s|
  {
    exists j | 0 <= j <= i :: OpensGap(s, j, i) && now >= s[j].now + c.t.readRetry
  }

  predicate ExitEndsBy(c: Config, s: seq<Poll>, i: int, now: int)
    requires 0 <= i < |s|
  {
    exists j | 0 <= j <= i :: OpensExit(s, j, i) && now >= s[j].now + c.t.terminalGrace
  }

  predicate IsLastDoc(s: seq<Poll>, l: int, i: int)
    requires 0 <= l <= i < |s|
  {
    s[l].read.Doc? && forall m | l < m <= i :: !s[m].read.Doc?
  }

  /** The end of the phase a document speaks of. */
  function OwnEnd(c: Config, p: Poll): int
    requires p.read.Doc?
  {
    if Observe(c, p).Active? then p.read.doc.phaseStart.value + PerWave(c.t)
    else WaveBudgetEnd(c.scope.runStart, c.scope.wave, c.t)
  }

  /**
   * The last document's own deadline has come; or there was none, the file is not unreadable right now, and
   * the publication deadline has come.
   */
  predicate PhaseEndsBy(c: Config, s: seq<Poll>, i: int, now: int)
    requires 0 <= i < |s|
  {
    || (exists l | 0 <= l <= i :: IsLastDoc(s, l, i) && now >= OwnEnd(c, s[l]))
    || (&& (forall m | 0 <= m <= i :: !s[m].read.Doc?) && !s[i].read.Unreadable?
        && now >= c.scope.runStart + c.t.startupGrace)
  }

  lemma GapMeaning(c: Config, s: seq<Poll>, i: int, now: int)
    requires 0 <= i < |s|
    ensures GapEndsBy(c, s, i, now) <==> FirstFault(s, i).Some? && now >= s[FirstFault(s, i).value].now + c.t.readRetry
  {
    if FirstFault(s, i).Some? { FirstFaultMeaning(s, i, FirstFault(s, i).value); }
    if j :| 0 <= j <= i && OpensGap(s, j, i) && now >= s[j].now + c.t.readRetry { FirstFaultMeaning(s, i, j); }
  }

  lemma ExitMeaning(c: Config, s: seq<Poll>, i: int, now: int)
    requires 0 <= i < |s|
    ensures ExitEndsBy(c, s, i, now) <==>
              FirstDead(s, i).Some? && now >= s[FirstDead(s, i).value].now + c.t.terminalGrace
  {
    if FirstDead(s, i).Some? { FirstDeadMeaning(s, i, FirstDead(s, i).value); }
    if j :| 0 <= j <= i && OpensExit(s, j, i) && now >= s[j].now + c.t.terminalGrace { ExitWindowUnique(s, i, j); }
  }

  lemma PhaseMeaning(c: Config, s: seq<Poll>, i: int, now: int)
    requires 0 <= i < |s|
    ensures PhaseEndsBy(c, s, i, now) <==>
            now >= PhaseDeadline(c, s, i) && !(LastDoc(s, i) < 0 && s[i].read.Unreadable?)
  {
    var l := LastDoc(s, i);
    LastDocMeaning(s, i);
    if l >= 0 {
      assert IsLastDoc(s, l, i);
      if k :| 0 <= k <= i && IsLastDoc(s, k, i) && now >= OwnEnd(c, s[k]) {
        assert k == l;
      }
    }
  }

  /** The deadline is the earliest end among the phase and the open windows. */
  lemma DeadlineMeaning(c: Config, s: seq<Poll>, i: int, now: int)
    requires 0 <= i < |s|
    ensures now >= EffectiveDeadline(c, s, i) <==>
            PhaseEndsBy(c, s, i, now) || GapEndsBy(c, s, i, now) || ExitEndsBy(c, s, i, now)
  {
    GapMeaning(c, s, i, now);
    ExitMeaning(c, s, i, now);
    PhaseMeaning(c, s, i, now);
    if LastDoc(s, i) < 0 && s[i].read.Unreadable? {
      assert IsFault(s, i);
      if FirstFault(s, i).None? { FirstFaultMeaning(s, i, i); }
    }
  }

  /**
   * What every iteration does, on every script: it returns exactly on a terminal document; it throws exactly on an
   * invalid one, on an exit window that ended, on a read gap that outlasted its retry window, or on its own
   * phase's end, in that order; and otherwise it sleeps.
   */
  lemma VerdictMeaning(c: Config, s: seq<Poll>, i: int)
    requires 0 <= i < |s|
    ensures var v, on, now := Verdicts(c, s, i), GoesOn(c, s[i]), s[i].now;
            var exit, gap, phase := ExitEndsBy(c, s, i, now), GapEndsBy(c, s, i, now), PhaseEndsBy(c, s, i, now);
            && (forall terminal :: v == Return(terminal) <==> s[i].read.Doc? && Observe(c, s[i]) == Settled(terminal))
            && (v == Throw(InvalidStatus) <==> !on && !Observe(c, s[i]).Settled?)
            && (v == Throw(WorkerExited) <==> on && exit)
            && (v == Throw(RemainedUnreadable) <==> on && !exit && gap)
            && (v == Throw(TimedOut) <==> on && !exit && !gap && phase)
            && (v.Sleep? <==> on && !exit && !gap && !phase)
  {
    GapMeaning(c, s, i, s[i].now);
    ExitMeaning(c, s, i, s[i].now);
    DeadlineMeaning(c, s, i, s[i].now);
  }

  /** A sleep lasts one poll interval, or up to the first end among its phase and the open windows. */
  lemma SleepMeaning(c: Config, s: seq<Poll>, i: int)
    requires 0 <= i < |s| && Verdicts(c, s, i).Sleep?
    ensures var ms := Verdicts(c, s, i).ms; var wake := s[i].now + ms;
            && ms <= c.pollInterval
            && (ms < c.pollInterval ==>
                  PhaseEndsBy(c, s, i, wake) || GapEndsBy(c, s, i, wake) || ExitEndsBy(c, s, i, wake))
            && !PhaseEndsBy(c, s, i, wake - 1) && !GapEndsBy(c, s, i, wake - 1) && !ExitEndsBy(c, s, i, wake - 1)
  {
    var wake := s[i].now + Verdicts(c, s, i).ms;
    DeadlineMeaning(c, s, i, wake);
    DeadlineMeaning(c, s, i, wake - 1);
  }

  /** No active document up to `i` started its phase after `latest`. */
  predicate ActiveBy(c: Config, s: seq<Poll>, i: int, latest: int)
    requires 0 <= i < |s|
  {
    forall m | 0 <= m <= i && s[m].read.Doc? && Observe(c, s[m]).Active? :: s[m].read.doc.phaseStart.value <= latest
  }

  /** The end of the whole wait when active phases start by `latest`. */
  function WholeWaitEnd(c: Config, s: seq<Poll>, i: int, latest: int): int
    requires 0 <= i < |s|
  {
    if LastDoc(s, i) >= 0 then Max(WaveBudgetEnd(c.scope.runStart, c.scope.wave, c.t), latest + PerWave(c.t))
    else
      var publication := c.scope.runStart + c.t.startupGrace;
      match FirstFault(s, i)
      case None => publication
      case Some(j) => Max(publication, s[j].now + c.t.readRetry)
  }

  /**
   * A bound on the whole wait: with active phases that start by `latest`, no iteration sleeps at or
   * past the wave budget, `latest` plus one phase, or before any document the publication deadline or the
   * first fault's window; and no sleep outlasts that bound.
   */
  lemma WholeWaitIsBounded(c: Config, s: seq<Poll>, i: int, latest: int)
    requires 0 <= i < |s| && ActiveBy(c, s, i, latest) && Verdicts(c, s, i).Sleep?
    ensures s[i].now < WholeWaitEnd(c, s, i, latest)
    ensures s[i].now + Verdicts(c, s, i).ms <= WholeWaitEnd(c, s, i, latest)
  {
    assert PhaseDeadline(c, s, i) <= WholeWaitEnd(c, s, i, latest);
  }
}

/**
 * The cumulative wave budget: if every worker of a run keeps its own deadlines, no
 * barrier wait on any dependency graph times out.
 */
module WaveBudget {
  import opened Common
  import opened NoWaitProtocol
  import opened StatusWait

  /** When one worker first published, became active, and published its terminal status. */
  datatype Timeline = Timeline(wave: nat, barrier: set<nat>, published: int, active: int, done: int,
                               ended: Terminal, pid: int)

  /**
   * Each worker's own obligations, in terms of its own clock and the ends of its barrier
   * members. `lag` is the time a settled barrier may take to be noticed; it is paid out of
   * the same per-wave budget.
   */
  ghost predicate OnTime(run: map<nat, Timeline>, runStart: int, t: Timeouts, lag: nat, w: nat)
    requires w in run
  {
    var u := run[w];
    && u.wave <= MAX_WAVE_INDEX
    && 0 < u.pid <= MAX_SAFE_INTEGER
    && runStart <= u.published <= runStart + t.startupGrace
    && u.published <= u.active <= u.done
    && u.done + lag <= u.active + PerWave(t)
    && (forall v | v in u.barrier :: v in run && run[v].wave < u.wave)
    && (u.active == u.published || exists v | v in u.barrier :: v in run && u.active <= run[v].done + lag)
  }

  ghost predicate RunOnTime(run: map<nat, Timeline>, runStart: int, t: Timeouts, lag: nat) {
    forall w | w in run :: OnTime(run, runStart, t, lag, w)
  }

  lemma LaterWaveHasMore(runStart: int, earlier: int, wave: int, t: Timeouts)
    requires -1 <= earlier < wave && WithinBounds(t)
    ensures WaveBudgetEnd(runStart, earlier, t) + PerWave(t) <= WaveBudgetEnd(runStart, wave, t)
  {
    var per := PerWave(t);
    MulBound(earlier + 2, wave + 1, per, per);
    assert (earlier + 2) * per == (earlier + 1) * per + per;
  }

  /** By induction on waves, each worker settles inside its wave's cumulative budget. */
  lemma {:induction false} SettlesWithinWave(run: map<nat, Timeline>, runStart: int, t: Timeouts, lag: nat, w: nat)
    requires WithinBounds(t) && RunOnTime(run, runStart, t, lag) && w in run
    ensures run[w].done + lag <= run[w].active + PerWave(t) <= WaveBudgetEnd(runStart, run[w].wave, t)
    decreases run[w].wave
  {
    var u := run[w];
    assert OnTime(run, runStart, t, lag, w);
    if u.active == u.published {
      LaterWaveHasMore(runStart, -1, u.wave, t);
    } else {
      var v :| v in u.barrier && v in run && u.active <= run[v].done + lag;
      assert OnTime(run, runStart, t, lag, v);
      SettlesWithinWave(run, runStart, t, lag, v);
      LaterWaveHasMore(runStart, run[v].wave, u.wave, t);
    }
  }

  /** What a reader finds in the status file of `u` at time `now`. */
  function StatusAt(u: Timeline, scope: RunScope, now: int): Read {
    if now < u.published then Missing
    else if now < u.done then
      Doc(Document(Some(scope.runId), Some(scope.runStart), Some(scope.wave), Starting,
                   if now < u.active then WaitingBarrier else ActivePhase,
                   Some(if now < u.active then u.published else u.active), Some(u.pid), NoOutcome))
    else
      Doc(Document(Some(scope.runId), Some(scope.runStart), Some(scope.wave),
                   if u.ended.TerminalRunning? then Running else Failed, ActivePhase, Some(u.active), Some(u.pid),
                       NoOutcome))
  }

  /** A script that reads `u` truthfully with a clock that does not run backwards. */
  ghost predicate Reads(u: Timeline, scope: RunScope, s: seq<Poll>) {
    && (forall i | 0 <= i < |s| :: s[i].read == StatusAt(u, scope, s[i].now) && (s[i].now < u.done ==> s[i].alive))
    && (forall i, j | 0 <= i <= j < |s| :: s[i].now <= s[j].now)
  }

  lemma {:induction false} TruthfulReadsHaveNoFaults(u: Timeline, scope: RunScope, s: seq<Poll>, i: int)
    requires -1 <= i < |s| && Reads(u, scope, s)
    requires i >= 0 ==> s[i].now < u.done
    ensures FirstFault(s, i).None? && FirstDead(s, i).None?
    ensures i >= 0 && s[i].read.Doc? ==> LastDoc(s, i) == i
    ensures i >= 0 && s[i].read.Missing? ==> LastDoc(s, i) < 0
    decreases i
  {
    if i > 0 {
      assert s[i - 1].now <= s[i].now;
      TruthfulReadsHaveNoFaults(u, scope, s, i - 1);
    }
  }

  /**
   * No barrier wait of the run times out: at every poll of every member, in every wave,
   * the loop either keeps waiting or returns exactly the terminal status the member published.
   */
  lemma NoWaitTimesOut(run: map<nat, Timeline>, runId: RunId, runStart: int, inputs: TimeoutInputs,
                       lag: nat, w: nat, pollInterval: int, s: seq<Poll>, i: int)
    requires RunOnTime(run, runStart, ResolveTimeouts(inputs), lag) && w in run
    requires 0 <= runStart <= MAX_SAFE_INTEGER - MAX_QUEUED_BUDGET_MS
    requires Reads(run[w], RunScope(runId, runStart, run[w].wave), s) && 0 <= i < |s|
    ensures var c := Config(RunScope(runId, runStart, run[w].wave), ResolveTimeouts(inputs), pollInterval);
            if s[i].now < run[w].done then Verdicts(c, s, i).Sleep? else Verdicts(c, s, i) == Return(run[w].ended)
  {
    var t := ResolveTimeouts(inputs);
    var u := run[w];
    var scope := RunScope(runId, runStart, u.wave);
    var c := Config(scope, t, pollInterval);
    assert OnTime(run, runStart, t, lag, w);
    SettlesWithinWave(run, runStart, t, lag, w);
    QueuedDeadlineWithinBudget(inputs, runStart, u.wave);
    if s[i].now < u.done {
      TruthfulReadsHaveNoFaults(u, scope, s, i);
    }
  }
}
