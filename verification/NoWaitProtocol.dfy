/** Values shared by the models below. */
module Common {
  datatype Option<+T> = None | Some(value: T)

  /** A caught exception is `Err`; the error token only says which branch threw. */
  datatype Result<+T, +E> = Ok(value: T) | Err(error: E)

  function Min(a: int, b: int): int { if a < b then a else b }

  function Max(a: int, b: int): int { if a < b then b else a }
}

/**
 * The pure publication and observation rules of cli/commands/noWaitProtocol.js:
 * timeout resolution, the cumulative queued deadline, and the classification of
 * one status document.
 */
module NoWaitProtocol {
  import opened Common

  const MAX_SAFE_INTEGER: int := 9007199254740991
  const MAX_WAVE_INDEX: int := 1023
  const DEFAULT_IMAGE_OPERATION_TIMEOUT_MS: int := 1800000
  const MAX_IMAGE_OPERATION_TIMEOUT_MS: int := 86400000
  const SANCTIONED_PULLS: int := 3
  const SANCTIONED_BUILDS: int := 1
  const MAX_QUEUED_BUDGET_MS: int := 357888300000

  predicate SafeInteger(x: int) { -MAX_SAFE_INTEGER <= x <= MAX_SAFE_INTEGER }

  /** `None` stands for an input that does not parse as an integer. */
  function BoundedTimeoutInput(value: Option<int>, fallback: int, minimum: int, maximum: int): int {
    if value.Some? && SafeInteger(value.value) then Min(Max(minimum, value.value), maximum) else fallback
  }

  datatype TimeoutInputs = TimeoutInputs(
    phase: Option<int>, terminalGrace: Option<int>, readRetry: Option<int>,
    startupGrace: Option<int>, imagePull: Option<int>, imageBuild: Option<int>)

  datatype Timeouts = Timeouts(
    active: int, terminalGrace: int, readRetry: int, startupGrace: int)

  predicate WithinBounds(t: Timeouts) {
    && 1000 <= t.active <= 349200000
    && 0 <= t.terminalGrace <= 300000
    && 100 <= t.readRetry <= 30000
    && 0 <= t.startupGrace <= 300000
  }

  /** Every configuration, however malformed, resolves to bounded budgets. */
  function ResolveTimeouts(inputs: TimeoutInputs): (t: Timeouts)
    ensures WithinBounds(t)
  {
    var phase := BoundedTimeoutInput(inputs.phase, 900000, 1000, 3600000);
    var pull := BoundedTimeoutInput(inputs.imagePull, DEFAULT_IMAGE_OPERATION_TIMEOUT_MS,
                                    0, MAX_IMAGE_OPERATION_TIMEOUT_MS);
    var build := BoundedTimeoutInput(inputs.imageBuild, DEFAULT_IMAGE_OPERATION_TIMEOUT_MS,
                                     0, MAX_IMAGE_OPERATION_TIMEOUT_MS);
    Timeouts(
      phase + pull * SANCTIONED_PULLS + build * SANCTIONED_BUILDS,
      BoundedTimeoutInput(inputs.terminalGrace, 60000, 0, 300000),
      BoundedTimeoutInput(inputs.readRetry, 5000, 100, 30000),
      BoundedTimeoutInput(inputs.startupGrace, 60000, 0, 300000))
  }

  /** What an input in its range gives is the input itself, and an absent one gives the documented default. */
  lemma ConfiguredBudgets(inputs: TimeoutInputs)
    ensures var t := ResolveTimeouts(inputs);
            && t.terminalGrace == Configured(inputs.terminalGrace, 60000, 0, 300000)
            && t.readRetry == Configured(inputs.readRetry, 5000, 100, 30000)
            && t.startupGrace == Configured(inputs.startupGrace, 60000, 0, 300000)
            && t.active == Configured(inputs.phase, 900000, 1000, 3600000)
                           + 3 * Configured(inputs.imagePull, 1800000, 0, 86400000)
                           + Configured(inputs.imageBuild, 1800000, 0, 86400000)
  {
  }

  /** The default without a usable input, and otherwise the nearest value in the range. */
  function Configured(value: Option<int>, default: int, low: int, high: int): (r: int)
    requires low <= default <= high
    ensures low <= r <= high
    ensures value.None? || !SafeInteger(value.value) ==> r == default
    ensures value.Some? && low <= value.value <= high && SafeInteger(value.value) ==> r == value.value
    ensures value.Some? && SafeInteger(value.value) && value.value < low ==> r == low
    ensures value.Some? && SafeInteger(value.value) && value.value > high ==> r == high
  {
    if value.None? || !SafeInteger(value.value) then default
    else if value.value < low then low else if value.value > high then high else value.value
  }

  function PerWave(t: Timeouts): int { t.active + t.terminalGrace }

  /** The end of the cumulative budget of one wave, before the overflow check. */
  function WaveBudgetEnd(runStart: int, wave: int, t: Timeouts): int {
    runStart + (wave + 1) * PerWave(t) + t.startupGrace
  }

  /** `None` is the thrown wave-range or overflow error. */
  function QueuedDeadline(runStart: int, wave: int, t: Timeouts): Option<int> {
    var deadline := WaveBudgetEnd(runStart, wave, t);
    if 0 <= wave <= MAX_WAVE_INDEX && SafeInteger(deadline) then Some(deadline) else None
  }

  /** No configuration and no wave pushes a queued deadline past the documented budget. */
  lemma QueuedDeadlineWithinBudget(inputs: TimeoutInputs, runStart: int, wave: int)
    requires 0 <= wave <= MAX_WAVE_INDEX && 0 <= runStart
    ensures var end := WaveBudgetEnd(runStart, wave, ResolveTimeouts(inputs));
            && end <= runStart + MAX_QUEUED_BUDGET_MS
            && (runStart <= MAX_SAFE_INTEGER - MAX_QUEUED_BUDGET_MS
                ==> QueuedDeadline(runStart, wave, ResolveTimeouts(inputs)) == Some(end))
  {
    var per := PerWave(ResolveTimeouts(inputs));
    assert 0 <= (wave + 1) * per <= 1024 * 349500000 by {
      assert 0 <= per <= 349500000;
      MulBound(wave + 1, 1024, per, 349500000);
    }
  }

  lemma MulBound(a: int, b: int, c: int, d: int)
    requires 0 <= a <= b && 0 <= c <= d
    ensures 0 <= a * c <= b * d
  {
    assert a * c <= b * c;
    assert b * c <= b * d;
  }

  type RunId = nat

  datatype StateField = Starting | Running | Failed | UnknownState
  datatype PhaseField = WaitingBarrier | ActivePhase | UnknownPhase
  datatype OutcomeField = NoOutcome | ValidOutcome | InvalidOutcome

  /** A parsed status file; `None` fields are absent or have the wrong type. */
  datatype StatusDocument =
    | NotAnObject
    | Document(runId: Option<RunId>, runStart: Option<int>, wave: Option<int>,
               state: StateField, phase: PhaseField, phaseStart: Option<int>,
               pid: Option<int>, hardware: OutcomeField)

  datatype RunScope = RunScope(runId: RunId, runStart: int, wave: int)

  datatype Terminal = TerminalRunning | TerminalFailed

  datatype Observation =
    | Invalid
    | Settled(terminal: Terminal)
    | Queued(pid: Option<int>)
    | Active(deadline: int, pid: Option<int>)

  ghost predicate Carries(doc: StatusDocument, scope: RunScope) {
    && doc.Document?
    && doc.runId == Some(scope.runId)
    && doc.runStart == Some(scope.runStart)
    && doc.wave == Some(scope.wave)
  }

  /**
   * Classifies one document for one run scope. A document of another run, run start
   * or wave is never more than `Invalid`, and `running` only counts in the active phase.
   */
  function ResolveObservation(doc: StatusDocument, scope: RunScope, t: Timeouts, now: int): (o: Observation)
    ensures !o.Invalid? ==> Carries(doc, scope)
    ensures o == Settled(TerminalRunning) <==>
            Carries(doc, scope) && doc.state == Running && doc.phase == ActivePhase
    ensures o == Settled(TerminalFailed) <==>
            Carries(doc, scope) && doc.state == Failed && !doc.phase.UnknownPhase? && !doc.hardware.InvalidOutcome?
    ensures o.Queued? <==> Carries(doc, scope) && doc.state == Starting && doc.phase == WaitingBarrier
    ensures o.Active? <==>
            && Carries(doc, scope) && doc.state == Starting && doc.phase == ActivePhase
            && doc.phaseStart.Some? && doc.phaseStart.value <= now + t.terminalGrace
            && SafeInteger(doc.phaseStart.value + PerWave(t))
    ensures o.Active? ==> o.deadline == doc.phaseStart.value + PerWave(t)
    ensures o.Queued? || o.Active? ==> o.pid == doc.pid
  {
    if !doc.Document? then Invalid
    else if doc.runId != Some(scope.runId) then Invalid
    else if doc.runStart != Some(scope.runStart) then Invalid
    else if doc.wave != Some(scope.wave) then Invalid
    else if doc.state.UnknownState? then Invalid
    else if doc.phase.UnknownPhase? then Invalid
    else if doc.state.Failed? then
      if doc.hardware.InvalidOutcome? then Invalid else Settled(TerminalFailed)
    else if doc.state.Running? then
      if doc.phase != ActivePhase then Invalid else Settled(TerminalRunning)
    else if doc.phase.ActivePhase? then
      if doc.phaseStart.None? || doc.phaseStart.value > now + t.terminalGrace then Invalid
      else
        var deadline := doc.phaseStart.value + t.active + t.terminalGrace;
        if !SafeInteger(deadline) then Invalid else Active(deadline, doc.pid)
    else Queued(doc.pid)
  }
}
