/**
 * Every worker of every run as one step system over shared status files
 * (cli/commands/noWaitWorker.js, the barrier and the publication order of `main`).
 * Workers interleave freely, may crash at any point, and may time out on any barrier
 * member; files may be replaced or removed by anyone, as long as the replacement does not
 * carry the identity of the worker that owns the file.
 */
module WaveProtocol {
  import opened Common
  import opened NoWaitProtocol
  import opened Barrier
  import SW = StatusWait

  datatype Worker = Worker(scope: RunScope, path: StatusPath, barrier: seq<Entry>)

  type Schedule = seq<Worker>

  ghost predicate Owns(sch: Schedule, v: nat, w: nat, k: nat)
    requires w < |sch| && k < |sch[w].barrier|
  {
    && v < |sch|
    && sch[v].path == sch[w].barrier[k].path
    && sch[v].scope == RunScope(sch[w].scope.runId, sch[w].scope.runStart, sch[w].barrier[k].wave)
  }

  ghost predicate HasOwner(sch: Schedule, w: nat, k: nat)
    requires w < |sch| && k < |sch[w].barrier|
  {
    exists v: nat :: Owns(sch, v, w, k)
  }

  /** One file per worker; every barrier passed its parser and names workers of its own run. */
  ghost predicate ValidSchedule(sch: Schedule) {
    && (forall v, w | 0 <= v < w < |sch| :: sch[v].path != sch[w].path)
    && (forall w | 0 <= w < |sch| :: 0 <= sch[w].scope.wave <= MAX_WAVE_INDEX)
    && (forall w | 0 <= w < |sch| :: ValidBarrier(sch[w].barrier, sch[w].scope.runId, sch[w].scope.wave))
    && (forall w: nat, k: nat | w < |sch| && k < |sch[w].barrier| :: HasOwner(sch, w, k))
  }

  datatype Seen = Unseen | SawRunning | SawFailed | SawError

  /** How far one worker process has come. */
  datatype Local =
    | Created
    | Waiting(seen: seq<Seen>)
    | Launching
    | RanOk            // `running` is published; releasing the locks can still fail
    | Exited
    | FailedStatus     // `failed` is published
    | Crashed          // the process ended without a terminal status

  datatype Publication = PubStarting(worker: nat) | PubRunning(worker: nat) | PubFailed(worker: nat)

  /** `tampered` remembers which files someone other than their owner has touched. */
  datatype State = State(files: map<StatusPath, StatusDocument>, local: seq<Local>,
                         history: seq<Publication>, tampered: set<StatusPath>)

  datatype Step =
    | Admit(w: nat, now: int)
    | RefuseAdmission(w: nat, now: int)
    | ObserveMember(w: nat, k: nat, now: int)
    | GiveUpOnMember(w: nat, k: nat)
    | ReleaseBarrier(w: nat, now: int)
    | FailBarrier(w: nat, now: int)
    | PublishRunning(w: nat, now: int)
    | PublishFailed(w: nat, now: int)
    | FailAfterRunning(w: nat, now: int)
    | Exit(w: nat)
    | Crash(w: nat)
    | Tamper(path: StatusPath, doc: Option<StatusDocument>)

  predicate SettledLocal(l: Local) { l.RanOk? || l.Exited? || l.FailedStatus? || l.Crashed? }

  function OwnDocument(u: Worker, state: StateField, phase: PhaseField, now: int): StatusDocument {
    Document(Some(u.scope.runId), Some(u.scope.runStart), Some(u.scope.wave), state, phase, Some(now), Some(1),
        NoOutcome)
  }

  function MemberScope(u: Worker, k: nat): RunScope
    requires k < |u.barrier|
  {
    RunScope(u.barrier[k].runId, u.scope.runStart, u.barrier[k].wave)
  }

  /**
   * What reading the file of barrier member `k` yields, if it yields a settled or invalid
   * status. A document of another run, run start or wave never counts as settled.
   */
  function ReadMember(u: Worker, s: State, t: Timeouts, k: nat, now: int): (r: Option<Seen>)
    requires k < |u.barrier|
    ensures r == Some(SawRunning) || r == Some(SawFailed) ==>
              u.barrier[k].path in s.files && Carries(s.files[u.barrier[k].path], MemberScope(u, k))
  {
    var path := u.barrier[k].path;
    if path !in s.files then None
    else
      match ResolveObservation(s.files[path], MemberScope(u, k), t, now)
      case Invalid => Some(SawError)
      case Settled(TerminalRunning) => Some(SawRunning)
      case Settled(TerminalFailed) => Some(SawFailed)
      case Queued(_) => None
      case Active(_, _) => None
  }

  /**
   * A member's observation is what the poll loop returns or throws when it reads that file; the loop also
   * throws on an unsettled document without a usable pid, which here is a member the worker gives up on.
   */
  lemma ObservationIsAPoll(u: Worker, s: State, c: SW.Config, k: nat, script: seq<SW.Poll>, i: nat)
    requires k < |u.barrier| && i < |script| && c.scope == MemberScope(u, k)
    requires u.barrier[k].path in s.files && script[i].read == SW.Doc(s.files[u.barrier[k].path])
    ensures var r := ReadMember(u, s, c.t, k, script[i].now);
            && (r == Some(SawRunning) <==> SW.Verdicts(c, script, i) == SW.Return(TerminalRunning))
            && (r == Some(SawFailed) <==> SW.Verdicts(c, script, i) == SW.Return(TerminalFailed))
            && (SW.Verdicts(c, script, i) == SW.Throw(SW.InvalidStatus) <==>
                  r == Some(SawError) || (r.None? && !SW.PidUsable(SW.Observe(c, script[i]).pid)))
  {
  }

  ghost predicate AllSeen(seen: seq<Seen>) { forall k | 0 <= k < |seen| :: seen[k] != Unseen }

  /** Settle-all, then fail on any error or any failed direct dependency. */
  ghost predicate BarrierFails(u: Worker, seen: seq<Seen>)
    requires |seen| == |u.barrier|
  {
    exists k | 0 <= k < |seen| :: seen[k] == SawError || (u.barrier[k].direct && seen[k] == SawFailed)
  }

  ghost predicate Enabled(sch: Schedule, t: Timeouts, s: State, step: Step)
    requires |s.local| == |sch|
  {
    match step
    case Admit(w, _) => w < |sch| && s.local[w].Created?
    case RefuseAdmission(w, _) => w < |sch| && s.local[w].Created?
    case ObserveMember(w, k, now) =>
      && w < |sch| && s.local[w].Waiting? && k < |s.local[w].seen| == |sch[w].barrier|
      && s.local[w].seen[k] == Unseen && ReadMember(sch[w], s, t, k, now).Some?
    case GiveUpOnMember(w, k) =>
      w < |sch| && s.local[w].Waiting? && k < |s.local[w].seen| && s.local[w].seen[k] == Unseen
    case ReleaseBarrier(w, _) =>
      && w < |sch| && s.local[w].Waiting? && |s.local[w].seen| == |sch[w].barrier|
      && AllSeen(s.local[w].seen) && !BarrierFails(sch[w], s.local[w].seen)
    case FailBarrier(w, _) =>
      && w < |sch| && s.local[w].Waiting? && |s.local[w].seen| == |sch[w].barrier|
      && AllSeen(s.local[w].seen) && BarrierFails(sch[w], s.local[w].seen)
    case PublishRunning(w, _) => w < |sch| && s.local[w].Launching?
    case PublishFailed(w, _) => w < |sch| && s.local[w].Launching?
    case FailAfterRunning(w, _) => w < |sch| && s.local[w].RanOk?
    case Exit(w) => w < |sch| && s.local[w].RanOk?
    case Crash(w) => w < |sch| && (s.local[w].Created? || s.local[w].Waiting? || s.local[w].Launching?)
    case Tamper(path, doc) =>
      doc.Some? ==> forall v | 0 <= v < |sch| && sch[v].path == path :: !Carries(doc.value, sch[v].scope)
  }

  function Publish(sch: Schedule, s: State, w: nat, state: StateField, phase: PhaseField, now: int,
                   pub: Publication, next: Local): State
    requires w < |sch| == |s.local|
  {
    s.(files := s.files[sch[w].path := OwnDocument(sch[w], state, phase, now)],
       local := s.local[w := next], history := s.history + [pub])
  }

  ghost function Apply(sch: Schedule, t: Timeouts, s: State, step: Step): (s': State)
    requires |s.local| == |sch| && Enabled(sch, t, s, step)
    ensures |s'.local| == |sch|
  {
    match step
    case Admit(w, now) =>
      if sch[w].barrier == [] then Publish(sch, s, w, Starting, ActivePhase, now, PubStarting(w), Launching)
      else Publish(sch, s, w, Starting, WaitingBarrier, now, PubStarting(w),
                   Waiting(seq(|sch[w].barrier|, _ => Unseen)))
    case RefuseAdmission(w, now) => Publish(sch, s, w, Failed, ActivePhase, now, PubFailed(w), FailedStatus)
    case ObserveMember(w, k, now) =>
      s.(local := s.local[w := Waiting(s.local[w].seen[k := ReadMember(sch[w], s, t, k, now).value])])
    case GiveUpOnMember(w, k) => s.(local := s.local[w := Waiting(s.local[w].seen[k := SawError])])
    case ReleaseBarrier(w, now) => Publish(sch, s, w, Starting, ActivePhase, now, PubStarting(w), Launching)
    case FailBarrier(w, now) => Publish(sch, s, w, Failed, WaitingBarrier, now, PubFailed(w), FailedStatus)
    case PublishRunning(w, now) => Publish(sch, s, w, Running, ActivePhase, now, PubRunning(w), RanOk)
    case PublishFailed(w, now) => Publish(sch, s, w, Failed, ActivePhase, now, PubFailed(w), FailedStatus)
    case FailAfterRunning(w, now) => Publish(sch, s, w, Failed, ActivePhase, now, PubFailed(w), FailedStatus)
    case Exit(w) => s.(local := s.local[w := Exited])
    case Crash(w) => s.(local := s.local[w := Crashed])
    case Tamper(path, doc) =>
      s.(files := if doc.Some? then s.files[path := doc.value] else s.files - {path}, tampered := s.tampered + {path})
  }

  /** No worker has started; whatever files exist do not carry the identity of their owner. */
  ghost predicate Initial(sch: Schedule, s: State) {
    && |s.local| == |sch|
    && (forall w | 0 <= w < |sch| :: s.local[w] == Created)
    && s.history == []
    && (forall w | 0 <= w < |sch| && sch[w].path in s.files :: !Carries(s.files[sch[w].path], sch[w].scope))
  }

  ghost predicate IsRun(sch: Schedule, t: Timeouts, s: State, steps: seq<Step>, s': State)
    decreases |steps|
  {
    if steps == [] then s' == s
    else |s.local| == |sch| && Enabled(sch, t, s, steps[0]) && IsRun(sch, t, Apply(sch, t, s, steps[0]), steps[1..], s')
  }

  // -------- Safety --------

  ghost predicate RanBefore(h: seq<Publication>, v: nat, i: int)
    requires i <= |h|
  {
    exists j | 0 <= j < i :: h[j] == PubRunning(v)
  }

  /** `h[i]` had every direct dependency of `w` publish `running` before it. */
  ghost predicate DependenciesRan(sch: Schedule, h: seq<Publication>, w: nat, i: int)
    requires w < |sch| && i <= |h|
  {
    forall k: nat, v: nat | k < |sch[w].barrier| && sch[w].barrier[k].direct && Owns(sch, v, w, k) :: RanBefore(h, v, i)
  }

  ghost predicate Safe(sch: Schedule, h: seq<Publication>) {
    forall i | 0 <= i < |h| && h[i].PubRunning? :: h[i].worker < |sch| && DependenciesRan(sch, h, h[i].worker, i)
  }

  ghost predicate FileTruthful(sch: Schedule, s: State, v: nat)
    requires v < |sch|
  {
    sch[v].path in s.files ==>
      var d := s.files[sch[v].path];
      Carries(d, sch[v].scope) && d.state == Running ==> RanBefore(s.history, v, |s.history|)
  }

  ghost predicate LocalTruthful(sch: Schedule, s: State, w: nat)
    requires w < |sch| == |s.local|
  {
    var l := s.local[w];
    && (l.Waiting? ==> |l.seen| == |sch[w].barrier|)
    && (l.Waiting? ==> forall k: nat, v: nat | k < |l.seen| && l.seen[k] == SawRunning && Owns(sch, v, w, k) ::
                         RanBefore(s.history, v, |s.history|))
    && (l.Launching? ==> DependenciesRan(sch, s.history, w, |s.history|))
  }

  ghost predicate Inv(sch: Schedule, s: State) {
    && |s.local| == |sch|
    && Safe(sch, s.history)
    && (forall v | 0 <= v < |sch| :: FileTruthful(sch, s, v))
    && (forall w | 0 <= w < |sch| :: LocalTruthful(sch, s, w))
  }

  lemma RanStays(h: seq<Publication>, p: Publication, v: nat)
    requires RanBefore(h, v, |h|)
    ensures RanBefore(h + [p], v, |h|) && RanBefore(h + [p], v, |h| + 1)
  {
    var j :| 0 <= j < |h| && h[j] == PubRunning(v);
    assert (h + [p])[j] == PubRunning(v);
  }

  lemma DependenciesStay(sch: Schedule, h: seq<Publication>, p: Publication, w: nat)
    requires w < |sch| && DependenciesRan(sch, h, w, |h|)
    ensures DependenciesRan(sch, h + [p], w, |h|) && DependenciesRan(sch, h + [p], w, |h| + 1)
  {
    forall k: nat, v: nat | k < |sch[w].barrier| && sch[w].barrier[k].direct && Owns(sch, v, w, k)
      ensures RanBefore(h + [p], v, |h|) && RanBefore(h + [p], v, |h| + 1)
    {
      RanStays(h, p, v);
    }
  }

  lemma SafeExtends(sch: Schedule, h: seq<Publication>, p: Publication)
    requires Safe(sch, h)
    requires p.PubRunning? ==> p.worker < |sch| && DependenciesRan(sch, h, p.worker, |h|)
    ensures Safe(sch, h + [p])
  {
    var h' := h + [p];
    forall i | 0 <= i < |h'| && h'[i].PubRunning?
      ensures h'[i].worker < |sch| && DependenciesRan(sch, h', h'[i].worker, i)
    {
      if i == |h| { DependenciesStay(sch, h, p, p.worker); }
      else {
        assert DependenciesRan(sch, h, h[i].worker, i);
        forall k: nat, v: nat | k < |sch[h[i].worker].barrier| && sch[h[i].worker].barrier[k].direct
            && Owns(sch, v, h[i].worker, k)
          ensures RanBefore(h', v, i)
        {
          var j :| 0 <= j < i && h[j] == PubRunning(v);
          assert h'[j] == PubRunning(v);
        }
      }
    }
  }

  lemma LocalStays(sch: Schedule, s: State, s': State, p: Publication, w: nat)
    requires w < |sch| == |s.local| == |s'.local| && LocalTruthful(sch, s, w)
    requires s'.local[w] == s.local[w] && s'.history == s.history + [p]
    ensures LocalTruthful(sch, s', w)
  {
    var l := s.local[w];
    if l.Launching? { DependenciesStay(sch, s.history, p, w); }
    if l.Waiting? {
      forall k: nat, v: nat | k < |l.seen| && l.seen[k] == SawRunning && Owns(sch, v, w, k)
        ensures RanBefore(s'.history, v, |s'.history|)
      {
        RanStays(s.history, p, v);
      }
    }
  }

  /** A publication keeps the invariant when its own worker is entitled to it. */
  lemma PublishKeepsInv(sch: Schedule, s: State, w: nat, state: StateField, phase: PhaseField, now: int,
                        pub: Publication, next: Local)
    requires ValidSchedule(sch) && Inv(sch, s) && w < |sch| && pub.worker == w
    requires pub.PubRunning? <==> state == Running
    requires pub.PubRunning? ==> s.local[w].Launching?
    requires LocalTruthful(sch, s.(local := s.local[w := next]), w)
    ensures Inv(sch, Publish(sch, s, w, state, phase, now, pub, next))
  {
    var s' := Publish(sch, s, w, state, phase, now, pub, next);
    assert LocalTruthful(sch, s, w);
    SafeExtends(sch, s.history, pub);
    forall v | 0 <= v < |sch| ensures FileTruthful(sch, s', v) {
      assert FileTruthful(sch, s, v);
      if v == w {
        assert s'.history[|s.history|] == pub;
      } else if RanBefore(s.history, v, |s.history|) {
        RanStays(s.history, pub, v);
      }
    }
    forall v | 0 <= v < |sch| ensures LocalTruthful(sch, s', v) {
      if v == w { LocalStays(sch, s.(local := s.local[w := next]), s', pub, w); }
      else { LocalStays(sch, s, s', pub, v); }
    }
  }

  /** An accepted `running` of a barrier member really was published by that member. */
  lemma ObservationKeepsInv(sch: Schedule, t: Timeouts, s: State, w: nat, k: nat, seen: Seen)
    requires ValidSchedule(sch) && Inv(sch, s) && w < |sch| && s.local[w].Waiting?
    requires k < |s.local[w].seen| == |sch[w].barrier|
    requires seen == SawRunning ==> exists now :: ReadMember(sch[w], s, t, k, now) == Some(SawRunning)
    ensures Inv(sch, s.(local := s.local[w := Waiting(s.local[w].seen[k := seen])]))
  {
    var s' := s.(local := s.local[w := Waiting(s.local[w].seen[k := seen])]);
    assert LocalTruthful(sch, s, w);
    forall v | 0 <= v < |sch| ensures FileTruthful(sch, s', v) && LocalTruthful(sch, s', v) {
      assert FileTruthful(sch, s, v) && LocalTruthful(sch, s, v);
      if v == w {
        forall j: nat, o: nat | j < |s'.local[w].seen| && s'.local[w].seen[j] == SawRunning && Owns(sch, o, w, j)
          ensures RanBefore(s.history, o, |s.history|)
        {
          if j == k {
            assert ValidBarrier(sch[w].barrier, sch[w].scope.runId, sch[w].scope.wave);
            assert FileTruthful(sch, s, o);
          }
        }
      }
    }
  }

  lemma ReleaseEntitles(sch: Schedule, s: State, w: nat)
    requires Inv(sch, s) && w < |sch| && s.local[w].Waiting?
    requires |s.local[w].seen| == |sch[w].barrier|
    requires AllSeen(s.local[w].seen) && !BarrierFails(sch[w], s.local[w].seen)
    ensures DependenciesRan(sch, s.history, w, |s.history|)
  {
    assert LocalTruthful(sch, s, w);
    var seen := s.local[w].seen;
    forall k: nat, v: nat | k < |sch[w].barrier| && sch[w].barrier[k].direct && Owns(sch, v, w, k)
      ensures RanBefore(s.history, v, |s.history|)
    {
      assert seen[k] != Unseen && seen[k] != SawError && seen[k] != SawFailed;
    }
  }

  lemma QuietStepKeepsInv(sch: Schedule, s: State, w: nat, next: Local)
    requires Inv(sch, s) && w < |sch| && !next.Waiting? && !next.Launching?
    ensures Inv(sch, s.(local := s.local[w := next]))
  {
    var s' := s.(local := s.local[w := next]);
    forall v | 0 <= v < |sch| ensures FileTruthful(sch, s', v) && LocalTruthful(sch, s', v) {
      assert FileTruthful(sch, s, v) && LocalTruthful(sch, s, v);
    }
  }

  lemma TamperKeepsInv(sch: Schedule, t: Timeouts, s: State, step: Step)
    requires Inv(sch, s) && step.Tamper? && Enabled(sch, t, s, step)
    ensures Inv(sch, Apply(sch, t, s, step))
  {
    var s' := Apply(sch, t, s, step);
    forall v | 0 <= v < |sch| ensures FileTruthful(sch, s', v) && LocalTruthful(sch, s', v) {
      assert FileTruthful(sch, s, v) && LocalTruthful(sch, s, v);
    }
  }

  lemma StepKeepsInv(sch: Schedule, t: Timeouts, s: State, step: Step)
    requires ValidSchedule(sch) && Inv(sch, s) && Enabled(sch, t, s, step)
    ensures Inv(sch, Apply(sch, t, s, step))
  {
    match step
    case Admit(w, now) =>
      if sch[w].barrier == [] {
        PublishKeepsInv(sch, s, w, Starting, ActivePhase, now, PubStarting(w), Launching);
      } else {
        var next := Waiting(seq(|sch[w].barrier|, _ => Unseen));
        PublishKeepsInv(sch, s, w, Starting, WaitingBarrier, now, PubStarting(w), next);
      }
    case RefuseAdmission(w, now) => PublishKeepsInv(sch, s, w, Failed, ActivePhase, now, PubFailed(w), FailedStatus);
    case ObserveMember(w, k, now) =>
      assert LocalTruthful(sch, s, w);
      ObservationKeepsInv(sch, t, s, w, k, ReadMember(sch[w], s, t, k, now).value);
    case GiveUpOnMember(w, k) =>
      assert LocalTruthful(sch, s, w);
      ObservationKeepsInv(sch, t, s, w, k, SawError);
    case ReleaseBarrier(w, now) =>
      ReleaseEntitles(sch, s, w);
      PublishKeepsInv(sch, s, w, Starting, ActivePhase, now, PubStarting(w), Launching);
    case FailBarrier(w, now) => PublishKeepsInv(sch, s, w, Failed, WaitingBarrier, now, PubFailed(w), FailedStatus);
    case PublishRunning(w, now) => PublishKeepsInv(sch, s, w, Running, ActivePhase, now, PubRunning(w), RanOk);
    case PublishFailed(w, now) => PublishKeepsInv(sch, s, w, Failed, ActivePhase, now, PubFailed(w), FailedStatus);
    case FailAfterRunning(w, now) => PublishKeepsInv(sch, s, w, Failed, ActivePhase, now, PubFailed(w), FailedStatus);
    case Exit(w) => QuietStepKeepsInv(sch, s, w, Exited);
    case Crash(w) => QuietStepKeepsInv(sch, s, w, Crashed);
    case Tamper(_, _) => TamperKeepsInv(sch, t, s, step);
  }

  lemma {:induction false} RunKeepsInv(sch: Schedule, t: Timeouts, s: State, steps: seq<Step>, s': State)
    requires ValidSchedule(sch) && Inv(sch, s) && IsRun(sch, t, s, steps, s')
    ensures Inv(sch, s')
    decreases |steps|
  {
    if steps != [] {
      StepKeepsInv(sch, t, s, steps[0]);
      RunKeepsInv(sch, t, Apply(sch, t, s, steps[0]), steps[1..], s');
    }
  }

  ghost predicate DependsDirectly(sch: Schedule, w: nat, v: nat) {
    w < |sch| && exists k: nat | k < |sch[w].barrier| :: sch[w].barrier[k].direct && Owns(sch, v, w, k)
  }

  ghost predicate DependencyChain(sch: Schedule, chain: seq<nat>) {
    forall i | 0 <= i < |chain| - 1 :: DependsDirectly(sch, chain[i], chain[i + 1])
  }

  /**
   * Wave dependency safety. In every interleaving, a worker that publishes `running` at
   * history position `i` had every worker reachable through direct-dependency entries
   * publish `running` strictly earlier.
   */
  lemma {:induction false} RunningRespectsDependencies(sch: Schedule, t: Timeouts, s: State, steps: seq<Step>,
      s': State,
                                                       i: int, chain: seq<nat>)
    requires ValidSchedule(sch) && Initial(sch, s) && IsRun(sch, t, s, steps, s')
    requires 0 <= i < |s'.history| && |chain| > 1 && DependencyChain(sch, chain)
    requires s'.history[i] == PubRunning(chain[0])
    ensures exists j | 0 <= j < i :: s'.history[j] == PubRunning(chain[|chain| - 1])
    decreases |chain|
  {
    RunKeepsInv(sch, t, s, steps, s');
    assert DependsDirectly(sch, chain[0], chain[0 + 1]);
    assert RanBefore(s'.history, chain[1], i);
    var j :| 0 <= j < i && s'.history[j] == PubRunning(chain[1]);
    if |chain| > 2 {
      var rest := chain[1..];
      forall m | 0 <= m < |rest| - 1 ensures DependsDirectly(sch, rest[m], rest[m + 1]) {
        assert DependsDirectly(sch, chain[m + 1], chain[m + 1 + 1]);
      }
      RunningRespectsDependencies(sch, t, s, steps, s', j, rest);
    }
  }

  // -------- Deadlock freedom and termination --------

  ghost predicate Unsettled(sch: Schedule, s: State, w: nat) {
    w < |sch| == |s.local| && !SettledLocal(s.local[w])
  }

  /** Every owner of a barrier member of `w` has settled. */
  ghost predicate Unblocked(sch: Schedule, s: State, w: nat)
    requires w < |sch| == |s.local|
  {
    forall k: nat, v: nat | k < |sch[w].barrier| && Owns(sch, v, w, k) :: SettledLocal(s.local[v])
  }

  /** Because barrier entries point to strictly earlier waves, some unsettled worker is never blocked. */
  lemma {:induction false} SomeWorkerIsUnblocked(sch: Schedule, s: State, w: nat) returns (u: nat)
    requires ValidSchedule(sch) && Unsettled(sch, s, w)
    ensures Unsettled(sch, s, u) && Unblocked(sch, s, u)
    decreases sch[w].scope.wave
  {
    if Unblocked(sch, s, w) {
      u := w;
    } else {
      var k: nat, v: nat :| k < |sch[w].barrier| && Owns(sch, v, w, k) && !SettledLocal(s.local[v]);
      assert ValidBarrier(sch[w].barrier, sch[w].scope.runId, sch[w].scope.wave);
      u := SomeWorkerIsUnblocked(sch, s, v);
    }
  }

  /** A settled worker that did not crash and whose file nobody touched is readable as settled. */
  ghost predicate SettledFile(sch: Schedule, s: State, v: nat)
    requires v < |sch| == |s.local|
  {
    SettledLocal(s.local[v]) && !s.local[v].Crashed? && sch[v].path !in s.tampered ==>
      && sch[v].path in s.files
      && Carries(s.files[sch[v].path], sch[v].scope)
      && !s.files[sch[v].path].phase.UnknownPhase?
      && !s.files[sch[v].path].hardware.InvalidOutcome?
      && (s.files[sch[v].path].state == Failed
          || (s.files[sch[v].path].state == Running && s.files[sch[v].path].phase == ActivePhase))
  }

  ghost predicate SettledFiles(sch: Schedule, s: State) {
    |s.local| == |sch| && forall v | 0 <= v < |sch| :: SettledFile(sch, s, v)
  }

  lemma StepKeepsSettledFiles(sch: Schedule, t: Timeouts, s: State, step: Step)
    requires ValidSchedule(sch) && SettledFiles(sch, s) && Enabled(sch, t, s, step)
    ensures SettledFiles(sch, Apply(sch, t, s, step))
  {
    var s' := Apply(sch, t, s, step);
    forall v | 0 <= v < |sch| ensures SettledFile(sch, s', v) {
      assert SettledFile(sch, s, v);
    }
  }

  lemma {:induction false} RunKeepsSettledFiles(sch: Schedule, t: Timeouts, s: State, steps: seq<Step>, s': State)
    requires ValidSchedule(sch) && SettledFiles(sch, s) && IsRun(sch, t, s, steps, s')
    ensures SettledFiles(sch, s')
    decreases |steps|
  {
    if steps != [] {
      StepKeepsSettledFiles(sch, t, s, steps[0]);
      RunKeepsSettledFiles(sch, t, Apply(sch, t, s, steps[0]), steps[1..], s');
    }
  }

  /** `step` moves worker `w` forward without a crash; it gives up only on a dead or tampered member. */
  ghost predicate Productive(sch: Schedule, t: Timeouts, s: State, w: nat, step: Step)
    requires |s.local| == |sch|
  {
    && Enabled(sch, t, s, step)
    && !step.Tamper? && !step.Crash? && step.w == w
    && (step.GiveUpOnMember? ==>
          && w < |sch| && step.k < |sch[w].barrier|
          && exists v: nat | Owns(sch, v, w, step.k) :: s.local[v].Crashed? || sch[v].path in s.tampered)
  }

  /**
   * Deadlock freedom. Every reachable state with an unsettled worker has a productive step,
   * and a timed-out wait is needed only for a member that crashed or whose file was touched.
   */
  lemma NoDeadlock(sch: Schedule, t: Timeouts, s0: State, steps: seq<Step>, s: State, w: nat)
    returns (u: nat, step: Step)
    requires ValidSchedule(sch) && Initial(sch, s0) && IsRun(sch, t, s0, steps, s)
    requires Unsettled(sch, s, w)
    ensures Unsettled(sch, s, u) && Productive(sch, t, s, u, step)
  {
    RunKeepsInv(sch, t, s0, steps, s);
    RunKeepsSettledFiles(sch, t, s0, steps, s);
    u := SomeWorkerIsUnblocked(sch, s, w);
    assert LocalTruthful(sch, s, u);
    match s.local[u]
    case Created => step := Admit(u, 0);
    case Launching => step := PublishRunning(u, 0);
    case Waiting(seen) =>
      if AllSeen(seen) {
        step := if BarrierFails(sch[u], seen) then FailBarrier(u, 0) else ReleaseBarrier(u, 0);
      } else {
        var k: nat :| k < |seen| && seen[k] == Unseen;
        step := MemberStep(sch, t, s, u, k);
      }
  }

  lemma MemberStep(sch: Schedule, t: Timeouts, s: State, u: nat, k: nat) returns (step: Step)
    requires ValidSchedule(sch) && SettledFiles(sch, s) && u < |sch| && s.local[u].Waiting?
    requires k < |s.local[u].seen| == |sch[u].barrier| && s.local[u].seen[k] == Unseen
    requires Unblocked(sch, s, u)
    ensures Productive(sch, t, s, u, step)
  {
    assert HasOwner(sch, u, k);
    var v: nat :| Owns(sch, v, u, k);
    assert ValidBarrier(sch[u].barrier, sch[u].scope.runId, sch[u].scope.wave);
    assert SettledFile(sch, s, v);
    step := if s.local[v].Crashed? || sch[v].path in s.tampered then GiveUpOnMember(u, k) else ObserveMember(u, k, 0);
  }

  function UnseenCount(seen: seq<Seen>): nat {
    if seen == [] then 0 else (if seen[0] == Unseen then 1 else 0) + UnseenCount(seen[1..])
  }

  lemma {:induction false} SeeingDecreases(seen: seq<Seen>, k: nat, v: Seen)
    requires k < |seen| && seen[k] == Unseen && v != Unseen
    ensures UnseenCount(seen[k := v]) == UnseenCount(seen) - 1
  {
    if k == 0 {
      assert seen[k := v][1..] == seen[1..];
    } else {
      assert seen[k := v][1..] == seen[1..][k - 1 := v];
      SeeingDecreases(seen[1..], k - 1, v);
    }
  }

  lemma {:induction false} UnseenAtMostAll(seen: seq<Seen>)
    ensures UnseenCount(seen) <= |seen|
  {
    if seen != [] { UnseenAtMostAll(seen[1..]); }
  }

  /** How many steps one worker can still take. */
  function Rank(u: Worker, l: Local): nat {
    match l
    case Created => |u.barrier| + 4
    case Waiting(seen) => UnseenCount(seen) + 3
    case Launching => 2
    case RanOk => 1
    case Exited => 0
    case FailedStatus => 0
    case Crashed => 0
  }

  function TotalRank(sch: Schedule, local: seq<Local>): nat
    requires |sch| == |local|
  {
    if sch == [] then 0 else Rank(sch[0], local[0]) + TotalRank(sch[1..], local[1..])
  }

  lemma {:induction false} RankUpdate(sch: Schedule, local: seq<Local>, w: nat, l: Local)
    requires w < |sch| == |local|
    ensures TotalRank(sch, local[w := l]) == TotalRank(sch, local) - Rank(sch[w], local[w]) + Rank(sch[w], l)
  {
    if w == 0 {
      assert local[w := l][1..] == local[1..];
    } else {
      assert local[w := l][1..] == local[1..][w - 1 := l];
      RankUpdate(sch[1..], local[1..], w - 1, l);
    }
  }

  lemma StepSpendsRank(sch: Schedule, t: Timeouts, s: State, step: Step)
    requires |s.local| == |sch| && Enabled(sch, t, s, step)
    ensures var s' := Apply(sch, t, s, step);
            TotalRank(sch, s'.local) + (if step.Tamper? then 0 else 1) <= TotalRank(sch, s.local)
  {
    var s' := Apply(sch, t, s, step);
    if !step.Tamper? {
      var w := step.w;
      assert s'.local == s.local[w := s'.local[w]];
      RankUpdate(sch, s.local, w, s'.local[w]);
      match step
      case ObserveMember(_, k, now) => SeeingDecreases(s.local[w].seen, k, ReadMember(sch[w], s, t, k, now).value);
      case GiveUpOnMember(_, k) => SeeingDecreases(s.local[w].seen, k, SawError);
      case Admit(_, _) => if s'.local[w].Waiting? { UnseenAtMostAll(s'.local[w].seen); }
      case _ =>
    }
  }

  function WorkerSteps(steps: seq<Step>): nat {
    if steps == [] then 0 else (if steps[0].Tamper? then 0 else 1) + WorkerSteps(steps[1..])
  }

  /** Termination: whatever the environment does, the workers of a schedule take boundedly many steps. */
  lemma {:induction false} WorkersTakeBoundedSteps(sch: Schedule, t: Timeouts, s: State, steps: seq<Step>, s': State)
    requires |s.local| == |sch| && IsRun(sch, t, s, steps, s')
    ensures |s'.local| == |sch|
    ensures WorkerSteps(steps) + TotalRank(sch, s'.local) <= TotalRank(sch, s.local)
    decreases |steps|
  {
    if steps != [] {
      StepSpendsRank(sch, t, s, steps[0]);
      WorkersTakeBoundedSteps(sch, t, Apply(sch, t, s, steps[0]), steps[1..], s');
    }
  }

  // -------- Why a worker fails, and what happens when nothing goes wrong --------

  /** A step that gives worker `w` a reason to publish `failed`. */
  ghost predicate GivesCause(sch: Schedule, t: Timeouts, s: State, step: Step, w: nat) {
    || (step.RefuseAdmission? && step.w == w)
    || (step.PublishFailed? && step.w == w)
    || (step.FailAfterRunning? && step.w == w)
    || (step.GiveUpOnMember? && step.w == w)
    || (&& step.ObserveMember? && step.w == w < |sch| && step.k < |sch[w].barrier|
        && var seen := ReadMember(sch[w], s, t, step.k, step.now);
           seen == Some(SawError) || (sch[w].barrier[step.k].direct && seen == Some(SawFailed)))
  }

  /** Some step of the run gives `w` a reason. */
  ghost predicate Caused(sch: Schedule, t: Timeouts, s: State, steps: seq<Step>, w: nat)
    decreases |steps|
  {
    && steps != [] && |s.local| == |sch| && Enabled(sch, t, s, steps[0])
    && (GivesCause(sch, t, s, steps[0], w) || Caused(sch, t, Apply(sch, t, s, steps[0]), steps[1..], w))
  }

  /** Worker `w` already waits with a reason to fail. */
  ghost predicate HasCause(sch: Schedule, s: State, w: nat) {
    && w < |sch| == |s.local| && s.local[w].Waiting? && |s.local[w].seen| == |sch[w].barrier|
    && BarrierFails(sch[w], s.local[w].seen)
  }

  lemma StepCauses(sch: Schedule, t: Timeouts, s: State, step: Step, w: nat)
    requires |s.local| == |sch| && Enabled(sch, t, s, step) && !GivesCause(sch, t, s, step, w) && !HasCause(sch, s, w)
    requires PubFailed(w) !in s.history
    ensures var s' := Apply(sch, t, s, step); !HasCause(sch, s', w) && PubFailed(w) !in s'.history
  {
  }

  /**
   * Every published failure has a reason of its own: the worker was refused admission, failed to launch or
   * to release after running, gave up on a barrier member, or saw a member with an invalid status or a
   * direct dependency that failed.
   */
  lemma {:induction false} FailureHasCause(sch: Schedule, t: Timeouts, s: State, steps: seq<Step>, s': State, w: nat)
    requires |s.local| == |sch| && IsRun(sch, t, s, steps, s')
    requires PubFailed(w) in s'.history && PubFailed(w) !in s.history && !HasCause(sch, s, w)
    ensures Caused(sch, t, s, steps, w)
    decreases |steps|
  {
    if steps != [] && !GivesCause(sch, t, s, steps[0], w) {
      StepCauses(sch, t, s, steps[0], w);
      FailureHasCause(sch, t, Apply(sch, t, s, steps[0]), steps[1..], s', w);
    }
  }

  /** The steps of a run in which nothing is refused, fails, crashes, is given up or is tampered with. */
  predicate Smooth(step: Step) {
    || step.Admit? || step.ObserveMember? || step.ReleaseBarrier? || step.FailBarrier?
    || step.PublishRunning? || step.Exit?
  }

  function ClockAfter(step: Step, clock: int): int {
    if step.Admit? || step.ObserveMember? || step.ReleaseBarrier? || step.FailBarrier? || step.PublishRunning?
    then step.now else clock
  }

  /** Clock readings do not run backwards and leave room for one phase. */
  predicate Timely(t: Timeouts, step: Step, clock: int) {
    clock <= ClockAfter(step, clock) <= MAX_SAFE_INTEGER - PerWave(t)
  }

  ghost predicate SmoothRun(sch: Schedule, t: Timeouts, s: State, steps: seq<Step>, s': State, clock: int, clock': int)
    decreases |steps|
  {
    if steps == [] then s' == s && clock' == clock
    else
      && |s.local| == |sch| && Enabled(sch, t, s, steps[0]) && Smooth(steps[0]) && Timely(t, steps[0], clock)
      && SmoothRun(sch, t, Apply(sch, t, s, steps[0]), steps[1..], s', ClockAfter(steps[0], clock), clock')
  }

  /** The file of a worker says exactly how far it has come. */
  ghost predicate FileCurrent(sch: Schedule, s: State, v: nat, clock: int)
    requires v < |sch| == |s.local|
  {
    var path := sch[v].path;
    if s.local[v].Created? then path !in s.files
    else
      && path in s.files && Carries(s.files[path], sch[v].scope) && s.files[path].hardware == NoOutcome
      && s.files[path].phaseStart.Some? && 0 <= s.files[path].phaseStart.value <= clock
      && (s.local[v].Waiting? ==> s.files[path].state == Starting && s.files[path].phase == WaitingBarrier)
      && (s.local[v].Launching? ==> s.files[path].state == Starting && s.files[path].phase == ActivePhase)
      && (s.local[v].RanOk? || s.local[v].Exited? ==>
            s.files[path].state == Running && s.files[path].phase == ActivePhase)
  }

  /** A worker that has met no failure: what it saw ran, and if it settled it published `running`. */
  ghost predicate LocalSmooth(sch: Schedule, s: State, v: nat)
    requires v < |sch| == |s.local|
  {
    && !s.local[v].FailedStatus? && !s.local[v].Crashed?
    && (s.local[v].Waiting? ==>
          && |s.local[v].seen| == |sch[v].barrier|
          && forall k | 0 <= k < |s.local[v].seen| :: s.local[v].seen[k] == Unseen || s.local[v].seen[k] == SawRunning)
    && (s.local[v].RanOk? || s.local[v].Exited? ==> PubRunning(v) in s.history)
  }

  ghost predicate SmoothInv(sch: Schedule, s: State, clock: int) {
    && |s.local| == |sch| && 0 <= clock
    && forall v | 0 <= v < |sch| :: FileCurrent(sch, s, v, clock) && LocalSmooth(sch, s, v)
  }

  /** While nothing goes wrong, reading a member tells whether its owner has run, and nothing worse. */
  lemma MemberReadsWell(sch: Schedule, t: Timeouts, s: State, w: nat, k: nat, v: nat, now: int, clock: int)
    requires ValidSchedule(sch) && WithinBounds(t) && SmoothInv(sch, s, clock) && w < |sch| && k < |sch[w].barrier|
    requires Owns(sch, v, w, k) && clock <= now && clock <= MAX_SAFE_INTEGER - PerWave(t)
    ensures ReadMember(sch[w], s, t, k, now) ==
            if s.local[v].RanOk? || s.local[v].Exited? then Some(SawRunning) else None
  {
    assert FileCurrent(sch, s, v, clock) && LocalSmooth(sch, s, v);
    assert ValidBarrier(sch[w].barrier, sch[w].scope.runId, sch[w].scope.wave);
  }

  lemma ObservingStaysSmooth(sch: Schedule, t: Timeouts, s: State, step: Step, clock: int)
    requires ValidSchedule(sch) && WithinBounds(t) && SmoothInv(sch, s, clock)
    requires Enabled(sch, t, s, step) && step.ObserveMember? && Timely(t, step, clock)
    ensures SmoothInv(sch, Apply(sch, t, s, step), step.now)
  {
    var s', w, k := Apply(sch, t, s, step), step.w, step.k;
    assert HasOwner(sch, w, k);
    var o: nat :| Owns(sch, o, w, k);
    MemberReadsWell(sch, t, s, w, k, o, step.now, clock);
    forall v | 0 <= v < |sch| ensures FileCurrent(sch, s', v, step.now) && LocalSmooth(sch, s', v) {
      assert FileCurrent(sch, s, v, clock) && LocalSmooth(sch, s, v);
    }
  }

  /** A publication of worker `w` that moves it forward keeps every file current. */
  lemma PublishStaysSmooth(sch: Schedule, s: State, w: nat, state: StateField, phase: PhaseField, now: int,
                           pub: Publication, next: Local, clock: int)
    requires ValidSchedule(sch) && SmoothInv(sch, s, clock) && clock <= now && w < |sch|
    requires next.Waiting? || next.Launching? || next.RanOk?
    requires next.Waiting? ==> state == Starting && phase == WaitingBarrier && |next.seen| == |sch[w].barrier|
    requires next.Waiting? ==> forall k | 0 <= k < |next.seen| :: next.seen[k] == Unseen
    requires next.Launching? ==> state == Starting && phase == ActivePhase
    requires next.RanOk? ==> state == Running && phase == ActivePhase && pub == PubRunning(w)
    ensures SmoothInv(sch, Publish(sch, s, w, state, phase, now, pub, next), now)
  {
    var s' := Publish(sch, s, w, state, phase, now, pub, next);
    forall v | 0 <= v < |sch| ensures FileCurrent(sch, s', v, now) && LocalSmooth(sch, s', v) {
      assert FileCurrent(sch, s, v, clock) && LocalSmooth(sch, s, v);
      if v != w { assert sch[v].path != sch[w].path; }
      assert PubRunning(v) in s.history ==> PubRunning(v) in s'.history;
    }
  }

  lemma ExitStaysSmooth(sch: Schedule, s: State, w: nat, clock: int)
    requires SmoothInv(sch, s, clock) && w < |sch| && s.local[w].RanOk?
    ensures SmoothInv(sch, s.(local := s.local[w := Exited]), clock)
  {
    var s' := s.(local := s.local[w := Exited]);
    forall v | 0 <= v < |sch| ensures FileCurrent(sch, s', v, clock) && LocalSmooth(sch, s', v) {
      assert FileCurrent(sch, s, v, clock) && LocalSmooth(sch, s, v);
    }
  }

  lemma SmoothBarrierHolds(sch: Schedule, s: State, w: nat, clock: int)
    requires SmoothInv(sch, s, clock) && w < |sch| && s.local[w].Waiting? && |s.local[w].seen| == |sch[w].barrier|
    ensures !BarrierFails(sch[w], s.local[w].seen)
  {
    assert LocalSmooth(sch, s, w);
  }

  lemma StepStaysSmooth(sch: Schedule, t: Timeouts, s: State, step: Step, clock: int)
    requires ValidSchedule(sch) && WithinBounds(t) && SmoothInv(sch, s, clock)
    requires Enabled(sch, t, s, step) && Smooth(step) && Timely(t, step, clock)
    ensures SmoothInv(sch, Apply(sch, t, s, step), ClockAfter(step, clock))
  {
    match step
    case Admit(w, now) =>
      if sch[w].barrier == [] {
        PublishStaysSmooth(sch, s, w, Starting, ActivePhase, now, PubStarting(w), Launching, clock);
      } else {
        var seen := seq(|sch[w].barrier|, _ => Unseen);
        PublishStaysSmooth(sch, s, w, Starting, WaitingBarrier, now, PubStarting(w), Waiting(seen), clock);
      }
    case ObserveMember(_, _, _) => ObservingStaysSmooth(sch, t, s, step, clock);
    case ReleaseBarrier(w, now) =>
      PublishStaysSmooth(sch, s, w, Starting, ActivePhase, now, PubStarting(w), Launching, clock);
    case FailBarrier(w, _) => SmoothBarrierHolds(sch, s, w, clock);
    case PublishRunning(w, now) =>
      PublishStaysSmooth(sch, s, w, Running, ActivePhase, now, PubRunning(w), RanOk, clock);
    case Exit(w) => ExitStaysSmooth(sch, s, w, clock);
  }

  lemma {:induction false} RunStaysSmooth(sch: Schedule, t: Timeouts, s: State, steps: seq<Step>, s': State,
                                          clock: int, clock': int)
    requires ValidSchedule(sch) && WithinBounds(t) && SmoothInv(sch, s, clock)
    requires SmoothRun(sch, t, s, steps, s', clock, clock')
    ensures SmoothInv(sch, s', clock') && clock <= clock'
    ensures steps != [] ==> clock' <= MAX_SAFE_INTEGER - PerWave(t) || clock' == clock
    decreases |steps|
  {
    if steps != [] {
      StepStaysSmooth(sch, t, s, steps[0], clock);
      RunStaysSmooth(sch, t, Apply(sch, t, s, steps[0]), steps[1..], s', ClockAfter(steps[0], clock), clock');
    }
  }

  /** No smooth step can be taken at this clock reading. */
  ghost predicate Finished(sch: Schedule, t: Timeouts, s: State, clock: int)
    requires |s.local| == |sch|
  {
    forall step: Step :: Smooth(step) && Timely(t, step, clock) ==> !Enabled(sch, t, s, step)
  }

  lemma UnfinishedWorkerMoves(sch: Schedule, t: Timeouts, s: State, u: nat, clock: int) returns (step: Step)
    requires ValidSchedule(sch) && WithinBounds(t) && SmoothInv(sch, s, clock) && clock <= MAX_SAFE_INTEGER - PerWave(t)
    requires Unsettled(sch, s, u) && Unblocked(sch, s, u)
    ensures Smooth(step) && Timely(t, step, clock) && Enabled(sch, t, s, step)
  {
    assert LocalSmooth(sch, s, u);
    match s.local[u]
    case Created => step := Admit(u, clock);
    case Launching => step := PublishRunning(u, clock);
    case Waiting(seen) =>
      if AllSeen(seen) {
        step := ReleaseBarrier(u, clock);
      } else {
        var k: nat :| k < |seen| && seen[k] == Unseen;
        assert HasOwner(sch, u, k);
        var v: nat :| Owns(sch, v, u, k);
        assert LocalSmooth(sch, s, v);
        MemberReadsWell(sch, t, s, u, k, v, clock, clock);
        step := ObserveMember(u, k, clock);
      }
  }

  /**
   * When nothing goes wrong, everything runs. From a clean start, in every interleaving in which no worker is
   * refused, fails, crashes or gives up and no file is touched, a state in which no worker can take a
   * step has every worker exited after publishing `running`, and nobody ever published `failed`.
   */
  lemma SmoothRunsRunEverything(sch: Schedule, t: Timeouts, s: State, steps: seq<Step>, s': State,
                                clock: int, clock': int, w: nat)
    requires ValidSchedule(sch) && WithinBounds(t) && 0 <= clock <= MAX_SAFE_INTEGER - PerWave(t)
    requires Initial(sch, s) && forall v | 0 <= v < |sch| :: sch[v].path !in s.files
    requires SmoothRun(sch, t, s, steps, s', clock, clock')
    requires |s'.local| == |sch| && Finished(sch, t, s', clock') && w < |sch|
    ensures s'.local[w].Exited? && PubRunning(w) in s'.history && PubFailed(w) !in s'.history
  {
    SmoothRunsPublishNoFailure(sch, t, s, steps, s', clock, clock', w);
    RunStaysSmooth(sch, t, s, steps, s', clock, clock');
    assert LocalSmooth(sch, s', w);
    if s'.local[w].RanOk? {
      assert Enabled(sch, t, s', Exit(w));
    } else if !s'.local[w].Exited? {
      var u := SomeWorkerIsUnblocked(sch, s', w);
      var step := UnfinishedWorkerMoves(sch, t, s', u, clock');
    }
  }

  lemma {:induction false} SmoothRunsPublishNoFailure(sch: Schedule, t: Timeouts, s: State, steps: seq<Step>, s': State,
                                                      clock: int, clock': int, w: nat)
    requires ValidSchedule(sch) && WithinBounds(t) && SmoothInv(sch, s, clock) && PubFailed(w) !in s.history
    requires SmoothRun(sch, t, s, steps, s', clock, clock')
    ensures PubFailed(w) !in s'.history
    decreases |steps|
  {
    if steps != [] {
      var next := Apply(sch, t, s, steps[0]);
      StepStaysSmooth(sch, t, s, steps[0], clock);
      if steps[0].FailBarrier? { SmoothBarrierHolds(sch, s, steps[0].w, clock); }
      SmoothRunsPublishNoFailure(sch, t, next, steps[1..], s', ClockAfter(steps[0], clock), clock', w);
    }
  }
}
