/**
 * Which log the `logs` command may read and when: cli/commands/logCommands.js over the run
 * fence of cli/commands/noWaitLogObserver.js.
 *
 * The registry, the run marker, the status file and the files themselves may change between
 * any two reads, and every read, proof, open and write may fail. The class appends one event
 * per effect; `View` summarises the events so far and `Gate` says when an event is allowed.
 */
module LogSource {
  import opened Common
  import opened NoWaitProtocol

  /** The immutable identity of one no-wait run. */
  datatype Identity = Identity(container: nat, instanceId: nat, enableGeneration: nat, repo: nat, agent: nat,
                               alias: Option<nat>, routeKey: nat,
                               runId: RunId, runStart: int, wave: int, statusFile: nat)

  datatype Runtime = OciRuntime(name: nat) | SandboxRuntime(name: nat) | NoLogRuntime

  /** A registry record; `None` fields are absent or malformed. */
  datatype Record = Record(isAgent: bool, instanceId: Option<nat>, enableGeneration: Option<nat>,
                           repo: Option<nat>, agent: Option<nat>, alias: Option<nat>,
                           runtime: Runtime, containerId: Option<nat>, pid: Option<int>)

  /** The identity a registry record gives to the run named by `m`. */
  function IdentityFromRecord(container: nat, r: Record, m: Identity): Option<Identity> {
    if r.instanceId.None? || r.enableGeneration.None? || r.repo.None? || r.agent.None? then None
    else Some(Identity(container, r.instanceId.value, r.enableGeneration.value, r.repo.value, r.agent.value,
                       r.alias, if r.alias.Some? then r.alias.value else r.agent.value,
                       m.runId, m.runStart, m.wave, m.statusFile))
  }

  predicate SameTuple(x: Record, y: Record) {
    x.instanceId == y.instanceId && x.enableGeneration == y.enableGeneration
  }

  datatype Source =
    | Startup(fd: nat, container: nat, runId: RunId)
    | Sandbox(fd: nat, runtime: Runtime, pid: int)
    | Oci(runtime: Runtime, containerId: nat)

  predicate SourceMatches(s: Source, r: Record) {
    match s
    case Startup(_, _, _) => false
    case Sandbox(_, runtime, pid) => runtime == r.runtime && r.pid == Some(pid)
    case Oci(runtime, containerId) => runtime == r.runtime && r.containerId == Some(containerId)
  }

  predicate HoldsDescriptor(s: Option<Source>) { s.Some? && !s.value.Oci? }

  // -------- One poll of the bound run --------

  datatype Seen = SeenPending | SeenStarting | SeenRunning | SeenFailed

  datatype StatusFile = StatusFile(identity: Option<Identity>, document: StatusDocument)

  datatype Verdict = See(seen: Seen) | Stale | Rejected

  /** What the status file says about the bound run at `now`. */
  function Classify(status: Option<StatusFile>, bound: Identity, t: Timeouts, now: int): Verdict {
    if now < 0 || !SafeInteger(now + t.startupGrace) || bound.runStart > now + t.startupGrace then Rejected
    else if status.None? then
      var deadline := bound.runStart + t.startupGrace;
      if !SafeInteger(deadline) then Rejected else if now > deadline then Stale else See(SeenPending)
    else if status.value.identity != Some(bound) then Rejected
    else
      match ResolveObservation(status.value.document, RunScope(bound.runId, bound.runStart, bound.wave), t, now)
      case Invalid => Rejected
      case Settled(TerminalRunning) => See(SeenRunning)
      case Settled(TerminalFailed) => See(SeenFailed)
      case Queued(_) =>
        var deadline := QueuedDeadline(bound.runStart, bound.wave, t);
        if deadline.None? then Rejected else if now > deadline.value then Stale else See(SeenStarting)
      case Active(deadline, _) => if now > deadline then Stale else See(SeenStarting)
  }

  /** The clock and the run start are plausible together. */
  predicate Plausible(bound: Identity, t: Timeouts, now: int) {
    0 <= now && SafeInteger(now + t.startupGrace) && bound.runStart <= now + t.startupGrace
  }

  ghost predicate OwnStatus(status: Option<StatusFile>, bound: Identity) {
    && status.Some? && status.value.identity == Some(bound)
    && Carries(status.value.document, RunScope(bound.runId, bound.runStart, bound.wave))
  }

  /** A start with a budget that ends at `end`: that of its wave while queued, its own once active. */
  ghost predicate StartsUntil(status: Option<StatusFile>, bound: Identity, t: Timeouts, now: int, end: int) {
    && OwnStatus(status, bound) && status.value.document.state == Starting && SafeInteger(end)
    && var doc := status.value.document;
       || (doc.phase == WaitingBarrier && 0 <= bound.wave <= MAX_WAVE_INDEX
           && end == WaveBudgetEnd(bound.runStart, bound.wave, t))
       || (doc.phase == ActivePhase && doc.phaseStart.Some? && doc.phaseStart.value <= now + t.terminalGrace
           && end == doc.phaseStart.value + t.active + t.terminalGrace)
  }

  /** Exactly when a run counts as running, failed, pending, starting or stale. */
  lemma ClassifyMeaning(status: Option<StatusFile>, bound: Identity, t: Timeouts, now: int)
    ensures Classify(status, bound, t, now) == See(SeenRunning) <==>
              && Plausible(bound, t, now) && OwnStatus(status, bound)
              && status.value.document.state == Running && status.value.document.phase == ActivePhase
    ensures Classify(status, bound, t, now) == See(SeenFailed) <==>
              && Plausible(bound, t, now) && OwnStatus(status, bound) && status.value.document.state == Failed
              && !status.value.document.phase.UnknownPhase? && !status.value.document.hardware.InvalidOutcome?
    ensures Classify(status, bound, t, now) == See(SeenPending) <==>
              && Plausible(bound, t, now) && status.None?
              && SafeInteger(bound.runStart + t.startupGrace) && now <= bound.runStart + t.startupGrace
    ensures Classify(status, bound, t, now) == See(SeenStarting) <==>
              Plausible(bound, t, now) && exists end :: StartsUntil(status, bound, t, now, end) && now <= end
    ensures Classify(status, bound, t, now) == Stale <==>
              && Plausible(bound, t, now)
              && (|| (exists end :: StartsUntil(status, bound, t, now, end) && now > end)
                  || (&& status.None? && SafeInteger(bound.runStart + t.startupGrace)
                      && now > bound.runStart + t.startupGrace))
  {
    if status.Some? && status.value.document.Document? {
      var doc := status.value.document;
      var end :=
        if doc.phase == ActivePhase && doc.phaseStart.Some? then doc.phaseStart.value + t.active + t.terminalGrace
        else WaveBudgetEnd(bound.runStart, bound.wave, t);
      assert forall x :: StartsUntil(status, bound, t, now, x) ==> x == end;
      assert StartsUntil(status, bound, t, now, end) || !StartsUntil(status, bound, t, now, end);
    }
  }

  // -------- The discipline of one command --------

  datatype Command = Command(container: nat, startup: bool, last: bool)

  datatype Event =
    | RegistryUnreadable | ReadRegistry(record: Option<Record>)
    | MarkerUnreadable | ReadMarker(marker: Option<Identity>)
    | StatusUnusable | ReadStatus(seen: Seen)
    | WorkerProof(ok: bool)
    | BoundTo(bound: Record) | BoundRun(run: Identity)
    | Observed(now: Seen)
    | Acquired(source: Source) | Released(fd: nat) | Emitted
    | ProofRefused | OpenRefused | OpenAbsent   // a runtime is not proved, a log is not to be opened, or is not there
    | MissingLog | StateRefused                 // giving up on an absent log, or on a run that changed its state
    | WriteFailed | ChildExited(code: int) | Served
    | Signalled                                 // the operator's signal ended the wait
    | Trying(what: Try)

  /** The ways to a log that a command may go. */
  datatype Try = CurrentRuntime | BoundRunOf | StartupSuffix | StartupFollow | RunningRuntime

  datatype View = View(
    tuple: Option<Record>, run: Option<Identity>,
    status: Option<Seen>,    // the last read of the status file, and then, in this order,
    worker: bool,            // the worker process was proved,
    marker: bool,            // the marker named the bound run,
    record: Option<Record>,  // the registry named this record
    source: Option<Source>,
    current: bool,             // an observation completed since the source was acquired, with no read begun after it
    observed: Option<Seen>, descriptors: nat,
    first: Option<Seen>,     // the first observation
    absent: bool)            // the last thing tried to open was not there

  const START: View := View(None, None, None, false, false, None, None, false, None, 0, None, false)

  predicate IsRead(e: Event) {
    || e.ReadRegistry? || e.RegistryUnreadable? || e.ReadMarker? || e.MarkerUnreadable?
    || e.ReadStatus? || e.StatusUnusable? || e.WorkerProof?
  }

  /** What comes before the marker in an observation, or takes its place. */
  predicate RestartsObservation(e: Event) { e.ReadStatus? || e.StatusUnusable? || e.WorkerProof? || e.Acquired? }

  function Watch(v: View, e: Event): View {
    View(
      tuple := if e.BoundTo? then Some(e.bound) else v.tuple,
      run := if e.BoundRun? then Some(e.run) else v.run,
      status := if e.ReadStatus? then Some(e.seen) else if e.StatusUnusable? || e.Acquired? then None else v.status,
      worker := if e.WorkerProof? then e.ok else v.worker && !e.ReadStatus? && !e.StatusUnusable? && !e.Acquired?,
      marker := if e.ReadMarker? then v.run.Some? && e.marker == v.run
                else v.marker && !e.MarkerUnreadable? && !RestartsObservation(e),
      record := if e.ReadRegistry? then e.record else if IsRead(e) || e.Acquired? then None else v.record,
      source := if e.Acquired? then Some(e.source) else if e.Released? then None else v.source,
      current := e.Observed? || (v.current && !IsRead(e) && !e.Acquired?),
      observed := if e.Observed? then Some(e.now) else v.observed,
      descriptors := if e.Acquired? && !e.source.Oci? then v.descriptors + 1 else v.descriptors,
      first := if e.Observed? && v.first.None? then Some(e.now) else v.first,
      absent := e.OpenAbsent? || (v.absent && !e.Acquired? && !IsRead(e)))
  }

  /** The current marker and then the current registry record carried the bound identity. */
  predicate RunFenced(c: Command, v: View) {
    && v.run.Some? && v.marker
    && v.record.Some? && v.record.value.isAgent
    && IdentityFromRecord(c.container, v.record.value, v.run.value) == v.run
  }

  /** The current registry record has the bound generation and names exactly this runtime source. */
  predicate RuntimeFenced(v: View, s: Source) {
    && v.record.Some? && v.record.value.isAgent
    && v.tuple.Some? && SameTuple(v.record.value, v.tuple.value)
    && SourceMatches(s, v.record.value)
  }

  predicate MayEmit(c: Command, v: View) {
    && v.source.Some?
    && if v.source.value.Startup? then
         v.current && RunFenced(c, v) && (c.last && !c.startup ==> v.observed != Some(SeenRunning))
       else
         && RuntimeFenced(v, v.source.value)
         && (v.observed.None? || v.observed == Some(SeenFailed) || (v.observed == Some(SeenRunning) && v.current))
  }

  predicate MayAcquire(c: Command, v: View, s: Source) {
    && !HoldsDescriptor(v.source)
    && (!s.Oci? ==> s.fd == v.descriptors)
    && if s.Startup? then v.run.Some? && s.container == c.container && s.runId == v.run.value.runId else !c.startup
  }

  predicate Gate(c: Command, v: View, e: Event) {
    && (e.BoundTo? ==> v.tuple.None? && v.record == Some(e.bound))
    && (e.BoundRun? ==>
          && v.run.None? && v.tuple.Some? && v.tuple.value.isAgent
          && IdentityFromRecord(c.container, v.tuple.value, e.run) == Some(e.run))
    && (e.Observed? ==> v.status == Some(e.now) && (e.now.SeenStarting? ==> v.worker) && RunFenced(c, v))
    && (e.Acquired? ==> MayAcquire(c, v, e.source))
    && (e.Released? ==> HoldsDescriptor(v.source) && v.source.value.fd == e.fd)
    && (e.Emitted? || e.Served? ==> MayEmit(c, v))
    && (e.MissingLog? ==>
          && v.absent
          && (|| c.last || v.first == Some(SeenFailed)
              || v.observed == Some(SeenRunning) || v.observed == Some(SeenFailed)))
    && (e.StateRefused? ==> !c.startup && v.observed.Some? && v.observed.value !in SuffixStates(c, v.first))
  }

  /** The states in which the startup log of a run may be shown, given how the run was first seen. */
  function SuffixStates(c: Command, first: Option<Seen>): set<Seen> {
    if c.startup then {SeenPending, SeenStarting, SeenRunning, SeenFailed}
    else if first == Some(SeenFailed) then {SeenFailed} else {SeenPending, SeenStarting}
  }

  // -------- Why the command ends as it does --------

  datatype Ledger = Ledger(
    tried: set<Try>,
    trouble: bool,           // something went wrong in the last way tried
    startup: bool,           // bytes of the startup log were served
    runtime: bool,           // bytes of a runtime were served
    signalled: bool)

  const BLANK: Ledger := Ledger({}, false, false, false, false)

  predicate HoldsRuntime(v: View) { v.source.Some? && !v.source.value.Startup? }

  /** The registry does not name the bound generation, the bound run or the source in hand. */
  predicate RecordRefused(v: View, r: Option<Record>) {
    || r.None?
    || (v.tuple.Some? && (!r.value.isAgent || !SameTuple(r.value, v.tuple.value)))
    || (v.run.Some? && IdentityFromRecord(v.run.value.container, r.value, v.run.value) != v.run)
    || (HoldsRuntime(v) && !SourceMatches(v.source.value, r.value))
  }

  /** There is no marker, or it does not name the bound run, or no run of the bound record. */
  predicate MarkerRefused(v: View, m: Option<Identity>) {
    if v.run.Some? then m != v.run
    else
      || m.None? || v.tuple.None? || !v.tuple.value.isAgent
      || IdentityFromRecord(m.value.container, v.tuple.value, m.value) != m
  }

  /** What goes wrong with an event. */
  predicate Troubling(v: View, e: Event) {
    || e.RegistryUnreadable? || e.MarkerUnreadable? || e.StatusUnusable? || e == WorkerProof(false)
    || e.ProofRefused? || e.OpenRefused? || e.MissingLog? || e.StateRefused? || e.WriteFailed?
    || (e.ChildExited? && e.code != 0)
    || (e.ReadRegistry? && RecordRefused(v, e.record))
    || (e.ReadMarker? && MarkerRefused(v, e.marker))
    || (e.Observed? && (e.now.SeenFailed? || (HoldsRuntime(v) && !e.now.SeenRunning?)))
  }

  function Note(l: Ledger, v: View, e: Event): Ledger {
    Ledger(
      tried := if e.Trying? then l.tried + {e.what} else l.tried,
      trouble := if e.Trying? then false else l.trouble || Troubling(v, e),
      startup := l.startup || (e.Served? && v.source.Some? && v.source.value.Startup?),
      runtime := l.runtime || (e.Served? && HoldsRuntime(v)),
      signalled := l.signalled || e.Signalled?)
  }

  ghost predicate StepNoted(t: seq<Event>, views: seq<View>, ledgers: seq<Ledger>, i: int)
    requires 0 <= i < |t| && |views| == |ledgers| == |t| + 1
  {
    ledgers[i + 1] == Note(ledgers[i], views[i], t[i])
  }

  /** `ledgers` are the accounts before each event. */
  ghost predicate Noted(t: seq<Event>, views: seq<View>, ledgers: seq<Ledger>) {
    && |views| == |ledgers| == |t| + 1 && ledgers[0] == BLANK
    && forall i | 0 <= i < |t| :: StepNoted(t, views, ledgers, i)
  }

  ghost predicate StepLegal(c: Command, t: seq<Event>, views: seq<View>, i: int)
    requires 0 <= i < |t| && |views| == |t| + 1
  {
    Gate(c, views[i], t[i]) && views[i + 1] == Watch(views[i], t[i])
  }

  ghost predicate Legal(c: Command, t: seq<Event>, views: seq<View>) {
    && |views| == |t| + 1
    && views[0] == START
    && forall i | 0 <= i < |t| :: StepLegal(c, t, views, i)
  }

  lemma LegalExtends(c: Command, t: seq<Event>, views: seq<View>, e: Event)
    requires Legal(c, t, views) && Gate(c, views[|t|], e)
    ensures Legal(c, t + [e], views + [Watch(views[|t|], e)])
  {
    var t', views' := t + [e], views + [Watch(views[|t|], e)];
    forall i | 0 <= i < |t'| ensures StepLegal(c, t', views', i) {
      if i < |t| { assert StepLegal(c, t, views, i); }
    }
  }

  lemma NotedExtends(t: seq<Event>, views: seq<View>, ledgers: seq<Ledger>, e: Event, v: View)
    requires Noted(t, views, ledgers)
    ensures Noted(t + [e], views + [v], ledgers + [Note(ledgers[|t|], views[|t|], e)])
  {
    var t', views', ledgers' := t + [e], views + [v], ledgers + [Note(ledgers[|t|], views[|t|], e)];
    forall i | 0 <= i < |t'| ensures StepNoted(t', views', ledgers', i) {
      if i < |t| { assert StepNoted(t, views, ledgers, i); }
    }
  }

  // -------- The command --------

  /** An answer that no observation of `run` survives. */
  predicate Refuses(c: Command, run: Identity, e: Event) {
    || e.StatusUnusable? || e == WorkerProof(false)
    || e.MarkerUnreadable? || (e.ReadMarker? && e.marker != Some(run))
    || e.RegistryUnreadable?
    || (e.ReadRegistry? && (e.record.None? || !e.record.value.isAgent
                            || IdentityFromRecord(c.container, e.record.value, run) != Some(run)))
  }

  datatype Seeing = Saw(seen: Seen, record: Record) | SawStale | SawError

  datatype Suffix = Fenced(seen: Seen) | Absent | SuffixError

  datatype Acquisition = Ready(seen: Seen, record: Record) | Interrupted | AcquireError

  datatype Followed = FollowedRunning(record: Record) | FollowedFailed | FollowedError | Cancelled

  predicate NotTerminal(observed: Option<Seen>) { observed == Some(SeenPending) || observed == Some(SeenStarting) }

  /** What the end of a follow says about the last observation. */
  predicate FollowMeans(r: Followed, before: Option<Seen>, observed: Option<Seen>) {
    && (r.FollowedRunning? ==> observed == Some(SeenRunning))
    && (r.FollowedFailed? ==> observed == Some(SeenFailed))
    && (r.Cancelled? ==> observed == before || NotTerminal(observed))
  }

  class Session {
    const command: Command
    const timeouts: Timeouts
    var bound: Option<Record>      // the registry record the target resolved to
    var binding: Option<Identity>  // the run the marker named
    var held: Option<Source>       // the log source acquired last
    var descriptors: nat           // descriptors opened so far
    var trace: seq<Event>
    ghost var views: seq<View>
    ghost var view: View
    ghost var ledgers: seq<Ledger>
    ghost var ledger: Ledger

    ghost predicate Valid()
      reads this
    {
      && Legal(command, trace, views) && view == views[|trace|]
      && Noted(trace, views, ledgers) && ledger == ledgers[|trace|]
      && bound == view.tuple && binding == view.run && held == view.source && descriptors == view.descriptors
      && (view.first.None? <==> view.observed.None?)
      && (binding.Some? ==>
            && bound.Some? && bound.value.isAgent
            && IdentityFromRecord(command.container, bound.value, binding.value) == binding)
    }

    /** Nothing noted is forgotten. */
    ghost predicate Grew(l: Ledger)
      reads this
    {
      && l.tried <= ledger.tried && (l.startup ==> ledger.startup) && (l.runtime ==> ledger.runtime)
      && (l.signalled ==> ledger.signalled)
    }

    ghost predicate SameHold(v: View)
      reads this
    {
      view.tuple == v.tuple && view.run == v.run && view.source == v.source
    }

    ghost predicate SameSight(v: View)
      reads this
    {
      view.observed == v.observed && view.first == v.first
    }

    ghost predicate SameFirst(v: View)
      reads this
    {
      v.first.Some? ==> view.first == v.first
    }

    /** Same bindings, and no descriptor is held. */
    ghost predicate LetGo(v: View)
      reads this
    {
      view.tuple == v.tuple && view.run == v.run && !HoldsDescriptor(view.source)
    }

    constructor (command: Command, timeouts: Timeouts)
      ensures Valid() && trace == [] && view == START && ledger == BLANK
      ensures this.command == command && this.timeouts == timeouts
    {
      this.command, this.timeouts := command, timeouts;
      bound, binding, held, descriptors := None, None, None, 0;
      trace := [];
      view, ledger := START, BLANK;
      views, ledgers := [START], [BLANK];
    }

    /** Appends one effect; the caller has to show that it is allowed now. */
    method Perform(e: Event)
      requires Valid() && Gate(command, view, e)
      modifies this
      ensures Valid() && view == Watch(old(view), e) && trace == old(trace) + [e]
      ensures ledger == Note(old(ledger), old(view), e)
    {
      LegalExtends(command, trace, views, e);
      NotedExtends(trace, views, ledgers, e, Watch(view, e));
      ledger := Note(ledger, view, e);
      ledgers := ledgers + [ledger];
      trace := trace + [e];
      view := Watch(view, e);
      views := views + [view];
      if e.BoundTo? { bound := Some(e.bound); }
      if e.BoundRun? { binding := Some(e.run); }
      if e.Acquired? {
        held := Some(e.source);
        if !e.source.Oci? { descriptors := descriptors + 1; }
      }
      if e.Released? { held := None; }
    }

    /** The container's record in the registry of this moment; `Err` when it cannot be read. */
    method ReadRecord() returns (r: Result<Option<Record>, ()>)
      requires Valid()
      modifies this
      ensures Valid()
      ensures view == old(view).(record := if r.Ok? then r.value else None, current := false, absent := false)
      ensures trace == old(trace) + [if r.Ok? then ReadRegistry(r.value) else RegistryUnreadable]
      ensures ledger == old(ledger).(trouble := old(ledger.trouble) || r.Err? || RecordRefused(old(view), r.value))
    {
      var readable: bool := *;
      var record: Option<Record> := *;
      r := if readable then Ok(record) else Err(());
      if r.Ok? { Perform(ReadRegistry(r.value)); } else { Perform(RegistryUnreadable); }
    }

    /** Appends what a read of the run marker came to. */
    method EnterMarker(r: Result<Option<Identity>, ()>)
      requires Valid()
      modifies this
      ensures Valid() && view == old(view).(marker := r.Ok? && old(view.run).Some? && r.value == old(view.run),
                                            record := None, current := false, absent := false)
      ensures trace == old(trace) + [if r.Ok? then ReadMarker(r.value) else MarkerUnreadable]
      ensures ledger == old(ledger).(trouble := old(ledger.trouble) || r.Err? || MarkerRefused(old(view), r.value))
    {
      if r.Ok? { Perform(ReadMarker(r.value)); } else { Perform(MarkerUnreadable); }
    }

    method ReadRunMarker() returns (r: Result<Option<Identity>, ()>)
      requires Valid()
      modifies this
      ensures Valid() && view == old(view).(marker := r.Ok? && old(view.run).Some? && r.value == old(view.run),
                                            record := None, current := false, absent := false)
      ensures trace == old(trace) + [if r.Ok? then ReadMarker(r.value) else MarkerUnreadable]
      ensures ledger == old(ledger).(trouble := old(ledger.trouble) || r.Err? || MarkerRefused(old(view), r.value))
      ensures r.Ok? && r.value.Some? ==> r.value.value.container == command.container
    {
      var readable: bool := *;
      var marker: Option<Identity> := *;
      r := if readable && (marker.Some? ==> marker.value.container == command.container) then Ok(marker) else Err(());
      EnterMarker(r);
    }

    /** Appends what a read of the status file came to. */
    method EnterStatus(v: Verdict)
      requires Valid()
      modifies this
      ensures Valid() && view == old(view).(status := if v.See? then Some(v.seen) else None, worker := false,
                                            marker := false, record := None, current := false, absent := false)
      ensures trace == old(trace) + [if v.See? then ReadStatus(v.seen) else StatusUnusable]
      ensures ledger == old(ledger).(trouble := old(ledger.trouble) || !v.See?)
    {
      if v.See? { Perform(ReadStatus(v.seen)); } else { Perform(StatusUnusable); }
    }

    method ReadStatusFile() returns (v: Verdict)
      requires Valid() && binding.Some?
      modifies this
      ensures Valid() && view == old(view).(status := if v.See? then Some(v.seen) else None, worker := false,
                                            marker := false, record := None, current := false, absent := false)
      ensures trace == old(trace) + [if v.See? then ReadStatus(v.seen) else StatusUnusable]
      ensures ledger == old(ledger).(trouble := old(ledger.trouble) || !v.See?)
    {
      var readable: bool := *;
      var status: Option<StatusFile> := *;
      var now: int := *;
      v := if readable then Classify(status, binding.value, timeouts, now) else Rejected;
      EnterStatus(v);
    }

    /** The marker and then the registry still carry the bound identity. */
    method FenceRun() returns (r: Option<Record>)
      requires Valid() && binding.Some?
      modifies this
      ensures Valid() && SameHold(old(view)) && view.observed == old(view.observed) && view.first == old(view.first)
      ensures view.status == old(view.status) && view.worker == old(view.worker)
      ensures r.None? ==> ledger.trouble
      ensures r.Some? && HoldsRuntime(view) && !SourceMatches(view.source.value, r.value) ==> ledger.trouble
      ensures r.Some? ==> RunFenced(command, view) && view.record == r
      ensures r.None? ==> trace != [] && Refuses(command, binding.value, trace[|trace| - 1])
      ensures old(trace) <= trace && Grew(old(ledger))
    {
      var marker := ReadRunMarker();
      if marker.Err? || marker.value != binding { return None; }
      var record := ReadRecord();
      if record.Err? || record.value.None? || !record.value.value.isAgent { return None; }
      if IdentityFromRecord(command.container, record.value.value, binding.value) != binding { return None; }
      return record.value;
    }

    method ProveWorker() returns (ok: bool)
      requires Valid()
      modifies this
      ensures Valid()
      ensures view == old(view).(worker := ok, marker := false, record := None, current := false, absent := false)
      ensures trace == old(trace) + [WorkerProof(ok)]
      ensures ledger == old(ledger).(trouble := old(ledger.trouble) || !ok)
    {
      ok := *;
      Perform(WorkerProof(ok));
    }

    method Complete(seen: Seen)
      requires Valid() && view.status == Some(seen) && (seen.SeenStarting? ==> view.worker) && RunFenced(command, view)
      modifies this
      ensures Valid() && RunFenced(command, view)
      ensures view == old(view).(current := true, observed := Some(seen),
                                 first := if old(view.first).None? then Some(seen) else old(view.first))
      ensures ledger == old(ledger).(trouble := || old(ledger.trouble) || seen.SeenFailed?
                                                || (HoldsRuntime(old(view)) && !seen.SeenRunning?))
      ensures old(trace) <= trace
    {
      Perform(Observed(seen));
    }

    /** The evidence of one poll: what the status file says and, while starting, that the worker is there. */
    method Evidence() returns (r: Result<Seen, bool>)
      requires Valid() && binding.Some?
      modifies this
      ensures Valid() && SameHold(old(view)) && view.observed == old(view.observed) && view.first == old(view.first)
      ensures r.Ok? ==> view.status == Some(r.value) && (r.value.SeenStarting? ==> view.worker)
      ensures r.Ok? ==> ledger == old(ledger)
      ensures r.Err? ==> trace != [] && Refuses(command, binding.value, trace[|trace| - 1])
      ensures r.Err? ==> ledger == old(ledger).(trouble := true)
      ensures old(trace) <= trace
    {
      var v := ReadStatusFile();
      if !v.See? { return Err(v.Stale?); }
      if v.seen.SeenStarting? {
        var proved := ProveWorker();
        if !proved {
          var stale: bool := *;
          return Err(stale);
        }
      }
      return Ok(v.seen);
    }

    /** One poll: status, worker proof, marker, registry, in that order. */
    method Observe() returns (r: Seeing)
      requires Valid() && binding.Some?
      modifies this
      ensures Valid() && SameHold(old(view))
      ensures view.first == if old(view.first).Some? then old(view.first) else view.observed
      ensures r.Saw? ==>
          view.current && view.observed == Some(r.seen) && RunFenced(command, view) && view.record == Some(r.record)
      ensures !r.Saw? ==>
          view.observed == old(view.observed) && trace != [] && Refuses(command, binding.value, trace[|trace| - 1])
      ensures !r.Saw? || r.seen.SeenFailed? || (HoldsRuntime(view) && !r.seen.SeenRunning?) ==> ledger.trouble
      ensures HoldsRuntime(view) && r.Saw? && !SourceMatches(view.source.value, r.record) ==> ledger.trouble
      ensures Grew(old(ledger))
      ensures old(trace) <= trace
    {
      var evidence := Evidence();
      if evidence.Err? { return if evidence.error then SawStale else SawError; }
      var record := FenceRun();
      if record.None? { return SawError; }
      Complete(evidence.value);
      return Saw(evidence.value, record.value);
    }

    /** The registry still names the bound generation. */
    method RevalidateBinding() returns (r: Option<Record>)
      requires Valid() && bound.Some?
      modifies this
      ensures Valid() && SameHold(old(view)) && SameSight(old(view))
      ensures r.Some? ==> view.record == r && r.value.isAgent && SameTuple(r.value, bound.value)
      ensures r.None? ==> ledger.trouble
      ensures r.Some? && HoldsRuntime(view) && !SourceMatches(view.source.value, r.value) ==> ledger.trouble
      ensures old(trace) <= trace && Grew(old(ledger))
    {
      var record := ReadRecord();
      if record.Err? || record.value.None? || !record.value.value.isAgent { return None; }
      if !SameTuple(record.value.value, bound.value) { return None; }
      return record.value;
    }

    /** Something that only leaves a note. */
    method Mark(e: Event)
      requires Valid() && Gate(command, view, e)
      requires e.ProofRefused? || e.OpenRefused? || e.MissingLog? || e.StateRefused? || e.WriteFailed? || e.ChildExited?
      modifies this
      ensures Valid() && view == old(view)
      ensures ledger == old(ledger).(trouble := old(ledger.trouble) || !(e.ChildExited? && e.code == 0))
      ensures old(trace) <= trace
    {
      Perform(e);
    }

    method Begin(what: Try)
      requires Valid()
      modifies this
      ensures Valid() && view == old(view)
      ensures ledger == old(ledger).(tried := old(ledger.tried) + {what}, trouble := false)
      ensures old(trace) <= trace
    {
      Perform(Trying(what));
    }

    method NoteSignal()
      requires Valid()
      modifies this
      ensures Valid() && view == old(view) && ledger == old(ledger).(signalled := true)
      ensures old(trace) <= trace
    {
      Perform(Signalled);
    }

    method Acquire(source: Source)
      requires Valid() && MayAcquire(command, view, source)
      modifies this
      ensures Valid() && held == Some(source) && SameSight(old(view))
      ensures view.tuple == old(view.tuple) && view.run == old(view.run) && ledger == old(ledger)
      ensures old(trace) <= trace
    {
      Perform(Acquired(source));
    }

    /** Proves ownership of the runtime a record names, and pins its log file if it has one. */
    method ResolveRuntimeSource(record: Record) returns (ok: bool)
      requires Valid() && !command.startup && !HoldsDescriptor(view.source)
      modifies this
      ensures Valid() && view.tuple == old(view.tuple) && view.run == old(view.run) && SameSight(old(view))
      ensures ok ==> held.Some? && !held.value.Startup?
      ensures !ok ==> SameHold(old(view)) && ledger.trouble
      ensures old(trace) <= trace && Grew(old(ledger))
    {
      var proved: bool := *;
      var present: bool := *;
      if !proved || record.runtime.NoLogRuntime? { Mark(ProofRefused); return false; }
      if !present && !record.runtime.OciRuntime? { Mark(OpenRefused); return false; }
      var runtime: Runtime := *;
      var containerId: nat := *;
      var pid: int := *;
      Acquire(if record.runtime.OciRuntime? then Oci(runtime, containerId) else Sandbox(descriptors, runtime, pid));
      return true;
    }

    method CloseHeld()
      requires Valid()
      modifies this
      ensures Valid() && LetGo(old(view)) && SameSight(old(view)) && ledger == old(ledger)
      ensures old(view.source).Some? && old(view.source).value.Oci? ==> held == old(held)
      ensures old(view.source).Some? && !old(view.source).value.Oci? ==> held == None
      ensures old(trace) <= trace
    {
      if held.Some? && !held.value.Oci? { Perform(Released(held.value.fd)); }
    }

    /** Acquire the current runtime, then check the registry again before any byte is emitted. */
    method ProveCurrentRuntime() returns (ok: bool)
      requires Valid() && bound.Some? && !command.startup && !HoldsDescriptor(view.source)
      modifies this
      ensures Valid() && view.tuple == old(view.tuple) && view.run == old(view.run) && SameSight(old(view))
      ensures ok ==> held.Some? && !held.value.Startup? && RuntimeFenced(view, held.value)
      ensures !ok ==> !HoldsDescriptor(view.source) && ledger.trouble
      ensures CurrentRuntime in ledger.tried
      ensures old(trace) <= trace && Grew(old(ledger))
    {
      Begin(CurrentRuntime);
      var record := RevalidateBinding();
      if record.None? { return false; }
      var resolved := ResolveRuntimeSource(record.value);
      if !resolved { return false; }
      var current := RevalidateBinding();
      if current.None? || !SourceMatches(held.value, current.value) {
        CloseHeld();
        return false;
      }
      return true;
    }

    /** Acquire the runtime of a run that says it is running, then observe that run once more. */
    method HandOff(record: Record) returns (ok: bool)
      requires Valid() && binding.Some? && !command.startup && !HoldsDescriptor(view.source)
      modifies this
      ensures Valid() && view.tuple == old(view.tuple) && view.run == old(view.run) && SameFirst(old(view))
      ensures ok ==> MayEmit(command, view) && !held.value.Startup? && view.observed == Some(SeenRunning)
      ensures !ok ==> !HoldsDescriptor(view.source) && ledger.trouble
      ensures RunningRuntime in ledger.tried
      ensures old(trace) <= trace && Grew(old(ledger))
    {
      Begin(RunningRuntime);
      var resolved := ResolveRuntimeSource(record);
      if !resolved { return false; }
      var seeing := Observe();
      if !seeing.Saw? || !seeing.seen.SeenRunning? || !SourceMatches(held.value, seeing.record) {
        CloseHeld();
        return false;
      }
      return true;
    }

    /** One write of bytes of the held source, or the note that all were written. */
    method Put(e: Event)
      requires Valid() && MayEmit(command, view) && (e.Emitted? || e.Served?)
      modifies this
      ensures Valid() && view == old(view)
      ensures e.Emitted? ==> ledger == old(ledger)
      ensures e.Served? ==> ledger == old(ledger).(startup := old(ledger.startup) || held.value.Startup?,
                                                   runtime := old(ledger.runtime) || !held.value.Startup?)
      ensures old(trace) <= trace
    {
      Perform(e);
    }

    /** Bytes of the held source reach the output, any number of times; a write may fail. */
    method Relay() returns (ok: bool)
      requires Valid() && MayEmit(command, view)
      modifies this
      ensures Valid() && view == old(view)
      ensures if ok then (if held.value.Startup? then ledger.startup else ledger.runtime) else ledger.trouble
      ensures ok ==> ledger.trouble == old(ledger.trouble)
      ensures old(trace) <= trace && Grew(old(ledger))
    {
      var writes: nat := *;
      while writes > 0
        invariant Valid() && view == old(view) && old(trace) <= trace && ledger == old(ledger)
      {
        Put(Emitted);
        writes := writes - 1;
      }
      ok := *;
      if ok { Put(Served); } else { Mark(WriteFailed); }
    }

    /** Last lines or follow of a proved runtime; its descriptor is closed whatever happens. */
    method EmitRuntime() returns (code: int)
      requires Valid() && MayEmit(command, view) && !held.value.Startup?
      modifies this
      ensures Valid() && !HoldsDescriptor(view.source) && SameSight(old(view))
      ensures if code == 0 then ledger.runtime else ledger.trouble
      ensures old(trace) <= trace && Grew(old(ledger))
    {
      var ok := Relay();
      code := if ok then 0 else 1;
      if ok && held.value.Oci? {
        code := *;
        Mark(ChildExited(code));
      }
      CloseHeld();
    }

    /** Opens the startup log of the bound run; `Ok(false)` when it does not exist. */
    method OpenStartup() returns (r: Result<bool, ()>)
      requires Valid() && binding.Some? && !HoldsDescriptor(view.source)
      modifies this
      ensures Valid() && view.tuple == old(view.tuple) && view.run == old(view.run) && SameSight(old(view))
      ensures r == Ok(true) ==> held.Some? && held.value.Startup?
      ensures r == Ok(false) ==> view == old(view).(absent := true)
      ensures r.Err? ==> view == old(view) && ledger.trouble
      ensures r.Ok? ==> ledger == old(ledger)
      ensures old(trace) <= trace && Grew(old(ledger))
    {
      var refused: bool := *;
      var present: bool := *;
      if refused { Mark(OpenRefused); return Err(()); }
      if present {
        Acquire(Startup(descriptors, command.container, binding.value.runId));
      } else {
        Perform(OpenAbsent);
      }
      return Ok(present);
    }

    /** One poll and then the open: what was seen, and whether the log is there. */
    method LookAndOpen() returns (r: Result<(Seen, bool), ()>)
      requires Valid() && binding.Some? && !HoldsDescriptor(view.source)
      modifies this
      ensures Valid() && view.tuple == old(view.tuple) && view.run == old(view.run) && SameFirst(old(view))
      ensures r.Ok? ==> view.observed == Some(r.value.0) && view.first.Some?
      ensures r.Ok? && r.value.1 ==> held.Some? && held.value.Startup?
      ensures r.Ok? && !r.value.1 ==> view.absent
      ensures r.Err? ==> ledger.trouble
      ensures r.Err? || !r.value.1 ==> !HoldsDescriptor(view.source)
      ensures old(trace) <= trace && Grew(old(ledger))
    {
      var seeing := Observe();
      if !seeing.Saw? { return Err(()); }
      var open := OpenStartup();
      if open.Err? { return Err(()); }
      return Ok((seeing.seen, open.value));
    }

    /** The last lines of the startup log, fenced on both sides of the open. */
    method EmitStartupSuffix(allowed: set<Seen>) returns (r: Suffix)
      requires Valid() && binding.Some? && view.first.Some? && !HoldsDescriptor(view.source)
      requires allowed == SuffixStates(command, view.first) && (command.last || allowed == {SeenFailed})
      modifies this
      ensures Valid() && LetGo(old(view)) && SameFirst(old(view))
      ensures r.Fenced? ==> r.seen in allowed && view.observed == Some(r.seen) && ledger.startup
      ensures !r.Fenced? || r.seen.SeenFailed? ==> ledger.trouble
      ensures StartupSuffix in ledger.tried
      ensures old(trace) <= trace && Grew(old(ledger))
    {
      Begin(StartupSuffix);
      var open := LookAndOpen();
      if open.Err? { return SuffixError; }
      if !open.value.1 {
        GiveUpOnLog();
        return Absent;
      }
      r := EmitOpenedSuffix(allowed);
      CloseHeld();
    }

    /** The log is not there, and the command does not wait for it or the run will not write it any more. */
    method GiveUpOnLog()
      requires Valid() && Gate(command, view, MissingLog)
      modifies this
      ensures Valid() && view == old(view) && ledger == old(ledger).(trouble := true)
      ensures old(trace) <= trace
    {
      Mark(MissingLog);
    }

    method EmitOpenedSuffix(allowed: set<Seen>) returns (r: Suffix)
      requires Valid() && binding.Some? && view.first.Some? && held.Some? && held.value.Startup?
      requires allowed == SuffixStates(command, view.first) && (command.last || allowed == {SeenFailed})
      modifies this
      ensures Valid() && SameHold(old(view)) && SameFirst(old(view))
      ensures r.Fenced? ==> r.seen in allowed && view.observed == Some(r.seen) && ledger.startup
      ensures !r.Fenced? || r.seen.SeenFailed? ==> ledger.trouble
      ensures old(trace) <= trace && Grew(old(ledger))
    {
      var fenced := Observe();
      if !fenced.Saw? { return SuffixError; }
      if fenced.seen !in allowed {
        assert || fenced.seen.SeenPending? || fenced.seen.SeenStarting?
               || fenced.seen.SeenRunning? || fenced.seen.SeenFailed?;
        Mark(StateRefused);
        return SuffixError;
      }
      var ok := Relay();
      return if ok then Fenced(fenced.seen) else SuffixError;
    }

    /** Waits for the startup log to appear; returns it only after the run was observed again. */
    method AcquireStartupLog() returns (r: Acquisition)
      requires Valid() && binding.Some? && !command.last && !HoldsDescriptor(view.source)
      modifies this
      ensures Valid() && view.tuple == old(view.tuple) && view.run == old(view.run) && SameFirst(old(view))
      ensures r.Interrupted? ==> ledger.signalled && (view.observed == old(view.observed) || NotTerminal(view.observed))
      ensures r.Ready? ==> && held.Some? && held.value.Startup?
                           && view.current && view.observed == Some(r.seen) && RunFenced(command, view)
                           && (r.seen.SeenFailed? ==> ledger.trouble)
      ensures !r.Ready? ==> !HoldsDescriptor(view.source)
      ensures r.AcquireError? ==> ledger.trouble
      ensures old(trace) <= trace && Grew(old(ledger))
    {
      var polls: nat := *;
      while polls > 0
        invariant Valid() && LetGo(old(view)) && SameFirst(old(view)) && binding.Some?
        invariant old(trace) <= trace && Grew(old(ledger))
        invariant view.observed == old(view.observed) || NotTerminal(view.observed)
      {
        var done := TryStartupLog();
        if done.Some? { return done.value; }
        polls := polls - 1;
      }
      NoteSignal();
      return Interrupted;
    }

    /** The opened log is kept only if the run is observed once more. */
    method FenceOpened() returns (r: Acquisition)
      requires Valid() && binding.Some? && held.Some? && held.value.Startup?
      modifies this
      ensures Valid() && view.tuple == old(view.tuple) && view.run == old(view.run) && SameFirst(old(view))
      ensures !r.Interrupted?
      ensures r.Ready? ==> && held == old(held)
                           && view.current && view.observed == Some(r.seen) && RunFenced(command, view)
                           && (r.seen.SeenFailed? ==> ledger.trouble)
      ensures r.AcquireError? ==> ledger.trouble && !HoldsDescriptor(view.source)
      ensures old(trace) <= trace && Grew(old(ledger))
    {
      var fenced := Observe();
      if fenced.Saw? { return Ready(fenced.seen, fenced.record); }
      CloseHeld();
      return AcquireError;
    }

    /** One round of the wait: `None` goes on waiting. */
    method TryStartupLog() returns (r: Option<Acquisition>)
      requires Valid() && binding.Some? && !command.last && !HoldsDescriptor(view.source)
      modifies this
      ensures Valid() && view.tuple == old(view.tuple) && view.run == old(view.run) && SameFirst(old(view))
      ensures r.None? ==> NotTerminal(view.observed) && !HoldsDescriptor(view.source)
      ensures r.Some? ==> !r.value.Interrupted?
      ensures r.Some? && r.value.Ready? ==> && held.Some? && held.value.Startup? && view.current
                                            && view.observed == Some(r.value.seen) && RunFenced(command, view)
                                            && (r.value.seen.SeenFailed? ==> ledger.trouble)
      ensures r.Some? && r.value.AcquireError? ==> ledger.trouble && !HoldsDescriptor(view.source)
      ensures old(trace) <= trace && Grew(old(ledger))
    {
      var open := LookAndOpen();
      if open.Err? { return Some(AcquireError); }
      if open.value.1 {
        var fenced := FenceOpened();
        return Some(fenced);
      }
      if open.value.0.SeenRunning? || open.value.0.SeenFailed? {
        GiveUpOnLog();
        return Some(AcquireError);
      }
      return None;
    }

    /** Follows the held startup log, observing the run whenever it is idle. */
    method FollowHeld() returns (r: Followed)
      requires Valid() && !command.last && binding.Some? && held.Some? && held.value.Startup?
      requires view.current && RunFenced(command, view)
      modifies this
      ensures Valid() && SameHold(old(view)) && SameFirst(old(view))
      ensures FollowMeans(r, old(view.observed), view.observed) && Explains(r)
      ensures old(trace) <= trace && Grew(old(ledger))
    {
      var polls: nat := *;
      while polls > 0
        invariant Valid() && SameHold(old(view)) && SameFirst(old(view)) && MayEmit(command, view)
        invariant old(trace) <= trace && Grew(old(ledger))
        invariant view.observed == old(view.observed) || NotTerminal(view.observed)
      {
        var ok := Relay();
        if !ok { return FollowedError; }
        var seeing := Observe();
        if !seeing.Saw? { return FollowedError; }
        if seeing.seen.SeenRunning? { return FollowedRunning(seeing.record); }
        if seeing.seen.SeenFailed? { return FollowedFailed; }
        polls := polls - 1;
      }
      NoteSignal();
      return Cancelled;
    }

    /** Why a follow ended: served until the run was running, in trouble, or by the operator. */
    ghost predicate Explains(r: Followed)
      reads this
    {
      && (r.FollowedRunning? ==> ledger.startup)
      && (r.FollowedFailed? || r.FollowedError? ==> ledger.trouble)
      && (r.Cancelled? ==> ledger.signalled)
    }

    method FollowStartup() returns (r: Followed)
      requires Valid() && !command.last && binding.Some? && !HoldsDescriptor(view.source)
      modifies this
      ensures Valid() && LetGo(old(view)) && SameFirst(old(view))
      ensures FollowMeans(r, old(view.observed), view.observed) && Explains(r)
      ensures StartupFollow in ledger.tried
      ensures old(trace) <= trace && Grew(old(ledger))
    {
      Begin(StartupFollow);
      var acquired := AcquireStartupLog();
      if acquired.Interrupted? { return Cancelled; }
      if acquired.AcquireError? { return FollowedError; }
      if acquired.seen.SeenRunning? || acquired.seen.SeenFailed? {
        var ok := Relay();
        r := if !ok then FollowedError
             else if acquired.seen.SeenRunning? then FollowedRunning(acquired.record) else FollowedFailed;
      } else {
        r := FollowHeld();
      }
      CloseHeld();
    }

    /** What the attempt to bind a run told the branches that follow. */
    ghost predicate Bound(seeing: Option<Seeing>)
      reads this
    {
      && (seeing.Some? ==> binding.Some? && seeing.value != SawError)
      && (if seeing.Some? && seeing.value.Saw? then view.observed == view.first == Some(seeing.value.seen)
          else view.observed.None? && ledger.trouble)
      && BoundRunOf in ledger.tried
    }

    /** Exit 0 says something was served or the operator ended it, any other code that the last way tried failed. */
    ghost predicate Justified(code: int)
      reads this
    {
      if code == 0 then ledger.startup || ledger.runtime || ledger.signalled else ledger.trouble
    }

    method RunStartupOnly(seeing: Option<Seeing>) returns (code: int)
      requires Valid() && command.startup && !HoldsDescriptor(view.source) && Bound(seeing)
      modifies this
      ensures Valid() && !HoldsDescriptor(view.source) && SameFirst(old(view))
      ensures Justified(code)
      ensures view.first.Some? ==> (if command.last then StartupSuffix else StartupFollow) in ledger.tried
      ensures command.last && code == 0 ==> view.observed.Some? && view.observed != Some(SeenFailed) && ledger.startup
      ensures !command.last && code == 0 ==>
                || view.observed == Some(SeenRunning) || NotTerminal(view.observed)
                || view.observed == old(view.observed)
      ensures old(trace) <= trace && Grew(old(ledger))
    {
      if seeing.None? || !seeing.value.Saw? { return 1; }
      if command.last {
        var suffix := EmitStartupSuffix({SeenPending, SeenStarting, SeenRunning, SeenFailed});
        return if suffix.Fenced? && !suffix.seen.SeenFailed? then 0 else 1;
      }
      var followed := FollowStartup();
      return if followed.FollowedFailed? || followed.FollowedError? then 1 else 0;
    }

    method RunLast(seeing: Option<Seeing>) returns (code: int)
      requires Valid() && command.last && !command.startup && !HoldsDescriptor(view.source) && Bound(seeing)
      modifies this
      ensures Valid() && !HoldsDescriptor(view.source) && SameFirst(old(view))
      ensures code == 0 ==> ledger.startup && NotTerminal(view.observed)
      ensures code != 0 ==> ledger.trouble || view.first == Some(SeenRunning)
      ensures view.first.Some? && view.first != Some(SeenRunning) ==> StartupSuffix in ledger.tried
      ensures old(trace) <= trace && Grew(old(ledger))
    {
      if seeing.None? || !seeing.value.Saw? || seeing.value.seen.SeenRunning? { return 1; }
      var allowed := if seeing.value.seen.SeenFailed? then {SeenFailed} else {SeenPending, SeenStarting};
      var suffix := EmitStartupSuffix(allowed);
      return if suffix.Fenced? && !suffix.seen.SeenFailed? then 0 else 1;
    }

    method HandOffAndFollow(record: Record) returns (code: int)
      requires Valid() && binding.Some? && !command.startup && !HoldsDescriptor(view.source)
      modifies this
      ensures Valid() && !HoldsDescriptor(view.source) && SameFirst(old(view))
      ensures if code == 0 then view.observed == Some(SeenRunning) && ledger.runtime else ledger.trouble
      ensures RunningRuntime in ledger.tried
      ensures old(trace) <= trace && Grew(old(ledger))
    {
      var ok := HandOff(record);
      if !ok { return 1; }
      code := EmitRuntime();
    }

    method TailLiveRun() returns (code: int)
      requires Valid() && binding.Some? && !command.last && !command.startup && !HoldsDescriptor(view.source)
      requires NotTerminal(view.observed)
      modifies this
      ensures Valid() && !HoldsDescriptor(view.source) && SameFirst(old(view))
      ensures Justified(code)
      ensures code == 0 ==> NotTerminal(view.observed) || (view.observed == Some(SeenRunning) && ledger.runtime)
      ensures StartupFollow in ledger.tried
      ensures view.observed == Some(SeenRunning) && !ledger.trouble ==> RunningRuntime in ledger.tried
      ensures old(trace) <= trace && Grew(old(ledger))
    {
      var followed := FollowStartup();
      if followed.FollowedRunning? {
        code := HandOffAndFollow(followed.record);
      } else {
        code := if followed.Cancelled? then 0 else 1;
      }
    }

    /** No live run: the proved runtime, else the startup log of a failed run. */
    method TailWithoutLiveRun(failed: bool) returns (code: int)
      requires Valid() && bound.Some? && !command.last && !command.startup && !HoldsDescriptor(view.source)
      requires view.observed == view.first == (if failed then Some(SeenFailed) else None)
      requires failed ==> binding.Some?
      modifies this
      ensures Valid() && !HoldsDescriptor(view.source) && SameFirst(old(view))
      ensures if code == 0 then ledger.runtime else ledger.trouble
      ensures CurrentRuntime in ledger.tried && (!failed ==> view.first.None?)
      ensures old(trace) <= trace && Grew(old(ledger))
    {
      var proved := ProveCurrentRuntime();
      if proved {
        code := EmitRuntime();
        return;
      }
      if failed { var _ := EmitStartupSuffix({SeenFailed}); }
      return 1;
    }

    method RunTail(seeing: Option<Seeing>) returns (code: int)
      requires Valid() && bound.Some? && !command.last && !command.startup && !HoldsDescriptor(view.source)
      requires Bound(seeing) && (seeing.None? || !seeing.value.Saw? ==> view.first.None?)
      modifies this
      ensures Valid() && !HoldsDescriptor(view.source) && SameFirst(old(view))
      ensures Justified(code) && TailTried(code)
      ensures old(trace) <= trace && Grew(old(ledger))
    {
      if seeing.None? || !seeing.value.Saw? {
        code := TailWithoutLiveRun(false);
      } else if seeing.value.seen.SeenRunning? {
        code := HandOffAndFollow(seeing.value.record);
      } else if seeing.value.seen.SeenFailed? {
        code := TailWithoutLiveRun(true);
      } else {
        code := TailLiveRun();
      }
    }

    /** A tail goes the way the first observation of the run calls for. */
    ghost predicate TailTried(code: int)
      reads this
    {
      if NotTerminal(view.first) then
        StartupFollow in ledger.tried && (code == 0 && view.observed == Some(SeenRunning) ==> ledger.runtime)
      else
        && (if view.first == Some(SeenRunning) then RunningRuntime else CurrentRuntime) in ledger.tried
        && (code == 0 ==> ledger.runtime)
    }

    /** The ways a command has to have gone, by its mode and the first observation of the run. */
    ghost predicate WentItsWay(code: int)
      reads this
    {
      if command.startup then
        && BoundRunOf in ledger.tried
        && (view.first.Some? ==> (if command.last then StartupSuffix else StartupFollow) in ledger.tried)
      else if command.last then
        && CurrentRuntime in ledger.tried
        && (BoundRunOf !in ledger.tried ==> code == 0 || ledger.trouble)
        && (view.first.Some? && view.first != Some(SeenRunning) ==> StartupSuffix in ledger.tried)
      else
        BoundRunOf in ledger.tried && (view.first.Some? ==> TailTried(code))
    }

    /** Binds the run the marker names to the registry record; `None` is an error. */
    method BindRun() returns (r: Option<Option<Seeing>>)
      requires Valid() && bound.Some? && binding.None? && view.observed.None?
      modifies this
      ensures Valid() && view.tuple == old(view.tuple) && view.source == old(view.source)
      ensures r.Some? ==> Bound(r.value)
      ensures r.None? ==> ledger.trouble && view.first.None?
      ensures BoundRunOf in ledger.tried
      ensures old(trace) <= trace && Grew(old(ledger))
    {
      Begin(BoundRunOf);
      var marker := ReadRunMarker();
      if marker.Err? { return None; }
      if marker.value.None? { return Some(None); }
      var m := marker.value.value;
      if !bound.value.isAgent || IdentityFromRecord(command.container, bound.value, m) != Some(m) { return None; }
      BindTo(m);
      var seeing := Observe();
      if seeing.SawError? { return None; }
      return Some(Some(seeing));
    }

    method BindTo(m: Identity)
      requires Valid() && bound.Some? && bound.value.isAgent && binding.None?
      requires IdentityFromRecord(command.container, bound.value, m) == Some(m)
      modifies this
      ensures Valid() && binding == Some(m) && view.tuple == old(view.tuple) && view.source == old(view.source)
      ensures SameSight(old(view)) && ledger == old(ledger)
      ensures old(trace) <= trace
    {
      Perform(BoundRun(m));
    }

    /** The record the target resolves to, or `None` with its reason noted. */
    method ResolveTarget() returns (ok: bool)
      requires Valid() && view == START && ledger == BLANK
      modifies this
      ensures Valid() && view.source.None? && binding.None? && view.observed.None? && (bound.Some? <==> ok)
      ensures if ok then bound.Some? && !ledger.trouble else ledger.trouble
      ensures old(trace) <= trace
    {
      var record := ReadRecord();
      if record.Err? || record.value.None? { return false; }
      Perform(BoundTo(record.value.value));
      return true;
    }

    /**
     * `logs last` and `logs tail` for one agent, with or without `--startup`. Whatever changes between any two
     * reads, the command ends holding no descriptor; exit 0 means that bytes were served or the operator
     * ended it, and any other code that the ways its mode and the run's first state call for were tried.
     */
    method Run() returns (code: int)
      requires Valid() && view == START && ledger == BLANK
      modifies this
      ensures Valid() && !HoldsDescriptor(view.source)
      ensures command.last && code == 0 ==> view.observed != Some(SeenFailed) && (ledger.startup || ledger.runtime)
      ensures Justified(code) || (command.last && !command.startup && view.first == Some(SeenRunning))
      ensures bound.Some? ==> WentItsWay(code)
      ensures old(trace) <= trace
    {
      var found := ResolveTarget();
      if !found { return 1; }
      if !command.startup && command.last {
        var proved := ProveCurrentRuntime();
        if proved { code := EmitRuntime(); return; }
      }
      var run := BindRun();
      if run.None? { return 1; }
      if command.startup { code := RunStartupOnly(run.value); }
      else if command.last { code := RunLast(run.value); }
      else { code := RunTail(run.value); }
    }
  }

  // -------- What the discipline means for the whole trace --------

  /** The bindings are made once. */
  lemma {:induction false} BindingsStay(c: Command, t: seq<Event>, views: seq<View>, i: int, j: int)
    requires Legal(c, t, views) && 0 <= i <= j <= |t|
    ensures views[i].run.Some? ==> views[j].run == views[i].run
    ensures views[i].tuple.Some? ==> views[j].tuple == views[i].tuple
    decreases j
  {
    if i < j {
      BindingsStay(c, t, views, i, j - 1);
      assert StepLegal(c, t, views, j - 1);
    }
  }

  lemma {:induction false} SourceMeaning(c: Command, t: seq<Event>, views: seq<View>, i: int) returns (a: int)
    requires Legal(c, t, views) && 0 <= i <= |t| && views[i].source.Some?
    ensures 0 <= a < i && t[a] == Acquired(views[i].source.value)
    ensures forall m | a < m < i :: !t[m].Acquired? && !t[m].Released?
    decreases i
  {
    assert i > 0;
    assert StepLegal(c, t, views, i - 1);
    if t[i - 1].Acquired? { a := i - 1; } else { a := SourceMeaning(c, t, views, i - 1); }
  }

  lemma {:induction false} RecordMeaning(c: Command, t: seq<Event>, views: seq<View>, i: int) returns (r: int)
    requires Legal(c, t, views) && 0 <= i <= |t| && views[i].record.Some?
    ensures 0 <= r < i && t[r] == ReadRegistry(views[i].record)
    ensures forall m | r < m < i :: !t[m].Acquired? && !IsRead(t[m])
    decreases i
  {
    assert i > 0;
    assert StepLegal(c, t, views, i - 1);
    if t[i - 1].ReadRegistry? { r := i - 1; } else { r := RecordMeaning(c, t, views, i - 1); }
  }

  lemma {:induction false} MarkerMeaning(c: Command, t: seq<Event>, views: seq<View>, i: int) returns (m: int)
    requires Legal(c, t, views) && 0 <= i <= |t| && views[i].marker
    ensures 0 <= m < i && views[i].run.Some? && t[m] == ReadMarker(views[i].run)
    ensures forall k | m < k < i :: !t[k].Acquired? && !t[k].ReadStatus? && !t[k].WorkerProof?
    decreases i
  {
    assert i > 0;
    assert StepLegal(c, t, views, i - 1);
    if t[i - 1].ReadMarker? {
      m := i - 1;
    } else {
      m := MarkerMeaning(c, t, views, i - 1);
      BindingsStay(c, t, views, i - 1, i);
    }
  }

  /** `o` is the last completed observation before `i`, or -1. */
  lemma {:induction false} ObservedMeaning(c: Command, t: seq<Event>, views: seq<View>, i: int) returns (o: int)
    requires Legal(c, t, views) && 0 <= i <= |t|
    ensures -1 <= o < i && forall k | o < k < i :: !t[k].Observed?
    ensures if o < 0 then views[i].observed.None? else t[o].Observed? && views[i].observed == Some(t[o].now)
    ensures views[i].current ==> o >= 0 && forall k | o < k < i :: !t[k].Acquired? && !IsRead(t[k])
    decreases i
  {
    if i == 0 {
      o := -1;
    } else {
      assert StepLegal(c, t, views, i - 1);
      if t[i - 1].Observed? { o := i - 1; } else { o := ObservedMeaning(c, t, views, i - 1); }
    }
  }

  lemma {:induction false} RunMeaning(c: Command, t: seq<Event>, views: seq<View>, i: int) returns (b: int)
    requires Legal(c, t, views) && 0 <= i <= |t| && views[i].run.Some?
    ensures 0 <= b < i && t[b] == BoundRun(views[i].run.value)
    ensures forall k | 0 <= k < |t| && k != b :: !t[k].BoundRun?
    decreases i
  {
    assert i > 0;
    assert StepLegal(c, t, views, i - 1);
    if t[i - 1].BoundRun? {
      b := i - 1;
      forall k | 0 <= k < |t| && k != b ensures !t[k].BoundRun? {
        assert StepLegal(c, t, views, k);
        if k < b { BindingsStay(c, t, views, k + 1, b); } else { BindingsStay(c, t, views, i, k); }
      }
    } else {
      b := RunMeaning(c, t, views, i - 1);
    }
  }

  lemma {:induction false} TupleMeaning(c: Command, t: seq<Event>, views: seq<View>, i: int) returns (b: int)
    requires Legal(c, t, views) && 0 <= i <= |t| && views[i].tuple.Some?
    ensures 0 <= b < i && t[b] == BoundTo(views[i].tuple.value)
    decreases i
  {
    assert i > 0;
    assert StepLegal(c, t, views, i - 1);
    if t[i - 1].BoundTo? { b := i - 1; } else { b := TupleMeaning(c, t, views, i - 1); }
  }

  predicate ReadsStartup(v: View) { v.source.Some? && v.source.value.Startup? }

  /**
   * No startup byte is emitted unless, after its file was opened and while it is still open,
   * the marker and then the registry carried the one identity this command bound to.
   */
  lemma StartupBytesAreFenced(c: Command, t: seq<Event>, views: seq<View>, i: int)
      returns (b: int, a: int, m: int, r: int)
    requires Legal(c, t, views) && 0 <= i < |t| && t[i].Emitted? && ReadsStartup(views[i])
    ensures 0 <= b < i && t[b].BoundRun? && forall k | 0 <= k < |t| && k != b :: !t[k].BoundRun?
    ensures 0 <= a < m < r < i && t[a].Acquired? && t[a].source.Startup?
    ensures t[a].source.container == c.container && t[a].source.runId == t[b].run.runId
    ensures forall k | a < k < i :: !t[k].Acquired? && !t[k].Released?
    ensures t[m] == ReadMarker(Some(t[b].run))
    ensures t[r].ReadRegistry? && t[r].record.Some? && t[r].record.value.isAgent
    ensures IdentityFromRecord(c.container, t[r].record.value, t[b].run) == Some(t[b].run)
  {
    assert StepLegal(c, t, views, i);
    b := RunMeaning(c, t, views, i);
    a := SourceMeaning(c, t, views, i);
    m := MarkerMeaning(c, t, views, i);
    r := RecordMeaning(c, t, views, i);
    assert StepLegal(c, t, views, a);
    BindingsStay(c, t, views, a, i);
  }

  /**
   * No runtime byte is emitted unless, after the source was acquired and while it is still held, the
   * registry named the bound generation and exactly that source; `--startup` never emits one; and
   * while the last observation is of a live start none is emitted either: a run that was observed
   * must have failed, or must have been seen running after the source was acquired.
   */
  lemma RuntimeBytesAreFenced(c: Command, t: seq<Event>, views: seq<View>, i: int)
      returns (b: int, a: int, r: int, o: int)
    requires Legal(c, t, views) && 0 <= i < |t| && t[i].Emitted? && !ReadsStartup(views[i])
    ensures !c.startup
    ensures 0 <= a < r < i && t[a].Acquired? && forall k | a < k < i :: !t[k].Acquired? && !t[k].Released?
    ensures t[r].ReadRegistry? && t[r].record.Some? && t[r].record.value.isAgent
    ensures SourceMatches(t[a].source, t[r].record.value)
    ensures 0 <= b < i && t[b].BoundTo? && SameTuple(t[r].record.value, t[b].bound)
    ensures -1 <= o < i && (forall k | o < k < i :: !t[k].Observed?)
    ensures o >= 0 ==> t[o] == Observed(SeenFailed) || (t[o] == Observed(SeenRunning) && a < o)
  {
    assert StepLegal(c, t, views, i);
    a := SourceMeaning(c, t, views, i);
    r := RecordMeaning(c, t, views, i);
    b := TupleMeaning(c, t, views, i);
    o := ObservedMeaning(c, t, views, i);
    assert StepLegal(c, t, views, a);
  }

  // -------- What the ledger means --------

  /** Event `i` went wrong, and no other way was tried after it. */
  ghost predicate TroubledAt(t: seq<Event>, views: seq<View>, i: int, n: int)
    requires 0 <= i < n <= |t| && |views| == |t| + 1
  {
    Troubling(views[i], t[i]) && !t[i].Trying? && forall m | i < m < n :: !t[m].Trying?
  }

  /** Trouble is an event that went wrong in the last way tried, service is a served source, and so on. */
  lemma {:induction false} LedgerMeaning(t: seq<Event>, views: seq<View>, ledgers: seq<Ledger>, n: int)
    requires Noted(t, views, ledgers) && 0 <= n <= |t|
    ensures ledgers[n].trouble <==> exists i | 0 <= i < n :: TroubledAt(t, views, i, n)
    ensures ledgers[n].runtime <==> exists i | 0 <= i < n :: t[i].Served? && HoldsRuntime(views[i])
    ensures ledgers[n].startup <==> exists i | 0 <= i < n :: t[i].Served? && ReadsStartup(views[i])
    ensures ledgers[n].signalled <==> exists i | 0 <= i < n :: t[i] == Signalled
    ensures forall what :: what in ledgers[n].tried <==> exists i | 0 <= i < n :: t[i] == Trying(what)
    decreases n
  {
    if n > 0 {
      LedgerMeaning(t, views, ledgers, n - 1);
      assert StepNoted(t, views, ledgers, n - 1);
      forall i | 0 <= i < n - 1
        ensures TroubledAt(t, views, i, n) <==> TroubledAt(t, views, i, n - 1) && !t[n - 1].Trying?
      {
      }
      if ledgers[n].trouble {
        if Troubling(views[n - 1], t[n - 1]) {
          assert TroubledAt(t, views, n - 1, n);
        } else {
          var i :| 0 <= i < n - 1 && TroubledAt(t, views, i, n - 1);
          assert TroubledAt(t, views, i, n);
        }
      }
    }
  }

  // -------- Descriptors --------

  predicate Opens(e: Event) { e.Acquired? && !e.source.Oci? }

  lemma {:induction false} DescriptorsGrow(c: Command, t: seq<Event>, views: seq<View>, i: int, j: int)
    requires Legal(c, t, views) && 0 <= i <= j <= |t|
    ensures views[i].descriptors <= views[j].descriptors
    decreases j
  {
    if i < j {
      DescriptorsGrow(c, t, views, i, j - 1);
      assert StepLegal(c, t, views, j - 1);
    }
  }

  lemma DistinctDescriptors(c: Command, t: seq<Event>, views: seq<View>, i: int, j: int)
    requires Legal(c, t, views) && 0 <= i < j < |t| && Opens(t[i]) && Opens(t[j])
    ensures t[i].source.fd != t[j].source.fd
  {
    assert StepLegal(c, t, views, i) && StepLegal(c, t, views, j);
    DescriptorsGrow(c, t, views, i + 1, j);
  }

  lemma {:induction false} HeldUntilReleased(c: Command, t: seq<Event>, views: seq<View>, a: int, i: int)
    requires Legal(c, t, views) && 0 <= a < i <= |t| && Opens(t[a])
    requires forall k | a < k < i :: t[k] != Released(t[a].source.fd)
    ensures views[i].source == Some(t[a].source)
    decreases i
  {
    assert StepLegal(c, t, views, i - 1);
    if a < i - 1 { HeldUntilReleased(c, t, views, a, i - 1); }
  }

  lemma ReleaseBelongsTo(c: Command, t: seq<Event>, views: seq<View>, a: int, z: int)
    requires Legal(c, t, views) && 0 <= a < |t| && Opens(t[a])
    requires 0 <= z < |t| && t[z] == Released(t[a].source.fd)
    ensures a < z && forall k | a < k < z :: !t[k].Released?
  {
    assert StepLegal(c, t, views, z);
    var a' := SourceMeaning(c, t, views, z);
    if a' < a { DistinctDescriptors(c, t, views, a', a); }
    if a < a' { DistinctDescriptors(c, t, views, a, a'); }
  }

  /** In a run that ends holding no descriptor, every descriptor opened was closed exactly once, after it was opened. */
  lemma ClosedExactlyOnce(c: Command, t: seq<Event>, views: seq<View>, a: int) returns (z: int)
    requires Legal(c, t, views) && !HoldsDescriptor(views[|t|].source)
    requires 0 <= a < |t| && Opens(t[a])
    ensures a < z < |t| && t[z] == Released(t[a].source.fd)
    ensures forall k | 0 <= k < |t| && k != z :: t[k] != Released(t[a].source.fd)
    ensures forall k | 0 <= k < |t| && k != a && Opens(t[k]) :: t[k].source.fd != t[a].source.fd
  {
    if forall k | a < k < |t| :: t[k] != Released(t[a].source.fd) {
      HeldUntilReleased(c, t, views, a, |t|);
    }
    z :| a < z < |t| && t[z] == Released(t[a].source.fd);
    ReleaseBelongsTo(c, t, views, a, z);
    forall k | 0 <= k < |t| && k != z ensures t[k] != Released(t[a].source.fd) {
      if t[k] == Released(t[a].source.fd) { ReleaseBelongsTo(c, t, views, a, k); }
    }
    forall k | 0 <= k < |t| && k != a && Opens(t[k]) ensures t[k].source.fd != t[a].source.fd {
      if k < a { DistinctDescriptors(c, t, views, k, a); } else { DistinctDescriptors(c, t, views, a, k); }
    }
  }
}
