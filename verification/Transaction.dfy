/**
 * The lifecycle transaction of one no-wait worker
 * (`runNoWaitLifecycleTransaction` in cli/commands/noWaitWorker.js).
 *
 * Every callback, lock acquisition and lock release may fail at every point. The class
 * appends one event per effect; `View` summarises the events so far and `Gate` says when
 * an event is allowed, so `Legal` is the discipline of the whole transaction.
 */
module Transaction {
  import opened Common

  datatype Runtime = NoRuntime | Docker | Podman | Bwrap | Seatbelt | OtherRuntime

  predicate IsSandbox(r: Runtime) { r.Bwrap? || r.Seatbelt? }

  /** `Malformed` is a non-empty value that is not 64 hexadecimal digits. */
  datatype ContainerId = NoId | Malformed | Exact(id: nat)

  datatype RuntimeRecord = RuntimeRecord(instanceId: Option<nat>, enableGeneration: Option<nat>,
                                         runtime: Runtime, containerId: ContainerId)

  /** The snapshot read under a lease. */
  datatype Lifecycle = Lifecycle(ready: bool, record: Option<RuntimeRecord>, routeContainer: Option<nat>)

  datatype Candidate = Candidate(containerName: Option<nat>, containerId: ContainerId, record: Option<RuntimeRecord>,
                                 createdByThisLaunch: bool, requiresEdgeActivation: bool, preparationLease: bool)

  predicate TaskOwned(c: Option<Candidate>) {
    c.Some? && (c.value.createdByThisLaunch || (c.value.requiresEdgeActivation && c.value.preparationLease))
  }

  /** The active lifecycle already publishes exactly this immutable runtime. */
  predicate Publishes(l: Lifecycle, c: Candidate) {
    && l.ready
    && l.record.Some? && c.record.Some?
    && l.routeContainer.Some? && l.routeContainer == c.containerName
    && l.record.value.instanceId == c.record.value.instanceId
    && l.record.value.enableGeneration == c.record.value.enableGeneration
    && l.record.value.runtime != NoRuntime
    && l.record.value.runtime == c.record.value.runtime
    && (IsSandbox(l.record.value.runtime)
        || (&& l.record.value.containerId.Exact?
            && l.record.value.containerId ==
               (if c.containerId.NoId? then c.record.value.containerId else c.containerId)))
  }

  /** A ready lifecycle whose route and record are the candidate's own publishes it, unless the ids contradict. */
  lemma OwnRecordIsPublished(l: Lifecycle, c: Candidate)
    requires l.ready && l.record.Some? && l.record == c.record && l.routeContainer.Some?
    requires l.routeContainer == c.containerName && l.record.value.runtime != NoRuntime
    ensures Publishes(l, c) <==>
            || IsSandbox(l.record.value.runtime)
            || (&& l.record.value.containerId.Exact?
                && (c.containerId.NoId? || c.containerId == l.record.value.containerId))
  {
  }

  datatype Reload = Reread(lifecycle: Lifecycle) | Inactive | Unreadable

  datatype Event =
    | LeaseDenied | LeaseAcquired(lifecycle: Lifecycle) | LeaseReleased(ok: bool)
    | NetworkDenied | NetworkAcquired | NetworkReleased(ok: bool)
    | CaptureFailed | Captured(adopted: Option<Option<Candidate>>)
    | EnsureFailed | Ensured(result: Option<Candidate>)
    | Readiness(ok: bool)
    | Revalidated(ok: bool)
    | Inspected(cleanup: bool, ok: bool)
    | ActivateBegun | Committed | ActivateEnded(ok: bool)
    | Reloaded(reload: Reload)
    | CleanedUp(ok: bool)

  datatype Attempt = NotAttempted | Attempting | Blocked | Preserved | Cleaned

  datatype View = View(
    leased: bool, networked: bool,
    lifecycle: Option<Lifecycle>,   // read under the current lease
    revalidated: bool,              // against the lifecycle of the current lease
    dropped: bool,                  // the lease was released since the result was obtained
    hasResult: bool, result: Option<Candidate>,
    ready: bool,                    // readiness passed for the result
    inspected: Option<bool>,        // the last event was a successful inspection (for cleanup?)
    activations: nat, committed: bool,
    activated: bool,                // activation succeeded and no lock release has failed since
    reload: Option<Reload>, cleanups: nat, attempt: Attempt)

  /** What explains how the transaction ends, kept apart from what allows its effects. */
  datatype Book = Book(
    released: bool,                 // the lease was released since the last result
    cleaning: bool,                 // a cleanup was attempted
    failed: bool,                   // something failed before any cleanup was attempted
    adopted: bool,                  // the result came from capture
    heldThrough: bool)              // activation began in the lease the result was obtained in

  const START: View := View(false, false, None, false, false, false, None, false, None, 0, false, false, None, 0,
                            NotAttempted)

  /** A replacement that would need a preparation lease it does not have. */
  predicate Unprepared(c: Option<Candidate>) {
    c.Some? && c.value.requiresEdgeActivation && !c.value.preparationLease
  }

  /** What makes the transaction throw. */
  predicate IsFailure(e: Event) {
    || e.LeaseDenied? || e.NetworkDenied? || e.CaptureFailed? || e.EnsureFailed?
    || (e.Ensured? && Unprepared(e.result))
    || e == Readiness(false) || e == Revalidated(false) || (e.Inspected? && !e.ok) || e == ActivateEnded(false)
    || e == NetworkReleased(false) || e == LeaseReleased(false)
  }

  /** The lifecycle that decides who owns the candidate: the re-read one, or the lease's own if inactive. */
  function Deciding(v: View, r: Reload): Option<Lifecycle> {
    match r
    case Reread(l) => Some(l)
    case Inactive => v.lifecycle
    case Unreadable => None
  }

  predicate PublishedElsewhere(v: View, r: Reload) {
    Deciding(v, r).Some? && v.result.Some? && Publishes(Deciding(v, r).value, v.result.value)
  }

  lemma SameOwner(v: View, w: View, r: Reload)
    requires v.lifecycle == w.lifecycle && v.result == w.result
    ensures PublishedElsewhere(v, r) <==> PublishedElsewhere(w, r)
  {
  }

  predicate IsResult(e: Event) { e.Ensured? || (e.Captured? && e.adopted.Some?) }

  function ResultIn(e: Event): Option<Candidate>
    requires IsResult(e)
  {
    if e.Ensured? then e.result else e.adopted.value
  }

  function NextAttempt(v: View, e: Event): Attempt {
    if e.Reloaded? then
      if e.reload.Unreadable? then Blocked else if PublishedElsewhere(v, e.reload) then Preserved else Attempting
    else if e.CleanedUp? then Cleaned
    else if v.attempt.Attempting? && (e.NetworkDenied? || e == Inspected(true, false)) then Blocked
    else v.attempt
  }

  function Enter(b: Book, e: Event): Book {
    Book(
      released := e.LeaseReleased? || (b.released && !IsResult(e)),
      cleaning := b.cleaning || e.Reloaded?,
      failed := b.failed || (IsFailure(e) && !b.cleaning),
      adopted := if IsResult(e) then e.Captured? else b.adopted,
      heldThrough := if e.ActivateBegun? then !b.released else b.heldThrough)
  }

  const BLANK: Book := Book(false, false, false, false, false)

  function BookOf(t: seq<Event>): Book {
    if t == [] then BLANK else Enter(BookOf(t[..|t| - 1]), t[|t| - 1])
  }

  function Watch(v: View, e: Event): View {
    View(
      leased := e.LeaseAcquired? || (v.leased && !e.LeaseReleased?),
      networked := e.NetworkAcquired? || (v.networked && !e.NetworkReleased?),
      lifecycle := if e.LeaseAcquired? then Some(e.lifecycle) else if e.LeaseReleased? then None else v.lifecycle,
      revalidated := if e.Revalidated? then e.ok else v.revalidated && !e.LeaseAcquired?,
      dropped := if e.LeaseReleased? then v.hasResult else v.dropped && !IsResult(e),
      hasResult := v.hasResult || IsResult(e),
      result := if IsResult(e) then ResultIn(e) else v.result,
      ready := if e.Readiness? then e.ok else v.ready && !IsResult(e),
      inspected := if e.Inspected? && e.ok then Some(e.cleanup) else None,
      activations := if e.ActivateBegun? then v.activations + 1 else v.activations,
      committed := v.committed || e.Committed?,
      activated := if e.ActivateEnded? then e.ok
                   else v.activated && e != NetworkReleased(false) && e != LeaseReleased(false),
      reload := if e.Reloaded? then Some(e.reload)
                else if e.LeaseAcquired? || e.LeaseReleased? then None else v.reload,
      cleanups := if e.CleanedUp? then v.cleanups + 1 else v.cleanups,
      attempt := NextAttempt(v, e))
  }

  predicate MayActivate(v: View) {
    && v.leased && v.networked
    && v.activations == 0
    && v.hasResult && v.ready && v.inspected == Some(false)
    && (v.dropped ==> v.revalidated)
  }

  /** When each effect is allowed. */
  predicate Gate(v: View, e: Event) {
    && (e.LeaseDenied? || e.LeaseAcquired? ==> !v.leased && !v.networked)
    && (e.LeaseReleased? || e.NetworkDenied? || e.NetworkAcquired? ==> v.leased && !v.networked)
    && (e.NetworkReleased? ==> v.leased && v.networked)
    && (e.CaptureFailed? || e.Captured? ==> v.leased && !v.hasResult)
    && (e.EnsureFailed? || e.Ensured? ==> v.leased && v.networked && !v.hasResult)
    && (e.Readiness? ==> v.hasResult && !v.ready && v.activations == 0 && v.leased == v.networked)
    && (e.Revalidated? ==> v.leased && v.ready && !v.revalidated)
    && (e.Inspected? ==> v.leased && v.networked)
    && (e.ActivateBegun? ==> MayActivate(v))
    && (e.Committed? ==> v.activations == 1 && !v.committed && v.cleanups == 0)
    && (e.ActivateEnded? ==> v.activations == 1)
    && (e.Reloaded? ==> v.leased && v.attempt == NotAttempted && !v.committed && TaskOwned(v.result))
    && (e.CleanedUp? ==>
          && v.leased && v.networked
          && v.cleanups == 0 && !v.committed
          && TaskOwned(v.result)
          && v.inspected == Some(true)
          && v.reload.Some? && !v.reload.value.Unreadable? && !PublishedElsewhere(v, v.reload.value))
  }

  ghost predicate StepLegal(t: seq<Event>, views: seq<View>, i: int)
    requires 0 <= i < |t| && |views| == |t| + 1
  {
    Gate(views[i], t[i]) && views[i + 1] == Watch(views[i], t[i])
  }

  /** `views` are the summaries before each event; every event passed its gate. */
  ghost predicate Legal(t: seq<Event>, views: seq<View>) {
    && |views| == |t| + 1
    && views[0] == START
    && forall i | 0 <= i < |t| :: StepLegal(t, views, i)
  }

  lemma LegalExtends(t: seq<Event>, views: seq<View>, e: Event)
    requires Legal(t, views) && Gate(views[|t|], e)
    ensures Legal(t + [e], views + [Watch(views[|t|], e)])
  {
    var t', views' := t + [e], views + [Watch(views[|t|], e)];
    forall i | 0 <= i < |t'| ensures StepLegal(t', views', i) {
      if i < |t| { assert StepLegal(t, views, i); }
    }
  }

  datatype Outcome = Returned | Threw

  datatype Phase = Completed | Continue | Error

  class Transaction {
    var result: Option<Candidate>
    var cleanupRequired: bool
    var cleanupAttempted: bool
    var trace: seq<Event>
    ghost var views: seq<View>
    ghost var view: View
    ghost var book: Book

    ghost predicate Valid()
      reads this
    {
      && Legal(trace, views)
      && view == views[|trace|]
      && result == view.result
      && (cleanupRequired ==> !view.committed && TaskOwned(result) && view.hasResult)
      && (TaskOwned(result) && !view.committed && !cleanupRequired ==> view.attempt.Preserved? || view.attempt.Cleaned?)
      && (cleanupAttempted <==> view.attempt != NotAttempted)
      && (view.attempt == NotAttempted ==> view.cleanups == 0)
      && (view.reload.Some? ==> view.attempt != NotAttempted)
      && view.activations <= 1 && view.cleanups <= 1
      && (view.activated ==> view.activations == 1)
      && book == BookOf(trace) && (book.cleaning <==> view.attempt != NotAttempted)
    }

    constructor ()
      ensures Valid() && trace == [] && view == START && book == BLANK
    {
      result := None;
      cleanupRequired, cleanupAttempted := false, false;
      trace := [];
      view, book := START, BLANK;
      views := [START];
    }

    /** Appends one effect; the caller has to show that it is allowed now. */
    method Emit(e: Event)
      requires Legal(trace, views) && view == views[|trace|] && book == BookOf(trace) && Gate(view, e)
      modifies this`trace, this`view, this`views, this`book
      ensures Legal(trace, views) && view == views[|trace|] && view == Watch(old(view), e)
      ensures trace == old(trace) + [e] && book == BookOf(trace) == Enter(old(book), e)
    {
      LegalExtends(trace, views, e);
      assert (trace + [e])[..|trace|] == trace;
      book := Enter(book, e);
      trace := trace + [e];
      view := Watch(view, e);
      views := views + [view];
    }

    method AcquireLease() returns (l: Option<Lifecycle>)
      requires Valid() && !view.leased && !view.networked
      modifies this`trace, this`view, this`views, this`book
      ensures Valid()
      ensures l.None? ==> view == old(view).(inspected := None) && trace == old(trace) + [LeaseDenied]
      ensures l.Some? ==> view == old(view).(leased := true, lifecycle := l, revalidated := false, inspected := None,
                                             reload := None)
      ensures book == old(book).(failed := old(book.failed) || (l.None? && !old(book.cleaning)))
      ensures old(trace) <= trace
    {
      var granted: bool := *;
      if !granted { Emit(LeaseDenied); return None; }
      var lifecycle: Lifecycle := *;
      Emit(LeaseAcquired(lifecycle));
      return Some(lifecycle);
    }

    method ReleaseLease() returns (ok: bool)
      requires Valid() && view.leased && !view.networked
      modifies this`trace, this`view, this`views, this`book
      ensures Valid()
      ensures view == old(view).(leased := false, lifecycle := None, dropped := old(view.hasResult),
                                 inspected := None, activated := old(view.activated) && ok, reload := None)
      ensures book == old(book).(released := true, failed := old(book.failed) || (!ok && !old(book.cleaning)))
      ensures old(trace) <= trace
    {
      ok := *;
      Emit(LeaseReleased(ok));
    }

    method AcquireNetwork() returns (ok: bool)
      requires Valid() && view.leased && !view.networked
      modifies this`trace, this`view, this`views, this`book
      ensures Valid()
      ensures view == old(view).(networked := ok, inspected := None, attempt :=
                                 if !ok && old(view.attempt.Attempting?) then Blocked else old(view.attempt))
      ensures book == old(book).(failed := old(book.failed) || (!ok && !old(book.cleaning)))
      ensures old(trace) <= trace
    {
      ok := *;
      Emit(if ok then NetworkAcquired else NetworkDenied);
    }

    method ReleaseNetwork() returns (ok: bool)
      requires Valid() && view.leased && view.networked
      modifies this`trace, this`view, this`views, this`book
      ensures Valid()
      ensures view == old(view).(networked := false, inspected := None, activated := old(view.activated) && ok)
      ensures book == old(book).(failed := old(book.failed) || (!ok && !old(book.cleaning)))
      ensures old(trace) <= trace
    {
      ok := *;
      Emit(NetworkReleased(ok));
    }

    method Readiness() returns (ok: bool)
      requires Valid() && view.hasResult && !view.ready && view.activations == 0 && view.leased == view.networked
      modifies this`trace, this`view, this`views, this`book
      ensures Valid() && view == old(view).(ready := ok, inspected := None)
      ensures book == old(book).(failed := old(book.failed) || (!ok && !old(book.cleaning)))
      ensures old(trace) <= trace
    {
      ok := *;
      Emit(Event.Readiness(ok));
    }

    method Revalidate() returns (ok: bool)
      requires Valid() && view.leased && view.ready && !view.revalidated
      modifies this`trace, this`view, this`views, this`book
      ensures Valid() && view == old(view).(revalidated := ok, inspected := None)
      ensures book == old(book).(failed := old(book.failed) || (!ok && !old(book.cleaning)))
      ensures old(trace) <= trace
    {
      ok := *;
      Emit(Revalidated(ok));
    }

    method Inspect(cleanup: bool) returns (ok: bool)
      requires Valid() && view.leased && view.networked
      modifies this`trace, this`view, this`views, this`book
      ensures Valid()
      ensures view == old(view).(inspected := if ok then Some(cleanup) else None, attempt :=
                                 if cleanup && !ok && old(view.attempt.Attempting?) then Blocked
                                 else old(view.attempt))
      ensures book == old(book).(failed := old(book.failed) || (!ok && !old(book.cleaning)))
      ensures old(trace) <= trace
    {
      ok := *;
      Emit(Inspected(cleanup, ok));
    }

    /** The activation callback may commit (which cancels cleanup) and may still fail afterwards. */
    method Activate() returns (ok: bool)
      requires Valid() && MayActivate(view) && !view.committed && view.attempt == NotAttempted
      modifies this`trace, this`view, this`views, this`book, this`cleanupRequired
      ensures Valid()
      ensures view.leased && view.networked && view.lifecycle == old(view.lifecycle)
      ensures view.activations == 1 && view.attempt == NotAttempted && view.activated == ok
      ensures book.failed == (old(book.failed) || !ok) && HeldAs(old(book)) && view.result == old(view.result)
      ensures old(trace) <= trace
    {
      BeginActivation();
      var commits: bool := *;
      if commits { OnCommitted(); }
      ok := EndActivation();
    }

    method BeginActivation()
      requires Valid() && MayActivate(view) && !view.committed && view.attempt == NotAttempted
      modifies this`trace, this`view, this`views, this`book
      ensures Valid() && view == old(view).(activations := 1, inspected := None)
      ensures book == old(book).(heldThrough := !old(book.released))
      ensures old(trace) <= trace
    {
      Emit(ActivateBegun);
    }

    method EndActivation() returns (ok: bool)
      requires Valid() && view.activations == 1
      modifies this`trace, this`view, this`views, this`book
      ensures Valid() && view == old(view).(activated := ok, inspected := None)
      ensures book == old(book).(failed := old(book.failed) || (!ok && !old(book.cleaning)))
      ensures old(trace) <= trace
    {
      ok := *;
      Emit(ActivateEnded(ok));
    }

    method OnCommitted()
      requires Valid() && view.activations == 1 && !view.committed && view.attempt == NotAttempted
      modifies this`trace, this`view, this`views, this`book, this`cleanupRequired
      ensures Valid() && !cleanupRequired && view == old(view).(committed := true, inspected := None)
      ensures book == old(book)
      ensures old(trace) <= trace
    {
      Emit(Committed);
      cleanupRequired := false;
    }

    /** Activation began in the lease of the result, if that was still held in `b`. */
    ghost predicate HeldAs(b: Book)
      reads this
    {
      book.heldThrough == !b.released && book.adopted == b.adopted
    }

    /** Nothing has failed, and nothing has been activated, committed or cleaned up. */
    ghost predicate Untouched()
      reads this
    {
      !book.failed && view.activations == 0 && !view.committed && view.attempt == NotAttempted
    }

    /** Re-inspection and removal of the exact candidate, both locks held. */
    method CleanupWithCapability() returns (ok: bool)
      requires Valid() && view.leased && view.networked && view.attempt.Attempting?
      requires cleanupRequired && view.cleanups == 0
      requires view.reload.Some? && !view.reload.value.Unreadable? && !PublishedElsewhere(view, view.reload.value)
      modifies this`trace, this`view, this`views, this`book
      ensures Valid() && view.leased && view.networked && SameButAttempt(old(view)) && SameStory(old(book))
      ensures view.attempt == Blocked || view.attempt == Cleaned
      ensures ok ==> view.attempt == Cleaned
      ensures old(trace) <= trace
    {
      ok := InspectForCleanup();
      if ok { ok := CleanUp(); }
    }

    method InspectForCleanup() returns (ok: bool)
      requires Valid() && view.leased && view.networked && view.attempt.Attempting? && view.reload.Some?
      requires !PublishedElsewhere(view, view.reload.value)
      modifies this`trace, this`view, this`views, this`book
      ensures Valid() && view.leased && view.networked && SameButAttempt(old(view)) && SameStory(old(book))
      ensures view.cleanups == old(view.cleanups) && view.reload == old(view.reload)
      ensures view.attempt == (if ok then Attempting else Blocked) && (ok ==> view.inspected == Some(true))
      ensures !PublishedElsewhere(view, view.reload.value)
      ensures old(trace) <= trace
    {
      ghost var before := view;
      ok := Inspect(true);
      SameOwner(before, view, view.reload.value);
    }

    method CleanUp() returns (ok: bool)
      requires Valid() && view.leased && view.networked && view.cleanups == 0 && view.inspected == Some(true)
      requires cleanupRequired && view.attempt != NotAttempted
      requires view.reload.Some? && !view.reload.value.Unreadable? && !PublishedElsewhere(view, view.reload.value)
      modifies this`trace, this`view, this`views, this`book
      ensures Valid() && view.leased && view.networked && SameButAttempt(old(view)) && SameStory(old(book))
      ensures view.attempt == Cleaned
      ensures old(trace) <= trace
    {
      ok := *;
      Emit(CleanedUp(ok));
    }

    /** How a phase ended, and in which lease activation happened or still has to. */
    ghost predicate Ended(phase: Phase, retain: bool)
      reads this
    {
      && (view.activated <==> phase.Completed?) && (book.failed <==> phase.Error?)
      && (phase.Completed? ==> book.heldThrough && MustHold(retain))
      && (phase.Continue? ==> !MustHold(retain))
      && (!phase.Error? ==> view.attempt == NotAttempted)
    }

    /** The locks have to be kept from ensure through activation. */
    ghost predicate MustHold(retain: bool)
      reads this
    {
      !book.adopted && (retain || (view.result.Some? && view.result.value.preparationLease))
    }

    ghost predicate SameStory(b: Book)
      reads this
    {
      (b.failed ==> book.failed) && book.adopted == b.adopted && book.heldThrough == b.heldThrough
    }

    ghost predicate SameButAttempt(v: View)
      reads this
    {
      && view.hasResult == v.hasResult && view.result == v.result
      && view.activations == v.activations && view.committed == v.committed
      && (view.activated ==> v.activated)
    }

    /** Takes the network lock for the cleanup unless the caller already holds it. */
    method CleanupUnderNetwork(hasNetwork: bool) returns (ok: bool)
      requires Valid() && view.leased && view.networked == hasNetwork && view.attempt.Attempting?
      requires cleanupRequired && view.cleanups == 0
      requires view.reload.Some? && !view.reload.value.Unreadable? && !PublishedElsewhere(view, view.reload.value)
      modifies this`trace, this`view, this`views, this`book
      ensures Valid() && view.leased && view.networked == hasNetwork
      ensures SameButAttempt(old(view)) && SameStory(old(book))
      ensures view.attempt == Blocked || view.attempt == Cleaned
      ensures ok ==> view.attempt == Cleaned
      ensures old(trace) <= trace
    {
      if hasNetwork {
        ok := CleanupWithCapability();
      } else {
        ok := AcquireNetwork();
        if ok {
          ok := CleanupWithCapability();
          var released := ReleaseNetwork();
          ok := ok && released;
        }
      }
    }

    /** The ownership re-read that starts a cleanup attempt. */
    method ReloadOwnership() returns (reload: Reload)
      requires Valid() && view.leased && cleanupRequired && !cleanupAttempted
      modifies this`trace, this`view, this`views, this`book, this`cleanupAttempted
      ensures Legal(trace, views) && view == views[|trace|] && book == BookOf(trace) && cleanupAttempted
      ensures view == Watch(old(view), Reloaded(reload)) && book == Enter(old(book), Reloaded(reload))
      ensures old(trace) <= trace
    {
      reload := *;
      cleanupAttempted := true;
      Emit(Reloaded(reload));
    }

    /** `cleanupWhileWorkspaceLocked`: attempted at most once, and never past a publication by a peer. */
    method CleanupWhileLocked(active: Lifecycle, hasNetwork: bool)
      requires Valid() && view.leased && view.lifecycle == Some(active) && view.networked == hasNetwork
      requires !view.attempt.Attempting?
      modifies this`trace, this`view, this`views, this`book, this`cleanupRequired, this`cleanupAttempted
      ensures Valid() && view.leased && view.networked == hasNetwork
      ensures SameButAttempt(old(view)) && SameStory(old(book))
      ensures !view.attempt.Attempting?
      ensures cleanupRequired ==> cleanupAttempted
      ensures old(trace) <= trace
    {
      if !cleanupRequired || cleanupAttempted || result.None? { return; }
      var reload := ReloadOwnership();
      if reload.Unreadable? { return; }
      var current := if reload.Reread? then reload.lifecycle else active;
      if Publishes(current, result.value) {
        cleanupRequired := false;
        return;
      }
      var done := CleanupUnderNetwork(hasNetwork);
      if done { cleanupRequired := false; }
    }

    /** The ensure callback; a failure leaves no result and nothing to clean up. */
    method Ensure() returns (ok: bool)
      requires Valid() && view.leased && view.networked && !view.hasResult && Untouched()
      modifies this`trace, this`view, this`views, this`book, this`result, this`cleanupRequired
      ensures Valid() && view.leased && view.networked && view.lifecycle == old(view.lifecycle)
      ensures book.failed <==> !ok || Unprepared(result)
      ensures view.activations == 0 && !view.committed && view.attempt == NotAttempted
      ensures if ok then view.hasResult && !view.ready && !view.dropped && !book.released && !book.adopted
              else !view.hasResult
      ensures old(trace) <= trace
    {
      ok := *;
      if !ok { Emit(EnsureFailed); return; }
      var candidate: Option<Candidate> := *;
      Emit(Ensured(candidate));
      result := candidate;
      cleanupRequired := TaskOwned(candidate);
    }

    /** Readiness, inspection and activation without ever releasing the locks. */
    method ActivateRetained() returns (ok: bool)
      requires Valid() && view.leased && view.networked && view.hasResult && !view.ready && !view.dropped && Untouched()
      requires !book.released
      modifies this`trace, this`view, this`views, this`book, this`cleanupRequired
      ensures Valid() && view.leased && view.networked && view.lifecycle == old(view.lifecycle)
      ensures view.attempt == NotAttempted
      ensures view.activated == ok && book.failed == !ok && (ok ==> HeldAs(old(book)))
      ensures view.result == old(view.result)
      ensures old(trace) <= trace
    {
      ok := Readiness();
      if ok { ok := InspectAndActivate(); }
    }

    /** The ensure callback and, when the locks are retained, readiness and activation under them. */
    method EnsureWithLocks(active: Lifecycle, retain: bool) returns (phase: Phase)
      requires Valid() && view.leased && view.networked && view.lifecycle == Some(active)
      requires !view.hasResult && Untouched()
      modifies this
      ensures Valid() && view.leased && view.networked && !view.attempt.Attempting?
      ensures Ended(phase, retain)
      ensures phase.Continue? ==> view.hasResult && !view.ready && Untouched()
      ensures phase.Error? && cleanupRequired ==> cleanupAttempted
      ensures old(trace) <= trace
    {
      var ensured := Ensure();
      if !ensured { return Error; }
      var hasLease := result.Some? && result.value.preparationLease;
      var ok := !(result.Some? && result.value.requiresEdgeActivation && !hasLease);
      if ok && !hasLease && !retain { return Continue; }
      if ok { ok := ActivateRetained(); }
      if ok { return Completed; }
      CleanupWhileLocked(active, true);
      return Error;
    }

    /** The capture callback: `None` threw, `Some(true)` adopted an existing runtime without ensure. */
    method Capture() returns (adopts: Option<bool>)
      requires Valid() && view.leased && !view.hasResult && Untouched()
      modifies this`trace, this`view, this`views, this`book, this`result, this`cleanupRequired
      ensures Valid() && view.leased && view.networked == old(view.networked) && view.lifecycle == old(view.lifecycle)
      ensures view.activations == 0 && !view.committed && view.attempt == NotAttempted && book.failed == adopts.None?
      ensures adopts == Some(true) ==> view.hasResult && !view.ready && book.adopted
      ensures adopts == Some(false) ==> !view.hasResult
      ensures old(trace) <= trace
    {
      var captured: bool := *;
      if !captured { Emit(CaptureFailed); return None; }
      var adopted: Option<Option<Candidate>> := *;
      Emit(Captured(adopted));
      if adopted.Some? {
        result := adopted.value;
        cleanupRequired := TaskOwned(result);
      }
      return Some(adopted.Some?);
    }

    /** Capture, then adoption or ensure. */
    method CaptureAndEnsure(active: Lifecycle, retain: bool) returns (phase: Phase)
      requires Valid() && view.leased && !view.networked && view.lifecycle == Some(active)
      requires !view.hasResult && Untouched()
      modifies this
      ensures Valid() && view.leased && !view.networked && !view.attempt.Attempting?
      ensures Ended(phase, retain)
      ensures phase.Continue? ==> view.hasResult && !view.ready && Untouched()
      ensures old(trace) <= trace
    {
      var captured := Capture();
      if captured.None? { return Error; }
      if captured.value { return Continue; }
      phase := EnsureUnderNetwork(active, retain);
    }

    /** Ensure under the network lock, which is given back whatever happens. */
    method EnsureUnderNetwork(active: Lifecycle, retain: bool) returns (phase: Phase)
      requires Valid() && view.leased && !view.networked && view.lifecycle == Some(active)
      requires !view.hasResult && Untouched()
      modifies this
      ensures Valid() && view.leased && !view.networked && !view.attempt.Attempting?
      ensures Ended(phase, retain)
      ensures phase.Continue? ==> view.hasResult && !view.ready && Untouched()
      ensures old(trace) <= trace
    {
      var network := AcquireNetwork();
      if !network { return Error; }
      phase := EnsureWithLocks(active, retain);
      var released := ReleaseNetwork();
      if !released { phase := Error; }
    }

    /** Everything under the first lease. */
    method InitialPhase(retain: bool) returns (phase: Phase)
      requires Valid() && view == START && book == BLANK
      modifies this
      ensures Valid() && !view.leased && !view.networked && !view.attempt.Attempting?
      ensures Ended(phase, retain)
      ensures phase.Continue? ==> view.hasResult && !view.ready && view.dropped && book.released && Untouched()
      ensures old(trace) <= trace
    {
      var lease := AcquireLease();
      if lease.None? { return Error; }
      phase := CaptureAndEnsure(lease.value, retain);
      var released := ReleaseLease();
      if !released { phase := Error; }
    }

    method InspectAndActivate() returns (ok: bool)
      requires Valid() && view.leased && view.networked && view.hasResult && view.ready && Untouched()
      requires view.dropped ==> view.revalidated
      modifies this`trace, this`view, this`views, this`book, this`cleanupRequired
      ensures Valid() && view.leased && view.networked && view.lifecycle == old(view.lifecycle)
      ensures view.attempt == NotAttempted
      ensures view.activated == ok && book.failed == !ok && (ok ==> HeldAs(old(book)))
      ensures view.result == old(view.result)
      ensures old(trace) <= trace
    {
      ok := Inspect(false);
      if ok { ok := Activate(); }
    }

    /** Revalidation and activation under the network lock, inside the second lease. */
    method ActivateRevalidated() returns (ok: bool)
      requires Valid() && view.leased && !view.networked && view.hasResult && view.ready && !view.revalidated
          && Untouched()
      modifies this`trace, this`view, this`views, this`book, this`cleanupRequired
      ensures Valid() && view.leased && !view.networked && view.lifecycle == old(view.lifecycle)
      ensures view.attempt == NotAttempted
      ensures view.activated == ok && book.failed == !ok && (ok ==> HeldAs(old(book)))
      ensures view.result == old(view.result)
      ensures old(trace) <= trace
    {
      ok := Revalidate();
      if ok { ok := ActivateUnderNetwork(); }
    }

    /** Inspection and activation under the network lock, which is given back whatever happens. */
    method ActivateUnderNetwork() returns (ok: bool)
      requires Valid() && view.leased && !view.networked && view.hasResult && view.ready && view.revalidated
          && Untouched()
      modifies this`trace, this`view, this`views, this`book, this`cleanupRequired
      ensures Valid() && view.leased && !view.networked && view.lifecycle == old(view.lifecycle)
      ensures view.attempt == NotAttempted
      ensures view.activated == ok && book.failed == !ok && (ok ==> HeldAs(old(book)))
      ensures view.result == old(view.result)
      ensures old(trace) <= trace
    {
      ok := AcquireNetwork();
      if !ok { return; }
      ok := InspectAndActivate();
      var released := ReleaseNetwork();
      ok := ok && released;
    }

    /** Everything under the second lease. */
    method ActivatePhase() returns (ok: bool)
      requires Valid() && !view.leased && !view.networked && view.hasResult && view.ready && Untouched()
      modifies this`trace, this`view, this`views, this`book, this`cleanupRequired, this`cleanupAttempted
      ensures Valid() && !view.leased && !view.networked && !view.attempt.Attempting?
      ensures view.activated == ok && book.failed == !ok && (ok ==> HeldAs(old(book)))
      ensures view.result == old(view.result)
      ensures old(trace) <= trace
    {
      var lease := AcquireLease();
      if lease.None? { return false; }
      ok := ActivateRevalidated();
      if !ok { CleanupWhileLocked(lease.value, false); }
      var released := ReleaseLease();
      ok := ok && released;
    }

    /** `cleanupAfterWorkspaceRelease`: one more lease, only for a cleanup that was not attempted yet. */
    method CleanupAfterRelease()
      requires Valid() && !view.leased && !view.networked && !view.attempt.Attempting?
      modifies this`trace, this`view, this`views, this`book, this`cleanupRequired, this`cleanupAttempted
      ensures Valid() && !view.leased && !view.networked && !view.attempt.Attempting?
      ensures cleanupRequired && !cleanupAttempted ==> trace != [] && trace[|trace| - 1] == LeaseDenied
      ensures (view.activated ==> old(view.activated)) && (old(book.failed) ==> book.failed)
      ensures old(trace) <= trace
    {
      if !cleanupRequired || cleanupAttempted || result.None? { return; }
      var lease := AcquireLease();
      if lease.None? { return; }
      CleanupWhileLocked(lease.value, false);
      var released := ReleaseLease();
    }

    /**
     * The whole transaction. Every run leaves a legal trace and no lock; it returns exactly when
     * activation succeeded and no lock release failed after it, and throws exactly when something
     * failed before any cleanup; a run that returns kept its locks from ensure through activation
     * exactly when it had to; a run that throws with an uncommitted candidate it owns has cleaned it
     * up, found it published by a peer, was blocked while attempting to, or could not obtain the
     * cleanup lease as its very last effect.
     */
    method Run(retain: bool) returns (outcome: Outcome)
      requires Valid() && view == START && trace == []
      modifies this
      ensures Valid() && !view.leased && !view.networked
      ensures outcome.Returned? <==> SucceededBy(trace, |trace|)
      ensures outcome.Threw? <==> Failing(trace)
      ensures outcome.Returned? ==> (book.heldThrough <==> MustHold(retain))
      ensures outcome.Threw? && TaskOwned(view.result) && !view.committed ==>
                || view.attempt.Cleaned? || view.attempt.Preserved? || view.attempt.Blocked?
                || (trace != [] && trace[|trace| - 1] == LeaseDenied)
      ensures old(trace) <= trace
    {
      var phase := InitialPhase(retain);
      var ok := phase.Completed?;
      if phase.Continue? {
        var ready := Readiness();
        if ready { ok := ActivatePhase(); }
      }
      if !ok { CleanupAfterRelease(); }
      SuccessMeaning(trace, views, |trace|);
      FailureMeaning(trace);
      return if ok then Returned else Threw;
    }
  }

  // -------- What a legal trace means, event by event --------

  /** The lease is held just before event `i`: acquired earlier and not released since. */
  ghost predicate HoldsLease(t: seq<Event>, i: int)
    requires 0 <= i <= |t|
  {
    exists j | 0 <= j < i :: t[j].LeaseAcquired? && forall m | j < m < i :: !t[m].LeaseReleased?
  }

  ghost predicate HoldsNetwork(t: seq<Event>, i: int)
    requires 0 <= i <= |t|
  {
    exists j | 0 <= j < i :: t[j] == NetworkAcquired && forall m | j < m < i :: !t[m].NetworkReleased?
  }

  /** The result in force before event `i` was obtained at `p`. */
  ghost predicate ObtainedAt(t: seq<Event>, p: int, i: int, r: Option<Candidate>)
    requires 0 <= i <= |t|
  {
    0 <= p < i && IsResult(t[p]) && ResultIn(t[p]) == r && forall m | p < m < i :: !IsResult(t[m])
  }

  lemma {:induction false} LeaseMeaning(t: seq<Event>, views: seq<View>, i: int)
    requires Legal(t, views) && 0 <= i <= |t|
    ensures views[i].leased <==> HoldsLease(t, i)
    decreases i
  {
    if i > 0 {
      LeaseMeaning(t, views, i - 1);
      assert StepLegal(t, views, i - 1);
      if HoldsLease(t, i - 1) && !t[i - 1].LeaseReleased? {
        var j :| 0 <= j < i - 1 && t[j].LeaseAcquired? && forall m | j < m < i - 1 :: !t[m].LeaseReleased?;
        assert t[j].LeaseAcquired? && forall m | j < m < i :: !t[m].LeaseReleased?;
      }
    }
  }

  lemma {:induction false} NetworkMeaning(t: seq<Event>, views: seq<View>, i: int)
    requires Legal(t, views) && 0 <= i <= |t|
    ensures views[i].networked <==> HoldsNetwork(t, i)
    decreases i
  {
    if i > 0 {
      NetworkMeaning(t, views, i - 1);
      assert StepLegal(t, views, i - 1);
      if HoldsNetwork(t, i - 1) && !t[i - 1].NetworkReleased? {
        var j :| 0 <= j < i - 1 && t[j] == NetworkAcquired && forall m | j < m < i - 1 :: !t[m].NetworkReleased?;
        assert t[j] == NetworkAcquired && forall m | j < m < i :: !t[m].NetworkReleased?;
      }
    }
  }

  function Activations(t: seq<Event>): nat {
    if t == [] then 0 else Activations(t[..|t| - 1]) + (if t[|t| - 1] == ActivateBegun then 1 else 0)
  }

  function Cleanups(t: seq<Event>): nat {
    if t == [] then 0 else Cleanups(t[..|t| - 1]) + (if t[|t| - 1].CleanedUp? then 1 else 0)
  }

  /** The summary counts the activations and cleanups of the trace and remembers a commit. */
  lemma {:induction false} OnceMeaning(t: seq<Event>, views: seq<View>, i: int)
    requires Legal(t, views) && 0 <= i <= |t|
    ensures views[i].cleanups == Cleanups(t[..i]) && views[i].activations == Activations(t[..i])
    ensures views[i].cleanups == 0 <==> forall j | 0 <= j < i :: !t[j].CleanedUp?
    ensures views[i].activations == 0 <==> forall j | 0 <= j < i :: t[j] != ActivateBegun
    ensures views[i].committed <==> exists j | 0 <= j < i :: t[j] == Committed
    decreases i
  {
    if i > 0 {
      OnceMeaning(t, views, i - 1);
      assert StepLegal(t, views, i - 1);
      assert t[..i][..i - 1] == t[..i - 1];
    }
  }

  /** Activated means: an activation ended well, and since then no lock release failed and no activation ended. */
  lemma {:induction false} SuccessMeaning(t: seq<Event>, views: seq<View>, i: int)
    requires Legal(t, views) && 0 <= i <= |t|
    ensures views[i].activated <==> SucceededBy(t, i)
    decreases i
  {
    if i > 0 {
      SuccessMeaning(t, views, i - 1);
      assert StepLegal(t, views, i - 1);
      if views[i].activated {
        if t[i - 1] == ActivateEnded(true) {
          assert ReleasesHold(t, i - 1, i);
        } else {
          var a :| 0 <= a < i - 1 && t[a] == ActivateEnded(true) && ReleasesHold(t, a, i - 1);
          assert ReleasesHold(t, a, i);
        }
      } else if a :| 0 <= a < i && t[a] == ActivateEnded(true) && ReleasesHold(t, a, i) {
        assert ReleasesHold(t, a, i - 1);
      }
    }
  }

  /** Something failed, and no cleanup had been attempted by then. */
  ghost predicate Failing(t: seq<Event>) {
    exists j | 0 <= j < |t| :: FailsAt(t, j)
  }

  ghost predicate FailsAt(t: seq<Event>, j: int)
    requires 0 <= j < |t|
  {
    IsFailure(t[j]) && forall m | 0 <= m < j :: !t[m].Reloaded?
  }

  /** The failure flag is a failing event with no cleanup attempt before it. */
  lemma {:induction false} FailureMeaning(t: seq<Event>)
    ensures BookOf(t).cleaning <==> exists m | 0 <= m < |t| :: t[m].Reloaded?
    ensures BookOf(t).failed <==> Failing(t)
    decreases |t|
  {
    if t != [] {
      var n := |t| - 1;
      var init := t[..n];
      FailureMeaning(init);
      forall j | 0 <= j < n ensures FailsAt(t, j) <==> FailsAt(init, j) {}
      if Failing(t) {
        var j :| 0 <= j < |t| && FailsAt(t, j);
        if j < n { assert FailsAt(init, j); }
      }
      if Failing(init) {
        var j :| 0 <= j < n && FailsAt(init, j);
        assert FailsAt(t, j);
      }
      if IsFailure(t[n]) && !BookOf(init).cleaning { assert FailsAt(t, n); }
    }
  }

  /** Held through means: the lease was not released between the last result and the begin of activation. */
  lemma {:induction false} HeldMeaning(t: seq<Event>) returns (a: int)
    requires BookOf(t).heldThrough
    ensures 0 <= a < |t| && t[a] == ActivateBegun && !BookOf(t[..a]).released
    decreases |t|
  {
    var n := |t| - 1;
    if t[n] == ActivateBegun {
      a := n;
    } else {
      a := HeldMeaning(t[..n]);
      assert t[..n][..a] == t[..a];
    }
  }

  lemma {:induction false} ReleasedMeaning(t: seq<Event>, p: int)
    requires 0 <= p < |t| && IsResult(t[p]) && !BookOf(t).released
    requires forall m | p < m < |t| :: !IsResult(t[m])
    ensures forall m | p < m < |t| :: !t[m].LeaseReleased?
    decreases |t|
  {
    var n := |t| - 1;
    if p < n { ReleasedMeaning(t[..n], p); }
  }

  ghost predicate SucceededBy(t: seq<Event>, i: int)
    requires 0 <= i <= |t|
  {
    exists a | 0 <= a < i :: t[a] == ActivateEnded(true) && ReleasesHold(t, a, i)
  }

  ghost predicate ReleasesHold(t: seq<Event>, a: int, i: int)
    requires 0 <= a && i <= |t|
  {
    forall m | a < m < i :: t[m] != NetworkReleased(false) && t[m] != LeaseReleased(false) && !t[m].ActivateEnded?
  }

  lemma {:induction false} ResultMeaning(t: seq<Event>, views: seq<View>, i: int) returns (p: int)
    requires Legal(t, views) && 0 <= i <= |t| && views[i].hasResult
    ensures ObtainedAt(t, p, i, views[i].result)
    ensures views[i].ready ==> exists r | p < r < i :: t[r] == Readiness(true)
    ensures !views[i].dropped ==> forall m | p < m < i :: !t[m].LeaseReleased?
    decreases i
  {
    if i == 0 { assert false; }
    assert StepLegal(t, views, i - 1);
    if IsResult(t[i - 1]) {
      p := i - 1;
    } else {
      p := ResultMeaning(t, views, i - 1);
    }
  }

  lemma {:induction false} RevalidationMeaning(t: seq<Event>, views: seq<View>, i: int)
    requires Legal(t, views) && 0 <= i <= |t|
    ensures views[i].revalidated ==>
              exists q | 0 <= q < i :: t[q] == Revalidated(true) && forall m | q < m < i :: !t[m].LeaseAcquired?
    decreases i
  {
    if i > 0 && views[i].revalidated {
      assert StepLegal(t, views, i - 1);
      if t[i - 1] != Revalidated(true) {
        RevalidationMeaning(t, views, i - 1);
        var q :| 0 <= q < i - 1 && t[q] == Revalidated(true) && forall m | q < m < i - 1 :: !t[m].LeaseAcquired?;
        assert t[q] == Revalidated(true) && forall m | q < m < i :: !t[m].LeaseAcquired?;
      }
    }
  }

  lemma {:induction false} ReloadMeaning(t: seq<Event>, views: seq<View>, i: int)
    requires Legal(t, views) && 0 <= i <= |t|
    ensures views[i].reload.Some? ==>
              exists q | 0 <= q < i :: t[q] == Reloaded(views[i].reload.value) && forall m | q < m < i ::
                  !t[m].LeaseAcquired?
    decreases i
  {
    if i > 0 && views[i].reload.Some? {
      assert StepLegal(t, views, i - 1);
      if !t[i - 1].Reloaded? {
        ReloadMeaning(t, views, i - 1);
        var q :| 0 <= q < i - 1 && t[q] == Reloaded(views[i].reload.value) && forall m | q < m < i - 1 ::
            !t[m].LeaseAcquired?;
        assert t[q] == Reloaded(views[i].reload.value) && forall m | q < m < i :: !t[m].LeaseAcquired?;
      }
    }
  }

  lemma InspectionMeaning(t: seq<Event>, views: seq<View>, i: int)
    requires Legal(t, views) && 0 < i <= |t| && views[i].inspected.Some?
    ensures t[i - 1] == Inspected(views[i].inspected.value, true)
  {
    assert StepLegal(t, views, i - 1);
  }

  /**
   * Ownership. In every run a candidate is removed at most once, never in a run that
   * commits, only while both locks are held, only when this task owns the candidate it
   * obtained, right after an exact inspection, and only after a re-read under the same
   * lease that does not publish it.
   */
  lemma CleanupRespectsOwnership(t: seq<Event>, views: seq<View>, i: int) returns (p: int, q: int)
    requires Legal(t, views) && 0 <= i < |t| && t[i].CleanedUp?
    ensures forall j | 0 <= j < |t| && j != i :: !t[j].CleanedUp? && t[j] != Committed
    ensures HoldsLease(t, i) && HoldsNetwork(t, i)
    ensures i > 0 && t[i - 1] == Inspected(true, true)
    ensures ObtainedAt(t, p, i, views[i].result) && TaskOwned(views[i].result)
    ensures 0 <= q < i && t[q].Reloaded? && (forall m | q < m < i :: !t[m].LeaseAcquired?)
    ensures t[q].reload.Reread? ==> !Publishes(t[q].reload.lifecycle, views[i].result.value)
    ensures t[q].reload.Inactive? && views[i].lifecycle.Some? ==>
              !Publishes(views[i].lifecycle.value, views[i].result.value)
    ensures t[q].reload != Unreadable
  {
    assert StepLegal(t, views, i);
    LeaseMeaning(t, views, i);
    NetworkMeaning(t, views, i);
    OnceMeaning(t, views, i);
    ReloadMeaning(t, views, i);
    q :| 0 <= q < i && t[q] == Reloaded(views[i].reload.value) && forall m | q < m < i :: !t[m].LeaseAcquired?;
    p := OwnedResultMeaning(t, views, i);
    if i == 0 { assert false; }
    InspectionMeaning(t, views, i);
    forall j | 0 <= j < |t| && j != i ensures !t[j].CleanedUp? && t[j] != Committed {
      OnceMeaning(t, views, j);
      assert StepLegal(t, views, j);
    }
  }

  lemma {:induction false} OwnedResultMeaning(t: seq<Event>, views: seq<View>, i: int) returns (p: int)
    requires Legal(t, views) && 0 <= i <= |t| && TaskOwned(views[i].result)
    ensures ObtainedAt(t, p, i, views[i].result)
    decreases i
  {
    if i == 0 { assert false; }
    assert StepLegal(t, views, i - 1);
    if IsResult(t[i - 1]) { p := i - 1; } else { p := OwnedResultMeaning(t, views, i - 1); }
  }

  /**
   * Activation gate. In every run activation begins at most once, with both locks held,
   * right after an exact inspection, after readiness passed for the very result that was
   * obtained; and if the lease was released since then, a revalidation succeeded under the
   * lease that is held now.
   */
  lemma ActivationIsGated(t: seq<Event>, views: seq<View>, i: int) returns (p: int)
    requires Legal(t, views) && 0 <= i < |t| && t[i] == ActivateBegun
    ensures forall j | 0 <= j < |t| && j != i :: t[j] != ActivateBegun
    ensures HoldsLease(t, i) && HoldsNetwork(t, i)
    ensures i > 0 && t[i - 1] == Inspected(false, true)
    ensures ObtainedAt(t, p, i, views[i].result) && exists r | p < r < i :: t[r] == Readiness(true)
    ensures (exists m | p < m < i :: t[m].LeaseReleased?) ==>
              exists q | 0 <= q < i :: t[q] == Revalidated(true) && forall m | q < m < i :: !t[m].LeaseAcquired?
  {
    assert StepLegal(t, views, i);
    LeaseMeaning(t, views, i);
    NetworkMeaning(t, views, i);
    RevalidationMeaning(t, views, i);
    p := ResultMeaning(t, views, i);
    if i == 0 { assert false; }
    InspectionMeaning(t, views, i);
    forall j | 0 <= j < |t| && j != i ensures t[j] != ActivateBegun {
      OnceMeaning(t, views, j);
      OnceMeaning(t, views, i);
      assert StepLegal(t, views, j);
    }
  }

  /** Lock discipline: the network lock is taken only inside the lease, never twice, and given back first. */
  lemma LocksNest(t: seq<Event>, views: seq<View>, i: int)
    requires Legal(t, views) && 0 <= i < |t|
    ensures t[i] == NetworkAcquired ==> HoldsLease(t, i) && !HoldsNetwork(t, i)
    ensures t[i].LeaseReleased? ==> HoldsLease(t, i) && !HoldsNetwork(t, i)
    ensures t[i].LeaseAcquired? ==> !HoldsLease(t, i) && !HoldsNetwork(t, i)
    ensures t[i].Ensured? || t[i].Inspected? ==> HoldsLease(t, i) && HoldsNetwork(t, i)
  {
    LeaseMeaning(t, views, i);
    NetworkMeaning(t, views, i);
    assert StepLegal(t, views, i);
  }
}
