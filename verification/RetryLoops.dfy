/**
 * Clock answers for the retry loops. Readings never go back and a sleep of `ms` lasts at
 * least `ms`, except that the adversary may break this `faults` times in arbitrary ways.
 * Every finite run is a run with some number of faults, so safety holds of every run;
 * termination holds because the number is finite.
 */
module Clock {
  method Read(last: int, faults: nat) returns (now: int, left: nat)
    ensures (left == faults && now >= last) || left < faults
  {
    now, left := *, faults;
    if now < last {
      if faults > 0 { left := faults - 1; } else { now := last; }
    }
  }

  method Sleep(last: int, ms: int, faults: nat) returns (now: int, left: nat)
    ensures (left == faults && now >= last + ms) || left < faults
  {
    now, left := *, faults;
    if now < last + ms {
      if faults > 0 { left := faults - 1; } else { now := last + ms; }
    }
  }
}

/** `withActiveNoWaitWorkerLifecycleLease` in cli/commands/noWaitWorker.js. */
module LifecycleLease {
  import opened Common
  import Clock

  datatype Event<L> =
    | Sampled(lifecycle: L)                  // read without the lease
    | SampleRetryable | SampleFatal
    | LeaseGranted | LeaseDenied
    | Rechecked(lifecycle: L)                // read under the lease
    | RecheckRetryable | RecheckFatal
    | CallbackRan(lifecycle: L, ok: bool)
    | LeaseReleased(ok: bool)
    | Slept(ms: int)

  datatype Outcome = Value | Threw | TimedOut

  predicate Held<L>(t: seq<Event<L>>) {
    if t == [] then false
    else if t[|t| - 1].LeaseGranted? then true
    else if t[|t| - 1].LeaseReleased? then false
    else Held(t[..|t| - 1])
  }

  lemma HeldAfter<L>(t: seq<Event<L>>, e: Event<L>)
    ensures Held(t + [e]) == (if e.LeaseGranted? then true else if e.LeaseReleased? then false else Held(t))
  {
    assert (t + [e])[..|t|] == t;
  }

  /** The callback ran here: with the lease held, on one lifecycle seen before and under it, as the last act. */
  ghost predicate CallbackInPlace<L(!new)>(t: seq<Event<L>>, i: int)
    requires 0 <= i < |t| && t[i].CallbackRan?
  {
    && i >= 3 && i == |t| - 2
    && t[i - 3] == Sampled(t[i].lifecycle)
    && t[i - 2] == LeaseGranted
    && t[i - 1] == Rechecked(t[i].lifecycle)
    && t[i + 1].LeaseReleased?
  }

  ghost predicate SleepsUnlocked<L(!new)>(t: seq<Event<L>>) {
    forall i | 0 <= i < |t| && t[i].Slept? :: !Held(t[..i])
  }

  ghost predicate NoCallback<L(!new)>(t: seq<Event<L>>) {
    forall i | 0 <= i < |t| :: !t[i].CallbackRan?
  }

  lemma SleepsStayUnlocked<L(!new)>(t: seq<Event<L>>, e: Event<L>)
    requires SleepsUnlocked(t) && (e.Slept? ==> !Held(t))
    ensures SleepsUnlocked(t + [e])
  {
    var t' := t + [e];
    forall i | 0 <= i < |t'| && t'[i].Slept? ensures !Held(t'[..i]) {
      assert t'[..i] == t[..i];
      if i == |t| { assert t[..i] == t; }
    }
  }

  method Log<L(!new)>(t: seq<Event<L>>, e: Event<L>) returns (t': seq<Event<L>>)
    requires SleepsUnlocked(t) && (e.Slept? ==> !Held(t))
    ensures t' == t + [e] && SleepsUnlocked(t')
    ensures Held(t') == (if e.LeaseGranted? then true else if e.LeaseReleased? then false else Held(t))
  {
    HeldAfter(t, e);
    SleepsStayUnlocked(t, e);
    t' := t + [e];
  }

  predicate IsSample<L>(e: Event<L>) { e.Sampled? || e.SampleRetryable? || e.SampleFatal? }

  predicate IsRecheck<L>(e: Event<L>) { e.Rechecked? || e.RecheckRetryable? || e.RecheckFatal? }

  /** The first `n` events call for another try: no sample, or none that held under the lease. */
  ghost predicate Retryable<L(!new)>(t: seq<Event<L>>, n: nat)
    requires n <= |t|
  {
    && n > 0
    && (|| t[n - 1].SampleRetryable?
        || (&& n >= 4 && t[n - 4].Sampled? && t[n - 3].LeaseGranted? && t[n - 1] == LeaseReleased(true)
            && (t[n - 2].RecheckRetryable? || (t[n - 2].Rechecked? && t[n - 2] != Rechecked(t[n - 4].lifecycle)))))
  }

  /** Nothing is skipped: what has to come right before each event. */
  ghost predicate InTurn<L(!new)>(t: seq<Event<L>>, i: int)
    requires 0 <= i < |t|
  {
    && (IsSample(t[i]) ==> i == 0 || t[i - 1].Slept?)
    && (t[i].Slept? ==> Retryable(t, i))
    && (t[i].LeaseGranted? || t[i].LeaseDenied? ==> i > 0 && t[i - 1].Sampled?)
    && (IsRecheck(t[i]) ==> i > 0 && t[i - 1].LeaseGranted?)
    && (t[i].LeaseReleased? ==> i > 0 && (IsRecheck(t[i - 1]) || t[i - 1].CallbackRan?))
  }

  ghost predicate Orderly<L(!new)>(t: seq<Event<L>>) {
    forall i | 0 <= i < |t| :: InTurn(t, i)
  }

  lemma OrderlyExtends<L(!new)>(t: seq<Event<L>>, e: Event<L>)
    requires Orderly(t) && InTurn(t + [e], |t|)
    ensures Orderly(t + [e])
  {
    forall i | 0 <= i < |t + [e]| ensures InTurn(t + [e], i) {
      if i < |t| { assert InTurn(t, i); }
    }
  }

  lemma SectionIsOrderly<L(!new)>(t: seq<Event<L>>, section: seq<Event<L>>, observed: L, done: Option<Outcome>,
      ok: bool)
    requires Orderly(t) && t != [] && t[|t| - 1] == Sampled(observed) && LockedSection(section, observed, done)
    ensures var t' := t + [LeaseGranted] + section + [LeaseReleased(ok)];
            Orderly(t') && (done.None? && ok ==> Retryable(t', |t'|))
  {
    var t1 := t + [LeaseGranted];
    OrderlyExtends(t, LeaseGranted);
    var t2 := t1 + [section[0]];
    OrderlyExtends(t1, section[0]);
    var t3 := t1 + section;
    if |section| == 1 { assert t3 == t2; } else { OrderlyExtends(t2, section[1]); assert t3 == t2 + [section[1]]; }
    OrderlyExtends(t3, LeaseReleased(ok));
  }

  /** What may happen between the grant and the release of a lease taken for `observed`. */
  ghost predicate LockedSection<L(!new)>(section: seq<Event<L>>, observed: L, done: Option<Outcome>) {
    if |section| == 1 then
      && (section[0].RecheckRetryable? || section[0].RecheckFatal? || (section[0].Rechecked?
          && section[0] != Rechecked(observed)))
      && done == (if section[0].RecheckFatal? then Some(Threw) else None)
    else
      && |section| == 2 && section[0] == Rechecked(observed)
      && section[1].CallbackRan? && section[1].lifecycle == observed
      && done == Some(if section[1].ok then Value else Threw)
  }

  /** The re-read and, on the same lifecycle, the callback; `None` asks for another sample. */
  method RecheckAndCall<L(==, 0, !new)>(observed: L) returns (section: seq<Event<L>>, done: Option<Outcome>)
    ensures LockedSection(section, observed, done)
  {
    var readable: bool := *;
    if !readable {
      var retryable: bool := *;
      return [if retryable then RecheckRetryable else RecheckFatal], if retryable then None else Some(Threw);
    }
    var locked: L := *;
    if locked != observed { return [Rechecked(locked)], None; }
    var ok: bool := *;
    return [Rechecked(locked), CallbackRan(locked, ok)], Some(if ok then Value else Threw);
  }

  lemma LockedSectionExtends<L(!new)>(t: seq<Event<L>>, section: seq<Event<L>>, observed: L, done: Option<Outcome>,
      ok: bool)
    requires SleepsUnlocked(t) && LockedSection(section, observed, done)
    ensures var t' := t + [LeaseGranted] + section + [LeaseReleased(ok)]; SleepsUnlocked(t') && !Held(t')
  {
    var t' := t + [LeaseGranted] + section + [LeaseReleased(ok)];
    forall i | 0 <= i < |t'| && t'[i].Slept? ensures !Held(t'[..i]) {
      assert t'[..i] == t[..i];
    }
  }

  /** One try under the lease: `None` asks for another sample. */
  method UnderLease<L(==, 0, !new)>(t0: seq<Event<L>>, observed: L) returns (t: seq<Event<L>>, done: Option<Outcome>)
    requires Quiet(t0) && t0 != [] && t0[|t0| - 1] == Sampled(observed)
    ensures t0 <= t && AwakeSince(t, |t0|)
    ensures done.None? ==> Quiet(t) && Retryable(t, |t|)
    ensures done.Some? ==> Finished(t, done.value) && !done.value.TimedOut?
  {
    var granted: bool := *;
    if !granted { t := LogQuiet(t0, LeaseDenied); return t, Some(Threw); }
    var section;
    section, done := RecheckAndCall(observed);
    var released: bool := *;
    LockedSectionExtends(t0, section, observed, done, released);
    SectionIsOrderly(t0, section, observed, done, released);
    t := t0 + [LeaseGranted] + section + [LeaseReleased(released)];
    if !released { done := Some(Threw); }
  }

  /** Nothing happened yet that a caller could notice. */
  ghost predicate Quiet<L(!new)>(t: seq<Event<L>>) {
    SleepsUnlocked(t) && !Held(t) && NoCallback(t) && Orderly(t)
  }

  method LogQuiet<L(!new)>(t: seq<Event<L>>, e: Event<L>) returns (t': seq<Event<L>>)
    requires Quiet(t) && !e.LeaseGranted? && !e.CallbackRan? && InTurn(t + [e], |t|)
    ensures Quiet(t') && t' == t + [e]
  {
    OrderlyExtends(t, e);
    t' := Log(t, e);
  }

  /** What holds of the trace of a finished call. */
  ghost predicate Finished<L(!new)>(t: seq<Event<L>>, outcome: Outcome) {
    && SleepsUnlocked(t) && !Held(t) && Orderly(t)
    && (forall i | 0 <= i < |t| && t[i].CallbackRan? :: CallbackInPlace(t, i))
    && (outcome == Value <==> |t| >= 2 && t[|t| - 2].CallbackRan? && t[|t| - 2].ok && t[|t| - 1] == LeaseReleased(true))
    && (outcome == TimedOut ==>
          NoCallback(t) && (t == [] || t[|t| - 1].Slept? || t[|t| - 1].Sampled? || Retryable(t, |t|)))
    && (outcome == Threw <==> Blamed(t))
  }

  /** The last events show what went wrong. */
  ghost predicate Blamed<L(!new)>(t: seq<Event<L>>) {
    && t != []
    && var last := t[|t| - 1];
       || last.SampleFatal? || last.LeaseDenied? || last == LeaseReleased(false)
       || (&& last.LeaseReleased? && |t| >= 2
           && (t[|t| - 2].RecheckFatal? || (t[|t| - 2].CallbackRan? && !t[|t| - 2].ok)))
  }

  ghost predicate ShortSleeps<L(!new)>(t: seq<Event<L>>, poll: int) {
    forall i | 0 <= i < |t| && t[i].Slept? :: 1 <= t[i].ms <= poll
  }

  /** The events after the first `n` contain no sleep. */
  ghost predicate AwakeSince<L(!new)>(t: seq<Event<L>>, n: int) {
    forall i | n <= i < |t| && 0 <= i :: !t[i].Slept?
  }

  /** One sample and, while time remains, one try under the lease; `None` goes on to sleep. */
  method Attempt<L(==, 0, !new)>(t0: seq<Event<L>>, deadline: int, now0: int, faults: nat)
    returns (t: seq<Event<L>>, done: Option<Outcome>, now: int, left: nat)
    requires Quiet(t0) && (t0 == [] || t0[|t0| - 1].Slept?)
    ensures t0 < t && AwakeSince(t, |t0|)
    ensures done.None? ==> Quiet(t) && Retryable(t, |t|)
    ensures done.Some? ==> Finished(t, done.value) && (done.value.TimedOut? ==> now >= deadline)
    ensures (left == faults && now >= now0) || left < faults
  {
    now, left := now0, faults;
    var readable: bool := *;
    if readable {
      t, done, now, left := SampleAndTry(t0, deadline, now0, faults);
    } else {
      t, done := MissSample(t0);
    }
  }

  /** A readable sample; the lease is asked for only while time remains. */
  method SampleAndTry<L(==, 0, !new)>(t0: seq<Event<L>>, deadline: int, now0: int, faults: nat)
    returns (t: seq<Event<L>>, done: Option<Outcome>, now: int, left: nat)
    requires Quiet(t0) && (t0 == [] || t0[|t0| - 1].Slept?)
    ensures t0 < t && AwakeSince(t, |t0|)
    ensures done.None? ==> Quiet(t) && Retryable(t, |t|)
    ensures done.Some? ==> Finished(t, done.value) && (done.value.TimedOut? ==> now >= deadline)
    ensures (left == faults && now >= now0) || left < faults
  {
    var observed: L := *;
    var sampled := LogQuiet(t0, Sampled(observed));
    now, left := Clock.Read(now0, faults);
    if deadline - now <= 0 { return sampled, Some(TimedOut), now, left; }
    t, done := UnderLease(sampled, observed);
  }

  /** A sample that could not be read. */
  method MissSample<L(!new)>(t0: seq<Event<L>>) returns (t: seq<Event<L>>, done: Option<Outcome>)
    requires Quiet(t0) && (t0 == [] || t0[|t0| - 1].Slept?)
    ensures t0 < t && AwakeSince(t, |t0|)
    ensures done.None? ==> Quiet(t) && Retryable(t, |t|)
    ensures done.Some? ==> done.value.Threw? && Finished(t, done.value)
  {
    var retryable: bool := *;
    t := LogQuiet(t0, if retryable then SampleRetryable else SampleFatal);
    done := if retryable then None else Some(Threw);
  }

  /**
   * The retry loop. In every run the callback runs at most once, on a lifecycle that was
   * equal before and under the lease, with the lease held; the loop never sleeps holding the
   * lease and never ends holding it; it returns a value only if the callback did, throws exactly on
   * an event that says why, and times out only if the callback never ran and the last clock
   * reading `now` had reached the deadline. Nothing is skipped: every sample is followed by a try
   * under the lease and every try on an unchanged lifecycle by the callback, unless time ran out,
   * and it sleeps, no longer than the poll interval, only after a try that calls for another.
   */
  method WithActiveLease<L(==, 0, !new)>(start: int, timeoutMs: nat, pollMs: int, faults: nat)
    returns (t: seq<Event<L>>, outcome: Outcome, now: int)
    ensures Finished(t, outcome)
    ensures outcome.TimedOut? ==> now >= start + timeoutMs
    ensures ShortSleeps(t, Common.Max(1, pollMs))
  {
    t := [];
    var poll := Common.Max(1, pollMs);
    var deadline := start + timeoutMs;
    var left;
    now, left := Clock.Read(start, faults);
    while now < deadline
      invariant Quiet(t) && (t == [] || t[|t| - 1].Slept?) && ShortSleeps(t, poll)
      decreases left, deadline - now
    {
      var done;
      t, done, now, left := Attempt(t, deadline, now, left);
      if done.Some? { outcome := done.value; return; }
      now, left := Clock.Read(now, left);
      var remaining := deadline - now;
      if remaining <= 0 { break; }
      t := LogQuiet(t, Slept(Common.Min(poll, remaining)));
      now, left := Clock.Sleep(now, Common.Min(poll, remaining), left);
    }
    outcome := TimedOut;
  }
}

/** `launchNoWaitHostRuntime` in cli/commands/noWaitWorker.js. */
module HostLaunch {
  import opened Common
  import Clock

  datatype Selector = Selector(generation: nat, activation: nat)

  /** How giving back the apply lock ended; an error may or may not count as an inactive selector. */
  datatype Release = Fine | FailedInactive | FailedFatal

  datatype Event =
    | Attempting(s: Selector)        // the selector this attempt is based on
    | LoadInactive | LoadFatal
    | ApplyRefused(inactive: bool) | ApplyTaken
    | LockedRead(s: Selector) | LockedInactive | LockedFatal
    | ApplyReleased(how: Release)
    | Launched(ok: bool)
    | Slept

  datatype Outcome = Value | Threw | TimedOut

  predicate ApplyHeld(t: seq<Event>) {
    if t == [] then false
    else if t[|t| - 1].ApplyTaken? then true
    else if t[|t| - 1].ApplyReleased? then false
    else ApplyHeld(t[..|t| - 1])
  }

  /** The launch is the last act, outside the apply lock, right after a locked read of the attempt's selector. */
  ghost predicate LaunchInPlace(t: seq<Event>, i: int, launchGeneration: nat)
    requires 0 <= i < |t|
  {
    && i >= 4 && i == |t| - 1
    && t[i - 4].Attempting? && t[i - 4].s.generation == launchGeneration
    && t[i - 3] == ApplyTaken
    && t[i - 2] == LockedRead(t[i - 4].s)
    && t[i - 1] == ApplyReleased(Fine)
  }

  ghost predicate NoLaunch(t: seq<Event>) { forall i | 0 <= i < |t| :: !t[i].Launched? }

  ghost predicate Unlocked(t: seq<Event>) {
    && !ApplyHeld(t)
    && forall i | 0 <= i < |t| && (t[i].Slept? || t[i].Launched?) :: !ApplyHeld(t[..i])
  }

  predicate IsLockedRead(e: Event) { e.LockedRead? || e.LockedInactive? || e.LockedFatal? }

  /** The first `n` events call for another try: somewhere the selector was inactive. */
  predicate Retryable(t: seq<Event>, n: nat)
    requires n <= |t|
  {
    && n > 0
    && (|| t[n - 1].LoadInactive? || t[n - 1] == ApplyRefused(true) || t[n - 1] == ApplyReleased(FailedInactive)
        || (n >= 2 && t[n - 1] == ApplyReleased(Fine) && t[n - 2].LockedInactive?))
  }

  /** Nothing is skipped: what has to come right before each event. */
  ghost predicate InTurn(t: seq<Event>, i: int, launchGeneration: nat)
    requires 0 <= i < |t|
  {
    && (t[i].Attempting? ==> i == 0 || t[i - 1].Slept?)
    && (t[i].LoadInactive? || t[i].LoadFatal? ==> i > 0 && t[i - 1].Slept?)
    && (t[i].Slept? ==> Retryable(t, i))
    && (t[i].ApplyTaken? || t[i].ApplyRefused? ==>
          i > 0 && t[i - 1].Attempting? && t[i - 1].s.generation == launchGeneration)
    && (IsLockedRead(t[i]) ==> i > 0 && t[i - 1].ApplyTaken?)
    && (t[i].ApplyReleased? ==> i > 0 && IsLockedRead(t[i - 1]))
  }

  ghost predicate Orderly(t: seq<Event>, launchGeneration: nat) {
    forall i | 0 <= i < |t| :: InTurn(t, i, launchGeneration)
  }

  ghost predicate Quiet(t: seq<Event>, launchGeneration: nat) {
    NoLaunch(t) && Unlocked(t) && Orderly(t, launchGeneration)
  }

  ghost predicate Finished(t: seq<Event>, outcome: Outcome, launchGeneration: nat) {
    && Unlocked(t) && Orderly(t, launchGeneration)
    && (forall i | 0 <= i < |t| && t[i].Launched? :: LaunchInPlace(t, i, launchGeneration))
    && (outcome.Value? <==> t != [] && t[|t| - 1] == Launched(true))
    && (outcome.TimedOut? ==> NoLaunch(t) && (t == [] || t[|t| - 1].Slept? || Retryable(t, |t|)))
    && (outcome.Threw? <==> Blamed(t, launchGeneration))
  }

  /** The last events show what went wrong. */
  ghost predicate Blamed(t: seq<Event>, launchGeneration: nat) {
    && t != []
    && var last := t[|t| - 1];
       || last.LoadFatal? || last == ApplyRefused(false)
       || last == ApplyReleased(FailedFatal) || last == Launched(false)
       || (last.Attempting? && last.s.generation != launchGeneration)
       || (&& last == ApplyReleased(Fine) && |t| >= 4 && t[|t| - 4].Attempting?
           && (t[|t| - 2].LockedFatal? || (t[|t| - 2].LockedRead? && t[|t| - 2].s != t[|t| - 4].s)))
  }

  lemma UnlockedExtends(t: seq<Event>, e: Event)
    requires Unlocked(t) && !e.ApplyTaken?
    ensures Unlocked(t + [e])
  {
    var t' := t + [e];
    assert t'[..|t|] == t;
    forall i | 0 <= i < |t'| && (t'[i].Slept? || t'[i].Launched?) ensures !ApplyHeld(t'[..i]) {
      if i < |t| { assert t'[..i] == t[..i]; }
    }
  }

  lemma OrderlyExtends(t: seq<Event>, e: Event, launchGeneration: nat)
    requires Orderly(t, launchGeneration) && InTurn(t + [e], |t|, launchGeneration)
    ensures Orderly(t + [e], launchGeneration)
  {
    forall i | 0 <= i < |t + [e]| ensures InTurn(t + [e], i, launchGeneration) {
      if i < |t| { assert InTurn(t, i, launchGeneration); }
    }
  }

  /** A locked section in which nothing but one read happens. */
  lemma LockedSectionExtends(t: seq<Event>, e: Event, how: Release, launchGeneration: nat)
    requires Unlocked(t) && Orderly(t, launchGeneration) && IsLockedRead(e)
    requires t != [] && t[|t| - 1].Attempting? && t[|t| - 1].s.generation == launchGeneration
    ensures Unlocked(t + [ApplyTaken, e, ApplyReleased(how)])
    ensures Orderly(t + [ApplyTaken, e, ApplyReleased(how)], launchGeneration)
  {
    var t' := t + [ApplyTaken, e, ApplyReleased(how)];
    forall i | 0 <= i < |t'| && (t'[i].Slept? || t'[i].Launched?) ensures !ApplyHeld(t'[..i]) {
      assert t'[..i] == t[..i];
    }
    forall i | 0 <= i < |t'| ensures InTurn(t', i, launchGeneration) {
      if i < |t| { assert InTurn(t, i, launchGeneration); }
    }
  }

  method Log(t: seq<Event>, e: Event, launchGeneration: nat) returns (t': seq<Event>)
    requires Quiet(t, launchGeneration) && !e.ApplyTaken? && !e.Launched? && InTurn(t + [e], |t|, launchGeneration)
    ensures Quiet(t', launchGeneration) && t' == t + [e]
  {
    UnlockedExtends(t, e);
    OrderlyExtends(t, e, launchGeneration);
    t' := t + [e];
  }

  datatype Check = Matched | Again | Refused

  /** One locked re-read. The lock itself may be refused, or fail to be given back. */
  method LockedCheck(t0: seq<Event>, attempt: Selector) returns (t: seq<Event>, check: Check)
    requires Quiet(t0, attempt.generation) && t0 != [] && t0[|t0| - 1] == Attempting(attempt)
    ensures t0 <= t && Quiet(t, attempt.generation)
    ensures check.Matched? ==> t == t0 + [ApplyTaken, LockedRead(attempt), ApplyReleased(Fine)]
    ensures check.Again? <==> Retryable(t, |t|)
    ensures check.Refused? <==> Blamed(t, attempt.generation)
  {
    var granted: bool := *;
    var inactive: bool := *;
    if !granted {
      t := Log(t0, ApplyRefused(inactive), attempt.generation);
      return t, if inactive then Again else Refused;
    }
    var locked: Event := *;
    if !(locked.LockedRead? || locked.LockedInactive?) { locked := LockedFatal; }
    var how: Release := *;
    LockedSectionExtends(t0, locked, how, attempt.generation);
    t := t0 + [ApplyTaken, locked, ApplyReleased(how)];
    if how != Fine { return t, if how.FailedInactive? then Again else Refused; }
    check := if locked.LockedInactive? then Again else if locked == LockedRead(attempt) then Matched else Refused;
  }

  /** The locked re-read and, if it matches the attempt, the launch; `None` retries. */
  method LockAndLaunch(t0: seq<Event>, attempt: Selector) returns (t: seq<Event>, done: Option<Outcome>)
    requires Quiet(t0, attempt.generation) && t0 != [] && t0[|t0| - 1] == Attempting(attempt)
    ensures t0 <= t
    ensures done.None? ==> Quiet(t, attempt.generation) && Retryable(t, |t|)
    ensures done.Some? ==> Finished(t, done.value, attempt.generation) && !done.value.TimedOut?
  {
    var check;
    t, check := LockedCheck(t0, attempt);
    if check.Again? { return t, None; }
    if check.Refused? { return t, Some(Threw); }
    var ok: bool := *;
    UnlockedExtends(t, Launched(ok));
    OrderlyExtends(t, Launched(ok), attempt.generation);
    t := t + [Launched(ok)];
    done := Some(if ok then Value else Threw);
  }

  /** One pass of the loop body before its sleep. */
  method Attempt(t0: seq<Event>, pending: Option<Selector>, launchGeneration: nat)
    returns (t: seq<Event>, done: Option<Outcome>)
    requires Quiet(t0, launchGeneration) && (if t0 == [] then pending.Some? else t0[|t0| - 1].Slept?)
    ensures t0 < t && (pending.Some? ==> t[|t0|] == Attempting(pending.value))
    ensures done.None? ==> Quiet(t, launchGeneration) && Retryable(t, |t|)
    ensures done.Some? ==> Finished(t, done.value, launchGeneration) && !done.value.TimedOut?
  {
    var attempt := pending;
    t := t0;
    if attempt.None? {
      var loaded: Option<Selector> := *;
      var inactive: bool := *;
      if !loaded.Some? {
        t := Log(t, if inactive then LoadInactive else LoadFatal, launchGeneration);
        return t, if inactive then None else Some(Threw);
      }
      attempt := loaded;
    }
    t := Log(t, Attempting(attempt.value), launchGeneration);
    if attempt.value.generation != launchGeneration { return t, Some(Threw); }
    t, done := LockAndLaunch(t, attempt.value);
  }

  /**
   * In every run the host runtime is launched at most once, never while the apply lock is
   * held, only right after a locked read of the initial generation and the attempt's own
   * activation, and nothing follows a launch, so it is never replayed; it throws exactly on an event
   * that says why and times out only once the last clock reading `now` has reached the deadline.
   * Nothing is skipped: the first attempt is on the initial selector, every attempt of its generation
   * asks for the lock, every locked read that matches is followed by the launch, and it sleeps only
   * after an inactive selector.
   */
  method Launch(initial: Selector, start: int, timeoutMs: nat, pollMs: int, faults: nat)
    returns (t: seq<Event>, outcome: Outcome, now: int)
    ensures Finished(t, outcome, initial.generation)
    ensures t != [] ==> t[0] == Attempting(initial)
    ensures outcome.TimedOut? ==> now >= start + Common.Max(1000, timeoutMs)
  {
    t := [];
    var poll := Common.Max(1, pollMs);
    var deadline := start + Common.Max(1000, timeoutMs);
    var pending := Some(initial);
    var left;
    now, left := Clock.Read(start, faults);
    while now < deadline
      invariant Quiet(t, initial.generation)
      invariant if t == [] then pending == Some(initial) else t[|t| - 1].Slept? && t[0] == Attempting(initial)
      decreases left, deadline - now
    {
      var done;
      t, done := Attempt(t, pending, initial.generation);
      if done.Some? { outcome := done.value; return; }
      pending := None;
      now, left := Clock.Read(now, left);
      var remaining := deadline - now;
      if remaining <= 0 { break; }
      t := Log(t, Slept, initial.generation);
      now, left := Clock.Sleep(now, Common.Min(poll, remaining), left);
    }
    outcome := TimedOut;
  }
}

/** `waitForNoWaitRunsToSettle` and `acquireSettledWorkspaceMutationLease` in cli/commands/noWaitRunSettlement.js. */
module Settlement {
  import opened Common
  import Clock

  datatype Event =
    | Inspected(inFlight: nat) | InspectFailed
    | Acquired(lease: nat) | AcquireFailed
    | Released(lease: nat, ok: bool)
    | Slept(ms: int)

  datatype Failure = InFlight | InspectionThrew | AcquireThrew | ReleaseRefused

  /**
   * Each acquisition but a returned one is inspected under the lease and then released
   * exactly once; nothing else, in particular no sleep, happens in between.
   */
  ghost predicate LeaseBalanced(t: seq<Event>, i: int, returned: Option<nat>)
    requires 0 <= i < |t|
  {
    t[i].Acquired? ==>
      && i + 1 < |t| && (t[i + 1].Inspected? || t[i + 1].InspectFailed?)
      && (if i + 2 == |t| then returned == Some(t[i].lease) && t[i + 1] == Inspected(0)
          else t[i + 2].Released? && t[i + 2].lease == t[i].lease && t[i + 1] != Inspected(0))
  }

  /** Every release gives back the lease acquired two events before it. */
  ghost predicate ReleaseMatched(t: seq<Event>, i: int)
    requires 0 <= i < |t|
  {
    t[i].Released? ==> i >= 2 && t[i - 2].Acquired? && t[i - 2].lease == t[i].lease
  }

  predicate IsInspection(e: Event) { e.Inspected? || e.InspectFailed? }

  /** Event `i` was made under the lease. */
  predicate Leased(t: seq<Event>, i: int)
    requires 0 <= i < |t|
  {
    i > 0 && t[i - 1].Acquired?
  }

  /** Nothing is skipped: what has to come right before each event. */
  ghost predicate InTurn(t: seq<Event>, i: int)
    requires 0 <= i < |t|
  {
    && (IsInspection(t[i]) ==>
          || i == 0 || t[i - 1].Slept? || t[i - 1].Acquired?
          || (i >= 2 && t[i - 1].Released? && t[i - 1].ok && t[i - 2].Inspected?))
    && (t[i].Slept? ==> i > 0 && t[i - 1].Inspected? && t[i - 1].inFlight != 0 && !Leased(t, i - 1))
    && (t[i].Acquired? || t[i].AcquireFailed? ==> i > 0 && t[i - 1] == Inspected(0) && !Leased(t, i - 1))
  }

  ghost predicate Balanced(t: seq<Event>, returned: Option<nat>) {
    forall i | 0 <= i < |t| :: LeaseBalanced(t, i, returned) && ReleaseMatched(t, i) && InTurn(t, i)
  }

  /** The last event is an inspection without the lease that found no worker in flight. */
  predicate SettledLast(t: seq<Event>) { t != [] && t[|t| - 1] == Inspected(0) && !Leased(t, |t| - 1) }

  /** A wait may begin: at the start, or after a lease was given back for a worker in flight. */
  predicate MayWait(t: seq<Event>) {
    t == [] || (|t| >= 2 && t[|t| - 1].Released? && t[|t| - 1].ok && t[|t| - 2].Inspected?)
  }

  lemma FreeEventKeepsBalance(t: seq<Event>, e: Event)
    requires Balanced(t, None) && !e.Acquired? && !e.Released? && InTurn(t + [e], |t|)
    ensures Balanced(t + [e], None)
  {
    var t' := t + [e];
    forall i | 0 <= i < |t'| ensures LeaseBalanced(t', i, None) && ReleaseMatched(t', i) && InTurn(t', i) {
      if i < |t| { assert LeaseBalanced(t, i, None) && ReleaseMatched(t, i) && InTurn(t, i); }
    }
  }

  lemma LeaseSectionKeepsBalance(t: seq<Event>, lease: nat, seen: Event, ok: bool)
    requires Balanced(t, None) && IsInspection(seen) && SettledLast(t)
    ensures seen == Inspected(0) ==> Balanced(t + [Acquired(lease), seen], Some(lease))
    ensures seen != Inspected(0) ==> Balanced(t + [Acquired(lease), seen, Released(lease, ok)], None)
  {
    var t1 := t + [Acquired(lease), seen];
    var t2 := t + [Acquired(lease), seen, Released(lease, ok)];
    forall i | 0 <= i < |t|
        ensures LeaseBalanced(t, i, None) && ReleaseMatched(t, i) && InTurn(t, i) && t1[i] == t[i] && t2[i] == t[i] {
    }
    if seen == Inspected(0) {
      forall i | 0 <= i < |t1| ensures LeaseBalanced(t1, i, Some(lease)) && ReleaseMatched(t1, i) && InTurn(t1, i) {
        if i < |t| { assert LeaseBalanced(t, i, None) && ReleaseMatched(t, i) && InTurn(t, i); }
      }
    } else {
      forall i | 0 <= i < |t2| ensures LeaseBalanced(t2, i, None) && ReleaseMatched(t2, i) && InTurn(t2, i) {
        if i < |t| { assert LeaseBalanced(t, i, None) && ReleaseMatched(t, i) && InTurn(t, i); }
      }
    }
  }

  /** The last events show why the wait or the acquisition failed. */
  ghost predicate Blamed(t: seq<Event>, failure: Failure) {
    && t != []
    && var last := t[|t| - 1];
       match failure
       case InFlight => last.Inspected? && last.inFlight != 0
       case InspectionThrew => last.InspectFailed? || (last.Released? && |t| >= 2 && t[|t| - 2].InspectFailed?)
       case AcquireThrew => last.AcquireFailed?
       case ReleaseRefused => last.Released? && !last.ok
  }

  /** The wait without the lease. The deadline is looked at only after a non-empty inspection. */
  method WaitToSettle(t0: seq<Event>, deadline: int, pollMs: int, now0: int, faults: nat)
    returns (t: seq<Event>, failure: Option<Failure>, now: int, left: nat)
    requires Balanced(t0, None) && MayWait(t0) && pollMs >= 1
    ensures Balanced(t, None) && left <= faults
    ensures t0 < t && forall i | |t0| <= i < |t| :: !t[i].Acquired? && !t[i].Released?
    ensures failure.None? ==> SettledLast(t)
    ensures failure.Some? ==> failure.value == InFlight || failure.value == InspectionThrew
    ensures failure.Some? ==> Blamed(t, failure.value) && (failure.value.InFlight? ==> now >= deadline)
  {
    t, now, left, failure := t0, now0, faults, None;
    while true
      invariant Balanced(t, None) && left <= faults
      invariant t0 <= t && forall i | |t0| <= i < |t| :: !t[i].Acquired? && !t[i].Released?
      invariant MayWait(t) || (|t| > |t0| && t[|t| - 1].Slept?)
      decreases left, if deadline - now < 0 then 0 else deadline - now
    {
      var seen: Option<nat> := *;
      FreeEventKeepsBalance(t, if seen.Some? then Inspected(seen.value) else InspectFailed);
      t := t + [if seen.Some? then Inspected(seen.value) else InspectFailed];
      if !seen.Some? { return t, Some(InspectionThrew), now, left; }
      if seen.value == 0 { return; }
      now, left := Clock.Read(now, left);
      var remaining := deadline - now;
      if remaining <= 0 { return t, Some(InFlight), now, left; }
      FreeEventKeepsBalance(t, Slept(Common.Min(pollMs, remaining)));
      t := t + [Slept(Common.Min(pollMs, remaining))];
      now, left := Clock.Sleep(now, Common.Min(pollMs, remaining), left);
    }
  }

  /** The trace ends with the lease taken between two inspections that found nothing in flight. */
  predicate HeldAndSettled(t: seq<Event>, lease: nat) {
    |t| >= 3 && t[|t| - 3] == t[|t| - 1] == Inspected(0) && t[|t| - 2] == Acquired(lease)
  }

  /** One acquisition and the inspection under it; `None` waits again. */
  method TryLease(t0: seq<Event>, flaps: nat) returns (t: seq<Event>, done: Option<Result<nat, Failure>>)
    requires Balanced(t0, None) && SettledLast(t0)
    ensures t0 < t
    ensures done.None? ==> Balanced(t, None) && MayWait(t) && flaps > 0
    ensures done.Some? && done.value.Ok? ==>
              Balanced(t, Some(done.value.value)) && HeldAndSettled(t, done.value.value)
    ensures done.Some? && done.value.Err? ==>
              Balanced(t, None) && Blamed(t, done.value.error) && !done.value.error.InFlight?
  {
    var granted: Option<nat> := *;
    if !granted.Some? {
      FreeEventKeepsBalance(t0, AcquireFailed);
      return t0 + [AcquireFailed], Some(Err(AcquireThrew));
    }
    var seen: Option<nat> := *;
    if flaps == 0 && seen.Some? { seen := Some(0); }
    var under := if seen.Some? then Inspected(seen.value) else InspectFailed;
    var ok: bool := *;
    LeaseSectionKeepsBalance(t0, granted.value, under, ok);
    if under == Inspected(0) { return t0 + [Acquired(granted.value), under], Some(Ok(granted.value)); }
    t := t0 + [Acquired(granted.value), under, Released(granted.value, ok)];
    done := if !seen.Some? then Some(Err(InspectionThrew)) else if !ok then Some(Err(ReleaseRefused)) else None;
  }

  /**
   * A returned lease is held and its last inspection, made under it, found no worker able to
   * progress; every other acquisition is given back exactly once; no sleep falls inside an
   * acquisition; every failure has its reason in the last events, and a refusal for workers in
   * flight comes only once the last clock reading `now` has reached the deadline. Nothing is skipped: an
   * empty inspection is followed by an acquisition and that by an inspection. `flaps` bounds
   * how often a worker reappears between the two inspections; for every such number the loop ends.
   */
  method AcquireSettledLease(start: int, timeoutMs: nat, pollMs: int, flaps: nat, faults: nat)
    returns (t: seq<Event>, lease: Result<nat, Failure>, now: int)
    requires pollMs >= 1
    ensures lease.Ok? ==> Balanced(t, Some(lease.value)) && HeldAndSettled(t, lease.value)
    ensures lease.Err? ==> Balanced(t, None) && Blamed(t, lease.error)
    ensures lease == Err(InFlight) ==> now >= start + timeoutMs
  {
    t, now := [], start;
    var deadline := start + timeoutMs;
    var left, flapsLeft := faults, flaps;
    while true
      invariant Balanced(t, None) && MayWait(t)
      decreases flapsLeft
    {
      var failure;
      t, failure, now, left := WaitToSettle(t, deadline, pollMs, now, left);
      if failure.Some? { return t, Err(failure.value), now; }
      var done;
      t, done := TryLease(t, flapsLeft);
      if done.Some? { return t, done.value, now; }
      flapsLeft := flapsLeft - 1;
    }
  }
}
