/**
 * `superviseLogChild` in cli/commands/logChildSupervisor.js: the closure state as fields,
 * one method per callback. `kill` may raise `error` and `close` before it returns.
 */
module ChildSupervisor {
  datatype Signal = Term | Kill
  datatype Completion = Closed(terminated: bool) | Failed | CleanupFailed
  datatype Effect = Sent(signal: Signal) | Settled(how: Completion)

  /** Settling is the last effect, and SIGKILL only escalates an earlier SIGTERM. */
  ghost predicate EffectLegal(h: seq<Effect>, i: int)
    requires 0 <= i < |h|
  {
    && (h[i].Settled? ==> i == |h| - 1)
    && (h[i] == Sent(Kill) ==> Sent(Term) in h[..i] && Sent(Kill) !in h[..i])
    && (h[i] == Sent(Term) ==> Sent(Term) !in h[..i])
    && (h[i].Settled? && h[i].how == CleanupFailed ==> Sent(Kill) in h[..i])
    && (h[i].Settled? && h[i].how == Failed ==> Sent(Term) !in h[..i])
    && (h[i].Settled? && h[i].how.Closed? ==> (h[i].how.terminated <==> Sent(Term) in h[..i]))
  }

  ghost predicate Legal(h: seq<Effect>) {
    forall i | 0 <= i < |h| :: EffectLegal(h, i)
  }

  ghost predicate IsSettled(h: seq<Effect>) { h != [] && h[|h| - 1].Settled? }

  lemma LegalExtends(h: seq<Effect>, e: Effect)
    requires Legal(h) && !IsSettled(h)
    requires e == Sent(Term) ==> Sent(Term) !in h
    requires e == Sent(Kill) ==> Sent(Term) in h && Sent(Kill) !in h
    requires e == Settled(CleanupFailed) ==> Sent(Kill) in h
    requires e == Settled(Failed) ==> Sent(Term) !in h
    requires e.Settled? && e.how.Closed? ==> (e.how.terminated <==> Sent(Term) in h)
    ensures Legal(h + [e])
    ensures forall s :: Sent(s) in h + [e] <==> Sent(s) in h || e == Sent(s)
  {
    var h' := h + [e];
    assert h'[..|h|] == h;
    forall i | 0 <= i < |h'| ensures EffectLegal(h', i) {
      if i < |h| {
        assert EffectLegal(h, i) && h'[..i] == h[..i];
      }
    }
  }

  class Supervisor {
    var settled: bool
    var terminationReason: bool      // a reason has been recorded
    var termTimerLive: bool          // scheduled, neither fired nor cleared
    var killTimerLive: bool
    var abortListener: bool
    var childListeners: bool
    var history: seq<Effect>

    /** Holds at every point, also while `kill` is on the stack. */
    ghost predicate Consistent()
      reads this
    {
      && Legal(history)
      && (settled <==> IsSettled(history))
      && (settled ==> !termTimerLive && !killTimerLive && !abortListener && !childListeners)
      && (!settled ==> childListeners)
      && (Sent(Term) in history ==> terminationReason)
      && (killTimerLive ==> Sent(Kill) in history)
      && (Sent(Kill) in history ==> Sent(Term) in history)
      && (termTimerLive ==> Sent(Term) in history && Sent(Kill) !in history && !killTimerLive)
    }

    /** Holds between events: a terminating child always has exactly one live timer. */
    ghost predicate Valid()
      reads this
    {
      && Consistent()
      && (terminationReason <==> Sent(Term) in history)
      && (!settled && terminationReason ==> termTimerLive != killTimerLive)
    }

    method Settle(how: Completion)
      requires Consistent()
      requires !settled && how == CleanupFailed ==> Sent(Kill) in history
      requires !settled && how == Failed ==> Sent(Term) !in history
      requires !settled && how.Closed? ==> (how.terminated <==> Sent(Term) in history)
      modifies this
      ensures Consistent() && settled && terminationReason == old(terminationReason)
      ensures history == if old(settled) then old(history) else old(history) + [Settled(how)]
    {
      if settled { return; }
      LegalExtends(history, Settled(how));
      settled := true;
      termTimerLive, killTimerLive, abortListener, childListeners := false, false, false, false;
      history := history + [Settled(how)];
    }

    method OnError()
      requires Consistent() && (terminationReason <==> Sent(Term) in history)
      modifies this
      ensures Consistent() && terminationReason == old(terminationReason)
      ensures old(terminationReason) ==> history == old(history)
      ensures old(terminationReason) ==> termTimerLive == old(termTimerLive) && killTimerLive == old(killTimerLive)
      ensures !old(terminationReason) ==>
                settled && history == if old(settled) then old(history) else old(history) + [Settled(Failed)]
      ensures forall s :: Sent(s) in history <==> Sent(s) in old(history)
      ensures old(history) <= history
      ensures !settled ==> abortListener == old(abortListener)
    {
      if terminationReason { return; }
      Settle(Failed);
    }

    method OnClose()
      requires Consistent() && (terminationReason <==> Sent(Term) in history)
      modifies this
      ensures Consistent() && settled && terminationReason == old(terminationReason)
      ensures history == if old(settled) then old(history)
                         else old(history) + [Settled(Closed(old(terminationReason)))]
      ensures forall s :: Sent(s) in history <==> Sent(s) in old(history)
    {
      Settle(Closed(terminationReason));
    }

    /** Delivers a signal; the child may raise any events before `kill` returns. */
    method Send(signal: Signal)
      requires Consistent() && !settled && terminationReason
      requires signal == Term ==> Sent(Term) !in history
      requires signal == Kill ==> Sent(Term) in history && Sent(Kill) !in history && !termTimerLive
      modifies this
      ensures Consistent() && terminationReason && Sent(Term) in history
      ensures forall s :: Sent(s) in history <==> Sent(s) in old(history) || s == signal
      ensures old(history) <= history
      ensures !settled ==> termTimerLive == old(termTimerLive) && killTimerLive == old(killTimerLive)
      ensures !settled ==> abortListener == old(abortListener)
    {
      LegalExtends(history, Sent(signal));
      history := history + [Sent(signal)];
      var raised: int := *;
      while raised > 0
        invariant Consistent() && terminationReason && Sent(Term) in history
        invariant forall s :: Sent(s) in history <==> Sent(s) in old(history) || s == signal
        invariant old(history) <= history
        invariant !settled ==> termTimerLive == old(termTimerLive) && killTimerLive == old(killTimerLive)
        invariant !settled ==> abortListener == old(abortListener)
      {
        var close: bool := *;
        if close { OnClose(); } else { OnError(); }
        raised := raised - 1;
      }
    }

    method Terminate()
      requires Valid()
      modifies this
      ensures Valid() && old(history) <= history && (old(settled) ==> settled)
      ensures settled || terminationReason
      ensures old(killTimerLive) ==> settled || killTimerLive
      ensures !settled ==> abortListener == old(abortListener)
    {
      if settled || terminationReason { return; }
      terminationReason := true;
      Send(Term);
      if settled { return; }
      termTimerLive := true;
    }

    /** The first timer: escalates to SIGKILL and arms the second one, unless the child closed. */
    method FireTermTimer()
      requires Valid() && termTimerLive
      modifies this
      ensures Valid() && old(history) <= history
      ensures settled || killTimerLive
      ensures !settled ==> abortListener == old(abortListener)
    {
      termTimerLive := false;
      if settled { return; }
      Send(Kill);
      if settled { return; }
      killTimerLive := true;
    }

    /** The second timer always settles. */
    method FireKillTimer()
      requires Valid() && killTimerLive
      modifies this
      ensures Valid() && settled && history == old(history) + [Settled(CleanupFailed)]
    {
      killTimerLive := false;
      Settle(CleanupFailed);
    }

    constructor (hasSignal: bool, alreadyAborted: bool)
      ensures Valid()
      ensures hasSignal && alreadyAborted ==> settled || terminationReason
    {
      settled, terminationReason, termTimerLive, killTimerLive := false, false, false, false;
      abortListener, childListeners := false, true;
      history := [];
      new;
      if hasSignal {
        abortListener := true;
        if alreadyAborted { Terminate(); }
      }
    }
  }

  datatype Event = Abort | ErrorEvent | CloseEvent | TermTimer | KillTimer | TerminateCall

  /**
   * Any sequence of events, each delivered only while its listener or timer exists. The
   * effects stay legal, so the completion settles at most once and nothing follows it; a
   * settled supervisor holds no timer and no listener.
   */
  method Drive(s: Supervisor, events: seq<Event>)
    requires s.Valid()
    modifies s
    ensures s.Valid() && old(s.history) <= s.history
    ensures old(s.settled || s.terminationReason) ==> s.settled || s.terminationReason
    ensures old(s.settled) ==> s.settled
    ensures old(s.killTimerLive) ==> s.settled || s.killTimerLive
    ensures CloseEvent in events ==> s.settled
    ensures ErrorEvent in events || TerminateCall in events ==> s.settled || s.terminationReason
    ensures Abort in events && old(s.abortListener) ==> s.settled || s.terminationReason
  {
    for i := 0 to |events|
      invariant s.Valid() && old(s.history) <= s.history
      invariant old(s.settled || s.terminationReason) ==> s.settled || s.terminationReason
      invariant old(s.settled) ==> s.settled
      invariant old(s.killTimerLive) ==> s.settled || s.killTimerLive
      invariant CloseEvent in events[..i] ==> s.settled
      invariant ErrorEvent in events[..i] || TerminateCall in events[..i] ==> s.settled || s.terminationReason
      invariant old(s.abortListener) ==> s.settled || s.abortListener
      invariant Abort in events[..i] && old(s.abortListener) ==> s.settled || s.terminationReason
    {
      match events[i]
      case Abort => if s.abortListener { s.Terminate(); }
      case TerminateCall => s.Terminate();
      case ErrorEvent => if s.childListeners { s.OnError(); }
      case CloseEvent => if s.childListeners { s.OnClose(); }
      case TermTimer => if s.termTimerLive { s.FireTermTimer(); }
      case KillTimer => if s.killTimerLive { s.FireKillTimer(); }
    }
  }

  /** Once terminating, the child is settled by the second timer at the latest, whatever happens in between. */
  method SettlesBySecondTimer(s: Supervisor, between: seq<Event>, after: seq<Event>)
    requires s.Valid() && (s.settled || s.terminationReason)
    modifies s
    ensures s.Valid() && s.settled
  {
    Drive(s, between);
    if s.termTimerLive { s.FireTermTimer(); }
    Drive(s, after);
    if s.killTimerLive { s.FireKillTimer(); }
  }

  /** A legal history settles at most once and sends nothing after settling. */
  lemma NothingAfterSettling(h: seq<Effect>, i: int, j: int)
    requires Legal(h) && 0 <= i < j < |h|
    ensures !h[i].Settled?
    ensures h[i] == Sent(Kill) ==> !h[j].Sent?
  {
    assert EffectLegal(h, i) && EffectLegal(h, j);
    if h[i] == Sent(Kill) && h[j].Sent? {
      var k :| 0 <= k < |h[..i]| && h[..i][k] == Sent(Term);
      assert h[..j][i] == Sent(Kill) && h[..j][k] == Sent(Term);
      match h[j].signal case Term => case Kill =>
    }
  }
}
