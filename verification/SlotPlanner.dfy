/**
 * The late-outcome slots of the hardware-availability store: the planner of
 * cli/commands/noWaitAvailabilitySlots.js, and the evaluation it relies on
 * (cli/server/hardwareAvailabilityResolver.mjs).
 */
module SlotPlanner {
  import opened Common

  type RouteKey = nat

  function Get<V>(m: map<RouteKey, V>, k: RouteKey): Option<V> {
    if k in m then Some(m[k]) else None
  }

  lemma SameLookups<V>(m: map<RouteKey, V>, n: map<RouteKey, V>)
    requires forall k :: Get(m, k) == Get(n, k)
    ensures m == n
  {
    assert forall k :: (k in m <==> Get(m, k).Some?) && (k in n <==> Get(n, k).Some?);
    assert forall k | k in m :: Get(m, k) == Some(m[k]) && Get(n, k) == Some(n[k]);
  }

  /** The identity a slot or an entry belongs to. */
  datatype Tuple = Tuple(key: nat, instanceId: nat, enableGeneration: nat)

  datatype Slot = Slot(tuple: Tuple, runId: nat, runStart: int, wave: int, statusFile: nat, startupGrace: Option<int>)

  /** A denial as an administrator sees it; what a capture is denied is a function of it. */
  datatype Projection = Projection(tuple: Tuple, detail: nat, observedAt: int)

  datatype Source = Committed(token: nat)
      | NoWaitTerminal(runId: nat, runStart: int, wave: int, statusFile: nat, finishedAt: int)

  datatype Entry = Entry(projection: Projection, source: Source)

  datatype Store = Store(entries: map<RouteKey, Entry>, slots: map<RouteKey, Slot>)

  datatype Agent = Agent(instanceId: nat, enableGeneration: nat)
  datatype Route = Route(container: nat, targetLess: bool)
  datatype Generation = Generation(agents: map<nat, Agent>, routes: map<RouteKey, Route>)

  predicate TupleIsCurrent(t: Tuple, g: Generation) {
    t.key in g.agents && g.agents[t.key] == Agent(t.instanceId, t.enableGeneration)
  }

  predicate IdentityApplies(t: Tuple, k: RouteKey, g: Generation) {
    TupleIsCurrent(t, g) && k in g.routes && g.routes[k].container == t.key && g.routes[k].targetLess
  }

  predicate RouteNowTargeted(t: Tuple, k: RouteKey, g: Generation) {
    TupleIsCurrent(t, g) && k in g.routes && g.routes[k].container == t.key && !g.routes[k].targetLess
  }

  // -------- Evaluation of a store --------

  /** What the status file of a slot says; the resolver builds an active projection from the slot's own tuple. */
  datatype Evidence = Active(detail: nat, finishedAt: int) | Succeeded | FailedGeneric | NotTerminal

  /** Evidence is a function of the route and the slot; a file that is not there is not terminal. */
  type Evidences = map<(RouteKey, Slot), Evidence>

  function EvidenceFor(ev: Evidences, k: RouteKey, s: Slot): Evidence {
    if (k, s) in ev then ev[(k, s)] else NotTerminal
  }

  datatype SlotEvidence = SlotEvidence(runId: nat, evidence: Evidence)

  datatype Evaluation = Evaluation(slots: map<RouteKey, SlotEvidence>, projections: map<RouteKey, Projection>)

  function ApplicableSlots(store: Store, g: Generation, ev: Evidences): map<RouteKey, SlotEvidence> {
    map k | k in store.slots && IdentityApplies(store.slots[k].tuple, k, g) ::
      SlotEvidence(store.slots[k].runId, EvidenceFor(ev, k, store.slots[k]))
  }

  /** An entry counts unless an applicable slot of the same tuple decides instead. */
  predicate EntryCounts(store: Store, g: Generation, k: RouteKey) {
    && k in store.entries
    && IdentityApplies(store.entries[k].projection.tuple, k, g)
    && !(&& k in store.slots && IdentityApplies(store.slots[k].tuple, k, g)
         && store.slots[k].tuple == store.entries[k].projection.tuple)
  }

  predicate SlotDenies(store: Store, g: Generation, ev: Evidences, k: RouteKey) {
    k in store.slots && IdentityApplies(store.slots[k].tuple, k, g) && EvidenceFor(ev, k, store.slots[k]).Active?
  }

  function SlotProjection(s: Slot, e: Evidence): Projection
    requires e.Active?
  {
    Projection(s.tuple, e.detail, e.finishedAt)
  }

  /** What every capture is denied under this store: the effective revision is a digest of this map. */
  function Denials(store: Store, g: Generation, ev: Evidences): map<RouteKey, Projection> {
    map k | k in store.slots.Keys + store.entries.Keys && (EntryCounts(store, g, k) || SlotDenies(store, g, ev, k)) ::
      if EntryCounts(store, g, k) then store.entries[k].projection
      else SlotProjection(store.slots[k], EvidenceFor(ev, k, store.slots[k]))
  }

  function Evaluate(store: Store, g: Generation, ev: Evidences): Evaluation {
    Evaluation(ApplicableSlots(store, g, ev), Denials(store, g, ev))
  }

  // -------- What the plan means, route by route --------

  predicate Terminal(store: Store, eval: Evaluation, k: RouteKey) {
    && k in store.slots && k in eval.slots
    && eval.slots[k].runId == store.slots[k].runId
    && !eval.slots[k].evidence.NotTerminal?
  }

  predicate Latches(store: Store, eval: Evaluation, k: RouteKey) {
    Terminal(store, eval, k) && eval.slots[k].evidence.Active?
  }

  function Latched(s: Slot, p: Projection): Entry {
    Entry(p, NoWaitTerminal(s.runId, s.runStart, s.wave, s.statusFile, p.observedAt))
  }

  predicate SameTupleEntry(entries: map<RouteKey, Entry>, k: RouteKey, t: Tuple) {
    k in entries && entries[k].projection.tuple == t
  }

  /** Every slot that latches has a projection to latch. */
  ghost predicate Projected(store: Store, eval: Evaluation) {
    forall k | k in store.slots && Latches(store, eval, k) :: k in eval.projections
  }

  function EntryAfterResolve(store: Store, eval: Evaluation, k: RouteKey): Option<Entry> {
    if Latches(store, eval, k) && k in eval.projections then Some(Latched(store.slots[k], eval.projections[k]))
    else if Terminal(store, eval, k) && SameTupleEntry(store.entries, k, store.slots[k].tuple) then None
    else if k in store.entries then Some(store.entries[k])
    else None
  }

  /** The store after the terminal resolutions alone. */
  function Resolved(store: Store, eval: Evaluation): Store {
    Store(
      map k | k in store.entries.Keys + store.slots.Keys && EntryAfterResolve(store, eval, k).Some? ::
        EntryAfterResolve(store, eval, k).value,
      map k | k in store.slots && !Terminal(store, eval, k) :: store.slots[k])
  }

  datatype Spawned = Spawned(routeKey: RouteKey, slot: Slot)

  predicate Respawned(spawned: seq<Spawned>, k: RouteKey) { exists i | 0 <= i < |spawned| :: spawned[i].routeKey == k }

  predicate StillApplies(slots: map<RouteKey, Slot>, eval: Evaluation, k: RouteKey) {
    k in slots && k in eval.slots && eval.slots[k].runId == slots[k].runId
  }

  /** An entry goes when its slot's successor published a target, or when its tuple is stale. */
  predicate EntrySurvives(r: Store, g: Generation, eval: Evaluation, k: RouteKey) {
    && k in r.entries
    && !(&& k in r.slots && !StillApplies(r.slots, eval, k)
         && RouteNowTargeted(r.slots[k].tuple, k, g)
         && r.entries[k].projection.tuple == r.slots[k].tuple)
    && TupleIsCurrent(r.entries[k].projection.tuple, g)
  }

  function WithGrace(s: Slot, grace: int): Slot {
    if s.startupGrace.None? then s.(startupGrace := Some(grace)) else s
  }

  /** The last listed slot of a route wins. */
  function SpawnedSlots(spawned: seq<Spawned>, grace: int): map<RouteKey, Slot> {
    if spawned == [] then map[]
    else SpawnedSlots(spawned[..|spawned| - 1], grace)
           [spawned[|spawned| - 1].routeKey := WithGrace(spawned[|spawned| - 1].slot, grace)]
  }

  function Survivors(r: Store, eval: Evaluation, spawned: seq<Spawned>): map<RouteKey, Slot> {
    map k | k in r.slots && StillApplies(r.slots, eval, k) && !Respawned(spawned, k) :: r.slots[k]
  }

  function Staged(r: Store, g: Generation, eval: Evaluation, spawned: seq<Spawned>, grace: int): Store {
    Store(
      map k | k in r.entries && EntrySurvives(r, g, eval, k) :: r.entries[k],
      Survivors(r, eval, spawned) + SpawnedSlots(spawned, grace))
  }

  // -------- The in-place loops --------

  function SlotAfterResolve(store: Store, eval: Evaluation, k: RouteKey): Option<Slot> {
    if Terminal(store, eval, k) then None else Get(store.slots, k)
  }

  lemma ResolvedLookups(store: Store, eval: Evaluation, k: RouteKey)
    ensures Get(Resolved(store, eval).entries, k) == EntryAfterResolve(store, eval, k)
    ensures Get(Resolved(store, eval).slots, k) == SlotAfterResolve(store, eval, k)
  {
  }

  /** One terminal slot: latch it, or drop it together with the entry of its own tuple. */
  method ResolveSlot(entries0: map<RouteKey, Entry>, slots0: map<RouteKey, Slot>, store: Store, eval: Evaluation,
      k: RouteKey)
    returns (ok: bool, entries: map<RouteKey, Entry>, slots: map<RouteKey, Slot>)
    requires k in store.slots && Get(entries0, k) == Get(store.entries, k) && Get(slots0, k) == Get(store.slots, k)
    ensures ok <==> (Latches(store, eval, k) ==> k in eval.projections)
    ensures ok ==>
        Get(entries, k) == EntryAfterResolve(store, eval, k) && Get(slots, k) == SlotAfterResolve(store, eval, k)
    ensures ok ==> forall j | j != k :: Get(entries, j) == Get(entries0, j) && Get(slots, j) == Get(slots0, j)
  {
    ok, entries, slots := true, entries0, slots0;
    if Terminal(store, eval, k) {
      slots := slots - {k};
      if eval.slots[k].evidence.Active? {
        if k !in eval.projections { ok := false; return; }
        entries := entries[k := Latched(store.slots[k], eval.projections[k])];
      } else if SameTupleEntry(entries, k, store.slots[k].tuple) {
        entries := entries - {k};
      }
    }
  }

  /** Pass 1, in any order of the slots. */
  method ResolvePass(store: Store, eval: Evaluation) returns (r: Option<Store>)
    ensures r.Some? <==> Projected(store, eval)
    ensures r.Some? ==> r.value == Resolved(store, eval)
  {
    var entries := store.entries;
    var slots := store.slots;
    var todo := store.slots.Keys;
    while todo != {}
      invariant todo <= store.slots.Keys
      invariant forall k | k in store.slots && k !in todo && Latches(store, eval, k) :: k in eval.projections
      invariant forall k :: Get(slots, k) == if k in todo then Get(store.slots, k) else SlotAfterResolve(store, eval, k)
      invariant forall k ::
          Get(entries, k) == if k in todo then Get(store.entries, k) else EntryAfterResolve(store, eval, k)
      decreases todo
    {
      var k :| k in todo;
      todo := todo - {k};
      var ok;
      ok, entries, slots := ResolveSlot(entries, slots, store, eval, k);
      if !ok { return None; }
    }
    r := Some(Store(entries, slots));
    forall k ensures Get(entries, k) == Get(Resolved(store, eval).entries, k)
        && Get(slots, k) == Get(Resolved(store, eval).slots, k) {
      ResolvedLookups(store, eval, k);
    }
    SameLookups(entries, Resolved(store, eval).entries);
    SameLookups(slots, Resolved(store, eval).slots);
  }

  function SlotAfterRetire(r: Store, eval: Evaluation, spawned: seq<Spawned>, k: RouteKey): Option<Slot> {
    if StillApplies(r.slots, eval, k) && !Respawned(spawned, k) then Get(r.slots, k) else None
  }

  /** The entry that a published target superseded goes with its slot. */
  function EntryAfterRetire(r: Store, g: Generation, eval: Evaluation, k: RouteKey): Option<Entry> {
    if && k in r.slots && !StillApplies(r.slots, eval, k)
       && RouteNowTargeted(r.slots[k].tuple, k, g) && SameTupleEntry(r.entries, k, r.slots[k].tuple) then None
    else Get(r.entries, k)
  }

  /** Pass 2, first loop: retire slots that no longer apply or whose route is spawned again. */
  method RetireSlots(r: Store, g: Generation, eval: Evaluation, spawned: seq<Spawned>) returns (m: Store)
    ensures forall k :: Get(m.slots, k) == SlotAfterRetire(r, eval, spawned, k)
    ensures forall k :: Get(m.entries, k) == EntryAfterRetire(r, g, eval, k)
  {
    var entries := r.entries;
    var slots := r.slots;
    var todo := r.slots.Keys;
    while todo != {}
      invariant todo <= r.slots.Keys
      invariant forall k :: Get(slots, k) == if k in todo then Get(r.slots, k) else SlotAfterRetire(r, eval, spawned, k)
      invariant forall k :: Get(entries, k) == if k in todo then Get(r.entries, k) else EntryAfterRetire(r, g, eval, k)
      decreases todo
    {
      var k :| k in todo;
      assert Get(slots, k) == Get(r.slots, k) && Get(entries, k) == Get(r.entries, k);
      todo := todo - {k};
      if !StillApplies(slots, eval, k) {
        slots := slots - {k};
        if RouteNowTargeted(r.slots[k].tuple, k, g) && SameTupleEntry(entries, k, r.slots[k].tuple) {
          entries := entries - {k};
        }
      } else if Respawned(spawned, k) {
        slots := slots - {k};
      }
    }
    m := Store(entries, slots);
  }

  /** Pass 2, second loop. */
  method DropStaleEntries(before: map<RouteKey, Entry>, g: Generation) returns (entries: map<RouteKey, Entry>)
    ensures forall k :: Get(entries, k) ==
              if k in before && TupleIsCurrent(before[k].projection.tuple, g) then Some(before[k]) else None
  {
    entries := before;
    var todo := entries.Keys;
    while todo != {}
      invariant todo <= before.Keys
      invariant forall k :: Get(entries, k) ==
                  if k in before
                      && (k in todo || TupleIsCurrent(before[k].projection.tuple, g)) then Some(before[k]) else None
      decreases todo
    {
      var k :| k in todo;
      assert Get(entries, k) == Some(before[k]);
      todo := todo - {k};
      if !TupleIsCurrent(entries[k].projection.tuple, g) { entries := entries - {k}; }
    }
  }

  /** Pass 2, last loop. */
  method AddSpawned(before: map<RouteKey, Slot>, spawned: seq<Spawned>, grace: int) returns (slots: map<RouteKey, Slot>)
    ensures slots == before + SpawnedSlots(spawned, grace)
  {
    slots := before;
    for i := 0 to |spawned|
      invariant slots == before + SpawnedSlots(spawned[..i], grace)
    {
      assert spawned[..i + 1][..i] == spawned[..i];
      slots := slots[spawned[i].routeKey := WithGrace(spawned[i].slot, grace)];
    }
    assert spawned[..|spawned|] == spawned;
  }

  method StagePass(r: Store, g: Generation, eval: Evaluation, spawned: seq<Spawned>, grace: int) returns (m: Store)
    ensures m == Staged(r, g, eval, spawned, grace)
  {
    var retired := RetireSlots(r, g, eval, spawned);
    var entries := DropStaleEntries(retired.entries, g);
    var slots := AddSpawned(retired.slots, spawned, grace);
    forall k ensures Get(retired.slots, k) == Get(Survivors(r, eval, spawned), k) {}
    SameLookups(retired.slots, Survivors(r, eval, spawned));
    forall k ensures Get(entries, k) == Get(Staged(r, g, eval, spawned, grace).entries, k) {
      assert Get(retired.entries, k) == EntryAfterRetire(r, g, eval, k);
    }
    SameLookups(entries, Staged(r, g, eval, spawned, grace).entries);
    m := Store(entries, slots);
  }

  datatype Mode = Resolve | Staging

  /**
   * The planner. Whatever order the loops visit routes in, the result is the pointwise plan;
   * `None` is the exception on an active slot without a projection.
   */
  method Plan(mode: Mode, store: Store, g: Generation, eval: Evaluation, spawned: seq<Spawned>, grace: int)
    returns (plan: Option<(Store, Store)>)
    ensures plan.Some? <==> Projected(store, eval)
    ensures plan.Some? ==>
              && plan.value.0 == Resolved(store, eval)
              && plan.value.1 == (if mode == Resolve then Resolved(store, eval)
                                  else Staged(Resolved(store, eval), g, eval, spawned, grace))
  {
    var resolved := ResolvePass(store, eval);
    if resolved.None? { return None; }
    var final := resolved.value;
    if mode == Staging { final := StagePass(resolved.value, g, eval, spawned, grace); }
    plan := Some((resolved.value, final));
  }

  // -------- What planning guarantees --------

  /** At most one identity applies to a route. */
  lemma OneIdentityPerRoute(t: Tuple, u: Tuple, k: RouteKey, g: Generation)
    requires IdentityApplies(t, k, g) && IdentityApplies(u, k, g)
    ensures t == u
  {
  }

  function DenialAt(store: Store, g: Generation, ev: Evidences, k: RouteKey): Option<Projection> {
    if EntryCounts(store, g, k) then Some(store.entries[k].projection)
    else if SlotDenies(store, g, ev, k) then Some(SlotProjection(store.slots[k], EvidenceFor(ev, k, store.slots[k])))
    else None
  }

  lemma DenialLookup(store: Store, g: Generation, ev: Evidences, k: RouteKey)
    ensures Get(Denials(store, g, ev), k) == DenialAt(store, g, ev, k)
  {
  }

  /** Planning on the resolver's own evaluation never lacks a projection, so it never throws. */
  lemma EvaluationIsProjected(store: Store, g: Generation, ev: Evidences)
    ensures Projected(store, Evaluate(store, g, ev))
  {
    forall k | k in store.slots && Latches(store, Evaluate(store, g, ev), k) ensures k in Denials(store, g, ev) {
      DenialLookup(store, g, ev, k);
    }
  }

  lemma ResolveKeepsDenialAt(store: Store, g: Generation, ev: Evidences, k: RouteKey)
    ensures DenialAt(Resolved(store, Evaluate(store, g, ev)), g, ev, k) == DenialAt(store, g, ev, k)
  {
    var eval := Evaluate(store, g, ev);
    ResolvedLookups(store, eval, k);
    DenialLookup(store, g, ev, k);
    if Terminal(store, eval, k) {
      var t := store.slots[k].tuple;
      if k in store.entries && IdentityApplies(store.entries[k].projection.tuple, k, g) {
        OneIdentityPerRoute(t, store.entries[k].projection.tuple, k, g);
      }
    }
  }

  /**
   * The resolve invariant: turning terminal slots into entries or nothing never changes what
   * any capture is denied, for any store, generation and evidence. So the check that aborts
   * a plan whose effective revision differs cannot fire on unchanged evidence.
   */
  lemma ResolveKeepsDenials(store: Store, g: Generation, ev: Evidences)
    ensures Denials(Resolved(store, Evaluate(store, g, ev)), g, ev) == Denials(store, g, ev)
  {
    var r := Resolved(store, Evaluate(store, g, ev));
    forall k ensures Get(Denials(r, g, ev), k) == Get(Denials(store, g, ev), k) {
      DenialLookup(r, g, ev, k);
      DenialLookup(store, g, ev, k);
      ResolveKeepsDenialAt(store, g, ev, k);
    }
    SameLookups(Denials(r, g, ev), Denials(store, g, ev));
  }

  /**
   * What resolving does to one route: nothing without terminal evidence; an active outcome becomes an entry with the
   * slot's run and the outcome's own detail and finish; any other outcome removes the slot and the entry of
   * its identity, and no other entry.
   */
  lemma ResolveAtRoute(store: Store, g: Generation, ev: Evidences, k: RouteKey)
    ensures var r := Resolved(store, Evaluate(store, g, ev));
            if !(k in store.slots && IdentityApplies(store.slots[k].tuple, k, g))
               || EvidenceFor(ev, k, store.slots[k]).NotTerminal? then
              Get(r.entries, k) == Get(store.entries, k) && Get(r.slots, k) == Get(store.slots, k)
            else
              var slot, e := store.slots[k], EvidenceFor(ev, k, store.slots[k]);
              && k !in r.slots
              && (e.Active? ==>
                    Get(r.entries, k) == Some(Entry(
                      Projection(slot.tuple, e.detail, e.finishedAt),
                      NoWaitTerminal(slot.runId, slot.runStart, slot.wave, slot.statusFile, e.finishedAt))))
              && (!e.Active? ==>
                    Get(r.entries, k) ==
                      if SameTupleEntry(store.entries, k, slot.tuple) then None else Get(store.entries, k))
  {
    var eval := Evaluate(store, g, ev);
    ResolvedLookups(store, eval, k);
    DenialLookup(store, g, ev, k);
    if k in store.slots && IdentityApplies(store.slots[k].tuple, k, g) && k in store.entries
       && IdentityApplies(store.entries[k].projection.tuple, k, g) {
      OneIdentityPerRoute(store.slots[k].tuple, store.entries[k].projection.tuple, k, g);
    }
  }

  /** Who is denied: an applicable active slot denies, and without an applicable slot an applicable entry does. */
  lemma DenialMeaning(store: Store, g: Generation, ev: Evidences, k: RouteKey)
    ensures var slotApplies := k in store.slots && IdentityApplies(store.slots[k].tuple, k, g);
            var entryApplies := k in store.entries && IdentityApplies(store.entries[k].projection.tuple, k, g);
            && (k in Denials(store, g, ev) <==>
                  if slotApplies then EvidenceFor(ev, k, store.slots[k]).Active? else entryApplies)
            && (k in Denials(store, g, ev) ==>
                  Denials(store, g, ev)[k] ==
                    if slotApplies then
                      Projection(store.slots[k].tuple, EvidenceFor(ev, k, store.slots[k]).detail,
                                 EvidenceFor(ev, k, store.slots[k]).finishedAt)
                    else store.entries[k].projection)
  {
    DenialLookup(store, g, ev, k);
    if k in store.slots && IdentityApplies(store.slots[k].tuple, k, g) && k in store.entries
       && IdentityApplies(store.entries[k].projection.tuple, k, g) {
      OneIdentityPerRoute(store.slots[k].tuple, store.entries[k].projection.tuple, k, g);
    }
  }

  /** Planning a resolved store again, with the same evidence for the slots it still has, changes nothing. */
  lemma ResolveIsStable(store: Store, eval: Evaluation, again: Evaluation)
    requires forall k | k in Resolved(store, eval).slots :: Get(again.slots, k) == Get(eval.slots, k)
    ensures Resolved(Resolved(store, eval), again) == Resolved(store, eval)
  {
    var r := Resolved(store, eval);
    forall k ensures Get(Resolved(r, again).entries, k) == Get(r.entries, k)
        && Get(Resolved(r, again).slots, k) == Get(r.slots, k) {
      ResolvedLookups(r, again, k);
      ResolvedLookups(store, eval, k);
      if k in r.slots { assert Get(again.slots, k) == Get(eval.slots, k); }
    }
    SameLookups(Resolved(r, again).entries, r.entries);
    SameLookups(Resolved(r, again).slots, r.slots);
  }

  /** `i` is the last spawned worker of route `k`. */
  ghost predicate LastOf(spawned: seq<Spawned>, k: RouteKey, i: int) {
    0 <= i < |spawned| && spawned[i].routeKey == k && forall j | i < j < |spawned| :: spawned[j].routeKey != k
  }

  lemma {:induction false} SpawnedKeys(spawned: seq<Spawned>, grace: int, k: RouteKey)
    ensures k in SpawnedSlots(spawned, grace) <==> Respawned(spawned, k)
    ensures k in SpawnedSlots(spawned, grace) ==>
              exists i :: LastOf(spawned, k, i) && SpawnedSlots(spawned, grace)[k] == WithGrace(spawned[i].slot, grace)
    decreases |spawned|
  {
    if spawned != [] {
      var n := |spawned| - 1;
      var init := spawned[..n];
      SpawnedKeys(init, grace, k);
      if spawned[n].routeKey == k {
        assert LastOf(spawned, k, n);
      } else if k in SpawnedSlots(init, grace) {
        var i :| LastOf(init, k, i) && SpawnedSlots(init, grace)[k] == WithGrace(init[i].slot, grace);
        assert spawned[i] == init[i] && LastOf(spawned, k, i);
      }
      assert Respawned(spawned, k) <==> Respawned(init, k) || spawned[n].routeKey == k by {
        if Respawned(init, k) {
          var i :| 0 <= i < |init| && init[i].routeKey == k;
          assert spawned[i].routeKey == k;
        }
        if Respawned(spawned, k) && spawned[n].routeKey != k {
          var i :| 0 <= i < |spawned| && spawned[i].routeKey == k;
          assert init[i].routeKey == k;
        }
      }
    }
  }

  /** A remaining slot that no longer applies, whose route now has a target, takes the entry of its identity along. */
  predicate SupersededByTarget(r: Store, g: Generation, eval: Evaluation, k: RouteKey) {
    && k in r.slots && k in r.entries && r.entries[k].projection.tuple == r.slots[k].tuple
    && !(k in eval.slots && eval.slots[k].runId == r.slots[k].runId)
    && k in g.routes && !g.routes[k].targetLess && g.routes[k].container == r.slots[k].tuple.key
    && TupleIsCurrent(r.slots[k].tuple, g)
  }

  /**
   * Conservation under staging. A route has a slot afterwards exactly when it is spawned or
   * it had an applicable, non-terminal one and is not spawned again; a spawned route has the
   * slot listed last for it, any other route keeps its own; every remaining entry is current.
   */
  lemma StagingConserves(store: Store, g: Generation, eval: Evaluation, spawned: seq<Spawned>, grace: int, k: RouteKey)
    ensures var m := Staged(Resolved(store, eval), g, eval, spawned, grace);
            && (k in m.slots <==>
                  || Respawned(spawned, k)
                  || (StillApplies(store.slots, eval, k) && eval.slots[k].evidence.NotTerminal?))
            && (k in m.slots && !Respawned(spawned, k) ==> m.slots[k] == store.slots[k])
            && (Respawned(spawned, k) ==>
                  exists i :: LastOf(spawned, k, i) && m.slots[k] == WithGrace(spawned[i].slot, grace))
            && (k in m.entries <==>
                  && k in Resolved(store, eval).entries
                  && TupleIsCurrent(Resolved(store, eval).entries[k].projection.tuple, g)
                  && !SupersededByTarget(Resolved(store, eval), g, eval, k))
            && (k in m.entries ==> m.entries[k] == Resolved(store, eval).entries[k])
  {
    var r := Resolved(store, eval);
    ResolvedLookups(store, eval, k);
    SpawnedKeys(spawned, grace, k);
    var m := Staged(r, g, eval, spawned, grace);
    assert k in SpawnedSlots(spawned, grace) ==> m.slots[k] == SpawnedSlots(spawned, grace)[k];
  }

  /**
   * Spawning route `k` again with slot `s` lifts its denial: an applicable slot must not be active
   * already, and a slot that does not apply must not uncover an entry that does.
   */
  predicate RespawnLifts(r: Store, g: Generation, ev: Evidences, k: RouteKey, s: Slot) {
    if IdentityApplies(s.tuple, k, g) then !EvidenceFor(ev, k, s).Active?
    else !(k in r.entries && IdentityApplies(r.entries[k].projection.tuple, k, g))
  }

  lemma StagingDenialAt(r: Store, g: Generation, ev: Evidences, eval: Evaluation, spawned: seq<Spawned>, grace: int,
      k: RouteKey)
    requires k in r.slots ==> Get(eval.slots, k) == Get(ApplicableSlots(r, g, ev), k)
    ensures var m := Staged(r, g, eval, spawned, grace);
            if Respawned(spawned, k) then
              && k in SpawnedSlots(spawned, grace)
              && (DenialAt(m, g, ev, k).None? <==> RespawnLifts(r, g, ev, k, SpawnedSlots(spawned, grace)[k]))
            else DenialAt(m, g, ev, k) == DenialAt(r, g, ev, k)
  {
    SpawnedKeys(spawned, grace, k);
    var m := Staged(r, g, eval, spawned, grace);
    if Respawned(spawned, k) {
      assert m.slots[k] == SpawnedSlots(spawned, grace)[k];
      if k in m.entries && IdentityApplies(m.entries[k].projection.tuple, k, g)
          && IdentityApplies(m.slots[k].tuple, k, g) {
        OneIdentityPerRoute(m.entries[k].projection.tuple, m.slots[k].tuple, k, g);
      }
    }
  }

  /** What one route is denied before and after staging. */
  lemma StagingDenialFrom(store: Store, g: Generation, ev: Evidences, spawned: seq<Spawned>, grace: int, k: RouteKey)
    ensures var eval := Evaluate(store, g, ev);
            var r := Resolved(store, eval);
            var after := Get(Denials(Staged(r, g, eval, spawned, grace), g, ev), k);
            if k in SpawnedSlots(spawned, grace) then
              after.None? <==> RespawnLifts(r, g, ev, k, SpawnedSlots(spawned, grace)[k])
            else after == Get(Denials(store, g, ev), k)
  {
    var eval := Evaluate(store, g, ev);
    var r := Resolved(store, eval);
    DenialLookup(Staged(r, g, eval, spawned, grace), g, ev, k);
    DenialLookup(store, g, ev, k);
    ResolveKeepsDenialAt(store, g, ev, k);
    ResolvedLookups(store, eval, k);
    SpawnedKeys(spawned, grace, k);
    StagingDenialAt(r, g, ev, eval, spawned, grace, k);
  }

  /**
   * For every store, generation, evidence and list of runs: staging never changes the denial of a
   * route it does not spawn, and it lifts the denials of exactly the spawned routes if and only if
   * each spawned slot lifts its own.
   */
  lemma StagingLiftsOnlySpawnedDenials(store: Store, g: Generation, ev: Evidences, spawned: seq<Spawned>, grace: int)
    ensures var eval := Evaluate(store, g, ev);
            var r := Resolved(store, eval);
            var after := Denials(Staged(r, g, eval, spawned, grace), g, ev);
            var slots := SpawnedSlots(spawned, grace);
            && (forall k | k !in slots :: Get(after, k) == Get(Denials(store, g, ev), k))
            && (after == Denials(store, g, ev) - slots.Keys <==>
                forall k | k in slots :: RespawnLifts(r, g, ev, k, slots[k]))
  {
    var eval := Evaluate(store, g, ev);
    var r := Resolved(store, eval);
    var after := Denials(Staged(r, g, eval, spawned, grace), g, ev);
    var slots := SpawnedSlots(spawned, grace);
    var expected := Denials(store, g, ev) - slots.Keys;
    forall k ensures if k in slots then Get(after, k).None? <==> RespawnLifts(r, g, ev, k, slots[k])
                     else Get(after, k) == Get(expected, k) == Get(Denials(store, g, ev), k)
    {
      StagingDenialFrom(store, g, ev, spawned, grace, k);
    }
    if forall k | k in slots :: RespawnLifts(r, g, ev, k, slots[k]) {
      forall k ensures Get(after, k) == Get(expected, k) {
        if k in slots { assert Get(after, k).None?; }
      }
      SameLookups(after, expected);
    } else {
      var k :| k in slots && !RespawnLifts(r, g, ev, k, slots[k]);
      assert Get(expected, k).None? && Get(after, k).Some?;
    }
  }

  /** A new run has no active outcome yet, and a route without a target that it is spawned for is its own. */
  ghost predicate FreshlySpawned(spawned: seq<Spawned>, grace: int, g: Generation, ev: Evidences) {
    forall k | k in SpawnedSlots(spawned, grace) ::
      && (k in g.routes && g.routes[k].targetLess ==> IdentityApplies(SpawnedSlots(spawned, grace)[k].tuple, k, g))
      && !EvidenceFor(ev, k, SpawnedSlots(spawned, grace)[k]).Active?
  }

  /** So a start, which stages fresh runs for routes with and without a target, lifts exactly their denials. */
  lemma FreshRunsLiftTheirDenials(store: Store, g: Generation, ev: Evidences, spawned: seq<Spawned>, grace: int)
    requires FreshlySpawned(spawned, grace, g, ev)
    ensures var eval := Evaluate(store, g, ev);
            Denials(Staged(Resolved(store, eval), g, eval, spawned, grace), g, ev)
            == Denials(store, g, ev) - SpawnedSlots(spawned, grace).Keys
  {
    StagingLiftsOnlySpawnedDenials(store, g, ev, spawned, grace);
  }
}
