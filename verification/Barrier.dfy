/** Barrier arguments of one worker: cli/commands/noWaitWorkerArgs.js. */
module Barrier {
  import opened Common
  import opened NoWaitProtocol

  const MAX_BARRIER_ENTRIES: int := 1024

  /** A file in the status directory, named by its producer and the run in its name. */
  datatype StatusPath = StatusPath(producer: nat, fileRun: RunId)

  datatype Relation = NoRelation | Blocking | ExplicitStatusWait | UnsupportedRelation

  /** An absent producer key is fine; one that is not the text of a key matches no file. */
  datatype ProducerKey = NoProducer | MistypedProducer | Producer(key: nat)

  /** One element of the JSON array; `None` fields are absent, mistyped or not canonical. */
  datatype RawEntry =
    | NotAnEntry
    | RawEntry(path: Option<StatusPath>, runId: Option<RunId>, wave: Option<int>,
               directDependency: Option<bool>, relation: Relation, producerKey: ProducerKey)

  datatype Entry = Entry(path: StatusPath, runId: RunId, wave: nat, direct: bool)

  /** Everything `exactNoWaitBarrierEntry` demands of one entry of a run. */
  predicate WellFormedEntry(raw: RawEntry, runId: RunId) {
    && raw.RawEntry?
    && raw.directDependency.Some?
    && raw.relation != UnsupportedRelation
    && (raw.relation != NoRelation ==> raw.directDependency.value)
    && raw.runId == Some(runId)
    && raw.path.Some?
    && (raw.producerKey.NoProducer? || raw.producerKey == Producer(raw.path.value.producer))
    && raw.wave.Some? && 0 <= raw.wave.value <= MAX_WAVE_INDEX
  }

  function ExactEntry(raw: RawEntry, runId: RunId): (e: Option<Entry>)
    ensures e.Some? <==> WellFormedEntry(raw, runId)
    ensures e.Some? ==> e.value.runId == runId && Some(e.value.path) == raw.path
                        && Some(e.value.wave) == raw.wave && Some(e.value.direct) == raw.directDependency
  {
    if !raw.RawEntry? || raw.directDependency.None? then None
    else if raw.relation == UnsupportedRelation then None
    else if raw.relation != NoRelation && !raw.directDependency.value then None
    else if raw.runId != Some(runId) then None
    else if raw.path.None? then None
    else if !raw.producerKey.NoProducer? && raw.producerKey != Producer(raw.path.value.producer) then None
    else if raw.wave.None? || !(0 <= raw.wave.value <= MAX_WAVE_INDEX) then None
    else Some(Entry(raw.path.value, runId, raw.wave.value, raw.directDependency.value))
  }

  /** What a worker may wait for: entries of its own run, of strictly earlier waves, each file once. */
  ghost predicate ValidBarrier(barrier: seq<Entry>, runId: RunId, ownerWave: int) {
    && |barrier| <= MAX_BARRIER_ENTRIES
    && (forall i | 0 <= i < |barrier| :: barrier[i].runId == runId && barrier[i].wave < ownerWave)
    && (forall i, j | 0 <= i < j < |barrier| :: barrier[i].path != barrier[j].path)
  }

  ghost predicate Acceptable(raw: seq<RawEntry>, runId: RunId, ownerWave: int) {
    && |raw| <= MAX_BARRIER_ENTRIES
    && (forall i | 0 <= i < |raw| :: WellFormedEntry(raw[i], runId) && raw[i].wave.value < ownerWave)
    && (forall i, j | 0 <= i < j < |raw| :: raw[i].path != raw[j].path)
  }

  /** The parser accepts exactly the acceptable arrays, and keeps every entry in order. */
  method ParseStatusBarrier(raw: seq<RawEntry>, runId: RunId, ownerWave: int) returns (barrier: Option<seq<Entry>>)
    ensures barrier.Some? <==> Acceptable(raw, runId, ownerWave)
    ensures barrier.Some? ==>
              && ValidBarrier(barrier.value, runId, ownerWave)
              && |barrier.value| == |raw|
              && forall i | 0 <= i < |raw| :: ExactEntry(raw[i], runId) == Some(barrier.value[i])
  {
    if |raw| > MAX_BARRIER_ENTRIES { return None; }
    var entries: seq<Entry> := [];
    var seen: set<StatusPath> := {};
    for index := 0 to |raw|
      invariant |entries| == index
      invariant forall i | 0 <= i < index ::
                  ExactEntry(raw[i], runId) == Some(entries[i]) && entries[i].wave < ownerWave
      invariant forall i | 0 <= i < index :: raw[i].RawEntry? && raw[i].path.Some? && raw[i].path.value in seen
      invariant forall p | p in seen :: exists i | 0 <= i < index :: raw[i].RawEntry? && raw[i].path == Some(p)
      invariant forall i, j | 0 <= i < j < index :: raw[i].path != raw[j].path
    {
      var entry := ExactEntry(raw[index], runId);
      if entry.None? { return None; }
      if entry.value.wave >= ownerWave { return None; }
      if entry.value.path in seen { return None; }
      seen := seen + {entry.value.path};
      entries := entries + [entry.value];
    }
    barrier := Some(entries);
  }
}
