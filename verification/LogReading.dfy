/** What "the last N lines" of some bytes are, independently of any scan. */
module Lines {
  import Common

  newtype byte = x: int | 0 <= x < 256

  const NEWLINE: byte := 0x0a

  /** The length of the first line, its newline included. */
  function FirstLineLength(d: seq<byte>): (n: nat)
    ensures n <= |d| && (d != [] ==> n > 0)
    ensures forall i | 0 <= i < n - 1 :: d[i] != NEWLINE
    ensures n < |d| ==> n > 0 && d[n - 1] == NEWLINE
  {
    if d == [] then 0 else if d[0] == NEWLINE then 1 else 1 + FirstLineLength(d[1..])
  }

  /** The lines of `d`; a newline ends its line, so a final newline starts no further one. */
  function LinesOf(d: seq<byte>): seq<seq<byte>>
    decreases |d|
  {
    if d == [] then [] else
    var n := FirstLineLength(d);
    [d[..n]] + LinesOf(d[n..])
  }

  function Join(lines: seq<seq<byte>>): seq<byte> {
    if lines == [] then [] else lines[0] + Join(lines[1..])
  }

  function LastLines(d: seq<byte>, n: nat): seq<byte> {
    var lines := LinesOf(d);
    Join(lines[if n >= |lines| then 0 else |lines| - n..])
  }

  // -------- The backward scan, position by position --------

  /** A newline that starts another line. */
  predicate Boundary(d: seq<byte>, i: nat)
    requires i < |d|
  {
    d[i] == NEWLINE && i != |d| - 1
  }

  /** Where the suffix starts, having scanned down to `p` with `n` boundaries still to find. */
  function CutBack(d: seq<byte>, p: nat, n: int): (start: nat)
    requires p <= |d|
    ensures start <= p
    decreases p
  {
    if p == 0 then 0
    else if !Boundary(d, p - 1) then CutBack(d, p - 1, n)
    else if n <= 1 then p
    else CutBack(d, p - 1, n - 1)
  }

  function Boundaries(d: seq<byte>, p: nat): nat
    requires p <= |d|
    decreases p
  {
    if p == 0 then 0 else Boundaries(d, p - 1) + if Boundary(d, p - 1) then 1 else 0
  }

  lemma {:induction false} JoinLines(d: seq<byte>)
    ensures Join(LinesOf(d)) == d
    decreases |d|
  {
    if d != [] {
      var n := FirstLineLength(d);
      JoinLines(d[n..]);
      assert d == d[..n] + d[n..];
    }
  }

  /** Scanning below a line that is followed by more lines. */
  lemma {:induction false} CutBackShift(d: seq<byte>, f: nat, p: nat, n: int)
    requires 0 < f < |d| && f == FirstLineLength(d) && p <= |d| - f
    ensures Boundaries(d, f + p) == Boundaries(d[f..], p) + 1
    ensures CutBack(d, f + p, n) ==
            if Boundaries(d[f..], p) >= Common.Max(n, 1) then f + CutBack(d[f..], p, n)
            else if Boundaries(d[f..], p) == Common.Max(n, 1) - 1 then f else 0
    decreases p
  {
    if p > 0 {
      assert Boundary(d, f + p - 1) == Boundary(d[f..], p - 1);
      CutBackShift(d, f, p - 1, n);
      CutBackShift(d, f, p - 1, n - 1);
    } else {
      NoBoundaryBelow(d, f - 1, n);
      NoBoundaryBelow(d, f - 1, n - 1);
      assert Boundary(d, f - 1);
    }
  }

  lemma {:induction false} NoBoundaryBelow(d: seq<byte>, p: nat, n: int)
    requires p <= |d| && forall i | 0 <= i < p :: !Boundary(d, i)
    ensures CutBack(d, p, n) == 0 && Boundaries(d, p) == 0
    decreases p
  {
    if p > 0 { NoBoundaryBelow(d, p - 1, n); }
  }

  lemma {:induction false} LineCount(d: seq<byte>)
    requires d != []
    ensures |LinesOf(d)| == Boundaries(d, |d|) + 1
    decreases |d|
  {
    var f := FirstLineLength(d);
    if f == |d| {
      NoBoundaryBelow(d, |d|, 0);
    } else {
      LineCount(d[f..]);
      CutBackShift(d, f, |d| - f, 0);
    }
  }

  lemma {:induction false} TailOfCons<T>(x: T, rest: seq<T>, m: nat)
    requires m <= |rest|
    ensures ([x] + rest)[|rest| + 1 - m..] == rest[|rest| - m..]
  {
  }

  /** Dropping a first line does not change the last lines, as long as enough lines remain. */
  lemma {:induction false} LastLinesShift(d: seq<byte>, f: nat, m: nat)
    requires d != [] && f == FirstLineLength(d)
    ensures |LinesOf(d)| == |LinesOf(d[f..])| + 1
    ensures m <= |LinesOf(d[f..])| ==> LastLines(d, m) == LastLines(d[f..], m)
  {
    var rest := LinesOf(d[f..]);
    assert LinesOf(d) == [d[..f]] + rest;
    if m <= |rest| { TailOfCons(d[..f], rest, m); }
  }

  lemma {:induction false} AllLines(d: seq<byte>, m: nat)
    requires m >= |LinesOf(d)|
    ensures LastLines(d, m) == d
  {
    JoinLines(d);
  }

  lemma {:induction false} CutBackOfOneLine(d: seq<byte>, n: int)
    requires d != [] && FirstLineLength(d) == |d|
    ensures CutBack(d, |d|, n) == 0 && |LinesOf(d)| == 1
  {
    NoBoundaryBelow(d, |d|, n);
    assert d[|d|..] == [];
  }

  /** Where the cut of several lines falls, in terms of the cut below the first line. */
  lemma {:induction false} CutBackOfMoreLines(d: seq<byte>, f: nat, n: int)
    requires 0 < f < |d| && f == FirstLineLength(d)
    ensures var below := |LinesOf(d[f..])|;
            CutBack(d, |d|, n) ==
            if Common.Max(n, 1) < below then f + CutBack(d[f..], |d[f..]|, n)
            else if Common.Max(n, 1) == below then f else 0
  {
    LineCount(d[f..]);
    CutBackShift(d, f, |d| - f, n);
  }

  /** The suffix the scan cuts is exactly the last `n` lines. */
  lemma {:induction false} CutBackIsLastLines(d: seq<byte>, n: int)
    requires d != []
    ensures d[CutBack(d, |d|, n)..] == LastLines(d, Common.Max(n, 1))
    decreases |d|
  {
    var f := FirstLineLength(d);
    var m := Common.Max(n, 1);
    if f == |d| {
      CutBackOfOneLine(d, n);
      AllLines(d, m);
    } else {
      CutBackIsLastLines(d[f..], n);
      CutBackOfMoreLines(d, f, n);
      LastLinesShift(d, f, m);
      TailOfTail(d, f, n);
      if m == |LinesOf(d[f..])| { AllLines(d[f..], m); }
      if m >= |LinesOf(d)| { AllLines(d, m); }
    }
  }

  lemma {:induction false} TailOfTail(d: seq<byte>, f: nat, n: int)
    requires f <= |d|
    ensures var c := CutBack(d[f..], |d[f..]|, n); d[f + c..] == d[f..][c..]
  {
  }
}

/**
 * The backward scan and the follow loop of cli/commands/logUtils.js on one open descriptor.
 * Before every stat and every read the file may have grown by arbitrary bytes or been
 * replaced outright; reads may be short.
 */
module LogReading {
  import opened Common
  import opened Lines

  class LogFile {
    var bytes: seq<byte>
    ghost var shrank: bool    // the content was once changed other than by appending
    ghost var refused: bool   // a read once returned no bytes
    ghost var stats: nat      // how often the size was asked for

    twostate predicate OnlyGrew()
      reads this
    {
      && (old(shrank) ==> shrank)
      && (old(refused) ==> refused)
      && (!shrank ==> old(bytes) <= bytes)
    }

    method Elsewhere()
      modifies this
      ensures OnlyGrew() && refused == old(refused) && stats == old(stats)
    {
      var content: seq<byte> := *;
      var replaced: bool := *;
      if replaced {
        bytes := content;
        shrank := true;
      } else {
        bytes := bytes + content;
      }
    }

    method Stat() returns (size: nat)
      modifies this
      ensures OnlyGrew() && size == |bytes| && refused == old(refused) && stats == old(stats) + 1
    {
      Elsewhere();
      stats := stats + 1;
      size := |bytes|;
    }

    /** One `readSync`: any number of the available bytes, or none. */
    method Read(buffer: array<byte>, offset: nat, length: nat, position: nat) returns (count: nat)
      requires offset + length <= buffer.Length
      modifies this, buffer
      ensures OnlyGrew() && stats == old(stats)
      ensures count <= length && (count > 0 ==> position + count <= |bytes|)
      ensures count == 0 ==> refused || length == 0
      ensures forall k | offset <= k < offset + count :: buffer[k] == bytes[position + k - offset]
      ensures forall k | 0 <= k < buffer.Length && !(offset <= k < offset + count) :: buffer[k] == old(buffer[k])
    {
      Elsewhere();
      var available := if position < |bytes| then |bytes| - position else 0;
      count :| 0 <= count <= length && count <= available;
      if count == 0 { refused := true; }
      forall k | 0 <= k < count { buffer[offset + k] := bytes[position + k]; }
    }
  }

  /** `readExactLogBytes`: short reads are continued until the whole range is copied. */
  method ReadExact(file: LogFile, buffer: array<byte>, offset: nat, length: nat, position: nat) returns (ok: bool)
    requires offset + length <= buffer.Length
    modifies file, buffer
    ensures file.OnlyGrew() && file.stats == old(file.stats)
    ensures !ok ==> file.refused
    ensures ok && !file.shrank ==> length == 0 || position + length <= |file.bytes|
    ensures ok && !file.shrank ==>
        forall k | offset <= k < offset + length :: buffer[k] == file.bytes[position + k - offset]
    ensures forall k | 0 <= k < buffer.Length && !(offset <= k < offset + length) :: buffer[k] == old(buffer[k])
  {
    var copied := 0;
    while copied < length
      invariant copied <= length
      invariant file.OnlyGrew() && file.stats == old(file.stats)
      invariant !file.shrank ==> copied == 0 || position + copied <= |file.bytes|
      invariant !file.shrank ==>
          forall k | offset <= k < offset + copied :: buffer[k] == file.bytes[position + k - offset]
      invariant forall k | 0 <= k < buffer.Length && !(offset <= k < offset + length) :: buffer[k] == old(buffer[k])
    {
      var count := file.Read(buffer, offset + copied, length - copied, position + copied);
      if count == 0 { return false; }
      copied := copied + count;
    }
    ok := true;
  }

  datatype ScanError = Changed | OverLimit

  /** The scan of one chunk, from its last byte down, while boundaries are missing. */
  method ScanChunk(scratch: array<byte>, length: nat, position: nat, size: nat, lineCount: int, found: nat,
                   ghost known: bool, ghost d: seq<byte>)
    returns (newlines: nat, start: Option<nat>)
    requires length <= scratch.Length && position + length <= size
    requires known ==> |d| == size && forall k | 0 <= k < length :: scratch[k] == d[position + k]
    requires found == 0 || found < lineCount
    ensures start.None? ==> newlines == 0 || newlines < lineCount
    ensures start.Some? ==> start.value <= size
    ensures known && start.None? ==>
              CutBack(d, position + length, lineCount - found) == CutBack(d, position, lineCount - newlines)
    ensures known && start.Some? ==> start.value == CutBack(d, position + length, lineCount - found)
  {
    newlines, start := found, None;
    var index := length;
    while index > 0
      invariant 0 <= index <= length
      invariant newlines == 0 || newlines < lineCount
      invariant known ==>
          CutBack(d, position + length, lineCount - found) == CutBack(d, position + index, lineCount - newlines)
    {
      index := index - 1;
      assert known ==> scratch[index] == d[position + index];
      if scratch[index] == NEWLINE && position + index != size - 1 {
        newlines := newlines + 1;
        if newlines >= lineCount {
          start := Some(position + index + 1);
          return;
        }
      }
    }
  }

  /** The whole backward search for the start of the suffix, with its early abort. */
  method FindStart(file: LogFile, size: nat, lineCount: int, byteLimit: int, chunkBytes: nat)
    returns (r: Result<nat, ScanError>)
    requires size > 0 && chunkBytes > 0
    modifies file
    ensures file.OnlyGrew() && file.stats == old(file.stats)
    ensures r.Ok? ==> r.value <= size
    ensures r == Err(Changed) ==> file.refused
    ensures !file.shrank && r != Err(Changed) ==> size <= |file.bytes|
    ensures !file.shrank && r.Ok? ==> r.value == CutBack(file.bytes[..size], size, lineCount)
    ensures !file.shrank && r == Err(OverLimit) ==> size - CutBack(file.bytes[..size], size, lineCount) > byteLimit
  {
    var scratch := new byte[chunkBytes];
    var position := size;
    var newlines: nat := 0;
    while position > 0
      invariant 0 <= position <= size && file.OnlyGrew() && file.stats == old(file.stats)
      invariant (newlines == 0 || newlines < lineCount) && (position == size ==> newlines == 0)
      invariant position < size && !file.shrank ==> size <= |file.bytes|
      invariant position < size && !file.shrank ==>
                  CutBack(file.bytes[..size], size, lineCount) == CutBack(file.bytes[..size], position,
                      lineCount - newlines)
    {
      var length := Min(chunkBytes, position);
      ghost var before := file.bytes;
      position := position - length;
      var ok := ReadExact(file, scratch, 0, length, position);
      if !ok { return Err(Changed); }
      ghost var d := if size <= |file.bytes| then file.bytes[..size] else [];
      assert !file.shrank && position + length < size ==> d == before[..size];
      var start;
      newlines, start := ScanChunk(scratch, length, position, size, lineCount, newlines, !file.shrank, d);
      if start.Some? { return Ok(start.value); }
      if size - position > byteLimit { return Err(OverLimit); }
    }
    r := Ok(0);
  }

  /** The second pass: copying the suffix chunk by chunk. */
  method CopySuffix(file: LogFile, start: nat, length: nat, chunkBytes: nat) returns (r: Result<seq<byte>, ScanError>)
    requires chunkBytes > 0
    modifies file
    ensures file.OnlyGrew() && file.stats == old(file.stats)
    ensures r.Err? ==> r.error == Changed && file.refused
    ensures r.Ok? ==> |r.value| == length
    ensures r.Ok? && !file.shrank && start + length <= |old(file.bytes)| ==>
        r.value == file.bytes[start..start + length]
  {
    var suffix := new byte[length];
    var copied := 0;
    while copied < length
      invariant 0 <= copied <= length && file.OnlyGrew() && file.stats == old(file.stats)
      invariant !file.shrank ==> copied == 0 || start + copied <= |file.bytes|
      invariant !file.shrank ==> forall k | 0 <= k < copied :: suffix[k] == file.bytes[start + k]
    {
      var piece := Min(chunkBytes, length - copied);
      var ok := ReadExact(file, suffix, copied, piece, start + copied);
      if !ok { return Err(Changed); }
      copied := copied + piece;
    }
    r := Ok(suffix[..]);
  }

  /**
   * `readLastLinesFromDescriptor`. On a file that only grows, for every chunk size and every
   * pattern of short reads, the result is exactly the last lines of the pinned prefix, and
   * the limit error is raised exactly when those lines are longer than the limit; the early
   * abort is never wrong. A line count below one acts as one.
   */
  method ReadLastLines(file: LogFile, lineCount: int, byteLimit: int, endOffset: Option<int>, chunkBytes: nat)
    returns (r: Result<seq<byte>, ScanError>, size: int)
    requires chunkBytes > 0
    modifies file
    ensures file.OnlyGrew() && file.stats == old(file.stats) + if endOffset.None? then 1 else 0
    ensures endOffset.Some? ==> size == endOffset.value
    ensures endOffset.None? && !file.shrank ==> |old(file.bytes)| <= size <= |file.bytes|
    ensures size <= 0 ==> r == Ok([])
    ensures r == Err(Changed) ==> file.refused
    ensures !file.shrank && size > 0 && r != Err(Changed) ==>
              && size <= |file.bytes|
              && var last := LastLines(file.bytes[..size], Max(lineCount, 1));
                 r == if |last| > byteLimit then Err(OverLimit) else Ok(last)
  {
    if endOffset.Some? {
      size := endOffset.value;
    } else {
      size := file.Stat();
    }
    if size <= 0 { return Ok([]), size; }
    var start := FindStart(file, size, lineCount, byteLimit, chunkBytes);
    if start == Err(Changed) { return Err(Changed), size; }
    if !file.shrank { CutBackIsLastLines(file.bytes[..size], lineCount); }
    if start.Err? {
      assert start.error.OverLimit?;
      return Err(OverLimit), size;
    }
    if size - start.value > byteLimit { return Err(OverLimit), size; }
    ghost var scanned := file.bytes;
    r := CopySuffix(file, start.value, size - start.value, chunkBytes);
    if !file.shrank && r.Ok? {
      assert file.bytes[..size] == scanned[..size];
      assert file.bytes[start.value..size] == file.bytes[..size][start.value..];
    }
  }

  datatype WriteResult = Delivered | NotDelivered | Rejected

  /** The output stream and the caller's abort signal. `written` is every byte handed over. */
  class Sink {
    var written: seq<byte>
    var aborted: bool

    /** `writeWithBackpressure`: an abort or error may come before the chunk is handed over or after. */
    method Write(chunk: seq<byte>) returns (r: WriteResult)
      modifies this
      ensures old(aborted) ==> aborted
      ensures r.Delivered? ==> written == old(written) + chunk
      ensures written == old(written) || written == old(written) + chunk
      ensures r.NotDelivered? ==> aborted
    {
      Signal();
      if aborted { return NotDelivered; }
      var throws: bool := *;
      if throws { return Rejected; }
      written := written + chunk;
      var drains: bool := *;
      if drains { return Delivered; }
      Signal();
      r := if aborted then NotDelivered else Rejected;
    }

    method Signal()
      modifies this`aborted
      ensures old(aborted) ==> aborted
    {
      var abort: bool := *;
      aborted := aborted || abort;
    }
  }

  datatype FollowEnd =
    | ScanFailed(error: ScanError)
    | Interrupted          // a write was aborted or rejected
    | Aborted              // the signal was seen between writes
    | Stopped              // onIdle asked to stop
    | StillFollowing       // the observed number of polls is over

  lemma SliceExtends(was: seq<byte>, b: seq<byte>, start: nat, finish: nat, more: nat)
    requires was <= b && start <= finish <= |was| && finish + more <= |b|
    ensures b[start..finish] == was[start..finish]
    ensures was[start..finish] + b[finish..finish + more] == b[start..finish + more]
  {
  }

  /** Of a file that only grew, exactly the bytes from `start` to `upTo` followed `base` into the sink. */
  ghost predicate Emitted(file: LogFile, sink: Sink, base: seq<byte>, start: nat, upTo: nat)
    reads file, sink
  {
    !file.shrank ==> start <= upTo <= |file.bytes| && sink.written == base + file.bytes[start..upTo]
  }

  lemma EmittedExtends(base: seq<byte>, written: seq<byte>, was: seq<byte>, b: seq<byte>, start: nat, upTo: nat,
      more: nat)
    requires was <= b && start <= upTo <= |was| && upTo + more <= |b| && written == base + was[start..upTo]
    ensures written == base + b[start..upTo]
    ensures written + b[upTo..upTo + more] == base + b[start..upTo + more]
  {
    SliceExtends(was, b, start, upTo, more);
  }

  /** One read at the follow position and its hand-over. */
  method Relay(file: LogFile, sink: Sink, scratch: array<byte>, length: nat, position: nat, ghost base: seq<byte>,
      ghost start: nat)
    returns (count: nat, finish: nat, delivered: bool)
    requires 0 < length <= scratch.Length && Emitted(file, sink, base, start, position)
    modifies file, sink, scratch
    ensures file.OnlyGrew() && file.stats == old(file.stats) && (old(sink.aborted) ==> sink.aborted)
    ensures count <= length && (count == 0 ==> file.refused && delivered && finish == position)
    ensures finish == position || finish == position + count
    ensures delivered ==> finish == position + count
    ensures Emitted(file, sink, base, start, finish)
  {
    ghost var was := file.bytes;
    count := file.Read(scratch, 0, length, position);
    if !file.shrank {
      EmittedExtends(base, sink.written, was, file.bytes, start, position, count);
      assert scratch[..count] == file.bytes[position..position + count];
    }
    if count == 0 { return 0, position, true; }
    var handed := |sink.written|;
    var r := sink.Write(scratch[..count]);
    delivered := r.Delivered?;
    finish := if |sink.written| > handed then position + count else position;
  }

  /** The inner loop: chunks from `position` up to the size that was observed. */
  method Drain(file: LogFile, sink: Sink, scratch: array<byte>, size: nat, position0: nat, ghost base: seq<byte>,
      ghost start: nat)
    returns (position: nat, finish: nat, interrupted: bool)
    requires scratch.Length > 0 && Emitted(file, sink, base, start, position0)
    modifies file, sink, scratch
    ensures file.OnlyGrew() && file.stats == old(file.stats) && (old(sink.aborted) ==> sink.aborted)
    ensures Emitted(file, sink, base, start, finish)
    ensures position0 <= position <= finish <= position + scratch.Length
    ensures !interrupted ==> finish == position
    ensures !interrupted && !sink.aborted ==> position >= size || file.refused
  {
    position, interrupted := position0, false;
    while position < size && !sink.aborted
      invariant file.OnlyGrew() && file.stats == old(file.stats) && (old(sink.aborted) ==> sink.aborted)
      invariant position0 <= position && Emitted(file, sink, base, start, position)
      decreases size - position
    {
      var count, delivered;
      count, finish, delivered := Relay(file, sink, scratch, Min(scratch.Length, size - position), position, base,
          start);
      if !delivered { return position, finish, true; }
      if count == 0 { break; }
      position := position + count;
    }
    finish := position;
  }

  /** The initial suffix ends at the first observed size; `interrupted` if its write was. */
  method EmitInitial(file: LogFile, sink: Sink, initialLines: int, byteLimit: int, chunkBytes: nat)
    returns (error: Option<ScanError>, start: nat, boundary: nat, finish: nat, interrupted: bool)
    requires chunkBytes > 0
    modifies file, sink
    ensures file.OnlyGrew() && file.stats == old(file.stats) + 1
    ensures error.Some? ==> sink.written == old(sink.written)
    ensures error.None? ==> Emitted(file, sink, old(sink.written), start, finish)
    ensures error.None? ==> Anchored(file, start, boundary, initialLines)
    ensures error.None? ==> finish == boundary || (interrupted && finish == start)
    ensures !file.shrank ==> |old(file.bytes)| <= boundary
  {
    boundary := file.Stat();
    start, finish, interrupted, error := 0, 0, false, None;
    var initial, size := ReadLastLines(file, initialLines, byteLimit, Some(boundary), chunkBytes);
    if initial.Err? { error := Some(initial.error); return; }
    start := boundary - Min(|initial.value|, boundary);
    finish := boundary;
    if !file.shrank { InitialSuffix(file.bytes, boundary, initialLines, initial.value); }
    if initial.value != [] {
      var handed := |sink.written|;
      var r := sink.Write(initial.value);
      interrupted := !r.Delivered?;
      if |sink.written| == handed { finish := start; }
    }
  }

  /** The slice starts where the last `lines` lines of the first `boundary` bytes start. */
  ghost predicate Anchored(file: LogFile, start: nat, boundary: nat, lines: int)
    reads file
  {
    !file.shrank ==>
      && start <= boundary <= |file.bytes|
      && file.bytes[start..boundary] == LastLines(file.bytes[..boundary], Max(lines, 1))
  }

  /** One stat and the delivery of everything up to it. */
  method PollOnce(file: LogFile, sink: Sink, scratch: array<byte>, position0: nat,
                  ghost base: seq<byte>, ghost start: nat, ghost boundary: nat, ghost lines: int)
    returns (position: nat, finish: nat, seen: nat, interrupted: bool)
    requires scratch.Length > 0
    requires Emitted(file, sink, base, start, position0) && Anchored(file, start, boundary, lines)
    modifies file, sink, scratch
    ensures file.OnlyGrew() && Emitted(file, sink, base, start, finish) && Anchored(file, start, boundary, lines)
    ensures file.stats == old(file.stats) + 1
    ensures position <= finish <= position + scratch.Length && (!interrupted ==> finish == position)
    ensures !file.shrank ==> |old(file.bytes)| <= seen <= |file.bytes|
    ensures !interrupted && !sink.aborted ==> position >= seen || file.refused
  {
    ghost var was, mid := file.bytes, file.bytes;
    seen := file.Stat();
    mid := file.bytes;
    if !file.shrank { PrefixKept(was, mid, boundary, start, position0); }
    position, finish, interrupted :=
      Drain(file, sink, scratch, seen, if seen < position0 then 0 else position0, base, start);
    if !file.shrank { PrefixKept(mid, file.bytes, boundary, start, start); }
  }

  /**
   * `followDescriptor`, observed for any number of polls. On a file that only grows, under
   * any interleaving of appends, short reads and aborts, the bytes handed over are one
   * contiguous slice: they begin where the last `initialLines` lines of the first observed
   * size begin and end at `finish`, which is the follow position, or lies at most one chunk
   * past it (or at the slice's own start) when the last write was interrupted. A stop
   * requested at an idle point loses nothing that was there at the last stat. Unless it is
   * stopped, aborted or interrupted, each of the polls asks for the size once.
   */
  method Follow(file: LogFile, sink: Sink, initialLines: int, byteLimit: int, chunkBytes: nat, polls: nat)
    returns (end: FollowEnd, start: nat, boundary: nat, position: nat, finish: nat, seen: nat)
    requires chunkBytes > 0
    modifies file, sink
    ensures file.OnlyGrew()
    ensures end.ScanFailed? ==> sink.written == old(sink.written)
    ensures !end.ScanFailed? ==> Emitted(file, sink, old(sink.written), start, finish)
    ensures !end.ScanFailed? ==> Anchored(file, start, boundary, initialLines)
    ensures !end.Interrupted? && !end.ScanFailed? ==> finish == position
    ensures end.Interrupted? ==> finish == start || position <= finish <= position + chunkBytes
    ensures !file.shrank ==> |old(file.bytes)| <= boundary
    ensures !end.ScanFailed? && !file.shrank ==> boundary <= seen <= |file.bytes|
    ensures end.Stopped? || end.StillFollowing? ==> position >= seen || file.refused
    ensures end.StillFollowing? ==> file.stats == old(file.stats) + 1 + polls
    ensures end.Stopped? ==> file.stats > old(file.stats) + 1
    ensures end.Aborted? ==> sink.aborted
  {
    var error, interrupted;
    error, start, boundary, finish, interrupted := EmitInitial(file, sink, initialLines, byteLimit, chunkBytes);
    position, seen := boundary, boundary;
    if error.Some? { end := ScanFailed(error.value); return; }
    if interrupted { end := Interrupted; return; }
    var left := polls;
    var scratch := new byte[chunkBytes];
    while left > 0 && !sink.aborted
      invariant file.OnlyGrew() && fresh(scratch)
      invariant 0 <= left <= polls && file.stats == old(file.stats) + 1 + polls - left
      invariant Emitted(file, sink, old(sink.written), start, position) && finish == position
      invariant Anchored(file, start, boundary, initialLines) && (!file.shrank ==> |old(file.bytes)| <= boundary)
      invariant !sink.aborted ==> position >= seen || file.refused
      invariant !file.shrank ==> boundary <= seen <= |file.bytes|
    {
      position, finish, seen, interrupted :=
        PollOnce(file, sink, scratch, position, old(sink.written), start, boundary, initialLines);
      if interrupted { end := Interrupted; return; }
      if sink.aborted { end := Aborted; return; }
      var stop: bool := *;
      if stop { end := Stopped; return; }
      sink.Signal();
      left := left - 1;
    }
    end := if sink.aborted then Aborted else StillFollowing;
  }

  lemma PrefixKept(was: seq<byte>, b: seq<byte>, boundary: nat, start: nat, position: nat)
    requires was <= b && start <= boundary <= |was| && start <= position <= |was|
    ensures b[..boundary] == was[..boundary] && b[start..boundary] == was[start..boundary]
    ensures b[start..position] == was[start..position]
  {
  }

  lemma InitialSuffix(b: seq<byte>, boundary: nat, initialLines: int, initial: seq<byte>)
    requires boundary == 0 ==> initial == []
    requires boundary > 0 ==> boundary <= |b| && initial == LastLines(b[..boundary], Max(initialLines, 1))
    ensures |initial| <= boundary <= |b|
    ensures initial == b[boundary - |initial|..boundary]
    ensures initial == LastLines(b[..boundary], Max(initialLines, 1))
  {
    if boundary > 0 {
      CutBackIsLastLines(b[..boundary], initialLines);
      var c := CutBack(b[..boundary], boundary, initialLines);
      assert b[..boundary][c..] == b[c..boundary];
    }
  }
}
