/**
 * The event-stream reader of Agent/client/MCPBrowserClient.js: a buffer fed chunk by chunk, cut
 * at blank lines, whose payloads settle pending JSON-RPC requests.
 */
module EventStream {
  import opened Common

  // -------- Searching and cutting --------

  datatype Delimiter = LfLf | CrLfCrLf

  /** Delimiter `d` stands in `b` at `i`. */
  predicate At(b: string, d: Delimiter, i: int) {
    match d
    case LfLf => 0 <= i && i + 2 <= |b| && b[i] == '\n' && b[i + 1] == '\n'
    case CrLfCrLf => 0 <= i && i + 4 <= |b| && b[i] == '\r' && b[i + 1] == '\n' && b[i + 2] == '\r' && b[i + 3] == '\n'
  }

  function LengthOf(d: Delimiter): nat { if d.LfLf? then 2 else 4 }

  function IndexOf(b: string, d: Delimiter, from: nat): (r: int)
    requires from <= |b|
    ensures r < 0 ==> r == -1 && forall j :: from <= j ==> !At(b, d, j)
    ensures r >= 0 ==> from <= r && At(b, d, r) && forall j :: from <= j < r ==> !At(b, d, j)
    decreases |b| - from
  {
    if At(b, d, from) then from else if from == |b| then -1 else IndexOf(b, d, from + 1)
  }

  datatype Cut = NoCut | Cut(index: nat, length: nat)

  /** The two searches of the loop guard and the delimiter length chosen from what stands at the cut. */
  function FindCut(b: string): (c: Cut)
    ensures c.Cut? ==> c.length >= 2 && c.index + c.length <= |b|
  {
    var lf := IndexOf(b, LfLf, 0);
    var at := if lf >= 0 then lf else IndexOf(b, CrLfCrLf, 0);
    if at < 0 then NoCut else Cut(at, if At(b, CrLfCrLf, at) then 4 else 2)
  }

  lemma CutMeaning(b: string)
    ensures FindCut(b).NoCut? <==> forall j :: !At(b, LfLf, j) && !At(b, CrLfCrLf, j)
    ensures FindCut(b).Cut? && FindCut(b).length == 2 ==> At(b, LfLf, FindCut(b).index)
    ensures FindCut(b).Cut? && FindCut(b).length != 2 ==>
              At(b, CrLfCrLf, FindCut(b).index) && FindCut(b).length == 4 && forall j :: !At(b, LfLf, j)
  {
  }

  datatype Split = Split(events: seq<string>, rest: string)

  /** What the inner loop takes out of a buffer, and what it leaves. */
  function Extract(b: string): Split
    decreases |b|
  {
    var c := FindCut(b);
    if c.NoCut? then Split([], b)
    else Prepend(b[..c.index], Extract(b[c.index + c.length..]))
  }

  function Prepend(event: string, later: Split): Split { Split([event] + later.events, later.rest) }

  /** Going on with `t` after `first` was taken out. */
  function Continue(first: Split, t: string): Split {
    var second := Extract(first.rest + t);
    Split(first.events + second.events, second.rest)
  }

  lemma ContinuePrepended(event: string, first: Split, t: string)
    ensures Continue(Prepend(event, first), t) == Prepend(event, Continue(first, t))
  {
    var second := Extract(first.rest + t);
    assert ([event] + first.events) + second.events == [event] + (first.events + second.events);
  }

  /** What the reader ends with when the stream arrives in these chunks. */
  function Chunked(buffer: string, chunks: seq<string>): Split
    decreases |chunks|
  {
    if chunks == [] then Split([], buffer)
    else
      var now := Extract(buffer + chunks[0]);
      var later := Chunked(now.rest, chunks[1..]);
      Split(now.events + later.events, later.rest)
  }

  function Concat(chunks: seq<string>): string {
    if chunks == [] then "" else chunks[0] + Concat(chunks[1..])
  }

  // -------- When the division into chunks does not matter --------

  /** Every LF blank line stands before every CRLF blank line. */
  ghost predicate LfBeforeCrlf(b: string) {
    forall i, j :: At(b, CrLfCrLf, i) && At(b, LfLf, j) ==> j < i
  }

  lemma AtInSuffix(b: string, d: Delimiter, n: nat, i: int)
    requires n <= |b|
    ensures At(b[n..], d, i) <==> i >= 0 && At(b, d, n + i)
  {
  }

  lemma AtInPrefix(b: string, d: Delimiter, n: nat, i: int)
    requires n <= |b|
    ensures At(b[..n], d, i) <==> At(b, d, i) && i + LengthOf(d) <= n
  {
  }

  lemma SuffixKeepsOrder(b: string, n: nat)
    requires n <= |b| && LfBeforeCrlf(b)
    ensures LfBeforeCrlf(b[n..])
  {
    forall i, j | At(b[n..], CrLfCrLf, i) && At(b[n..], LfLf, j) ensures j < i {
      AtInSuffix(b, CrLfCrLf, n, i);
      AtInSuffix(b, LfLf, n, j);
    }
  }

  /** A cut found in a prefix is the cut of the whole, when the order holds. */
  lemma PrefixCut(b: string, n: nat)
    requires n <= |b| && LfBeforeCrlf(b) && FindCut(b[..n]).Cut?
    ensures FindCut(b) == FindCut(b[..n])
  {
    var c := FindCut(b[..n]);
    CutMeaning(b[..n]);
    CutMeaning(b);
    forall j, d ensures At(b[..n], d, j) <==> At(b, d, j) && j + LengthOf(d) <= n { AtInPrefix(b, d, n, j); }
  }

  /** Extracting early and then going on is extracting once. */
  lemma {:induction false} ExtractEarly(s: string, t: string)
    requires LfBeforeCrlf(s + t)
    ensures Extract(s + t) == Continue(Extract(s), t)
    ensures LfBeforeCrlf(Extract(s).rest + t)
    decreases |s|
  {
    var c := FindCut(s);
    if c.Cut? {
      var n := c.index + c.length;
      CutOfConcat(s, t, n);
      ExtractEarly(s[n..], t);
      ContinuePrepended(s[..c.index], Extract(s[n..]), t);
    }
  }

  lemma CutOfConcat(s: string, t: string, n: nat)
    requires LfBeforeCrlf(s + t) && FindCut(s).Cut? && n == FindCut(s).index + FindCut(s).length
    ensures FindCut(s + t) == FindCut(s)
    ensures (s + t)[n..] == s[n..] + t && (s + t)[..FindCut(s).index] == s[..FindCut(s).index]
    ensures LfBeforeCrlf(s[n..] + t)
  {
    var whole := s + t;
    assert whole[..|s|] == s && whole[n..] == s[n..] + t;
    PrefixCut(whole, |s|);
    SuffixKeepsOrder(whole, n);
  }

  lemma {:induction false} ChunkedIsExtract(buffer: string, chunks: seq<string>)
    requires LfBeforeCrlf(buffer + Concat(chunks)) && FindCut(buffer).NoCut?
    ensures Chunked(buffer, chunks) == Extract(buffer + Concat(chunks))
    decreases |chunks|
  {
    if chunks == [] {
      assert buffer + "" == buffer;
    } else {
      var s, t := buffer + chunks[0], Concat(chunks[1..]);
      assert buffer + Concat(chunks) == s + t;
      ExtractEarly(s, t);
      ExtractLeavesNoCut(s);
      ChunkedIsExtract(Extract(s).rest, chunks[1..]);
    }
  }

  lemma {:induction false} ExtractLeavesNoCut(b: string)
    ensures FindCut(Extract(b).rest).NoCut?
    decreases |b|
  {
    var c := FindCut(b);
    if c.Cut? { ExtractLeavesNoCut(b[c.index + c.length..]); }
  }

  /** The first LF blank line of `b` and the first CRLF blank line. */
  predicate FirstCuts(b: string, lf: int, cr: int) {
    lf == IndexOf(b, LfLf, 0) && cr == IndexOf(b, CrLfCrLf, 0) && 0 <= lf && 0 <= cr && lf != cr
  }

  predicate LfFirst(b: string, lf: int, k: int) {
    lf == IndexOf(b, LfLf, 0) && 0 <= lf && 0 <= k && lf + 2 + k <= |b|
  }

  /**
   * Induction over the LF blank lines that stand before the first CRLF one: what holds where a
   * CRLF blank line comes first, and carries over from what follows an LF one, holds of every
   * stream that is out of order.
   */
  lemma {:induction false} OutOfOrderInduction(b: string, differs: (string, int) -> bool) returns (k: int)
    requires !LfBeforeCrlf(b)
    requires forall s, lf, cr :: FirstCuts(s, lf, cr) && cr < lf ==> differs(s, cr + 4)
    requires forall s, lf, k :: LfFirst(s, lf, k) && differs(s[lf + 2..], k) ==> differs(s, lf + 2 + k)
    ensures 0 <= k <= |b| && differs(b, k)
    decreases |b|
  {
    var lf, cr := FirstDelimiters(b);
    if cr < lf {
      k := cr + 4;
      assert FirstCuts(b, lf, cr);
    } else {
      var k' := OutOfOrderInduction(b[lf + 2..], differs);
      k := lf + 2 + k';
      assert LfFirst(b, lf, k');
    }
  }

  ghost predicate Differs(b: string, k: int) { 0 <= k <= |b| ==> !AgreesAt(b, k) }

  lemma CrlfFirstDiffers()
    ensures forall s, lf, cr :: FirstCuts(s, lf, cr) && cr < lf ==> Differs(s, cr + 4)
  {
    forall s, lf, cr | FirstCuts(s, lf, cr) && cr < lf ensures Differs(s, cr + 4) { EarlyCutDisagrees(s, lf, cr); }
  }

  lemma LfFirstDiffers()
    ensures forall s, lf, k :: LfFirst(s, lf, k) && Differs(s[lf + 2..], k) ==> Differs(s, lf + 2 + k)
  {
    forall s, lf, k | LfFirst(s, lf, k) && Differs(s[lf + 2..], k) ensures Differs(s, lf + 2 + k) {
      DisagreementLifts(s, lf, k);
    }
  }

  /** Two chunks that disagree with the whole, whenever an LF blank line follows a CRLF one. */
  lemma OutOfOrderDisagrees(b: string) returns (k: int)
    requires !LfBeforeCrlf(b)
    ensures 0 <= k <= |b| && Differs(b, k)
  {
    CrlfFirstDiffers();
    LfFirstDiffers();
    k := OutOfOrderInduction(b, Differs);
  }

  lemma EarlyCutDisagrees(b: string, lf: int, cr: int)
    requires lf == IndexOf(b, LfLf, 0) && cr == IndexOf(b, CrLfCrLf, 0) && 0 <= cr && cr + 2 < lf
    ensures !AgreesAt(b, cr + 4)
  {
    EarlyCrlfCut(b, lf, cr);
    FirstEventsDiffer(b, cr + 4);
  }

  lemma FirstDelimiters(b: string) returns (lf: int, cr: int)
    requires !LfBeforeCrlf(b)
    ensures lf == IndexOf(b, LfLf, 0) && cr == IndexOf(b, CrLfCrLf, 0) && 0 <= lf && 0 <= cr
        && (lf + 2 <= cr || cr + 2 < lf)
    ensures lf < cr ==> !LfBeforeCrlf(b[lf + 2..])
  {
    lf, cr := IndexOf(b, LfLf, 0), IndexOf(b, CrLfCrLf, 0);
    var i, j :| At(b, CrLfCrLf, i) && At(b, LfLf, j) && !(j < i);
    if lf < cr {
      AtInSuffix(b, CrLfCrLf, lf + 2, i - (lf + 2));
      AtInSuffix(b, LfLf, lf + 2, j - (lf + 2));
    }
  }

  lemma FirstEventsDiffer(b: string, k: nat)
    requires k <= |b| && Extract(b[..k]).events != [] && Extract(b).events != []
    requires Extract(b[..k]).events[0] != Extract(b).events[0]
    ensures !AgreesAt(b, k)
  {
    var first := Extract(b[..k]);
    assert Continue(first, b[k..]).events[0] == first.events[0];
  }

  lemma EarlyCrlfCut(b: string, lf: int, cr: int)
    requires lf == IndexOf(b, LfLf, 0) && cr == IndexOf(b, CrLfCrLf, 0) && 0 <= cr && cr + 2 < lf
    ensures Extract(b[..cr + 4]).events != [] && Extract(b[..cr + 4]).events[0] == b[..cr]
    ensures Extract(b).events != [] && Extract(b).events[0] == b[..lf] != b[..cr]
  {
    var s := b[..cr + 4];
    forall q, d ensures At(s, d, q) <==> At(b, d, q) && q + LengthOf(d) <= cr + 4 { AtInPrefix(b, d, cr + 4, q); }
    CutMeaning(s);
    CutMeaning(b);
    assert s[..cr] == b[..cr];
  }

  /** Splitting `b` after its first `k` characters changes nothing. */
  ghost predicate AgreesAt(b: string, k: nat)
    requires k <= |b|
  {
    Extract(b) == Continue(Extract(b[..k]), b[k..])
  }

  lemma PrependedDiffer(event: string, x: Split, y: Split, t: string)
    requires x != Continue(y, t)
    ensures Prepend(event, x) != Continue(Prepend(event, y), t)
  {
    ContinuePrepended(event, y, t);
    var z := Continue(y, t);
    assert ([event] + x.events)[1..] == x.events && ([event] + z.events)[1..] == z.events;
  }

  lemma DisagreementLifts(b: string, lf: int, k: nat)
    requires lf == IndexOf(b, LfLf, 0) && 0 <= lf && lf + 2 + k <= |b| && !AgreesAt(b[lf + 2..], k)
    ensures !AgreesAt(b, lf + 2 + k)
  {
    var tail := b[lf + 2..];
    LfCutOfPrefix(b, lf, k);
    PrependedDiffer(b[..lf], Extract(tail), Extract(tail[..k]), tail[k..]);
  }

  lemma LfCutOfPrefix(b: string, lf: int, k: nat)
    requires lf == IndexOf(b, LfLf, 0) && 0 <= lf && lf + 2 + k <= |b|
    ensures Extract(b) == Prepend(b[..lf], Extract(b[lf + 2..]))
    ensures Extract(b[..lf + 2 + k]) == Prepend(b[..lf], Extract(b[lf + 2..][..k]))
    ensures b[lf + 2 + k..] == b[lf + 2..][k..]
  {
    FirstLfOfPrefix(b, lf, k);
    Unfold(b, Cut(lf, 2), b[..lf], b[lf + 2..]);
    Unfold(b[..lf + 2 + k], Cut(lf, 2), b[..lf], b[lf + 2..][..k]);
  }

  lemma FirstLfOfPrefix(b: string, lf: int, k: nat)
    requires lf == IndexOf(b, LfLf, 0) && 0 <= lf && lf + 2 + k <= |b|
    ensures FindCut(b) == FindCut(b[..lf + 2 + k]) == Cut(lf, 2)
    ensures b[..lf + 2 + k][..lf] == b[..lf] && b[..lf + 2 + k][lf + 2..] == b[lf + 2..][..k]
    ensures b[lf + 2 + k..] == b[lf + 2..][k..]
  {
    var s := b[..lf + 2 + k];
    assert FindCut(s) == Cut(lf, 2) by {
      forall q ensures At(s, LfLf, q) <==> At(b, LfLf, q) && q + 2 <= |s| { AtInPrefix(b, LfLf, |s|, q); }
    }
  }

  lemma Unfold(b: string, c: Cut, event: string, rest: string)
    requires FindCut(b) == c && c.Cut? && b[..c.index] == event && b[c.index + c.length..] == rest
    ensures Extract(b) == Prepend(event, Extract(rest))
  {
  }

  /** Every division of the stream gives the same events and the same tail. */
  ghost predicate ChunkIndependent(b: string) {
    forall chunks: seq<string> :: Concat(chunks) == b ==> Chunked("", chunks) == Extract(b)
  }

  /** The exact condition for chunk independence, on every stream. */
  lemma ChunkIndependence(b: string)
    ensures ChunkIndependent(b) <==> LfBeforeCrlf(b)
  {
    if LfBeforeCrlf(b) { InOrderIsIndependent(b); } else { OutOfOrderIsDependent(b); }
  }

  lemma InOrderIsIndependent(b: string)
    requires LfBeforeCrlf(b)
    ensures ChunkIndependent(b)
  {
    forall chunks: seq<string> | Concat(chunks) == b ensures Chunked("", chunks) == Extract(b) {
      assert "" + Concat(chunks) == b;
      ChunkedIsExtract("", chunks);
    }
  }

  lemma OutOfOrderIsDependent(b: string)
    requires !LfBeforeCrlf(b)
    ensures !ChunkIndependent(b)
  {
    var chunks := OutOfOrderChunks(b);
  }

  lemma OutOfOrderChunks(b: string) returns (chunks: seq<string>)
    requires !LfBeforeCrlf(b)
    ensures Concat(chunks) == b && Chunked("", chunks) != Extract(b)
  {
    var k := OutOfOrderDisagrees(b);
    TwoChunks(b, k);
    chunks := [b[..k], b[k..]];
  }

  /** A stream that mixes line endings, whose events depend on where it is divided. */
  lemma MixedEndingsDepend()
    ensures !ChunkIndependent("a\r\n\r\nb\n\n")
  {
    var b := "a\r\n\r\nb\n\n";
    assert At(b, CrLfCrLf, 1) && At(b, LfLf, 6);
    ChunkIndependence(b);
  }

  lemma TwoChunks(b: string, k: nat)
    requires k <= |b|
    ensures Concat([b[..k], b[k..]]) == b
    ensures Chunked("", [b[..k], b[k..]]) == Extract(b) <==> AgreesAt(b, k)
  {
    var chunks := [b[..k], b[k..]];
    assert chunks[1..] == [b[k..]] && chunks[1..][1..] == [];
    assert Concat(chunks[1..]) == b[k..] + "" == b[k..];
    assert "" + b[..k] == b[..k];
    var first := Extract(b[..k]);
    var second := Extract(first.rest + b[k..]);
    assert Chunked(second.rest, chunks[1..][1..]) == Split([], second.rest);
    assert second.events + [] == second.events;
  }

  // -------- Streams with one line ending --------

  predicate LfOnly(b: string) { '\r' !in b }

  predicate CrlfOnly(b: string) { forall i | 0 <= i < |b| && b[i] == '\n' :: i > 0 && b[i - 1] == '\r' }

  lemma OneLineEndingIsIndependent(b: string)
    requires LfOnly(b) || CrlfOnly(b)
    ensures ChunkIndependent(b)
  {
    forall i, j | At(b, CrLfCrLf, i) && At(b, LfLf, j) ensures j < i {}
    ChunkIndependence(b);
  }

  // -------- Nothing is lost and nothing is split in two --------

  function TextOf(d: Delimiter): string { if d.LfLf? then "\n\n" else "\r\n\r\n" }

  /** `b` is the events, each closed by its blank line, then the tail. */
  predicate Rebuilds(split: Split, ends: seq<Delimiter>, b: string)
    decreases |split.events|
  {
    && |ends| == |split.events|
    && if ends == [] then b == split.rest
       else
         var n := |split.events[0]| + |TextOf(ends[0])|;
         && n <= |b| && b[..n] == split.events[0] + TextOf(ends[0])
         && Rebuilds(Split(split.events[1..], split.rest), ends[1..], b[n..])
  }

  lemma {:induction false} ExtractConserves(b: string) returns (ends: seq<Delimiter>)
    ensures Rebuilds(Extract(b), ends, b)
    decreases |b|
  {
    var c := FindCut(b);
    ends := [];
    if c.Cut? {
      var d := if c.length == 2 then LfLf else CrLfCrLf;
      var rest := b[c.index + c.length..];
      var later := ExtractConserves(rest);
      ends := [d] + later;
      RebuildsPrepended(b, c.index, d, rest, Extract(rest), later);
      Unfold(b, c, b[..c.index], rest);
    }
  }

  lemma RebuildsPrepended(b: string, i: nat, d: Delimiter, rest: string, later: Split, ends: seq<Delimiter>)
    requires At(b, d, i) && rest == b[i + LengthOf(d)..] && Rebuilds(later, ends, rest)
    ensures Rebuilds(Prepend(b[..i], later), [d] + ends, b)
  {
    var split, all := Prepend(b[..i], later), [d] + ends;
    assert split.events[0] == b[..i] && split.events[1..] == later.events;
    assert all[0] == d && all[1..] == ends && |TextOf(d)| == LengthOf(d);
    assert b[..i + LengthOf(d)] == b[..i] + TextOf(d);
    assert Split(split.events[1..], split.rest) == later;
  }

  /** No event holds an LF blank line. */
  lemma {:induction false} EventsHoldNoBlankLine(b: string, k: nat, j: int)
    requires k < |Extract(b).events|
    ensures !At(Extract(b).events[k], LfLf, j)
    decreases |b|
  {
    var c := FindCut(b);
    if k == 0 {
      AtInPrefix(b, LfLf, c.index, j);
    } else {
      EventsHoldNoBlankLine(b[c.index + c.length..], k - 1, j);
    }
  }

  // -------- From a raw event to its payload --------

  /** ECMAScript white space and line terminators. */
  predicate IsSpace(c: char) {
    || '\t' <= c <= '\r' || c == ' ' || c == '\U{00A0}' || c == '\U{1680}' || '\U{2000}' <= c <= '\U{200A}'
    || '\U{2028}' <= c <= '\U{2029}' || c == '\U{202F}' || c == '\U{205F}' || c == '\U{3000}' || c == '\U{FEFF}'
  }

  function TrimStart(s: string): string { if s != "" && IsSpace(s[0]) then TrimStart(s[1..]) else s }

  function TrimEnd(s: string): string {
    if s != "" && IsSpace(s[|s| - 1]) then TrimEnd(s[..|s| - 1]) else s
  }

  function Chomp(line: string): string {
    if line != "" && line[|line| - 1] == '\r' then line[..|line| - 1] else line
  }

  /** Splitting on LF with an optional CR before it; `line` is the line read so far. */
  function Lines(line: string, raw: string): seq<string>
    decreases |raw|
  {
    if raw == "" then [line]
    else if raw[0] == '\n' then [Chomp(line)] + Lines("", raw[1..])
    else Lines(line + [raw[0]], raw[1..])
  }

  const DATA := "data:"

  function DataOf(lines: seq<string>): seq<string> {
    if lines == [] then []
    else (if DATA <= lines[0] then [TrimStart(lines[0][|DATA|..])] else []) + DataOf(lines[1..])
  }

  function JoinLines(parts: seq<string>): string {
    if parts == [] then "" else if |parts| == 1 then parts[0] else parts[0] + "\n" + JoinLines(parts[1..])
  }

  /** The payload of an event, if it has a data line. */
  function PayloadOf(raw: string): Option<string> {
    var data := DataOf(Lines("", raw));
    if data == [] then None else Some(JoinLines(data))
  }

  method ReadEvent(raw: string) returns (payload: Option<string>)
    ensures payload == PayloadOf(raw)
  {
    var lines := Lines("", raw);
    var data := [];
    for k := 0 to |lines|
      invariant data + DataOf(lines[k..]) == DataOf(lines)
    {
      assert lines[k..][1..] == lines[k + 1..];
      if DATA <= lines[k] { data := data + [TrimStart(lines[k][|DATA|..])]; }
    }
    assert lines[|lines|..] == [] && data + [] == data;
    payload := if data == [] then None else Some(JoinLines(data));
  }

  // -------- The same stream with CRLF line endings --------

  function ToCrlf(t: string): string {
    if t == "" then "" else (if t[0] == '\n' then "\r\n" else [t[0]]) + ToCrlf(t[1..])
  }

  lemma {:induction false} ToCrlfConcat(s: string, t: string)
    ensures ToCrlf(s + t) == ToCrlf(s) + ToCrlf(t)
  {
    if s == "" {
      assert s + t == t;
    } else {
      assert (s + t)[1..] == s[1..] + t;
      ToCrlfConcat(s[1..], t);
    }
  }

  /** The CRLF form never has an LF blank line, and every LF in it follows a CR. */
  lemma {:induction false} ToCrlfIsCrlf(t: string)
    requires LfOnly(t)
    ensures CrlfOnly(ToCrlf(t)) && forall j :: !At(ToCrlf(t), LfLf, j)
  {
    if t != "" { ToCrlfIsCrlf(t[1..]); }
  }

  /** A CRLF blank line can only stand where an LF blank line stood. */
  lemma {:induction false} CrlfBlankComesFromLf(t: string, q: int) returns (i: nat)
    requires LfOnly(t) && At(ToCrlf(t), CrLfCrLf, q)
    ensures At(t, LfLf, i) && q == |ToCrlf(t[..i])|
  {
    var head := if t[0] == '\n' then 2 else 1;
    forall p | head <= p < |ToCrlf(t)| ensures ToCrlf(t)[p] == ToCrlf(t[1..])[p - head] {}
    if q == 0 {
      i := 0;
      assert ToCrlf(t)[2] == ToCrlf(t[1..])[0];
    } else {
      assert q >= head;
      var k := CrlfBlankComesFromLf(t[1..], q - head);
      i := k + 1;
      assert t[..i][1..] == t[1..][..k];
    }
  }

  lemma LfBlankBecomesCrlf(t: string, i: nat)
    requires LfOnly(t) && At(t, LfLf, i)
    ensures At(ToCrlf(t), CrLfCrLf, |ToCrlf(t[..i])|)
    ensures ToCrlf(t) == ToCrlf(t[..i]) + "\r\n\r\n" + ToCrlf(t[i + 2..])
  {
    assert t == t[..i] + ("\n\n" + t[i + 2..]);
    ToCrlfConcat(t[..i], "\n\n" + t[i + 2..]);
    ToCrlfConcat("\n\n", t[i + 2..]);
    assert ToCrlf("\n\n") == "\r\n\r\n";
  }

  lemma {:induction false} ToCrlfGrows(t: string, i: nat, k: nat)
    requires i <= k <= |t|
    ensures |ToCrlf(t[..i])| + (k - i) <= |ToCrlf(t[..k])|
    decreases k - i
  {
    if i < k {
      assert t[..i + 1] == t[..i] + [t[i]];
      ToCrlfConcat(t[..i], [t[i]]);
      ToCrlfGrows(t, i + 1, k);
    }
  }

  lemma CrlfCut(t: string)
    requires LfOnly(t)
    ensures FindCut(t).NoCut? ==> FindCut(ToCrlf(t)).NoCut?
    ensures FindCut(t).Cut? ==> FindCut(t).length == 2 && FindCut(ToCrlf(t)) == Cut(|ToCrlf(t[..FindCut(t).index])|, 4)
  {
    ToCrlfIsCrlf(t);
    var lf, cr := IndexOf(t, LfLf, 0), IndexOf(ToCrlf(t), CrLfCrLf, 0);
    if cr >= 0 {
      var i := CrlfBlankComesFromLf(t, cr);
      LfBlankBecomesCrlf(t, lf);
      ToCrlfGrows(t, lf, i);
    } else if lf >= 0 {
      LfBlankBecomesCrlf(t, lf);
    }
  }

  function AllToCrlf(events: seq<string>): seq<string> {
    seq(|events|, k requires 0 <= k < |events| => ToCrlf(events[k]))
  }

  /** Rewriting the line endings of a stream rewrites the line endings of its events and tail. */
  lemma {:induction false} ExtractCrlf(t: string)
    requires LfOnly(t)
    ensures Extract(ToCrlf(t)) == Split(AllToCrlf(Extract(t).events), ToCrlf(Extract(t).rest))
    decreases |t|
  {
    var c := FindCut(t);
    CrlfCut(t);
    if c.NoCut? {
      assert AllToCrlf([]) == [];
    } else {
      var i := c.index;
      LfBlankBecomesCrlf(t, i);
      ExtractCrlf(t[i + 2..]);
      var n := |ToCrlf(t[..i])|;
      assert ToCrlf(t)[..n] == ToCrlf(t[..i]) && ToCrlf(t)[n + 4..] == ToCrlf(t[i + 2..]);
      AllToCrlfPrepended(t[..i], Extract(t[i + 2..]).events);
    }
  }

  lemma AllToCrlfPrepended(event: string, events: seq<string>)
    ensures AllToCrlf([event] + events) == [ToCrlf(event)] + AllToCrlf(events)
  {
  }

  lemma {:induction false} LinesCrlf(line: string, raw: string)
    requires LfOnly(line) && LfOnly(raw)
    ensures Lines(line, ToCrlf(raw)) == Lines(line, raw)
    decreases |raw|
  {
    if raw != "" {
      var c, later := raw[0], ToCrlf(raw[1..]);
      if c == '\n' {
        assert ToCrlf(raw)[1..] == "\n" + later && ("\n" + later)[1..] == later;
        assert (line + "\r")[..|line|] == line;
        LinesCrlf("", raw[1..]);
      } else {
        assert ToCrlf(raw)[1..] == later;
        LinesCrlf(line + [c], raw[1..]);
      }
    }
  }

  // -------- Settling the pending requests --------

  datatype Message = Message(id: Option<string>, failed: bool, body: string)

  datatype Settlement = Settlement(id: string, failed: bool, body: string)

  /** The pending map and what its waiters were told, in order. */
  datatype Waiters = Waiters(pending: set<string>, settled: seq<Settlement>)

  /** Parsed text: `None` for malformed text, and a `None` item for a value that is not an object to look into. */
  type Decoder = string -> Option<seq<Option<Message>>>

  function Deliver(w: Waiters, m: Message): Waiters {
    if m.id.Some? && m.id.value != "" && m.id.value in w.pending
    then Waiters(w.pending - {m.id.value}, w.settled + [Settlement(m.id.value, m.failed, m.body)])
    else w
  }

  /** Messages are handled in order until one of them throws. */
  function DeliverAll(w: Waiters, ms: seq<Option<Message>>): Waiters
    decreases |ms|
  {
    if ms == [] || ms[0].None? then w else DeliverAll(Deliver(w, ms[0].value), ms[1..])
  }

  function DeliverText(decode: Decoder, w: Waiters, text: string): Waiters {
    if decode(text).None? then w else DeliverAll(w, decode(text).value)
  }

  function DispatchAll(decode: Decoder, w: Waiters, events: seq<string>): Waiters
    decreases |events|
  {
    if events == [] then w
    else
      var payload := PayloadOf(events[0]);
      DispatchAll(decode, if payload.None? then w else DeliverText(decode, w, payload.value), events[1..])
  }

  function DispatchTail(decode: Decoder, w: Waiters, rest: string): Waiters {
    var text := TrimEnd(TrimStart(rest));
    if text == "" then w else DeliverText(decode, w, text)
  }

  lemma {:induction false} DispatchConcat(decode: Decoder, w: Waiters, xs: seq<string>, ys: seq<string>)
    ensures DispatchAll(decode, w, xs + ys) == DispatchAll(decode, DispatchAll(decode, w, xs), ys)
    decreases |xs|
  {
    if xs == [] {
      assert xs + ys == ys;
    } else {
      assert (xs + ys)[1..] == xs[1..] + ys;
      var payload := PayloadOf(xs[0]);
      DispatchConcat(decode, if payload.None? then w else DeliverText(decode, w, payload.value), xs[1..], ys);
    }
  }

  ghost function SettledIds(w: Waiters): set<string> { set k | 0 <= k < |w.settled| :: w.settled[k].id }

  /** No waiter is told twice, and none that was told is still pending. */
  ghost predicate OncePerWaiter(w: Waiters) {
    && SettledIds(w) !! w.pending
    && forall i, j | 0 <= i < j < |w.settled| :: w.settled[i].id != w.settled[j].id
  }

  /** `v` came from `w` by telling some pending waiters, once each. */
  ghost predicate Progress(w: Waiters, v: Waiters) {
    && w.settled <= v.settled && v.pending <= w.pending
    && SettledIds(v) + v.pending == SettledIds(w) + w.pending
    && (OncePerWaiter(w) ==> OncePerWaiter(v))
  }

  lemma DeliverProgress(w: Waiters, m: Message)
    ensures Progress(w, Deliver(w, m))
  {
    var v := Deliver(w, m);
    if v != w {
      assert forall k | 0 <= k < |w.settled| :: v.settled[k] == w.settled[k];
      assert SettledIds(v) == SettledIds(w) + {m.id.value} by {
        assert v.settled[|w.settled|].id == m.id.value;
        forall x | x in SettledIds(w) ensures x in SettledIds(v) {
          var k :| 0 <= k < |w.settled| && w.settled[k].id == x;
          assert v.settled[k].id == x;
        }
      }
      if OncePerWaiter(w) {
        forall i, j | 0 <= i < j < |v.settled| ensures v.settled[i].id != v.settled[j].id {
          assert w.settled[i].id in SettledIds(w);
        }
      }
    }
  }

  lemma {:induction false} DeliverAllProgress(w: Waiters, ms: seq<Option<Message>>)
    ensures Progress(w, DeliverAll(w, ms))
    decreases |ms|
  {
    if ms != [] && ms[0].Some? {
      DeliverProgress(w, ms[0].value);
      DeliverAllProgress(Deliver(w, ms[0].value), ms[1..]);
    }
  }

  /** Over a whole stream every waiter is either still pending or told exactly once. */
  lemma {:induction false} DispatchProgress(decode: Decoder, w: Waiters, events: seq<string>)
    ensures Progress(w, DispatchAll(decode, w, events))
    decreases |events|
  {
    if events != [] {
      var payload := PayloadOf(events[0]);
      var v := if payload.None? then w else DeliverText(decode, w, payload.value);
      if payload.Some? && decode(payload.value).Some? { DeliverAllProgress(w, decode(payload.value).value); }
      DispatchProgress(decode, v, events[1..]);
    }
  }

  class Reader {
    const decode: Decoder
    var buffer: string
    var pending: set<string>
    var settled: seq<Settlement>

    constructor (decode: Decoder, pending: set<string>)
      ensures this.decode == decode && buffer == "" && Told() == Waiters(pending, [])
    {
      this.decode := decode;
      buffer, this.pending, settled := "", pending, [];
    }

    function Told(): Waiters reads this { Waiters(pending, settled) }

    method HandleText(text: string)
      modifies this`pending, this`settled
      ensures Told() == DeliverText(decode, old(Told()), text)
    {
      var parsed := decode(text);
      if parsed.Some? {
        var ms := parsed.value;
        var k := 0;
        while k < |ms| && ms[k].Some?
          invariant 0 <= k <= |ms|
          invariant DeliverAll(Told(), ms[k..]) == DeliverAll(old(Told()), ms)
        {
          var m := ms[k].value;
          if m.id.Some? && m.id.value != "" && m.id.value in pending {
            pending := pending - {m.id.value};
            settled := settled + [Settlement(m.id.value, m.failed, m.body)];
          }
          assert ms[k..][1..] == ms[k + 1..];
          k := k + 1;
        }
      }
    }

    /** One chunk: append, then cut out every complete event and hand its payload on. */
    method Feed(chunk: string)
      modifies this
      ensures buffer == Extract(old(buffer) + chunk).rest
      ensures Told() == DispatchAll(decode, old(Told()), Extract(old(buffer) + chunk).events)
    {
      buffer := buffer + chunk;
      ghost var whole := Extract(buffer);
      var cut := FindCut(buffer);
      while cut.Cut?
        invariant cut == FindCut(buffer)
        invariant Extract(buffer).rest == whole.rest
        invariant DispatchAll(decode, Told(), Extract(buffer).events) == DispatchAll(decode, old(Told()), whole.events)
        decreases |buffer|
      {
        var payload := ReadEvent(buffer[..cut.index]);
        buffer := buffer[cut.index + cut.length..];
        if payload.Some? { HandleText(payload.value); }
        cut := FindCut(buffer);
      }
    }

    /** A whole stream, in whatever chunks it arrives, then its tail. */
    method Parse(chunks: seq<string>)
      modifies this
      ensures buffer == Chunked(old(buffer), chunks).rest
      ensures Told() == Outcome(decode, old(Told()), Chunked(old(buffer), chunks))
    {
      for k := 0 to |chunks|
        invariant Chunked(buffer, chunks[k..]).rest == Chunked(old(buffer), chunks).rest
        invariant DispatchAll(decode, Told(), Chunked(buffer, chunks[k..]).events)
               == DispatchAll(decode, old(Told()), Chunked(old(buffer), chunks).events)
      {
        ghost var before, was := buffer, Told();
        Feed(chunks[k]);
        assert chunks[k..][1..] == chunks[k + 1..];
        DispatchConcat(decode, was, Extract(before + chunks[k]).events, Chunked(buffer, chunks[k + 1..]).events);
      }
      var text := TrimEnd(TrimStart(buffer));
      if text != "" { HandleText(text); }
    }
  }

  /** The outcome of a whole stream for the waiters: its events, then its tail. */
  function Outcome(decode: Decoder, w: Waiters, split: Split): Waiters {
    DispatchTail(decode, DispatchAll(decode, w, split.events), split.rest)
  }

  /** Over a whole stream, its tail included, every waiter is still pending or told exactly once. */
  lemma OutcomeProgress(decode: Decoder, w: Waiters, split: Split)
    ensures Progress(w, Outcome(decode, w, split))
  {
    DispatchProgress(decode, w, split.events);
    var v, text := DispatchAll(decode, w, split.events), TrimEnd(TrimStart(split.rest));
    if text != "" && decode(text).Some? { DeliverAllProgress(v, decode(text).value); }
  }

  /** Line endings are white space to the decoder, as they are to JSON outside strings (inside, LF is malformed). */
  ghost predicate IgnoresLineEndings(decode: Decoder) {
    forall t | LfOnly(t) :: decode(ToCrlf(t)) == decode(t)
  }

  lemma {:induction false} TrimStartCrlf(t: string)
    requires LfOnly(t)
    ensures TrimStart(ToCrlf(t)) == ToCrlf(TrimStart(t)) && LfOnly(TrimStart(t))
  {
    if t != "" {
      var later := ToCrlf(t[1..]);
      if t[0] == '\n' {
        assert ToCrlf(t)[1..] == "\n" + later && ("\n" + later)[1..] == later;
      } else {
        assert ToCrlf(t)[1..] == later;
      }
      TrimStartCrlf(t[1..]);
    }
  }

  lemma TrimEndLast(s: string, c: char)
    ensures TrimEnd(s + [c]) == if IsSpace(c) then TrimEnd(s) else s + [c]
  {
    assert (s + [c])[..|s|] == s;
  }

  lemma ToCrlfLast(t: string, c: char)
    ensures ToCrlf(t + [c]) == if c == '\n' then ToCrlf(t) + "\r" + "\n" else ToCrlf(t) + [c]
  {
    ToCrlfConcat(t, [c]);
    assert ToCrlf([c]) == if c == '\n' then "\r" + "\n" else [c];
  }

  lemma {:induction false} TrimEndCrlf(t: string)
    requires LfOnly(t)
    ensures TrimEnd(ToCrlf(t)) == ToCrlf(TrimEnd(t)) && LfOnly(TrimEnd(t))
  {
    if t != "" {
      var before, c := t[..|t| - 1], t[|t| - 1];
      assert t == before + [c];
      TrimEndLast(before, c);
      ToCrlfLast(before, c);
      TrimEndCrlf(before);
      if c == '\n' {
        TrimEndLast(ToCrlf(before) + "\r", '\n');
        TrimEndLast(ToCrlf(before), '\r');
      } else {
        TrimEndLast(ToCrlf(before), c);
      }
    }
  }

  lemma {:induction false} TailOfLfOnly(t: string)
    requires LfOnly(t)
    ensures LfOnly(Extract(t).rest)
    decreases |t|
  {
    var c := FindCut(t);
    if c.Cut? { TailOfLfOnly(t[c.index + c.length..]); }
  }

  lemma SameTail(decode: Decoder, w: Waiters, rest: string)
    requires LfOnly(rest) && IgnoresLineEndings(decode)
    ensures DispatchTail(decode, w, ToCrlf(rest)) == DispatchTail(decode, w, rest)
  {
    TrimStartCrlf(rest);
    TrimEndCrlf(TrimStart(rest));
    var text := TrimEnd(TrimStart(rest));
    assert text != "" ==> ToCrlf(text) != "";
  }

  /**
   * Any division of the LF form of a stream and any division of its CRLF form tell the waiters the
   * same through their events, and through their tails too if the decoder ignores line endings.
   */
  lemma LineEndingsDoNotMatter(t: string, lf: seq<string>, crlf: seq<string>, decode: Decoder, w: Waiters)
    requires LfOnly(t) && Concat(lf) == t && Concat(crlf) == ToCrlf(t)
    ensures DispatchAll(decode, w, Chunked("", lf).events) == DispatchAll(decode, w, Chunked("", crlf).events)
    ensures Chunked("", crlf).rest == ToCrlf(Chunked("", lf).rest)
    ensures IgnoresLineEndings(decode) ==>
              Outcome(decode, w, Chunked("", lf)) == Outcome(decode, w, Chunked("", crlf))
  {
    ToCrlfIsCrlf(t);
    OneLineEndingIsIndependent(t);
    OneLineEndingIsIndependent(ToCrlf(t));
    ExtractCrlf(t);
    EventsOfLfOnly(t);
    SameDispatch(decode, w, Extract(t).events);
    if IgnoresLineEndings(decode) {
      TailOfLfOnly(t);
      SameTail(decode, DispatchAll(decode, w, Extract(t).events), Extract(t).rest);
    }
  }

  lemma {:induction false} EventsOfLfOnly(t: string)
    requires LfOnly(t)
    ensures forall k | 0 <= k < |Extract(t).events| :: LfOnly(Extract(t).events[k])
    decreases |t|
  {
    var c := FindCut(t);
    if c.Cut? { EventsOfLfOnly(t[c.index + c.length..]); }
  }

  lemma {:induction false} SameDispatch(decode: Decoder, w: Waiters, events: seq<string>)
    requires forall k | 0 <= k < |events| :: LfOnly(events[k])
    ensures DispatchAll(decode, w, AllToCrlf(events)) == DispatchAll(decode, w, events)
    decreases |events|
  {
    if events != [] {
      LinesCrlf("", events[0]);
      AllToCrlfPrepended(events[0], events[1..]);
      assert events == [events[0]] + events[1..];
      var payload := PayloadOf(events[0]);
      SameDispatch(decode, if payload.None? then w else DeliverText(decode, w, payload.value), events[1..]);
    }
  }
}
