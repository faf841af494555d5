/**
 * What the event-stream reader of Agent/client/MCPBrowserClient.js tells the waiting requests, and
 * that it reads back what a writer of events wrote.
 */
module EventDelivery {
  import opened Common
  import opened EventStream

  // -------- The messages in a stream --------

  /** The items of one decoded text up to the one that throws. */
  function UntilThrow(items: seq<Option<Message>>): seq<Message> {
    if items == [] || items[0].None? then [] else [items[0].value] + UntilThrow(items[1..])
  }

  function Heard(decode: Decoder, text: string): seq<Message> {
    if decode(text).None? then [] else UntilThrow(decode(text).value)
  }

  function Payloads(events: seq<string>): seq<string> {
    if events == [] then []
    else (if PayloadOf(events[0]).None? then [] else [PayloadOf(events[0]).value]) + Payloads(events[1..])
  }

  /** The texts handed to the decoder: the payloads of the events in order, then the trimmed tail. */
  function Texts(split: Split): seq<string> {
    var tail := TrimEnd(TrimStart(split.rest));
    Payloads(split.events) + (if tail == "" then [] else [tail])
  }

  function Messages(decode: Decoder, texts: seq<string>): seq<Message> {
    if texts == [] then [] else Heard(decode, texts[0]) + Messages(decode, texts[1..])
  }

  // -------- What the waiters are told --------

  /** Message `j` is the first about request `id`. */
  ghost predicate FirstAbout(ms: seq<Message>, id: string, j: int) {
    0 <= j < |ms| && ms[j].id == Some(id) && forall m | 0 <= m < j :: ms[m].id != Some(id)
  }

  /** Settlement `k` repeats the first message about a request that was pending. */
  ghost predicate ToldRight(w: Waiters, told: Settlement, ms: seq<Message>) {
    && told.id in w.pending && told.id != ""
    && exists j :: FirstAbout(ms, told.id, j) && told.failed == ms[j].failed && told.body == ms[j].body
  }

  /** `v` is `w` after exactly these messages: who was told what, in which order, and who still waits. */
  ghost predicate Tells(w: Waiters, v: Waiters, ms: seq<Message>) {
    && w.settled <= v.settled && v.pending <= w.pending
    && (forall k | |w.settled| <= k < |v.settled| :: ToldRight(w, v.settled[k], ms))
    && (forall id | id in w.pending :: id in v.pending <==> id == "" || forall j :: !FirstAbout(ms, id, j))
    && (forall k, l, i, j | |w.settled| <= k < l < |v.settled| && FirstAbout(ms, v.settled[k].id, i)
                            && FirstAbout(ms, v.settled[l].id, j) :: i < j)
  }

  function Fold(w: Waiters, ms: seq<Message>): Waiters
    decreases |ms|
  {
    if ms == [] then w else Fold(Deliver(w, ms[0]), ms[1..])
  }

  lemma {:induction false} FoldConcat(w: Waiters, xs: seq<Message>, ys: seq<Message>)
    ensures Fold(w, xs + ys) == Fold(Fold(w, xs), ys)
    decreases |xs|
  {
    if xs == [] {
      assert xs + ys == ys;
    } else {
      assert (xs + ys)[1..] == xs[1..] + ys;
      FoldConcat(Deliver(w, xs[0]), xs[1..], ys);
    }
  }

  lemma FirstStays(ms: seq<Message>, m: Message, id: string, j: int)
    ensures FirstAbout(ms + [m], id, j) <==>
            FirstAbout(ms, id, j) || (j == |ms| && m.id == Some(id) && forall i :: !FirstAbout(ms, id, i))
  {
    var all := ms + [m];
    assert forall i | 0 <= i < |ms| :: all[i] == ms[i];
    if j == |ms| && m.id == Some(id) && forall i :: !FirstAbout(ms, id, i) {
      forall i | 0 <= i < j ensures all[i].id != Some(id) {
        if all[i].id == Some(id) { Earliest(ms, id, i); }
      }
    }
  }

  lemma {:induction false} Earliest(ms: seq<Message>, id: string, i: int)
    requires 0 <= i < |ms| && ms[i].id == Some(id)
    ensures exists j :: FirstAbout(ms, id, j)
    decreases i
  {
    if m :| 0 <= m < i && ms[m].id == Some(id) {
      Earliest(ms, id, m);
    } else {
      assert FirstAbout(ms, id, i);
    }
  }

  lemma OneMoreMessage(w: Waiters, v: Waiters, ms: seq<Message>, m: Message)
    requires Tells(w, v, ms)
    ensures Tells(w, Deliver(v, m), ms + [m])
  {
    var all, next := ms + [m], Deliver(v, m);
    forall id, j ensures FirstAbout(all, id, j) <==>
                         FirstAbout(ms, id, j) || (j == |ms| && m.id == Some(id) && forall i :: !FirstAbout(ms, id, i))
    {
      FirstStays(ms, m, id, j);
    }
    forall k | |w.settled| <= k < |next.settled| ensures ToldRight(w, next.settled[k], all) {
      if k < |v.settled| {
        OldTold(w, v.settled[k], ms, m);
      } else {
        assert FirstAbout(all, m.id.value, |ms|);
      }
    }
    StillWaiting(w, v, ms, m);
    OrderStays(w, v, ms, m);
  }

  lemma OldTold(w: Waiters, told: Settlement, ms: seq<Message>, m: Message)
    requires ToldRight(w, told, ms)
    ensures ToldRight(w, told, ms + [m])
  {
    var j :| FirstAbout(ms, told.id, j) && told.failed == ms[j].failed && told.body == ms[j].body;
    FirstStays(ms, m, told.id, j);
    assert (ms + [m])[j] == ms[j];
  }

  lemma StillWaiting(w: Waiters, v: Waiters, ms: seq<Message>, m: Message)
    requires Tells(w, v, ms)
    ensures forall id | id in w.pending ::
              id in Deliver(v, m).pending <==> id == "" || forall j :: !FirstAbout(ms + [m], id, j)
  {
    forall id | id in w.pending
      ensures id in Deliver(v, m).pending <==> id == "" || forall j :: !FirstAbout(ms + [m], id, j)
    {
      forall j { FirstStays(ms, m, id, j); }
      if forall j :: !FirstAbout(ms, id, j) {
        if m.id == Some(id) { assert FirstAbout(ms + [m], id, |ms|); }
      } else {
        var j :| FirstAbout(ms, id, j);
        assert FirstAbout(ms + [m], id, j);
      }
    }
  }

  lemma OrderStays(w: Waiters, v: Waiters, ms: seq<Message>, m: Message)
    requires Tells(w, v, ms)
    ensures var next := Deliver(v, m); var all := ms + [m];
            forall k, l, i, j | |w.settled| <= k < l < |next.settled| && FirstAbout(all, next.settled[k].id, i)
                                && FirstAbout(all, next.settled[l].id, j) :: i < j
  {
    var next, all := Deliver(v, m), ms + [m];
    forall k, l, i, j | |w.settled| <= k < l < |next.settled| && FirstAbout(all, next.settled[k].id, i)
                        && FirstAbout(all, next.settled[l].id, j)
      ensures i < j
    {
      FirstStays(ms, m, next.settled[k].id, i);
      FirstStays(ms, m, next.settled[l].id, j);
      assert ToldRight(w, v.settled[k], ms);
      if l < |v.settled| { assert ToldRight(w, v.settled[l], ms); }
    }
  }

  lemma {:induction false} FoldTells(w: Waiters, ms: seq<Message>)
    ensures Tells(w, Fold(w, ms), ms)
    decreases |ms|
  {
    if ms != [] {
      var n := |ms| - 1;
      assert ms == ms[..n] + [ms[n]];
      FoldTells(w, ms[..n]);
      FoldConcat(w, ms[..n], [ms[n]]);
      assert Fold(Fold(w, ms[..n]), [ms[n]]) == Deliver(Fold(w, ms[..n]), ms[n]);
      OneMoreMessage(w, Fold(w, ms[..n]), ms[..n], ms[n]);
    }
  }

  lemma {:induction false} DeliverAllIsFold(w: Waiters, items: seq<Option<Message>>)
    ensures DeliverAll(w, items) == Fold(w, UntilThrow(items))
    decreases |items|
  {
    if items != [] && items[0].Some? {
      var later := UntilThrow(items[1..]);
      assert ([items[0].value] + later)[1..] == later;
      DeliverAllIsFold(Deliver(w, items[0].value), items[1..]);
    }
  }

  lemma DeliverTextIsFold(decode: Decoder, w: Waiters, text: string)
    ensures DeliverText(decode, w, text) == Fold(w, Heard(decode, text))
  {
    if decode(text).Some? { DeliverAllIsFold(w, decode(text).value); }
  }

  lemma {:induction false} MessagesConcat(decode: Decoder, xs: seq<string>, ys: seq<string>)
    ensures Messages(decode, xs + ys) == Messages(decode, xs) + Messages(decode, ys)
    decreases |xs|
  {
    if xs == [] {
      assert xs + ys == ys;
    } else {
      assert (xs + ys)[1..] == xs[1..] + ys;
      MessagesConcat(decode, xs[1..], ys);
    }
  }

  lemma {:induction false} DispatchIsFold(decode: Decoder, w: Waiters, events: seq<string>)
    ensures DispatchAll(decode, w, events) == Fold(w, Messages(decode, Payloads(events)))
    decreases |events|
  {
    if events != [] {
      var payload := PayloadOf(events[0]);
      var later := Payloads(events[1..]);
      if payload.None? {
        assert [] + later == later;
        DispatchIsFold(decode, w, events[1..]);
      } else {
        var next := DeliverText(decode, w, payload.value);
        DispatchIsFold(decode, next, events[1..]);
        DeliverTextIsFold(decode, w, payload.value);
        assert ([payload.value] + later)[1..] == later;
        FoldConcat(w, Heard(decode, payload.value), Messages(decode, later));
      }
    }
  }

  /**
   * What a whole stream tells the waiters, without naming how: every new settlement repeats, in id, failure and
   * body, the first message about a pending request among the messages of the stream's texts, in the order of
   * those messages; and a pending request still waits exactly if no message was about it.
   */
  lemma WaitersAreToldRight(decode: Decoder, w: Waiters, split: Split)
    ensures Tells(w, Outcome(decode, w, split), Messages(decode, Texts(split)))
  {
    var tail := TrimEnd(TrimStart(split.rest));
    var v := DispatchAll(decode, w, split.events);
    DispatchIsFold(decode, w, split.events);
    if tail == "" {
      assert Texts(split) == Payloads(split.events);
    } else {
      DeliverTextIsFold(decode, v, tail);
      MessagesConcat(decode, Payloads(split.events), [tail]);
      assert Messages(decode, [tail]) == Heard(decode, tail) + [] == Heard(decode, tail);
      FoldConcat(w, Messages(decode, Payloads(split.events)), Heard(decode, tail));
    }
    FoldTells(w, Messages(decode, Texts(split)));
  }

  // -------- Reading back what was written --------

  /** Text that fits on one data line as it is. */
  predicate Clean(line: string) { '\n' !in line && '\r' !in line && TrimStart(line) == line }

  predicate IsPad(pad: string) { forall i | 0 <= i < |pad| :: pad[i] == ' ' }

  function DataLine(pad: string, line: string): string { DATA + pad + line }

  /** An event with one data line per line of text. */
  function WriteEvent(pad: string, lines: seq<string>): string
    requires lines != []
  {
    if |lines| == 1 then DataLine(pad, lines[0])
    else DataLine(pad, lines[0]) + "\n" + WriteEvent(pad, lines[1..])
  }

  function DataLines(pad: string, lines: seq<string>): seq<string> {
    if lines == [] then [] else [DataLine(pad, lines[0])] + DataLines(pad, lines[1..])
  }

  predicate AllClean(lines: seq<string>) { forall k | 0 <= k < |lines| :: Clean(lines[k]) }

  lemma {:induction false} LinesOfText(line: string, text: string, rest: string)
    requires '\n' !in text
    ensures Lines(line, text + rest) == Lines(line + text, rest)
    decreases |text|
  {
    if text == "" {
      assert text + rest == rest && line + text == line;
    } else {
      assert (text + rest)[1..] == text[1..] + rest;
      LinesOfText(line + [text[0]], text[1..], rest);
      assert line + [text[0]] + text[1..] == line + text;
    }
  }

  lemma DataLineIsALine(pad: string, line: string)
    requires IsPad(pad) && Clean(line)
    ensures var d := DataLine(pad, line);
            '\n' !in d && Chomp(d) == d && LfOnly(d) && |d| > 4 && d[0] == 'd' && d[|d| - 1] != '\n'
  {
  }

  lemma LinesOfOne(line: string)
    requires '\n' !in line
    ensures Lines("", line) == [line]
  {
    assert line + "" == line && "" + line == line;
    LinesOfText("", line, "");
  }

  lemma LinesOfMore(line: string, rest: string)
    requires '\n' !in line && Chomp(line) == line
    ensures Lines("", line + "\n" + rest) == [line] + Lines("", rest)
  {
    assert line + "\n" + rest == line + ("\n" + rest) && "" + line == line;
    LinesOfText("", line, "\n" + rest);
    assert ("\n" + rest)[1..] == rest;
  }

  lemma {:induction false} LinesOfWritten(pad: string, lines: seq<string>)
    requires IsPad(pad) && lines != [] && AllClean(lines)
    ensures Lines("", WriteEvent(pad, lines)) == DataLines(pad, lines)
    decreases |lines|
  {
    DataLineIsALine(pad, lines[0]);
    if |lines| == 1 {
      LinesOfOne(DataLine(pad, lines[0]));
    } else {
      LinesOfMore(DataLine(pad, lines[0]), WriteEvent(pad, lines[1..]));
      LinesOfWritten(pad, lines[1..]);
    }
  }

  lemma {:induction false} PadIsTrimmed(pad: string, line: string)
    requires IsPad(pad) && TrimStart(line) == line
    ensures TrimStart(pad + line) == line
    decreases |pad|
  {
    if pad == "" {
      assert pad + line == line;
    } else {
      assert (pad + line)[1..] == pad[1..] + line;
      PadIsTrimmed(pad[1..], line);
    }
  }

  lemma DataOfLine(pad: string, line: string)
    requires IsPad(pad) && Clean(line)
    ensures DATA <= DataLine(pad, line) && TrimStart(DataLine(pad, line)[|DATA|..]) == line
  {
    var d := DataLine(pad, line);
    assert d[..|DATA|] == DATA && d[|DATA|..] == pad + line;
    PadIsTrimmed(pad, line);
  }

  lemma {:induction false} DataOfWritten(pad: string, lines: seq<string>)
    requires IsPad(pad) && AllClean(lines)
    ensures DataOf(DataLines(pad, lines)) == lines
    decreases |lines|
  {
    if lines != [] {
      DataOfLine(pad, lines[0]);
      DataOfWritten(pad, lines[1..]);
    }
  }

  lemma {:induction false} JoinedLinesSplitBack(lines: seq<string>)
    requires lines != [] && AllClean(lines)
    ensures Lines("", JoinLines(lines)) == lines
    decreases |lines|
  {
    assert Clean(lines[0]);
    if |lines| == 1 {
      LinesOfOne(lines[0]);
    } else {
      LinesOfMore(lines[0], JoinLines(lines[1..]));
      JoinedLinesSplitBack(lines[1..]);
    }
  }

  /** The payload of a written event is its lines joined by LF, a text whose lines are again the written ones. */
  lemma PayloadOfWritten(pad: string, lines: seq<string>)
    requires IsPad(pad) && lines != [] && AllClean(lines)
    ensures PayloadOf(WriteEvent(pad, lines)) == Some(JoinLines(lines))
    ensures Lines("", JoinLines(lines)) == lines
  {
    LinesOfWritten(pad, lines);
    DataOfWritten(pad, lines);
    JoinedLinesSplitBack(lines);
  }

  /** A whole stream of such events, each closed by an LF blank line. */
  function WriteStream(pad: string, events: seq<seq<string>>): string
    requires forall i | 0 <= i < |events| :: events[i] != []
  {
    if events == [] then "" else WriteEvent(pad, events[0]) + "\n\n" + WriteStream(pad, events[1..])
  }

  predicate Writable(pad: string, events: seq<seq<string>>) {
    IsPad(pad) && forall i | 0 <= i < |events| :: events[i] != [] && AllClean(events[i])
  }

  lemma SolidJoin(head: string, later: string)
    requires '\n' !in head && later != "" && later[0] != '\n' && forall j :: !At(later, LfLf, j)
    ensures forall j :: !At(head + "\n" + later, LfLf, j)
  {
    var e := head + "\n" + later;
    forall j ensures !At(e, LfLf, j) {
      if 0 <= j < |head| { assert e[j] == head[j]; }
      if j > |head| { assert At(e, LfLf, j) ==> At(later, LfLf, j - |head| - 1); }
    }
  }

  /** A written event has no blank line, does not end in a line ending and holds no CR. */
  lemma {:induction false} WrittenEventIsSolid(pad: string, lines: seq<string>)
    requires IsPad(pad) && lines != [] && AllClean(lines)
    ensures var e := WriteEvent(pad, lines);
            LfOnly(e) && |e| > 4 && e[0] == 'd' && e[|e| - 1] != '\n' && forall j :: !At(e, LfLf, j)
    decreases |lines|
  {
    DataLineIsALine(pad, lines[0]);
    if |lines| > 1 {
      WrittenEventIsSolid(pad, lines[1..]);
      SolidJoin(DataLine(pad, lines[0]), WriteEvent(pad, lines[1..]));
    }
  }

  lemma CutAfterSolid(e: string, rest: string)
    requires |e| > 0 && e[|e| - 1] != '\n' && forall j :: !At(e, LfLf, j)
    ensures FindCut(e + "\n\n" + rest) == Cut(|e|, 2)
  {
    var b := e + "\n\n" + rest;
    assert At(b, LfLf, |e|);
    forall j | 0 <= j < |e| ensures !At(b, LfLf, j) {
      assert b[j] == e[j];
      if j + 1 < |e| { assert At(b, LfLf, j) ==> At(e, LfLf, j); }
    }
  }

  function WrittenEvents(pad: string, events: seq<seq<string>>): seq<string>
    requires forall i | 0 <= i < |events| :: events[i] != []
  {
    if events == [] then [] else [WriteEvent(pad, events[0])] + WrittenEvents(pad, events[1..])
  }

  lemma ExtractAfterSolid(e: string, rest: string)
    requires |e| > 0 && e[|e| - 1] != '\n' && forall j :: !At(e, LfLf, j)
    ensures Extract(e + "\n\n" + rest) == Prepend(e, Extract(rest))
  {
    var whole := e + "\n\n" + rest;
    CutAfterSolid(e, rest);
    assert whole[..|e|] == e && whole[|e| + 2..] == rest;
    Unfold(whole, Cut(|e|, 2), e, rest);
  }

  lemma {:induction false} ExtractWritten(pad: string, events: seq<seq<string>>)
    requires Writable(pad, events)
    ensures Extract(WriteStream(pad, events)) == Split(WrittenEvents(pad, events), "")
    decreases |events|
  {
    if events != [] {
      assert AllClean(events[0]);
      WrittenEventIsSolid(pad, events[0]);
      ExtractWritten(pad, events[1..]);
      ExtractAfterSolid(WriteEvent(pad, events[0]), WriteStream(pad, events[1..]));
    }
  }

  lemma {:induction false} WrittenIsLfOnly(pad: string, events: seq<seq<string>>)
    requires Writable(pad, events)
    ensures LfOnly(WriteStream(pad, events))
    decreases |events|
  {
    if events != [] {
      assert AllClean(events[0]);
      WrittenEventIsSolid(pad, events[0]);
      WrittenIsLfOnly(pad, events[1..]);
    }
  }

  /** The texts that were written, one per event. */
  function Written(events: seq<seq<string>>): seq<string> {
    if events == [] then [] else [JoinLines(events[0])] + Written(events[1..])
  }

  lemma {:induction false} PayloadsOfWritten(pad: string, events: seq<seq<string>>)
    requires Writable(pad, events)
    ensures Payloads(WrittenEvents(pad, events)) == Written(events)
    decreases |events|
  {
    if events != [] {
      assert AllClean(events[0]);
      PayloadOfWritten(pad, events[0]);
      PayloadsOfWritten(pad, events[1..]);
      assert WrittenEvents(pad, events)[1..] == WrittenEvents(pad, events[1..]);
    }
  }

  /**
   * The round trip: a stream written as events with data lines, in whatever chunks it arrives, hands exactly the
   * written texts to the decoder, in order, and leaves nothing over.
   */
  lemma WrittenStreamsAreReadBack(pad: string, events: seq<seq<string>>, chunks: seq<string>)
    requires Writable(pad, events) && Concat(chunks) == WriteStream(pad, events)
    ensures Texts(Chunked("", chunks)) == Written(events)
  {
    ExtractWritten(pad, events);
    WrittenIsLfOnly(pad, events);
    PayloadsOfWritten(pad, events);
    OneLineEndingIsIndependent(WriteStream(pad, events));
    assert Chunked("", chunks) == Extract(WriteStream(pad, events));
    assert Written(events) + [] == Written(events);
  }

  // -------- Trimming --------

  /** Trimming takes white space off both ends, all of it, and nothing else. */
  lemma {:induction false} TrimStartMeaning(s: string) returns (a: nat)
    ensures a <= |s| && TrimStart(s) == s[a..] && (forall i | 0 <= i < a :: IsSpace(s[i]))
    ensures a < |s| ==> !IsSpace(s[a])
  {
    if s != "" && IsSpace(s[0]) {
      var b := TrimStartMeaning(s[1..]);
      a := b + 1;
      assert s[a..] == s[1..][b..];
      assert forall i | 0 < i < a :: s[i] == s[1..][i - 1];
    } else {
      a := 0;
    }
  }

  lemma {:induction false} TrimEndMeaning(s: string) returns (b: nat)
    ensures b <= |s| && TrimEnd(s) == s[..b] && (forall i | b <= i < |s| :: IsSpace(s[i]))
    ensures b > 0 ==> !IsSpace(s[b - 1])
  {
    b := |s|;
    if s != "" {
      var before, c := s[..|s| - 1], s[|s| - 1];
      assert s == before + [c];
      TrimEndLast(before, c);
      if IsSpace(c) {
        b := TrimEndMeaning(before);
        assert s[..b] == before[..b];
      }
    }
  }
}
