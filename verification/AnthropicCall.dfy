/**
 The streaming call as a whole: the body arrives in pieces, is read as server-sent events, and every
 event is processed as soon as it is complete.
 */
module AnthropicCall {
  import opened AnthropicStream
  import opened Common
  import opened SseEvents
  import opened StreamMerge

  const START := StreamState(map[], false, "")

  /** `decode` parses the data of an event and finds out what it is. */
  function Decoded(es: seq<SseEvent>, decode: SseEvent -> Event): (r: seq<Event>)
    ensures |r| == |es|
  {
    seq(|es|, i requires 0 <= i < |es| => decode(es[i]))
  }

  function AllEvents(body: string): seq<SseEvent> { InBody(body) + AfterBody(body) }

  /** An event that stops the reading, or throws, while the body is still being read makes the HTTP client report a
      cancelled request, and that fails the call. What an event dispatched after the body says about going on is
      not looked at. */
  function Called(body: string, decode: SseEvent -> Event): Result {
    var r := OnEvents(START, Decoded(InBody(body), decode));
    if r.Throws? || !r.more then Failure else Streamed(Decoded(AllEvents(body), decode))
  }

  // ---- The reader ----------------------------------------------------------------------------

  class SseReader {
    const state: AnthropicStreamState
    const decode: SseEvent -> Event
    var lineBuffer: string
    var eventType: string
    var eventData: string
    var shouldContinue: bool
    var callbackFailed: bool
    /** Everything read, the lines handled, and the events dispatched. */
    ghost var input: string
    ghost var scanned: seq<string>
    ghost var seen: seq<SseEvent>

    /** The state has processed the events dispatched. */
    ghost predicate Processed()
      reads `seen, `shouldContinue, `callbackFailed, state
    {
      var r := OnEvents(START, Decoded(seen, decode));
      if callbackFailed then r.Throws? && !shouldContinue else r == Reply(state.View(), state.chunks, shouldContinue)
    }

    /** The lines handled gave these events, and this one in the making. */
    ghost predicate Collects()
      reads `scanned, `seen, `eventType, `eventData
    {
      Scanned(scanned) == Scan(seen, Pending(eventType, eventData))
    }

    ghost predicate Valid()
      reads this, state
    {
      && Processed() && Collects() && LeftOf(input, scanned, lineBuffer)
      && (shouldContinue ==> '\n' !in lineBuffer)
    }

    constructor (state: AnthropicStreamState, decode: SseEvent -> Event)
      requires state.View() == START && state.chunks == []
      ensures Valid() && shouldContinue && input == "" && scanned == [] && this.state == state && this.decode == decode
    {
      this.state, this.decode := state, decode;
      lineBuffer, eventType, eventData, shouldContinue, callbackFailed := "", "", "", true, false;
      input, scanned, seen := "", [], [];
    }

    method FlushEvent()
      requires shouldContinue && Processed()
      modifies this, state
      ensures Processed() && lineBuffer == old(lineBuffer) && input == old(input) && scanned == old(scanned)
      ensures seen == old(seen) + Dispatched(old(Pending(eventType, eventData)))
      ensures Pending(eventType, eventData) == Cleared(old(Pending(eventType, eventData)))
    {
      if eventData == "" { return; }
      var event := decode(SseEvent(eventType, eventData));
      ProcessedOneMore(seen, SseEvent(eventType, eventData), decode);
      var more, throws := state.ProcessEvent(event);
      if throws {
        callbackFailed := true;
        shouldContinue := false;
      } else if !more {
        shouldContinue := false;
      }
      seen := seen + [SseEvent(eventType, eventData)];
      eventType, eventData := "", "";
    }

    /** One line without its line feed. */
    method HandleLine(full: string)
      requires shouldContinue && Processed() && Collects()
      modifies this, state
      ensures Processed() && lineBuffer == old(lineBuffer) && input == old(input) && scanned == old(scanned) + [full]
      ensures Collects()
    {
      hide Processed, Dispatched, Cleared, Scanned, FieldValue, Stripped;
      ScannedOneMore(scanned, full);
      StrippedIs(full);
      var line := full;
      if line != "" && line[|line| - 1] == '\r' { line := line[..|line| - 1]; }
      if line == "" {
        FlushEvent();
      } else if ":" <= line {
      } else if "data:" <= line {
        FieldValueIs(line, 5);
        var payload := line[5..];
        if payload != "" && payload[0] == ' ' { payload := payload[1..]; }
        if eventData != "" { eventData := eventData + "\n"; }
        eventData := eventData + payload;
      } else if "event:" <= line {
        FieldValueIs(line, 6);
        eventType := line[6..];
        if eventType != "" && eventType[0] == ' ' { eventType := eventType[1..]; }
      }
      scanned := scanned + [full];
    }

    /** Handles complete lines until there are none or an event stops the reading, and drops them from the buffer. */
    method ProcessAvailableLines()
      requires Processed() && Collects() && LeftOf(input, scanned, lineBuffer)
      modifies this, state
      ensures Valid() && input == old(input) && old(scanned) <= scanned
    {
      hide Processed, Collects, LeftOf;
      var consumed := 0;
      assert lineBuffer[0..] == lineBuffer;
      while shouldContinue
        invariant 0 <= consumed <= |lineBuffer|
        invariant Processed() && Collects() && LeftOf(input, scanned, lineBuffer[consumed..])
        invariant input == old(input) && old(scanned) <= scanned
        decreases |lineBuffer| - consumed
      {
        var newline := Find(lineBuffer, consumed);
        if newline == |lineBuffer| {
          assert '\n' !in lineBuffer[consumed..];
          break;
        }
        NextLine(input, scanned, lineBuffer, consumed, newline);
        var line := lineBuffer[consumed..newline];
        consumed := newline + 1;
        HandleLine(line);
      }
      lineBuffer := lineBuffer[consumed..];
    }

    /** One piece of the body; the answer tells the HTTP client whether to go on. */
    method OnChunk(data: string) returns (more: bool)
      requires Valid() && shouldContinue
      modifies this, state
      ensures Valid() && input == old(input) + data && more == shouldContinue
    {
      hide Processed, Collects, LeftOf;
      MoreInput(input, scanned, lineBuffer, data);
      lineBuffer := lineBuffer + data;
      input := input + data;
      ProcessAvailableLines();
      more := shouldContinue;
    }

    /** What happens once the body has been read: the last line needs no line feed, the last event no blank line. */
    method Finish()
      requires Valid() && shouldContinue
      modifies this, state
      ensures Processed() && seen == AllEvents(old(input))
    {
      hide OnEvents, Decoded, OnLine, CutLines;
      ghost var body, lines, rest, events := input, scanned, lineBuffer, seen;
      NoLineLeft(rest);
      assert CutLines(body) == Cut(lines, rest) by { assert lines + [] == lines; }
      if lineBuffer != "" {
        MoreInput(input, scanned, lineBuffer, "\n");
        lineBuffer := lineBuffer + "\n";
        input := input + "\n";
        ProcessAvailableLines();
        LastLine(body, lines, rest, scanned, lineBuffer);
        if shouldContinue { NoLineLeft(lineBuffer); }
        assert scanned == lines + [rest];
        ScannedOneMore(lines, rest);
        EventsByLine(Scanned(lines), rest);
        if !shouldContinue {
          assert seen != events;
          assert seen[..|events|] == events;
          assert Dispatched(Pending(eventType, eventData)) == [] && seen + [] == seen;
        }
      }
      AllEventsByRest(body, lines, rest);
      if shouldContinue { FlushEvent(); }
    }
  }

  lemma StrippedIs(line: string)
    ensures Stripped(line) == if line != "" && line[|line| - 1] == '\r' then line[..|line| - 1] else line
  {}

  lemma FieldValueIs(line: string, n: nat)
    requires n <= |line|
    ensures FieldValue(line, n) ==
            if line[n..] != "" && line[n..][0] == ' ' then line[n..][1..] else line[n..]
  {}

  lemma NoLineLeft(s: string)
    requires '\n' !in s
    ensures CutLines(s) == Cut([], s)
  {}

  /** A line feed after the last line completes that line, and no other. */
  lemma LastLine(body: string, lines: seq<string>, rest: string, scanned: seq<string>, left: string)
    requires CutLines(body) == Cut(lines, rest) && '\n' !in rest
    requires LeftOf(body + "\n", scanned, left) && lines <= scanned
    ensures scanned + CutLines(left).lines == lines + [rest]
    ensures scanned == lines || scanned == lines + [rest]
  {
    CutAppend(body, "\n");
    FirstLineEnd(rest + "\n", |rest|);
    assert (rest + "\n")[..|rest|] == rest && (rest + "\n")[|rest| + 1..] == "";
    assert CutLines("") == Cut([], "");
    assert [rest] + [] == [rest];
  }

  lemma AllEventsByRest(body: string, lines: seq<string>, rest: string)
    requires CutLines(body) == Cut(lines, rest)
    ensures var t := if rest == "" then Scanned(lines) else OnLine(Scanned(lines), rest);
            AllEvents(body) == t.events + Dispatched(t.pending)
  {
    hide OnLine, Dispatched;
    var s := Scanned(lines);
    var t := if rest == "" then s else OnLine(s, rest);
    EventsByLine(s, rest);
    assert t.events == s.events + t.events[|s.events|..];
    Regroup(s.events, t.events[|s.events|..], Dispatched(t.pending));
  }

  /** The lines handled and what is left make up the input. */
  ghost predicate LeftOf(input: string, scanned: seq<string>, left: string) {
    CutLines(input) == Cut(scanned + CutLines(left).lines, CutLines(left).rest)
  }

  lemma NextLine(input: string, scanned: seq<string>, s: string, from: nat, k: nat)
    requires from <= k < |s| && k == Find(s, from) && LeftOf(input, scanned, s[from..])
    ensures LeftOf(input, scanned + [s[from..k]], s[k + 1..])
  {
    hide CutLines, Find;
    LineAt(s, from, k);
    Regroup(scanned, [s[from..k]], CutLines(s[k + 1..]).lines);
  }

  lemma LineAt(s: string, from: nat, k: nat)
    requires from <= k < |s| && k == Find(s, from)
    ensures CutLines(s[from..]) == Cut([s[from..k]] + CutLines(s[k + 1..]).lines, CutLines(s[k + 1..]).rest)
  {
    hide CutLines, Find;
    var t := s[from..];
    assert t[k - from] == '\n' && forall i | 0 <= i < k - from :: t[i] == s[from + i];
    FirstLineEnd(t, k - from);
    assert t[..k - from] == s[from..k] && t[k - from + 1..] == s[k + 1..];
  }

  /** Input that arrives behind a buffer without a line feed. */
  lemma MoreInput(input: string, scanned: seq<string>, buffer: string, data: string)
    requires '\n' !in buffer && LeftOf(input, scanned, buffer)
    ensures LeftOf(input + data, scanned, buffer + data)
  {
    assert CutLines(buffer) == Cut([], buffer);
    assert scanned + [] == scanned;
    CutAppend(input, data);
  }

  lemma ScannedOneMore(lines: seq<string>, line: string)
    ensures Scanned(lines + [line]) == OnLine(Scanned(lines), line)
  {
    assert (lines + [line])[..|lines|] == lines;
  }

  lemma DecodedAppend(es: seq<SseEvent>, fs: seq<SseEvent>, decode: SseEvent -> Event)
    ensures Decoded(es + fs, decode) == Decoded(es, decode) + Decoded(fs, decode)
  {}

  /** Processing one event more. */
  lemma ProcessedOneMore(es: seq<SseEvent>, e: SseEvent, decode: SseEvent -> Event)
    ensures OnEvents(START, Decoded(es + [e], decode)) ==
            match OnEvents(START, Decoded(es, decode))
            case Throws => Throws
            case Reply(s, chunks, more) =>
              if !more then Reply(s, chunks, more) else
                match OnEvent(s, decode(e))
                case Throws => Throws
                case Reply(s', chunks', more') => Reply(s', chunks + chunks', more')
  {
    DecodedAppend(es, [e], decode);
    assert Decoded([e], decode) == [decode(e)];
    OnEventsAppend(START, Decoded(es, decode), [decode(e)]);
    var r := OnEvents(START, Decoded(es, decode));
    if r.Reply? { OneEvent(r.state, decode(e)); }
  }

  // ---- The call -----------------------------------------------------------------------------------

  /** A stream that has stopped stays as it is. */
  lemma StoppedStays(es: seq<SseEvent>, all: seq<SseEvent>, decode: SseEvent -> Event)
    requires es <= all
    requires var r := OnEvents(START, Decoded(es, decode)); r.Throws? || !r.more
    ensures OnEvents(START, Decoded(all, decode)) == OnEvents(START, Decoded(es, decode))
  {
    var rest := all[|es|..];
    assert all == es + rest;
    DecodedAppend(es, rest, decode);
    OnEventsAppend(START, Decoded(es, decode), Decoded(rest, decode));
  }

  method CallChatStream(chunks: seq<string>, decode: SseEvent -> Event) returns (r: Result)
    ensures r == Called(Concat(chunks), decode)
  {
    hide OnEvents, Decoded, Assembled, CutLines, LeftOf;
    ghost var body := Concat(chunks);
    var state := new AnthropicStreamState();
    var reader := new SseReader(state, decode);
    for i := 0 to |chunks|
      invariant fresh(state) && fresh(reader) && reader.state == state && reader.decode == decode
      invariant reader.Valid() && reader.shouldContinue && reader.input == Concat(chunks[..i])
    {
      assert chunks[..i + 1][..i] == chunks[..i];
      var more := reader.OnChunk(chunks[i]);
      if !more {
        StopsInBody(reader.input, reader.scanned, reader.lineBuffer, chunks, i + 1);
        StoppedStays(reader.seen, InBody(body), decode);
        return Failure;
      }
    }
    assert chunks[..|chunks|] == chunks;
    GoesOnInBody(body, reader.scanned, reader.lineBuffer);
    reader.Finish();
    if reader.callbackFailed { return Failure; }
    if state.streamError != "" { return Failure; }
    if !state.finishedSent {
      state.chunks := state.chunks + [Chunk("", EMPTY, true)];
    }
    var response := RunChatOnce(state.chunks);
    r := Answer(response);
  }

  /** The lines handled so far are lines of the body. */
  lemma StopsInBody(input: string, scanned: seq<string>, left: string, chunks: seq<string>, i: nat)
    requires i <= |chunks| && input == Concat(chunks[..i]) && LeftOf(input, scanned, left)
    ensures Scanned(scanned).events <= InBody(Concat(chunks))
  {
    ScannedPrefix(scanned, CutLines(left).lines);
    ConcatSplit(chunks, i);
    InBodyPrefix(input, Concat(chunks[i..]));
  }

  lemma {:induction false} ConcatSplit(chunks: seq<string>, i: nat)
    requires i <= |chunks|
    ensures Concat(chunks) == Concat(chunks[..i]) + Concat(chunks[i..])
    decreases |chunks|
  {
    if i == |chunks| {
      assert chunks[..i] == chunks && Concat(chunks) + [] == Concat(chunks);
    } else {
      var n := |chunks| - 1;
      ConcatSplit(chunks[..n], i);
      assert chunks[..n][..i] == chunks[..i] && chunks[..n][i..] == chunks[i..][..n - i];
      Regroup(Concat(chunks[..i]), Concat(chunks[i..][..n - i]), chunks[n]);
    }
  }

  lemma GoesOnInBody(body: string, scanned: seq<string>, left: string)
    requires LeftOf(body, scanned, left) && '\n' !in left
    ensures InBody(body) == Scanned(scanned).events
  {
    NoLineLeft(left);
    assert scanned + [] == scanned;
  }

  // ---- When the call answers ------------------------------------------------------------------------

  /** For a body that carries a message: the call answers, with what the events say, exactly if the end of the message
      comes last and no blank line follows it; otherwise it fails, whatever the message. */
  lemma CallAnswersIff(body: string, decode: SseEvent -> Event, es: seq<Event>, blocks: seq<Block>, after: seq<Event>)
    requires Serialises(es, blocks) && Decoded(AllEvents(body), decode) == es + ([MessageStop] + after)
    ensures var cut := CutLines(body);
            Called(body, decode) ==
            if after == [] && (Unfinished(cut.lines) || HasData(cut.rest))
            then Streamed(es + ([MessageStop] + after)) else Failure
  {
    hide Streamed, CutLines, Unfinished, HasData;
    AfterBodyIff(body);
    var all, n := es + ([MessageStop] + after), |InBody(body)|;
    DecodedAppend(InBody(body), AfterBody(body), decode);
    AccumulatesDescription(es, blocks);
    assert all == Decoded(InBody(body), decode) + Decoded(AfterBody(body), decode);
    if n <= |es| {
      assert es == all[..n] + es[n..] && all[..n] == Decoded(InBody(body), decode);
      OnEventsAppend(START, all[..n], es[n..]);
    } else {
      var tail := after[..n - |es| - 1];
      assert Decoded(InBody(body), decode) == all[..n] == es + ([MessageStop] + tail);
      OnEventsAppend(START, es, [MessageStop] + tail);
    }
  }

  /** A body that ends in a blank line, as the format asks for, always fails. */
  lemma WellFormedBodyFails(front: string, decode: SseEvent -> Event, es: seq<Event>, blocks: seq<Block>,
      after: seq<Event>)
    requires Serialises(es, blocks) && Decoded(AllEvents(front + "\n\n"), decode) == es + ([MessageStop] + after)
    ensures Called(front + "\n\n", decode) == Failure
  {
    hide Called, CutLines;
    CallAnswersIff(front + "\n\n", decode, es, blocks, after);
    BlankEndLeavesNothing(front);
    AfterBodyIff(front + "\n\n");
  }
}
