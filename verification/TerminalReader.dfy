/**
 The reader of a driver end to end: what the shell prints goes through the parser, and each of its
 callbacks to the job the driver is busy with.
 */
module TerminalReader {
  import opened Common
  import opened Jobs
  import opened SentinelFrames
  import opened SentinelParser

  /** One callback. `now` matters only to an END frame, and `groupOf` is the system's answer to getpgid. */
  function Handled(l: Local, token: string, e: Event, now: nat, groupOf: int -> int): Local {
    match e
    case Output(text) => OnOutput(l, text)
    case Pid(t, id, pid) => OnPid(l, t == token, id, pid, groupOf(pid))
    case End(t, id, code) => OnEnd(l, t == token, id, code, now)
  }

  function HandledAll(l: Local, token: string, es: seq<Event>, now: nat, groupOf: int -> int): Local
    decreases |es|
  {
    if es == [] then l else HandledAll(Handled(l, token, es[0], now, groupOf), token, es[1..], now, groupOf)
  }

  lemma {:induction false} HandledAppend(l: Local, token: string, es: seq<Event>, fs: seq<Event>, now: nat,
      groupOf: int -> int)
    ensures HandledAll(l, token, es + fs, now, groupOf) ==
            HandledAll(HandledAll(l, token, es, now, groupOf), token, fs, now, groupOf)
    decreases |es|
  {
    hide Handled;
    if es == [] {
      assert es + fs == fs;
    } else {
      assert (es + fs)[1..] == es[1..] + fs;
      HandledAppend(Handled(l, token, es[0], now, groupOf), token, es[1..], fs, now, groupOf);
    }
  }

  // ---- The grouping of output plays no part -----------------------------------------------------

  lemma OutputJoins(l: Local, s: string, t: string)
    ensures OnOutput(OnOutput(l, s), t) == OnOutput(l, s + t)
    ensures OnOutput(l, "") == l
  {
    if s == "" { assert s + t == t; }
    if t == "" { assert s + t == s; }
    if l.current.Some? && l.current.value.jobId in l.jobs {
      var j := l.jobs[l.current.value.jobId];
      assert (j.output + s) + t == j.output + (s + t);
    }
  }

  lemma JoinHandled(l: Local, token: string, e: Event, ms: seq<Event>, now: nat, groupOf: int -> int)
    ensures HandledAll(l, token, Join(e, ms), now, groupOf) ==
            HandledAll(Handled(l, token, e, now, groupOf), token, ms, now, groupOf)
  {
    hide OnOutput;
    if e.Output? && e.text == "" {
      OutputJoins(l, "", "");
    } else if e.Output? && ms != [] && ms[0].Output? {
      OutputJoins(l, e.text, ms[0].text);
      assert ([Output(e.text + ms[0].text)] + ms[1..])[1..] == ms[1..];
    } else {
      assert ([e] + ms)[1..] == ms;
    }
  }

  /** What the callbacks do to the job depends only on the events with adjacent outputs merged. */
  lemma {:induction false} MergedHandled(l: Local, token: string, es: seq<Event>, now: nat, groupOf: int -> int)
    ensures HandledAll(l, token, es, now, groupOf) == HandledAll(l, token, Merged(es), now, groupOf)
    decreases |es|
  {
    hide Handled, Join;
    if es != [] {
      MergedHandled(Handled(l, token, es[0], now, groupOf), token, es[1..], now, groupOf);
      JoinHandled(l, token, es[0], Merged(es[1..]), now, groupOf);
    }
  }

  // ---- A job from its first frame to its last -----------------------------------------------------

  /** What a shell prints for one job. */
  function JobText(token: string, id: JobId, pid: int, words: string, code: int): seq<Item> {
    [StartFrame(token, id, pid), Words(words), EndFrame(token, id, code)]
  }

  predicate Fits(i: Item) { Printable(i) && (!i.Words? ==> |Print(i)| <= MAX_PENDING + 1) }

  /** However the chunks cut it, what the shell prints for the current job leaves that job with its output extended by
      exactly the words, finished with its code, and the driver idle; no other job is touched and nothing stays in the
      parser. */
  lemma JobRunsThrough(l: Local, token: string, p: Pending, pid: int, words: string, code: int, chunks: seq<string>,
                       now: nat, groupOf: int -> int)
    requires l.current == Some(p) && p.jobId in l.jobs
    requires forall i | i in JobText(token, p.jobId, pid, words, code) :: Fits(i)
    requires Concat(chunks) == PrintAll(JobText(token, p.jobId, pid, words, code))
    ensures Run(chunks).pending == ""
    ensures var job := l.jobs[p.jobId];
            var status := if code == 124 then Timeout else Finished;
            HandledAll(l, token, Callbacks(Run(chunks).pieces), now, groupOf) ==
            Local(l.jobs[p.jobId := Job(status, code, job.output + words, now)], None)
  {
    hide Run, Callbacks, Print, PrintAll, Printable;
    var items := JobText(token, p.jobId, pid, words, code);
    assert 0 < pid by { PidIsPositive(items[0]); }
    PrintedItemsComeBack(items, chunks);
    MergedHandled(l, token, Callbacks(Run(chunks).pieces), now, groupOf);
    MergedHandled(l, token, ItemEvents(items), now, groupOf);
    EventsOfJob(token, p.jobId, pid, words, code);
    hide ItemEvents, Merged;
    JobHandled(l, token, p, pid, words, code, now, groupOf);
  }

  lemma PidIsPositive(i: Item)
    requires i.StartFrame? && Fits(i)
    ensures 0 < i.pid
  {}

  lemma EventsOfJob(token: string, id: JobId, pid: int, words: string, code: int)
    ensures ItemEvents(JobText(token, id, pid, words, code)) ==
            [Pid(token, id, pid), Output(words), End(token, id, code)]
  {
    var i0, i1, i2 := StartFrame(token, id, pid), Words(words), EndFrame(token, id, code);
    assert [i0, i1, i2][1..] == [i1, i2] && [i1, i2][1..] == [i2] && [i2][1..] == [];
    assert ItemEvents([i2]) == [End(token, id, code)];
    assert ItemEvents([i1, i2]) == [Output(words), End(token, id, code)];
  }

  lemma JobHandled(l: Local, token: string, p: Pending, pid: int, words: string, code: int, now: nat,
      groupOf: int -> int)
    requires l.current == Some(p) && p.jobId in l.jobs && 0 < pid
    ensures var job := l.jobs[p.jobId];
            var status := if code == 124 then Timeout else Finished;
            HandledAll(l, token, [Pid(token, p.jobId, pid), Output(words), End(token, p.jobId, code)], now, groupOf) ==
            Local(l.jobs[p.jobId := Job(status, code, job.output + words, now)], None)
  {
    var e0, e1, e2 := Pid(token, p.jobId, pid), Output(words), End(token, p.jobId, code);
    var l1 := Handled(l, token, e0, now, groupOf);
    var l2 := Handled(l1, token, e1, now, groupOf);
    assert l1.jobs == l.jobs && IsCurrent(l1, p.jobId);
    if words == "" { assert l.jobs[p.jobId].output + words == l.jobs[p.jobId].output; }
    assert l2.jobs == l.jobs[p.jobId := l.jobs[p.jobId].(output := l.jobs[p.jobId].output + words)];
    assert IsCurrent(l2, p.jobId);
    assert [e0, e1, e2][1..] == [e1, e2] && [e1, e2][1..] == [e2] && [e2][1..] == [];
    assert HandledAll(l2, token, [e2], now, groupOf) == Handled(l2, token, e2, now, groupOf);
    assert HandledAll(l1, token, [e1, e2], now, groupOf) == HandledAll(l2, token, [e2], now, groupOf);
  }

  // ---- The loop of the reader ----------------------------------------------------------------------

  /** Every callback that a stream in these chunks gives, the final flush included. */
  function StreamEvents(chunks: seq<string>): seq<Event> {
    Callbacks(Run(chunks).pieces) + (if Run(chunks).pending == "" then [] else [Output(Run(chunks).pending)])
  }

  method HandleAll(driver: LocalPtyDriver, es: seq<Event>, now: nat, groupOf: int -> int)
    modifies driver, driver.store
    ensures driver.View() == HandledAll(old(driver.View()), driver.sessionToken, es, now, groupOf)
  {
    hide OnOutput, OnPid, OnEnd;
    ghost var before := driver.View();
    for i := 0 to |es|
      invariant driver.View() == HandledAll(before, driver.sessionToken, es[..i], now, groupOf)
    {
      HandledOneMore(before, driver.sessionToken, es, i, now, groupOf);
      match es[i]
      case Output(text) => driver.HandleOutput(text);
      case Pid(token, id, pid) => driver.HandlePid(token, id, pid, groupOf);
      case End(token, id, code) => driver.HandleEnd(token, id, code, now);
    }
    assert es[..|es|] == es;
  }

  lemma HandledOneMore(l: Local, token: string, es: seq<Event>, i: nat, now: nat, groupOf: int -> int)
    requires i < |es|
    ensures HandledAll(l, token, es[..i + 1], now, groupOf) ==
            Handled(HandledAll(l, token, es[..i], now, groupOf), token, es[i], now, groupOf)
  {
    hide Handled;
    assert es[..i + 1] == es[..i] + [es[i]] && [es[i]][1..] == [];
    HandledAppend(l, token, es[..i], [es[i]], now, groupOf);
  }

  /** Reads until the stream ends, flushes the parser, and gives up on a job that is still current. */
  method ReadLoop(driver: LocalPtyDriver, chunks: seq<string>, now: nat, groupOf: int -> int)
    modifies driver, driver.store
    ensures driver.View() ==
            Finalise(HandledAll(old(driver.View()), driver.sessionToken, StreamEvents(chunks), now, groupOf), now)
  {
    hide HandledAll, Callbacks, Bytes, FeedInto, Finalise;
    ghost var before, token := driver.View(), driver.sessionToken;
    var parser := new Parser();
    var handled := 0;
    NothingRead(before, token, now, groupOf);
    for i := 0 to |chunks|
      invariant parser.Valid() && fresh(parser) && handled == |parser.events|
      invariant parser.trace == Run(chunks[..i]).pieces && parser.buf == Run(chunks[..i]).pending
      invariant driver.View() == HandledAll(before, token, parser.events, now, groupOf)
    {
      assert chunks[..i + 1][..i] == chunks[..i];
      ghost var trace, events := parser.trace, parser.events;
      parser.Feed(chunks[i]);
      CallbacksAppend(trace, parser.trace[|trace|..]);
      assert parser.trace == trace + parser.trace[|trace|..];
      assert parser.events == events + parser.events[handled..];
      HandledAppend(before, token, events, parser.events[handled..], now, groupOf);
      HandleAll(driver, parser.events[handled..], now, groupOf);
      handled := |parser.events|;
    }
    assert chunks[..|chunks|] == chunks;
    ghost var trace, events := parser.trace, parser.events;
    parser.FlushRemaining();
    FlushedEvents(trace, parser.trace, Run(chunks).pending);
    assert parser.events == events + parser.events[handled..] == StreamEvents(chunks);
    HandledAppend(before, token, events, parser.events[handled..], now, groupOf);
    HandleAll(driver, parser.events[handled..], now, groupOf);
    driver.FinaliseCurrent(now);
  }

  lemma NothingRead(l: Local, token: string, now: nat, groupOf: int -> int)
    ensures Callbacks([]) == [] && HandledAll(l, token, [], now, groupOf) == l
  {}

  lemma FlushedEvents(trace: seq<Piece>, flushed: seq<Piece>, pending: string)
    requires flushed == if pending == "" then trace else trace + [Text(pending)]
    ensures Callbacks(flushed) == Callbacks(trace) + (if pending == "" then [] else [Output(pending)])
  {
    if pending != "" { CallbacksSnoc(trace, Text(pending)); }
  }
}
