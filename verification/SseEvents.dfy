/**
 Server-sent events: how a response body is cut into lines and the lines into events.
 */
module SseEvents {
  import opened Common

  datatype SseEvent = SseEvent(event: string, data: string)

  /** The lines that end in a line feed, and what follows the last of them. */
  datatype Cut = Cut(lines: seq<string>, rest: string)

  function Find(s: string, from: nat): (k: nat)
    requires from <= |s|
    ensures from <= k <= |s| && (k < |s| ==> s[k] == '\n') && forall i | from <= i < k :: s[i] != '\n'
    decreases |s| - from
  {
    if from == |s| || s[from] == '\n' then from else Find(s, from + 1)
  }

  function CutLines(s: string): Cut
    decreases |s|
  {
    var k := Find(s, 0);
    if k == |s| then Cut([], s)
    else
      var later := CutLines(s[k + 1..]);
      Cut([s[..k]] + later.lines, later.rest)
  }

  /** A carriage return before the line feed belongs to the line end. */
  function Stripped(line: string): string {
    if line != "" && line[|line| - 1] == '\r' then line[..|line| - 1] else line
  }

  function FieldValue(line: string, n: nat): string
    requires n <= |line|
  {
    if n < |line| && line[n] == ' ' then line[n + 1..] else line[n..]
  }

  /** The event being collected. */
  datatype Pending = Pending(event: string, data: string)

  const NOTHING := Pending("", "")

  function Collect(p: Pending, line: string): Pending {
    if ":" <= line then p
    else if "data:" <= line then p.(data := (if p.data == "" then "" else p.data + "\n") + FieldValue(line, 5))
    else if "event:" <= line then p.(event := FieldValue(line, 6))
    else p
  }

  /** An event without data is never dispatched, and keeps its name. */
  function Dispatched(p: Pending): seq<SseEvent> {
    if p.data == "" then [] else [SseEvent(p.event, p.data)]
  }

  function Cleared(p: Pending): Pending { if p.data == "" then p else NOTHING }

  datatype Scan = Scan(events: seq<SseEvent>, pending: Pending)

  function OnLine(s: Scan, line: string): Scan {
    if Stripped(line) == "" then Scan(s.events + Dispatched(s.pending), Cleared(s.pending))
    else Scan(s.events, Collect(s.pending, Stripped(line)))
  }

  function Scanned(lines: seq<string>): Scan {
    if lines == [] then Scan([], NOTHING) else OnLine(Scanned(lines[..|lines| - 1]), lines[|lines| - 1])
  }

  /** The events dispatched while the body is read, and those dispatched after it. */
  function InBody(body: string): seq<SseEvent> { Scanned(CutLines(body).lines).events }

  function AfterBody(body: string): seq<SseEvent> {
    var cut := CutLines(body);
    var s := Scanned(cut.lines);
    var t := if cut.rest == "" then s else OnLine(s, cut.rest);
    t.events[|s.events|..] + Dispatched(t.pending)
  }

  // ---- Bodies that arrive in pieces -----------------------------------------------------------

  /** Cutting what is left together with what comes gives the same lines as cutting the whole. */
  lemma {:induction false} CutAppend(s: string, more: string)
    ensures var c, d := CutLines(s), CutLines(CutLines(s).rest + more);
            CutLines(s + more) == Cut(c.lines + d.lines, d.rest)
    decreases |s|
  {
    var k := Find(s, 0);
    if k == |s| {
      var d := CutLines(s + more);
      assert [] + d.lines == d.lines;
    } else {
      var later := s[k + 1..];
      CutAppend(later, more);
      assert (s + more)[k + 1..] == later + more && (s + more)[..k] == s[..k];
      FirstLineEnd(s + more, k);
      Regroup([s[..k]], CutLines(later).lines, CutLines(CutLines(later).rest + more).lines);
    }
  }

  lemma {:induction false} FindIs(s: string, from: nat, k: nat)
    requires from <= k < |s| && s[k] == '\n' && forall i | from <= i < k :: s[i] != '\n'
    ensures Find(s, from) == k
    decreases k - from
  {
    if from < k { FindIs(s, from + 1, k); }
  }

  lemma FirstLineEnd(s: string, k: nat)
    requires k < |s| && s[k] == '\n' && forall i | 0 <= i < k :: s[i] != '\n'
    ensures CutLines(s) == Cut([s[..k]] + CutLines(s[k + 1..]).lines, CutLines(s[k + 1..]).rest)
  {
    FindIs(s, 0, k);
  }

  lemma {:induction false} RestHasNoLineEnd(s: string)
    ensures '\n' !in CutLines(s).rest
    decreases |s|
  {
    var k := Find(s, 0);
    if k < |s| { RestHasNoLineEnd(s[k + 1..]); }
  }

  /** More lines only add events. */
  lemma {:induction false} ScannedPrefix(lines: seq<string>, more: seq<string>)
    ensures Scanned(lines).events <= Scanned(lines + more).events
  {
    if more == [] {
      assert lines + more == lines;
    } else {
      var init := more[..|more| - 1];
      ScannedPrefix(lines, init);
      assert (lines + more)[..|lines + more| - 1] == lines + init;
    }
  }

  lemma InBodyPrefix(body: string, more: string)
    ensures InBody(body) <= InBody(body + more)
  {
    CutAppend(body, more);
    ScannedPrefix(CutLines(body).lines, CutLines(CutLines(body).rest + more).lines);
  }

  // ---- When an event waits for the end of the body ------------------------------------------------

  predicate HasData(line: string) {
    "data:" <= Stripped(line) && FieldValue(Stripped(line), 5) != ""
  }

  /** A line with data that no blank line follows. */
  predicate Unfinished(lines: seq<string>) {
    exists i :: 0 <= i < |lines| && OpenFrom(lines, i)
  }

  predicate OpenFrom(lines: seq<string>, i: nat)
    requires i < |lines|
  {
    HasData(lines[i]) && forall j | i < j < |lines| :: Stripped(lines[j]) != ""
  }

  lemma UnfinishedByLast(lines: seq<string>)
    requires lines != []
    ensures var init, last := lines[..|lines| - 1], lines[|lines| - 1];
            Unfinished(lines) <==> Stripped(last) != "" && (HasData(last) || Unfinished(init))
  {
    hide Stripped, FieldValue, HasData;
    var n := |lines| - 1;
    var init, last := lines[..n], lines[n];
    if HasData(last) {
      DataIsNotBlank(last);
      assert OpenFrom(lines, n);
    }
    forall i: nat | i < n ensures OpenFrom(lines, i) <==> OpenFrom(init, i) && Stripped(last) != "" {
      if OpenFrom(lines, i) { assert forall j | i < j < n :: Stripped(init[j]) == Stripped(lines[j]); }
    }
    assert OpenFrom(lines, n) <==> HasData(last);
    hide OpenFrom;
  }

  lemma DataIsNotBlank(line: string)
    requires HasData(line)
    ensures Stripped(line) != ""
  {}

  lemma PendingByLast(s: Scan, line: string)
    ensures OnLine(s, line).pending.data != "" <==> Stripped(line) != "" && (HasData(line) || s.pending.data != "")
  {
    var l := Stripped(line);
    assert ":" <= l ==> l[0] == ':';
    assert "data:" <= l ==> l[0] == 'd';
  }

  lemma EventsByLine(s: Scan, line: string)
    ensures var t := OnLine(s, line);
            && |s.events| <= |t.events| && t.events[..|s.events|] == s.events
            && t.events[|s.events|..] == (if Stripped(line) == "" then Dispatched(s.pending) else [])
            && (Stripped(line) == "" ==> t.pending.data == "")
  {}

  lemma {:induction false} PendingIffUnfinished(lines: seq<string>)
    ensures Scanned(lines).pending.data != "" <==> Unfinished(lines)
  {
    hide OnLine, HasData, Stripped, Unfinished;
    if lines != [] {
      PendingIffUnfinished(lines[..|lines| - 1]);
      UnfinishedByLast(lines);
      PendingByLast(Scanned(lines[..|lines| - 1]), lines[|lines| - 1]);
    } else {
      EmptyIsFinished();
    }
  }

  lemma EmptyIsFinished()
    ensures !Unfinished([])
  {}

  /** At most one event is dispatched after the body, and there is one exactly if a line with data is not followed by
      a blank line that has its line feed. */
  lemma AfterBodyIff(body: string)
    ensures |AfterBody(body)| <= 1
    ensures AfterBody(body) != [] <==>
            var cut := CutLines(body); Unfinished(cut.lines) || HasData(cut.rest)
  {
    hide OnLine, HasData, Stripped, Unfinished, CutLines;
    var cut := CutLines(body);
    var s := Scanned(cut.lines);
    PendingIffUnfinished(cut.lines);
    EventsByLine(s, cut.rest);
    PendingByLast(s, cut.rest);
    EmptyHasNoData();
    if HasData(cut.rest) { DataIsNotBlank(cut.rest); }
  }

  lemma EmptyHasNoData()
    ensures !HasData("")
  {}

  /** A body that ends in a blank line leaves no event for later. */
  lemma BlankEndLeavesNothing(body: string)
    ensures AfterBody(body + "\n\n") == []
  {
    var s := CutLines(body).rest + "\n\n";
    CutAppend(body, "\n\n");
    RestHasNoLineEnd(body);
    var k := |CutLines(body).rest|;
    FirstLineEnd(s, k);
    assert s[k + 1..] == "\n";
    FirstLineEnd("\n", 0);
    assert CutLines(s) == Cut([s[..k], ""], "");
    var lines := CutLines(body).lines + [s[..k], ""];
    PendingIffUnfinished(lines);
    assert lines[|lines| - 1] == "";
    AfterBodyIff(body + "\n\n");
  }
}
