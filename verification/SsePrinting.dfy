/**
 Server-sent events as a provider prints them, and what the reader makes of such a body: the messages, one event
 each.
 */
module SsePrinting {
  import opened Common
  import opened SseEvents

  /** A message with its name and the lines of its data, or a comment; `cr` says how its lines end. */
  datatype Item =
    | Message(name: string, lines: seq<string>, cr: bool)
    | Comment(text: string, cr: bool)

  /** A text that can be printed on one line. */
  predicate OneLine(s: string) {
    '\n' !in s && (s == "" || s[|s| - 1] != '\r')
  }

  predicate Printable(item: Item) {
    match item
    case Message(name, lines, _) => OneLine(name) && forall l | l in lines :: OneLine(l)
    case Comment(text, _) => OneLine(text)
  }

  function Ended(line: string, cr: bool): string { line + if cr then "\r\n" else "\n" }

  function PrintData(lines: seq<string>, cr: bool): string {
    if lines == [] then "" else PrintData(lines[..|lines| - 1], cr) + Ended("data: " + lines[|lines| - 1], cr)
  }

  function PrintFields(name: string, lines: seq<string>, cr: bool): string {
    Ended("event: " + name, cr) + PrintData(lines, cr)
  }

  function Print(item: Item): string {
    match item
    case Message(name, lines, cr) => PrintFields(name, lines, cr) + Ended("", cr)
    case Comment(text, cr) => Ended(":" + text, cr)
  }

  function PrintAll(items: seq<Item>): string {
    if items == [] then "" else PrintAll(items[..|items| - 1]) + Print(items[|items| - 1])
  }

  // ---- The messages ----------------------------------------------------------------------------

  function JoinedLines(lines: seq<string>): string {
    if lines == [] then ""
    else if |lines| == 1 then lines[0]
    else JoinedLines(lines[..|lines| - 1]) + "\n" + lines[|lines| - 1]
  }

  /** Empty data lines in front of the others are lost. */
  function FromFirstFull(lines: seq<string>): seq<string> {
    if lines != [] && lines[0] == "" then FromFirstFull(lines[1..]) else lines
  }

  function EventsOf(item: Item): seq<SseEvent> {
    if item.Message? && FromFirstFull(item.lines) != []
    then [SseEvent(item.name, JoinedLines(FromFirstFull(item.lines)))] else []
  }

  function AllEventsOf(items: seq<Item>): seq<SseEvent> {
    if items == [] then [] else AllEventsOf(items[..|items| - 1]) + EventsOf(items[|items| - 1])
  }

  // ---- Line by line ------------------------------------------------------------------------------

  /** Reading a text that consists of complete lines, after others. */
  ghost predicate Reads(text: string, before: Scan, after: Scan) {
    && CutLines(text).rest == ""
    && forall lines | Scanned(lines) == before :: Scanned(lines + CutLines(text).lines) == after
  }

  lemma ReadsLine(line: string, cr: bool, before: Scan)
    requires '\n' !in line
    ensures Reads(Ended(line, cr), before, OnLine(before, if cr then line + "\r" else line))
  {
    hide OnLine;
    var full := if cr then line + "\r" else line;
    assert Ended(line, cr) == full + "\n";
    FirstLineEnd(full + "\n", |full|);
    assert (full + "\n")[..|full|] == full && (full + "\n")[|full| + 1..] == "";
    assert CutLines("") == Cut([], "") && [full] + [] == [full];
    forall lines | Scanned(lines) == before ensures Scanned(lines + [full]) == OnLine(before, full) {
      assert (lines + [full])[..|lines|] == lines;
    }
  }

  lemma ReadsNothing(s: Scan)
    ensures Reads("", s, s)
  {
    forall lines | Scanned(lines) == s ensures Scanned(lines + CutLines("").lines) == s {
      assert lines + [] == lines;
    }
  }

  lemma ReadsBoth(x: string, y: string, a: Scan, b: Scan, c: Scan)
    requires Reads(x, a, b) && Reads(y, b, c)
    ensures Reads(x + y, a, c)
  {
    hide CutLines, Scanned;
    CutAppend(x, y);
    assert "" + y == y;
    var p, q := CutLines(x).lines, CutLines(y).lines;
    forall lines | Scanned(lines) == a ensures Scanned(lines + (p + q)) == c {
      Regroup(lines, p, q);
    }
  }

  // ---- One message ---------------------------------------------------------------------------------

  lemma OnPrintedLine(s: Scan, line: string, cr: bool)
    requires OneLine(line)
    ensures Stripped(if cr then line + "\r" else line) == line
  {}

  lemma {:induction false} JoinedOneMore(lines: seq<string>, line: string)
    ensures var before := JoinedLines(FromFirstFull(lines));
            JoinedLines(FromFirstFull(lines + [line])) == (if before == "" then "" else before + "\n") + line
    decreases |lines|
  {
    if lines == [] {
      assert [line][1..] == [];
    } else if lines[0] == "" {
      assert (lines + [line])[1..] == lines[1..] + [line];
      JoinedOneMore(lines[1..], line);
    } else {
      assert FromFirstFull(lines + [line]) == lines + [line];
      assert (lines + [line])[..|lines|] == lines;
      JoinedIsFull(lines);
    }
  }

  lemma {:induction false} JoinedIsFull(lines: seq<string>)
    requires lines != [] && lines[0] != ""
    ensures JoinedLines(lines) != ""
  {
    if |lines| > 1 { JoinedIsFull(lines[..|lines| - 1]); }
  }

  lemma {:induction false} JoinedIffAny(lines: seq<string>)
    ensures JoinedLines(FromFirstFull(lines)) == "" <==> FromFirstFull(lines) == []
  {
    if lines != [] && lines[0] == "" { JoinedIffAny(lines[1..]); }
    else if lines != [] { JoinedIsFull(lines); }
  }

  lemma OnDataLine(s: Scan, line: string, cr: bool)
    requires OneLine(line)
    ensures OnLine(s, if cr then "data: " + line + "\r" else "data: " + line) ==
            var before := s.pending.data;
            Scan(s.events, Pending(s.pending.event, (if before == "" then "" else before + "\n") + line))
  {
    var full := "data: " + line;
    OnPrintedLine(s, full, cr);
    assert full[5..] == " " + line && full[5] == ' ' && full[6..] == line && full[0] == 'd';
    assert "data:" <= full;
  }

  lemma OnNameLine(s: Scan, name: string, cr: bool)
    requires OneLine(name)
    ensures OnLine(s, if cr then "event: " + name + "\r" else "event: " + name) ==
            Scan(s.events, Pending(name, s.pending.data))
  {
    var full := "event: " + name;
    OnPrintedLine(s, full, cr);
    assert full[6] == ' ' && full[7..] == name && full[0] == 'e';
    assert "event:" <= full;
  }

  lemma OnComment(s: Scan, text: string, cr: bool)
    requires OneLine(text)
    ensures OnLine(s, if cr then ":" + text + "\r" else ":" + text) == s
  {
    OnPrintedLine(s, ":" + text, cr);
    assert (":" + text)[0] == ':';
  }

  lemma {:induction false} ReadsData(name: string, lines: seq<string>, cr: bool, es: seq<SseEvent>)
    requires forall l | l in lines :: OneLine(l)
    ensures Reads(PrintData(lines, cr), Scan(es, Pending(name, "")),
                  Scan(es, Pending(name, JoinedLines(FromFirstFull(lines)))))
  {
    hide Reads, OnLine;
    var start := Scan(es, Pending(name, ""));
    if lines == [] {
      ReadsNothing(start);
    } else {
      var init, last := lines[..|lines| - 1], lines[|lines| - 1];
      ReadsData(name, init, cr, es);
      var middle := Scan(es, Pending(name, JoinedLines(FromFirstFull(init))));
      assert last in lines && '\n' !in "data: ";
      ReadsLine("data: " + last, cr, middle);
      OnDataLine(middle, last, cr);
      JoinedOneMore(init, last);
      assert init + [last] == lines;
      ReadsBoth(PrintData(init, cr), Ended("data: " + last, cr), start, middle,
                Scan(es, Pending(name, JoinedLines(FromFirstFull(lines)))));
    }
  }

  lemma ReadsFields(name: string, lines: seq<string>, cr: bool, es: seq<SseEvent>, p: Pending)
    requires OneLine(name) && (forall l | l in lines :: OneLine(l)) && p.data == ""
    ensures Reads(PrintFields(name, lines, cr), Scan(es, p), Scan(es, Pending(name, JoinedLines(FromFirstFull(lines)))))
  {
    hide Reads, OnLine, PrintData, JoinedLines, FromFirstFull;
    ReadsLine("event: " + name, cr, Scan(es, p));
    OnNameLine(Scan(es, p), name, cr);
    ReadsData(name, lines, cr, es);
    ReadsBoth(Ended("event: " + name, cr), PrintData(lines, cr), Scan(es, p), Scan(es, Pending(name, "")),
              Scan(es, Pending(name, JoinedLines(FromFirstFull(lines)))));
  }

  /** A printed item adds its events and leaves no data behind. */
  lemma ReadsItem(item: Item, es: seq<SseEvent>, p: Pending) returns (q: Pending)
    requires Printable(item) && p.data == ""
    ensures q.data == "" && Reads(Print(item), Scan(es, p), Scan(es + EventsOf(item), q))
  {
    hide Reads, PrintFields;
    match item
    case Comment(text, cr) =>
      ReadsLine(":" + text, cr, Scan(es, p));
      OnComment(Scan(es, p), text, cr);
      assert es + [] == es;
      q := p;
    case Message(name, lines, cr) =>
      ReadsFields(name, lines, cr, es, p);
      JoinedIffAny(lines);
      var middle := Scan(es, Pending(name, JoinedLines(FromFirstFull(lines))));
      ReadsLine("", cr, middle);
      assert "" + "\r" == "\r";
      q := Cleared(middle.pending);
      ReadsBoth(PrintFields(name, lines, cr), Ended("", cr), Scan(es, p), middle, Scan(es + EventsOf(item), q));
  }

  lemma {:induction false} ReadsAll(items: seq<Item>) returns (q: Pending)
    requires forall item | item in items :: Printable(item)
    ensures q.data == "" && Reads(PrintAll(items), Scan([], NOTHING), Scan(AllEventsOf(items), q))
  {
    hide Reads, Print, EventsOf, Printable;
    if items == [] {
      ReadsNothing(Scan([], NOTHING));
      q := NOTHING;
    } else {
      var init, last := items[..|items| - 1], items[|items| - 1];
      var p := ReadsAll(init);
      q := ReadsItem(last, AllEventsOf(init), p);
      ReadsBoth(PrintAll(init), Print(last), Scan([], NOTHING), Scan(AllEventsOf(init), p),
                Scan(AllEventsOf(items), q));
    }
  }

  // ---- Whole bodies ----------------------------------------------------------------------------------

  lemma ScannedFrom(body: string, after: Scan)
    requires Reads(body, Scan([], NOTHING), after)
    ensures Scanned(CutLines(body).lines) == after
  {
    assert [] + CutLines(body).lines == CutLines(body).lines;
    assert Scanned([]) == Scan([], NOTHING);
  }

  /** The printed messages come back, one event each, as soon as their blank line is there. */
  lemma PrintedMessagesComeBack(items: seq<Item>)
    requires forall item | item in items :: Printable(item)
    ensures InBody(PrintAll(items)) == AllEventsOf(items) && AfterBody(PrintAll(items)) == []
  {
    hide Reads, PrintAll, Printable;
    var q := ReadsAll(items);
    ScannedFrom(PrintAll(items), Scan(AllEventsOf(items), q));
    ReadsRest(PrintAll(items), Scan([], NOTHING), Scan(AllEventsOf(items), q));
  }

  lemma ReadsRest(text: string, before: Scan, after: Scan)
    requires Reads(text, before, after)
    ensures CutLines(text).rest == ""
  {}

  /** A last message without its blank line comes back too, but only when the body has ended. */
  lemma LastMessageComesBack(items: seq<Item>, name: string, lines: seq<string>, cr: bool)
    requires forall item | item in items :: Printable(item)
    requires Printable(Message(name, lines, cr))
    ensures var body := PrintAll(items) + PrintFields(name, lines, cr);
            InBody(body) == AllEventsOf(items) && AfterBody(body) == EventsOf(Message(name, lines, cr))
  {
    hide Reads, PrintAll, PrintFields, CutLines;
    var body := PrintAll(items) + PrintFields(name, lines, cr);
    var p := ReadsAll(items);
    var middle := Scan(AllEventsOf(items), p);
    var after := Scan(AllEventsOf(items), Pending(name, JoinedLines(FromFirstFull(lines))));
    ReadsFields(name, lines, cr, AllEventsOf(items), p);
    ReadsBoth(PrintAll(items), PrintFields(name, lines, cr), Scan([], NOTHING), middle, after);
    ReadsRest(body, Scan([], NOTHING), after);
    ScannedFrom(body, after);
    JoinedIffAny(lines);
  }

  /** Not even the last line needs its line end. */
  lemma UnendedLineComesBack(items: seq<Item>, name: string, lines: seq<string>, last: string, cr: bool)
    requires forall item | item in items :: Printable(item)
    requires Printable(Message(name, lines, cr)) && OneLine(last)
    ensures var body := PrintAll(items) + PrintFields(name, lines, cr) + ("data: " + last);
            InBody(body) == AllEventsOf(items) && AfterBody(body) == EventsOf(Message(name, lines + [last], cr))
  {
    hide Reads, PrintAll, PrintFields, CutLines, OnLine;
    var front, line := PrintAll(items) + PrintFields(name, lines, cr), "data: " + last;
    var p := ReadsAll(items);
    var middle := Scan(AllEventsOf(items), p);
    var after := Scan(AllEventsOf(items), Pending(name, JoinedLines(FromFirstFull(lines))));
    ReadsFields(name, lines, cr, AllEventsOf(items), p);
    ReadsBoth(PrintAll(items), PrintFields(name, lines, cr), Scan([], NOTHING), middle, after);
    ReadsRest(front, Scan([], NOTHING), after);
    ScannedFrom(front, after);
    assert '\n' !in "data: ";
    AppendLine(front, line);
    OnDataLine(after, last, false);
    JoinedOneMore(lines, last);
    JoinedIffAny(lines + [last]);
  }

  lemma AppendLine(front: string, line: string)
    requires CutLines(front).rest == "" && '\n' !in line
    ensures CutLines(front + line) == Cut(CutLines(front).lines, line)
  {
    CutAppend(front, line);
    assert "" + line == line && CutLines(line) == Cut([], line);
    assert CutLines(front).lines + [] == CutLines(front).lines;
  }

  /** A message comes back with its own data exactly if its first line is not empty. */
  lemma MessageComesBackIff(name: string, lines: seq<string>, cr: bool)
    requires lines != []
    ensures EventsOf(Message(name, lines, cr)) == [SseEvent(name, JoinedLines(lines))] <==> lines[0] != ""
  {
    if lines[0] == "" {
      if |lines| > 1 {
        JoinedCons(lines);
        ShorterWithout(lines[1..]);
        assert FromFirstFull(lines) == FromFirstFull(lines[1..]);
        assert |JoinedLines(FromFirstFull(lines))| < |JoinedLines(lines)|;
        DifferentData(name, JoinedLines(FromFirstFull(lines)), JoinedLines(lines));
      } else {
        assert lines[1..] == [];
      }
    }
  }

  lemma DifferentData(name: string, x: string, y: string)
    requires |x| < |y|
    ensures [SseEvent(name, x)] != [SseEvent(name, y)]
  {
    assert [SseEvent(name, x)][0].data != [SseEvent(name, y)][0].data;
  }

  lemma {:induction false} JoinedCons(lines: seq<string>)
    requires |lines| > 1
    ensures JoinedLines(lines) == lines[0] + "\n" + JoinedLines(lines[1..])
  {
    var n := |lines| - 1;
    if n > 1 {
      JoinedCons(lines[..n]);
      assert lines[..n][1..] == lines[1..][..n - 1];
    } else {
      assert lines[1..] == [lines[1]] && lines[..1] == [lines[0]];
    }
  }

  lemma {:induction false} ShorterWithout(lines: seq<string>)
    ensures |JoinedLines(FromFirstFull(lines))| <= |JoinedLines(lines)|
  {
    if lines != [] && lines[0] == "" {
      if |lines| > 1 { JoinedCons(lines); }
      ShorterWithout(lines[1..]);
    }
  }
}
