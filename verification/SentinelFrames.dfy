/**
 The control frames inside a terminal's output stream: how one is recognised at the front of a
 buffer, and how a buffer is drained of text and complete frames.
 */
module SentinelFrames {
  import opened Common
  import opened Decimal

  const FRAME_START: char := '\U{1E}'
  const FIELD_SEPARATOR: char := '\U{1F}'
  const START_TAG: string := "VELIX_START"
  const END_TAG: string := "VELIX_END"
  const MAX_PENDING: nat := 4096

  const LONG_MAX: int := 0x7FFF_FFFF_FFFF_FFFF
  const INT_MAX: int := 0x7FFF_FFFF

  /** The callbacks of the parser. */
  datatype Event =
    | Output(text: string)
    | Pid(token: string, jobId: string, pid: int)
    | End(token: string, jobId: string, exitCode: int)

  /** What a stretch of the stream is taken to be: text to pass on, or one whole frame. */
  datatype Piece = Text(bytes: string) | Frame(bytes: string)

  /** The first position of `c` in `s` from `from` on, or |s|. */
  function Find(s: string, c: char, from: nat): (k: nat)
    requires from <= |s|
    ensures from <= k <= |s| && (k < |s| ==> s[k] == c)
    decreases |s| - from
  {
    if from == |s| || s[from] == c then from else Find(s, c, from + 1)
  }

  lemma {:induction false} FindIsFirst(s: string, c: char, from: nat)
    requires from <= |s|
    ensures forall i | from <= i < Find(s, c, from) :: s[i] != c
    decreases |s| - from
  {
    if from < |s| && s[from] != c { FindIsFirst(s, c, from + 1); }
  }

  lemma {:induction false} FindAt(s: string, c: char, from: nat, k: nat)
    requires from <= k <= |s| && (forall i | from <= i < k :: s[i] != c) && (k < |s| ==> s[k] == c)
    ensures Find(s, c, from) == k
    decreases k - from
  {
    if from < k { FindAt(s, c, from + 1, k); }
  }

  /** Fields that each end in a separator, and the position after the last one. */
  datatype Fields = Missing | Fields(values: seq<string>, end: nat)

  function CutFields(s: string, from: nat, n: nat): (f: Fields)
    requires from <= |s|
    ensures f.Fields? ==> from + n <= f.end <= |s| && |f.values| == n
    decreases n
  {
    if n == 0 then Fields([], from)
    else
      var k := Find(s, FIELD_SEPARATOR, from);
      if k == |s| then Missing
      else
        match CutFields(s, k + 1, n - 1)
        case Missing => Missing
        case Fields(values, end) => Fields([s[from..k]] + values, end)
  }

  /** The result of looking for a frame at the front of a buffer. */
  datatype Parsed =
    | Incomplete
    | Skip  // no known tag: the frame start is ordinary text
    | Complete(size: nat, tag: string, token: string, jobId: string, number: string)

  function TryParse(buf: string): (p: Parsed)
    requires buf != [] && buf[0] == FRAME_START
    ensures p.Complete? ==> 0 < p.size <= |buf|
  {
    match CutFields(buf, 1, 1)
    case Missing => Incomplete
    case Fields(tags, tagEnd) =>
      if tags[0] != START_TAG && tags[0] != END_TAG then Skip
      else
        match CutFields(buf, tagEnd, 3)
        case Missing => Incomplete
        case Fields(fields, end) => Complete(end, tags[0], fields[0], fields[1], fields[2])
  }

  /** The callback of a complete frame; a start frame whose pid is not positive has none. */
  function FrameEvents(tag: string, token: string, jobId: string, number: string): seq<Event> {
    if tag == START_TAG then
      var pid := match Parse(number, -LONG_MAX - 1, LONG_MAX) case Some(n) => n case None => -1;
      if pid > 0 then [Pid(token, jobId, pid)] else []
    else
      [End(token, jobId, match Parse(number, -INT_MAX - 1, INT_MAX) case Some(n) => n case None => 0)]
  }

  function PieceEvents(p: Piece): seq<Event> {
    match p
    case Text(bytes) => [Output(bytes)]
    case Frame(bytes) =>
      if bytes != [] && bytes[0] == FRAME_START && TryParse(bytes).Complete? then
        var f := TryParse(bytes);
        FrameEvents(f.tag, f.token, f.jobId, f.number)
      else []
  }

  function Callbacks(ps: seq<Piece>): seq<Event> {
    if ps == [] then [] else PieceEvents(ps[0]) + Callbacks(ps[1..])
  }

  function Bytes(ps: seq<Piece>): string {
    if ps == [] then [] else ps[0].bytes + Bytes(ps[1..])
  }

  datatype Drained = Drained(pieces: seq<Piece>, rest: string)

  /** Takes everything off the front of `buf` up to the first incomplete frame. */
  function Drain(buf: string): Drained
    decreases |buf|
  {
    if buf == [] then Drained([], [])
    else if buf[0] != FRAME_START then
      var pos := Find(buf, FRAME_START, 0);
      Prepend(Text(buf[..pos]), Drain(buf[pos..]))
    else
      match TryParse(buf)
      case Incomplete => Drained([], buf)
      case Skip => Prepend(Text(buf[..1]), Drain(buf[1..]))
      case Complete(n, _, _, _, _) => Prepend(Frame(buf[..n]), Drain(buf[n..]))
  }

  function Prepend(p: Piece, d: Drained): Drained { Drained([p] + d.pieces, d.rest) }

  // ---- Recognition does not depend on what follows ---------------------------------------

  lemma {:induction false} FindStable(s: string, more: string, c: char, from: nat)
    requires from <= |s| && Find(s, c, from) < |s|
    ensures Find(s + more, c, from) == Find(s, c, from)
    decreases |s| - from
  {
    if s[from] != c { FindStable(s, more, c, from + 1); }
  }

  lemma {:induction false} CutFieldsStable(s: string, more: string, from: nat, n: nat)
    requires from <= |s| && CutFields(s, from, n).Fields?
    ensures CutFields(s + more, from, n) == CutFields(s, from, n)
    decreases n
  {
    if n > 0 {
      hide Find;
      var k := Find(s, FIELD_SEPARATOR, from);
      FindStable(s, more, FIELD_SEPARATOR, from);
      CutFieldsStable(s, more, k + 1, n - 1);
      assert (s + more)[from..k] == s[from..k];
    }
  }

  lemma TryParseStable(buf: string, more: string)
    requires buf != [] && buf[0] == FRAME_START && !TryParse(buf).Incomplete?
    ensures TryParse(buf + more) == TryParse(buf)
  {
    hide CutFields;
    CutFieldsStable(buf, more, 1, 1);
    if TryParse(buf).Complete? { CutFieldsStable(buf, more, CutFields(buf, 1, 1).end, 3); }
  }

  lemma {:induction false} CutFieldsOwn(s: string, from: nat, n: nat, end: nat)
    requires from <= |s| && CutFields(s, from, n).Fields? && CutFields(s, from, n).end <= end <= |s|
    ensures from <= end && CutFields(s[..end], from, n) == CutFields(s, from, n)
    decreases n
  {
    if n > 0 {
      hide Find;
      var k := Find(s, FIELD_SEPARATOR, from);
      FindIsFirst(s, FIELD_SEPARATOR, from);
      FindAt(s[..end], FIELD_SEPARATOR, from, k);
      CutFieldsOwn(s, k + 1, n - 1, end);
      assert s[..end][from..k] == s[from..k];
    }
  }

  /** A complete frame is recognised from its own bytes alone. */
  lemma TryParseOwnBytes(buf: string)
    requires buf != [] && buf[0] == FRAME_START && TryParse(buf).Complete?
    ensures TryParse(buf[..TryParse(buf).size]) == TryParse(buf)
  {
    hide CutFields;
    var n := TryParse(buf).size;
    CutFieldsOwn(buf, 1, 1, n);
    CutFieldsOwn(buf, CutFields(buf, 1, 1).end, 3, n);
  }

  // ---- Draining in two steps --------------------------------------------------------------

  /** The same pieces with every text cut into single bytes: what is left when only the bytes passed on and
      the frames recognised matter, not how the text was grouped. */
  function Flat(ps: seq<Piece>): seq<Piece> {
    if ps == [] then [] else (if ps[0].Text? then Singles(ps[0].bytes) else [ps[0]]) + Flat(ps[1..])
  }

  function Singles(s: string): seq<Piece> {
    if s == [] then [] else [Text([s[0]])] + Singles(s[1..])
  }

  lemma {:induction false} FlatAppend(ps: seq<Piece>, qs: seq<Piece>)
    ensures Flat(ps + qs) == Flat(ps) + Flat(qs)
  {
    if ps == [] {
      assert ps + qs == qs;
    } else {
      assert (ps + qs)[1..] == ps[1..] + qs;
      FlatAppend(ps[1..], qs);
    }
  }

  lemma {:induction false} SinglesAppend(s: string, t: string)
    ensures Singles(s + t) == Singles(s) + Singles(t)
  {
    if s == [] {
      assert s + t == t;
    } else {
      assert (s + t)[1..] == s[1..] + t;
      SinglesAppend(s[1..], t);
    }
  }

  lemma FlatPrepend(p: Piece, d: Drained)
    ensures Flat(Prepend(p, d).pieces) == (if p.Text? then Singles(p.bytes) else [p]) + Flat(d.pieces)
  {
    assert ([p] + d.pieces)[1..] == d.pieces;
  }

  /** What one step of draining takes, and as what; nothing at an incomplete frame. */
  function Next(buf: string): (p: Piece)
    requires buf != [] && (buf[0] == FRAME_START ==> !TryParse(buf).Incomplete?)
    ensures 0 < |p.bytes| <= |buf| && p.bytes == buf[..|p.bytes|]
  {
    if buf[0] != FRAME_START then Text(buf[..Find(buf, FRAME_START, 0)])
    else if TryParse(buf).Skip? then Text(buf[..1])
    else Frame(buf[..TryParse(buf).size])
  }

  predicate Stuck(buf: string) {
    buf == [] || (buf[0] == FRAME_START && TryParse(buf).Incomplete?)
  }

  lemma DrainUnfolds(buf: string)
    ensures Stuck(buf) ==> Drain(buf) == Drained([], buf)
    ensures !Stuck(buf) ==> Drain(buf) == Prepend(Next(buf), Drain(buf[|Next(buf).bytes|..]))
    ensures !Stuck(buf) ==>
              Flat(Drain(buf).pieces) ==
              (if Next(buf).Text? then Singles(Next(buf).bytes) else [Next(buf)]) +
              Flat(Drain(buf[|Next(buf).bytes|..]).pieces)
  {
    if !Stuck(buf) { FlatPrepend(Next(buf), Drain(buf[|Next(buf).bytes|..])); }
  }

  lemma FindInAppend(s: string, more: string, c: char)
    requires c !in s
    ensures Find(s + more, c, 0) == |s| + Find(more, c, 0)
  {
    FindIsFirst(more, c, 0);
    FindAt(s + more, c, 0, |s| + Find(more, c, 0));
  }

  /** Text without a frame start goes straight through, whatever follows it. */
  lemma DrainText(s: string, more: string)
    requires FRAME_START !in s
    ensures Drain(s + more).rest == Drain(more).rest
    ensures Flat(Drain(s + more).pieces) == Singles(s) + Flat(Drain(more).pieces)
  {
    hide TryParse, Find, Drain, Flat, Singles;
    var buf, k := s + more, Find(more, FRAME_START, 0);
    if s == [] {
      assert buf == more && Singles(s) == [] by { SinglesEmpty(); }
      assert Singles(s) + Flat(Drain(more).pieces) == Flat(Drain(more).pieces);
    } else {
      FindInAppend(s, more, FRAME_START);
      DrainUnfolds(buf);
      assert buf[0] == s[0] && s[0] in s;
      assert buf[..|s| + k] == s + more[..k] && buf[|s| + k..] == more[k..];
      SinglesAppend(s, more[..k]);
      DrainTextFront(more);
      Regroup(Singles(s), Singles(more[..k]), Flat(Drain(more[k..]).pieces));
    }
  }

  lemma SinglesEmpty()
    ensures Singles([]) == [] && Flat([]) == []
  {}

  lemma DrainTextFront(more: string)
    ensures var k := Find(more, FRAME_START, 0);
            && Drain(more).rest == Drain(more[k..]).rest
            && Flat(Drain(more).pieces) == Singles(more[..k]) + Flat(Drain(more[k..]).pieces)
  {
    hide TryParse, Drain, Flat, Singles;
    SinglesEmpty();
    DrainUnfolds(more);
    if more == [] || more[0] == FRAME_START {
      assert Find(more, FRAME_START, 0) == 0 && more[0..] == more;
      assert Singles(more[..0]) + Flat(Drain(more).pieces) == Flat(Drain(more).pieces);
    }
  }

  /** Draining in two steps gives what draining at once gives. */
  lemma {:induction false} DrainAppend(buf: string, more: string)
    ensures var d, e := Drain(buf), Drain(Drain(buf).rest + more);
            && Drain(buf + more).rest == e.rest
            && Flat(Drain(buf + more).pieces) == Flat(d.pieces) + Flat(e.pieces)
    decreases |buf|
  {
    hide TryParse, Find, Drain, Flat, Singles;
    DrainUnfolds(buf);
    SinglesEmpty();
    if Stuck(buf) {
      var d, e := Drain(buf), Drain(buf + more);
      assert d == Drained([], buf);
      assert Flat(d.pieces) + Flat(e.pieces) == Flat(e.pieces);
    } else {
      var p := Next(buf);
      var n := |p.bytes|;
      var later := buf[n..];
      DrainAppend(later, more);
      assert buf + more == buf[..n] + (later + more);
      if buf[0] != FRAME_START {
        FindIsFirst(buf, FRAME_START, 0);
        DrainText(p.bytes, later + more);
      } else {
        TryParseStable(buf, more);
        DrainUnfolds(buf + more);
        assert (buf + more)[..n] == p.bytes && (buf + more)[n..] == later + more;
      }
      var front := if p.Text? then Singles(p.bytes) else [p];
      var x, y := Flat(Drain(later).pieces), Flat(Drain(Drain(later).rest + more).pieces);
      Regroup(front, x, y);
    }
  }

  /** Nothing is lost or invented. */
  lemma {:induction false} DrainKeepsBytes(buf: string)
    ensures Bytes(Drain(buf).pieces) + Drain(buf).rest == buf
    decreases |buf|
  {
    hide TryParse, Find, Drain;
    DrainUnfolds(buf);
    if !Stuck(buf) {
      var p := Next(buf);
      var d := Drain(buf[|p.bytes|..]);
      DrainKeepsBytes(buf[|p.bytes|..]);
      assert ([p] + d.pieces)[1..] == d.pieces;
      assert (p.bytes + Bytes(d.pieces)) + d.rest == p.bytes + (Bytes(d.pieces) + d.rest);
      assert buf == p.bytes + buf[|p.bytes|..];
    }
  }

  /** What is left over is an incomplete frame, or nothing. */
  lemma {:induction false} DrainLeavesIncomplete(buf: string)
    ensures Stuck(Drain(buf).rest)
    decreases |buf|
  {
    hide TryParse, Find, Drain;
    DrainUnfolds(buf);
    if !Stuck(buf) { DrainLeavesIncomplete(buf[|Next(buf).bytes|..]); }
  }

  // ---- Events with adjacent outputs merged ---------------------------------------------------

  /** Joins adjacent outputs and drops empty ones. */
  function Merged(es: seq<Event>): seq<Event> {
    if es == [] then [] else Join(es[0], Merged(es[1..]))
  }

  function Join(e: Event, ms: seq<Event>): seq<Event> {
    if !e.Output? then [e] + ms
    else if e.text == [] then ms
    else if ms != [] && ms[0].Output? then [Output(e.text + ms[0].text)] + ms[1..]
    else [e] + ms
  }

  /** Merging does not see how the text was grouped. */
  lemma {:induction false} MergedByFlat(ps: seq<Piece>)
    ensures Merged(Callbacks(ps)) == Merged(Callbacks(Flat(ps)))
  {
    if ps != [] {
      MergedByFlat(ps[1..]);
      if ps[0].Text? {
        MergeSingles(ps[0].bytes, Flat(ps[1..]));
        MergedUnfolds(Output(ps[0].bytes), Callbacks(ps[1..]));
      } else {
        assert ([ps[0]] + Flat(ps[1..]))[1..] == Flat(ps[1..]);
        MergedCons(PieceEvents(ps[0]), Callbacks(ps[1..]), Callbacks(Flat(ps[1..])));
      }
    }
  }

  lemma {:induction false} MergedCons(es: seq<Event>, fs: seq<Event>, gs: seq<Event>)
    requires Merged(fs) == Merged(gs)
    ensures Merged(es + fs) == Merged(es + gs)
  {
    if es == [] {
      assert es + fs == fs && es + gs == gs;
    } else {
      MergedCons(es[1..], fs, gs);
      assert (es + fs)[1..] == es[1..] + fs && (es + gs)[1..] == es[1..] + gs;
    }
  }

  lemma MergedUnfolds(e: Event, es: seq<Event>)
    ensures Merged([e] + es) == Join(e, Merged(es))
  {
    assert ([e] + es)[1..] == es;
  }

  /** An output cut in two merges back. */
  lemma JoinTwice(s: string, t: string, ms: seq<Event>)
    ensures Join(Output(s), Join(Output(t), ms)) == Join(Output(s + t), ms)
  {
    if s == [] { assert s + t == t; }
    if t == [] { assert s + t == s; }
    if ms != [] && ms[0].Output? {
      assert s + (t + ms[0].text) == (s + t) + ms[0].text;
      assert ([Output(t + ms[0].text)] + ms[1..])[1..] == ms[1..];
    } else {
      assert ([Output(t)] + ms)[1..] == ms;
    }
  }

  lemma {:induction false} MergeSingles(s: string, ps: seq<Piece>)
    ensures Merged(Callbacks(Singles(s) + ps)) == Join(Output(s), Merged(Callbacks(ps)))
  {
    hide Merged, Join;
    if s == [] {
      assert Singles(s) + ps == ps;
      JoinEmpty(Merged(Callbacks(ps)));
    } else {
      var tail := Singles(s[1..]) + ps;
      MergeSingles(s[1..], ps);
      assert Singles(s) + ps == [Text([s[0]])] + tail;
      assert ([Text([s[0]])] + tail)[1..] == tail;
      MergedUnfolds(Output([s[0]]), Callbacks(tail));
      JoinTwice([s[0]], s[1..], Merged(Callbacks(ps)));
      assert [s[0]] + s[1..] == s;
    }
  }

  lemma JoinEmpty(ms: seq<Event>)
    ensures Join(Output([]), ms) == ms
  {}
}
