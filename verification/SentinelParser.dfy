/**
 The incremental parser: its buffer, its flood guard, and what its callbacks amount to over a
 whole stream that arrives in chunks.
 */
module SentinelParser {
  import opened Common
  import opened Decimal
  import opened SentinelFrames

  /** The effect of one feed: pieces recognised, bytes still pending, and whether the flood guard fired. */
  datatype Fed = Fed(pieces: seq<Piece>, pending: string, fired: bool)

  function FeedInto(pending: string, data: string): Fed {
    var d := Drain(pending + data);
    if |d.rest| > MAX_PENDING then Fed(d.pieces + [Text(d.rest[..1])], d.rest[1..], true)
    else Fed(d.pieces, d.rest, false)
  }

  /** Feeding a list of chunks into a fresh parser. */
  function Run(chunks: seq<string>): Fed {
    if chunks == [] then Fed([], [], false)
    else
      var before := Run(chunks[..|chunks| - 1]);
      var f := FeedInto(before.pending, chunks[|chunks| - 1]);
      Fed(before.pieces + f.pieces, f.pending, before.fired || f.fired)
  }

  // ---- The loop ----------------------------------------------------------------------------

  class Parser {
    var buf: string
    /** The callbacks fired so far. */
    var events: seq<Event>
    /** What every byte that left the buffer was taken to be. */
    ghost var trace: seq<Piece>
    ghost var input: string

    ghost predicate Valid()
      reads this
    {
      events == Callbacks(trace) && input == Bytes(trace) + buf
    }

    constructor ()
      ensures Valid() && buf == [] && trace == [] && input == []
    {
      buf, events, trace, input := [], [], [], [];
    }

    method Feed(data: string)
      requires Valid()
      modifies this
      ensures Valid() && input == old(input) + data
      ensures var f := FeedInto(old(buf), data);
              trace == old(trace) + f.pieces && buf == f.pending
    {
      hide TryParse, Find, Drain, Callbacks, Bytes, OnTheWay;
      ghost var fed, before := FeedInto(buf, data), trace;
      buf := buf + data;
      input := input + data;
      assert Bytes(trace) + buf == input by { Regroup(Bytes(trace), old(buf), data); }
      ghost var goal := Drain(buf);
      StartsOnTheWay(trace, buf);
      while buf != []
        invariant Valid() && input == old(input) + data
        invariant OnTheWay(before, goal, trace, buf)
        decreases |buf|
      {
        if buf[0] != FRAME_START {
          ghost var front := Next(buf);
          StepsOnTheWay(before, goal, trace, buf);
          var pos := Find(buf, FRAME_START, 0);
          if pos == |buf| {
            assert buf[..pos] == buf;
            Emit(Text(buf), [Output(buf)]);
            break;
          }
          Emit(Text(buf[..pos]), [Output(buf[..pos])]);
        }
        if !TryParse(buf).Incomplete? { StepsOnTheWay(before, goal, trace, buf); }
        var consumed := TryParseFrame();
        if consumed == 0 {
          EndsTheWay(before, goal, trace, buf);
          if |buf| > MAX_PENDING {
            Emit(Text(buf[..1]), [Output(buf[..1])]);
          }
          return;
        }
      }
      EndsTheWay(before, goal, trace, buf);
    }

    /** Fires the callbacks of a piece at the front of the buffer and erases it. */
    method Emit(piece: Piece, callbacks: seq<Event>)
      requires Valid()
      requires piece.bytes <= buf && callbacks == PieceEvents(piece)
      modifies this
      ensures Valid() && trace == old(trace) + [piece] && buf == old(buf)[|piece.bytes|..] && input == old(input)
    {
      hide PieceEvents;
      CallbacksSnoc(trace, piece);
      assert buf == piece.bytes + buf[|piece.bytes|..];
      Regroup(Bytes(trace), piece.bytes, buf[|piece.bytes|..]);
      events := events + callbacks;
      buf := buf[|piece.bytes|..];
      trace := trace + [piece];
    }

    /** Handles the frame at the front of the buffer: how many bytes it took, 0 if it is incomplete. */
    method TryParseFrame() returns (consumed: nat)
      requires Valid() && buf != [] && buf[0] == FRAME_START
      modifies this
      ensures Valid() && input == old(input)
      ensures consumed == 0 <==> TryParse(old(buf)).Incomplete?
      ensures consumed == 0 ==> trace == old(trace) && buf == old(buf)
      ensures consumed > 0 ==> trace == old(trace) + [Next(old(buf))] && buf == old(buf)[|Next(old(buf)).bytes|..] &&
                               consumed == |Next(old(buf)).bytes|
    {
      hide Callbacks, Bytes, TryParse, Find, START_TAG, END_TAG;
      TryParseByPositions(buf);
      if |buf| < 2 { return 0; }
      var tagEnd := Find(buf, FIELD_SEPARATOR, 1);
      if tagEnd == |buf| { return 0; }
      var tag := buf[1..tagEnd];
      if tag != START_TAG && tag != END_TAG {
        Emit(Text(buf[..1]), [Output(buf[..1])]);
        return 1;
      }
      var tokenEnd := Find(buf, FIELD_SEPARATOR, tagEnd + 1);
      if tokenEnd == |buf| { return 0; }
      var idEnd := Find(buf, FIELD_SEPARATOR, tokenEnd + 1);
      if idEnd == |buf| { return 0; }
      var end := Find(buf, FIELD_SEPARATOR, idEnd + 1);
      if end == |buf| { return 0; }
      var token, jobId, number := buf[tagEnd + 1..tokenEnd], buf[tokenEnd + 1..idEnd], buf[idEnd + 1..end];
      TryParseOwnBytes(buf);
      consumed := end + 1;
      Emit(Frame(buf[..consumed]), FrameEvents(tag, token, jobId, number));
    }

    method FlushRemaining()
      requires Valid()
      modifies this
      ensures Valid() && input == old(input) && buf == [] && input == Bytes(trace)
      ensures trace == if old(buf) == [] then old(trace) else old(trace) + [Text(old(buf))]
    {
      if buf != [] {
        Emit(Text(buf), [Output(buf)]);
      }
      assert Bytes(trace) + [] == Bytes(trace);
    }
  }

  /** What is still to be drained from `buf` after `trace` completes `before` and the pieces of `goal`. */
  ghost predicate OnTheWay(before: seq<Piece>, goal: Drained, trace: seq<Piece>, buf: string) {
    before + goal.pieces == trace + Drain(buf).pieces && goal.rest == Drain(buf).rest
  }

  lemma StartsOnTheWay(trace: seq<Piece>, buf: string)
    ensures OnTheWay(trace, Drain(buf), trace, buf)
  {}

  lemma StepsOnTheWay(before: seq<Piece>, goal: Drained, trace: seq<Piece>, buf: string)
    requires OnTheWay(before, goal, trace, buf) && !Stuck(buf)
    ensures OnTheWay(before, goal, trace + [Next(buf)], buf[|Next(buf).bytes|..])
  {
    hide TryParse, Find, Drain, Next;
    DrainUnfolds(buf);
    Regroup(trace, [Next(buf)], Drain(buf[|Next(buf).bytes|..]).pieces);
  }

  lemma EndsTheWay(before: seq<Piece>, goal: Drained, trace: seq<Piece>, buf: string)
    requires OnTheWay(before, goal, trace, buf) && Stuck(buf)
    ensures before + goal.pieces == trace && goal.rest == buf
  {
    hide TryParse, Find, Drain;
    DrainUnfolds(buf);
    assert trace + [] == trace;
  }

  lemma OneField(s: string, from: nat)
    requires from <= |s|
    ensures var k := Find(s, FIELD_SEPARATOR, from);
            CutFields(s, from, 1) == if k == |s| then Missing else Fields([s[from..k]], k + 1)
  {
    hide Find;
    var k := Find(s, FIELD_SEPARATOR, from);
    if k < |s| { assert CutFields(s, k + 1, 0) == Fields([], k + 1); }
  }

  /** Recognition in terms of the separators found one after the other. */
  function ParseByPositions(s: string): Parsed
    requires s != [] && s[0] == FRAME_START
  {
    var tagEnd := Find(s, FIELD_SEPARATOR, 1);
    if tagEnd == |s| then Incomplete
    else if s[1..tagEnd] != START_TAG && s[1..tagEnd] != END_TAG then Skip
    else ParseFields(s, tagEnd)
  }

  function ParseFields(s: string, tagEnd: nat): Parsed
    requires 0 < tagEnd < |s|
  {
    var tokenEnd := Find(s, FIELD_SEPARATOR, tagEnd + 1);
    if tokenEnd == |s| then Incomplete
    else
      var idEnd := Find(s, FIELD_SEPARATOR, tokenEnd + 1);
      if idEnd == |s| then Incomplete
      else
        var end := Find(s, FIELD_SEPARATOR, idEnd + 1);
        if end == |s| then Incomplete
        else Complete(end + 1, s[1..tagEnd], s[tagEnd + 1..tokenEnd], s[tokenEnd + 1..idEnd], s[idEnd + 1..end])
  }

  lemma TryParseByPositions(s: string)
    requires s != [] && s[0] == FRAME_START
    ensures TryParse(s) == ParseByPositions(s)
  {
    hide Find, CutFields, ParseFields, START_TAG, END_TAG;
    OneField(s, 1);
    var tagEnd := Find(s, FIELD_SEPARATOR, 1);
    if tagEnd < |s| { FieldsByPositions(s, tagEnd); }
  }

  lemma FieldsByPositions(s: string, tagEnd: nat)
    requires 0 < tagEnd < |s|
    ensures ParseFields(s, tagEnd) ==
            match CutFields(s, tagEnd + 1, 3)
            case Missing => Incomplete
            case Fields(values, end) => Complete(end, s[1..tagEnd], values[0], values[1], values[2])
  {
    hide Find, CutFields;
    CutFieldsUnfold(s, tagEnd + 1, 3);
    var i := Find(s, FIELD_SEPARATOR, tagEnd + 1);
    if i < |s| {
      CutFieldsUnfold(s, i + 1, 2);
      var j := Find(s, FIELD_SEPARATOR, i + 1);
      if j < |s| { OneField(s, j + 1); }
    }
  }

  lemma CutFieldsUnfold(s: string, from: nat, n: nat)
    requires from <= |s|
    ensures var k := Find(s, FIELD_SEPARATOR, from);
            CutFields(s, from, n) ==
            if n == 0 then Fields([], from)
            else if k == |s| || CutFields(s, k + 1, n - 1).Missing? then Missing
            else Fields([s[from..k]] + CutFields(s, k + 1, n - 1).values, CutFields(s, k + 1, n - 1).end)
  {}

  lemma {:induction false} CallbacksAppend(ps: seq<Piece>, qs: seq<Piece>)
    ensures Callbacks(ps + qs) == Callbacks(ps) + Callbacks(qs)
    ensures Bytes(ps + qs) == Bytes(ps) + Bytes(qs)
  {
    if ps == [] {
      assert ps + qs == qs;
    } else {
      hide PieceEvents;
      assert (ps + qs)[1..] == ps[1..] + qs;
      CallbacksAppend(ps[1..], qs);
      Regroup(PieceEvents(ps[0]), Callbacks(ps[1..]), Callbacks(qs));
      Regroup(ps[0].bytes, Bytes(ps[1..]), Bytes(qs));
    }
  }

  lemma CallbacksSnoc(ps: seq<Piece>, p: Piece)
    ensures Callbacks(ps + [p]) == Callbacks(ps) + PieceEvents(p)
    ensures Bytes(ps + [p]) == Bytes(ps) + p.bytes
  {
    CallbacksAppend(ps, [p]);
    assert [p][1..] == [];
    assert Callbacks([p]) == PieceEvents(p) + [] && Bytes([p]) == p.bytes + [];
  }

  // ---- Byte conservation -------------------------------------------------------------------

  /** After any chunks, guard firing included, the input is the pieces in order and then the pending bytes. */
  lemma {:induction false} RunKeepsBytes(chunks: seq<string>)
    ensures Bytes(Run(chunks).pieces) + Run(chunks).pending == Concat(chunks)
  {
    if chunks != [] {
      hide TryParse, Find, Drain;
      var init, last := chunks[..|chunks| - 1], chunks[|chunks| - 1];
      RunKeepsBytes(init);
      var before := Run(init);
      var f := FeedInto(before.pending, last);
      FeedKeepsBytes(before.pending, last);
      CallbacksAppend(before.pieces, f.pieces);
      Regroup(Bytes(before.pieces), Bytes(f.pieces), f.pending);
      Regroup(Bytes(before.pieces), before.pending, last);
    }
  }

  lemma FeedKeepsBytes(pending: string, data: string)
    ensures Bytes(FeedInto(pending, data).pieces) + FeedInto(pending, data).pending == pending + data
  {
    hide TryParse, Find, Drain;
    var d := Drain(pending + data);
    DrainKeepsBytes(pending + data);
    if |d.rest| > MAX_PENDING {
      CallbacksSnoc(d.pieces, Text(d.rest[..1]));
      assert (Bytes(d.pieces) + d.rest[..1]) + d.rest[1..] == Bytes(d.pieces) + d.rest;
    }
  }

  // ---- Chunk independence ----------------------------------------------------------------------

  /** The guard fires somewhere along the way exactly if some prefix leaves too much undecided. */
  ghost predicate TooMuchPending(chunks: seq<string>) {
    exists i :: 0 <= i <= |chunks| && |Drain(Concat(chunks[..i])).rest| > MAX_PENDING
  }

  /** Without the guard, chunked parsing is draining the whole input at once. */
  lemma {:induction false} QuietRunIsDrain(chunks: seq<string>)
    ensures Run(chunks).fired <==> TooMuchPending(chunks)
    ensures !Run(chunks).fired ==>
              && Run(chunks).pending == Drain(Concat(chunks)).rest
              && Flat(Run(chunks).pieces) == Flat(Drain(Concat(chunks)).pieces)
  {
    hide TryParse, Find, Drain, Flat;
    var n := |chunks|;
    assert chunks[..n] == chunks;
    if n == 0 {
      DrainUnfolds([]);
      assert forall i | 0 <= i <= 0 :: chunks[..i] == [];
    } else {
      var init, last := chunks[..n - 1], chunks[n - 1];
      QuietRunIsDrain(init);
      assert forall i | 0 <= i <= n - 1 :: chunks[..i] == init[..i];
      if TooMuchPending(init) {
        var i :| 0 <= i <= n - 1 && |Drain(Concat(init[..i])).rest| > MAX_PENDING;
        assert chunks[..i] == init[..i];
      }
      if !Run(init).fired {
        DrainAppend(Concat(init), last);
        FlatAppend(Run(init).pieces, FeedInto(Run(init).pending, last).pieces);
        assert forall i | 0 <= i <= n - 1 :: |Drain(Concat(chunks[..i])).rest| <= MAX_PENDING;
        assert |Drain(Concat(chunks[..n])).rest| > MAX_PENDING ==> TooMuchPending(chunks);
      }
    }
  }

  /** Any two cuts of the same stream in which the guard stays quiet give the same events and leave the same
      bytes pending. */
  lemma ChunkIndependence(xs: seq<string>, ys: seq<string>)
    requires Concat(xs) == Concat(ys)
    requires !TooMuchPending(xs) && !TooMuchPending(ys)
    ensures Merged(Callbacks(Run(xs).pieces)) == Merged(Callbacks(Run(ys).pieces))
    ensures Flat(Run(xs).pieces) == Flat(Run(ys).pieces)
    ensures Run(xs).pending == Run(ys).pending
  {
    QuietRunIsDrain(xs);
    QuietRunIsDrain(ys);
    MergedByFlat(Run(xs).pieces);
    MergedByFlat(Run(ys).pieces);
  }

  // ---- Printing and parsing back -----------------------------------------------------------------

  /** What a shell writes: text, or a frame printed by the payload of a job. */
  datatype Item =
    | Words(text: string)
    | StartFrame(token: string, jobId: string, pid: int)
    | EndFrame(token: string, jobId: string, exitCode: int)

  function Field(s: string): string { s + [FIELD_SEPARATOR] }

  function FieldsText(fields: seq<string>): string {
    if fields == [] then [] else Field(fields[0]) + FieldsText(fields[1..])
  }

  function FrameText(tag: string, token: string, jobId: string, number: string): string {
    [FRAME_START] + FieldsText([tag]) + FieldsText([token, jobId, number])
  }

  function Print(i: Item): string {
    match i
    case Words(text) => text
    case StartFrame(token, jobId, pid) => FrameText(START_TAG, token, jobId, Show(pid))
    case EndFrame(token, jobId, code) => FrameText(END_TAG, token, jobId, Show(code))
  }

  function PrintAll(items: seq<Item>): string {
    if items == [] then [] else Print(items[0]) + PrintAll(items[1..])
  }

  function ItemEvent(i: Item): Event {
    match i
    case Words(text) => Output(text)
    case StartFrame(token, jobId, pid) => Pid(token, jobId, pid)
    case EndFrame(token, jobId, code) => End(token, jobId, code)
  }

  function ItemEvents(items: seq<Item>): seq<Event> {
    if items == [] then [] else [ItemEvent(items[0])] + ItemEvents(items[1..])
  }

  predicate Printable(i: Item) {
    match i
    case Words(text) => FRAME_START !in text
    case StartFrame(token, jobId, pid) =>
      FIELD_SEPARATOR !in token && FIELD_SEPARATOR !in jobId && 0 < pid <= LONG_MAX
    case EndFrame(token, jobId, code) =>
      FIELD_SEPARATOR !in token && FIELD_SEPARATOR !in jobId && -INT_MAX - 1 <= code <= INT_MAX
  }

  function ItemPiece(i: Item): Piece {
    if i.Words? then Text(i.text) else Frame(Print(i))
  }

  function ItemPieces(items: seq<Item>): seq<Piece> {
    if items == [] then [] else [ItemPiece(items[0])] + ItemPieces(items[1..])
  }

  lemma FieldFound(before: string, field: string, after: string)
    requires FIELD_SEPARATOR !in field
    ensures var s := before + Field(field) + after;
            && Find(s, FIELD_SEPARATOR, |before|) == |before| + |field|
            && s[|before|..|before| + |field|] == field
  {
    hide Find;
    var s := before + Field(field) + after;
    MiddleOf(before, Field(field), after);
    SlicedField(s, before, field);
    forall i | |before| <= i < |before| + |field| ensures s[i] != FIELD_SEPARATOR {
      assert s[i] == field[i - |before|];
    }
    FindAt(s, FIELD_SEPARATOR, |before|, |before| + |field|);
  }

  lemma SlicedField(s: string, before: string, field: string)
    requires |before| + |field| < |s|
    requires forall i | |before| <= i <= |before| + |field| :: s[i] == Field(field)[i - |before|]
    ensures s[|before|..|before| + |field|] == field && s[|before| + |field|] == FIELD_SEPARATOR
    ensures forall i | |before| <= i < |before| + |field| :: s[i] == field[i - |before|]
  {}

  lemma MiddleOf(x: string, y: string, z: string)
    ensures forall i | |x| <= i < |x| + |y| :: (x + y + z)[i] == y[i - |x|]
  {}

  lemma ShowHasNoSeparator(z: int)
    ensures FIELD_SEPARATOR !in Show(z)
  {
    DigitsAreDigits(if z < 0 then -z else z);
  }

  /** Printed fields are cut back into the same fields. */
  lemma {:induction false} CutPrintedFields(before: string, fields: seq<string>, after: string)
    requires forall f | f in fields :: FIELD_SEPARATOR !in f
    ensures CutFields(before + FieldsText(fields) + after, |before|, |fields|) ==
            Fields(fields, |before + FieldsText(fields)|)
    decreases |fields|
  {
    hide Find, Field, CutFields;
    var s := before + FieldsText(fields) + after;
    CutFieldsUnfold(s, |before|, |fields|);
    if fields != [] {
      var f, rest := fields[0], fields[1..];
      assert f in fields && forall g | g in rest :: g in fields;
      var before' := before + Field(f);
      Regroup(before, Field(f), FieldsText(rest));
      Regroup(before', FieldsText(rest), after);
      FieldFoundIn(s, before, f, FieldsText(rest) + after);
      CutPrintedFields(before', rest, after);
      assert [f] + rest == fields;
    }
  }

  /** A printed frame is recognised whole, with its fields. */
  lemma FrameTextParses(tag: string, token: string, jobId: string, number: string)
    requires tag == START_TAG || tag == END_TAG
    requires FIELD_SEPARATOR !in token && FIELD_SEPARATOR !in jobId && FIELD_SEPARATOR !in number
    ensures var s := FrameText(tag, token, jobId, number);
            s[0] == FRAME_START && TryParse(s) == Complete(|s|, tag, token, jobId, number)
  {
    hide Find, CutFields, FieldsText, START_TAG, END_TAG;
    var s := FrameText(tag, token, jobId, number);
    var head := [FRAME_START] + FieldsText([tag]);
    TagsHaveNoSeparator();
    CutPrintedFields([FRAME_START], [tag], FieldsText([token, jobId, number]));
    CutPrintedFields(head, [token, jobId, number], []);
    assert s + [] == s;
  }

  lemma TagsHaveNoSeparator()
    ensures FIELD_SEPARATOR !in START_TAG && FIELD_SEPARATOR !in END_TAG
  {}

  lemma FieldFoundIn(s: string, before: string, field: string, after: string)
    requires FIELD_SEPARATOR !in field && s == before + Field(field) + after
    ensures |before| + |field| < |s| && |before + Field(field)| == |before| + |field| + 1
    ensures Find(s, FIELD_SEPARATOR, |before|) == |before| + |field|
    ensures s[|before|..|before| + |field|] == field
  {
    FieldFound(before, field, after);
  }

  lemma PrintedItemParses(i: Item)
    requires Printable(i) && !i.Words?
    ensures var s := Print(i);
            && s != [] && s[0] == FRAME_START && TryParse(s).Complete? && TryParse(s).size == |s|
            && PieceEvents(Frame(s)) == [ItemEvent(i)]
  {
    hide TryParse, FrameText;
    var tag, n := if i.StartFrame? then START_TAG else END_TAG, if i.StartFrame? then i.pid else i.exitCode;
    ShowHasNoSeparator(n);
    FrameTextParses(tag, i.token, i.jobId, Show(n));
    if i.StartFrame? {
      ParseShow(n, -LONG_MAX - 1, LONG_MAX);
    } else {
      ParseShow(n, -INT_MAX - 1, INT_MAX);
    }
  }

  lemma {:induction false} ItemPiecesEvents(items: seq<Item>)
    requires forall i | i in items :: Printable(i)
    ensures Callbacks(ItemPieces(items)) == ItemEvents(items)
  {
    if items != [] {
      hide Print, PieceEvents, Printable;
      assert items[0] in items;
      ItemPiecesEvents(items[1..]);
      PieceOfItem(items[0]);
      assert ([ItemPiece(items[0])] + ItemPieces(items[1..]))[1..] == ItemPieces(items[1..]);
    }
  }

  lemma PieceOfItem(i: Item)
    requires Printable(i)
    ensures PieceEvents(ItemPiece(i)) == [ItemEvent(i)]
  {
    if !i.Words? { PrintedItemParses(i); }
  }

  /** Draining a prefix of a printed list: the pieces of the items that are complete, and at most 4096 bytes of a frame
      left over. */
  lemma {:induction false} DrainPrinted(items: seq<Item>, n: nat)
    requires forall i | i in items :: Printable(i) && (!i.Words? ==> |Print(i)| <= MAX_PENDING + 1)
    requires n <= |PrintAll(items)|
    ensures |Drain(PrintAll(items)[..n]).rest| <= MAX_PENDING
    ensures n == |PrintAll(items)| ==>
              Drain(PrintAll(items)[..n]).rest == [] &&
              Flat(Drain(PrintAll(items)[..n]).pieces) == Flat(ItemPieces(items))
    decreases |items|
  {
    hide TryParse, Find, Drain, Flat, Print, Printable;
    var s := PrintAll(items)[..n];
    DrainUnfolds([]);
    if items != [] {
      var i, p, later := items[0], Print(items[0]), PrintAll(items[1..]);
      assert i in items;
      assert forall j | j in items[1..] :: j in items;
      ItemPiecesFlat(items);
      if n >= |p| {
        assert s == p + later[..n - |p|];
        DrainPrinted(items[1..], n - |p|);
        DrainItem(i, later[..n - |p|]);
      } else {
        assert s == p[..n];
        DrainPartOfItem(i, n);
      }
    } else {
      assert s == [];
    }
  }

  lemma ItemPiecesFlat(items: seq<Item>)
    requires items != []
    ensures Flat(ItemPieces(items)) ==
            (if items[0].Words? then Singles(items[0].text) else [Frame(Print(items[0]))]) +
            Flat(ItemPieces(items[1..]))
  {
    hide Print;
    assert ([ItemPiece(items[0])] + ItemPieces(items[1..]))[1..] == ItemPieces(items[1..]);
  }

  lemma DrainItem(i: Item, more: string)
    requires Printable(i)
    ensures Drain(Print(i) + more).rest == Drain(more).rest
    ensures Flat(Drain(Print(i) + more).pieces) ==
            (if i.Words? then Singles(i.text) else [Frame(Print(i))]) + Flat(Drain(more).pieces)
  {
    if i.Words? {
      DrainText(i.text, more);
    } else {
      hide TryParse, Find, Drain, Flat, Print, Printable;
      var s := Print(i);
      PrintedItemParses(i);
      TryParseStable(s, more);
      DrainUnfolds(s + more);
      assert (s + more)[..|s|] == s && (s + more)[|s|..] == more;
    }
  }

  lemma DrainPartOfItem(i: Item, n: nat)
    requires Printable(i) && n < |Print(i)| && (!i.Words? ==> |Print(i)| <= MAX_PENDING + 1)
    ensures |Drain(Print(i)[..n]).rest| <= MAX_PENDING
  {
    var s := Print(i);
    DrainUnfolds([]);
    if i.Words? {
      DrainText(s[..n], []);
      assert s[..n] + [] == s[..n];
    } else if n > 0 {
      hide TryParse, Find, Drain, Print, Printable;
      PrintedItemParses(i);
      assert s == s[..n] + s[n..];
      if !TryParse(s[..n]).Incomplete? { TryParseStable(s[..n], s[n..]); }
      DrainUnfolds(s[..n]);
    } else {
      assert s[..n] == [];
    }
  }

  /** Printed items come back as their events however the stream is cut, with nothing left pending. */
  lemma PrintedItemsComeBack(items: seq<Item>, chunks: seq<string>)
    requires forall i | i in items :: Printable(i) && (!i.Words? ==> |Print(i)| <= MAX_PENDING + 1)
    requires Concat(chunks) == PrintAll(items)
    ensures !Run(chunks).fired && Run(chunks).pending == []
    ensures Merged(Callbacks(Run(chunks).pieces)) == Merged(ItemEvents(items))
  {
    hide TryParse, Find, Drain, Flat, Print, Printable, PieceEvents, Merged;
    var s := PrintAll(items);
    forall i | 0 <= i <= |chunks| ensures |Drain(Concat(chunks[..i])).rest| <= MAX_PENDING {
      ConcatPrefix(chunks, i);
      DrainPrinted(items, |Concat(chunks[..i])|);
    }
    QuietRunIsDrain(chunks);
    DrainPrinted(items, |s|);
    assert s[..|s|] == s;
    MergedByFlat(Run(chunks).pieces);
    MergedByFlat(ItemPieces(items));
    ItemPiecesEvents(items);
  }

  lemma {:induction false} ConcatPrefix(chunks: seq<string>, i: nat)
    requires i <= |chunks|
    ensures |Concat(chunks[..i])| <= |Concat(chunks)|
    ensures Concat(chunks[..i]) == Concat(chunks)[..|Concat(chunks[..i])|]
    decreases |chunks|
  {
    if i == |chunks| {
      assert chunks[..i] == chunks;
    } else {
      var init := chunks[..|chunks| - 1];
      ConcatPrefix(init, i);
      assert init[..i] == chunks[..i];
    }
  }

  // ---- What the flood guard does ---------------------------------------------------------------------

  /** A frame that arrives in two chunks is recognised exactly if the first chunk does not set off the guard. */
  lemma SplitFrameSurvivesIff(i: Item, k: nat)
    requires Printable(i) && !i.Words? && 0 < k < |Print(i)|
    ensures Frame(Print(i)) in Run([Print(i)[..k], Print(i)[k..]]).pieces <==> k <= 4096
  {
    hide TryParse, Find, Print, Printable, Drain;
    var s := Print(i);
    var front, back := s[..k], s[k..];
    assert s == front + back;
    PrintedItemParses(i);
    if !TryParse(front).Incomplete? { TryParseStable(front, back); }
    DrainUnfolds(front);
    RunOfTwo(front, back);
    assert [] + front == front;
    var first := FeedInto([], front);
    var pieces := Run([front, back]).pieces;
    if k <= MAX_PENDING {
      DrainUnfolds(s);
      assert Next(s) == Frame(s) && Frame(s) in Drain(s).pieces;
      assert first == Fed([], front, false);
      assert Frame(s) in FeedInto(front, back).pieces;
    } else {
      assert first == Fed([Text(front[..1])], front[1..], true);
      FeedKeepsBytes(front[1..], back);
      if Frame(s) in pieces {
        PieceWithin(FeedInto(front[1..], back).pieces, Frame(s));
      }
    }
  }

  lemma RunOfTwo(x: string, y: string)
    ensures Run([x, y]).pieces == FeedInto([], x).pieces + FeedInto(FeedInto([], x).pending, y).pieces
  {
    hide FeedInto;
    assert [x, y][..1] == [x] && [x][..0] == [];
    var f := FeedInto([], x);
    assert [] + f.pieces == f.pieces;
    assert Run([x]).pieces == f.pieces && Run([x]).pending == f.pending;
  }

  lemma {:induction false} PieceWithin(ps: seq<Piece>, p: Piece)
    requires p in ps
    ensures |p.bytes| <= |Bytes(ps)|
  {
    if p != ps[0] { PieceWithin(ps[1..], p); }
  }

  /** The guard gives up one byte, so it does not bound what stays pending: after a feed that leaves `rest`
      undecided the buffer is still over the limit exactly if `rest` was over it by more than that byte. */
  lemma PendingOverLimitIff(pending: string, data: string)
    ensures |FeedInto(pending, data).pending| > 4096 <==> |Drain(pending + data).rest| > 4097
  {
    hide Drain;
  }

  /** The most that the reader feeds at once. */
  const READ_SIZE: nat := 8192

  function Starts(n: nat): string { seq(n, _ => FRAME_START) }

  lemma StartsAreStuck(n: nat)
    ensures Drain(Starts(n)) == Drained([], Starts(n))
  {
    var s := Starts(n);
    if n > 0 {
      FindAt(s, FIELD_SEPARATOR, 1, n);
      assert CutFields(s, 1, 1).Missing?;
    }
  }

  lemma StartsAppend(m: nat, n: nat)
    ensures Starts(m) + Starts(n) == Starts(m + n)
  {}

  lemma StartsDrop(n: nat)
    requires n > 0
    ensures Starts(n)[1..] == Starts(n - 1)
  {}

  /** Full reads of nothing but frame starts: every one of them adds all its bytes but one. */
  lemma {:induction false} StartsPileUp(chunks: seq<string>)
    requires forall c | c in chunks :: c == Starts(READ_SIZE)
    ensures Run(chunks).pending == Starts((READ_SIZE - 1) * |chunks|)
  {
    if chunks != [] {
      hide Drain, Starts;
      var init := chunks[..|chunks| - 1];
      var n := (READ_SIZE - 1) * |init| + READ_SIZE;
      assert chunks[|chunks| - 1] in chunks;
      assert forall c | c in init :: c in chunks;
      StartsPileUp(init);
      StartsAppend((READ_SIZE - 1) * |init|, READ_SIZE);
      StartsAreStuck(n);
      StartsDrop(n);
      assert |Starts(n)| == n by { StartsLength(n); }
    } else {
      assert Starts(0) == [];
    }
  }

  lemma StartsLength(n: nat)
    ensures |Starts(n)| == n
  {}

  /** So no bound holds for the pending bytes, even if no read brings more than the reader's buffer holds. */
  lemma PendingIsNotBounded(bound: nat) returns (chunks: seq<string>)
    ensures forall c | c in chunks :: |c| <= READ_SIZE
    ensures |Run(chunks).pending| > bound
  {
    chunks := seq(bound + 1, _ => Starts(READ_SIZE));
    StartsPileUp(chunks);
    StartsLength((READ_SIZE - 1) * (bound + 1));
    StartsLength(READ_SIZE);
  }
}
