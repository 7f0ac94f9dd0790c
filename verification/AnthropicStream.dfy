/**
 The Anthropic adapter: a response read as one message, and the same response read as a stream of
 block events.
 */
module AnthropicStream {
  import opened StreamMerge

  // ---- One message -------------------------------------------------------------------------

  datatype Block =
    | TextBlock(text: string)
    | ToolBlock(id: string, name: string, input: Json)
    | OtherBlock

  function BlockText(b: Block): string { if b.TextBlock? then b.text else "" }

  /** A tool call of the response; `dump` prints a JSON value. */
  function BlockCalls(b: Block, dump: Json -> string): seq<Json> {
    if b.ToolBlock? then [CallOf(b.id, b.name, dump(b.input))] else []
  }

  function CallOf(id: string, name: string, arguments: string): Json {
    Obj(map["id" := Str(id), "type" := Str("function"),
            "function" := Obj(map["name" := Str(name), "arguments" := Str(arguments)])])
  }

  function TextsOf(blocks: seq<Block>): string {
    if blocks == [] then "" else TextsOf(blocks[..|blocks| - 1]) + BlockText(blocks[|blocks| - 1])
  }

  function CallsOf(blocks: seq<Block>, dump: Json -> string): seq<Json> {
    if blocks == [] then [] else CallsOf(blocks[..|blocks| - 1], dump) + BlockCalls(blocks[|blocks| - 1], dump)
  }

  method NormalizeResponseContent(blocks: seq<Block>, dump: Json -> string)
    returns (content: string, toolCalls: seq<Json>, hasToolCalls: bool)
    ensures content == TextsOf(blocks) && toolCalls == CallsOf(blocks, dump)
    ensures hasToolCalls <==> toolCalls != []
  {
    content, toolCalls := "", [];
    for i := 0 to |blocks|
      invariant content == TextsOf(blocks[..i]) && toolCalls == CallsOf(blocks[..i], dump)
    {
      assert blocks[..i + 1][..i] == blocks[..i];
      match blocks[i]
      case TextBlock(text) => content := content + text;
      case ToolBlock(id, name, input) => toolCalls := toolCalls + [CallOf(id, name, dump(input))];
      case OtherBlock =>
    }
    assert blocks[..|blocks|] == blocks;
    hasToolCalls := toolCalls != [];
  }

  // ---- Events --------------------------------------------------------------------------------

  datatype Event =
    | ToolStart(index: int, id: string, name: string)
    | TextDelta(text: string)
    | JsonDelta(index: int, partial: string)
    | MessageStop
    | ErrorEvent(message: string)
    | Ignored  // starts of other blocks, block stops, pings, and data that is not JSON
    | BadEvent  // a block event whose members do not have the types the adapter reads

  /** A throw is a JSON type error that ends the call. */
  datatype Reply = Reply(state: StreamState, chunks: seq<Chunk>, more: bool) | Throws

  datatype StreamState = StreamState(acc: map<int, Json>, finishedSent: bool, error: string)

  /** An accumulated call with more arguments. The accumulator throws on an entry that has no function object,
      or whose arguments are not a string. */
  predicate CanAppend(acc: map<int, Json>, index: int) {
    && index in acc && acc[index].Obj? && "function" in acc[index].fields && acc[index].fields["function"].Obj?
    && var f := acc[index].fields["function"].fields;
       "arguments" in f ==> f["arguments"].Str?
  }

  function WithArguments(call: Json, partial: string): Json
    requires CanAppend(map[0 := call], 0)
  {
    var f := call.fields["function"].fields;
    var before := if "arguments" in f then f["arguments"].s else "";
    Obj(call.fields["function" := Obj(f["arguments" := Str(before + partial)])])
  }

  predicate IsLeast(k: int, keys: set<int>) {
    k in keys && forall x | x in keys :: k <= x
  }

  /** The least key; accumulated calls go out in the order of their indexes. */
  function Least(keys: set<int>): (k: int)
    requires keys != {}
    ensures IsLeast(k, keys)
  {
    LeastExists(keys);
    var k :| IsLeast(k, keys);
    k
  }

  lemma SomeKey(keys: set<int>) returns (k: int)
    requires keys != {}
    ensures k in keys
  {
    assert (forall x :: x !in keys) ==> keys == {};
    k :| k in keys;
  }

  lemma {:induction false} LeastExists(keys: set<int>)
    requires keys != {}
    ensures exists k :: IsLeast(k, keys)
    decreases keys
  {
    var k := SomeKey(keys);
    var rest := keys - {k};
    if rest != {} {
      LeastExists(rest);
      var m :| IsLeast(m, rest);
      var l := if k <= m then k else m;
      assert forall x | x in keys :: x == k || x in rest;
      assert IsLeast(l, keys);
    } else {
      assert keys == {k};
      assert IsLeast(k, keys);
    }
  }

  function CallChunks(acc: map<int, Json>): seq<Chunk>
    decreases acc.Keys
  {
    if acc == map[] then []
    else
      var k := Least(acc.Keys);
      [Chunk("", acc[k], false)] + CallChunks(acc - {k})
  }

  function OnEvent(s: StreamState, e: Event): Reply {
    match e
    case ErrorEvent(message) => Reply(s.(error := message), [], false)
    case ToolStart(index, id, name) => Reply(s.(acc := s.acc[index := ToolCall(index, id, name, "")]), [], true)
    case TextDelta(text) => Reply(s, if text == "" then [] else [Chunk(text, EMPTY, false)], true)
    case JsonDelta(index, partial) =>
      if CanAppend(s.acc, index)
      then Reply(s.(acc := s.acc[index := WithArguments(s.acc[index], partial)]), [], true)
      else Throws
    case MessageStop =>
      if s.finishedSent then Reply(s, [], true)
      else Reply(s.(acc := map[], finishedSent := true), CallChunks(s.acc) + [Chunk("", EMPTY, true)], false)
    case Ignored => Reply(s, [], true)
    case BadEvent => Throws
  }

  /** All events up to the first that ends the stream. */
  function OnEvents(s: StreamState, es: seq<Event>): Reply
    decreases es
  {
    if es == [] then Reply(s, [], true)
    else
      var r := OnEvent(s, es[0]);
      if r.Throws? || !r.more then r
      else
        match OnEvents(r.state, es[1..])
        case Throws => Throws
        case Reply(s', chunks, more) => Reply(s', r.chunks + chunks, more)
  }

  datatype Result = Answer(response: Response) | Failure

  /** The streaming call: an error event or a throw fails it, and a missing end is supplied. */
  function Streamed(es: seq<Event>): Result {
    match OnEvents(StreamState(map[], false, ""), es)
    case Throws => Failure
    case Reply(s, chunks, _) =>
      if s.error != "" then Failure
      else Answer(Assembled(if s.finishedSent then chunks else chunks + [Chunk("", EMPTY, true)]))
  }

  class AnthropicStreamState {
    var toolCallAcc: map<int, Json>
    var finishedSent: bool
    var streamError: string
    /** The chunks passed to the callback. */
    var chunks: seq<Chunk>

    ghost function View(): StreamState
      reads this
    {
      StreamState(toolCallAcc, finishedSent, streamError)
    }

    constructor ()
      ensures View() == StreamState(map[], false, "") && chunks == []
    {
      toolCallAcc, finishedSent, streamError, chunks := map[], false, "", [];
    }

    /** Whether the stream goes on, and whether the event throws. */
    method ProcessEvent(e: Event) returns (more: bool, throws: bool)
      modifies this
      ensures throws <==> OnEvent(old(View()), e).Throws?
      ensures !throws ==> var r := OnEvent(old(View()), e);
                          View() == r.state && chunks == old(chunks) + r.chunks && more == r.more
    {
      more, throws := true, false;
      match e
      case ErrorEvent(message) =>
        streamError := message;
        more := false;
      case ToolStart(index, id, name) =>
        toolCallAcc := toolCallAcc[index := ToolCall(index, id, name, "")];
      case TextDelta(text) =>
        if text != "" { chunks := chunks + [Chunk(text, EMPTY, false)]; }
      case JsonDelta(index, partial) =>
        if !CanAppend(toolCallAcc, index) { return false, true; }
        toolCallAcc := toolCallAcc[index := WithArguments(toolCallAcc[index], partial)];
      case MessageStop =>
        if !finishedSent {
          SendCalls();
          toolCallAcc := map[];
          chunks := chunks + [Chunk("", EMPTY, true)];
          finishedSent := true;
          more := false;
        }
      case Ignored =>
      case BadEvent =>
        return false, true;
    }

    /** Processes events up to the first that stops the reading. */
    method ProcessEvents(es: seq<Event>) returns (more: bool, throws: bool)
      modifies this
      ensures throws <==> OnEvents(old(View()), es).Throws?
      ensures !throws ==> var r := OnEvents(old(View()), es);
                          View() == r.state && chunks == old(chunks) + r.chunks && more == r.more
    {
      hide OnEvents, OnEvent;
      var i := 0;
      ghost var whole, before0 := OnEvents(View(), es), chunks;
      assert es[0..] == es;
      ghost var sent: seq<Chunk> := [];
      assert LeadsTo(whole, sent, whole) by { if whole.Reply? { assert [] + whole.chunks == whole.chunks; } }
      assert chunks == before0 + sent;
      while i < |es|
        invariant 0 <= i <= |es| && chunks == before0 + sent
        invariant LeadsTo(whole, sent, OnEvents(View(), es[i..]))
      {
        ghost var before := View();
        OnEventsUnfolds(before, es, i);
        more, throws := ProcessEvent(es[i]);
        if throws { return; }
        ghost var now := OnEvent(before, es[i]).chunks;
        i := i + 1;
        if !more { return; }
        ghost var rest := OnEvents(View(), es[i..]);
        if rest.Reply? { assert sent + (now + rest.chunks) == (sent + now) + rest.chunks; }
        assert (before0 + sent) + now == before0 + (sent + now);
        sent := sent + now;
      }
      NoMoreEvents(View(), es);
      more, throws := true, false;
    }

    /** Sends the accumulated calls in the order of their indexes. */
    method SendCalls()
      modifies this`chunks
      ensures chunks == old(chunks) + CallChunks(toolCallAcc)
    {
      var left := toolCallAcc;
      while left != map[]
        invariant chunks + CallChunks(left) == old(chunks) + CallChunks(toolCallAcc)
        decreases left.Keys
      {
        var k := LeastKey(left.Keys);
        assert k == Least(left.Keys);
        chunks := chunks + [Chunk("", left[k], false)];
        left := left - {k};
      }
    }

    static method LeastKey(keys: set<int>) returns (k: int)
      requires keys != {}
      ensures IsLeast(k, keys)
    {
      LeastExists(keys);
      k :| IsLeast(k, keys);
    }
  }

  lemma OnEventsUnfolds(s: StreamState, es: seq<Event>, i: nat)
    requires i < |es|
    ensures OnEvents(s, es[i..]) ==
            match OnEvent(s, es[i])
            case Throws => Throws
            case Reply(s', chunks, more) =>
              if !more then Reply(s', chunks, more) else
                match OnEvents(s', es[i + 1..])
                case Throws => Throws
                case Reply(s'', chunks', more') => Reply(s'', chunks + chunks', more')
  {
    assert es[i..][1..] == es[i + 1..];
  }

  /** What is still to come after `sent` turns it into `whole`. */
  ghost predicate LeadsTo(whole: Reply, sent: seq<Chunk>, rest: Reply) {
    match rest
    case Throws => whole.Throws?
    case Reply(s, chunks, more) => whole == Reply(s, sent + chunks, more)
  }

  lemma NoMoreEvents(s: StreamState, es: seq<Event>)
    ensures OnEvents(s, es[|es|..]) == Reply(s, [], true)
  {}

  // ---- A message serialised as events --------------------------------------------------------------

  function Started(es: seq<Event>): set<int> {
    if es == [] then {}
    else
      var last := es[|es| - 1];
      if last.ToolStart? then Started(es[..|es| - 1]) + {last.index} else Started(es[..|es| - 1])
  }

  function DeltaText(es: seq<Event>): string {
    if es == [] then ""
    else
      var last := es[|es| - 1];
      if last.TextDelta? then DeltaText(es[..|es| - 1]) + last.text else DeltaText(es[..|es| - 1])
  }

  /** The pieces of arguments sent for the block at position i, joined. */
  function ArgumentText(es: seq<Event>, i: int): string {
    if es == [] then ""
    else
      var init, last := ArgumentText(es[..|es| - 1], i), es[|es| - 1];
      if last.JsonDelta? && last.index == i then init + last.partial else init
  }

  /** Events that describe parts of `blocks`: a tool block starts once, at its position, before its pieces. */
  predicate Describes(es: seq<Event>, blocks: seq<Block>) {
    es == [] ||
    (var init, last := es[..|es| - 1], es[|es| - 1];
     && Describes(init, blocks)
     && match last
        case ToolStart(i, id, name) =>
          0 <= i < |blocks| && blocks[i].ToolBlock? && blocks[i].id == id && blocks[i].name == name
              && i !in Started(init)
        case JsonDelta(i, _) => i in Started(init)
        case TextDelta(_) => true
        case Ignored => true
        case _ => false)
  }

  /** The whole message, tool pieces cut and interleaved in any way, texts in the order of their blocks. */
  ghost predicate Serialises(es: seq<Event>, blocks: seq<Block>) {
    && Describes(es, blocks)
    && DeltaText(es) == TextsOf(blocks)
    && forall i | 0 <= i < |blocks| && blocks[i].ToolBlock? :: i in Started(es)
  }

  function Accumulated(es: seq<Event>, blocks: seq<Block>): map<int, Json>
    requires Describes(es, blocks)
  {
    StartedInRange(es, blocks);
    map i | i in Started(es) :: ToolCall(i, blocks[i].id, blocks[i].name, ArgumentText(es, i))
  }

  lemma {:induction false} StartedInRange(es: seq<Event>, blocks: seq<Block>)
    requires Describes(es, blocks)
    ensures forall i | i in Started(es) :: 0 <= i < |blocks| && blocks[i].ToolBlock?
    ensures forall i | i !in Started(es) :: ArgumentText(es, i) == ""
  {
    if es != [] { StartedInRange(es[..|es| - 1], blocks); }
  }

  function TextChunks(es: seq<Event>): seq<Chunk> {
    if es == [] then []
    else
      var init, last := TextChunks(es[..|es| - 1]), es[|es| - 1];
      if last.TextDelta? && last.text != "" then init + [Chunk(last.text, EMPTY, false)] else init
  }

  /** Processing goes event by event, so it can be cut anywhere. */
  lemma {:induction false} OnEventsAppend(s: StreamState, es: seq<Event>, fs: seq<Event>)
    ensures OnEvents(s, es + fs) ==
            match OnEvents(s, es)
            case Throws => Throws
            case Reply(s', chunks, more) =>
              if !more then Reply(s', chunks, more) else
                match OnEvents(s', fs)
                case Throws => Throws
                case Reply(s'', chunks', more') => Reply(s'', chunks + chunks', more')
    decreases es
  {
    if es == [] {
      assert es + fs == fs;
      var r := OnEvents(s, fs);
      if r.Reply? { assert [] + r.chunks == r.chunks; }
    } else {
      assert (es + fs)[1..] == es[1..] + fs && (es + fs)[0] == es[0];
      var r := OnEvent(s, es[0]);
      if r.Reply? && r.more {
        OnEventsAppend(r.state, es[1..], fs);
        var t := OnEvents(r.state, es[1..]);
        if t.Reply? && t.more {
          var u := OnEvents(t.state, fs);
          if u.Reply? { assert r.chunks + (t.chunks + u.chunks) == (r.chunks + t.chunks) + u.chunks; }
        }
      }
    }
  }

  lemma OneEvent(s: StreamState, e: Event)
    ensures OnEvents(s, [e]) == OnEvent(s, e)
  {
    var r := OnEvent(s, e);
    if r.Reply? && r.more {
      assert [e][1..] == [];
      assert OnEvents(r.state, []) == Reply(r.state, [], true);
      assert r.chunks + [] == r.chunks;
    }
  }

  /** After events that describe parts of a message, the accumulator holds exactly the calls started so far,
      with the arguments sent so far. */
  lemma {:induction false} AccumulatesDescription(es: seq<Event>, blocks: seq<Block>)
    requires Describes(es, blocks)
    ensures OnEvents(StreamState(map[], false, ""), es) ==
            Reply(StreamState(Accumulated(es, blocks), false, ""), TextChunks(es), true)
  {
    if es == [] {
      assert Accumulated(es, blocks) == map[];
    } else {
      var init, last := es[..|es| - 1], es[|es| - 1];
      AccumulatesDescription(init, blocks);
      assert es == init + [last];
      var s := StreamState(Accumulated(init, blocks), false, "");
      OnEventsAppend(StreamState(map[], false, ""), init, [last]);
      OneEvent(s, last);
      AccumulateOne(es, blocks);
    }
  }

  lemma AccumulateOne(es: seq<Event>, blocks: seq<Block>)
    requires es != [] && Describes(es, blocks)
    ensures var init, last := es[..|es| - 1], es[|es| - 1];
            OnEvent(StreamState(Accumulated(init, blocks), false, ""), last) ==
            Reply(StreamState(Accumulated(es, blocks), false, ""),
                  if last.TextDelta? && last.text != "" then [Chunk(last.text, EMPTY, false)] else [], true)
  {
    var init, last := es[..|es| - 1], es[|es| - 1];
    StartedInRange(init, blocks);
    StartedInRange(es, blocks);
    var before, after := Accumulated(init, blocks), Accumulated(es, blocks);
    if last.ToolStart? {
      assert ArgumentText(es, last.index) == "";
      assert before[last.index := ToolCall(last.index, last.id, last.name, "")] == after;
    } else if last.JsonDelta? {
      var i := last.index;
      WithMoreArguments(i, blocks[i].id, blocks[i].name, ArgumentText(init, i), last.partial);
      assert before[i := ToolCall(i, blocks[i].id, blocks[i].name, ArgumentText(init, i) + last.partial)] == after;
      CanAppendCall(before, i, blocks[i].id, blocks[i].name, ArgumentText(init, i));
    } else {
      assert before == after;
    }
  }

  lemma CanAppendCall(acc: map<int, Json>, i: int, id: string, name: string, x: string)
    requires i in acc && acc[i] == ToolCall(i, id, name, x)
    ensures CanAppend(acc, i)
  {}

  lemma WithMoreArguments(i: int, id: string, name: string, x: string, y: string)
    ensures CanAppend(map[0 := ToolCall(i, id, name, x)], 0)
    ensures WithArguments(ToolCall(i, id, name, x), y) == ToolCall(i, id, name, x + y)
  {
    var call := ToolCall(i, id, name, x);
    var f := call.fields["function"].fields;
    assert f["arguments" := Str(x + y)] == map["name" := Str(name), "arguments" := Str(x + y)];
    assert WithArguments(call, y).fields == ToolCall(i, id, name, x + y).fields;
  }

  // ---- The chunks of such a stream ------------------------------------------------------------------

  lemma {:induction false} TextChunksFacts(es: seq<Event>, i: nat)
    ensures TextOf(TextChunks(es)) == DeltaText(es) && DeltasFor(TextChunks(es), i) == []
    ensures forall c | c in TextChunks(es) :: c.delta == EMPTY
  {
    if es != [] {
      var init, last := es[..|es| - 1], es[|es| - 1];
      TextChunksFacts(init, i);
      var cs := TextChunks(init);
      if last.TextDelta? && last.text != "" {
        assert (cs + [Chunk(last.text, EMPTY, false)])[..|cs|] == cs;
      } else if last.TextDelta? {
        assert DeltaText(init) + last.text == DeltaText(init);
      }
    }
  }

  lemma {:induction false} ChunksAppend(xs: seq<Chunk>, ys: seq<Chunk>, i: nat)
    ensures TextOf(xs + ys) == TextOf(xs) + TextOf(ys)
    ensures DeltasFor(xs + ys, i) == DeltasFor(xs, i) + DeltasFor(ys, i)
  {
    if ys == [] {
      assert xs + ys == xs;
    } else {
      hide HasIndex;
      var init, last := ys[..|ys| - 1], ys[|ys| - 1];
      ChunksAppend(xs, init, i);
      assert (xs + ys)[..|xs + ys| - 1] == xs + init && (xs + ys)[|xs + ys| - 1] == last;
      assert (TextOf(xs) + TextOf(init)) + last.text == TextOf(xs) + (TextOf(init) + last.text);
    }
  }

  predicate Indexed(acc: map<int, Json>) {
    forall i | i in acc :: HasIndex(acc[i]) && IndexOf(acc[i]) == i
  }

  lemma {:induction false} CallChunksFacts(acc: map<int, Json>, i: nat)
    requires Indexed(acc)
    ensures TextOf(CallChunks(acc)) == ""
    ensures DeltasFor(CallChunks(acc), i) == if i in acc then [acc[i]] else []
    ensures forall c | c in CallChunks(acc) :: HasIndex(c.delta)
    decreases acc.Keys
  {
    if acc != map[] {
      var k := Least(acc.Keys);
      var rest := acc - {k};
      CallChunksFacts(rest, i);
      var first := [Chunk("", acc[k], false)];
      ChunksAppend(first, CallChunks(rest), i);
      assert first[..0] == [];
      assert TextOf(first) == "" && DeltasFor(first, i) == if k == i then [acc[k]] else [];
    }
  }

  function StreamChunks(es: seq<Event>, acc: map<int, Json>): seq<Chunk> {
    TextChunks(es) + (CallChunks(acc) + [Chunk("", EMPTY, true)])
  }

  lemma StreamChunksFacts(es: seq<Event>, acc: map<int, Json>, i: nat)
    requires Indexed(acc)
    ensures var cs := StreamChunks(es, acc);
            && TextOf(cs) == DeltaText(es)
            && DeltasFor(cs, i) == (if i in acc then [acc[i]] else [])
            && forall c | c in cs :: Explicit(c)
  {
    var end := [Chunk("", EMPTY, true)];
    TextChunksFacts(es, i);
    CallChunksFacts(acc, i);
    ChunksAppend(CallChunks(acc), end, i);
    ChunksAppend(TextChunks(es), CallChunks(acc) + end, i);
    assert end[..0] == [];
    assert TextOf(end) == "" && DeltasFor(end, i) == [];
  }

  // ---- The theorem ------------------------------------------------------------------------------------

  /** A call without its index is what the message reader builds. */
  lemma FinishedCall(i: int, id: string, name: string, arguments: string)
    ensures Finished(ToolCall(i, id, name, arguments)) == CallOf(id, name, arguments)
  {
    assert Finished(ToolCall(i, id, name, arguments)).fields == CallOf(id, name, arguments).fields;
  }

  function StreamedCall(es: seq<Event>, b: Block, i: nat): seq<Json> {
    if b.ToolBlock? then [CallOf(b.id, b.name, ArgumentText(es, i))] else []
  }

  /** The calls of the first n blocks, with the arguments that were streamed. */
  function StreamedCalls(es: seq<Event>, blocks: seq<Block>, n: nat): seq<Json>
    requires n <= |blocks|
  {
    if n == 0 then []
    else
      StreamedCalls(es, blocks, n - 1) + StreamedCall(es, blocks[n - 1], n - 1)
  }

  /** The slot of a tool block holds its call; every other slot stays empty. */
  lemma SlotOfBlock(es: seq<Event>, blocks: seq<Block>, i: nat)
    requires Serialises(es, blocks)
    ensures FinishedOrSkipped(MergedAll(DeltasFor(StreamChunks(es, Accumulated(es, blocks)), i))) ==
            if i < |blocks| then StreamedCall(es, blocks[i], i) else []
  {
    hide StreamChunks, Merged, Finished;
    var acc := Accumulated(es, blocks);
    StartedInRange(es, blocks);
    assert Indexed(acc);
    StreamChunksFacts(es, acc, i);
    if i in acc {
      var call := acc[i];
      assert [call][..0] == [];
      MergeIntoEmpty(call);
      assert MergedAll([call]) == call;
      FinishedCall(i, blocks[i].id, blocks[i].name, ArgumentText(es, i));
    }
  }

  lemma {:induction false} SlotsAreCalls(cs: seq<Chunk>, es: seq<Event>, blocks: seq<Block>, n: nat)
    requires n <= |blocks|
    requires forall i: nat | i < n :: FinishedOrSkipped(MergedAll(DeltasFor(cs, i))) == StreamedCall(es, blocks[i], i)
    ensures CollectedSlots(cs, n) == StreamedCalls(es, blocks, n)
  {
    if n > 0 {
      hide FinishedOrSkipped, MergedAll, DeltasFor, StreamedCall;
      SlotsAreCalls(cs, es, blocks, n - 1);
    }
  }

  lemma CollectedOneMore(cs: seq<Chunk>, n: nat)
    requires n > 0 && FinishedOrSkipped(MergedAll(DeltasFor(cs, n - 1))) == []
    ensures CollectedSlots(cs, n) == CollectedSlots(cs, n - 1)
  {
    hide FinishedOrSkipped, MergedAll, DeltasFor;
    assert CollectedSlots(cs, n) == CollectedSlots(cs, n - 1) + [];
  }

  lemma EmptySlot(es: seq<Event>, blocks: seq<Block>, i: nat)
    requires Serialises(es, blocks) && i >= |blocks|
    ensures var cs := StreamChunks(es, Accumulated(es, blocks)); CollectedSlots(cs, i + 1) == CollectedSlots(cs, i)
  {
    hide StreamChunks, FinishedOrSkipped, MergedAll, DeltasFor, Accumulated, CallOf, CollectedSlots;
    SlotOfBlock(es, blocks, i);
    CollectedOneMore(StreamChunks(es, Accumulated(es, blocks)), i + 1);
  }

  /** No slot beyond the blocks is ever used. */
  lemma {:induction false} SlotsEnd(es: seq<Event>, blocks: seq<Block>, n: nat)
    requires Serialises(es, blocks) && n >= |blocks|
    ensures var cs := StreamChunks(es, Accumulated(es, blocks));
            CollectedSlots(cs, n) == CollectedSlots(cs, |blocks|)
  {
    hide StreamChunks, Accumulated, CollectedSlots;
    if n > |blocks| {
      SlotsEnd(es, blocks, n - 1);
      EmptySlot(es, blocks, n - 1);
    }
  }

  /** What a stream that serialises a message is read as, whatever comes after its end. */
  lemma StreamedMessage(es: seq<Event>, blocks: seq<Block>, after: seq<Event>)
    requires Serialises(es, blocks)
    ensures Streamed(es + ([MessageStop] + after)) ==
            Answer(Response(TextsOf(blocks), StreamedCalls(es, blocks, |blocks|), "stop"))
  {
    hide Describes, Assembled, Accumulated;
    var s0 := StreamState(map[], false, "");
    AccumulatesDescription(es, blocks);
    var acc := Accumulated(es, blocks);
    OnEventsAppend(s0, es, [MessageStop] + after);
    assert OnEvents(StreamState(acc, false, ""), [MessageStop] + after) ==
           Reply(StreamState(map[], true, ""), CallChunks(acc) + [Chunk("", EMPTY, true)], false);
    AssembledMessage(es, blocks);
  }

  lemma AssembledMessage(es: seq<Event>, blocks: seq<Block>)
    requires Serialises(es, blocks)
    ensures Assembled(StreamChunks(es, Accumulated(es, blocks))) ==
            Response(TextsOf(blocks), StreamedCalls(es, blocks, |blocks|), "stop")
  {
    var acc := Accumulated(es, blocks);
    var cs := StreamChunks(es, acc);
    StartedInRange(es, blocks);
    assert Indexed(acc);
    StreamChunksFacts(es, acc, 0);
    SlotsAreIndependent(cs, 0);
    var n := |Aggregated(cs).partial| + |blocks|;
    CollectedBySlots(cs, n);
    SlotsEnd(es, blocks, n);
    forall i: nat | i < |blocks|
      ensures FinishedOrSkipped(MergedAll(DeltasFor(cs, i))) == StreamedCall(es, blocks[i], i)
    {
      SlotOfBlock(es, blocks, i);
    }
    SlotsAreCalls(cs, es, blocks, |blocks|);
    EndsWithStop(cs);
  }

  lemma EndsWithStop(cs: seq<Chunk>)
    requires cs != [] && cs[|cs| - 1].finished
    ensures Aggregated(cs).finishReason == "stop"
  {
    FinishReasons(cs[..|cs| - 1]);
  }

  lemma {:induction false} FinishReasons(cs: seq<Chunk>)
    ensures Aggregated(cs).finishReason in {"", "stop"}
  {
    if cs != [] { FinishReasons(cs[..|cs| - 1]); }
  }

  /** Streaming agrees with reading the message at once exactly if, for each tool call, the pieces sent join to
      the printed input. In particular a call with an empty input needs the piece "{}". */
  lemma StreamingAgreesIff(es: seq<Event>, blocks: seq<Block>, after: seq<Event>, dump: Json -> string)
    requires Serialises(es, blocks)
    ensures Streamed(es + ([MessageStop] + after)) ==
            Answer(Response(TextsOf(blocks), CallsOf(blocks, dump), "stop")) <==>
            forall i | 0 <= i < |blocks| && blocks[i].ToolBlock? :: ArgumentText(es, i) == dump(blocks[i].input)
  {
    hide Streamed;
    StreamedMessage(es, blocks, after);
    CallsAgreeIff(es, blocks, dump, |blocks|);
    assert blocks[..|blocks|] == blocks;
  }

  lemma {:induction false} CallsAgreeIff(es: seq<Event>, blocks: seq<Block>, dump: Json -> string, n: nat)
    requires n <= |blocks|
    ensures |StreamedCalls(es, blocks, n)| == |CallsOf(blocks[..n], dump)|
    ensures StreamedCalls(es, blocks, n) == CallsOf(blocks[..n], dump) <==>
            forall i | 0 <= i < n && blocks[i].ToolBlock? :: ArgumentText(es, i) == dump(blocks[i].input)
  {
    if n > 0 {
      CallsAgreeIff(es, blocks, dump, n - 1);
      assert blocks[..n][..n - 1] == blocks[..n - 1];
      var b := blocks[n - 1];
      var x, y := StreamedCalls(es, blocks, n - 1), CallsOf(blocks[..n - 1], dump);
      if b.ToolBlock? {
        var p, q := CallOf(b.id, b.name, ArgumentText(es, n - 1)), CallOf(b.id, b.name, dump(b.input));
        CallDeterminesArguments(b.id, b.name, ArgumentText(es, n - 1), dump(b.input));
        SnocAgree(x, y, p, q);
      } else {
        assert x + [] == x && y + [] == y;
      }
    }
  }

  lemma CallDeterminesArguments(id: string, name: string, x: string, y: string)
    ensures CallOf(id, name, x) == CallOf(id, name, y) <==> x == y
  {
    if CallOf(id, name, x) == CallOf(id, name, y) {
      assert CallOf(id, name, x).fields["function"].fields["arguments"] == Str(x);
      assert CallOf(id, name, y).fields["function"].fields["arguments"] == Str(y);
    }
  }

  lemma SnocAgree<T>(x: seq<T>, y: seq<T>, p: T, q: T)
    requires |x| == |y|
    ensures x + [p] == y + [q] <==> x == y && p == q
  {
    if x + [p] == y + [q] {
      assert (x + [p])[..|x|] == x && (y + [q])[..|y|] == y;
      assert (x + [p])[|x|] == p && (y + [q])[|y|] == q;
    }
  }

  /** A call whose input is the empty object, started and stopped without a piece, comes out with different
      arguments when it is streamed. */
  lemma EmptyInputDiffers(dump: Json -> string)
    requires dump(EMPTY) == "{}"
    ensures var blocks, es := [ToolBlock("id", "tool", EMPTY)], [ToolStart(0, "id", "tool")];
            Serialises(es, blocks) &&
            Streamed(es + ([MessageStop] + [])) != Answer(Response(TextsOf(blocks), CallsOf(blocks, dump), "stop"))
  {
    var blocks, es := [ToolBlock("id", "tool", EMPTY)], [ToolStart(0, "id", "tool")];
    assert es[..0] == [] && blocks[..0] == [];
    assert Started([]) == {};
    assert Started(es) == {0};
    assert DeltaText(es) == DeltaText([]) == "" && TextsOf(blocks) == TextsOf([]) + "" == "";
    assert Serialises(es, blocks);
    StreamingAgreesIff(es, blocks, [], dump);
    assert ArgumentText(es, 0) == "";
  }
}
