/**
 What the Anthropic adapter takes the data of an event for, and whole messages as a provider prints them.
 */
module AnthropicEvents {
  import opened AnthropicCall
  import opened AnthropicStream
  import opened Common
  import opened SseEvents
  import opened SsePrinting
  import opened StreamMerge

  // ---- Reading -----------------------------------------------------------------------------------

  /** A member that is a string; anything else counts as an empty one. */
  function TextAt(j: Json, key: string): string {
    if j.Obj? && key in j.fields && j.fields[key].Str? then j.fields[key].s else ""
  }

  /** A member, or an empty object in its place. */
  function MemberAt(j: Json, key: string): Json
    requires j.Obj?
  {
    if key in j.fields then j.fields[key] else EMPTY
  }

  /** A number is cut to 32 bits, and a truth value counts as a number. */
  function Int32(n: int): int { (n + 0x8000_0000) % 0x1_0000_0000 - 0x8000_0000 }

  /** The index of the block, 0 if there is none; None if it cannot be read as a number. */
  function BlockIndex(j: Json): Option<int>
    requires j.Obj?
  {
    if "index" !in j.fields then Some(0)
    else
      match j.fields["index"]
      case Int(n) => Some(Int32(n))
      case Bool(b) => Some(if b then 1 else 0)
      case _ => None
  }

  const ERROR_PREFIX := "Anthropic stream provider error"

  function ErrorText(error: Json, dump: Json -> string): string {
    match error
    case Str(s) => ERROR_PREFIX + ": " + s
    case Obj(fields) =>
      ERROR_PREFIX + ": " +
      if "message" in fields && fields["message"].Str? then fields["message"].s else dump(error)
    case _ => ERROR_PREFIX
  }

  function BlockStart(j: Json): Event
    requires j.Obj?
  {
    var block := MemberAt(j, "content_block");
    if TextAt(block, "type") != "tool_use" then Ignored
    else
      match BlockIndex(j)
      case None => BadEvent
      case Some(index) => ToolStart(index, TextAt(block, "id"), TextAt(block, "name"))
  }

  function BlockDelta(j: Json): Event
    requires j.Obj?
  {
    match BlockIndex(j)
    case None => BadEvent
    case Some(index) =>
      var delta := MemberAt(j, "delta");
      if TextAt(delta, "type") == "text_delta" then TextDelta(TextAt(delta, "text"))
      else if TextAt(delta, "type") == "input_json_delta" then JsonDelta(index, TextAt(delta, "partial_json"))
      else Ignored
  }

  /** `parse` reads a text as JSON, or says that it is none. */
  function Decode(e: SseEvent, parse: string -> Option<Json>, dump: Json -> string): Event {
    if e.data == "[DONE]" || e.data == "" then Ignored
    else
      match parse(e.data)
      case None => Ignored
      case Some(j) =>
        var kind := if e.event == "" then TextAt(j, "type") else e.event;
        if kind == "error" && j.Obj? && "error" in j.fields then ErrorEvent(ErrorText(j.fields["error"], dump))
        else if kind == "content_block_start" then (if j.Obj? then BlockStart(j) else BadEvent)
        else if kind == "content_block_delta" then (if j.Obj? then BlockDelta(j) else BadEvent)
        else if kind == "message_stop" then MessageStop
        else Ignored
  }

  function Decoder(parse: string -> Option<Json>, dump: Json -> string): SseEvent -> Event {
    e => Decode(e, parse, dump)
  }

  /** The streaming call of the adapter. */
  method CallAnthropic(chunks: seq<string>, parse: string -> Option<Json>, dump: Json -> string) returns (r: Result)
    ensures r == Called(Concat(chunks), Decoder(parse, dump))
  {
    r := CallChatStream(chunks, Decoder(parse, dump));
  }

  // ---- Printing ------------------------------------------------------------------------------------

  /** What the provider prints for an event; the block index of a text is of no interest. */
  function Payload(e: Event): Json {
    match e
    case ToolStart(index, id, name) =>
      Obj(map["type" := Str("content_block_start"), "index" := Int(index),
              "content_block" := Obj(map["type" := Str("tool_use"), "id" := Str(id), "name" := Str(name),
                                         "input" := EMPTY])])
    case TextDelta(text) =>
      Obj(map["type" := Str("content_block_delta"), "index" := Int(0),
              "delta" := Obj(map["type" := Str("text_delta"), "text" := Str(text)])])
    case JsonDelta(index, partial) =>
      Obj(map["type" := Str("content_block_delta"), "index" := Int(index),
              "delta" := Obj(map["type" := Str("input_json_delta"), "partial_json" := Str(partial)])])
    case MessageStop => Obj(map["type" := Str("message_stop")])
    case ErrorEvent(message) => Obj(map["type" := Str("error"), "error" := Obj(map["message" := Str(message)])])
    case _ => Obj(map["type" := Str("ping")])
  }

  /** The index fits the 32 bits of the program. */
  predicate IndexFits(e: Event) {
    (e.ToolStart? || e.JsonDelta?) ==> -0x8000_0000 <= e.index < 0x8000_0000
  }

  /** Printing is inverted by parsing, takes one line, and never gives the end mark of another provider. */
  ghost predicate Faithful(parse: string -> Option<Json>, dump: Json -> string) {
    forall j :: parse(dump(j)) == Some(j) && OneLine(dump(j)) && dump(j) != "" && dump(j) != "[DONE]"
  }

  /** The kinds of events a message is made of. */
  predicate OfMessage(e: Event) { !e.BadEvent? && !e.ErrorEvent? && IndexFits(e) }

  function KindOf(e: Event): string { TextAt(Payload(e), "type") }

  /** An event comes back, whether its kind is given on its own line or only in its data. */
  lemma DecodePrinted(e: Event, name: string, parse: string -> Option<Json>, dump: Json -> string)
    requires Faithful(parse, dump) && OfMessage(e) && (name == "" || name == KindOf(e))
    ensures Decode(SseEvent(name, dump(Payload(e))), parse, dump) == e
  {
    hide BlockStart, BlockDelta;
    assert parse(dump(Payload(e))) == Some(Payload(e));
    match e
    case ToolStart(_, _, _) => StartPrinted(e);
    case TextDelta(_) => DeltaPrinted(e);
    case JsonDelta(_, _) => DeltaPrinted(e);
    case _ =>
  }

  lemma StartPrinted(e: Event)
    requires e.ToolStart? && IndexFits(e)
    ensures BlockStart(Payload(e)) == e
  {}

  lemma DeltaPrinted(e: Event)
    requires (e.TextDelta? || e.JsonDelta?) && IndexFits(e)
    ensures BlockDelta(Payload(e)) == e
  {}

  /** An error comes back with the prefix of the adapter. */
  lemma DecodePrintedError(message: string, parse: string -> Option<Json>, dump: Json -> string)
    requires Faithful(parse, dump)
    ensures var j := Payload(ErrorEvent(message));
            Decode(SseEvent("error", dump(j)), parse, dump) ==
            ErrorEvent("Anthropic stream provider error: " + message)
  {
    hide BlockStart, BlockDelta;
    var j := Payload(ErrorEvent(message));
    assert parse(dump(j)) == Some(j);
  }

  // ---- Whole messages --------------------------------------------------------------------------------

  function PrintedEvent(e: Event, dump: Json -> string, cr: bool): Item {
    Message(KindOf(e), [dump(Payload(e))], cr)
  }

  function PrintedEvents(es: seq<Event>, dump: Json -> string, cr: bool): seq<Item> {
    seq(|es|, i requires 0 <= i < |es| => PrintedEvent(es[i], dump, cr))
  }

  lemma KindIsOneLine(e: Event)
    ensures OneLine(KindOf(e))
  {
    Kinds(e);
    hide Payload;
    assert '\n' !in "content_block_start" && '\n' !in "content_block_delta" && '\n' !in "message_stop";
  }

  lemma Kinds(e: Event)
    ensures KindOf(e) ==
            match e
            case ToolStart(_, _, _) => "content_block_start"
            case TextDelta(_) => "content_block_delta"
            case JsonDelta(_, _) => "content_block_delta"
            case MessageStop => "message_stop"
            case ErrorEvent(_) => "error"
            case _ => "ping"
  {}

  lemma PrintedEventComesBack(e: Event, parse: string -> Option<Json>, dump: Json -> string, cr: bool)
    requires Faithful(parse, dump) && OfMessage(e)
    ensures Printable(PrintedEvent(e, dump, cr))
    ensures Decoded(EventsOf(PrintedEvent(e, dump, cr)), Decoder(parse, dump)) == [e]
  {
    hide Decode, Payload;
    var data := dump(Payload(e));
    KindIsOneLine(e);
    DecodePrinted(e, KindOf(e), parse, dump);
    assert OneLine(data) && data != "" && FromFirstFull([data]) == [data] && JoinedLines([data]) == data;
  }

  lemma {:induction false} PrintedEventsComeBack(es: seq<Event>, parse: string -> Option<Json>, dump: Json -> string,
      cr: bool)
    requires Faithful(parse, dump) && forall e | e in es :: OfMessage(e)
    ensures forall item | item in PrintedEvents(es, dump, cr) :: Printable(item)
    ensures Decoded(AllEventsOf(PrintedEvents(es, dump, cr)), Decoder(parse, dump)) == es
  {
    hide Faithful, OfMessage, Printable, PrintedEvent, EventsOf, Decoder;
    if es != [] {
      var init, last := es[..|es| - 1], es[|es| - 1];
      PrintedEventsComeBack(init, parse, dump, cr);
      PrintedEventComesBack(last, parse, dump, cr);
      var items := PrintedEvents(es, dump, cr);
      assert items[..|items| - 1] == PrintedEvents(init, dump, cr);
      DecodedAppend(AllEventsOf(PrintedEvents(init, dump, cr)), EventsOf(items[|items| - 1]), Decoder(parse, dump));
    }
  }

  lemma {:induction false} DescribesOnlyMessages(es: seq<Event>, blocks: seq<Block>)
    requires Describes(es, blocks) && |blocks| < 0x8000_0000
    ensures forall e | e in es :: OfMessage(e)
  {
    if es != [] {
      DescribesOnlyMessages(es[..|es| - 1], blocks);
      StartedInRange(es[..|es| - 1], blocks);
      assert forall e | e in es :: e in es[..|es| - 1] || e == es[|es| - 1];
    }
  }

  /** A message printed event by event is answered with its texts and calls if the blank line after its end is
      missing, and fails if it is there, as the format asks for. */
  lemma PrintedMessage(es: seq<Event>, blocks: seq<Block>, parse: string -> Option<Json>, dump: Json -> string,
      cr: bool)
    requires Faithful(parse, dump) && Serialises(es, blocks) && |blocks| < 0x8000_0000
    ensures var body := PrintAll(PrintedEvents(es, dump, cr)) +
                        PrintFields("message_stop", [dump(Payload(MessageStop))], cr);
            && Called(body, Decoder(parse, dump)) ==
               Answer(Response(TextsOf(blocks), StreamedCalls(es, blocks, |blocks|), "stop"))
            && Called(body + Ended("", cr), Decoder(parse, dump)) == Failure
  {
    hide Faithful, Describes, OfMessage, Called, Decoder, Decoded, PrintedEvent, PrintedEvents, PrintAll, PrintFields,
      Print, Printable, AllEventsOf, EventsOf, Payload, StreamedCalls, TextsOf;
    var items, data := PrintedEvents(es, dump, cr), [dump(Payload(MessageStop))];
    var stop := Message("message_stop", data, cr);
    DescribesOnlyMessages(es, blocks);
    PrintedEventsComeBack(es, parse, dump, cr);
    StopComesBack(parse, dump, cr);
    LastMessageComesBack(items, "message_stop", data, cr);
    DecodedAppend(AllEventsOf(items), EventsOf(stop), Decoder(parse, dump));
    EndedMessage(PrintAll(items) + PrintFields("message_stop", data, cr), es, blocks, Decoder(parse, dump));
    PrintedWithStop(items, "message_stop", data, cr);
    PrintedMessagesComeBack(items + [stop]);
    assert AllEventsOf(items) + EventsOf(stop) + [] == AllEventsOf(items) + EventsOf(stop);
    EndedMessage(PrintAll(items + [stop]), es, blocks, Decoder(parse, dump));
  }

  lemma PrintedWithStop(items: seq<Item>, name: string, lines: seq<string>, cr: bool)
    ensures var stop := Message(name, lines, cr);
            && PrintAll(items + [stop]) == PrintAll(items) + PrintFields(name, lines, cr) + Ended("", cr)
            && AllEventsOf(items + [stop]) == AllEventsOf(items) + EventsOf(stop)
  {
    hide PrintFields, EventsOf, Ended;
    var stop := Message(name, lines, cr);
    assert (items + [stop])[..|items|] == items;
    Regroup(PrintAll(items), PrintFields(name, lines, cr), Ended("", cr));
  }

  /** The end of the message has to wait for the end of the body. */
  lemma EndedMessage(body: string, es: seq<Event>, blocks: seq<Block>, decode: SseEvent -> Event)
    requires Serialises(es, blocks) && Decoded(AllEvents(body), decode) == es + [MessageStop]
    ensures Called(body, decode) ==
            if AfterBody(body) == [] then Failure
            else Answer(Response(TextsOf(blocks), StreamedCalls(es, blocks, |blocks|), "stop"))
  {
    hide Serialises, Called, Streamed, AllEvents, AfterBody, StreamedCalls, TextsOf, CutLines, HasData, Unfinished;
    assert [MessageStop] + [] == [MessageStop];
    CallAnswersIff(body, decode, es, blocks, []);
    AfterBodyIff(body);
    StreamedMessage(es, blocks, []);
  }

  lemma StopComesBack(parse: string -> Option<Json>, dump: Json -> string, cr: bool)
    requires Faithful(parse, dump)
    ensures PrintedEvent(MessageStop, dump, cr) == Message("message_stop", [dump(Payload(MessageStop))], cr)
    ensures Printable(PrintedEvent(MessageStop, dump, cr))
    ensures Decoded(EventsOf(PrintedEvent(MessageStop, dump, cr)), Decoder(parse, dump)) == [MessageStop]
  {
    hide Faithful, Decoder, EventsOf, Printable, Decoded;
    PrintedEventComesBack(MessageStop, parse, dump, cr);
  }

  /** The smallest message with a text and a call in two pieces, member by member. */
  lemma TextAndCall(text: string, id: string, name: string, x: string, y: string, input: Json,
      parse: string -> Option<Json>, dump: Json -> string, cr: bool)
    requires Faithful(parse, dump)
    ensures var es := [TextDelta(text), ToolStart(1, id, name), JsonDelta(1, x), JsonDelta(1, y)];
            var body := PrintAll(PrintedEvents(es, dump, cr)) +
                        PrintFields("message_stop", [dump(Payload(MessageStop))], cr);
            var call := map["id" := Str(id), "type" := Str("function"),
                            "function" := Obj(map["name" := Str(name), "arguments" := Str(x + y)])];
            Called(body, Decoder(parse, dump)) == Answer(Response(text, [Obj(call)], "stop"))
  {
    var es, blocks := [TextDelta(text), ToolStart(1, id, name), JsonDelta(1, x), JsonDelta(1, y)],
                      [TextBlock(text), ToolBlock(id, name, input)];
    TextAndCallSerialise(text, id, name, x, y, input);
    hide *;
    PrintedMessage(es, blocks, parse, dump, cr);
  }

  lemma TextAndCallSerialise(text: string, id: string, name: string, x: string, y: string, input: Json)
    ensures var es, blocks := [TextDelta(text), ToolStart(1, id, name), JsonDelta(1, x), JsonDelta(1, y)],
                              [TextBlock(text), ToolBlock(id, name, input)];
            && Serialises(es, blocks) && TextsOf(blocks) == text
            && StreamedCalls(es, blocks, |blocks|) ==
               [Obj(map["id" := Str(id), "type" := Str("function"),
                        "function" := Obj(map["name" := Str(name), "arguments" := Str(x + y)])])]
  {
    var es, blocks := [TextDelta(text), ToolStart(1, id, name), JsonDelta(1, x), JsonDelta(1, y)],
                      [TextBlock(text), ToolBlock(id, name, input)];
    TextAndCallEvents(text, id, name, x, y, input);
    BlocksAdded([], blocks[0]);
    BlocksAdded([blocks[0]], blocks[1]);
    hide Describes, Started, DeltaText, ArgumentText, TextsOf;
    assert [] + [blocks[0]] == [blocks[0]] && [blocks[0]] + [blocks[1]] == blocks;
    assert "" + text == text && text + "" == text;
    CallOfSecond(es, blocks);
  }

  lemma CallOfSecond(es: seq<Event>, blocks: seq<Block>)
    requires |blocks| == 2 && !blocks[0].ToolBlock? && blocks[1].ToolBlock?
    ensures StreamedCalls(es, blocks, 2) == [CallOf(blocks[1].id, blocks[1].name, ArgumentText(es, 1))]
  {
    assert StreamedCalls(es, blocks, 0) == [] && StreamedCalls(es, blocks, 1) == [];
  }

  lemma TextAndCallEvents(text: string, id: string, name: string, x: string, y: string, input: Json)
    ensures var es := [TextDelta(text), ToolStart(1, id, name), JsonDelta(1, x), JsonDelta(1, y)];
            && Describes(es, [TextBlock(text), ToolBlock(id, name, input)]) && Started(es) == {1}
            && DeltaText(es) == text && ArgumentText(es, 1) == x + y
  {
    var blocks := [TextBlock(text), ToolBlock(id, name, input)];
    var a, b, c, d := TextDelta(text), ToolStart(1, id, name), JsonDelta(1, x), JsonDelta(1, y);
    EventAdded([], a, blocks, input);
    EventAdded([a], b, blocks, input);
    EventAdded([a, b], c, blocks, input);
    EventAdded([a, b, c], d, blocks, input);
    hide Describes, Started, DeltaText, ArgumentText;
    assert "" + x == x && "" + text == text;
    assert [] + [a] == [a] && [a] + [b] == [a, b] && [a, b] + [c] == [a, b, c] && [a, b, c] + [d] == [a, b, c, d];
  }

  lemma EventAdded(es: seq<Event>, e: Event, blocks: seq<Block>, input: Json)
    ensures Started([]) == {} && DeltaText([]) == "" && Describes([], blocks) && ArgumentText([], 1) == ""
    ensures Started(es + [e]) == if e.ToolStart? then Started(es) + {e.index} else Started(es)
    ensures DeltaText(es + [e]) == if e.TextDelta? then DeltaText(es) + e.text else DeltaText(es)
    ensures ArgumentText(es + [e], 1) ==
            if e.JsonDelta? && e.index == 1 then ArgumentText(es, 1) + e.partial else ArgumentText(es, 1)
    ensures Describes(es, blocks) && e.TextDelta? ==> Describes(es + [e], blocks)
    ensures Describes(es, blocks) && e.JsonDelta? && e.index in Started(es) ==> Describes(es + [e], blocks)
    ensures (&& Describes(es, blocks) && e.ToolStart? && 0 <= e.index < |blocks| && e.index !in Started(es)
             && blocks[e.index] == ToolBlock(e.id, e.name, input)) ==> Describes(es + [e], blocks)
  {
    assert (es + [e])[..|es|] == es;
  }

  lemma BlocksAdded(blocks: seq<Block>, b: Block)
    ensures TextsOf([]) == "" && TextsOf(blocks + [b]) == TextsOf(blocks) + BlockText(b)
  {
    assert (blocks + [b])[..|blocks|] == blocks;
  }
}
