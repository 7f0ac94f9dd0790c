/**
 Putting a streamed chat response together: deltas of tool calls are merged into slots.
 */
module StreamMerge {

  /** A JSON value; an object's members are looked up by name, so their order plays no part. */
  datatype Json =
    | Null
    | Bool(b: bool)
    | Int(n: int)
    | Str(s: string)
    | Arr(items: seq<Json>)
    | Obj(fields: map<string, Json>)

  const EMPTY := Obj(map[])

  datatype Chunk = Chunk(text: string, delta: Json, finished: bool)

  datatype Aggregate = Aggregate(content: string, partial: seq<Json>, finishReason: string)

  // ---- Merging one delta --------------------------------------------------------------

  function Merged(target: Json, delta: Json): (r: Json)
    requires target.Obj?
    ensures r.Obj?
    decreases delta, 0
  {
    if !delta.Obj? then target
    else
      Obj(map k | k in target.fields.Keys + delta.fields.Keys ::
            if k !in delta.fields then target.fields[k]
            else if k !in target.fields then delta.fields[k]
            else Combined(k, target.fields[k], delta.fields[k]))
  }

  /** A member present on both sides: objects merge, pieces of "arguments" are joined, anything else is
      replaced. */
  function Combined(key: string, existing: Json, value: Json): Json
    decreases value, 1
  {
    if existing.Obj? && value.Obj? then Merged(existing, value)
    else if key == "arguments" && existing.Str? && value.Str? then Str(existing.s + value.s)
    else value
  }

  method MergeObject(target: Json, delta: Json) returns (r: Json)
    requires target.Obj?
    ensures r == Merged(target, delta)
    decreases delta
  {
    r := target;
    if !delta.Obj? { return; }
    var keys := delta.fields.Keys;
    while keys != {}
      invariant keys <= delta.fields.Keys
      invariant r.Obj? && r.fields.Keys == target.fields.Keys + (delta.fields.Keys - keys)
      invariant forall k | k in r.fields ::
                  r.fields[k] == if k in keys || k !in delta.fields then target.fields[k]
                                 else if k !in target.fields then delta.fields[k]
                                 else Combined(k, target.fields[k], delta.fields[k])
      decreases keys
    {
      var key :| key in keys;
      keys := keys - {key};
      var value := delta.fields[key];
      if key !in r.fields {
        r := Obj(r.fields[key := value]);
        continue;
      }
      var existing := r.fields[key];
      if existing.Obj? && value.Obj? {
        var merged := MergeObject(existing, value);
        r := Obj(r.fields[key := merged]);
        continue;
      }
      if key == "arguments" && existing.Str? && value.Str? {
        r := Obj(r.fields[key := Str(existing.s + value.s)]);
        continue;
      }
      r := Obj(r.fields[key := value]);
    }
  }

  /** What a merge does to one member. */
  lemma MemberMerged(target: Json, delta: Json, k: string)
    requires target.Obj? && delta.Obj?
    ensures var r, t, d := Merged(target, delta).fields, target.fields, delta.fields;
            && (k in r <==> k in t || k in d)
            && (k in t && k !in d ==> r[k] == t[k])
            && (k in d && k !in t ==> r[k] == d[k])
            && (k in t && k in d && t[k].Obj? && d[k].Obj? ==> r[k] == Merged(t[k], d[k]))
            && (k in t && k in d && k == "arguments" && t[k].Str? && d[k].Str? ==> r[k] == Str(t[k].s + d[k].s))
            && (k in t && k in d && !(t[k].Obj? && d[k].Obj?) && !(k == "arguments" && t[k].Str? && d[k].Str?) ==>
                  r[k] == d[k])
  {}

  lemma MergeEmpty(target: Json)
    requires target.Obj?
    ensures Merged(target, EMPTY) == target
  {}

  lemma MergeIntoEmpty(delta: Json)
    requires delta.Obj?
    ensures Merged(EMPTY, delta) == delta
  {
    assert Merged(EMPTY, delta).fields == delta.fields;
  }

  // ---- The slots ------------------------------------------------------------------------

  predicate HasIndex(delta: Json) {
    delta.Obj? && "index" in delta.fields && delta.fields["index"].Int? && delta.fields["index"].n >= 0
  }

  function IndexOf(delta: Json): nat
    requires HasIndex(delta)
  {
    delta.fields["index"].n
  }

  function IdOf(j: Json): string {
    if j.Obj? && "id" in j.fields && j.fields["id"].Str? then j.fields["id"].s else ""
  }

  /** The first slot from `from` on whose id is `id`, or |partial|. */
  function SlotWithId(partial: seq<Json>, id: string, from: nat): (k: nat)
    requires from <= |partial|
    ensures from <= k <= |partial|
    decreases |partial| - from
  {
    if from == |partial| || IdOf(partial[from]) == id then from else SlotWithId(partial, id, from + 1)
  }

  function FindSlot(partial: seq<Json>, delta: Json): nat {
    if HasIndex(delta) then IndexOf(delta)
    else if IdOf(delta) != "" && SlotWithId(partial, IdOf(delta), 0) < |partial|
    then SlotWithId(partial, IdOf(delta), 0)
    else if partial == [] then 0
    else |partial| - 1
  }

  lemma {:induction false} SlotWithIdIsFirst(partial: seq<Json>, id: string, from: nat)
    requires from <= |partial|
    ensures var k := SlotWithId(partial, id, from);
            (k < |partial| ==> IdOf(partial[k]) == id) && forall i | from <= i < k :: IdOf(partial[i]) != id
    decreases |partial| - from
  {
    if from < |partial| && IdOf(partial[from]) != id { SlotWithIdIsFirst(partial, id, from + 1); }
  }

  /** The slot of a delta: the one of its index; or else the first with its id; or else the last, or the first to be. */
  lemma SlotIs(partial: seq<Json>, delta: Json)
    ensures var slot := FindSlot(partial, delta);
            var indexed := delta.Obj? && "index" in delta.fields && delta.fields["index"].Int? &&
                           delta.fields["index"].n >= 0;
            var named := delta.Obj? && "id" in delta.fields && delta.fields["id"].Str?;
            var id := if named then delta.fields["id"].s else "";
            && (indexed ==> slot == delta.fields["index"].n)
            && (!indexed && id != "" && (exists i :: 0 <= i < |partial| && IdOf(partial[i]) == id) ==>
                  slot < |partial| && IdOf(partial[slot]) == id && forall i | 0 <= i < slot :: IdOf(partial[i]) != id)
            && (!indexed && (id == "" || forall i | 0 <= i < |partial| :: IdOf(partial[i]) != id) ==>
                  slot == if partial == [] then 0 else |partial| - 1)
  {
    SlotWithIdIsFirst(partial, IdOf(delta), 0);
  }

  function Grown(partial: seq<Json>, n: nat): (r: seq<Json>)
    ensures |r| == if |partial| < n then n else |partial|
    ensures forall i | 0 <= i < |r| :: r[i] == if i < |partial| then partial[i] else EMPTY
  {
    if |partial| < n then partial + seq(n - |partial|, _ => EMPTY) else partial
  }

  predicate AllObjects(partial: seq<Json>) {
    forall i | 0 <= i < |partial| :: partial[i].Obj?
  }

  function Placed(partial: seq<Json>, delta: Json): (r: seq<Json>)
    requires AllObjects(partial)
    ensures AllObjects(r)
  {
    if !delta.Obj? then partial
    else
      var slot := FindSlot(partial, delta);
      var grown := Grown(partial, slot + 1);
      grown[slot := Merged(grown[slot], delta)]
  }

  function OnChunk(a: Aggregate, c: Chunk): (r: Aggregate)
    requires AllObjects(a.partial)
    ensures AllObjects(r.partial)
  {
    Aggregate(a.content + c.text, Placed(a.partial, c.delta),
              if c.finished && a.finishReason == "" then "stop" else a.finishReason)
  }

  function Aggregated(cs: seq<Chunk>): (a: Aggregate)
    ensures AllObjects(a.partial)
  {
    if cs == [] then Aggregate("", [], "") else OnChunk(Aggregated(cs[..|cs| - 1]), cs[|cs| - 1])
  }

  // ---- The finished list --------------------------------------------------------------------

  /** A tool call without its index and with a type. */
  function Finished(call: Json): Json
    requires call.Obj?
  {
    var fields := call.fields - {"index"};
    Obj(if "type" !in fields || !fields["type"].Str? || fields["type"].s == ""
        then fields["type" := Str("function")] else fields)
  }

  /** A finished call has lost its index, and has a type: its own, if that is a text that is not empty. */
  lemma FinishedHas(call: Json, k: string)
    requires call.Obj?
    ensures var r, c := Finished(call).fields, call.fields;
            && "index" !in r && "type" in r
            && (k != "index" && k != "type" ==> (k in r <==> k in c) && (k in c ==> r[k] == c[k]))
            && r["type"] == (if "type" in c && c["type"].Str? && c["type"].s != "" then c["type"] else Str("function"))
  {}

  function FinishedOrSkipped(call: Json): seq<Json>
    requires call.Obj?
  {
    if call == EMPTY then [] else [Finished(call)]
  }

  function Collected(partial: seq<Json>): seq<Json>
    requires AllObjects(partial)
  {
    if partial == [] then []
    else Collected(partial[..|partial| - 1]) + FinishedOrSkipped(partial[|partial| - 1])
  }

  datatype Response = Response(content: string, toolCalls: seq<Json>, finishReason: string)

  function Assembled(cs: seq<Chunk>): Response {
    var a := Aggregated(cs);
    Response(a.content, Collected(a.partial), a.finishReason)
  }

  class Aggregator {
    var content: string
    var partialToolCalls: seq<Json>
    var finishReason: string

    ghost function View(): Aggregate
      reads this
    {
      Aggregate(content, partialToolCalls, finishReason)
    }

    constructor ()
      ensures View() == Aggregated([])
    {
      content, partialToolCalls, finishReason := "", [], "";
    }

    method FindSlotForDelta(delta: Json) returns (slot: nat)
      ensures slot == FindSlot(partialToolCalls, delta)
    {
      if HasIndex(delta) { return delta.fields["index"].n; }
      var id := IdOf(delta);
      if id != "" {
        for i := 0 to |partialToolCalls|
          invariant SlotWithId(partialToolCalls, id, 0) == SlotWithId(partialToolCalls, id, i)
        {
          if IdOf(partialToolCalls[i]) == id { return i; }
        }
      }
      if partialToolCalls == [] { return 0; }
      return |partialToolCalls| - 1;
    }

    method HandleChunk(c: Chunk)
      requires AllObjects(partialToolCalls)
      modifies this
      ensures View() == OnChunk(old(View()), c)
    {
      content := content + c.text;
      if !c.delta.Null? && c.delta.Obj? {
        var slot := FindSlotForDelta(c.delta);
        if slot >= |partialToolCalls| {
          partialToolCalls := partialToolCalls + seq(slot + 1 - |partialToolCalls|, _ => EMPTY);
        }
        var merged := MergeObject(partialToolCalls[slot], c.delta);
        partialToolCalls := partialToolCalls[slot := merged];
      }
      if c.finished {
        if finishReason == "" { finishReason := "stop"; }
      }
    }

    method Collect() returns (calls: seq<Json>)
      requires AllObjects(partialToolCalls)
      ensures calls == Collected(partialToolCalls)
    {
      calls := [];
      for i := 0 to |partialToolCalls|
        invariant calls == Collected(partialToolCalls[..i])
      {
        var call := partialToolCalls[i];
        assert partialToolCalls[..i + 1][..i] == partialToolCalls[..i];
        if call.fields == map[] { continue; }
        var fields := call.fields;
        if "index" in fields { fields := fields - {"index"}; }
        else { assert fields - {"index"} == fields; }
        if "type" !in fields || !fields["type"].Str? || fields["type"].s == "" {
          fields := fields["type" := Str("function")];
        }
        calls := calls + [Obj(fields)];
      }
      assert partialToolCalls[..|partialToolCalls|] == partialToolCalls;
    }
  }

  method RunChatOnce(cs: seq<Chunk>) returns (r: Response)
    ensures r == Assembled(cs)
  {
    var aggregated := new Aggregator();
    for i := 0 to |cs|
      invariant aggregated.View() == Aggregated(cs[..i])
    {
      assert cs[..i + 1][..i] == cs[..i];
      aggregated.HandleChunk(cs[i]);
    }
    assert cs[..|cs|] == cs;
    var calls := aggregated.Collect();
    r := Response(aggregated.content, calls, aggregated.finishReason);
  }

  // ---- With explicit indexes, slots are independent --------------------------------------------

  /** A chunk that says where its delta goes, or brings none. */
  predicate Explicit(c: Chunk) {
    HasIndex(c.delta) || c.delta == EMPTY || !c.delta.Obj?
  }

  function DeltasFor(cs: seq<Chunk>, i: nat): seq<Json> {
    if cs == [] then []
    else
      var init, last := DeltasFor(cs[..|cs| - 1], i), cs[|cs| - 1];
      if HasIndex(last.delta) && IndexOf(last.delta) == i then init + [last.delta] else init
  }

  function MergedAll(deltas: seq<Json>): (r: Json)
    ensures r.Obj?
  {
    if deltas == [] then EMPTY else Merged(MergedAll(deltas[..|deltas| - 1]), deltas[|deltas| - 1])
  }

  function TextOf(cs: seq<Chunk>): string {
    if cs == [] then "" else TextOf(cs[..|cs| - 1]) + cs[|cs| - 1].text
  }

  /** Slot i holds the merge of the deltas with index i, whatever else came in between. */
  lemma {:induction false} SlotsAreIndependent(cs: seq<Chunk>, i: nat)
    requires forall c | c in cs :: Explicit(c)
    ensures var p := Aggregated(cs).partial;
            MergedAll(DeltasFor(cs, i)) == if i < |p| then p[i] else EMPTY
    ensures Aggregated(cs).content == TextOf(cs)
  {
    hide Merged, SlotWithId, IdOf;
    if cs != [] {
      var init, last := cs[..|cs| - 1], cs[|cs| - 1];
      assert last in cs && forall c | c in init :: c in cs;
      SlotsAreIndependent(init, i);
      if HasIndex(last.delta) && IndexOf(last.delta) == i {
        var ds := DeltasFor(init, i);
        assert (ds + [last.delta])[..|ds|] == ds;
      } else {
        assert DeltasFor(cs, i) == DeltasFor(init, i);
        PlacedElsewhere(Aggregated(init).partial, last.delta, i);
      }
    }
  }

  lemma PlacedElsewhere(partial: seq<Json>, delta: Json, i: nat)
    requires AllObjects(partial)
    requires delta == EMPTY || !delta.Obj? || (HasIndex(delta) && IndexOf(delta) != i)
    ensures var p := Placed(partial, delta);
            (if i < |p| then p[i] else EMPTY) == if i < |partial| then partial[i] else EMPTY
  {
    if delta == EMPTY {
      var slot := FindSlot(partial, delta);
      MergeEmpty(Grown(partial, slot + 1)[slot]);
    }
  }

  function CollectedSlots(cs: seq<Chunk>, n: nat): seq<Json> {
    if n == 0 then [] else CollectedSlots(cs, n - 1) + FinishedOrSkipped(MergedAll(DeltasFor(cs, n - 1)))
  }

  /** The finished list is that of the slots, however many empty ones follow. */
  lemma {:induction false} CollectedBySlots(cs: seq<Chunk>, n: nat)
    requires forall c | c in cs :: Explicit(c)
    requires n >= |Aggregated(cs).partial|
    ensures Collected(Aggregated(cs).partial) == CollectedSlots(cs, n)
  {
    hide Aggregated, MergedAll, DeltasFor, Finished;
    var p := Aggregated(cs).partial;
    if n > |p| {
      CollectedBySlots(cs, n - 1);
      SlotsAreIndependent(cs, n - 1);
      assert CollectedSlots(cs, n) == CollectedSlots(cs, n - 1) + [];
    } else {
      CollectedFront(cs, n);
      assert p[..n] == p;
    }
  }

  lemma {:induction false} CollectedFront(cs: seq<Chunk>, n: nat)
    requires forall c | c in cs :: Explicit(c)
    requires n <= |Aggregated(cs).partial|
    ensures Collected(Aggregated(cs).partial[..n]) == CollectedSlots(cs, n)
  {
    if n > 0 {
      hide Aggregated, MergedAll, DeltasFor, Finished;
      var p := Aggregated(cs).partial;
      CollectedFront(cs, n - 1);
      SlotsAreIndependent(cs, n - 1);
      assert p[..n][..n - 1] == p[..n - 1];
    }
  }

  /** Two streams whose texts agree, and whose deltas agree index by index, give the same response, however the
      deltas of different indexes are interleaved. */
  lemma InterleavingDoesNotMatter(xs: seq<Chunk>, ys: seq<Chunk>)
    requires forall c | c in xs :: Explicit(c)
    requires forall c | c in ys :: Explicit(c)
    requires TextOf(xs) == TextOf(ys) && forall i: nat :: DeltasFor(xs, i) == DeltasFor(ys, i)
    ensures Assembled(xs).content == Assembled(ys).content
    ensures Assembled(xs).toolCalls == Assembled(ys).toolCalls
  {
    var n := |Aggregated(xs).partial| + |Aggregated(ys).partial|;
    SlotsAreIndependent(xs, 0);
    SlotsAreIndependent(ys, 0);
    CollectedBySlots(xs, n);
    CollectedBySlots(ys, n);
    SameSlots(xs, ys, n);
  }

  lemma {:induction false} SameSlots(xs: seq<Chunk>, ys: seq<Chunk>, n: nat)
    requires forall i: nat :: DeltasFor(xs, i) == DeltasFor(ys, i)
    ensures CollectedSlots(xs, n) == CollectedSlots(ys, n)
  {
    if n > 0 {
      SameSlots(xs, ys, n - 1);
      assert DeltasFor(xs, n - 1) == DeltasFor(ys, n - 1);
    }
  }

  // ---- Fragments of arguments --------------------------------------------------------------------

  function ToolCall(index: int, id: string, name: string, arguments: string): Json {
    Obj(map["index" := Int(index), "id" := Str(id), "type" := Str("function"),
            "function" := Obj(map["name" := Str(name), "arguments" := Str(arguments)])])
  }

  function Fragment(index: int, arguments: string): Json {
    Obj(map["index" := Int(index), "function" := Obj(map["arguments" := Str(arguments)])])
  }

  function Joined(parts: seq<string>): string {
    if parts == [] then "" else Joined(parts[..|parts| - 1]) + parts[|parts| - 1]
  }

  function Fragments(index: int, parts: seq<string>): seq<Json> {
    seq(|parts|, i requires 0 <= i < |parts| => Fragment(index, parts[i]))
  }

  lemma MergeFragment(index: int, id: string, name: string, x: string, y: string)
    ensures Merged(ToolCall(index, id, name, x), Fragment(index, y)) == ToolCall(index, id, name, x + y)
  {
    var t, d := ToolCall(index, id, name, x), Fragment(index, y);
    var f, g := t.fields["function"], d.fields["function"];
    assert Merged(f, g) == Obj(map["name" := Str(name), "arguments" := Str(x + y)]);
    assert Combined("function", f, g) == Merged(f, g);
    assert Combined("index", Int(index), Int(index)) == Int(index);
  }

  /** A call whose arguments come in fragments ends up with the fragments joined. */
  lemma {:induction false} FragmentsAreJoined(index: int, id: string, name: string, parts: seq<string>)
    ensures MergedAll([ToolCall(index, id, name, "")] + Fragments(index, parts)) ==
            ToolCall(index, id, name, Joined(parts))
  {
    var first := ToolCall(index, id, name, "");
    var all := [first] + Fragments(index, parts);
    if parts == [] {
      assert all == [first] && [first][..0] == [];
      MergeIntoEmpty(first);
    } else {
      var init := parts[..|parts| - 1];
      FragmentsAreJoined(index, id, name, init);
      assert all[..|all| - 1] == [first] + Fragments(index, init);
      MergeFragment(index, id, name, Joined(init), parts[|parts| - 1]);
    }
  }
}
