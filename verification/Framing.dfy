/**
 Length-prefixed framing: the four-byte big-endian header, the sender that survives partial
 sends, and the receiver that survives partial receives.

 On an unsigned 32-bit word, a shift right by 8k is division by 256^k, a mask with 0xff is the
 remainder by 256, and `|` of words with no common bit is addition.
 */
module Framing {
  import opened Common

  type Byte = b: int | 0 <= b < 256
  const WORDS := 0x1_0000_0000
  type Word = n: int | 0 <= n < WORDS

  datatype Io<+T> = Ok(value: T) | Err(message: string)

  function EncodeFrameLength(length: Word): seq<Byte> {
    [length / 0x100_0000 % 256, length / 0x1_0000 % 256, length / 0x100 % 256, length % 256]
  }

  function DecodeFrameLength(header: seq<Byte>): Word
    requires |header| == 4
  {
    var b0: int, b1: int, b2: int, b3: int := header[0], header[1], header[2], header[3];
    b0 * 0x100_0000 + b1 * 0x1_0000 + b2 * 0x100 + b3
  }

  lemma DecodeEncode(length: Word)
    ensures DecodeFrameLength(EncodeFrameLength(length)) == length
  {
    assert length / 0x1_0000 == length / 0x100_0000 * 256 + length / 0x1_0000 % 256;
    assert length / 0x100 == length / 0x1_0000 * 256 + length / 0x100 % 256;
  }

  lemma Digits(b0: int, b1: int, b2: int, b3: int)
    requires 0 <= b0 < 256 && 0 <= b1 < 256 && 0 <= b2 < 256 && 0 <= b3 < 256
    ensures var n := b0 * 0x100_0000 + b1 * 0x1_0000 + b2 * 0x100 + b3;
            n / 0x100_0000 % 256 == b0 && n / 0x1_0000 % 256 == b1 && n / 0x100 % 256 == b2 && n % 256 == b3
  {
    var n := b0 * 0x100_0000 + b1 * 0x1_0000 + b2 * 0x100 + b3;
    assert n / 0x100 == b0 * 0x1_0000 + b1 * 0x100 + b2;
    assert n / 0x1_0000 == b0 * 0x100 + b1;
    assert n / 0x100_0000 == b0;
  }

  lemma EncodeDecode(header: seq<Byte>)
    requires |header| == 4
    ensures EncodeFrameLength(DecodeFrameLength(header)) == header
  {
    Digits(header[0], header[1], header[2], header[3]);
  }

  /** The first byte is the most significant one: of two different lengths the greater has the greater byte where their
      headers first differ. */
  lemma HeadersInOrder(m: Word, n: Word)
    ensures m < n <==> exists i :: 0 <= i < 4 && EncodeFrameLength(m)[..i] == EncodeFrameLength(n)[..i] &&
                                   EncodeFrameLength(m)[i] < EncodeFrameLength(n)[i]
  {
    var x, y := EncodeFrameLength(m), EncodeFrameLength(n);
    DecodeEncode(m);
    DecodeEncode(n);
    if m < n {
      var i := if x[0] != y[0] then 0 else if x[1] != y[1] then 1 else if x[2] != y[2] then 2 else 3;
      assert x[..i] == y[..i] && x[i] < y[i];
    }
    if i :| 0 <= i < 4 && x[..i] == y[..i] && x[i] < y[i] {
      assert forall j | 0 <= j < i :: x[j] == x[..i][j] && y[j] == y[..i][j];
    }
  }

  lemma HeaderOfBytes()
    ensures EncodeFrameLength(0x0102_0304) == [1, 2, 3, 4]
  {}

  /** The frame of a payload; a length that needs more than 32 bits is truncated. */
  function Frame(payload: seq<Byte>): seq<Byte> {
    EncodeFrameLength(|payload| % WORDS) + payload
  }

  function Frames(payloads: seq<seq<Byte>>): seq<Byte> {
    if payloads == [] then [] else Frame(payloads[0]) + Frames(payloads[1..])
  }

  method EncodeInto(length: Word, header: array<Byte>)
    requires header.Length == 4
    modifies header
    ensures header[..] == EncodeFrameLength(length)
  {
    header[0] := length / 0x100_0000 % 256;
    header[1] := length / 0x1_0000 % 256;
    header[2] := length / 0x100 % 256;
    header[3] := length % 256;
  }

  method MakeFrame(payload: seq<Byte>) returns (frame: array<Byte>)
    ensures fresh(frame) && frame[..] == Frame(payload)
  {
    var header := new Byte[4](_ => 0);
    EncodeInto(|payload| % WORDS, header);
    frame := new Byte[4 + |payload|](_ => 0);
    forall i | 0 <= i < 4 { frame[i] := header[i]; }
    forall i | 0 <= i < |payload| { frame[4 + i] := payload[i]; }
    assert frame[..] == header[..] + payload;
  }

  // ---- One call to the operating system ------------------------------------------------

  /** What one send does: takes up to n bytes, or asks to wait, or fails. */
  datatype SendOutcome = Accept(n: nat) | WouldBlock | DeadlinePassed | SelectFailed | SendFailed

  /** What one receive does: delivers up to n bytes, or fails. */
  datatype RecvOutcome = Deliver(n: nat) | RecvFailed

  function Min(x: nat, y: nat): nat { if x <= y then x else y }

  datatype Sent = Sent(bytes: seq<Byte>, later: seq<SendOutcome>, result: Io<()>)

  /** Everything `send_all` puts on the wire when the system answers with `outcomes`. */
  function Sending(data: seq<Byte>, outcomes: seq<SendOutcome>): Sent
    decreases |outcomes|
  {
    if data == [] then Sent([], outcomes, Ok(()))
    else if outcomes == [] then Sent([], [], Err("send timeout"))
    else
      match outcomes[0]
      case Accept(n) =>
        if n == 0 then Sent([], outcomes[1..], Err("send returned 0 (connection closed)"))
        else
          var k := Min(n, |data|);
          var rest := Sending(data[k..], outcomes[1..]);
          Sent(data[..k] + rest.bytes, rest.later, rest.result)
      case WouldBlock => Sending(data, outcomes[1..])
      case DeadlinePassed => Sent([], outcomes[1..], Err("send timeout"))
      case SelectFailed => Sent([], outcomes[1..], Err("select failed"))
      case SendFailed => Sent([], outcomes[1..], Err("send failed"))
  }

  /** `valid` is the JSON parser's verdict on the payload. */
  function SendingJson(json: seq<Byte>, valid: bool, outcomes: seq<SendOutcome>): Sent {
    if !valid then Sent([], outcomes, Err("Invalid JSON"))
    else
      var header := Sending(EncodeFrameLength(|json| % WORDS), outcomes);
      if header.result.Err? || json == [] then header
      else
        var body := Sending(json, header.later);
        Sent(header.bytes + body.bytes, body.later, body.result)
  }

  datatype Received = Received(data: seq<Byte>, wire: seq<Byte>, later: seq<RecvOutcome>, result: Io<()>)

  /** Everything `recv_all` takes off the wire while asking for `want` bytes. */
  function Receiving(wire: seq<Byte>, outcomes: seq<RecvOutcome>, want: nat): (r: Received)
    ensures |r.data| <= want && (r.result.Ok? <==> |r.data| == want)
    decreases |outcomes|
  {
    if want == 0 then Received([], wire, outcomes, Ok(()))
    else if outcomes == [] then Received([], wire, [], Err("connection closed"))
    else if outcomes[0].RecvFailed? then Received([], wire, outcomes[1..], Err("recv failed"))
    else
      var k := Min(Min(outcomes[0].n, want), |wire|);
      if k == 0 then Received([], wire, outcomes[1..], Err("connection closed"))
      else
        var rest := Receiving(wire[k..], outcomes[1..], want - k);
        Received(wire[..k] + rest.data, rest.wire, rest.later, rest.result)
  }

  const CHUNK: nat := 0x1_0000

  function ReceivingChunks(wire: seq<Byte>, outcomes: seq<RecvOutcome>, want: nat): (r: Received)
    ensures |r.data| <= want && (r.result.Ok? <==> |r.data| == want)
    decreases want
  {
    if want == 0 then Received([], wire, outcomes, Ok(()))
    else
      var first := Receiving(wire, outcomes, Min(CHUNK, want));
      if first.result.Err? then first
      else
        var rest := ReceivingChunks(first.wire, first.later, want - Min(CHUNK, want));
        Received(first.data + rest.data, rest.wire, rest.later, rest.result)
  }

  datatype Message = Message(result: Io<seq<Byte>>, wire: seq<Byte>, later: seq<RecvOutcome>)

  function ReceivingMessage(wire: seq<Byte>, outcomes: seq<RecvOutcome>, max: Word): Message {
    var header := Receiving(wire, outcomes, 4);
    if header.result.Err? then Message(Err(header.result.message), header.wire, header.later)
    else
      var len := DecodeFrameLength(header.data);
      if len == 0 || len > max then Message(Err("invalid message size"), header.wire, header.later)
      else
        var body := ReceivingChunks(header.wire, header.later, len);
        Message(if body.result.Ok? then Ok(body.data) else Err(body.result.message), body.wire, body.later)
  }

  /** A receive that still has `want` bytes to go, with `done` in the buffer, ends up as `goal` after `start`. */
  ghost predicate LeadsTo(goal: Received, start: seq<Byte>, done: seq<Byte>, t: Received) {
    goal.result == t.result && goal.wire == t.wire && goal.later == t.later && start + goal.data == done + t.data
  }

  lemma LeadsToStep(goal: Received, start: seq<Byte>, done: seq<Byte>,
                    wire: seq<Byte>, outcomes: seq<RecvOutcome>, want: nat, k: nat)
    requires outcomes != [] && outcomes[0].Deliver? && 0 < k == Min(Min(outcomes[0].n, want), |wire|)
    requires LeadsTo(goal, start, done, Receiving(wire, outcomes, want))
    ensures LeadsTo(goal, start, done + wire[..k], Receiving(wire[k..], outcomes[1..], want - k))
  {
    var t := Receiving(wire[k..], outcomes[1..], want - k);
    Regroup(done, wire[..k], t.data);
  }

  /** A receive that brings no byte ends it with an error. */
  lemma ReceivingStops(wire: seq<Byte>, outcomes: seq<RecvOutcome>, want: nat)
    requires want > 0
    ensures outcomes == [] ==> Receiving(wire, outcomes, want) == Received([], wire, [], Err("connection closed"))
    ensures outcomes != [] && outcomes[0].RecvFailed? ==>
              Receiving(wire, outcomes, want) == Received([], wire, outcomes[1..], Err("recv failed"))
    ensures outcomes != [] && outcomes[0].Deliver? && Min(Min(outcomes[0].n, want), |wire|) == 0 ==>
              Receiving(wire, outcomes, want) == Received([], wire, outcomes[1..], Err("connection closed"))
  {}

  lemma ReceivingNothing(wire: seq<Byte>, outcomes: seq<RecvOutcome>)
    ensures Receiving(wire, outcomes, 0) == Received([], wire, outcomes, Ok(()))
  {}

  lemma LeadsToEnd(goal: Received, start: seq<Byte>, done: seq<Byte>, t: Received)
    requires LeadsTo(goal, start, done, t) && t.data == []
    ensures start + goal.data == done
  {
    assert done + t.data == done;
  }

  lemma ChunksStart(goal: Received)
    ensures LeadsTo(goal, [], [], goal)
  {}

  /** The same for chunks: a chunk read in full, */
  lemma ChunkStep(goal: Received, done: seq<Byte>, wire: seq<Byte>, outcomes: seq<RecvOutcome>, want: nat,
      first: Received)
    requires want > 0 && first == Receiving(wire, outcomes, Min(CHUNK, want)) && first.result.Ok?
    requires LeadsTo(goal, [], done, ReceivingChunks(wire, outcomes, want))
    ensures LeadsTo(goal, [], done + first.data, ReceivingChunks(first.wire, first.later, want - Min(CHUNK, want)))
  {
    Regroup(done, first.data, ReceivingChunks(first.wire, first.later, want - Min(CHUNK, want)).data);
  }

  /** a chunk that fails, */
  lemma ChunkFails(goal: Received, done: seq<Byte>, wire: seq<Byte>, outcomes: seq<RecvOutcome>, want: nat,
      first: Received)
    requires want > 0 && first == Receiving(wire, outcomes, Min(CHUNK, want)) && first.result.Err?
    requires LeadsTo(goal, [], done, ReceivingChunks(wire, outcomes, want))
    ensures goal.result == first.result && goal.wire == first.wire && goal.later == first.later
  {}

  /** and the end. */
  lemma ChunksEnd(goal: Received, done: seq<Byte>, wire: seq<Byte>, outcomes: seq<RecvOutcome>)
    requires LeadsTo(goal, [], done, ReceivingChunks(wire, outcomes, 0))
    ensures goal == Received(done, wire, outcomes, Ok(()))
  {
    assert [] + goal.data == goal.data && done + [] == done;
  }

  // ---- The loops -------------------------------------------------------------------------

  /** A connected socket: the bytes between the peers and the answers the system will give. */
  class SocketWrapper {
    var open: bool
    var wire: seq<Byte>
    var sends: seq<SendOutcome>
    var recvs: seq<RecvOutcome>

    method SendAll(data: seq<Byte>) returns (r: Io<()>)
      modifies this`wire, this`sends
      ensures var s := Sending(data, old(sends));
              r == s.result && wire == old(wire) + s.bytes && sends == s.later
    {
      var total := 0;
      while total < |data|
        invariant 0 <= total <= |data|
        invariant var s, t := Sending(data, old(sends)), Sending(data[total..], sends);
                  s.result == t.result && s.later == t.later && old(wire) + s.bytes == wire + t.bytes
        decreases |sends|
      {
        ghost var rest := data[total..];
        if sends == [] { return Err("send timeout"); }
        var outcome := sends[0];
        sends := sends[1..];
        match outcome
        case Accept(n) =>
          if n == 0 { return Err("send returned 0 (connection closed)"); }
          var sent := Min(n, |data| - total);
          assert rest[..sent] == data[total..total + sent] && rest[sent..] == data[total + sent..];
          wire := wire + data[total..total + sent];
          total := total + sent;
        case WouldBlock =>
        case DeadlinePassed => return Err("send timeout");
        case SelectFailed => return Err("select failed");
        case SendFailed => return Err("send failed");
      }
      return Ok(());
    }

    method SendJson(json: seq<Byte>, valid: bool) returns (r: Io<()>)
      modifies this`wire, this`sends
      ensures if !old(open) then r == Err("socket not open") && wire == old(wire) && sends == old(sends) else
                var s := SendingJson(json, valid, old(sends));
                r == s.result && wire == old(wire) + s.bytes && sends == s.later
    {
      if !open { return Err("socket not open"); }
      if !valid { return Err("Invalid JSON"); }
      r := SendAll(EncodeFrameLength(|json| % WORDS));
      if r.Err? { return; }
      if json != [] {
        r := SendAll(json);
      }
    }

    /** One receive of at most `want` bytes: how many came, 0 at the end of the stream, -1 on failure. */
    method Recv(buffer: array<Byte>, from: nat, want: nat) returns (rec: int)
      requires want > 0 && from + want <= buffer.Length
      modifies this`wire, this`recvs, buffer
      ensures recvs == if old(recvs) == [] then [] else old(recvs)[1..]
      ensures rec == if old(recvs) == [] then 0 else if old(recvs)[0].RecvFailed? then -1
                     else Min(Min(old(recvs)[0].n, want), |old(wire)|)
      ensures rec <= 0 ==> wire == old(wire) && buffer[..] == old(buffer[..])
      ensures rec > 0 ==> wire == old(wire)[rec..] && buffer[..from + rec] == old(buffer[..from]) + old(wire)[..rec]
    {
      if recvs == [] { return 0; }
      var outcome := recvs[0];
      recvs := recvs[1..];
      if outcome.RecvFailed? { return -1; }
      rec := Min(Min(outcome.n, want), |wire|);
      forall i | 0 <= i < rec { buffer[from + i] := wire[i]; }
      wire := wire[rec..];
    }

    /** Fills `buffer[from..from + len]`. */
    method RecvAll(buffer: array<Byte>, from: nat, len: nat) returns (r: Io<()>)
      requires from + len <= buffer.Length
      modifies this`wire, this`recvs, buffer
      ensures var s := Receiving(old(wire), old(recvs), len);
              && r == s.result && wire == s.wire && recvs == s.later
              && buffer[..from + |s.data|] == old(buffer[..from]) + s.data
    {
      hide Receiving;
      var total := 0;
      ghost var start, goal := buffer[..from], Receiving(wire, recvs, len);
      while total < len
        invariant 0 <= total <= len
        invariant LeadsTo(goal, start, buffer[..from + total], Receiving(wire, recvs, len - total))
        decreases |recvs|
      {
        ghost var before, wire0, recvs0 := buffer[..from + total], wire, recvs;
        var rec := Recv(buffer, from + total, len - total);
        if rec <= 0 {
          assert buffer[..from + total] == before;
          ReceivingStops(wire0, recvs0, len - total);
          LeadsToEnd(goal, start, before, Receiving(wire0, recvs0, len - total));
        }
        if rec == 0 { return Err("connection closed"); }
        if rec < 0 { return Err("recv failed"); }
        LeadsToStep(goal, start, before, wire0, recvs0, len - total, rec);
        total := total + rec;
        assert buffer[..from + total] == before + wire0[..rec];
      }
      ReceivingNothing(wire, recvs);
      LeadsToEnd(goal, start, buffer[..from + total], Receiving(wire, recvs, 0));
      return Ok(());
    }

    method RecvRaw(max: Word) returns (r: Io<seq<Byte>>)
      modifies this`wire, this`recvs
      ensures if !old(open) then r == Err("socket not open") && wire == old(wire) && recvs == old(recvs) else
                var s := ReceivingMessage(old(wire), old(recvs), max);
                r == s.result && wire == s.wire && recvs == s.later
    {
      if !open { return Err("socket not open"); }
      var netLen := new Byte[4](_ => 0);
      var status := RecvAll(netLen, 0, 4);
      if status.Err? { return Err(status.message); }
      assert netLen[..] == Receiving(old(wire), old(recvs), 4).data;
      var len := DecodeFrameLength(netLen[..]);
      if len == 0 || len > max { return Err("invalid message size"); }
      r := RecvBody(len);
    }

    /** Reads `len` bytes into one buffer, a chunk at a time. */
    method RecvBody(len: nat) returns (r: Io<seq<Byte>>)
      modifies this`wire, this`recvs
      ensures var s := ReceivingChunks(old(wire), old(recvs), len);
              && wire == s.wire && recvs == s.later
              && r == if s.result.Ok? then Ok(s.data) else Err(s.result.message)
    {
      hide Receiving, ReceivingChunks, LeadsTo;
      var msg := new Byte[len](_ => 0);
      var offset := 0;
      ghost var goal := ReceivingChunks(wire, recvs, len);
      ChunksStart(goal);
      assert msg[..0] == [];
      while offset < len
        invariant 0 <= offset <= len
        invariant LeadsTo(goal, [], msg[..offset], ReceivingChunks(wire, recvs, len - offset))
      {
        var toRead := Min(CHUNK, len - offset);
        ghost var before, first := msg[..offset], Receiving(wire, recvs, toRead);
        ghost var wire0, recvs0 := wire, recvs;
        var status := RecvAll(msg, offset, toRead);
        if status.Err? {
          ChunkFails(goal, before, wire0, recvs0, len - offset, first);
          return Err(status.message);
        }
        ChunkStep(goal, before, wire0, recvs0, len - offset, first);
        offset := offset + toRead;
      }
      ChunksEnd(goal, msg[..offset], wire, recvs);
      assert msg[..] == msg[..len];
      return Ok(msg[..]);
    }
  }

  // ---- The round trip ----------------------------------------------------------------------

  /** A send puts a prefix of the data on the wire, and all of it exactly if it reports no error. */
  lemma {:induction false} SendingPrefix(data: seq<Byte>, outcomes: seq<SendOutcome>)
    ensures var r := Sending(data, outcomes);
            |r.bytes| <= |data| && r.bytes == data[..|r.bytes|] && (r.result.Ok? <==> |r.bytes| == |data|)
    decreases |outcomes|
  {
    if data != [] && outcomes != [] {
      match outcomes[0]
      case Accept(n) => if n > 0 { SendingPrefix(data[Min(n, |data|)..], outcomes[1..]); }
      case WouldBlock => SendingPrefix(data, outcomes[1..]);
      case _ =>
    }
  }

  /** What the system took in a stretch of answers, if it had been asked for enough. */
  function Taken(outcomes: seq<SendOutcome>): nat {
    if outcomes == [] then 0 else (if outcomes[0].Accept? then outcomes[0].n else 0) + Taken(outcomes[1..])
  }

  /** After any waits and partial sends, the first answer that is neither ends the sending with its own error. */
  lemma {:induction false} SendingStops(data: seq<Byte>, front: seq<SendOutcome>, o: SendOutcome,
      later: seq<SendOutcome>)
    requires forall f | f in front :: f == WouldBlock || (f.Accept? && f.n > 0)
    requires Taken(front) < |data| && o != WouldBlock && (o.Accept? ==> o.n == 0)
    ensures Sending(data, front + [o] + later) ==
            Sent(data[..Taken(front)], later,
                 Err(if o == DeadlinePassed then "send timeout"
                     else if o == SelectFailed then "select failed"
                     else if o == SendFailed then "send failed"
                     else "send returned 0 (connection closed)"))
    decreases |front|
  {
    var all := front + [o] + later;
    if front == [] {
      assert all[0] == o && all[1..] == later;
    } else {
      assert front[0] in front && all[0] == front[0] && all[1..] == front[1..] + [o] + later;
      assert forall f | f in front[1..] :: f in front;
      var k := if front[0].Accept? then front[0].n else 0;
      SendingStops(data[k..], front[1..], o, later);
      assert data[..k] + data[k..][..Taken(front[1..])] == data[..Taken(front)];
    }
  }

  lemma Cut(s: seq<Byte>, k: nat)
    requires k <= |s|
    ensures s[..k] + s[k..] == s
  {}

  /** A receive cuts the wire in two. */
  lemma {:induction false} ReceivingCuts(wire: seq<Byte>, outcomes: seq<RecvOutcome>, want: nat)
    ensures var r := Receiving(wire, outcomes, want);
            r.data + r.wire == wire
    decreases |outcomes|
  {
    if want > 0 && outcomes != [] && outcomes[0].Deliver? {
      var k := Min(Min(outcomes[0].n, want), |wire|);
      if k > 0 {
        ReceivingCuts(wire[k..], outcomes[1..], want - k);
        var rest := Receiving(wire[k..], outcomes[1..], want - k);
        Regroup(wire[..k], rest.data, rest.wire);
        Cut(wire, k);
      }
    }
  }

  lemma {:induction false} ReceivingChunksCuts(wire: seq<Byte>, outcomes: seq<RecvOutcome>, want: nat)
    ensures var r := ReceivingChunks(wire, outcomes, want);
            r.data + r.wire == wire
    decreases want
  {
    if want > 0 {
      var n := Min(CHUNK, want);
      ReceivingCuts(wire, outcomes, n);
      var first := Receiving(wire, outcomes, n);
      if first.result.Ok? {
        ReceivingChunksCuts(first.wire, first.later, want - n);
        var rest := ReceivingChunks(first.wire, first.later, want - n);
        Regroup(first.data, rest.data, rest.wire);
      }
    }
  }

  /** A send of a message puts a prefix of the frame on the wire, the whole frame exactly if it reports no error, and
      nothing of a payload that is no JSON text. */
  lemma SendJsonSendsFrame(json: seq<Byte>, valid: bool, outcomes: seq<SendOutcome>)
    ensures var r := SendingJson(json, valid, outcomes);
            && (!valid ==> r.bytes == [] && r.result.Err?)
            && |r.bytes| <= |Frame(json)| && r.bytes == Frame(json)[..|r.bytes|]
            && (r.result.Ok? <==> r.bytes == Frame(json))
  {
    var h := EncodeFrameLength(|json| % WORDS);
    var header := Sending(h, outcomes);
    SendingPrefix(h, outcomes);
    SendingPrefix(json, header.later);
    if header.result.Ok? && json != [] {
      var body := Sending(json, header.later);
      assert h + body.bytes == Frame(json)[..4 + |body.bytes|];
    }
  }

  function SendingList(payloads: seq<seq<Byte>>, isJson: seq<Byte> -> bool, outcomes: seq<SendOutcome>): Sent {
    if payloads == [] then Sent([], outcomes, Ok(()))
    else
      var first := SendingJson(payloads[0], isJson(payloads[0]), outcomes);
      if first.result.Err? then first
      else
        var rest := SendingList(payloads[1..], isJson, first.later);
        Sent(first.bytes + rest.bytes, rest.later, rest.result)
  }

  lemma {:induction false} SendListSendsFrames(payloads: seq<seq<Byte>>, isJson: seq<Byte> -> bool,
      outcomes: seq<SendOutcome>)
    requires SendingList(payloads, isJson, outcomes).result.Ok?
    ensures SendingList(payloads, isJson, outcomes).bytes == Frames(payloads)
  {
    if payloads != [] {
      SendJsonSendsFrame(payloads[0], isJson(payloads[0]), outcomes);
      SendListSendsFrames(payloads[1..], isJson, SendingJson(payloads[0], isJson(payloads[0]), outcomes).later);
    }
  }

  /** The messages read by repeated receives, up to the first error. */
  function ReceivingList(wire: seq<Byte>, outcomes: seq<RecvOutcome>, max: Word, count: nat): (seq<seq<Byte>>, bool)
    decreases count
  {
    if count == 0 then ([], true)
    else
      var m := ReceivingMessage(wire, outcomes, max);
      if m.result.Err? then ([], false)
      else
        var (ms, ok) := ReceivingList(m.wire, m.later, max, count - 1);
        ([m.result.value] + ms, ok)
  }

  predicate ErrorFree(outcomes: seq<RecvOutcome>) {
    forall o | o in outcomes :: o.Deliver? && o.n > 0
  }

  /** With deliveries of at least one byte each, enough answers always bring enough bytes. */
  lemma {:induction false} RecvAllSucceeds(wire: seq<Byte>, outcomes: seq<RecvOutcome>, want: nat)
    requires ErrorFree(outcomes) && want <= |wire| <= |outcomes|
    ensures var r := Receiving(wire, outcomes, want);
            r.result.Ok? && ErrorFree(r.later) && |r.wire| <= |r.later|
    decreases |outcomes|
  {
    if want > 0 {
      var k := Min(Min(outcomes[0].n, want), |wire|);
      assert outcomes[0] in outcomes;
      RecvAllSucceeds(wire[k..], outcomes[1..], want - k);
    }
  }

  lemma {:induction false} RecvChunksSucceeds(wire: seq<Byte>, outcomes: seq<RecvOutcome>, want: nat)
    requires ErrorFree(outcomes) && want <= |wire| <= |outcomes|
    ensures var r := ReceivingChunks(wire, outcomes, want);
            r.result.Ok? && ErrorFree(r.later) && |r.wire| <= |r.later|
    decreases want
  {
    if want > 0 {
      RecvAllSucceeds(wire, outcomes, Min(CHUNK, want));
      ReceivingCuts(wire, outcomes, Min(CHUNK, want));
      var first := Receiving(wire, outcomes, Min(CHUNK, want));
      RecvChunksSucceeds(first.wire, first.later, want - Min(CHUNK, want));
    }
  }

  lemma SplitOff(data: seq<Byte>, rest: seq<Byte>, x: seq<Byte>, y: seq<Byte>)
    requires data + rest == x + y && |data| == |x|
    ensures data == x && rest == y
  {
    assert data == (data + rest)[..|data|] && x == (x + y)[..|x|];
    assert rest == (data + rest)[|data|..] && y == (x + y)[|x|..];
  }

  /** One receive from a wire that starts with a frame: the payload or an error, never anything else. */
  lemma RecvRawReadsFrame(payload: seq<Byte>, more: seq<Byte>, outcomes: seq<RecvOutcome>, max: Word)
    requires 1 <= |payload| <= max
    ensures var m := ReceivingMessage(Frame(payload) + more, outcomes, max);
            && (m.result.Ok? ==> m.result.value == payload && m.wire == more)
            && (ErrorFree(outcomes) && |Frame(payload) + more| <= |outcomes| ==>
                  m.result.Ok? && ErrorFree(m.later) && |m.wire| <= |m.later|)
  {
    hide Receiving, ReceivingChunks, ErrorFree, DecodeFrameLength;
    var wire := Frame(payload) + more;
    var h := EncodeFrameLength(|payload|);
    var header := Receiving(wire, outcomes, 4);
    assert wire == h + (payload + more);
    ReceivingCuts(wire, outcomes, 4);
    if ErrorFree(outcomes) && |wire| <= |outcomes| { RecvAllSucceeds(wire, outcomes, 4); }
    if header.result.Ok? {
      SplitOff(header.data, header.wire, h, payload + more);
      DecodeEncode(|payload|);
      BodyIsPayload(payload, more, header.later);
    }
  }

  lemma BodyIsPayload(payload: seq<Byte>, more: seq<Byte>, outcomes: seq<RecvOutcome>)
    ensures var body := ReceivingChunks(payload + more, outcomes, |payload|);
            && (body.result.Ok? ==> body.data == payload && body.wire == more)
            && (ErrorFree(outcomes) && |payload + more| <= |outcomes| ==>
                  body.result.Ok? && ErrorFree(body.later) && |body.wire| <= |body.later|)
  {
    if ErrorFree(outcomes) && |payload + more| <= |outcomes| {
      RecvChunksSucceeds(payload + more, outcomes, |payload|);
    }
    var body := ReceivingChunks(payload + more, outcomes, |payload|);
    ReceivingChunksCuts(payload + more, outcomes, |payload|);
    if body.result.Ok? { SplitOff(body.data, body.wire, payload, more); }
  }

  /** A frame comes back as its payload exactly when the payload is neither empty nor too long. */
  lemma FrameComesBackIff(payload: seq<Byte>, outcomes: seq<RecvOutcome>, max: Word)
    requires ErrorFree(outcomes) && |Frame(payload)| <= |outcomes|
    ensures ReceivingMessage(Frame(payload), outcomes, max).result == Ok(payload) <==> 1 <= |payload| <= max
  {
    var wire := Frame(payload);
    assert wire + [] == wire;
    if 1 <= |payload| <= max {
      RecvRawReadsFrame(payload, [], outcomes, max);
    } else {
      var h := EncodeFrameLength(|payload| % WORDS);
      var header := Receiving(wire, outcomes, 4);
      RecvAllSucceeds(wire, outcomes, 4);
      ReceivingCuts(wire, outcomes, 4);
      SplitOff(header.data, header.wire, h, payload);
      DecodeEncode(|payload| % WORDS);
      if 0 < |payload| % WORDS <= max {
        ReceivingChunksCuts(header.wire, header.later, |payload| % WORDS);
      }
    }
  }

  /** Whatever partial sends and receives happen: only a prefix of the sent list can come out, and all of it
      comes out if no receive fails. */
  lemma {:induction false} FramedRoundTrip(payloads: seq<seq<Byte>>, isJson: seq<Byte> -> bool, sends: seq<SendOutcome>,
                                           recvs: seq<RecvOutcome>, max: Word)
    requires forall p | p in payloads :: 1 <= |p| <= max
    requires SendingList(payloads, isJson, sends).result.Ok?
    ensures var wire := SendingList(payloads, isJson, sends).bytes;
            var (ms, ok) := ReceivingList(wire, recvs, max, |payloads|);
            && ms <= payloads && (ok <==> ms == payloads)
            && (ErrorFree(recvs) && |wire| <= |recvs| ==> ms == payloads)
  {
    SendListSendsFrames(payloads, isJson, sends);
    RecvListReadsFrames(payloads, recvs, max);
  }

  /** What a list of received messages has to be. */
  predicate Faithful(r: (seq<seq<Byte>>, bool), payloads: seq<seq<Byte>>) {
    r.0 <= payloads && (r.1 <==> r.0 == payloads)
  }

  lemma ConsFaithful(r: (seq<seq<Byte>>, bool), payloads: seq<seq<Byte>>)
    requires payloads != [] && Faithful(r, payloads[1..])
    ensures Faithful(([payloads[0]] + r.0, r.1), payloads)
    ensures [payloads[0]] + r.0 == payloads <==> r.0 == payloads[1..]
  {
    ConsPrefix(r.0, payloads);
  }

  lemma {:induction false} RecvListReadsFrames(payloads: seq<seq<Byte>>, recvs: seq<RecvOutcome>, max: Word)
    requires forall p | p in payloads :: 1 <= |p| <= max
    ensures Faithful(ReceivingList(Frames(payloads), recvs, max, |payloads|), payloads)
    ensures ErrorFree(recvs) && |Frames(payloads)| <= |recvs| ==>
              ReceivingList(Frames(payloads), recvs, max, |payloads|).0 == payloads
    decreases |payloads|
  {
    if payloads != [] {
      var more, m := Frames(payloads[1..]), ReceivingMessage(Frames(payloads), recvs, max);
      assert payloads[0] in payloads;
      RecvRawReadsFrame(payloads[0], more, recvs, max);
      hide Frame, ReceivingMessage, ErrorFree, Faithful;
      if m.result.Ok? {
        RecvListReadsFrames(payloads[1..], m.later, max);
        ConsFaithful(ReceivingList(more, m.later, max, |payloads| - 1), payloads);
      } else {
        ErrorIsFaithful(payloads);
      }
    }
  }

  lemma ErrorIsFaithful(payloads: seq<seq<Byte>>)
    requires payloads != []
    ensures Faithful(([], false), payloads)
  {}

  lemma ConsPrefix<T>(xs: seq<T>, ys: seq<T>)
    requires ys != []
    ensures [ys[0]] + xs <= ys <==> xs <= ys[1..]
    ensures [ys[0]] + xs == ys <==> xs == ys[1..]
  {
    var zs := [ys[0]] + xs;
    assert ys == [ys[0]] + ys[1..];
    assert xs == zs[1..];
  }
}
