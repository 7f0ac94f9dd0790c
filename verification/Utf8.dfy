/**
 UTF-8 validation and repair. Only the byte patterns of section 3 of RFC 3629 are checked:
 overlong forms and surrogates pass, as they do in the program.
 */
module Utf8 {
  import opened Common

  type Byte = bv8

  predicate Continuation(b: Byte) { b & 0xC0 == 0x80 }

  /** How many bytes a sequence with this first byte has; 0 if no sequence starts so. */
  function SequenceLength(b: Byte): nat {
    if b & 0x80 == 0 then 1
    else if b & 0xE0 == 0xC0 then 2
    else if b & 0xF0 == 0xE0 then 3
    else if b & 0xF8 == 0xF0 then 4
    else 0
  }

  /** One encoded character: a first byte and the continuation bytes it calls for. */
  ghost predicate Encoded(s: seq<Byte>) {
    s != [] && |s| == SequenceLength(s[0]) && forall k | 1 <= k < |s| :: Continuation(s[k])
  }

  /** The reference definition: a string is well formed if it cuts into encoded characters. */
  ghost predicate WellFormed(data: seq<Byte>) {
    exists ss :: (forall s | s in ss :: Encoded(s)) && Concat(ss) == data
  }

  /** A character of `n` bytes starts at position `i`. */
  predicate Takes(data: seq<Byte>, i: nat, n: nat) {
    && 0 < n && i + n <= |data|
    && SequenceLength(data[i]) == n
    && (n >= 2 ==> Continuation(data[i + 1]))
    && (n >= 3 ==> Continuation(data[i + 2]))
    && (n >= 4 ==> Continuation(data[i + 3]))
  }

  /** The length of the encoded character at the front of `d`, 0 if there is none. */
  function Step(d: seq<Byte>): (n: nat)
    requires d != []
    ensures n <= |d|
  {
    if Takes(d, 0, SequenceLength(d[0])) then SequenceLength(d[0]) else 0
  }

  /** `Step` finds the one prefix that is an encoded character, if there is one. */
  lemma StepFindsFront(d: seq<Byte>, k: nat)
    requires 0 < k <= |d|
    ensures Encoded(d[..k]) <==> Step(d) == k
  {
    var s := d[..k];
    assert forall l | 0 <= l < k :: s[l] == d[l];
    if Encoded(s) {
      assert k > 1 ==> Continuation(s[1]);
      assert k > 2 ==> Continuation(s[2]);
      assert k > 3 ==> Continuation(s[3]);
    }
  }

  /** Bytes that start no character where the scan meets them. */
  function Errors(d: seq<Byte>): nat {
    if d == [] then 0
    else if Step(d) > 0 then Errors(d[Step(d)..])
    else 1 + Errors(d[1..])
  }

  const REPLACEMENT: seq<Byte> := [0xEF, 0xBF, 0xBD]

  function Repaired(d: seq<Byte>): seq<Byte> {
    if d == [] then []
    else if Step(d) > 0 then d[..Step(d)] + Repaired(d[Step(d)..])
    else REPLACEMENT + Repaired(d[1..])
  }

  // ---- The two loops -----------------------------------------------------------

  lemma ScanTakes(data: seq<Byte>, i: nat, n: nat)
    requires Takes(data, i, n)
    ensures Errors(data[i..]) == Errors(data[i + n..])
    ensures Repaired(data[i..]) == data[i..i + n] + Repaired(data[i + n..])
  {
    var rest := data[i..];
    assert Takes(rest, 0, n);
    assert rest[n..] == data[i + n..] && rest[..n] == data[i..i + n];
  }

  lemma ScanRejects(data: seq<Byte>, i: nat)
    requires i < |data| && !Takes(data, i, SequenceLength(data[i]))
    ensures Errors(data[i..]) == 1 + Errors(data[i + 1..])
    ensures Repaired(data[i..]) == REPLACEMENT + Repaired(data[i + 1..])
  {
    var rest := data[i..];
    assert rest[1..] == data[i + 1..];
    assert !Takes(rest, 0, SequenceLength(rest[0]));
  }

  lemma NothingToScan(d: seq<Byte>)
    requires d == []
    ensures Errors(d) == 0 && Repaired(d) == []
  {}

  method ValidateUtf8(data: seq<Byte>) returns (errors: nat)
    ensures errors == Errors(data)
  {
    hide Errors, Repaired;
    NothingToScan(data[|data|..]);
    errors := 0;
    var i := 0;
    assert data[0..] == data;
    while i < |data|
      invariant 0 <= i <= |data|
      invariant errors + Errors(data[i..]) == Errors(data)
    {
      var byte := data[i];
      if byte & 0x80 == 0 {
        ScanTakes(data, i, 1);
        i := i + 1;
      } else if byte & 0xE0 == 0xC0 {
        if i + 1 >= |data| || data[i + 1] & 0xC0 != 0x80 {
          ScanRejects(data, i);
          errors, i := errors + 1, i + 1;
          continue;
        }
        ScanTakes(data, i, 2);
        i := i + 2;
      } else if byte & 0xF0 == 0xE0 {
        if i + 2 >= |data| || data[i + 1] & 0xC0 != 0x80 || data[i + 2] & 0xC0 != 0x80 {
          ScanRejects(data, i);
          errors, i := errors + 1, i + 1;
          continue;
        }
        ScanTakes(data, i, 3);
        i := i + 3;
      } else if byte & 0xF8 == 0xF0 {
        if i + 3 >= |data| || data[i + 1] & 0xC0 != 0x80 || data[i + 2] & 0xC0 != 0x80 || data[i + 3] & 0xC0 != 0x80 {
          ScanRejects(data, i);
          errors, i := errors + 1, i + 1;
          continue;
        }
        ScanTakes(data, i, 4);
        i := i + 4;
      } else {
        ScanRejects(data, i);
        errors, i := errors + 1, i + 1;
      }
    }
  }

  lemma ShortSlices(data: seq<Byte>, i: nat)
    ensures i + 1 <= |data| ==> data[i..i + 1] == [data[i]]
    ensures i + 2 <= |data| ==> data[i..i + 2] == [data[i], data[i + 1]]
    ensures i + 3 <= |data| ==> data[i..i + 3] == [data[i], data[i + 1], data[i + 2]]
    ensures i + 4 <= |data| ==> data[i..i + 4] == [data[i], data[i + 1], data[i + 2], data[i + 3]]
  {}

  /** Copying `piece` and moving past it leaves the final result the same. */
  lemma CopyPiece(result: seq<Byte>, piece: seq<Byte>, data: seq<Byte>, i: nat, n: nat)
    requires Takes(data, i, n) && piece == data[i..i + n]
    ensures (result + piece) + Repaired(data[i + n..]) == result + Repaired(data[i..])
  {
    ScanTakes(data, i, n);
  }

  lemma CopyReplacement(result: seq<Byte>, data: seq<Byte>, i: nat)
    requires i < |data| && !Takes(data, i, SequenceLength(data[i]))
    ensures (result + REPLACEMENT) + Repaired(data[i + 1..]) == result + Repaired(data[i..])
  {
    ScanRejects(data, i);
  }

  method DecodeUtf8WithReplacement(data: seq<Byte>) returns (result: seq<Byte>)
    ensures result == Repaired(data)
  {
    hide Errors, Repaired;
    NothingToScan(data[|data|..]);
    result := [];
    var i := 0;
    assert data[0..] == data;
    while i < |data|
      invariant 0 <= i <= |data|
      invariant result + Repaired(data[i..]) == Repaired(data)
    {
      var byte := data[i];
      ShortSlices(data, i);
      if byte & 0x80 == 0 {
        CopyPiece(result, [byte], data, i, 1);
        result := result + [byte];
        i := i + 1;
      } else if byte & 0xE0 == 0xC0 && i + 1 < |data| && data[i + 1] & 0xC0 == 0x80 {
        CopyPiece(result, [byte, data[i + 1]], data, i, 2);
        result := result + [byte, data[i + 1]];
        i := i + 2;
      } else if byte & 0xF0 == 0xE0 && i + 2 < |data| && data[i + 1] & 0xC0 == 0x80 && data[i + 2] & 0xC0 == 0x80 {
        CopyPiece(result, [byte, data[i + 1], data[i + 2]], data, i, 3);
        result := result + [byte, data[i + 1], data[i + 2]];
        i := i + 3;
      } else if byte & 0xF8 == 0xF0 && i + 3 < |data| &&
                data[i + 1] & 0xC0 == 0x80 && data[i + 2] & 0xC0 == 0x80 && data[i + 3] & 0xC0 == 0x80 {
        CopyPiece(result, [byte, data[i + 1], data[i + 2], data[i + 3]], data, i, 4);
        result := result + [byte, data[i + 1], data[i + 2], data[i + 3]];
        i := i + 4;
      } else {
        CopyReplacement(result, data, i);
        result := result + REPLACEMENT;
        i := i + 1;
      }
    }
  }

  // ---- What validation and repair are for ------------------------------------------

  /** An encoded character at the front is what the scan takes. */
  lemma StepTakesFront(s: seq<Byte>, rest: seq<Byte>)
    requires Encoded(s)
    ensures Step(s + rest) == |s| && (s + rest)[..|s|] == s && (s + rest)[|s|..] == rest
  {
    assert (s + rest)[..|s|] == s;
    StepFindsFront(s + rest, |s|);
  }

  lemma ReplacementEncoded()
    ensures Encoded(REPLACEMENT)
  {}

  lemma {:induction false} ErrorFreeIffWellFormed(d: seq<Byte>)
    ensures Errors(d) == 0 <==> WellFormed(d)
  {
    if Errors(d) == 0 {
      var ss := Cut(d);
    }
    if WellFormed(d) {
      var ss :| (forall s | s in ss :: Encoded(s)) && Concat(ss) == d;
      ErrorFreeIfCut(ss);
    }
  }

  lemma {:induction false} Cut(d: seq<Byte>) returns (ss: seq<seq<Byte>>)
    requires Errors(d) == 0
    ensures (forall s | s in ss :: Encoded(s)) && Concat(ss) == d
  {
    if d == [] {
      ss := [];
    } else {
      var n := Step(d);
      StepFindsFront(d, n);
      var tail := Cut(d[n..]);
      ss := [d[..n]] + tail;
      ConcatCons(d[..n], tail);
      assert d == d[..n] + d[n..];
    }
  }

  lemma {:induction false} ErrorFreeIfCut(ss: seq<seq<Byte>>)
    requires forall s | s in ss :: Encoded(s)
    ensures Errors(Concat(ss)) == 0
  {
    if ss != [] {
      ErrorFreeIfCut(ss[1..]);
      assert ss == [ss[0]] + ss[1..];
      ConcatCons(ss[0], ss[1..]);
      StepTakesFront(ss[0], Concat(ss[1..]));
    }
  }

  lemma {:induction false} RepairedIsValid(d: seq<Byte>)
    ensures Errors(Repaired(d)) == 0
  {
    if d != [] {
      var n := Step(d);
      ReplacementEncoded();
      if n > 0 {
        StepFindsFront(d, n);
        RepairedIsValid(d[n..]);
        StepTakesFront(d[..n], Repaired(d[n..]));
      } else {
        RepairedIsValid(d[1..]);
        StepTakesFront(REPLACEMENT, Repaired(d[1..]));
      }
    }
  }

  /** Repair changes exactly the invalid strings. */
  lemma {:induction false} RepairFixesOnlyInvalid(d: seq<Byte>)
    ensures Repaired(d) == d <==> Errors(d) == 0
  {
    RepairGrowth(d);
    if Errors(d) == 0 { ValidUnchanged(d); }
  }

  lemma {:induction false} ValidUnchanged(d: seq<Byte>)
    requires Errors(d) == 0
    ensures Repaired(d) == d
  {
    if d != [] {
      ValidUnchanged(d[Step(d)..]);
      assert d == d[..Step(d)] + d[Step(d)..];
    }
  }

  lemma RepairIdempotent(d: seq<Byte>)
    ensures Repaired(Repaired(d)) == Repaired(d)
  {
    RepairedIsValid(d);
    ValidUnchanged(Repaired(d));
  }

  lemma {:induction false} RepairGrowth(d: seq<Byte>)
    ensures |Repaired(d)| == |d| + 2 * Errors(d)
  {
    if d != [] {
      RepairGrowth(d[if Step(d) > 0 then Step(d) else 1..]);
    }
  }

  // ---- The encoding --------------------------------------------------------------------

  /** The bytes of a character number, by the table of section 3 of RFC 3629. */
  function Encode(c: bv32): seq<Byte>
    requires c < 0x11_0000
  {
    if c < 0x80 then [c as Byte]
    else if c < 0x800 then [0xC0 + (c / 0x40) as Byte, 0x80 + (c % 0x40) as Byte]
    else if c < 0x1_0000 then
      [0xE0 + (c / 0x1000) as Byte, 0x80 + (c / 0x40 % 0x40) as Byte, 0x80 + (c % 0x40) as Byte]
    else
      [0xF0 + (c / 0x4_0000) as Byte, 0x80 + (c / 0x1000 % 0x40) as Byte, 0x80 + (c / 0x40 % 0x40) as Byte,
       0x80 + (c % 0x40) as Byte]
  }

  /** Every character number is encoded as one character, */
  lemma EncodeEncoded(c: bv32)
    requires c < 0x11_0000
    ensures Encoded(Encode(c))
  {}

  lemma FirstBytes(b: Byte)
    ensures SequenceLength(b) == if b < 0x80 then 1 else if b < 0xC0 then 0 else if b < 0xE0 then 2
                                 else if b < 0xF0 then 3 else if b < 0xF8 then 4 else 0
    ensures Continuation(b) <==> 0x80 <= b < 0xC0
  {}

  lemma ReplacementIs()
    ensures REPLACEMENT == Encode(0xFFFD)
  {}

  /** A byte that starts no character, between two parts of a text the first of which is valid, becomes U+FFFD, and the
      text around it is kept. */
  lemma {:induction false} StrayByteReplaced(x: seq<Byte>, b: Byte, y: seq<Byte>)
    requires Errors(x) == 0 && (0x80 <= b < 0xC0 || b >= 0xF8)
    ensures Repaired(x + [b] + y) == x + [0xEF, 0xBF, 0xBD] + Repaired(y)
    ensures Errors(x + [b] + y) == 1 + Errors(y)
    decreases |x|
  {
    hide Encoded, Errors, Repaired, Step;
    if x == [] {
      StrayByteFirst(b, y);
      assert x + [b] + y == [b] + y && x + [0xEF, 0xBF, 0xBD] + Repaired(y) == [0xEF, 0xBF, 0xBD] + Repaired(y);
    } else {
      var front := FrontOfValid(x);
      var rest := x[|front|..];
      assert x + [b] + y == front + (rest + [b] + y);
      FrontTaken(front, rest + [b] + y);
      StrayByteReplaced(rest, b, y);
      assert front + (rest + [0xEF, 0xBF, 0xBD] + Repaired(y)) == x + [0xEF, 0xBF, 0xBD] + Repaired(y);
    }
  }

  lemma StrayByteFirst(b: Byte, y: seq<Byte>)
    requires 0x80 <= b < 0xC0 || b >= 0xF8
    ensures Repaired([b] + y) == [0xEF, 0xBF, 0xBD] + Repaired(y)
    ensures Errors([b] + y) == 1 + Errors(y)
  {
    FirstBytes(b);
    assert Step([b] + y) == 0;
    assert ([b] + y)[1..] == y;
  }

  lemma FrontOfValid(x: seq<Byte>) returns (front: seq<Byte>)
    requires x != [] && Errors(x) == 0
    ensures 0 < |front| <= |x| && front == x[..|front|] && Encoded(front) && Errors(x[|front|..]) == 0
  {
    front := x[..Step(x)];
    StepFindsFront(x, Step(x));
  }

  lemma FrontTaken(front: seq<Byte>, rest: seq<Byte>)
    requires Encoded(front)
    ensures Errors(front + rest) == Errors(rest) && Repaired(front + rest) == front + Repaired(rest)
  {
    StepTakesFront(front, rest);
  }
}
