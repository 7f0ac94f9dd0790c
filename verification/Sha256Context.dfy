/**
 The streaming form of SHA-256: a context that absorbs a message piece by piece through a
 64-byte buffer, and a finalisation that pads in that buffer.
 */
module Sha256Context {
  import opened Common
  import opened Sha256

  const TWO64 := 0x1_0000_0000_0000_0000

  function AsEight(s: seq<Word>): Eight
    requires |s| == 8
  {
    Eight(s[0], s[1], s[2], s[3], s[4], s[5], s[6], s[7])
  }

  /** A context that has absorbed `m`: the full blocks are hashed, the rest is in the buffer. */
  ghost predicate Absorbs(buffer: seq<Byte>, datalen: nat, bitlen: nat, h: Eight, m: seq<Byte>) {
    && |buffer| == 64
    && datalen == |m| % 64
    && bitlen == 512 * (|m| / 64) % TWO64
    && buffer[..datalen] == m[64 * (|m| / 64)..]
    && h == HashBlocks(m, |m| / 64)
  }

  lemma AbsorbsNothing(buffer: seq<Byte>)
    requires |buffer| == 64
    ensures Absorbs(buffer, 0, 0, InitialHash(), [])
  {
    hide InitialHash, HashBlocks;
    var m: seq<Byte> := [];
    HashBlocksZero(m);
    assert |m| / 64 == 0 && m[0..] == buffer[..0];
  }

  lemma HashBlocksZero(data: seq<Byte>)
    ensures HashBlocks(data, 0) == InitialHash()
  {
    hide InitialHash, Compress;
  }

  lemma AbsorbsByte(buffer: seq<Byte>, datalen: nat, bitlen: nat, h: Eight, m: seq<Byte>, byte: Byte)
    requires Absorbs(buffer, datalen, bitlen, h, m)
    ensures var next := buffer[datalen := byte];
            if datalen + 1 < 64 then Absorbs(next, datalen + 1, bitlen, h, m + [byte])
            else Absorbs(next, 0, (bitlen + 512) % TWO64, Compress(h, next), m + [byte])
  {
    hide HashBlocks, Compress;
    var q, m' := |m| / 64, m + [byte];
    var next := buffer[datalen := byte];
    OneMore(|m|);
    CountOneMore(|m|, bitlen);
    HashBlocksPrefix(m, m', q);
    BufferOneMore(buffer, datalen, m, 64 * q, byte);
    if datalen + 1 == 64 {
      assert next == m'[64 * q..64 * q + 64];
      HashBlocksUnfolds(m', q + 1);
    }
  }

  lemma BufferOneMore(buffer: seq<Byte>, datalen: nat, m: seq<Byte>, k: nat, byte: Byte)
    requires datalen < |buffer| && k <= |m| && buffer[..datalen] == m[k..]
    ensures buffer[datalen := byte][..datalen + 1] == (m + [byte])[k..]
  {
    assert buffer[datalen := byte][..datalen + 1] == buffer[..datalen] + [byte];
  }

  lemma CountOneMore(n: nat, bitlen: nat)
    requires bitlen == 512 * (n / 64) % TWO64
    ensures n % 64 < 63 ==> bitlen == 512 * ((n + 1) / 64) % TWO64
    ensures n % 64 == 63 ==> (bitlen + 512) % TWO64 == 512 * ((n + 1) / 64) % TWO64
  {
    OneMore(n);
    if n % 64 == 63 { assert 512 * ((n + 1) / 64) == 512 * (n / 64) + 512; }
  }

  lemma OneMore(n: nat)
    ensures n == 64 * (n / 64) + n % 64
    ensures n % 64 < 63 ==> (n + 1) / 64 == n / 64 && (n + 1) % 64 == n % 64 + 1
    ensures n % 64 == 63 ==> (n + 1) / 64 == n / 64 + 1 && (n + 1) % 64 == 0
  {}

  /** The one or two blocks that finalisation compresses. */
  lemma LastBlocks(buffer: seq<Byte>, datalen: nat, bitlen: nat, h: Eight, m: seq<Byte>)
    requires Absorbs(buffer, datalen, bitlen, h, m)
    ensures var front := buffer[..datalen] + [0x80];
            var length := LowBytes((bitlen + 8 * datalen) % TWO64, 8);
            HashBlocks(Padded(m), |Padded(m)| / 64) ==
            if datalen < 56 then Compress(h, front + Zeros(55 - datalen) + length)
            else Compress(Compress(h, front + Zeros(63 - datalen)), Zeros(56) + length)
  {
    hide HashBlocks, Compress, Padded, Zeros, LowBytes;
    var p, q := Padded(m), |m| / 64;
    OneMore(|m|);
    PaddedShape(m, q, datalen);
    HashBlocksPrefix(m, p, q);
    BitCounterWraps(8 * |m|);
    FinalCount(|m|, datalen, bitlen);
    HashBlocksUnfolds(p, q + 1);
    if datalen < 56 {
      assert p[64 * q..64 * q + 64] == p[64 * q..];
    } else {
      HashBlocksUnfolds(p, q + 2);
      assert p[64 * q + 64..64 * q + 128] == p[64 * q + 64..];
    }
  }

  /** The bit counter once the buffered bytes are added. */
  lemma FinalCount(len: nat, datalen: nat, bitlen: nat)
    requires datalen == len % 64 && bitlen == 512 * (len / 64) % TWO64
    ensures (bitlen + 8 * datalen) % TWO64 == 8 * len % TWO64
  {
    assert len == 64 * (len / 64) + datalen;
    assert 8 * len == 512 * (len / 64) + 8 * datalen;
  }

  lemma ScheduleUnfolds(block: seq<Byte>, t: nat)
    requires |block| == 64
    ensures t < 16 ==> Schedule(block, t) == WordAt(block, t)
    ensures t >= 16 ==>
      Schedule(block, t) ==
      NextWord(Schedule(block, t - 2), Schedule(block, t - 7), Schedule(block, t - 15), Schedule(block, t - 16))
  {
    hide NextWord, BigEndian;
  }

  class Ctx {
    const data: array<Byte>
    var datalen: nat
    var bitlen: nat
    const state: array<Word>
    /** Every byte passed to Update so far. */
    ghost var absorbed: seq<Byte>

    ghost predicate Valid()
      reads this, data, state
    {
      && data.Length == 64 && state.Length == 8
      && Absorbs(data[..], datalen, bitlen, AsEight(state[..]), absorbed)
    }

    constructor ()
      ensures Valid() && absorbed == []
      ensures fresh(data) && fresh(state)
    {
      hide InitialHash, Absorbs;
      data := new Byte[64](_ => 0);
      var h := InitialHash();
      state := new Word[8] [h.a, h.b, h.c, h.d, h.e, h.f, h.g, h.h];
      datalen, bitlen, absorbed := 0, 0, [];
      new;
      AbsorbsNothing(data[..]);
      assert state[..] == [h.a, h.b, h.c, h.d, h.e, h.f, h.g, h.h];
    }

    /** Compresses one block into the state. */
    method Transform(block: array<Byte>)
      requires block.Length == 64 && state.Length == 8
      modifies state
      ensures AsEight(state[..]) == Compress(AsEight(old(state[..])), block[..])
    {
      hide Rounds, Plus;
      var m := ExpandSchedule(block);
      ghost var v := AsEight(state[..]);
      var a, b, c, d, e, f, g, h := Mix(block, m, v);
      state[0], state[1] := Plus(state[0], a), Plus(state[1], b);
      state[2], state[3] := Plus(state[2], c), Plus(state[3], d);
      state[4], state[5] := Plus(state[4], e), Plus(state[5], f);
      state[6], state[7] := Plus(state[6], g), Plus(state[7], h);
    }

    /** The 64 rounds on the working variables, which start as the state. */
    method Mix(block: array<Byte>, m: array<Word>, ghost v: Eight)
      returns (a: Word, b: Word, c: Word, d: Word, e: Word, f: Word, g: Word, h: Word)
      requires block.Length == 64 && state.Length == 8 && v == AsEight(state[..])
      requires m.Length == 64 && forall t | 0 <= t < 64 :: m[t] == Schedule(block[..], t)
      ensures Eight(a, b, c, d, e, f, g, h) == Rounds(v, block[..], 64)
    {
      hide Plus, Ch, Maj, BigSigma0, BigSigma1, K, Schedule;
      a, b, c, d := state[0], state[1], state[2], state[3];
      e, f, g, h := state[4], state[5], state[6], state[7];
      for i := 0 to 64
        invariant Eight(a, b, c, d, e, f, g, h) == Rounds(v, block[..], i)
      {
        var t1 := Plus(Plus(Plus(Plus(h, BigSigma1(e)), Ch(e, f, g)), K(i)), m[i]);
        var t2 := Plus(BigSigma0(a), Maj(a, b, c));
        h := g;
        g := f;
        f := e;
        e := Plus(d, t1);
        d := c;
        c := b;
        b := a;
        a := Plus(t1, t2);
      }
    }

    /** The 64 words of the message schedule. */
    static method ExpandSchedule(block: array<Byte>) returns (m: array<Word>)
      requires block.Length == 64
      ensures fresh(m) && m.Length == 64
      ensures forall t | 0 <= t < 64 :: m[t] == Schedule(block[..], t)
    {
      hide NextWord, BigEndian, Schedule;
      m := new Word[64](_ => 0);
      var j := 0;
      for i := 0 to 16
        invariant j == 4 * i
        invariant forall t | 0 <= t < i :: m[t] == Schedule(block[..], t)
      {
        ScheduleUnfolds(block[..], i);
        m[i] := BigEndian(block[j], block[j + 1], block[j + 2], block[j + 3]);
        j := j + 4;
      }
      for i := 16 to 64
        invariant forall t | 0 <= t < i :: m[t] == Schedule(block[..], t)
      {
        ScheduleUnfolds(block[..], i);
        m[i] := NextWord(m[i - 2], m[i - 7], m[i - 15], m[i - 16]);
      }
    }

    method Update(bytes: seq<Byte>)
      requires Valid()
      modifies this, data, state
      ensures Valid() && absorbed == old(absorbed) + bytes
    {
      hide Absorbs, Compress, AsEight;
      assert absorbed == old(absorbed) + bytes[..0];
      for i := 0 to |bytes|
        invariant Valid() && absorbed == old(absorbed) + bytes[..i]
      {
        ghost var before, h := data[..], AsEight(state[..]);
        BufferRoom(before, datalen, bitlen, h, absorbed);
        AbsorbsByte(before, datalen, bitlen, h, absorbed, bytes[i]);
        data[datalen] := bytes[i];
        assert data[..] == before[datalen := bytes[i]];
        datalen := datalen + 1;
        if datalen == 64 {
          Transform(data);
          bitlen := (bitlen + 512) % TWO64;
          datalen := 0;
        }
        absorbed := absorbed + [bytes[i]];
        assert bytes[..i + 1] == bytes[..i] + [bytes[i]];
      }
      assert bytes[..|bytes|] == bytes;
    }

    /** Stores the bit length in the last eight bytes of the buffer. */
    method StoreLength()
      requires data.Length == 64
      modifies data
      ensures data[..] == old(data[..56]) + LowBytes(bitlen, 8)
    {
      hide ByteOf, LowBytes;
      LowBytesByShifts(bitlen);
      data[63] := ByteOf(bitlen);
      data[62] := ByteOf(bitlen / 0x100);
      data[61] := ByteOf(bitlen / 0x1_0000);
      data[60] := ByteOf(bitlen / 0x100_0000);
      data[59] := ByteOf(bitlen / 0x1_0000_0000);
      data[58] := ByteOf(bitlen / 0x100_0000_0000);
      data[57] := ByteOf(bitlen / 0x1_0000_0000_0000);
      data[56] := ByteOf(bitlen / 0x100_0000_0000_0000);
    }

    /** Writes zeros into the buffer at positions `from` up to `to`. */
    method Fill(from: nat, to: nat)
      requires from <= to <= data.Length
      modifies data
      ensures data[..] == old(data[..from]) + Zeros(to - from) + old(data[to..])
    {
      var i := from;
      while i < to
        invariant from <= i <= to
        invariant forall k | 0 <= k < data.Length :: data[k] == if from <= k < i then 0 else old(data[k])
      {
        data[i] := 0;
        i := i + 1;
      }
    }

    /** Pads, compresses the last one or two blocks, and spells the digest in hexadecimal. */
    method Finalise() returns (hex: string)
      requires Valid()
      modifies this, data, state
      ensures hex == Hex(Digest(old(absorbed)))
    {
      hide Absorbs, AsEight, HashBlocks, Compress, EightBytes, Hex, Padded, Zeros, LowBytes;
      ghost var buffer, h := data[..], AsEight(state[..]);
      BufferRoom(buffer, datalen, bitlen, h, absorbed);
      LastBlocks(buffer, datalen, bitlen, h, absorbed);
      var i := datalen;
      data[i] := 0x80;
      i := i + 1;
      ghost var front := buffer[..datalen] + [0x80];
      assert data[..i] == front;
      if datalen < 56 {
        Fill(i, 56);
        assert data[..56] == front + Zeros(55 - datalen);
      } else {
        Fill(i, 64);
        assert data[..] == front + Zeros(63 - datalen);
        Transform(data);
        Fill(0, 56);
        assert data[..56] == Zeros(56);
      }
      bitlen := (bitlen + 8 * datalen) % TWO64;
      StoreLength();
      Transform(data);
      hex := Hexadecimal();
    }

    /** Byte `j` of every word of the state. */
    method StoreBytes(hash: array<Byte>, j: nat)
      requires state.Length == 8 && hash.Length == 32 && j < 4
      modifies hash
      ensures forall n | 0 <= n < 32 ::
                hash[n] == if n % 4 == j then Octet(state[n / 4], 24 - 8 * j) else old(hash[n])
    {
      hide Octet;
      for w := 0 to 8
        invariant forall n | 0 <= n < 32 ::
                    hash[n] == if n % 4 == j && n / 4 < w then Octet(state[n / 4], 24 - 8 * j) else old(hash[n])
      {
        hash[j + 4 * w] := Octet(state[w], 24 - j * 8);
      }
    }

    /** The digest of the current state, one byte of every word at a time. */
    method Hexadecimal() returns (hex: string)
      requires state.Length == 8
      ensures hex == Hex(EightBytes(AsEight(state[..])))
    {
      hide Octet, Hex;
      var hash := new Byte[32](_ => 0);
      for j := 0 to 4
        invariant forall n | 0 <= n < 32 && n % 4 < j :: hash[n] == Octet(state[n / 4], 24 - 8 * (n % 4))
      {
        StoreBytes(hash, j);
      }
      assert hash[..] == EightBytes(AsEight(state[..]));
      hex := HexOf(hash);
    }

    static method HexOf(hash: array<Byte>) returns (hex: string)
      ensures hex == Hex(hash[..])
    {
      hide HighDigit, LowDigit;
      hex := "";
      for i := 0 to hash.Length
        invariant hex == Hex(hash[..i])
      {
        hex := hex + [HighDigit(hash[i]), LowDigit(hash[i])];
        assert hash[..i + 1][..i] == hash[..i];
      }
      assert hash[..hash.Length] == hash[..];
    }
  }

  lemma BufferRoom(buffer: seq<Byte>, datalen: nat, bitlen: nat, h: Eight, m: seq<Byte>)
    requires Absorbs(buffer, datalen, bitlen, h, m)
    ensures datalen < 64
  {
    hide HashBlocks;
  }

  lemma HashBlocksUnfolds(data: seq<Byte>, n: nat)
    requires 0 < n && 64 * n <= |data|
    ensures HashBlocks(data, n) == Compress(HashBlocks(data, n - 1), data[64 * n - 64..64 * n])
  {
    hide Compress;
  }

  // ---- The length bytes ------------------------------------------------------------

  function Power256(n: nat): nat { if n == 0 then 1 else 256 * Power256(n - 1) }

  /** Adding a multiple of 256^n changes none of the n low bytes. */
  lemma {:induction false} LowBytesWrap(r: nat, k: nat, n: nat)
    ensures LowBytes(r + k * Power256(n), n) == LowBytes(r, n)
  {
    if n > 0 {
      hide ByteOf;
      var c := k * Power256(n - 1);
      assert k * Power256(n) == 256 * c;
      QuotientWrap(r, c);
      LowBytesWrap(r / 256, k, n - 1);
      ByteOfWrap(r, c);
    }
  }

  lemma QuotientWrap(r: nat, c: nat)
    ensures (r + 256 * c) / 256 == r / 256 + c
  {}

  lemma ByteOfWrap(r: nat, c: nat)
    ensures ByteOf(r + 256 * c) == ByteOf(r)
  {
    RemainderWrap(r, c);
  }

  lemma RemainderWrap(r: nat, c: nat)
    ensures (r + 256 * c) % 256 == r % 256
  {}

  /** The bit counter wraps at 64 bits, which the eight length bytes do not show. */
  lemma BitCounterWraps(bits: nat)
    ensures LowBytes(bits % TWO64, 8) == LowBytes(bits, 8)
  {
    hide LowBytes;
    LowBytesWrap(bits % TWO64, bits / TWO64, 8);
    assert Power256(2) == 0x1_0000 && Power256(4) == 0x1_0000_0000 && Power256(6) == 0x1_0000_0000_0000;
  }

  lemma LowBytesUnfolds(n: nat, k: nat)
    ensures LowBytes(n, k) == if k == 0 then [] else LowBytes(n / 256, k - 1) + [ByteOf(n)]
  {}

  /** The eight low bytes by shifts of the whole number. */
  lemma LowBytesByShifts(n: nat)
    ensures LowBytes(n, 8) ==
            [ByteOf(n / 0x100_0000_0000_0000), ByteOf(n / 0x1_0000_0000_0000), ByteOf(n / 0x100_0000_0000),
             ByteOf(n / 0x1_0000_0000), ByteOf(n / 0x100_0000), ByteOf(n / 0x1_0000), ByteOf(n / 0x100), ByteOf(n)]
  {
    hide LowBytes, ByteOf;
    LowBytesUnfolds(n, 8);
    LowBytesUnfolds(n / 0x100, 7);
    LowBytesUnfolds(n / 0x1_0000, 6);
    LowBytesUnfolds(n / 0x100_0000, 5);
    LowBytesUnfolds(n / 0x1_0000_0000, 4);
    LowBytesUnfolds(n / 0x100_0000_0000, 3);
    LowBytesUnfolds(n / 0x1_0000_0000_0000, 2);
    LowBytesUnfolds(n / 0x100_0000_0000_0000, 1);
    LowBytesUnfolds(n / 0x100_0000_0000_0000 / 256, 0);
    ShiftsCompose(n);
    assert LowBytes(n / 0x1_0000_0000, 4) ==
           [ByteOf(n / 0x100_0000_0000_0000), ByteOf(n / 0x1_0000_0000_0000),
            ByteOf(n / 0x100_0000_0000), ByteOf(n / 0x1_0000_0000)];
  }

  lemma ShiftsCompose(n: nat)
    ensures n / 0x100 / 256 == n / 0x1_0000 && n / 0x1_0000 / 256 == n / 0x100_0000
    ensures n / 0x100_0000 / 256 == n / 0x1_0000_0000 && n / 0x1_0000_0000 / 256 == n / 0x100_0000_0000
    ensures n / 0x100_0000_0000 / 256 == n / 0x1_0000_0000_0000
    ensures n / 0x1_0000_0000_0000 / 256 == n / 0x100_0000_0000_0000
  {}

  /** The padded message: its full blocks, then one block or two according to the branch taken. */
  lemma PaddedShape(m: seq<Byte>, q: nat, r: nat)
    requires |m| == 64 * q + r && r < 64
    ensures var p := Padded(m);
            var tail := m[64 * q..] + [0x80];
            && |m| <= |p| && m == p[..|m|]
            && (r < 56 ==> |p| == 64 * q + 64)
            && (r < 56 ==> p[64 * q..] == tail + Zeros(55 - r) + LowBytes(8 * |m|, 8))
            && (r >= 56 ==> |p| == 64 * q + 128)
            && (r >= 56 ==> p[64 * q..64 * q + 64] == tail + Zeros(63 - r))
            && (r >= 56 ==> p[64 * q + 64..] == Zeros(56) + LowBytes(8 * |m|, 8))
  {
    hide LowBytes, Zeros, ZeroBytes, Padded;
    var length := LowBytes(8 * |m|, 8);
    var tail := m[64 * q..] + [0x80];
    PaddedSuffix(m, 64 * q);
    ZeroBytesCases(|m|, q, r);
    if r >= 56 {
      ZerosSplit(63 - r, 56);
      ZerosLength(63 - r);
      RegroupPairs(tail, Zeros(63 - r), Zeros(56), length);
      TwoBlocks(Padded(m), 64 * q, tail + Zeros(63 - r), Zeros(56) + length);
    }
  }

  lemma ZeroBytesCases(len: nat, q: nat, r: nat)
    requires len == 64 * q + r && r < 64
    ensures ZeroBytes(len) == if r < 56 then 55 - r else 119 - r
  {
    assert len % 64 == r;
  }

  lemma PaddedSuffix(m: seq<Byte>, k: nat)
    requires k <= |m|
    ensures var p, z := Padded(m), ZeroBytes(|m|);
            && |p| == |m| + 1 + z + 8 && m == p[..|m|]
            && p[k..] == m[k..] + [0x80] + Zeros(z) + LowBytes(8 * |m|, 8)
  {
    hide ZeroBytes, Zeros, LowBytes;
    var z, length := ZeroBytes(|m|), LowBytes(8 * |m|, 8);
    ZerosLength(z);
    RegroupFour(m, [0x80], Zeros(z), length);
    SuffixOfAppend(m, [0x80] + Zeros(z) + length, k);
    RegroupFour(m[k..], [0x80], Zeros(z), length);
  }

  lemma RegroupPairs<T>(a: seq<T>, b: seq<T>, c: seq<T>, d: seq<T>)
    ensures a + (b + c) + d == (a + b) + (c + d)
  {}

  lemma RegroupFour<T>(a: seq<T>, b: seq<T>, c: seq<T>, d: seq<T>)
    ensures a + (b + c + d) == a + b + c + d
  {}

  lemma TwoBlocks(p: seq<Byte>, k: nat, block: seq<Byte>, last: seq<Byte>)
    requires k <= |p| && p[k..] == block + last && |block| == 64
    ensures k + 64 <= |p| && p[k..k + 64] == block && p[k + 64..] == last
  {
    assert |p| == k + |block + last|;
    assert p[k..k + 64] == p[k..][..64] && p[k + 64..] == p[k..][64..];
  }

  lemma SuffixOfAppend(m: seq<Byte>, x: seq<Byte>, k: nat)
    requires k <= |m|
    ensures (m + x)[k..] == m[k..] + x && m == (m + x)[..|m|]
  {}

  lemma ZerosLength(n: nat)
    ensures |Zeros(n)| == n
  {}

  lemma ZerosSplit(x: nat, y: nat)
    ensures Zeros(x + y) == Zeros(x) + Zeros(y)
  {}

  // ---- Whole messages ----------------------------------------------------------------

  /** However the message is cut into updates, the digest is that of the whole message. */
  method HashPieces(pieces: seq<seq<Byte>>) returns (hex: string)
    ensures hex == Hex(Digest(Concat(pieces)))
  {
    hide Absorbs, AsEight, Digest, Hex;
    var ctx := new Ctx();
    for i := 0 to |pieces|
      invariant ctx.Valid() && ctx.absorbed == Concat(pieces[..i])
      invariant fresh(ctx) && fresh(ctx.data) && fresh(ctx.state)
    {
      ctx.Update(pieces[i]);
      assert pieces[..i + 1][..i] == pieces[..i];
    }
    assert pieces[..|pieces|] == pieces;
    hex := ctx.Finalise();
  }

  method HashText(text: seq<Byte>) returns (hex: string)
    ensures hex == Hex(Digest(text))
  {
    hide Absorbs, AsEight, Digest, Hex;
    var ctx := new Ctx();
    ctx.Update(text);
    assert [] + text == text;
    hex := ctx.Finalise();
  }
}
