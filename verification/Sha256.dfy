/**
 SHA-256 as FIPS 180-4 defines it: a function from a whole message to a digest. Messages are
 sequences of bytes, so all the bit counts of the standard are multiples of eight.
 */
module Sha256 {
  import Tables = Sha256Tables

  type Byte = bv8
  type Word = bv32

  // Section 4.1.2
  function RotR(x: Word, n: bv6): Word
    requires 0 < n < 32
  {
    (x >> n) | (x << (32 - n))
  }

  function Ch(x: Word, y: Word, z: Word): Word { (x & y) ^ (!x & z) }

  function Maj(x: Word, y: Word, z: Word): Word { (x & y) ^ (x & z) ^ (y & z) }

  function BigSigma0(x: Word): Word { RotR(x, 2) ^ RotR(x, 13) ^ RotR(x, 22) }

  function BigSigma1(x: Word): Word { RotR(x, 6) ^ RotR(x, 11) ^ RotR(x, 25) }

  function SmallSigma0(x: Word): Word { RotR(x, 7) ^ RotR(x, 18) ^ (x >> 3) }

  function SmallSigma1(x: Word): Word { RotR(x, 17) ^ RotR(x, 19) ^ (x >> 10) }

  /** Addition modulo 2^32. */
  function Plus(x: Word, y: Word): Word { x + y }

  /** The word with these four bytes, the first one in front. */
  function BigEndian(b0: Byte, b1: Byte, b2: Byte, b3: Byte): Word {
    ((b0 as Word) << 24) | ((b1 as Word) << 16) | ((b2 as Word) << 8) | (b3 as Word)
  }

  function K(t: nat): Word
    requires t < 64
  {
    Tables.K(t)
  }

  /** Eight words: a hash value, or the working variables a to h. */
  datatype Eight = Eight(a: Word, b: Word, c: Word, d: Word, e: Word, f: Word, g: Word, h: Word)

  function InitialHash(): Eight {
    Eight(Tables.IV(0), Tables.IV(1), Tables.IV(2), Tables.IV(3),
          Tables.IV(4), Tables.IV(5), Tables.IV(6), Tables.IV(7))
  }

  // Section 5.1.1: a one bit, then zeros up to 448 mod 512, then the length in 64 bits
  /** The zero bytes between the byte 0x80 and the length. */
  function ZeroBytes(len: nat): nat { (119 - len % 64) % 64 }

  /** The low `n` bytes of a number, the most significant one in front. */
  function LowBytes(bits: nat, n: nat): (bytes: seq<Byte>)
    ensures |bytes| == n
  {
    if n == 0 then [] else LowBytes(bits / 256, n - 1) + [ByteOf(bits)]
  }

  function ByteOf(n: nat): Byte { (n % 256) as Byte }

  function Zeros(n: nat): seq<Byte> { seq(n, _ => 0) }

  function Padded(message: seq<Byte>): seq<Byte> {
    message + [0x80] + Zeros(ZeroBytes(|message|)) + LowBytes(8 * |message|, 8)
  }

  /** The padded message is a whole number of blocks. */
  lemma PaddedWholeBlocks(message: seq<Byte>)
    ensures |Padded(message)| % 64 == 0
  {
    hide LowBytes;
    var q := |message| / 64;
    assert |message| == 64 * q + |message| % 64;
  }

  /** The k zero bits of the padding: the least non-negative solution of l + 1 + k = 448 mod 512. */
  lemma PaddingIsLeast(len: nat, k: nat)
    ensures (8 * len + 1 + (7 + 8 * ZeroBytes(len))) % 512 == 448
    ensures (8 * len + 1 + k) % 512 == 448 ==> k >= 7 + 8 * ZeroBytes(len)
  {
    var q := len / 64;
    assert len == 64 * q + len % 64;
  }

  // Section 6.2.2
  function WordAt(block: seq<Byte>, t: nat): Word
    requires |block| == 64 && t < 16
  {
    BigEndian(block[4 * t], block[4 * t + 1], block[4 * t + 2], block[4 * t + 3])
  }

  function NextWord(w2: Word, w7: Word, w15: Word, w16: Word): Word {
    Plus(Plus(Plus(SmallSigma1(w2), w7), SmallSigma0(w15)), w16)
  }

  function Schedule(block: seq<Byte>, t: nat): Word
    requires |block| == 64
  {
    if t < 16 then WordAt(block, t)
    else NextWord(Schedule(block, t - 2), Schedule(block, t - 7), Schedule(block, t - 15), Schedule(block, t - 16))
  }

  function Round(v: Eight, k: Word, w: Word): Eight {
    var t1 := Plus(Plus(Plus(Plus(v.h, BigSigma1(v.e)), Ch(v.e, v.f, v.g)), k), w);
    var t2 := Plus(BigSigma0(v.a), Maj(v.a, v.b, v.c));
    Eight(Plus(t1, t2), v.a, v.b, v.c, Plus(v.d, t1), v.e, v.f, v.g)
  }

  function Rounds(v: Eight, block: seq<Byte>, n: nat): Eight
    requires |block| == 64 && n <= 64
  {
    if n == 0 then v else Round(Rounds(v, block, n - 1), K(n - 1), Schedule(block, n - 1))
  }

  function Add(x: Eight, y: Eight): Eight {
    Eight(Plus(x.a, y.a), Plus(x.b, y.b), Plus(x.c, y.c), Plus(x.d, y.d),
          Plus(x.e, y.e), Plus(x.f, y.f), Plus(x.g, y.g), Plus(x.h, y.h))
  }

  function Compress(h: Eight, block: seq<Byte>): Eight
    requires |block| == 64
  {
    Add(h, Rounds(h, block, 64))
  }

  /** The hash value after the first `n` blocks of `data`. */
  function HashBlocks(data: seq<Byte>, n: nat): Eight
    requires 64 * n <= |data|
  {
    if n == 0 then InitialHash() else Compress(HashBlocks(data, n - 1), data[64 * n - 64..64 * n])
  }

  function Octet(w: Word, shift: nat): Byte
    requires shift <= 24
  {
    ((w >> shift) & 0xff) as Byte
  }

  function WordOf(v: Eight, i: nat): Word
    requires i < 8
  {
    match i
    case 0 => v.a case 1 => v.b case 2 => v.c case 3 => v.d
    case 4 => v.e case 5 => v.f case 6 => v.g case _ => v.h
  }

  /** The eight words one after the other, the most significant byte of each in front. */
  function EightBytes(v: Eight): (bytes: seq<Byte>)
    ensures |bytes| == 32
  {
    seq(32, n requires 0 <= n < 32 => Octet(WordOf(v, n / 4), 24 - 8 * (n % 4)))
  }

  function Digest(message: seq<Byte>): (d: seq<Byte>)
    ensures |d| == 32
  {
    EightBytes(HashBlocks(Padded(message), |Padded(message)| / 64))
  }

  function HexDigit(n: nat): char
    requires n < 16
  {
    "0123456789abcdef"[n]
  }

  function HighDigit(b: Byte): char { HexDigit((b >> 4) as nat) }

  function LowDigit(b: Byte): char { HexDigit((b & 0xf) as nat) }

  /** Two lower-case hexadecimal digits a byte. */
  function Hex(bytes: seq<Byte>): string {
    if bytes == [] then ""
    else
      Hex(bytes[..|bytes| - 1]) + [HighDigit(bytes[|bytes| - 1]), LowDigit(bytes[|bytes| - 1])]
  }

  lemma {:induction false} HexInjective(x: seq<Byte>, y: seq<Byte>)
    requires Hex(x) == Hex(y)
    ensures x == y
    decreases |x|
  {
    hide HighDigit, LowDigit;
    if x != [] && y != [] {
      var m, n := |x| - 1, |y| - 1;
      SnocEqual(Hex(x[..m]), HighDigit(x[m]), LowDigit(x[m]), Hex(y[..n]), HighDigit(y[n]), LowDigit(y[n]));
      HexInjective(x[..m], y[..n]);
      DigitsDetermineByte(x[m], y[n]);
      assert x == x[..m] + [x[m]] && y == y[..n] + [y[n]];
    }
  }

  lemma DigitsDetermineByte(a: Byte, b: Byte)
    requires HighDigit(a) == HighDigit(b) && LowDigit(a) == LowDigit(b)
    ensures a == b
  {
    HexDigitInjective((a >> 4) as nat, (b >> 4) as nat);
    HexDigitInjective((a & 0xf) as nat, (b & 0xf) as nat);
    assert (a >> 4) == (b >> 4) && (a & 0xf) == (b & 0xf);
  }

  lemma HexDigitInjective(m: nat, n: nat)
    requires m < 16 && n < 16 && HexDigit(m) == HexDigit(n)
    ensures m == n
  {}

  lemma SnocEqual(s: string, c: char, d: char, s': string, c': char, d': char)
    requires s + [c, d] == s' + [c', d']
    ensures s == s' && c == c' && d == d'
  {
    var n, n' := |s|, |s'|;
    assert |s + [c, d]| == n + 2 && |s' + [c', d']| == n' + 2;
    assert s == (s + [c, d])[..n] && s' == (s' + [c', d'])[..n];
    assert (s + [c, d])[n] == c && (s + [c, d])[n + 1] == d;
    assert (s' + [c', d'])[n] == c' && (s' + [c', d'])[n + 1] == d';
  }

  /** A block's hash value does not depend on what follows the block. */
  lemma {:induction false} HashBlocksPrefix(x: seq<Byte>, y: seq<Byte>, n: nat)
    requires 64 * n <= |x| <= |y| && x == y[..|x|]
    ensures HashBlocks(x, n) == HashBlocks(y, n)
  {
    hide Compress;
    if n > 0 {
      HashBlocksPrefix(x, y, n - 1);
      assert x[64 * n - 64..64 * n] == y[64 * n - 64..64 * n];
    }
  }
}
