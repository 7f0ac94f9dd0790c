/**
 What the word functions of SHA-256 do to the bits of words and to the numbers they stand for (sections 3.1, 3.2 and
 4.1.2 of FIPS 180-4), for all words.
 */
module Sha256Laws {
  import opened Sha256

  /** Ch has the bits of y where x has a one and those of z elsewhere. */
  lemma ChBits(x: Word, y: Word, z: Word)
    ensures x & Ch(x, y, z) == x & y && !x & Ch(x, y, z) == !x & z
  {}

  /** Maj has a one where two words have a one, and a zero where two words have a zero, whichever two they are. */
  lemma MajBits(x: Word, y: Word, z: Word)
    ensures x & y & Maj(x, y, z) == x & y && (x | y) | Maj(x, y, z) == x | y
    ensures Maj(x, y, z) == Maj(y, z, x)
  {
    MajTurns(x, y, z);
  }

  lemma MajTurns(x: Word, y: Word, z: Word)
    ensures Maj(x, y, z) == Maj(y, z, x)
  {}

  /** Turning by one bit moves the last bit to the front. */
  lemma TurnByOne(x: Word)
    ensures RotR(x, 1) == x / 2 + x % 2 * 0x8000_0000
  {}

  /** Turning by n + 1 bits is turning by one bit and then by n. */
  lemma TurnByMore(x: Word, n: bv6)
    requires 0 < n < 31
    ensures RotR(x, n + 1) == RotR(RotR(x, 1), n)
  {}

  /** The first of four bytes holds the most significant bits. */
  lemma BigEndianNumber(b0: Byte, b1: Byte, b2: Byte, b3: Byte)
    ensures BigEndian(b0, b1, b2, b3) ==
            b0 as Word * 0x100_0000 + b1 as Word * 0x1_0000 + b2 as Word * 0x100 + b3 as Word
  {}

  /** A word is spelled back as the four bytes it was read from. */
  lemma OctetsOfBigEndian(b0: Byte, b1: Byte, b2: Byte, b3: Byte)
    ensures var w := BigEndian(b0, b1, b2, b3);
            Octet(w, 24) == b0 && Octet(w, 16) == b1 && Octet(w, 8) == b2 && Octet(w, 0) == b3
  {}
}
