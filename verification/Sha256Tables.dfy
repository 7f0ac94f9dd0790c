/**
 The constants of SHA-256 as the program spells them, checked against the way section 4.2.2 and
 section 5.3.3 of FIPS 180-4 define them.
 */
module Sha256Tables {

  /** The round constants, in rows of eight so that proofs look up one row at a time. */
  function K(t: nat): bv32
    requires t < 64
  {
    if t < 8 then
      match t case 0 => 0x428a_2f98 case 1 => 0x7137_4491 case 2 => 0xb5c0_fbcf case 3 => 0xe9b5_dba5
      case 4 => 0x3956_c25b case 5 => 0x59f1_11f1 case 6 => 0x923f_82a4 case _ => 0xab1c_5ed5
    else if t < 16 then
      match t case 8 => 0xd807_aa98 case 9 => 0x1283_5b01 case 10 => 0x2431_85be case 11 => 0x550c_7dc3
      case 12 => 0x72be_5d74 case 13 => 0x80de_b1fe case 14 => 0x9bdc_06a7 case _ => 0xc19b_f174
    else if t < 24 then
      match t case 16 => 0xe49b_69c1 case 17 => 0xefbe_4786 case 18 => 0x0fc1_9dc6 case 19 => 0x240c_a1cc
      case 20 => 0x2de9_2c6f case 21 => 0x4a74_84aa case 22 => 0x5cb0_a9dc case _ => 0x76f9_88da
    else if t < 32 then
      match t case 24 => 0x983e_5152 case 25 => 0xa831_c66d case 26 => 0xb003_27c8 case 27 => 0xbf59_7fc7
      case 28 => 0xc6e0_0bf3 case 29 => 0xd5a7_9147 case 30 => 0x06ca_6351 case _ => 0x1429_2967
    else if t < 40 then
      match t case 32 => 0x27b7_0a85 case 33 => 0x2e1b_2138 case 34 => 0x4d2c_6dfc case 35 => 0x5338_0d13
      case 36 => 0x650a_7354 case 37 => 0x766a_0abb case 38 => 0x81c2_c92e case _ => 0x9272_2c85
    else if t < 48 then
      match t case 40 => 0xa2bf_e8a1 case 41 => 0xa81a_664b case 42 => 0xc24b_8b70 case 43 => 0xc76c_51a3
      case 44 => 0xd192_e819 case 45 => 0xd699_0624 case 46 => 0xf40e_3585 case _ => 0x106a_a070
    else if t < 56 then
      match t case 48 => 0x19a4_c116 case 49 => 0x1e37_6c08 case 50 => 0x2748_774c case 51 => 0x34b0_bcb5
      case 52 => 0x391c_0cb3 case 53 => 0x4ed8_aa4a case 54 => 0x5b9c_ca4f case _ => 0x682e_6ff3
    else
      match t case 56 => 0x748f_82ee case 57 => 0x78a5_636f case 58 => 0x84c8_7814 case 59 => 0x8cc7_0208
      case 60 => 0x90be_fffa case 61 => 0xa450_6ceb case 62 => 0xbef9_a3f7 case _ => 0xc671_78f2
  }

  /** The initial hash value. */
  function IV(t: nat): bv32
    requires t < 8
  {
    match t
    case 0 => 0x6a09_e667 case 1 => 0xbb67_ae85 case 2 => 0x3c6e_f372 case 3 => 0xa54f_f53a
    case 4 => 0x510e_527f case 5 => 0x9b05_688c case 6 => 0x1f83_d9ab case _ => 0x5be0_cd19
  }

  /** The primes up to 311. */
  function Prime(t: nat): nat
    requires t < 64
  {
    match t
    case 0 => 2 case 1 => 3 case 2 => 5 case 3 => 7
    case 4 => 11 case 5 => 13 case 6 => 17 case 7 => 19
    case 8 => 23 case 9 => 29 case 10 => 31 case 11 => 37
    case 12 => 41 case 13 => 43 case 14 => 47 case 15 => 53
    case 16 => 59 case 17 => 61 case 18 => 67 case 19 => 71
    case 20 => 73 case 21 => 79 case 22 => 83 case 23 => 89
    case 24 => 97 case 25 => 101 case 26 => 103 case 27 => 107
    case 28 => 109 case 29 => 113 case 30 => 127 case 31 => 131
    case 32 => 137 case 33 => 139 case 34 => 149 case 35 => 151
    case 36 => 157 case 37 => 163 case 38 => 167 case 39 => 173
    case 40 => 179 case 41 => 181 case 42 => 191 case 43 => 193
    case 44 => 197 case 45 => 199 case 46 => 211 case 47 => 223
    case 48 => 227 case 49 => 229 case 50 => 233 case 51 => 239
    case 52 => 241 case 53 => 251 case 54 => 257 case 55 => 263
    case 56 => 269 case 57 => 271 case 58 => 277 case 59 => 281
    case 60 => 283 case 61 => 293 case 62 => 307 case _ => 311
  }

  ghost predicate IsPrime(n: nat) {
    n >= 2 && forall d | 2 <= d < n :: n % d != 0
  }

  /** No prime up to 17 divides it, unless it is that prime. */
  predicate Sieved(n: nat) {
    (n % 2 != 0 || n == 2) && (n % 3 != 0 || n == 3) && (n % 5 != 0 || n == 5) && (n % 7 != 0 || n == 7) &&
    (n % 11 != 0 || n == 11) && (n % 13 != 0 || n == 13) && (n % 17 != 0 || n == 17)
  }

  /** Below 18 * 18 sieving by the primes up to 17 leaves exactly the primes. */
  lemma SievedIffPrime(n: nat)
    requires 2 <= n < 324
    ensures IsPrime(n) <==> Sieved(n)
  {
    if Sieved(n) {
      forall d | 2 <= d < n ensures n % d != 0 {
        if n % d == 0 { SmallFactor(n, d, n / d); }
      }
    }
  }

  lemma SmallFactor(n: nat, d: nat, e: nat)
    requires n < 324 && 2 <= d < n && n == d * e
    ensures !Sieved(n)
  {
    if d < 18 {
      FactorSieves(n, d, e);
    } else {
      if e >= 18 { ProductBound(d, e); }
      FactorSieves(n, e, d);
    }
  }

  lemma ProductBound(d: nat, e: nat)
    requires d >= 18 && e >= 18
    ensures d * e >= 324
  {
    assert d * e >= 18 * e;
  }

  function LeastFactor(d: nat): nat {
    if d % 2 == 0 then 2 else if d % 3 == 0 then 3 else d
  }

  lemma FactorSieves(n: nat, d: nat, e: nat)
    requires 2 <= d < 18 && d < n && n == d * e
    ensures !Sieved(n)
  {
    var q := LeastFactor(d);
    assert d == q * (d / q) && q in {2, 3, 5, 7, 11, 13, 17};
    FactorOfFactor(n, q, d / q, e);
    hide LeastFactor;
    Multiple(n, q, d / q * e);
  }

  lemma FactorOfFactor(n: nat, q: nat, r: nat, e: nat)
    requires n == (q * r) * e
    ensures n == q * (r * e)
  {}

  lemma Multiple(n: nat, q: nat, k: nat)
    requires 0 < q && n == q * k
    ensures n % q == 0
  {
    var d := k - n / q;
    assert q * d == q * k - q * (n / q) == n % q;
    ProductIsLarge(q, d);
  }

  lemma ProductIsLarge(q: int, d: int)
    requires q > 0
    ensures d >= 1 ==> q * d >= q
    ensures d <= -1 ==> q * d <= -q
  {}

  lemma LowPrimesAreSieved(t: nat)
    requires t < 32
    ensures 2 <= Prime(t) < 324 && Sieved(Prime(t))
  {}

  lemma HighPrimesAreSieved(t: nat)
    requires 32 <= t < 64
    ensures 2 <= Prime(t) < 324 && Sieved(Prime(t))
  {}

  /** The entries are primes, in ascending order. */
  lemma TableOfPrimes(t: nat)
    requires t < 64
    ensures IsPrime(Prime(t)) && (t < 63 ==> Prime(t) < Prime(t + 1))
  {
    if t < 32 { LowPrimesAreSieved(t); } else { HighPrimesAreSieved(t); }
    SievedIffPrime(Prime(t));
  }

  /** The integer root whose last 32 bits are the constant, with `whole` the part before the point. */
  ghost predicate IsCubeRoot(n: nat, p: nat) {
    n * n * n <= p * 0x1_0000_0000_0000_0000_0000_0000 < (n + 1) * (n + 1) * (n + 1)
  }

  ghost predicate IsSquareRoot(n: nat, p: nat) {
    n * n <= p * 0x1_0000_0000_0000_0000 < (n + 1) * (n + 1)
  }

  function CubeRootFloor(p: nat): nat {
    if p < 8 then 1 else if p < 27 then 2 else if p < 64 then 3 else if p < 125 then 4 else if p < 216 then 5 else 6
  }

  function SquareRootFloor(p: nat): nat {
    if p < 4 then 1 else if p < 9 then 2 else if p < 16 then 3 else 4
  }

  /** Round constant t is the first 32 bits of the fractional part of the cube root of prime t. */
  lemma RoundConstantsAreCubeRoots(t: nat)
    requires t < 64
    ensures IsCubeRoot(CubeRootFloor(Prime(t)) * 0x1_0000_0000 + K(t) as nat, Prime(t))
  {
    if t < 16 { Row0(t); }
    else if t < 32 { Row16(t); }
    else if t < 48 { Row32(t); }
    else { Row48(t); }
  }

  lemma Row0(t: nat)
    requires 0 <= t < 16
    ensures IsCubeRoot(CubeRootFloor(Prime(t)) * 0x1_0000_0000 + K(t) as nat, Prime(t))
  {}

  lemma Row16(t: nat)
    requires 16 <= t < 32
    ensures IsCubeRoot(CubeRootFloor(Prime(t)) * 0x1_0000_0000 + K(t) as nat, Prime(t))
  {}

  lemma Row32(t: nat)
    requires 32 <= t < 48
    ensures IsCubeRoot(CubeRootFloor(Prime(t)) * 0x1_0000_0000 + K(t) as nat, Prime(t))
  {}

  lemma Row48(t: nat)
    requires 48 <= t < 64
    ensures IsCubeRoot(CubeRootFloor(Prime(t)) * 0x1_0000_0000 + K(t) as nat, Prime(t))
  {}

  /** Initial word t is the first 32 bits of the fractional part of the square root of prime t. */
  lemma InitialWordsAreSquareRoots(t: nat)
    requires t < 8
    ensures IsSquareRoot(SquareRootFloor(Prime(t)) * 0x1_0000_0000 + IV(t) as nat, Prime(t))
  {}
}
