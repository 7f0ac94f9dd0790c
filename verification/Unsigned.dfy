/** Differences of unsigned 64-bit time stamps. */
module Unsigned {

  const UINT64: nat := 0x1_0000_0000_0000_0000

  /** How old a stamp is at `now`, as the program computes it: a stamp from the future is very old. */
  function Age(now: int, stamp: int): nat { (now - stamp) % UINT64 }

  lemma AgeExceedsIff(now: nat, stamp: nat, limit: nat)
    requires now < UINT64 && stamp < UINT64
    ensures Age(now, stamp) > limit <==>
            if stamp <= now then now - stamp > limit else stamp - now < UINT64 - limit
  {
    var d := now - stamp;
    if d >= 0 { SmallMod(d); } else { SmallMod(d + UINT64); ShiftMod(d); }
  }

  lemma SmallMod(d: int)
    requires 0 <= d < UINT64
    ensures d % UINT64 == d
  {}

  lemma ShiftMod(d: int)
    ensures (d + UINT64) % UINT64 == d % UINT64
  {}
}
