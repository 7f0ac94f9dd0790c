/**
 Decimal numerals: how the program prints integers, and what std::stol and std::stoi read.
 */
module Decimal {
  import opened Common

  predicate IsDigit(c: char) { '0' <= c <= '9' }

  predicate IsSpace(c: char) { c == ' ' || '\t' <= c <= '\r' }

  function Digit(d: nat): char
    requires d < 10
  {
    '0' + d as char
  }

  function Digits(n: nat): string {
    if n < 10 then [Digit(n)] else Digits(n / 10) + [Digit(n % 10)]
  }

  function Show(z: int): string {
    if z < 0 then ['-'] + Digits(-z) else Digits(z)
  }

  function SkipSpaces(s: string): string {
    if s != [] && IsSpace(s[0]) then SkipSpaces(s[1..]) else s
  }

  /** Reads digits up to the first other character; `acc` is the value read so far. */
  function Read(s: string, acc: nat): nat {
    if s != [] && IsDigit(s[0]) then Read(s[1..], 10 * acc + (s[0] - '0') as nat) else acc
  }

  /** std::stol or std::stoi for a type with this range: None is the exception. */
  function Parse(s: string, min: int, max: int): Option<int> {
    var t := SkipSpaces(s);
    var negative := t != [] && t[0] == '-';
    var u := if t != [] && (t[0] == '-' || t[0] == '+') then t[1..] else t;
    if u == [] || !IsDigit(u[0]) then None
    else
      var n: int := Read(u, 0);
      var v := if negative then -n else n;
      if min <= v <= max then Some(v) else None
  }

  lemma {:induction false} DigitsAreDigits(n: nat)
    ensures Digits(n) != [] && forall k | 0 <= k < |Digits(n)| :: IsDigit(Digits(n)[k])
  {
    if n >= 10 { DigitsAreDigits(n / 10); }
  }

  lemma {:induction false} ReadAppend(s: string, c: char, acc: nat)
    requires IsDigit(c) && forall k | 0 <= k < |s| :: IsDigit(s[k])
    ensures Read(s + [c], acc) == 10 * Read(s, acc) + (c - '0') as nat
  {
    if s == [] {
      assert s + [c] == [c];
      assert [c][1..] == [];
    } else {
      assert (s + [c])[1..] == s[1..] + [c];
      ReadAppend(s[1..], c, 10 * acc + (s[0] - '0') as nat);
    }
  }

  lemma {:induction false} ReadDigits(n: nat)
    ensures Read(Digits(n), 0) == n
  {
    if n < 10 {
      assert Digits(n)[1..] == [];
    } else {
      DigitsAreDigits(n / 10);
      ReadDigits(n / 10);
      ReadAppend(Digits(n / 10), Digit(n % 10), 0);
    }
  }

  lemma ParseShow(z: int, min: int, max: int)
    ensures Parse(Show(z), min, max) == if min <= z <= max then Some(z) else None
  {
    var n := if z < 0 then -z else z;
    DigitsAreDigits(n);
    ReadDigits(n);
    if z < 0 { assert Show(z)[1..] == Digits(n); }
  }

  lemma DigitsInjective(m: nat, n: nat)
    requires Digits(m) == Digits(n)
    ensures m == n
  {
    ReadDigits(m);
    ReadDigits(n);
  }

  /** Reading skips spaces, takes a sign, and stops at the first other character. */
  lemma ParseExamples()
    ensures Parse(" +42x", -100, 100) == Some(42) && Parse("-7", -100, 100) == Some(-7)
    ensures Parse("", -100, 100) == None && Parse("x1", -100, 100) == None && Parse("- 1", -100, 100) == None
    ensures Parse("101", -100, 100) == None
  {
    ReadExamples();
    var s := " +42x";
    assert s[1..] == "+42x" && SkipSpaces("+42x") == "+42x" && SkipSpaces(s) == "+42x";
    assert "+42x"[1..] == "42x" && "-7"[1..] == "7" && "- 1"[1..] == " 1";
  }

  lemma ReadExamples()
    ensures Read("42x", 0) == 42 && Read("7", 0) == 7 && Read("101", 0) == 101
  {
    assert "42x"[1..] == "2x" && "2x"[1..] == "x" && "7"[1..] == "" && "101"[1..] == "01" && "01"[1..] == "1";
    assert "1"[1..] == "";
    assert Read("x", 42) == 42 && Read("2x", 4) == 42;
    assert Read("", 7) == 7 && Read("", 101) == 101 && Read("1", 10) == 101 && Read("01", 1) == 101;
  }
}
