/**
  Decimal digits and numbers, as Python's `\d` and int() and JavaScript's
  toString() have them; the digits are those of Unicode 15.0.
 */
module Decimals {
  predicate Ten(n: int, zero: int) {
    zero <= n < zero + 10
  }

  function NonAsciiDigit(n: int): int {
    if Ten(n, 1632) then n - 1632 else if Ten(n, 1776) then n - 1776 else if Ten(n, 1984) then n - 1984 else
    if Ten(n, 2406) then n - 2406 else if Ten(n, 2534) then n - 2534 else if Ten(n, 2662) then n - 2662 else
    if Ten(n, 2790) then n - 2790 else if Ten(n, 2918) then n - 2918 else if Ten(n, 3046) then n - 3046 else
    if Ten(n, 3174) then n - 3174 else if Ten(n, 3302) then n - 3302 else if Ten(n, 3430) then n - 3430 else
    if Ten(n, 3558) then n - 3558 else if Ten(n, 3664) then n - 3664 else if Ten(n, 3792) then n - 3792 else
    if Ten(n, 3872) then n - 3872 else if Ten(n, 4160) then n - 4160 else if Ten(n, 4240) then n - 4240 else
    if Ten(n, 6112) then n - 6112 else if Ten(n, 6160) then n - 6160 else if Ten(n, 6470) then n - 6470 else
    if Ten(n, 6608) then n - 6608 else if Ten(n, 6784) then n - 6784 else if Ten(n, 6800) then n - 6800 else
    if Ten(n, 6992) then n - 6992 else if Ten(n, 7088) then n - 7088 else if Ten(n, 7232) then n - 7232 else
    if Ten(n, 7248) then n - 7248 else if Ten(n, 42528) then n - 42528 else if Ten(n, 43216) then n - 43216 else
    if Ten(n, 43264) then n - 43264 else if Ten(n, 43472) then n - 43472 else if Ten(n, 43504) then n - 43504 else
    if Ten(n, 43600) then n - 43600 else if Ten(n, 44016) then n - 44016 else if Ten(n, 65296) then n - 65296 else
    if Ten(n, 66720) then n - 66720 else if Ten(n, 68912) then n - 68912 else if Ten(n, 69734) then n - 69734 else
    if Ten(n, 69872) then n - 69872 else if Ten(n, 69942) then n - 69942 else if Ten(n, 70096) then n - 70096 else
    if Ten(n, 70384) then n - 70384 else if Ten(n, 70736) then n - 70736 else if Ten(n, 70864) then n - 70864 else
    if Ten(n, 71248) then n - 71248 else if Ten(n, 71360) then n - 71360 else if Ten(n, 71472) then n - 71472 else
    if Ten(n, 71904) then n - 71904 else if Ten(n, 72016) then n - 72016 else if Ten(n, 72528) then n - 72528 else
    if Ten(n, 72784) then n - 72784 else if Ten(n, 73040) then n - 73040 else if Ten(n, 73120) then n - 73120 else
    if Ten(n, 92768) then n - 92768 else if Ten(n, 92864) then n - 92864 else if Ten(n, 93008) then n - 93008 else
    if Ten(n, 120782) then n - 120782 else if Ten(n, 120792) then n - 120792 else if Ten(n, 120802) then n - 120802 else
    if Ten(n, 120812) then n - 120812 else if Ten(n, 120822) then n - 120822 else if Ten(n, 123200) then n - 123200 else
    if Ten(n, 123632) then n - 123632 else if Ten(n, 124144) then n - 124144 else if Ten(n, 125264) then n - 125264 else
    if Ten(n, 130032) then n - 130032 else
    -1
  }

  /** The decimal value of a digit, -1 of any other character. */
  function DigitValue(c: char): int {
    var n := c as int;
    if Ten(n, 0x30) then n - 0x30 else if n < 0x80 then -1 else NonAsciiDigit(n)
  }

  predicate IsDigit(c: char) {
    DigitValue(c) >= 0
  }

  lemma AsciiDigits(d: nat)
    requires d < 10
    ensures DigitValue((d + 0x30) as char) == d
  {}

  predicate AllDigits(s: string) {
    forall i :: 0 <= i < |s| ==> IsDigit(s[i])
  }

  function Digit(d: nat): char
    requires d < 10
  {
    (d + 0x30) as char
  }

  /** Number.toString() of a natural number. */
  function Dec(n: nat): (s: string)
    ensures s != ""
  {
    if n < 10 then [Digit(n)] else Dec(n / 10) + [Digit(n % 10)]
  }

  /** int() of a string of digits. */
  function Number(s: string): int {
    if s == "" then 0 else Number(s[..|s| - 1]) * 10 + DigitValue(s[|s| - 1])
  }

  lemma {:induction false} DecFacts(n: nat)
    ensures AllDigits(Dec(n)) && Number(Dec(n)) == n
    ensures n < 10 ==> |Dec(n)| == 1
    ensures 10 <= n < 100 ==> |Dec(n)| == 2
    ensures 100 <= n ==> |Dec(n)| >= 3
  {
    AsciiDigits(n % 10);
    hide DigitValue;
    if n < 10 {
      assert Number([Digit(n)]) == Number([Digit(n)][..0]) * 10 + DigitValue(Digit(n));
    } else {
      DecFacts(n / 10);
      var s := Dec(n);
      assert s[..|s| - 1] == Dec(n / 10);
    }
  }

  /** A string cut in two. */
  datatype Cut = Cut(taken: string, rest: string)

  function TakeDigits(s: string): (c: Cut)
    ensures c.taken + c.rest == s && AllDigits(c.taken)
    ensures c.rest != "" ==> !IsDigit(c.rest[0])
  {
    if s != "" && IsDigit(s[0]) then
      var c := TakeDigits(s[1..]);
      DigitInFront(s[0], c.taken, c.rest);
      assert [s[0]] + s[1..] == s;
      Cut([s[0]] + c.taken, c.rest)
    else Cut("", s)
  }

  lemma DigitInFront(c: char, taken: string, rest: string)
    requires IsDigit(c) && AllDigits(taken)
    ensures AllDigits([c] + taken) && [c] + taken + rest == [c] + (taken + rest)
  {
    hide IsDigit;
  }

  lemma {:induction false} NumbersAreNatural(s: string)
    requires AllDigits(s)
    ensures Number(s) >= 0
  {
    hide DigitValue;
    if s == "" {
    } else {
      assert IsDigit(s[|s| - 1]);
      NumbersAreNatural(s[..|s| - 1]);
    }
  }

  lemma {:induction false} TakesAllDigits(s: string, rest: string)
    requires AllDigits(s) && (rest != "" ==> !IsDigit(rest[0]))
    ensures TakeDigits(s + rest) == Cut(s, rest)
  {
    hide IsDigit;
    if s == "" {
      assert s + rest == rest;
    } else {
      assert (s + rest)[1..] == s[1..] + rest;
      TakesAllDigits(s[1..], rest);
    }
  }
}
