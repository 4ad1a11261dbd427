/** Numerals in any base from 2 to 36 and what they stand for. */
module Numerals {
  import opened Options
  import opened Sequences

  predicate IsBase(base: nat) {
    2 <= base <= 36
  }

  function Symbol(d: nat, upper: bool): (c: char)
    requires d < 36
    ensures DigitOf(c, 36) == Some(d)
    ensures c != '\0'
  {
    if d < 10 then '0' + d as char else if upper then 'A' + (d - 10) as char else 'a' + (d - 10) as char
  }

  /** The value of a character as a digit of the base, if it is one. */
  function DigitOf(c: char, base: nat): (d: Option<nat>)
    ensures d.Some? ==> d.value < base
  {
    var v :=
      if '0' <= c <= '9' then (c - '0') as nat
      else if 'a' <= c <= 'z' then (c - 'a') as nat + 10
      else if 'A' <= c <= 'Z' then (c - 'A') as nat + 10
      else base;
    if v < base then Some(v) else None
  }

  predicate AllDigits(s: string, base: nat) {
    forall k :: 0 <= k < |s| ==> DigitOf(s[k], base).Some?
  }

  lemma DivMod(v: nat, base: nat)
    requires base >= 2
    ensures v == base * (v / base) + v % base && v % base < base && (v > 0 ==> v / base < v)
  {
  }

  lemma DivBound(v: nat, base: nat, p: nat)
    requires base >= 2 && v < base * p
    ensures v / base < p
  {
    DivMod(v, base);
    if v / base >= p { Monotone(base, p, v / base); }
  }

  lemma Monotone(k: nat, a: nat, b: nat)
    requires a <= b
    ensures k * a <= k * b
  {
  }

  /** The numeral of `v`, without leading zeros. */
  function Numeral(v: nat, base: nat, upper: bool): (s: string)
    requires IsBase(base)
    ensures s != [] && AllDigits(s, base)
    decreases v
  {
    DivMod(v, base);
    SymbolDigit(v % base, upper, base);
    if v < base then [Symbol(v, upper)] else Numeral(v / base, base, upper) + [Symbol(v % base, upper)]
  }

  /** The number that a string of digits stands for. */
  function Value(s: string, base: nat): nat
    requires AllDigits(s, base)
  {
    if s == [] then 0 else base * Value(s[..|s| - 1], base) + DigitOf(s[|s| - 1], base).value
  }

  lemma {:induction false} ValueOfNumeral(v: nat, base: nat, upper: bool)
    requires IsBase(base)
    ensures Value(Numeral(v, base, upper), base) == v
    decreases v
  {
    if v >= base {
      DivMod(v, base);
      ValueOfNumeral(v / base, base, upper);
      ValueSnoc(Numeral(v / base, base, upper), Symbol(v % base, upper), base);
      SymbolDigit(v % base, upper, base);
    } else {
      SymbolDigit(v, upper, base);
      assert Numeral(v, base, upper)[..0] == [];
    }
  }

  lemma SymbolDigit(d: nat, upper: bool, base: nat)
    requires d < base <= 36
    ensures DigitOf(Symbol(d, upper), base) == Some(d)
  {
  }

  lemma ValueSnoc(s: string, c: char, base: nat)
    requires AllDigits(s, base) && DigitOf(c, base).Some?
    ensures AllDigits(s + [c], base) && Value(s + [c], base) == base * Value(s, base) + DigitOf(c, base).value
  {
    assert (s + [c])[..|s|] == s;
  }

  /** Leading zeros do not count. */
  lemma {:induction false} ValueOfPadded(zeros: string, s: string, base: nat)
    requires IsBase(base) && (forall k :: 0 <= k < |zeros| ==> zeros[k] == '0') && AllDigits(s, base)
    ensures AllDigits(zeros + s, base) && Value(zeros + s, base) == Value(s, base)
    decreases |zeros| + |s|
  {
    var t := zeros + s;
    assert AllDigits(t, base);
    if s != [] {
      assert t[..|t| - 1] == zeros + s[..|s| - 1];
      ValueOfPadded(zeros, s[..|s| - 1], base);
    } else if zeros != [] {
      assert t[..|t| - 1] == zeros[..|zeros| - 1] + [];
      ValueOfPadded(zeros[..|zeros| - 1], [], base);
    }
  }

  function Power(base: nat, k: nat): nat {
    if k == 0 then 1 else base * Power(base, k - 1)
  }

  lemma {:induction false} NumeralLength(v: nat, base: nat, upper: bool, k: nat)
    requires IsBase(base) && v < Power(base, k) && k >= 1
    ensures |Numeral(v, base, upper)| <= k
    decreases k
  {
    if v >= base {
      DivBound(v, base, Power(base, k - 1));
      if k == 1 { DivMod(v, base); }
      NumeralLength(v / base, base, upper, k - 1);
    }
  }

  function Reversed<T>(s: seq<T>): (r: seq<T>)
    ensures |r| == |s|
  {
    if s == [] then [] else Reversed(s[1..]) + [s[0]]
  }

  lemma {:induction false} ReversedSnoc<T>(s: seq<T>, x: T)
    ensures Reversed(s + [x]) == [x] + Reversed(s)
  {
    if s != [] {
      assert (s + [x])[1..] == s[1..] + [x];
      ReversedSnoc(s[1..], x);
    }
  }

  /** The digits, last one first, the way a division loop finds them. */
  method DigitsBackwards(v: nat, base: nat, upper: bool) returns (digits: string)
    requires IsBase(base)
    ensures Reversed(digits) == Numeral(v, base, upper)
  {
    if v == 0 { return [Symbol(0, upper)]; }
    digits := [];
    var rest: nat := v;
    while rest != 0
      invariant Remaining(rest, base, upper) + Reversed(digits) == Numeral(v, base, upper)
    {
      DivMod(rest, base);
      ReversedSnoc(digits, Symbol(rest % base, upper));
      OneDigitLess(rest, base, upper);
      Regroup(Remaining(rest / base, base, upper), [Symbol(rest % base, upper)], Reversed(digits));
      digits := digits + [Symbol(rest % base, upper)];
      rest := rest / base;
    }
  }

  function Remaining(v: nat, base: nat, upper: bool): string
    requires IsBase(base)
  {
    if v == 0 then [] else Numeral(v, base, upper)
  }

  lemma OneDigitLess(v: nat, base: nat, upper: bool)
    requires IsBase(base) && v > 0
    ensures v % base < base && Remaining(v, base, upper) == Remaining(v / base, base, upper) + [Symbol(v % base, upper)]
  {
    DivMod(v, base);
    if v < base { Small(v, base); }
  }

  lemma Small(v: nat, base: nat)
    requires v < base
    ensures v / base == 0 && v % base == v
  {
  }
}
