/** Reading integers from strings. A string stands for its characters up to the NUL; past its end a NUL is read. */
module Strtol {
  import opened Options
  import opened Numerals

  const U64 := 0x1_0000_0000_0000_0000
  const MAX := U64 - 1
  const HALF := 0x8000_0000_0000_0000          // -LLONG_MIN

  function CharAt(s: string, i: nat): char {
    if i < |s| then s[i] else '\0'
  }

  predicate IsSpace(c: char) {
    c == ' ' || c == '\t' || c == '\n' || c == '\r' || c == '\U{C}' || c == '\U{B}'
  }

  /** The first place from `i` on that is not white space. */
  function SkipSpaces(s: string, i: nat): (r: nat)
    requires i <= |s|
    ensures i <= r <= |s| && !IsSpace(CharAt(s, r)) && forall k :: i <= k < r ==> IsSpace(s[k])
    decreases |s| - i
  {
    if i < |s| && IsSpace(s[i]) then SkipSpaces(s, i + 1) else i
  }

  /** The first place from `i` on that is not a digit. */
  function SkipDigits(s: string, i: nat, base: nat): (r: nat)
    requires i <= |s|
    ensures i <= r <= |s| && DigitOf(CharAt(s, r), base).None? && AllDigits(s[i..r], base)
    decreases |s| - i
  {
    if i < |s| && DigitOf(s[i], base).Some? then SkipDigits(s, i + 1, base) else (NulIsNoDigit(base); i)
  }

  lemma {:induction false} SkipsAll(s: string, i: nat, n: nat)
    requires i <= n <= |s| && (forall k :: i <= k < n ==> IsSpace(s[k])) && !IsSpace(CharAt(s, n))
    ensures SkipSpaces(s, i) == n
    decreases n - i
  {
    if i < n { SkipsAll(s, i + 1, n); }
  }

  lemma {:induction false} SkipsDigits(s: string, i: nat, n: nat, base: nat)
    requires i <= n <= |s| && (forall k :: i <= k < n ==> DigitOf(s[k], base).Some?) && DigitOf(CharAt(s, n), base).None?
    ensures SkipDigits(s, i, base) == n
    decreases n - i
  {
    if i < n { SkipsDigits(s, i + 1, n, base); }
  }

  lemma NulIsNoDigit(base: nat)
    ensures DigitOf('\0', base).None?
  {
  }

  /** What is found in a string: the sign, the base, and where the digits are. */
  datatype Found = Found(negative: bool, base: nat, from: nat, to: nat)

  /** The base that a prefix selects, and the place behind the prefix. */
  function Detect(s: string, i: nat, base: nat): (r: (nat, nat))
    requires i <= |s|
    ensures i <= r.1 <= |s| && (IsBase(base) || base == 0 ==> IsBase(r.0))
  {
    if base == 0 then
      if CharAt(s, i) != '0' then (10, i)
      else if CharAt(s, i + 1) in {'x', 'X'} then (16, i + 2)
      else (8, i + 1)
    else if base == 16 && CharAt(s, i) == '0' && CharAt(s, i + 1) in {'x', 'X'} then (16, i + 2)
    else (base, i)
  }

  /** The place behind white space and a sign. */
  function Start(s: string): (i: nat)
    ensures i <= |s|
  {
    var a := SkipSpaces(s, 0);
    if CharAt(s, a) in {'+', '-'} then a + 1 else a
  }

  function Find(s: string, base: nat): (f: Found)
    ensures f.from <= f.to <= |s| && AllDigits(s[f.from..f.to], f.base) && (IsBase(base) || base == 0 ==> IsBase(f.base))
  {
    var a := SkipSpaces(s, 0);
    var (found, c) := Detect(s, Start(s), base);
    Found(CharAt(s, a) == '-', found, c, SkipDigits(s, c, found))
  }

  /** The number that the digits stand for, however large. */
  function Magnitude(s: string, base: nat): nat {
    var f := Find(s, base);
    Value(s[f.from..f.to], f.base)
  }

  /** Where reading ends: at the start if there was no digit. */
  function End(s: string, base: nat): nat {
    var f := Find(s, base);
    if f.from == f.to then 0 else f.to
  }

  lemma OneMoreDigit(s: string, from: nat, i: nat, base: nat)
    requires from <= i < |s| && AllDigits(s[from..i], base) && DigitOf(s[i], base).Some?
    ensures AllDigits(s[from..i + 1], base) && Value(s[from..i + 1], base) == base * Value(s[from..i], base) + DigitOf(s[i], base).value
  {
    assert s[from..i + 1] == s[from..i] + [s[i]];
    ValueSnoc(s[from..i], s[i], base);
  }

  // ---- Unsigned: saturation -----------------------------------------------

  function Saturated(v: nat): nat {
    if v > MAX then MAX else v
  }

  function Accumulated(r: nat, d: nat, base: nat): nat
    requires IsBase(base) && d < base
  {
    if r > (MAX - d) / base then MAX else r * base + d
  }

  /** The overflow test is exact. */
  lemma OverflowTest(r: nat, d: nat, base: nat)
    requires IsBase(base) && d < base
    ensures r > (MAX - d) / base <==> base * r + d > MAX
  {
    var q := (MAX - d) / base;
    DivMod(MAX - d, base);
    if r > q { Monotone(base, q + 1, r); Distribute(base, q); } else { Monotone(base, r, q); }
  }

  lemma Distribute(k: nat, a: nat)
    ensures k * (a + 1) == k * a + k
  {
  }

  lemma SaturationKept(v: nat, d: nat, base: nat)
    requires IsBase(base) && d < base
    ensures Accumulated(Saturated(v), d, base) == Saturated(base * v + d)
  {
    OverflowTest(Saturated(v), d, base);
    if v > MAX {
      Monotone(base, MAX, v);
      Twice(base, MAX);
    }
  }

  lemma Twice(k: nat, a: nat)
    requires k >= 2
    ensures k * a >= 2 * a
  {
  }

  function Negated(v: nat): nat
    requires v <= MAX
  {
    if v == 0 then 0 else U64 - v
  }

  method StrToULL(s: string, base: nat) returns (value: nat, end: nat)
    requires base == 0 || IsBase(base)
    ensures end == End(s, base)
    ensures var v := Saturated(Magnitude(s, base)); value == if Find(s, base).negative then Negated(v) else v
  {
    var i, negative := Sign(s);
    var (radix, from) := Detect(s, i, base);
    value, end := ReadSaturating(s, from, radix);
    if end == from { end := 0; }
    value := if negative then Negated(value) else value;
  }

  method ReadSaturating(s: string, from: nat, radix: nat) returns (value: nat, i: nat)
    requires from <= |s| && IsBase(radix)
    ensures i == SkipDigits(s, from, radix) && value == Saturated(Value(s[from..i], radix))
  {
    value, i := 0, from;
    while i < |s| && DigitOf(s[i], radix).Some?
      invariant from <= i <= |s| && AllDigits(s[from..i], radix) && value == Saturated(Value(s[from..i], radix))
      invariant SkipDigits(s, i, radix) == SkipDigits(s, from, radix)
    {
      var d := DigitOf(s[i], radix).value;
      SaturationKept(Value(s[from..i], radix), d, radix);
      OneMoreDigit(s, from, i, radix);
      value := Accumulated(value, d, radix);
      i := i + 1;
    }
  }

  method Sign(s: string) returns (i: nat, negative: bool)
    ensures i <= |s|
    ensures var a := SkipSpaces(s, 0); i == (if CharAt(s, a) in {'+', '-'} then a + 1 else a) && negative == (CharAt(s, a) == '-')
  {
    i := 0;
    while i < |s| && IsSpace(s[i])
      invariant 0 <= i <= |s| && SkipSpaces(s, i) == SkipSpaces(s, 0)
    {
      i := i + 1;
    }
    negative := false;
    if CharAt(s, i) == '+' {
      i := i + 1;
    } else if CharAt(s, i) == '-' {
      negative, i := true, i + 1;
    }
  }

  // ---- Signed: wrap-around, then clamping ---------------------------------

  /** The signed value nearest to the number. */
  function Clamped(v: nat, negative: bool): int {
    if negative then if v > HALF then -HALF else 0 - v
    else if v > HALF - 1 then HALF - 1 else v
  }

  lemma WrapKept(v: nat, d: nat, base: nat)
    ensures (v % U64 * base + d) % U64 == (base * v + d) % U64
  {
    var q, r := v / U64, v % U64;
    assert v == q * U64 + r;
    Spread(base, q, r);
    ModPlus(r * base + d, base * q);
  }

  lemma Spread(k: nat, q: nat, r: nat)
    ensures k * (q * U64 + r) == (k * q) * U64 + r * k
  {
  }

  lemma ModPlus(a: nat, k: nat)
    ensures (k * U64 + a) % U64 == a % U64
  {
  }

  method ReadWrapping(s: string, from: nat, radix: nat) returns (value: nat, i: nat)
    requires from <= |s| && IsBase(radix)
    ensures i == SkipDigits(s, from, radix) && value == Value(s[from..i], radix) % U64
  {
    value, i := 0, from;
    while i < |s| && DigitOf(s[i], radix).Some?
      invariant from <= i <= |s| && AllDigits(s[from..i], radix) && value == Value(s[from..i], radix) % U64
      invariant SkipDigits(s, i, radix) == SkipDigits(s, from, radix)
    {
      var d := DigitOf(s[i], radix).value;
      WrapKept(Value(s[from..i], radix), d, radix);
      OneMoreDigit(s, from, i, radix);
      value := (value * radix + d) % U64;
      i := i + 1;
    }
  }

  method StrToLL(s: string, base: nat) returns (value: int, end: nat)
    requires base == 0 || IsBase(base)
    ensures end == End(s, base) && value == Clamped(Magnitude(s, base) % U64, Find(s, base).negative)
  {
    var i, negative := Sign(s);
    var (radix, from) := Detect(s, i, base);
    var result;
    result, end := ReadWrapping(s, from, radix);
    if end == from { end := 0; }
    if negative {
      value := if result > HALF then -HALF else 0 - result;
    } else {
      value := if result > HALF - 1 then HALF - 1 else result;
    }
  }

  /** The result is the right one exactly if the number fits 64 bits or its low 64 bits clamp to the same limit. */
  lemma WhenExact(v: nat, negative: bool)
    ensures Clamped(v % U64, negative) == Clamped(v, negative) <==> v < U64 || v % U64 >= if negative then HALF else HALF - 1
  {
  }

  // ---- What section 7.22.1.4 of ISO C11 asks for ----------------------------

  /** The limit for a number out of range, and otherwise the number, negated if asked. */
  function StandardUnsigned(v: nat, negative: bool): nat {
    if v > MAX then MAX else if negative then Negated(v) else v
  }

  /** The unsigned result is that one unless a number out of range has a minus sign: then it is 1. */
  lemma UnsignedExact(v: nat, negative: bool)
    ensures var result := if negative then Negated(Saturated(v)) else Saturated(v);
      && (result == StandardUnsigned(v, negative) <==> !(negative && v > MAX))
      && (negative && v > MAX ==> result == 1)
  {
  }

  // 2^64 and -2^64 in base 16
  const LIMIT := "10000000000000000"
  const MINUS_LIMIT := "-10000000000000000"

  lemma {:induction false} OneAndZeros(s: string, base: nat)
    requires IsBase(base) && s != [] && s[0] == '1' && forall k :: 1 <= k < |s| ==> s[k] == '0'
    ensures AllDigits(s, base) && Value(s, base) == Power(base, |s| - 1)
    decreases |s|
  {
    if |s| == 1 {
      assert s[..0] == [];
    } else {
      OneAndZeros(s[..|s| - 1], base);
    }
  }

  lemma SixteenTo16()
    ensures Power(16, 16) == U64
  {
    assert Power(16, 4) == 0x1_0000;
    assert Power(16, 8) == 0x1_0000_0000;
    assert Power(16, 12) == 0x1_0000_0000_0000;
  }

  lemma ReadsLimit(s: string)
    requires s == MINUS_LIMIT
    ensures Magnitude(s, 16) == U64 && Find(s, 16).negative
  {
    OneAndZeros(LIMIT, 16);
    SkipsDigits(s, 1, 18, 16);
    assert s[1..18] == LIMIT;
    SixteenTo16();
  }

  /** Of -2^64, `strtoll` makes 0 where the smallest value is asked for, and `strtoull` 1 where the largest is. */
  lemma OutOfRange(s: string)
    requires s == MINUS_LIMIT
    ensures var v, negative := Magnitude(s, 16), Find(s, 16).negative;
      && Clamped(v % U64, negative) == 0 && Clamped(v, negative) == -HALF
      && negative && Negated(Saturated(v)) == 1 && StandardUnsigned(v, negative) == MAX
  {
    ReadsLimit(s);
  }

  /** The base and the first digit: a prefix counts only if a digit follows it, and a leading 0 is an octal digit. */
  function Subject(s: string, i: nat, base: nat): (r: (nat, nat))
    requires i <= |s|
    ensures i <= r.1 <= |s|
  {
    if base in {0, 16} && CharAt(s, i) == '0' && CharAt(s, i + 1) in {'x', 'X'} && DigitOf(CharAt(s, i + 2), 16).Some?
    then (16, i + 2)
    else if base == 0 then (if CharAt(s, i) == '0' then 8 else 10, i)
    else (base, i)
  }

  function StandardEnd(s: string, base: nat): nat {
    var (b, from) := Subject(s, Start(s), base);
    var to := SkipDigits(s, from, b);
    if from == to then 0 else to
  }

  function StandardMagnitude(s: string, base: nat): nat {
    var (b, from) := Subject(s, Start(s), base);
    Value(s[from..SkipDigits(s, from, b)], b)
  }

  /** A prefix that selects the base but has no digit behind it. */
  predicate LonePrefix(s: string, base: nat) {
    var i := Start(s);
    && CharAt(s, i) == '0'
    && if CharAt(s, i + 1) in {'x', 'X'} then base in {0, 16} && DigitOf(CharAt(s, i + 2), 16).None?
       else base == 0 && DigitOf(CharAt(s, i + 1), 8).None?
  }

  /** The number is always the one asked for; the end of reading is too, just when no prefix stands alone. */
  lemma EndExact(s: string, base: nat)
    requires base == 0 || IsBase(base)
    ensures Magnitude(s, base) == StandardMagnitude(s, base)
    ensures End(s, base) == StandardEnd(s, base) <==> !LonePrefix(s, base)
  {
    if LonePrefix(s, base) {
      LoneCase(s, base);
    } else if base == 0 && CharAt(s, Start(s)) == '0' && CharAt(s, Start(s) + 1) !in {'x', 'X'} {
      LeadingZero(s, Start(s));
    } else {
      assert Detect(s, Start(s), base) == Subject(s, Start(s), base);
    }
  }

  lemma LoneCase(s: string, base: nat)
    requires (base == 0 || IsBase(base)) && LonePrefix(s, base)
    ensures Magnitude(s, base) == StandardMagnitude(s, base) && End(s, base) != StandardEnd(s, base)
  {
    OneZero(s, Start(s), Subject(s, Start(s), base).0);
  }

  lemma OneZero(s: string, i: nat, base: nat)
    requires IsBase(base) && i < |s| && s[i] == '0' && DigitOf(CharAt(s, i + 1), base).None?
    ensures SkipDigits(s, i, base) == i + 1 && AllDigits(s[i..i + 1], base) && Value(s[i..i + 1], base) == 0
  {
    assert s[i..i + 1] == ['0'];
    assert ['0'][..0] == [];
  }

  lemma LeadingZero(s: string, i: nat)
    requires i < |s| && s[i] == '0'
    ensures SkipDigits(s, i, 8) == SkipDigits(s, i + 1, 8)
    ensures Value(s[i..SkipDigits(s, i, 8)], 8) == Value(s[i + 1..SkipDigits(s, i + 1, 8)], 8)
  {
    var to := SkipDigits(s, i + 1, 8);
    assert s[i..to] == ['0'] + s[i + 1..to];
    ValueOfPadded(['0'], s[i + 1..to], 8);
  }

  /** So with base 0 a lone zero reads as nothing. */
  lemma LoneZero()
    ensures End("0", 0) == 0 && StandardEnd("0", 0) == 1
  {
    assert SkipSpaces("0", 0) == 0;
    assert Detect("0", 0, 0) == (8, 1);
    assert SkipDigits("0", 1, 8) == 1;
  }
}
