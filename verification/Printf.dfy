/** Formatted printing into a bounded buffer. */
module Printf {
  import opened Options
  import opened Numerals
  import opened Sequences
  import opened Strtol

  /** A variable argument: a number, as the caller passed it, or a string, perhaps null. */
  datatype Arg = Number(value: int) | Text(text: Option<string>)

  datatype Length = Plain | Long | LongLong | Size | Short | Char

  datatype Spec = Spec(left: bool, plus: bool, space: bool, hash: bool, zero: bool, width: nat, prec: int, length: Length)

  /** How floating-point conversions print, which is of no concern here. */
  type Floats = (Spec, char, Arg) -> string

  const U32 := 0x1_0000_0000

  function Fill(c: char, n: int): (s: string)
    ensures forall k :: 0 <= k < |s| ==> s[k] == c
    ensures |s| == if n > 0 then n else 0
  {
    if n > 0 then seq(n, _ => c) else []
  }

  // ---- Numbers ------------------------------------------------------------

  /** A number with its prefix, precision and padding; a negative precision means none was given. */
  function NumberText(prefix: string, digits: string, s: Spec): string {
    var zeros := s.prec - |digits|;
    var total := |prefix| + (if zeros > 0 then zeros else 0) + |digits|;
    if !s.left && s.zero && s.prec < 0 then prefix + (Fill('0', s.width - total) + digits)
    else if !s.left then Fill(' ', s.width - total) + (prefix + (Fill('0', zeros) + digits))
    else prefix + ((Fill('0', zeros) + digits) + Fill(' ', s.width - total))
  }

  /** Two's complement at a width. */
  function Signed(v: int, bits: nat): int
    requires bits in {8, 16, 32, 64}
  {
    var m := if bits == 8 then 0x100 else if bits == 16 then 0x1_0000 else if bits == 32 then U32 else U64;
    if v % m < m / 2 then v % m else v % m - m
  }

  function SignedArg(v: int, length: Length): int {
    match length
    case LongLong => Signed(v, 64)
    case Long => Signed(v, 64)
    case Size => Signed(v, 64)
    case Short => Signed(Signed(v, 32), 16)
    case Char => Signed(Signed(v, 32), 8)
    case Plain => Signed(v, 32)
  }

  function UnsignedArg(v: int, wide: bool): nat {
    if wide then v % U64 else v % U32
  }

  function SignPrefix(v: int, s: Spec): string {
    if v < 0 then "-" else if s.plus then "+" else if s.space then " " else ""
  }

  function Abs(v: int): nat {
    if v < 0 then -v else v
  }

  function SignedText(v: int, s: Spec): string {
    NumberText(SignPrefix(v, s), Numeral(Abs(v), 10, false), s)
  }

  function HexPrefix(v: nat, upper: bool, s: Spec): string {
    if s.hash && v != 0 then if upper then "0X" else "0x" else ""
  }

  function StringText(t: Option<string>, s: Spec): string {
    var full := if t.None? then "(null)" else t.value;
    var shown := if 0 <= s.prec < |full| then full[..s.prec] else full;
    if s.left then shown + Fill(' ', s.width - |shown|) else Fill(' ', s.width - |shown|) + shown
  }

  function CharText(c: char, s: Spec): string {
    if s.left then [c] + Fill(' ', s.width - 1) else Fill(' ', s.width - 1) + [c]
  }

  function NumberOf(a: Arg): int {
    match a case Number(v) => v case Text(_) => 0
  }

  function TextOf(a: Arg): Option<string> {
    match a case Number(_) => None case Text(t) => t
  }

  predicate Wide(length: Length) {
    length == LongLong || length == Long || length == Size
  }

  /** What one conversion prints. */
  function Converted(s: Spec, c: char, a: Arg, floats: Floats): string {
    if c == 'd' || c == 'i' then SignedText(SignedArg(NumberOf(a), s.length), s)
    else if c == 'u' then NumberText("", Numeral(UnsignedArg(NumberOf(a), Wide(s.length)), 10, false), s)
    else if c == 'x' || c == 'X' then
      var v := UnsignedArg(NumberOf(a), Wide(s.length));
      NumberText(HexPrefix(v, c == 'X', s), Numeral(v, 16, c == 'X'), s)
    else if c == 'o' then
      var v := UnsignedArg(NumberOf(a), s.length == LongLong || s.length == Long);
      NumberText(if s.hash && v != 0 then "0" else "", Numeral(v, 8, false), s)
    else if c == 'p' then NumberText("0x", Numeral(UnsignedArg(NumberOf(a), true), 16, false), s.(prec := -1))
    else if c == 's' then StringText(TextOf(a), s)
    else if c == 'c' then CharText((NumberOf(a) % 256) as char, s)
    else if c == '%' then "%"
    else if c in {'f', 'F', 'e', 'E', 'g', 'G'} then floats(s, c, a)
    else if c == 'n' then ""
    else if c == '\0' then "%"
    else ['%', c]
  }

  /** Whether the conversion takes an argument. */
  predicate TakesArg(c: char) {
    c in {'d', 'i', 'u', 'x', 'X', 'o', 'p', 's', 'c', 'f', 'F', 'e', 'E', 'g', 'G', 'n'}
  }

  // ---- Printing and reading back ------------------------------------------

  /** The text of a number as its reader sees it: white space, a sign, digits, and something else. */
  ghost predicate Shape(text: string, w: string, sign: string, digits: string, tail: string) {
    && text == w + (sign + (digits + tail)) && (forall k :: 0 <= k < |w| ==> IsSpace(w[k])) && sign in {"", "+", "-"}
    && digits != [] && AllDigits(digits, 10) && (tail == [] || tail[0] == ' ')
  }

  lemma DigitIsPlain(c: char)
    requires DigitOf(c, 10).Some?
    ensures !IsSpace(c) && c != '+' && c != '-'
  {
  }

  lemma ShapeAt(text: string, w: string, sign: string, digits: string, tail: string)
    requires Shape(text, w, sign, digits, tail)
    ensures |text| == |w| + |sign| + |digits| + |tail| && text[|w| + |sign|..|w| + |sign| + |digits|] == digits
    ensures forall k :: 0 <= k < |w| ==> IsSpace(text[k])
    ensures forall k :: |w| + |sign| <= k < |w| + |sign| + |digits| ==> DigitOf(text[k], 10).Some?
    ensures sign != [] ==> text[|w|] == sign[0]
    ensures CharAt(text, |w| + |sign| + |digits|) == if tail == [] then '\0' else ' '
  {
    var b := |w| + |sign|;
    assert forall k :: 0 <= k < |w| ==> text[k] == w[k];
    assert forall k :: b <= k < b + |digits| ==> text[k] == digits[k - b];
  }

  lemma FoundAt(text: string, b: nat, c: nat, digits: string)
    requires Start(text) == b < c <= |text| && SkipDigits(text, b, 10) == c && text[b..c] == digits
    ensures Find(text, 10).from == b && Find(text, 10).to == c && End(text, 10) == c
    ensures AllDigits(digits, 10) && Magnitude(text, 10) == Value(digits, 10)
  {
  }

  lemma SignAt(text: string, w: string, sign: string, digits: string, tail: string)
    requires Shape(text, w, sign, digits, tail)
    ensures !IsSpace(CharAt(text, |w|)) && (CharAt(text, |w|) in {'+', '-'} <==> |sign| == 1) && |sign| <= 1
    ensures CharAt(text, |w|) == '-' <==> sign == "-"
  {
    ShapeAt(text, w, sign, digits, tail);
    DigitIsPlain(text[|w| + |sign|]);
  }

  lemma ShapePlaces(text: string, w: string, sign: string, digits: string, tail: string, b: nat, c: nat)
    requires Shape(text, w, sign, digits, tail) && b == |w| + |sign| && c == b + |digits|
    ensures Start(text) == b < c <= |text| && text[b..c] == digits
    ensures Find(text, 10).negative <==> sign == "-"
  {
    ShapeAt(text, w, sign, digits, tail);
    SignAt(text, w, sign, digits, tail);
    SkipsAll(text, 0, |w|);
  }

  lemma DigitsPlace(text: string, w: string, sign: string, digits: string, tail: string, b: nat, c: nat)
    requires Shape(text, w, sign, digits, tail) && b == |w| + |sign| && c == b + |digits|
    ensures b <= |text| && SkipDigits(text, b, 10) == c
  {
    ShapeAt(text, w, sign, digits, tail);
    SkipsDigits(text, b, c, 10);
  }

  /** Such a text reads as what its digits stand for. */
  lemma ShapeReads(text: string, w: string, sign: string, digits: string, tail: string)
    requires Shape(text, w, sign, digits, tail)
    ensures Magnitude(text, 10) == Value(digits, 10) && Find(text, 10).negative == (sign == "-") && End(text, 10) == |w| + |sign| + |digits|
  {
    var b := |w| + |sign|;
    var c := b + |digits|;
    ShapePlaces(text, w, sign, digits, tail, b, c);
    DigitsPlace(text, w, sign, digits, tail, b, c);
    FoundAt(text, b, c, digits);
  }

  /** The padded digits of a number. */
  lemma PaddedDigits(n: int, v: nat)
    ensures var ds := Fill('0', n) + Numeral(v, 10, false); ds != [] && AllDigits(ds, 10) && Value(ds, 10) == v
  {
    ValueOfNumeral(v, 10, false);
    ValueOfPadded(Fill('0', n), Numeral(v, 10, false), 10);
  }

  /** What precedes the digits: fill, and a sign that may be a space. */
  lemma Leading(fill: string, prefix: string, rest: string) returns (w: string, sign: string)
    requires (forall k :: 0 <= k < |fill| ==> IsSpace(fill[k])) && prefix in {"", "+", "-", " "}
    ensures fill + (prefix + rest) == w + (sign + rest) && (forall k :: 0 <= k < |w| ==> IsSpace(w[k])) && sign in {"", "+", "-"}
    ensures sign == "-" <==> prefix == "-"
  {
    if prefix == " " {
      w, sign := fill + " ", "";
      Regroup(fill, " ", rest);
      assert "" + rest == rest;
    } else {
      w, sign := fill, prefix;
    }
  }

  lemma Shaped(fill: string, prefix: string, zeros: int, v: nat, tail: string) returns (w: string, sign: string)
    requires (forall k :: 0 <= k < |fill| ==> IsSpace(fill[k])) && prefix in {"", "+", "-", " "} && (tail == [] || tail[0] == ' ')
    ensures var digits := Fill('0', zeros) + Numeral(v, 10, false);
      Shape(fill + (prefix + (digits + tail)), w, sign, digits, tail) && Value(digits, 10) == v && (sign == "-" <==> prefix == "-")
  {
    PaddedDigits(zeros, v);
    w, sign := Leading(fill, prefix, (Fill('0', zeros) + Numeral(v, 10, false)) + tail);
  }

  /** A printed number has that shape, whatever the flags, the width and the precision. */
  lemma PrintsShape(v: int, s: Spec) returns (w: string, sign: string, digits: string, tail: string)
    ensures Shape(SignedText(v, s), w, sign, digits, tail) && Value(digits, 10) == Abs(v) && (sign == "-" <==> v < 0)
  {
    var prefix, number := SignPrefix(v, s), Numeral(Abs(v), 10, false);
    var zeros := s.prec - |number|;
    var total := |prefix| + (if zeros > 0 then zeros else 0) + |number|;
    var fill := s.width - total;
    var before := if s.left || (s.zero && s.prec < 0) then "" else Fill(' ', fill);
    var after := if s.left then Fill(' ', fill) else "";
    w, sign, digits, tail := TextShape(before, prefix, if !s.left && s.zero && s.prec < 0 then fill else zeros, Abs(v), after);
  }

  /** With padding before, after or not at all. */
  lemma TextShape(before: string, prefix: string, zeros: int, n: nat, after: string)
    returns (w: string, sign: string, digits: string, tail: string)
    requires prefix in {"", "+", "-", " "} && (after == "" || after[0] == ' ')
    requires forall k :: 0 <= k < |before| ==> IsSpace(before[k])
    ensures var number := Fill('0', zeros) + Numeral(n, 10, false);
      && (before == "" ==> Shape(prefix + (number + after), w, sign, digits, tail))
      && (after == "" ==> Shape(before + (prefix + number), w, sign, digits, tail))
      && (before == "" && after == "" ==> Shape(prefix + number, w, sign, digits, tail))
    ensures AllDigits(digits, 10) && Value(digits, 10) == n && (sign == "-" <==> prefix == "-")
  {
    digits, tail := Fill('0', zeros) + Numeral(n, 10, false), after;
    w, sign := Shaped(before, prefix, zeros, n, after);
    assert digits + "" == digits;
    if before == "" {
      Ends(before, prefix + (digits + tail));
    }
  }

  lemma Ends(a: string, b: string)
    requires a == ""
    ensures a + b == b
  {
  }

  /** Reading a printed number gives the number back. */
  lemma PrintParse(v: int, s: Spec)
    requires -HALF < v < HALF
    ensures Clamped(Magnitude(SignedText(v, s), 10) % U64, Find(SignedText(v, s), 10).negative) == v
  {
    var w, sign, digits, tail := PrintsShape(v, s);
    ReadsAs(SignedText(v, s), w, sign, digits, tail, v);
  }

  lemma ReadsAs(text: string, w: string, sign: string, digits: string, tail: string, v: int)
    requires Shape(text, w, sign, digits, tail) && Value(digits, 10) == Abs(v) && (sign == "-" <==> v < 0) && -HALF < v < HALF
    ensures Clamped(Magnitude(text, 10) % U64, Find(text, 10).negative) == v
  {
    ShapeReads(text, w, sign, digits, tail);
    ClampsBack(Magnitude(text, 10), Find(text, 10).negative, v);
  }

  lemma ClampsBack(n: nat, negative: bool, v: int)
    requires n == Abs(v) && (negative <==> v < 0) && -HALF < v < HALF
    ensures Clamped(n % U64, negative) == v
  {
  }

  // ---- Reading a conversion specification ---------------------------------

  function ReadFlags(fmt: string, i: nat, s: Spec): (r: (Spec, nat))
    requires i <= |fmt|
    ensures i <= r.1 <= |fmt|
    decreases |fmt| - i
  {
    var c := CharAt(fmt, i);
    if i == |fmt| then (s, i)
    else if c == '-' then ReadFlags(fmt, i + 1, s.(left := true))
    else if c == '0' then ReadFlags(fmt, i + 1, s.(zero := true))
    else if c == '+' then ReadFlags(fmt, i + 1, s.(plus := true))
    else if c == ' ' then ReadFlags(fmt, i + 1, s.(space := true))
    else if c == '#' then ReadFlags(fmt, i + 1, s.(hash := true))
    else (s, i)
  }

  function ReadNumber(fmt: string, i: nat, n: nat): (r: (nat, nat))
    requires i <= |fmt|
    ensures i <= r.1 <= |fmt|
    decreases |fmt| - i
  {
    if i < |fmt| && '0' <= fmt[i] <= '9' then ReadNumber(fmt, i + 1, n * 10 + (fmt[i] - '0') as nat) else (n, i)
  }

  function First(args: seq<Arg>): Arg {
    if args == [] then Number(0) else args[0]
  }

  function Others(args: seq<Arg>): seq<Arg> {
    if args == [] then [] else args[1..]
  }

  function ReadWidth(fmt: string, i: nat, s: Spec, args: seq<Arg>): (r: (Spec, nat, seq<Arg>))
    requires i <= |fmt|
    ensures i <= r.1 <= |fmt|
  {
    if CharAt(fmt, i) == '*' then
      var w := NumberOf(First(args));
      (if w < 0 then s.(left := true, width := -w) else s.(width := w), i + 1, Others(args))
    else
      var (n, j) := ReadNumber(fmt, i, 0);
      (s.(width := n), j, args)
  }

  function ReadPrecision(fmt: string, i: nat, s: Spec, args: seq<Arg>): (r: (Spec, nat, seq<Arg>))
    requires i <= |fmt|
    ensures i <= r.1 <= |fmt|
  {
    if CharAt(fmt, i) != '.' then (s.(prec := -1), i, args)
    else if CharAt(fmt, i + 1) == '*' then (s.(prec := NumberOf(First(args))), i + 2, Others(args))
    else
      var (n, j) := ReadNumber(fmt, i + 1, 0);
      (s.(prec := n), j, args)
  }

  function ReadLength(fmt: string, i: nat): (r: (Length, nat))
    requires i <= |fmt|
    ensures i <= r.1 <= |fmt|
  {
    var c := CharAt(fmt, i);
    if c == 'l' then if CharAt(fmt, i + 1) == 'l' then (LongLong, i + 2) else (Long, i + 1)
    else if c == 'z' then (Size, i + 1)
    else if c == 'h' then if CharAt(fmt, i + 1) == 'h' then (Char, i + 2) else (Short, i + 1)
    else if c == 'j' || c == 't' then (Long, i + 1)
    else (Plain, i)
  }

  /** Flags, width, precision and length, with the arguments that `*` takes. */
  function ReadSpec(fmt: string, i: nat, args: seq<Arg>): (r: (Spec, nat, seq<Arg>))
    requires i <= |fmt|
    ensures i <= r.1 <= |fmt|
  {
    var (s0, a) := ReadFlags(fmt, i, Spec(false, false, false, false, false, 0, -1, Plain));
    var (s1, b, args1) := ReadWidth(fmt, a, s0, args);
    var (s2, c, args2) := ReadPrecision(fmt, b, s1, args1);
    var (length, d) := ReadLength(fmt, c);
    (s2.(length := length), d, args2)
  }

  /** The whole output, as if there were room for it. */
  function Formatted(fmt: string, i: nat, args: seq<Arg>, floats: Floats): string
    requires i <= |fmt|
    decreases |fmt| - i
  {
    if i == |fmt| then []
    else if fmt[i] != '%' then [fmt[i]] + Formatted(fmt, i + 1, args, floats)
    else
      var (s, j, rest) := ReadSpec(fmt, i + 1, args);
      var c := CharAt(fmt, j);
      Converted(s, c, First(rest), floats) + Formatted(fmt, Past(fmt, j), Left(c, rest), floats)
  }

  function Past(fmt: string, j: nat): (k: nat)
    requires j <= |fmt|
    ensures j <= k <= |fmt|
  {
    if j < |fmt| then j + 1 else j
  }

  function Left(c: char, args: seq<Arg>): seq<Arg> {
    if TakesArg(c) then Others(args) else args
  }

  // ---- The buffer ---------------------------------------------------------

  class Output {
    const buf: array<char>
    const limit: nat
    var pos: nat
    ghost var text: string        // everything that was put
    ghost const before: string    // the buffer at first

    /** What fits of the text, less one place for the NUL, is in the buffer; the rest is as it was. */
    ghost predicate Valid()
      reads this, buf
    {
      && 0 < limit <= buf.Length == |before| && pos == |text|
      && forall i :: 0 <= i < buf.Length ==> buf[i] == if i < pos && i < limit - 1 then text[i] else before[i]
    }

    constructor (buf: array<char>, limit: nat)
      requires 0 < limit <= buf.Length
      ensures Valid() && text == [] && this.buf == buf && this.limit == limit && before == buf[..]
    {
      this.buf, this.limit, before := buf, limit, buf[..];
      pos, text := 0, [];
    }

    method Put(c: char)
      requires Valid()
      modifies this, buf
      ensures Valid() && text == old(text) + [c]
    {
      if pos < limit - 1 { buf[pos] := c; }
      pos := pos + 1;
      text := text + [c];
    }

    method Pad(c: char, n: int)
      requires Valid()
      modifies this, buf
      ensures Valid() && text == old(text) + Fill(c, n)
    {
      var i := 0;
      while i < n
        invariant Valid() && 0 <= i && (i <= n || i == 0) && text == old(text) + Fill(c, i)
      {
        Put(c);
        i := i + 1;
        assert Fill(c, i) == Fill(c, i - 1) + [c];
      }
      assert n <= 0 ==> Fill(c, n) == Fill(c, 0);
    }

    method PutString(s: string)
      requires Valid()
      modifies this, buf
      ensures Valid() && text == old(text) + s
    {
      for i := 0 to |s|
        invariant Valid() && text == old(text) + s[..i]
      {
        Put(s[i]);
      }
      assert s[..|s|] == s;
    }

    /** Digits that were found last one first. */
    method PutDigits(digits: string)
      requires Valid()
      modifies this, buf
      ensures Valid() && text == old(text) + Reversed(digits)
    {
      var count := |digits|;
      assert digits[..count] == digits;
      while count > 0
        invariant 0 <= count <= |digits| && Valid() && text + Reversed(digits[..count]) == old(text) + Reversed(digits)
      {
        count := count - 1;
        ghost var before := text;
        assert digits[..count + 1] == digits[..count] + [digits[count]];
        ReversedSnoc(digits[..count], digits[count]);
        Put(digits[count]);
        Regroup(before, [digits[count]], Reversed(digits[..count]));
      }
    }

    /** A number from its digits, last one first. */
    method PutNumber(prefix: string, digits: string, s: Spec)
      requires Valid()
      modifies this, buf
      ensures Valid() && text == old(text) + NumberText(prefix, Reversed(digits), s)
    {
      ghost var before, number := text, Reversed(digits);
      var zeros := if s.prec > |digits| then s.prec - |digits| else 0;
      var total := |prefix| + zeros + |digits|;
      var fill := if s.width > total then s.width - total else 0;
      if !s.left && s.zero && s.prec < 0 {
        PutAll(prefix, '0', fill, digits);
        FillSame('0', fill, s.width - total);
      } else if !s.left {
        Pad(' ', fill);
        PutAll(prefix, '0', zeros, digits);
        Regroup(before, Fill(' ', fill), prefix + (Fill('0', zeros) + number));
        FillSame(' ', fill, s.width - total);
        FillSame('0', zeros, s.prec - |digits|);
      } else {
        PutAll(prefix, '0', zeros, digits);
        Pad(' ', fill);
        Regroup(before, prefix + (Fill('0', zeros) + number), Fill(' ', fill));
        Regroup(prefix, Fill('0', zeros) + number, Fill(' ', fill));
        FillSame(' ', fill, s.width - total);
        FillSame('0', zeros, s.prec - |digits|);
      }
    }

    method PutAll(prefix: string, c: char, n: nat, digits: string)
      requires Valid()
      modifies this, buf
      ensures Valid() && text == old(text) + (prefix + (Fill(c, n) + Reversed(digits)))
    {
      ghost var before := text;
      PutString(prefix);
      Pad(c, n);
      PutDigits(digits);
      Regroup(before, prefix, Fill(c, n));
      Regroup(before, prefix + Fill(c, n), Reversed(digits));
      Regroup(prefix, Fill(c, n), Reversed(digits));
    }

    method PutUnsigned(prefix: string, value: nat, base: nat, upper: bool, s: Spec)
      requires Valid() && IsBase(base)
      modifies this, buf
      ensures Valid() && text == old(text) + NumberText(prefix, Numeral(value, base, upper), s)
    {
      var digits := DigitsBackwards(value, base, upper);
      PutNumber(prefix, digits, s);
    }

    method PutText(t: Option<string>, s: Spec)
      requires Valid()
      modifies this, buf
      ensures Valid() && text == old(text) + StringText(t, s)
    {
      ghost var before := text;
      var full := if t.None? then "(null)" else t.value;
      var shown := if 0 <= s.prec < |full| then full[..s.prec] else full;
      if !s.left {
        Pad(' ', s.width - |shown|);
        PutString(shown);
        Regroup(before, Fill(' ', s.width - |shown|), shown);
      } else {
        PutString(shown);
        Pad(' ', s.width - |shown|);
        Regroup(before, shown, Fill(' ', s.width - |shown|));
      }
    }

    method PutChar(c: char, s: Spec)
      requires Valid()
      modifies this, buf
      ensures Valid() && text == old(text) + CharText(c, s)
    {
      ghost var before := text;
      if !s.left {
        Pad(' ', s.width - 1);
        Put(c);
        Regroup(before, Fill(' ', s.width - 1), [c]);
      } else {
        Put(c);
        Pad(' ', s.width - 1);
        Regroup(before, [c], Fill(' ', s.width - 1));
      }
    }

    method PutSigned(v: int, s: Spec)
      requires Valid()
      modifies this, buf
      ensures Valid() && text == old(text) + SignedText(v, s)
    {
      PutUnsigned(SignPrefix(v, s), Abs(v), 10, false, s);
    }

    method Convert(s: Spec, c: char, a: Arg, floats: Floats)
      requires Valid()
      modifies this, buf
      ensures Valid() && text == old(text) + Converted(s, c, a, floats)
    {
      if c == 'd' || c == 'i' {
        PutSigned(SignedArg(NumberOf(a), s.length), s);
      } else if c == 'u' {
        PutUnsigned("", UnsignedArg(NumberOf(a), Wide(s.length)), 10, false, s);
      } else if c == 'x' || c == 'X' {
        var v := UnsignedArg(NumberOf(a), Wide(s.length));
        PutUnsigned(HexPrefix(v, c == 'X', s), v, 16, c == 'X', s);
      } else if c == 'o' {
        var v := UnsignedArg(NumberOf(a), s.length == LongLong || s.length == Long);
        PutUnsigned(if s.hash && v != 0 then "0" else "", v, 8, false, s);
      } else if c == 'p' {
        PutUnsigned("0x", UnsignedArg(NumberOf(a), true), 16, false, s.(prec := -1));
      } else if c == 's' {
        PutText(TextOf(a), s);
      } else if c == 'c' {
        PutChar((NumberOf(a) % 256) as char, s);
      } else {
        PutOther(s, c, a, floats);
      }
    }

    /** Neither a number, nor a string, nor a character. */
    method PutOther(s: Spec, c: char, a: Arg, floats: Floats)
      requires Valid() && c !in {'d', 'i', 'u', 'x', 'X', 'o', 'p', 's', 'c'}
      modifies this, buf
      ensures Valid() && text == old(text) + Converted(s, c, a, floats)
    {
      if c == '%' {
        Put('%');
      } else if c in {'f', 'F', 'e', 'E', 'g', 'G'} {
        PutString(floats(s, c, a));
      } else if c != 'n' {
        Put('%');
        if c != '\0' {
          Put(c);
        }
      }
    }

    /** Everything the format asks for, and then the NUL where the text or the buffer ends. */
    method Format(fmt: string, args: seq<Arg>, floats: Floats)
      requires Valid() && text == []
      modifies this, buf
      ensures pos == |Formatted(fmt, 0, args, floats)|
      ensures var all := Formatted(fmt, 0, args, floats); var k := if |all| < limit then |all| else limit - 1;
        k < buf.Length == |before| && buf[..k] == all[..k] && buf[k] == '\0' && buf[k + 1..] == before[k + 1..]
    {
      var i, rest := 0, args;
      ghost var all := Formatted(fmt, 0, args, floats);
      while i < |fmt|
        invariant 0 <= i <= |fmt| && Valid() && text + Formatted(fmt, i, rest, floats) == all
        decreases |fmt| - i
      {
        ghost var before := text;
        if fmt[i] != '%' {
          Regroup(before, [fmt[i]], Formatted(fmt, i + 1, rest, floats));
          Put(fmt[i]);
          i := i + 1;
        } else {
          var (s, j, after) := ReadSpec(fmt, i + 1, rest);
          var c := CharAt(fmt, j);
          Regroup(before, Converted(s, c, First(after), floats), Formatted(fmt, Past(fmt, j), Left(c, after), floats));
          Convert(s, c, First(after), floats);
          i, rest := Past(fmt, j), Left(c, after);
        }
      }
      assert text == all;
      buf[if pos < limit then pos else limit - 1] := '\0';
    }
  }

  lemma FillSame(c: char, n: nat, m: int)
    requires n == if m > 0 then m else 0
    ensures Fill(c, n) == Fill(c, m)
  {
  }

  /** Bounded printing: the text is cut so that a NUL fits, nothing behind the NUL is touched, and the full length is returned. */
  method Vsnprintf(buf: array<char>, size: nat, fmt: string, args: seq<Arg>, floats: Floats) returns (length: nat)
    requires size <= buf.Length
    modifies buf
    ensures length == |Formatted(fmt, 0, args, floats)|
    ensures size == 0 ==> buf[..] == old(buf[..])
    ensures size > 0 ==>
      var all := Formatted(fmt, 0, args, floats); var k := if |all| < size then |all| else size - 1;
      buf[..k] == all[..k] && buf[k] == '\0' && buf[k + 1..] == old(buf[k + 1..])
  {
    if size == 0 {
      var dummy := new char[1];
      var out := new Output(dummy, 1);
      out.Format(fmt, args, floats);
      length := out.pos;
    } else {
      var out := new Output(buf, size);
      out.Format(fmt, args, floats);
      length := out.pos;
    }
  }
}
