/** Decimal numbers as text: what printf writes and what the C library's conversions read. */
module Numbers {

  const INT_SPAN: int := 0x1_0000_0000
  const LONG_MAX: int := 0x7FFF_FFFF_FFFF_FFFF
  const ULONG_MAX: int := 0xFFFF_FFFF_FFFF_FFFF

  predicate IsDigit(c: char) { '0' <= c <= '9' }

  predicate AllDigits(s: string) { forall i :: 0 <= i < |s| ==> IsDigit(s[i]) }

  /** isspace of the C locale. */
  predicate IsBlank(c: char) { c == ' ' || 9 <= c as int <= 13 }

  function DigitChar(d: nat): (c: char)
    requires d < 10
    ensures IsDigit(c) && DigitValue(c) == d
  {
    (48 + d) as char
  }

  function DigitValue(c: char): nat
    requires IsDigit(c)
  {
    c as int - 48
  }

  /** Decimal notation without leading zeros. */
  function Digits(n: nat): (s: string)
    ensures s != "" && AllDigits(s)
  {
    if n < 10 then [DigitChar(n)] else Digits(n / 10) + [DigitChar(n % 10)]
  }

  function Decimal(s: string): nat
    requires AllDigits(s)
  {
    if s == "" then 0 else Decimal(s[..|s| - 1]) * 10 + DigitValue(s[|s| - 1])
  }

  lemma {:induction false} DecimalOfDigits(n: nat)
    ensures Decimal(Digits(n)) == n
  {
    var s := Digits(n);
    if n >= 10 {
      DecimalOfDigits(n / 10);
      assert s[..|s| - 1] == Digits(n / 10);
    } else {
      assert s[..0] == "";
    }
  }

  /** printf's %d of any width. */
  function Print(v: int): string { if v < 0 then "-" + Digits(-v) else Digits(v) }

  // ---- Reading ----

  /** How many characters from the start belong to the class. */
  function Span(p: char -> bool, s: string): (n: nat)
    ensures n <= |s| && (forall i :: 0 <= i < n ==> p(s[i])) && (n < |s| ==> !p(s[n]))
  {
    if s == "" || !p(s[0]) then 0 else 1 + Span(p, s[1..])
  }

  lemma {:induction false} SpanIs(p: char -> bool, s: string, n: nat)
    requires n <= |s| && (forall i :: 0 <= i < n ==> p(s[i])) && (n < |s| ==> !p(s[n]))
    ensures Span(p, s) == n
  {
    if n > 0 {
      SpanIs(p, s[1..], n - 1);
    }
  }

  function SkipBlanks(s: string): string { s[Span(IsBlank, s)..] }

  datatype Number = NoNumber | Number(negative: bool, magnitude: nat, rest: string)

  /** The common part of strtol, strtoull, %d, %lu: an optional sign and at least one digit. */
  function ReadNumber(s: string): Number {
    var signed := s != "" && (s[0] == '-' || s[0] == '+');
    var digits := if signed then s[1..] else s;
    var n := Span(IsDigit, digits);
    if n == 0 then NoNumber else Number(signed && s[0] == '-', Decimal(digits[..n]), digits[n..])
  }

  lemma SpanDigits(text: string, rest: string)
    requires AllDigits(text) && (rest == "" || !IsDigit(rest[0]))
    ensures Span(IsDigit, text + rest) == |text|
  {
    forall i | 0 <= i < |text|
      ensures IsDigit((text + rest)[i])
    {
      assert (text + rest)[i] == text[i];
    }
    SpanIs(IsDigit, text + rest, |text|);
  }

  lemma ReadDigits(n: nat, rest: string)
    requires rest == "" || !IsDigit(rest[0])
    ensures ReadNumber(Digits(n) + rest) == Number(false, n, rest)
  {
    var text := Digits(n);
    var s := text + rest;
    DecimalOfDigits(n);
    SpanDigits(text, rest);
    assert s[0] == text[0] && IsDigit(text[0]);
    assert s[..|text|] == text && s[|text|..] == rest;
  }

  lemma ReadMinus(n: nat, rest: string)
    requires rest == "" || !IsDigit(rest[0])
    ensures ReadNumber("-" + (Digits(n) + rest)) == Number(true, n, rest)
  {
    var s := Digits(n) + rest;
    ReadDigits(n, rest);
    assert s[0] == Digits(n)[0] && IsDigit(s[0]);
    assert ("-" + s)[1..] == s;
  }

  lemma MinusFirst(s: string, rest: string)
    ensures ("-" + s) + rest == "-" + (s + rest)
  {
  }

  /** Reading back what was printed. */
  lemma ReadPrinted(v: int, rest: string)
    requires rest == "" || !IsDigit(rest[0])
    ensures ReadNumber(Print(v) + rest) == Number(v < 0, if v < 0 then -v else v, rest)
  {
    if v < 0 {
      MinusFirst(Digits(-v), rest);
      ReadMinus(-v, rest);
    } else {
      ReadDigits(v, rest);
    }
  }

  function Signed(negative: bool, magnitude: nat): int { if negative then 0 - magnitude else magnitude }

  /** strtol: out-of-range values are clamped. */
  function ToLong(negative: bool, magnitude: nat): int {
    var v := Signed(negative, magnitude);
    if v > LONG_MAX then LONG_MAX else if v < -LONG_MAX - 1 then -LONG_MAX - 1 else v
  }

  /** strtoul and strtoull: a minus sign negates in the unsigned type. */
  function ToULong(negative: bool, magnitude: nat): (v: int)
    ensures 0 <= v <= ULONG_MAX
  {
    if magnitude > ULONG_MAX then ULONG_MAX
    else if negative then (0 - magnitude) % (ULONG_MAX + 1)
    else magnitude
  }

  /** strtoull: 0 where no number stands. */
  function Strtoull(s: string): (v: int)
    ensures 0 <= v <= ULONG_MAX
  {
    match ReadNumber(SkipBlanks(s))
    case NoNumber => 0
    case Number(negative, magnitude, _) => ToULong(negative, magnitude)
  }

  /** The conversion of a long to a 32-bit int, as gcc does it. */
  function ToInt(v: int): (r: int)
    ensures -INT_SPAN / 2 <= r < INT_SPAN / 2
    ensures -INT_SPAN / 2 <= v < INT_SPAN / 2 ==> r == v
  {
    var low := v % INT_SPAN;
    if low >= INT_SPAN / 2 then low - INT_SPAN else low
  }

  /** Narrowing keeps the value modulo the span of an int, and so keeps it exactly if it is in range. */
  lemma ToIntIsModular(v: int)
    ensures (ToInt(v) - v) % INT_SPAN == 0
    ensures ToInt(v) == v <==> -INT_SPAN / 2 <= v < INT_SPAN / 2
  {
    var low := v % INT_SPAN;
    assert v == v / INT_SPAN * INT_SPAN + low;
  }
}
