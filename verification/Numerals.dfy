/** Positional numerals as Go's strconv prints and parses them. */
module Numerals {
  import opened Wrappers

  const UINT32_SIZE: nat := 0x1_0000_0000
  const UINT64_SIZE: nat := 0x1_0000_0000_0000_0000

  type uint32 = n: nat | n < 0x1_0000_0000
  type uint64 = n: nat | n < 0x1_0000_0000_0000_0000

  /** Go's int on the supported 64-bit platforms. */
  type int64 = n: int | -0x8000_0000_0000_0000 <= n < 0x8000_0000_0000_0000

  datatype NumError = Syntax | Range

  function Digit(d: nat): char
    requires d < 36
  {
    if d < 10 then '0' + d as char else 'a' + (d - 10) as char
  }

  /** The value of a digit, or 36 for a character that is none. */
  function DigitValue(c: char): nat {
    if '0' <= c <= '9' then (c - '0') as nat
    else if 'a' <= c <= 'z' then 10 + (c - 'a') as nat
    else 36
  }

  predicate IsNumeral(s: string, base: nat) {
    s != [] && forall i :: 0 <= i < |s| ==> DigitValue(s[i]) < base
  }

  /** strconv.FormatUint(n, base). */
  function Format(n: nat, base: nat): (s: string)
    requires 2 <= base <= 36
    ensures IsNumeral(s, base)
    decreases n
  {
    if n < base then [Digit(n)]
    else
      QuotientShrinks(n, base);
      Format(n / base, base) + [Digit(n % base)]
  }

  lemma QuotientShrinks(n: nat, base: nat)
    requires 2 <= base <= n
    ensures 0 <= n / base < n
    ensures n == (n / base) * base + n % base
  {
    assert n == base * (n / base) + n % base;
  }

  /** The number a numeral denotes. */
  function Value(s: string, base: nat): nat {
    if s == [] then 0 else Value(s[..|s| - 1], base) * base + DigitValue(s[|s| - 1])
  }

  lemma ValueSnoc(s: string, c: char, base: nat)
    ensures Value(s + [c], base) == Value(s, base) * base + DigitValue(c)
  {
    assert (s + [c])[..|s|] == s;
  }

  lemma {:induction false} FormatDenotes(n: nat, base: nat)
    requires 2 <= base <= 36
    ensures Value(Format(n, base), base) == n
    decreases n
  {
    if n < base {
      ValueSnoc([], Digit(n), base);
    } else {
      QuotientShrinks(n, base);
      var q, d := n / base, n % base;
      FormatDenotes(q, base);
      var front := Format(q, base);
      assert Format(n, base) == front + [Digit(d)];
      ValueSnoc(front, Digit(d), base);
      assert DigitValue(Digit(d)) == d;
      assert Value(front, base) * base == q * base;
    }
  }

  /** Different numbers print differently. */
  lemma FormatInjective(m: nat, n: nat, base: nat)
    requires 2 <= base <= 36
    requires Format(m, base) == Format(n, base)
    ensures m == n
  {
    FormatDenotes(m, base);
    FormatDenotes(n, base);
  }

  /** strconv.ParseUint(s, 10, bits) with the bound given as a size. */
  function ParseUint(s: string, size: nat): Result<nat, NumError> {
    if !IsNumeral(s, 10) then Err(Syntax)
    else if Value(s, 10) < size then Ok(Value(s, 10))
    else Err(Range)
  }

  /** A printed number is read back exactly when it fits. */
  lemma ParseUintFormat(n: nat, size: nat)
    ensures ParseUint(Format(n, 10), size) == if n < size then Ok(n) else Err(Range)
  {
    FormatDenotes(n, 10);
  }

  /** strconv.Itoa. */
  function Itoa(n: int): string {
    if n < 0 then "-" + Format(-n, 10) else Format(n, 10)
  }

  predicate HasSign(s: string) {
    s != [] && (s[0] == '-' || s[0] == '+')
  }

  /** strconv.Atoi: an optional sign, then decimal digits within 64 bits. */
  function Atoi(s: string): Result<int64, NumError> {
    var digits := if HasSign(s) then s[1..] else s;
    if !IsNumeral(digits, 10) then Err(Syntax)
    else
      var n: int := if s[0] == '-' then -(Value(digits, 10) as int) else Value(digits, 10);
      if -0x8000_0000_0000_0000 <= n < 0x8000_0000_0000_0000 then Ok(n) else Err(Range)
  }

  /** A printed integer is read back exactly when it fits. */
  lemma AtoiItoa(n: int)
    ensures Atoi(Itoa(n)) == if -0x8000_0000_0000_0000 <= n < 0x8000_0000_0000_0000 then Ok(n) else Err(Range)
  {
    var magnitude: nat := if n < 0 then -(n as int) else n;
    var digits := Format(magnitude, 10);
    FormatDenotes(magnitude, 10);
    assert DigitValue(digits[0]) < 10;
    if n < 0 {
      assert ("-" + digits)[1..] == digits;
    }
  }
}
