/** Decimal printing and parsing of 64-bit integers, as strconv.FormatInt(n, 10),
    strconv.ParseInt(s, 10, 64) and fmt's %d do it. */
module Decimal {
  datatype Option<+T> = None | Some(value: T)

  predicate IsInt64(n: int) {
    -0x8000_0000_0000_0000 <= n < 0x8000_0000_0000_0000
  }

  predicate IsDigit(c: char) {
    '0' <= c <= '9'
  }

  function Digit(n: nat): (c: char)
    requires n < 10
    ensures IsDigit(c) && DigitValue(c) == n && c == "0123456789"[n]
  {
    '0' + n as char
  }

  function DigitValue(c: char): (n: nat)
    requires IsDigit(c)
    ensures n < 10
  {
    (c - '0') as int
  }

  function FormatNat(n: nat): (s: string)
    ensures |s| > 0 && forall k :: 0 <= k < |s| ==> IsDigit(s[k])
  {
    if n < 10 then [Digit(n)] else FormatNat(n / 10) + [Digit(n % 10)]
  }

  function Format(n: int): string {
    if n < 0 then "-" + FormatNat(-n) else FormatNat(n)
  }

  /** The value of a digit string; None when it is empty or holds another character. */
  function ParseNat(s: string): Option<nat> {
    if s == [] then None
    else if !IsDigit(s[|s| - 1]) then None
    else if |s| == 1 then Some(DigitValue(s[0]))
    else match ParseNat(s[..|s| - 1])
         case None => None
         case Some(n) => Some(10 * n + DigitValue(s[|s| - 1]))
  }

  /** ParseInt with base 10: an optional sign, at least one digit, and a value in the int64 range. */
  function Parse(s: string): Option<int> {
    var negative := s != [] && s[0] == '-';
    var digits := if s != [] && (s[0] == '-' || s[0] == '+') then s[1..] else s;
    match ParseNat(digits)
    case None => None
    case Some(n) =>
      var value := if negative then 0 - (n as int) else n as int;
      if IsInt64(value) then Some(value) else None
  }

  lemma {:induction false} ParseFormatNat(n: nat)
    ensures ParseNat(FormatNat(n)) == Some(n)
  {
    if n >= 10 {
      ParseFormatNat(n / 10);
      assert FormatNat(n)[..|FormatNat(n)| - 1] == FormatNat(n / 10);
    }
  }

  /** n without its last k digits. */
  function Shift(n: nat, k: nat): nat {
    if k == 0 then n else Shift(n / 10, k - 1)
  }

  /** The digits are those of the decimal notation, the most significant one first and not zero. */
  lemma {:induction false} FormatDigits(n: nat, k: nat)
    requires k < |FormatNat(n)|
    ensures FormatNat(n)[|FormatNat(n)| - 1 - k] == "0123456789"[Shift(n, k) % 10]
    ensures Shift(n, |FormatNat(n)|) == 0
    ensures n > 0 ==> FormatNat(n)[0] != '0'
  {
    if n >= 10 {
      FormatDigits(n / 10, if k > 0 then k - 1 else 0);
      assert FormatNat(n)[..|FormatNat(n)| - 1] == FormatNat(n / 10);
    }
  }

  /** Every int64 survives printing and parsing. */
  lemma ParseFormat(n: int)
    requires IsInt64(n)
    ensures Parse(Format(n)) == Some(n)
  {
    if n < 0 {
      var digits := FormatNat(-n);
      ParseFormatNat(-n);
      assert ("-" + digits)[0] == '-' && ("-" + digits)[1..] == digits;
    } else {
      var digits := FormatNat(n);
      ParseFormatNat(n);
      assert IsDigit(digits[0]);
    }
  }

  /** Two numbers with the same decimal print are the same number. */
  lemma FormatInjective(m: int, n: int)
    ensures Format(m) == Format(n) ==> m == n
  {
    ParseFormatNat(if m < 0 then -m else m);
    ParseFormatNat(if n < 0 then -n else n);
    if Format(m) == Format(n) {
      assert m < 0 ==> Format(m)[0] == '-' && Format(m)[1..] == FormatNat(-m);
      assert n < 0 ==> Format(n)[0] == '-' && Format(n)[1..] == FormatNat(-n);
    }
  }
}
