/** Decimal numbers, printed and read the way Go's fmt does for %d. */
module Decimal {
  import opened Wrappers

  predicate IsDigit(c: char) {
    '0' <= c <= '9'
  }

  function DigitOf(c: char): nat
    requires IsDigit(c)
  {
    (c as int) - ('0' as int)
  }

  function DigitChar(d: nat): (c: char)
    requires d < 10
    ensures IsDigit(c) && DigitOf(c) == d
  {
    (('0' as int) + d) as char
  }

  function Print(n: nat): string {
    var last := [DigitChar(n % 10)];
    if n < 10 then last else Print(n / 10) + last
  }

  /** The value of a string of digits. */
  function Value(s: string): nat
    requires forall c :: c in s ==> IsDigit(c)
  {
    if |s| == 0 then 0 else 10 * Value(s[..|s| - 1]) + DigitOf(s[|s| - 1])
  }

  /** How many digits `s` starts with. */
  function DigitRun(s: string): (n: nat)
    ensures n <= |s| && forall c :: c in s[..n] ==> IsDigit(c)
  {
    if |s| > 0 && IsDigit(s[0]) then
      assert forall c :: c in s[..1 + DigitRun(s[1..])] ==> c == s[0] || c in s[1..][..DigitRun(s[1..])];
      1 + DigitRun(s[1..])
    else 0
  }

  datatype Scanned = Scanned(value: int, rest: string)

  /** Reads an unsigned number; whatever follows it is left. */
  function ScanNat(s: string): (found: Option<Scanned>)
    ensures found.Some? ==> found.value.value >= 0
  {
    var n := DigitRun(s);
    if n == 0 then None else Some(Scanned(Value(s[..n]), s[n..]))
  }

  /** Reads a number with an optional sign. */
  function ScanInt(s: string): Option<Scanned> {
    if |s| > 0 && (s[0] == '+' || s[0] == '-') then
      match ScanNat(s[1..])
      case None => None
      case Some(found) => Some(Scanned(if s[0] == '-' then -found.value else found.value, found.rest))
    else
      ScanNat(s)
  }

  function Skip(s: string, prefix: string): Option<string> {
    if prefix <= s then Some(s[|prefix|..]) else None
  }

  lemma {:induction false} PrintIsDigits(n: nat)
    ensures |Print(n)| > 0 && forall c :: c in Print(n) ==> IsDigit(c)
    ensures Value(Print(n)) == n
  {
    var front := if n < 10 then "" else Print(n / 10);
    if n >= 10 {
      PrintIsDigits(n / 10);
    }
    assert Print(n) == front + [DigitChar(n % 10)];
    ValueOfNext(front, DigitChar(n % 10));
  }

  lemma ValueOfNext(front: string, c: char)
    requires IsDigit(c) && forall d :: d in front ==> IsDigit(d)
    ensures forall d :: d in front + [c] ==> IsDigit(d)
    ensures Value(front + [c]) == 10 * Value(front) + DigitOf(c)
  {
    assert (front + [c])[..|front|] == front;
  }

  lemma {:induction false} DigitRunStops(digits: string, rest: string)
    requires forall c :: c in digits ==> IsDigit(c)
    requires |rest| == 0 || !IsDigit(rest[0])
    ensures DigitRun(digits + rest) == |digits|
  {
    if |digits| == 0 {
      assert digits + rest == rest;
    } else {
      DigitRunStops(digits[1..], rest);
      assert (digits + rest)[1..] == digits[1..] + rest;
    }
  }

  /** What was printed is read back, up to the first character that is no digit. */
  lemma ScanPrinted(n: nat, rest: string)
    requires |rest| == 0 || !IsDigit(rest[0])
    ensures ScanNat(Print(n) + rest) == Some(Scanned(n, rest))
    ensures ScanInt(Print(n) + rest) == Some(Scanned(n, rest))
  {
    PrintIsDigits(n);
    DigitRunStops(Print(n), rest);
    assert (Print(n) + rest)[..|Print(n)|] == Print(n) && (Print(n) + rest)[|Print(n)|..] == rest;
    assert Print(n)[0] in Print(n);
  }

  /** A printed number has no zero in front, unless it is zero. */
  lemma {:induction false} NoZeroInFront(n: nat)
    ensures |Print(n)| > 0 && (Print(n)[0] == '0' <==> n == 0)
  {
    if n >= 10 {
      NoZeroInFront(n / 10);
    }
  }
}
