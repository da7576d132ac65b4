/** Decimal numbers in text, as printf writes them and scanf reads them. */
module Decimal {
  import opened Options

  predicate IsDigit(c: char) {
    '0' <= c <= '9'
  }

  function DigitOf(d: nat): char
    requires d < 10
  {
    '0' + d as char
  }

  function DigitValue(c: char): nat
    requires IsDigit(c)
  {
    (c - '0') as nat
  }

  predicate AllDigits(s: string) {
    forall i :: 0 <= i < |s| ==> IsDigit(s[i])
  }

  /** %u and %llu. */
  function Print(n: nat): string {
    if n < 10 then [DigitOf(n)] else Print(n / 10) + [DigitOf(n % 10)]
  }

  function Value(s: string): nat
    requires AllDigits(s)
  {
    if s == "" then 0 else Value(s[..|s| - 1]) * 10 + DigitValue(s[|s| - 1])
  }

  lemma {:induction false} PrintIsDigits(n: nat)
    ensures |Print(n)| >= 1 && AllDigits(Print(n))
  {
    if n >= 10 {
      PrintIsDigits(n / 10);
    }
  }

  lemma {:induction false} ValueOfPrint(n: nat)
    ensures AllDigits(Print(n)) && Value(Print(n)) == n
  {
    PrintIsDigits(n);
    if n >= 10 {
      ValueOfPrint(n / 10);
      assert Print(n)[..|Print(n)| - 1] == Print(n / 10);
    }
  }

  function PowerOfTen(k: nat): nat {
    if k == 0 then 1 else 10 * PowerOfTen(k - 1)
  }

  lemma {:induction false} PrintLength(n: nat, k: nat)
    requires k >= 1 && n < PowerOfTen(k)
    ensures |Print(n)| <= k
  {
    if n >= 10 {
      assert PowerOfTen(1) == 10;
      PrintLength(n / 10, k - 1);
    }
  }

  /** How many digits s begins with. */
  function DigitRun(s: string): (k: nat)
    ensures k <= |s| && AllDigits(s[..k]) && (k < |s| ==> !IsDigit(s[k]))
  {
    if s == "" || !IsDigit(s[0]) then 0
    else
      var k := 1 + DigitRun(s[1..]);
      assert s[..k] == [s[0]] + s[1..][..k - 1];
      k
  }

  /** %u: the digits at the front, if any, and the text after them. */
  function ReadNat(s: string): Option<(nat, string)> {
    var k := DigitRun(s);
    if k == 0 then None else Some((Value(s[..k]), s[k..]))
  }

  predicate StopsDigits(s: string) {
    s == "" || !IsDigit(s[0])
  }

  lemma {:induction false} RunEnds(digits: string, rest: string)
    requires AllDigits(digits) && StopsDigits(rest)
    ensures DigitRun(digits + rest) == |digits|
  {
    if digits == "" {
      assert digits + rest == rest;
    } else {
      assert (digits + rest)[1..] == digits[1..] + rest;
      RunEnds(digits[1..], rest);
    }
  }

  lemma ReadPrinted(n: nat, rest: string)
    requires StopsDigits(rest)
    ensures ReadNat(Print(n) + rest) == Some((n, rest))
  {
    ValueOfPrint(n);
    PrintIsDigits(n);
    RunEnds(Print(n), rest);
    assert (Print(n) + rest)[..|Print(n)|] == Print(n);
  }

  lemma OneDigit(n: nat, digits: string, d: nat)
    requires Print(n) == digits && n > 0 && d < 10
    ensures Print(10 * n + d) == digits + [DigitOf(d)]
  {
  }

  /** The digits are those of the decimal system, the highest first. */
  lemma PrintExample()
    ensures Print(1234567890) == "1234567890"
  {
    OneDigit(1, "1", 2);
    OneDigit(12, "12", 3);
    OneDigit(123, "123", 4);
    OneDigit(1234, "1234", 5);
    OneDigit(12345, "12345", 6);
    OneDigit(123456, "123456", 7);
    OneDigit(1234567, "1234567", 8);
    OneDigit(12345678, "12345678", 9);
    OneDigit(123456789, "123456789", 0);
  }

  // ---------- Signed numbers ----------

  /** %d. */
  function PrintInt(n: int): string {
    if n < 0 then "-" + Print(-n) else Print(n)
  }

  function ReadInt(s: string): Option<(int, string)> {
    var negative := s != "" && s[0] == '-';
    match ReadNat(if negative then s[1..] else s)
    case None => None
    case Some((n, rest)) => var value: int := if negative then 0 - n else n; Some((value, rest))
  }

  lemma ReadPrintedInt(n: int, rest: string)
    requires StopsDigits(rest)
    ensures ReadInt(PrintInt(n) + rest) == Some((n, rest))
  {
    var size: nat := if n < 0 then -n else n;
    PrintIsDigits(size);
    ReadPrinted(size, rest);
    hide Print, ReadNat;
    Behind('-', Print(size), rest);
  }

  lemma Behind(c: char, s: string, rest: string)
    requires |s| > 0
    ensures ([c] + s + rest)[0] == c && ([c] + s + rest)[1..] == s + rest && (s + rest)[0] == s[0]
  {
  }

  // ---------- Millionths ----------

  /** %f of `x` millionths: six digits behind the point. */
  function PrintFixed(x: nat): string {
    Print(x / 1000000) + "." + Padded(x % 1000000, 6)
  }

  lemma PaddedExample()
    ensures Padded(500025, 6) == "500025"
  {
    assert Padded(500, 3) == "500";
    assert Padded(50002, 5) == "50002";
  }

  /** A sign, the digits with the highest first, and six of them behind a point. */
  lemma PrintedExample()
    ensures PrintInt(-1) == "-1" && PrintFixed(2500025) == "2.500025"
  {
    PaddedExample();
    hide Padded;
    assert "2" + "." + "500025" == "2.500025";
  }

  /** The last k digits of n, zeros included. */
  function Padded(n: nat, k: nat): string {
    if k == 0 then "" else Padded(n / 10, k - 1) + [DigitOf(n % 10)]
  }

  /** %lf, to the precision of a millionth. */
  function ReadFixed(s: string): Option<(nat, string)> {
    match ReadNat(s)
    case None => None
    case Some((whole, rest)) =>
      if rest == "" || rest[0] != '.' then Some((whole * 1000000, rest))
      else
        var k := DigitRun(rest[1..]);
        Some((whole * 1000000 + Millionths(rest[1..][..k]), rest[1..][k..]))
  }

  function Millionths(digits: string): nat
    requires AllDigits(digits)
  {
    if |digits| >= 6 then Value(digits[..6]) else Value(digits) * PowerOfTen(6 - |digits|)
  }

  lemma {:induction false} ValueOfPadded(n: nat, k: nat)
    requires n < PowerOfTen(k)
    ensures |Padded(n, k)| == k && AllDigits(Padded(n, k)) && Value(Padded(n, k)) == n
  {
    if k > 0 {
      ValueOfPadded(n / 10, k - 1);
      assert Padded(n, k)[..k - 1] == Padded(n / 10, k - 1);
    }
  }

  lemma ReadPrintedFixed(x: nat, rest: string)
    requires StopsDigits(rest)
    ensures ReadFixed(PrintFixed(x) + rest) == Some((x, rest))
  {
    var whole, part := x / 1000000, x % 1000000;
    var behind := Padded(part, 6) + rest;
    assert PowerOfTen(6) == 1000000 by { SixDigits(); }
    ValueOfPadded(part, 6);
    assert PrintFixed(x) + rest == Print(whole) + ("." + behind);
    ReadPrinted(whole, "." + behind);
    assert ("." + behind)[1..] == behind;
    RunEnds(Padded(part, 6), rest);
    hide Print, ReadNat, Padded, DigitRun, Value;
    assert behind[..6] == Padded(part, 6) && behind[6..] == rest;
    assert Padded(part, 6)[..6] == Padded(part, 6);
  }

  lemma SixDigits()
    ensures PowerOfTen(6) == 1000000
  {
    assert PowerOfTen(3) == 1000;
  }

  // ---------- Numbers and the character behind them ----------

  /** The text behind an expected character. */
  function Expect(s: string, c: char): Option<string> {
    if s != "" && s[0] == c then Some(s[1..]) else None
  }

  function ReadNatThen(s: string, c: char): Option<(nat, string)> {
    var read :- ReadNat(s);
    var rest :- Expect(read.1, c);
    Some((read.0, rest))
  }

  function ReadIntThen(s: string, c: char): Option<(int, string)> {
    var read :- ReadInt(s);
    var rest :- Expect(read.1, c);
    Some((read.0, rest))
  }

  function ReadFixedThen(s: string, c: char): Option<(nat, string)> {
    var read :- ReadFixed(s);
    var rest :- Expect(read.1, c);
    Some((read.0, rest))
  }

  lemma ReadPrintedThen(n: int, x: nat, c: char, rest: string)
    requires !IsDigit(c)
    ensures ReadIntThen(PrintInt(n) + [c] + rest, c) == Some((n, rest))
    ensures n >= 0 ==> ReadNatThen(Print(n) + [c] + rest, c) == Some((n, rest))
    ensures ReadFixedThen(PrintFixed(x) + [c] + rest, c) == Some((x, rest))
  {
    hide ReadInt, ReadNat, ReadFixed, PrintInt, Print, PrintFixed;
    var behind := [c] + rest;
    assert PrintInt(n) + [c] + rest == PrintInt(n) + behind;
    assert PrintFixed(x) + [c] + rest == PrintFixed(x) + behind;
    assert Expect(behind, c) == Some(rest);
    ReadPrintedInt(n, behind);
    ReadPrintedFixed(x, behind);
    if n >= 0 {
      assert Print(n) + [c] + rest == Print(n) + behind;
      ReadPrinted(n, behind);
    }
  }

  // ---------- Widths ----------

  lemma PowersOfTen()
    ensures PowerOfTen(10) == 10000000000 && PowerOfTen(20) == 100000000000000000000 && PowerOfTen(6) == 1000000
  {
    assert PowerOfTen(5) == 100000;
    assert PowerOfTen(10) == 10000000000;
    assert PowerOfTen(15) == 1000000000000000;
  }

  lemma IntFits(n: int)
    requires -0x8000_0000 <= n < 0x8000_0000
    ensures |PrintInt(n)| <= 11
  {
    PowersOfTen();
    PrintLength(if n < 0 then -n else n, 10);
  }

  lemma FixedFits(x: nat)
    requires x < 0x1_0000_0000_0000_0000
    ensures |Print(x)| <= 20 && |PrintFixed(x)| <= 27
  {
    PowersOfTen();
    PrintLength(x, 20);
    PrintLength(x / 1000000, 20);
    ValueOfPadded(x % 1000000, 6);
  }

  // ---------- Separators ----------

  /** c occurs in no printed number. */
  predicate Separates(c: char) {
    !IsDigit(c) && c != '-' && c != '.'
  }

  lemma NoSeparator(n: int, x: nat, c: char)
    requires Separates(c)
    ensures c !in PrintInt(n) && c !in PrintFixed(x)
  {
    PrintIsDigits(if n < 0 then -n else n);
    PrintIsDigits(x / 1000000);
    SixDigits();
    ValueOfPadded(x % 1000000, 6);
  }
}
