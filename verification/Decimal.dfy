/** Decimal text: `std::to_string` on integers, `std::stoi`, and the laws that tie the two. */
module Decimal {
  import opened Options

  predicate IsDigit(c: char) {
    '0' <= c <= '9'
  }

  function DigitOf(d: nat): (c: char)
    requires d < 10
  {
    '0' + d as char
  }

  function DigitValue(c: char): nat
    requires IsDigit(c)
  {
    (c - '0') as nat
  }

  predicate AllDigits(s: string) {
    forall i :: 0 <= i < |s| ==> IsDigit(s[i])
  }

  /** `std::to_string` on a non-negative integer. */
  function Print(n: nat): string {
    if n < 10 then [DigitOf(n)] else Print(n / 10) + [DigitOf(n % 10)]
  }

  /** `std::to_string` on any integer. */
  function PrintInt(n: int): string {
    if n < 0 then "-" + Print(-n) else Print(n)
  }

  /** The number a digit string denotes. */
  function Value(s: string): nat
    requires AllDigits(s)
  {
    if s == "" then 0 else 10 * Value(s[..|s| - 1]) + DigitValue(s[|s| - 1])
  }

  /** No leading zero, except for "0" itself. */
  predicate Canonical(s: string) {
    AllDigits(s) && |s| >= 1 && (|s| > 1 ==> s[0] != '0')
  }

  lemma {:induction false} PrintIsCanonical(n: nat)
    ensures Canonical(Print(n))
    ensures Value(Print(n)) == n
    ensures n > 0 ==> Print(n)[0] != '0'
  {
    if n < 10 {
      assert Print(n)[..0] == "";
    } else {
      PrintIsCanonical(n / 10);
      var p := Print(n / 10);
      assert Print(n)[..|p|] == p;
    }
  }

  lemma {:induction false} CanonicalIsPrint(s: string)
    requires Canonical(s)
    ensures s == Print(Value(s))
    ensures s[0] != '0' ==> Value(s) > 0
  {
    var front := s[..|s| - 1];
    assert s == front + [s[|s| - 1]];
    if front == "" {
      assert Value(front) == 0;
    } else {
      assert front[0] == s[0];
      CanonicalIsPrint(front);
    }
  }

  /** The strings that print some number are exactly the canonical ones. */
  lemma CanonicalIffPrinted(s: string)
    ensures Canonical(s) <==> exists n: nat :: s == Print(n)
  {
    if Canonical(s) {
      CanonicalIsPrint(s);
    }
    if n: nat :| s == Print(n) {
      PrintIsCanonical(n);
    }
  }

  /** Length of the longest prefix made of digits. */
  function DigitRun(s: string): (n: nat)
    ensures n <= |s|
    ensures AllDigits(s[..n])
    ensures n < |s| ==> !IsDigit(s[n])
  {
    if s == "" || !IsDigit(s[0]) then 0
    else
      var rest := DigitRun(s[1..]);
      assert forall i :: 1 <= i < 1 + rest ==> s[i] == s[1..][..rest][i - 1];
      1 + rest
  }

  const INT_MAX: int := 0x7fff_ffff
  const INT_MIN: int := -0x8000_0000

  /** The blanks of the "C" locale: space, and tab to carriage return. */
  predicate IsSpace(c: char) {
    c == ' ' || 9 <= c as int <= 13
  }

  /** `std::stoi`: optional blanks, optional sign, then digits; trailing text is ignored.
      None stands for the exceptions it throws (no digits, or out of the range of an int). */
  function Stoi(s: string): Option<int> {
    if s != "" && IsSpace(s[0]) then Stoi(s[1..])
    else
      var negative := s != "" && s[0] == '-';
      var body := if s != "" && (s[0] == '-' || s[0] == '+') then s[1..] else s;
      var n := DigitRun(body);
      if n == 0 then None
      else
        var v := if negative then -(Value(body[..n]) as int) else Value(body[..n]);
        if INT_MIN <= v <= INT_MAX then Some(v) else None
  }

  /** Leading blanks are skipped: the space, tab, line feed, vertical tab, form feed, carriage return. */
  lemma StoiSkipsBlank(c: char, s: string)
    requires c == ' ' || c == '\t' || c == '\n' || c == '\r' || c == 11 as char || c == 12 as char
    ensures Stoi([c] + s) == Stoi(s)
  {
    assert ([c] + s)[1..] == s;
  }

  /** Reading back what `std::to_string` printed gives the number, if it fits an int. */
  lemma StoiPrintInt(n: int)
    ensures Stoi(PrintInt(n)) == if INT_MIN <= n <= INT_MAX then Some(n) else None
  {
    var m: nat := if n < 0 then -n else n;
    PrintIsCanonical(m);
    var digits := Print(m);
    assert DigitRun(digits) == |digits|;
    assert digits[..|digits|] == digits;
    var text := PrintInt(n);
    if n < 0 {
      assert text[1..] == digits;
    } else {
      assert IsDigit(text[0]);
    }
  }
}
