/** The two dotted-quad checks: the strict one used for UE keys and the lenient southbound one. */
module Ipv4 {
  import opened Decimal

  /** One octet of the key pattern: 25[0-5] | 2[0-4][0-9] | 1[0-9]{2} | [1-9]?[0-9]. */
  predicate StrictOctet(s: string) {
    || (|s| == 3 && s[0] == '2' && s[1] == '5' && '0' <= s[2] <= '5')
    || (|s| == 3 && s[0] == '2' && '0' <= s[1] <= '4' && IsDigit(s[2]))
    || (|s| == 3 && s[0] == '1' && IsDigit(s[1]) && IsDigit(s[2]))
    || (|s| == 2 && '1' <= s[0] <= '9' && IsDigit(s[1]))
    || (|s| == 1 && IsDigit(s[0]))
  }

  /** One octet of the southbound pattern: 25[0-5] | 2[0-4][0-9] | [01]?[0-9][0-9]?. */
  predicate LenientOctet(s: string) {
    || (|s| == 3 && s[0] == '2' && s[1] == '5' && '0' <= s[2] <= '5')
    || (|s| == 3 && s[0] == '2' && '0' <= s[1] <= '4' && IsDigit(s[2]))
    || (|s| == 3 && (s[0] == '0' || s[0] == '1') && IsDigit(s[1]) && IsDigit(s[2]))
    || (|s| == 2 && IsDigit(s[0]) && IsDigit(s[1]))
    || (|s| == 1 && IsDigit(s[0]))
  }

  function Dotted(a: string, b: string, c: string, d: string): string {
    a + "." + b + "." + c + "." + d
  }

  /** A full match of the key pattern (`UeKey::validate_ipv4_format`). */
  ghost predicate StrictIpv4(s: string) {
    exists a, b, c, d ::
      s == Dotted(a, b, c, d) && StrictOctet(a) && StrictOctet(b) && StrictOctet(c) && StrictOctet(d)
  }

  /** A full match of the southbound pattern (`is_valid_ipv4`). */
  ghost predicate LenientIpv4(s: string) {
    exists a, b, c, d ::
      s == Dotted(a, b, c, d) && LenientOctet(a) && LenientOctet(b) && LenientOctet(c) && LenientOctet(d)
  }

  function PrintQuad(a: nat, b: nat, c: nat, d: nat): string {
    Dotted(Print(a), Print(b), Print(c), Print(d))
  }

  /** The value of a string of one to three digits, spelled out. */
  lemma SmallValue(s: string)
    requires AllDigits(s) && 1 <= |s| <= 3
    ensures |s| == 1 ==> Value(s) == DigitValue(s[0])
    ensures |s| == 2 ==> Value(s) == 10 * DigitValue(s[0]) + DigitValue(s[1])
    ensures |s| == 3 ==> Value(s) == 100 * DigitValue(s[0]) + 10 * DigitValue(s[1]) + DigitValue(s[2])
  {
    assert Value("") == 0;
    assert s[..1] == [s[0]] && s[..1][..0] == "";
    assert Value(s[..1]) == DigitValue(s[0]);
    if |s| == 1 {
      assert s == s[..1];
    } else if |s| == 2 {
      assert s[..|s| - 1] == s[..1];
    } else {
      assert s[..2][..1] == s[..1];
      assert Value(s[..2]) == 10 * Value(s[..1]) + DigitValue(s[1]);
      assert s[..|s| - 1] == s[..2];
    }
  }

  /** A number with more than three digits is at least 1000. */
  lemma {:induction false} LongValue(s: string)
    requires Canonical(s) && |s| >= 4
    ensures Value(s) >= 1000
  {
    var front := s[..|s| - 1];
    if |s| == 4 {
      SmallValue(front);
    } else {
      LongValue(front);
    }
  }

  /** The strict octets are exactly the printings of the numbers below 256. */
  lemma StrictOctetIsByte(s: string)
    ensures StrictOctet(s) <==> Canonical(s) && Value(s) < 256
  {
    if Canonical(s) && |s| <= 3 {
      SmallValue(s);
    } else if Canonical(s) {
      LongValue(s);
    }
  }

  /** The lenient octets are the strings of one to three digits below 256: leading zeros allowed. */
  lemma LenientOctetIsByte(s: string)
    ensures LenientOctet(s) <==> AllDigits(s) && 1 <= |s| <= 3 && Value(s) < 256
  {
    if AllDigits(s) && 1 <= |s| <= 3 {
      SmallValue(s);
    }
  }

  lemma StrictOctetPrints(s: string)
    requires StrictOctet(s)
    ensures exists n: nat :: n < 256 && s == Print(n)
  {
    StrictOctetIsByte(s);
    CanonicalIsPrint(s);
  }

  /** The strings accepted as IPv4 keys are exactly the canonical printings of four bytes. */
  lemma StrictIpv4Exact(s: string)
    ensures StrictIpv4(s) <==>
            exists a: nat, b: nat, c: nat, d: nat ::
              a < 256 && b < 256 && c < 256 && d < 256 && s == PrintQuad(a, b, c, d)
  {
    if StrictIpv4(s) {
      var a, b, c, d :| s == Dotted(a, b, c, d) && StrictOctet(a) && StrictOctet(b) && StrictOctet(c) && StrictOctet(d);
      StrictOctetPrints(a);
      StrictOctetPrints(b);
      StrictOctetPrints(c);
      StrictOctetPrints(d);
      var k: nat :| k < 256 && a == Print(k);
      var l: nat :| l < 256 && b == Print(l);
      var m: nat :| m < 256 && c == Print(m);
      var n: nat :| n < 256 && d == Print(n);
      assert s == PrintQuad(k, l, m, n);
    }
    if a: nat, b: nat, c: nat, d: nat :|
      a < 256 && b < 256 && c < 256 && d < 256 && s == PrintQuad(a, b, c, d)
    {
      PrintIsCanonical(a);
      PrintIsCanonical(b);
      PrintIsCanonical(c);
      PrintIsCanonical(d);
      StrictOctetIsByte(Print(a));
      StrictOctetIsByte(Print(b));
      StrictOctetIsByte(Print(c));
      StrictOctetIsByte(Print(d));
    }
  }

  lemma DottedSplit(a: string, b: string, c: string, d: string)
    ensures Dotted(a, b, c, d) == a + ("." + (b + "." + c + "." + d))
  {
  }

  lemma OctetThenDot(a: string, rest: string)
    requires StrictOctet(a) && (a + ("." + rest))[0] == '0'
    ensures (a + ("." + rest))[1] == '.'
  {
    assert (a + ("." + rest))[0] == a[0];
    assert |a| == 1;
  }

  /** A strict octet that starts with '0' is "0", so a dot follows. */
  lemma NoLeadingZero(s: string)
    requires StrictIpv4(s) && |s| >= 2 && s[0] == '0'
    ensures s[1] == '.'
  {
    var a, b, c, d :| s == Dotted(a, b, c, d) && StrictOctet(a) && StrictOctet(b) && StrictOctet(c) && StrictOctet(d);
    DottedSplit(a, b, c, d);
    OctetThenDot(a, b + "." + c + "." + d);
  }

  /** Every IPv4 key value passes the southbound check. */
  lemma StrictImpliesLenient(s: string)
    requires StrictIpv4(s)
    ensures LenientIpv4(s)
  {
    var a, b, c, d :| s == Dotted(a, b, c, d) && StrictOctet(a) && StrictOctet(b) && StrictOctet(c) && StrictOctet(d);
    assert LenientOctet(a) && LenientOctet(b) && LenientOctet(c) && LenientOctet(d);
  }

  /** The converse fails: the southbound check takes leading zeros. */
  lemma LenientIsWider()
    ensures LenientIpv4("01.2.3.4") && !StrictIpv4("01.2.3.4")
  {
    assert "01.2.3.4" == Dotted("01", "2", "3", "4");
    if StrictIpv4("01.2.3.4") {
      NoLeadingZero("01.2.3.4");
    }
  }
}
