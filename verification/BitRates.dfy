/** What BitRate text denotes (clause 5.5.2 of 3GPP TS 29.571), for the rates the converter emits and for
    those the parser reads. */
module BitRates {
  import opened Options
  import opened Decimal
  import opened PccRules

  /** Bits per second in one of the unit. */
  function UnitFactor(unit: string): nat {
    if unit == "Kbps" then 1000
    else if unit == "Mbps" then 1000_000
    else if unit == "Gbps" then 1000_000_000
    else if unit == "Tbps" then 1000_000_000_000
    else 1
  }

  function Pow10(n: nat): (p: nat)
    ensures p >= 1
  {
    if n == 0 then 1 else 10 * Pow10(n - 1)
  }

  /** The value of "" or of a dot and digits. */
  function FractionValue(fraction: string): real
    requires fraction == "" || SomeDigits(fraction[1..])
  {
    if fraction == "" then 0.0 else Value(fraction[1..]) as real / Pow10(|fraction| - 1) as real
  }

  /** The text is BitRate text for that many bits per second. */
  ghost predicate Denotes(s: string, bits: real) {
    exists whole, fraction, unit :: RateParts(s, whole, fraction, unit) && bits == PartsValue(whole, fraction, unit)
  }

  function PartsValue(whole: string, fraction: string, unit: string): real
    requires SomeDigits(whole) && (fraction == "" || SomeDigits(fraction[1..]))
  {
    (Value(whole) as real + FractionValue(fraction)) * UnitFactor(unit) as real
  }

  // === Texts made of a number and a unit ===

  predicate IsUnit(unit: string) {
    unit in {"bps", "Kbps", "Mbps", "Gbps", "Tbps"}
  }

  function RateText(n: nat, unit: string): string {
    Print(n) + " " + unit
  }

  /** The space ends the number: two ways to split such a text are one. */
  lemma SpaceSplits(a: string, u: string, b: string, v: string)
    requires a + " " + u == b + " " + v && ' ' !in a && ' ' !in b
    ensures a == b && u == v
  {
    var s := a + " " + u;
    assert s[|a|] == ' ' && s[|b|] == ' ';
    assert forall i :: 0 <= i < |a| ==> s[i] == a[i];
    assert forall i :: 0 <= i < |b| ==> s[i] == b[i];
    assert |a| == |b|;
    assert a == s[..|a|] && b == s[..|b|];
    assert u == s[|a| + 1..] && v == s[|b| + 1..];
  }

  lemma TailOfDigits(whole: string, fraction: string, digits: string)
    requires whole + fraction == digits && AllDigits(digits)
    ensures fraction != "" ==> IsDigit(fraction[0])
  {
    if fraction != "" {
      assert digits[|whole|] == fraction[0];
    }
  }

  lemma OnlyParts(n: nat, unit: string, whole: string, fraction: string, other: string)
    requires RateParts(RateText(n, unit), whole, fraction, other)
    ensures whole == Print(n) && fraction == "" && other == unit
  {
    PrintIsCanonical(n);
    assert forall i :: 0 <= i < |Print(n)| ==> IsDigit(Print(n)[i]);
    assert forall i :: 0 <= i < |whole + fraction| ==>
        (whole + fraction)[i] == (if i < |whole| then whole[i] else if i == |whole| then '.' else fraction[1..][i - |whole| - 1]);
    SpaceSplits(whole + fraction, other, Print(n), unit);
    TailOfDigits(whole, fraction, Print(n));
    assert whole + "" == whole;
  }

  lemma OwnParts(n: nat, unit: string)
    requires IsUnit(unit)
    ensures RateParts(RateText(n, unit), Print(n), "", unit)
    ensures PartsValue(Print(n), "", unit) == (n * UnitFactor(unit)) as real
  {
    PrintIsCanonical(n);
    assert RateText(n, unit) == Print(n) + "" + " " + unit;
  }

  /** Such a text denotes the number times the unit's factor, and nothing else. */
  lemma RateTextDenotes(n: nat, unit: string, bits: real)
    requires IsUnit(unit)
    ensures Denotes(RateText(n, unit), bits) <==> bits == (n * UnitFactor(unit)) as real
  {
    OwnParts(n, unit);
    if whole, fraction, other :|
      RateParts(RateText(n, unit), whole, fraction, other) && bits == PartsValue(whole, fraction, other)
    {
      OnlyParts(n, unit, whole, fraction, other);
    }
  }

  // === Emitted rates ===

  /** A printed rate denotes that many kilobits per second. */
  lemma KbpsDenotes(n: Int32, bits: real)
    requires n >= 0
    ensures Denotes(Kbps(n), bits) <==> bits == (1000 * n) as real
  {
    assert Kbps(n) == RateText(n, "Kbps");
    RateTextDenotes(n, "Kbps", bits);
  }

  /** The field is there exactly when one of the pair is positive, and denotes the rate in kilobits. */
  ghost predicate Emits(qos: map<string, Json>, key: string, rate: Int32, other: Int32) {
    && (key in qos <==> rate > 0 || other > 0)
    && (key in qos ==> qos[key].JString? && forall bits :: Denotes(qos[key].s, bits) <==> bits == (1000 * rate) as real)
  }

  lemma FieldEmits(m: map<string, Json>, key: string, rate: Int32, other: Int32)
    requires rate >= 0 && other >= 0
    requires key in m <==> rate > 0 || other > 0
    requires key in m ==> m[key] == JString(Kbps(rate))
    ensures Emits(m, key, rate, other)
  {
    forall bits {
      KbpsDenotes(rate, bits);
    }
  }

  /** The four rates of a valid rule go out under their own keys, each denoting its own value. */
  lemma RatesEmitted(r: PccRule)
    requires Valid(r)
    ensures var qos := QosData(r);
            && Emits(qos, "gbrUl", r.gbrUl, r.gbrDl) && Emits(qos, "gbrDl", r.gbrDl, r.gbrUl)
            && Emits(qos, "mbrUl", r.mbrUl, r.mbrDl) && Emits(qos, "mbrDl", r.mbrDl, r.mbrUl)
            && "5qi" in qos && qos["5qi"] == JInt(r.fiveQi)
  {
    KeysDiffer();
    FieldEmits(QosData(r), "gbrUl", r.gbrUl, r.gbrDl);
    FieldEmits(QosData(r), "gbrDl", r.gbrDl, r.gbrUl);
    FieldEmits(QosData(r), "mbrUl", r.mbrUl, r.mbrDl);
    FieldEmits(QosData(r), "mbrDl", r.mbrDl, r.mbrUl);
  }

  /** A 5QI read from JSON keeps its low 32 bits: the value itself just when it fits. */
  lemma FiveQiKeepsLowBits(n: int)
    ensures (Narrow(n) - n) % 0x1_0000_0000 == 0
    ensures Narrow(n) == n <==> INT_MIN <= n <= INT_MAX
  {
  }

  // === Parsed rates ===

  lemma {:induction false} FoundIsThere(s: string, t: string, i: nat)
    requires t != ""
    ensures FindFrom(s, t, i).Some? ==> FindFrom(s, t, i).value < |s| && s[FindFrom(s, t, i).value] == t[0]
    decreases |s| - i
  {
    if i + |t| <= |s| {
      if s[i..i + |t|] == t {
        assert s[i] == s[i..i + |t|][0];
      } else {
        FoundIsThere(s, t, i + 1);
      }
    }
  }

  lemma StoiOfNumber(n: nat, tail: string)
    requires n <= INT_MAX && (tail != "" ==> !IsDigit(tail[0]))
    ensures Stoi(Print(n) + tail) == Some(n)
  {
    PrintIsCanonical(n);
    var s := Print(n) + tail;
    assert s[..|Print(n)|] == Print(n) && s[0] == Print(n)[0];
    assert forall i :: 0 <= i < |Print(n)| ==> s[i] == Print(n)[i];
    assert tail != "" ==> s[|Print(n)|] == tail[0];
    RunIs(s, |Print(n)|);
  }

  lemma RunIs(s: string, n: nat)
    requires n <= |s| && AllDigits(s[..n]) && (n < |s| ==> !IsDigit(s[n]))
    ensures DigitRun(s) == n
  {
    var m := DigitRun(s);
    assert forall i :: 0 <= i < n ==> s[..n][i] == s[i];
    assert forall i :: 0 <= i < m ==> s[..m][i] == s[i];
  }

  lemma OnlyBlank(a: string, b: string, k: nat)
    requires ' ' !in a && ' ' !in b && k < |a + " " + b| && (a + " " + b)[k] == ' '
    ensures k == |a|
  {
    var s := a + " " + b;
    assert forall i :: 0 <= i < |a| ==> s[i] == a[i] && a[i] in a;
    assert forall i :: |a| < i < |s| ==> s[i] == b[i - |a| - 1] && b[i - |a| - 1] in b;
  }

  lemma NoBlanks(n: nat, unit: string)
    requires IsUnit(unit)
    ensures ' ' !in Print(n) && ' ' !in unit
  {
    PrintIsCanonical(n);
  }

  /** Wherever a blank and a unit are found, the number ends. */
  lemma FoundAtBlank(n: nat, unit: string, t: string)
    requires IsUnit(unit) && t != "" && t[0] == ' '
    ensures Find(RateText(n, unit), t).Some? ==> Find(RateText(n, unit), t).value == |Print(n)|
  {
    FoundIsThere(RateText(n, unit), t, 0);
    NoBlanks(n, unit);
    if Find(RateText(n, unit), t).Some? {
      OnlyBlank(Print(n), unit, Find(RateText(n, unit), t).value);
    }
  }

  /** The parser takes the number and does not look at the unit. */
  lemma ParserTakesNumber(n: nat, unit: string)
    requires n <= INT_MAX && IsUnit(unit)
    ensures ParseBandwidth(RateText(n, unit)) == n
  {
    var s := RateText(n, unit);
    FoundAtBlank(n, unit, " Kbps");
    FoundAtBlank(n, unit, " kbps");
    assert s == Print(n) + (" " + unit);
    assert s[..|Print(n)|] == Print(n) + "";
    StoiOfNumber(n, "");
    StoiOfNumber(n, " " + unit);
  }

  /** So what it reads, taken as kilobits, is what the text denotes exactly for kilobits or nothing. */
  lemma ParserMeansItIff(n: nat, unit: string)
    requires n <= INT_MAX && IsUnit(unit)
    ensures Denotes(RateText(n, unit), (1000 * ParseBandwidth(RateText(n, unit))) as real) <==> n == 0 || unit == "Kbps"
  {
    ParserTakesNumber(n, unit);
    RateTextDenotes(n, unit, (1000 * n) as real);
    FactorIsThousandIff(unit);
    if n > 0 && UnitFactor(unit) != 1000 {
      assert n * UnitFactor(unit) != n * 1000;
    }
  }

  lemma FactorIsThousandIff(unit: string)
    ensures UnitFactor(unit) == 1000 <==> unit == "Kbps"
  {
  }
}
