/** UE keys: one or more identifiers, one of which gives the primary key string. */
module UeKeys {
  import opened Options
  import opened Decimal
  import Ipv4

  datatype KeyType = SupiBased | GpsiBased | Ipv4Based | Ipv6Based | Ipv6PrefixBased | MacBased | Composite

  datatype UeKey = UeKey(
    kind: KeyType,
    supi: Option<string>,
    gpsi: Option<string>,
    ipv4: Option<string>,
    ipv6: Option<string>,
    ipv6Prefix: Option<string>,
    mac: Option<string>)
  {
    /** The identifier stored for a kind; composite keys have none of their own. */
    function Slot(k: KeyType): Option<string> {
      match k
      case SupiBased => supi
      case GpsiBased => gpsi
      case Ipv4Based => ipv4
      case Ipv6Based => ipv6
      case Ipv6PrefixBased => ipv6Prefix
      case MacBased => mac
      case Composite => None
    }

    /** The string that indexes the UE store. */
    function PrimaryKey(): string {
      match kind
      case SupiBased => "supi:" + ValueOr(supi)
      case GpsiBased => "gpsi:" + ValueOr(gpsi)
      case Ipv4Based => "ipv4:" + ValueOr(ipv4)
      case Ipv6Based => "ipv6:" + ValueOr(ipv6)
      case Ipv6PrefixBased => "ipv6_prefix:" + ValueOr(ipv6Prefix)
      case MacBased => "mac:" + ValueOr(mac)
      case Composite =>
        if supi.Some? then "supi:" + supi.value
        else if gpsi.Some? then "gpsi:" + gpsi.value
        else if ipv4.Some? then "ipv4:" + ipv4.value
        else if ipv6.Some? then "ipv6:" + ipv6.value
        else if ipv6Prefix.Some? then "ipv6_prefix:" + ipv6Prefix.value
        else if mac.Some? then "mac:" + mac.value
        else "unknown"
    }

    predicate CanPromoteToSupi() {
      kind != SupiBased && supi.Some?
    }

    function PromotedToSupi(): UeKey {
      if CanPromoteToSupi() then this.(kind := SupiBased) else this
    }

    function DemotedToComposite(): UeKey {
      this.(kind := Composite)
    }

    predicate SingleOf(k: KeyType) {
      k != Composite && kind in {k, Composite} && this == Single(k, ValueOr(Slot(k))).(kind := kind)
    }

    /** Exactly one identifier is present, and the kind is that identifier's or composite. */
    predicate SingleIdentifier() {
      exists k: KeyType :: SingleOf(k)
    }
  }

  function ValueOr(o: Option<string>): string {
    if o.Some? then o.value else ""
  }

  /** A key built from one identifier, as every constructor of the class builds it. */
  function Single(k: KeyType, value: string): UeKey {
    UeKey(
      k,
      if k == SupiBased then Some(value) else None,
      if k == GpsiBased then Some(value) else None,
      if k == Ipv4Based then Some(value) else None,
      if k == Ipv6Based then Some(value) else None,
      if k == Ipv6PrefixBased then Some(value) else None,
      if k == MacBased then Some(value) else None)
  }

  /** `validate_supi_format`: "imsi-" and 1 to 15 digits, or "nai-" and text holding an '@'. */
  predicate ValidSupi(s: string) {
    if "imsi-" <= s then 1 <= |s| - 5 <= 15 && AllDigits(s[5..])
    else "nai-" <= s && '@' in s[4..]
  }

  /** `validate_gpsi_format`: "+" and 1 to 15 digits, or user@domain with both sides present
      (the first '@' decides). */
  predicate ValidGpsi(s: string) {
    if "+" <= s then 1 <= |s| - 1 <= 15 && AllDigits(s[1..])
    else exists i :: 0 < i < |s| - 1 && s[i] == '@' && '@' !in s[..i]
  }

  predicate AllHex(s: string) {
    forall i :: 0 <= i < |s| ==> IsDigit(s[i]) || 'a' <= s[i] <= 'f' || 'A' <= s[i] <= 'F'
  }

  /** A group of up to four hexadecimal digits ends in a colon at i. */
  predicate GroupEnds(s: string, i: nat)
    requires i < |s|
  {
    i <= 4 && AllHex(s[..i]) && s[i] == ':'
  }

  /** n groups of up to four hexadecimal digits and a colon each, then one more group or an IPv4
      address. */
  ghost predicate HexGroups(s: string, n: nat) {
    if n == 0 then (|s| <= 4 && AllHex(s)) || Ipv4.StrictIpv4(s)
    else exists i :: 0 <= i < |s| && GroupEnds(s, i) && HexGroups(s[i + 1..], n - 1)
  }

  /** `validate_ipv6_format`. */
  ghost predicate ValidIpv6(s: string) {
    exists n :: 2 <= n <= 7 && HexGroups(s, n)
  }

  predicate ValidLength(s: string) {
    Stoi(s).Some? && 0 <= Stoi(s).value <= 128
  }

  /** `validate_ipv6_prefix_format`: the first slash ends the address; a length from 0 to 128 follows. */
  ghost predicate ValidIpv6Prefix(s: string) {
    exists i :: 0 <= i < |s| && s[i] == '/' && '/' !in s[..i] && ValidIpv6(s[..i]) && ValidLength(s[i + 1..])
  }

  /** The constructor of a key of this kind accepts the value. MAC addresses are not looked at. */
  ghost predicate WellFormed(k: KeyType, value: string)
    requires k != Composite && k != MacBased
  {
    match k
    case SupiBased => ValidSupi(value)
    case GpsiBased => ValidGpsi(value)
    case Ipv4Based => Ipv4.StrictIpv4(value)
    case Ipv6Based => ValidIpv6(value)
    case Ipv6PrefixBased => ValidIpv6Prefix(value)
  }

  function Prefix(k: KeyType): string {
    match k
    case SupiBased => "supi:"
    case GpsiBased => "gpsi:"
    case Ipv4Based => "ipv4:"
    case Ipv6Based => "ipv6:"
    case Ipv6PrefixBased => "ipv6_prefix:"
    case MacBased => "mac:"
    case Composite => "unknown"
  }

  // === What the formats take ===

  /** A SUPI is "imsi-" and one to fifteen digits, or "nai-" and text with an '@'; nothing else. */
  lemma SupiFormats(s: string, tail: string)
    ensures ValidSupi("imsi-" + tail) <==> tail != "" && |tail| <= 15 && forall i :: 0 <= i < |tail| ==> '0' <= tail[i] <= '9'
    ensures ValidSupi("nai-" + tail) <==> '@' in tail
    ensures ValidSupi(s) ==> |s| >= 4 && (s[..4] == "nai-" || (|s| > 4 && s[..5] == "imsi-"))
  {
    assert ("imsi-" + tail)[5..] == tail && ("nai-" + tail)[4..] == tail;
    assert ("nai-" + tail)[0] != "imsi-"[0];
  }

  /** A GPSI is "+" and one to fifteen digits, or two texts around an '@', the first without one. */
  lemma GpsiFormats(tail: string, user: string, domain: string)
    requires '@' !in user && !("+" <= user)
    ensures ValidGpsi("+" + tail) <==> tail != "" && |tail| <= 15 && forall i :: 0 <= i < |tail| ==> '0' <= tail[i] <= '9'
    ensures ValidGpsi(user + "@" + domain) <==> user != "" && domain != ""
  {
    assert ("+" + tail)[1..] == tail;
    var s := user + "@" + domain;
    assert s[|user|] == '@' && s[..|user|] == user;
    assert !("+" <= s);
    if i :| 0 < i < |s| - 1 && s[i] == '@' && '@' !in s[..i] {
      SameFirst(s, '@', i, |user|);
    }
  }

  lemma SameFirst(s: string, c: char, i: nat, j: nat)
    requires i < |s| && j < |s| && s[i] == c && s[j] == c && c !in s[..i] && c !in s[..j]
    ensures i == j
  {
    assert forall k :: 0 <= k < i ==> s[k] in s[..i];
    assert forall k :: 0 <= k < j ==> s[k] in s[..j];
  }

  lemma LengthReads(n: nat)
    requires n <= INT_MAX
    ensures ValidLength(Print(n)) <==> n <= 128
  {
    StoiPrintInt(n);
  }

  /** An IPv6 prefix is an address, a slash and a length from 0 to 128. */
  lemma Ipv6PrefixFormat(address: string, n: nat)
    requires '/' !in address && n <= INT_MAX
    ensures ValidIpv6Prefix(address + "/" + Print(n)) <==> ValidIpv6(address) && n <= 128
  {
    var s := address + "/" + Print(n);
    assert s[|address|] == '/' && s[..|address|] == address && s[|address| + 1..] == Print(n);
    LengthReads(n);
    if i :| 0 <= i < |s| && s[i] == '/' && '/' !in s[..i] && ValidIpv6(s[..i]) && ValidLength(s[i + 1..]) {
      SameFirst(s, '/', i, |address|);
    }
  }

  lemma NoDotInTail(s: string, i: nat)
    requires i < |s| && '.' !in s
    ensures '.' !in s[i + 1..]
  {
  }

  /** Without dots, n groups are at most that long. */
  lemma {:induction false} GroupsBounded(s: string, n: nat)
    requires HexGroups(s, n) && '.' !in s
    ensures |s| <= 5 * n + 4
    decreases n
  {
    if n == 0 {
      if Ipv4.StrictIpv4(s) {
        HasDot(s);
      }
    } else {
      var i :| 0 <= i < |s| && GroupEnds(s, i) && HexGroups(s[i + 1..], n - 1);
      NoDotInTail(s, i);
      GroupsBounded(s[i + 1..], n - 1);
      assert |s| == i + 1 + |s[i + 1..]|;
    }
  }

  lemma DotIn(a: string, b: string, c: string, d: string)
    ensures '.' in Ipv4.Dotted(a, b, c, d)
  {
    Ipv4.DottedSplit(a, b, c, d);
    assert "."[0] in ".";
  }

  lemma HasDot(s: string)
    requires Ipv4.StrictIpv4(s)
    ensures '.' in s
  {
    var a, b, c, d :| s == Ipv4.Dotted(a, b, c, d) && Ipv4.StrictOctet(a) && Ipv4.StrictOctet(b)
                      && Ipv4.StrictOctet(c) && Ipv4.StrictOctet(d);
    DotIn(a, b, c, d);
  }

  /** An IPv6 key value holds a colon and, unless it ends in an IPv4 address, at most 39 characters. */
  lemma Ipv6Format(s: string)
    requires ValidIpv6(s)
    ensures ':' in s && ('.' !in s ==> |s| <= 39)
  {
    var n :| 2 <= n <= 7 && HexGroups(s, n);
    if '.' !in s {
      GroupsBounded(s, n);
    }
  }

  /** A further group and colon in front of n groups make n + 1. */
  lemma OneMoreGroup(g: string, rest: string, n: nat)
    requires |g| <= 4 && AllHex(g) && HexGroups(rest, n)
    ensures HexGroups(g + ":" + rest, n + 1)
  {
    var s := g + ":" + rest;
    assert s[..|g|] == g && s[|g|] == ':' && s[|g| + 1..] == rest;
    assert GroupEnds(s, |g|);
  }

  // === Key strings ===

  lemma SamePrefix(k: KeyType, v: string, l: KeyType, w: string)
    requires k != Composite && l != Composite
    requires Prefix(k) + v == Prefix(l) + w
    ensures k == l && v == w
  {
    var s, t := Prefix(k) + v, Prefix(l) + w;
    assert s[0] == Prefix(k)[0] && t[0] == Prefix(l)[0];
    assert s[2] == Prefix(k)[2] && t[2] == Prefix(l)[2];
    assert s[3] == Prefix(k)[3] && t[3] == Prefix(l)[3];
    assert k != MacBased ==> s[4] == Prefix(k)[4];
    assert l != MacBased ==> t[4] == Prefix(l)[4];
    assert v == s[|Prefix(k)|..] && w == t[|Prefix(l)|..];
  }

  /** Primary key strings determine kind and value of single-identifier keys. */
  lemma PrimaryKeyInjective(k: KeyType, v: string, l: KeyType, w: string)
    requires k != Composite && l != Composite
    ensures Single(k, v).PrimaryKey() == Single(l, w).PrimaryKey() <==> k == l && v == w
  {
    if Single(k, v).PrimaryKey() == Single(l, w).PrimaryKey() {
      SamePrefix(k, v, l, w);
    }
  }

  /** Priority of the identifiers in a composite key: SUPI first, MAC last. */
  function Rank(k: KeyType): nat {
    match k
    case SupiBased => 0
    case GpsiBased => 1
    case Ipv4Based => 2
    case Ipv6Based => 3
    case Ipv6PrefixBased => 4
    case MacBased => 5
    case Composite => 6
  }

  /** Demoting a key keeps its primary key string exactly when no identifier that comes before the
      key's own in the composite order is present; so it always does for a single-identifier key. */
  lemma DemotionKeepsPrimaryKeyIff(key: UeKey)
    requires key.kind != Composite && key.Slot(key.kind).Some?
    ensures key.DemotedToComposite().PrimaryKey() == key.PrimaryKey() <==>
            forall k: KeyType :: key.Slot(k).Some? ==> Rank(key.kind) <= Rank(k)
  {
    var first :=
      if key.supi.Some? then SupiBased else if key.gpsi.Some? then GpsiBased
      else if key.ipv4.Some? then Ipv4Based else if key.ipv6.Some? then Ipv6Based
      else if key.ipv6Prefix.Some? then Ipv6PrefixBased else MacBased;
    assert key.Slot(first).Some?;
    assert key.DemotedToComposite().PrimaryKey() == Prefix(first) + key.Slot(first).value;
    assert key.PrimaryKey() == Prefix(key.kind) + key.Slot(key.kind).value;
    if key.DemotedToComposite().PrimaryKey() == key.PrimaryKey() {
      SamePrefix(first, key.Slot(first).value, key.kind, key.Slot(key.kind).value);
    }
  }

  lemma SingleDemotion(key: UeKey)
    requires key.SingleIdentifier()
    ensures key.DemotedToComposite().SingleIdentifier()
    ensures key.DemotedToComposite().PrimaryKey() == key.PrimaryKey()
  {
    var k: KeyType :| key.SingleOf(k);
    assert key.DemotedToComposite().SingleOf(k);
  }
}
